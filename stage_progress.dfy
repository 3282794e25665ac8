/**
 * The progress string: one character per slot, '1' for a completed slot.
 * Slot 0 belongs to the rotation guide, and the stage whose stageIndex is k
 * uses slot k + 1. Every stage screen tests and marks its slot by the rules
 * below.
 */
module StageProgress {

  /** The range of Kotlin's 32-bit Int. */
  const IntMin: int := -0x8000_0000
  const IntMax: int := 0x7fff_ffff

  predicate IsInt(x: int)
  {
    IntMin <= x <= IntMax
  }

  /**
   * The slot of the stage whose stageIndex is `stageIndex`: `stageIndex + 1`
   * in 32-bit Int arithmetic, which wraps from IntMax to IntMin.
   */
  function StagePosition(stageIndex: int): (r: int)
    requires IsInt(stageIndex)
    ensures IsInt(r)
    ensures (r - (stageIndex + 1)) % 0x1_0000_0000 == 0
    ensures r < 0 ==> stageIndex < -1 || stageIndex == IntMax
  {
    if stageIndex == IntMax then IntMin else stageIndex + 1
  }

  /** Only '0' and '1' characters. */
  predicate IsBitstring(s: string)
  {
    forall i | 0 <= i < |s| :: s[i] == '0' || s[i] == '1'
  }

  /** The completion test: the slot exists and holds '1'; a slot past the end is not completed. */
  function IsStageCompleted(progress: string, position: nat): (r: bool)
    ensures r ==> position < |progress|
    ensures IsBitstring(progress) && position < |progress| ==> (r <==> progress[position] != '0')
  {
    |progress| > position && progress[position] == '1'
  }

  /** `s` extended with `pad` up to length `n` (Kotlin's padEnd). */
  function PadEnd(s: string, n: nat, pad: char): (r: string)
    ensures |r| == if |s| >= n then |s| else n
    ensures r[..|s|] == s
    ensures forall i | |s| <= i < |r| :: r[i] == pad
  {
    if |s| >= n then s else s + seq(n - |s|, _ => pad)
  }

  /**
   * The progress after marking slot `position` completed: the slot is set
   * in place when it exists; otherwise the string is first padded with '0'
   * to `position + 1` characters.
   */
  function Marked(progress: string, position: nat): (r: string)
    ensures |r| == if |progress| > position then |progress| else position + 1
    ensures r[position] == '1'
    ensures forall i | 0 <= i < |r| && i != position ::
      r[i] == (if i < |progress| then progress[i] else '0')
  {
    if |progress| > position then progress[position := '1']
    else PadEnd(progress, position + 1, '0')[position := '1']
  }

  /** markStageAsCompleted: a character buffer holding the (padded) progress, one character set. */
  method MarkStageAsCompleted(progress: string, position: nat) returns (r: string)
    ensures r == Marked(progress, position)
  {
    var text := if |progress| > position then progress else PadEnd(progress, position + 1, '0');
    var buffer := new char[|text|](i requires 0 <= i < |text| => text[i]);
    buffer[position] := '1';
    r := buffer[..];
  }

  /** `after` is no shorter than `before` and keeps every '1' of it. */
  predicate Extends(before: string, after: string)
  {
    |after| >= |before| && forall i | 0 <= i < |before| :: before[i] == '1' ==> after[i] == '1'
  }

  /** Marking completes exactly the marked slot and leaves every other slot's state alone. */
  lemma MarkedCompletion(progress: string, position: nat, other: nat)
    ensures IsStageCompleted(Marked(progress, position), other)
        <==> other == position || IsStageCompleted(progress, other)
  {
  }

  /** Marking never shortens the progress and never clears a '1'. */
  lemma MarkedExtends(progress: string, position: nat)
    ensures Extends(progress, Marked(progress, position))
  {
  }

  /** Marking a slot twice is marking it once. */
  lemma MarkedIdempotent(progress: string, position: nat)
    ensures Marked(Marked(progress, position), position) == Marked(progress, position)
  {
    var once := Marked(progress, position);
    assert once[position := '1'] == once;
  }

  /** The order in which two slots are marked does not matter. */
  lemma MarkedCommutes(progress: string, a: nat, b: nat)
    ensures Marked(Marked(progress, a), b) == Marked(Marked(progress, b), a)
  {
    var ab := Marked(Marked(progress, a), b);
    var ba := Marked(Marked(progress, b), a);
    assert |ab| == |ba|;
    forall i | 0 <= i < |ab| ensures ab[i] == ba[i] {
    }
  }

  /** A string of '0' and '1' stays one when marked. */
  lemma MarkedKeepsBitstring(progress: string, position: nat)
    requires IsBitstring(progress)
    ensures IsBitstring(Marked(progress, position))
  {
  }

  /** The progress after marking each slot of `positions` in turn. */
  function MarkAll(progress: string, positions: seq<nat>): string
    decreases positions
  {
    if positions == [] then progress
    else MarkAll(Marked(progress, positions[0]), positions[1..])
  }

  /**
   * Monotonicity over any run of marks: nothing is shortened or cleared,
   * and every marked slot ends up completed.
   */
  lemma {:induction false} MarkAllExtends(progress: string, positions: seq<nat>)
    ensures Extends(progress, MarkAll(progress, positions))
    ensures forall k | 0 <= k < |positions| :: IsStageCompleted(MarkAll(progress, positions), positions[k])
    decreases positions
  {
    if positions != [] {
      var next := Marked(progress, positions[0]);
      MarkAllExtends(next, positions[1..]);
      var last := MarkAll(progress, positions);
      assert last == MarkAll(next, positions[1..]);
      forall k | 0 <= k < |positions| ensures IsStageCompleted(last, positions[k]) {
        if k > 0 {
          assert positions[k] == positions[1..][k - 1];
        } else {
          assert IsStageCompleted(next, positions[0]);
        }
      }
    }
  }

  /** Marking a slot past the end pads with '0'; marking inside sets in place. */
  lemma MarkedExamples()
    ensures Marked("00000000", 9) == "0000000001"
    ensures Marked("00000000", 7) == "00000001"
  {
    var padded := Marked("00000000", 9);
    assert |padded| == 10;
    assert forall i | 0 <= i < 10 :: padded[i] == "0000000001"[i];
    var inPlace := Marked("00000000", 7);
    assert forall i | 0 <= i < 8 :: inPlace[i] == "00000001"[i];
  }
}
