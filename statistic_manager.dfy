/**
 * The rolling session log stored in a user's "statistic" field, and the
 * seven-day chart series the catalog screen draws from it.
 *
 * Dates are day numbers (`d + 1` is the day after `d`) and the current day
 * is a parameter, fixed for the whole of one call. The JSON text itself is
 * abstracted: a `Decoder` turns the cleaned-up text into a typed document,
 * or fails where the JSON library would throw.
 */
module StatisticManager {
  import opened Wrappers

  /** A calendar date as a day number. */
  type Day = int

  /** One log entry: a date and the stage numbers visited on it. */
  datatype Session = Session(date: Day, stages: seq<int>)

  /** A parsed statistic document; `sessions` is None when it has no "sessions" key. */
  datatype Statistic = Statistic(sessions: Option<seq<Session>>)

  /**
   * Parsing of the document text. None stands for every exception the JSON
   * library raises while reading it: malformed text, a session without a
   * date or without a stage list, a stage that is not an integer.
   */
  type Decoder = string -> Option<Statistic>

  /** The chart: one label and one count per day, oldest day first. */
  datatype Chart = Chart(labels: seq<string>, counts: seq<nat>)

  /** The most sessions kept once a new one has been appended. */
  const MaxSessions: nat := 7

  /** The number of days the chart covers, ending today. */
  const ChartDays: nat := 7

  const Quote: char := '"'
  const Backslash: char := '\\'

  // ---------------------------------------------------------------------
  // Cleaning up a doubly encoded document

  /** Every `\"` replaced by `"`, scanning left to right without overlaps. */
  function Unescape(s: string): (r: string)
    ensures |r| <= |s|
    ensures Backslash !in s ==> r == s
  {
    if s == [] then []
    else if s[0] == Backslash && |s| >= 2 && s[1] == Quote then [Quote] + Unescape(s[2..])
    else [s[0]] + Unescape(s[1..])
  }

  /** Every `"` escaped as `\"`: the inverse of Unescape. */
  function Escape(s: string): (r: string)
    ensures |r| >= |s|
    ensures r != [] ==> r[0] != Quote
  {
    if s == [] then []
    else (if s[0] == Quote then [Backslash, Quote] else [s[0]]) + Escape(s[1..])
  }

  /** A document text stored as a quoted string value, inner quotes escaped. */
  function Wrap(s: string): string
  {
    [Quote] + Escape(s) + [Quote]
  }

  /**
   * The clean-up both entry points apply before parsing: one pair of outer
   * quotes is dropped when the text both starts and ends with `"`, then
   * every `\"` becomes `"`. The one-character text `"` starts and ends with
   * a quote, and removing the pair from it throws (None).
   */
  function Unwrap(s: string): (r: Option<string>)
    ensures r.None? <==> s == [Quote]
    ensures r.Some? ==> |r.value| <= |s|
    ensures Backslash !in s && (s == [] || s[0] != Quote) ==> r == Some(s)
    ensures Backslash !in s && |s| >= 1 && s[|s| - 1] != Quote ==> r == Some(s)
    ensures |s| >= 2 && s[0] == Quote && s[|s| - 1] == Quote ==> r == Some(Unescape(s[1..|s| - 1]))
    ensures !(|s| >= 1 && s[0] == Quote && s[|s| - 1] == Quote) ==> r == Some(Unescape(s))
  {
    if |s| >= 1 && s[0] == Quote && s[|s| - 1] == Quote then
      if |s| == 1 then None else Some(Unescape(s[1..|s| - 1]))
    else
      Some(Unescape(s))
  }

  lemma {:induction false} UnescapeEscape(s: string)
    ensures Unescape(Escape(s)) == s
  {
    if s != [] {
      UnescapeEscape(s[1..]);
      var rest := Escape(s[1..]);
      if s[0] == Quote {
        assert Escape(s) == [Backslash, Quote] + rest;
        assert (Escape(s))[2..] == rest;
      } else {
        assert Escape(s) == [s[0]] + rest;
        assert (Escape(s))[1..] == rest;
        assert |Escape(s)| >= 2 ==> Escape(s)[1] != Quote;
      }
    }
  }

  /** A document whose quotes were escaped, without outer quotes, comes back intact. */
  lemma UnwrapEscape(s: string)
    ensures Unwrap(Escape(s)) == Some(s)
  {
    UnescapeEscape(s);
  }

  /** A document stored once more as a quoted string comes back intact. */
  lemma UnwrapWrap(s: string)
    ensures Unwrap(Wrap(s)) == Some(s)
  {
    var w := Wrap(s);
    assert w[1..|w| - 1] == Escape(s);
    UnescapeEscape(s);
  }

  // ---------------------------------------------------------------------
  // The session log

  /** No two sessions share a date. */
  predicate UniqueDates(sessions: seq<Session>)
  {
    forall i, j | 0 <= i < j < |sessions| :: sessions[i].date != sessions[j].date
  }

  /** No stage number occurs twice. */
  predicate NoDuplicates(stages: seq<int>)
  {
    forall i, j | 0 <= i < j < |stages| :: stages[i] != stages[j]
  }

  /** The log invariants: one session per date, no repeated stage within a session. */
  predicate WellFormedLog(sessions: seq<Session>)
  {
    UniqueDates(sessions) && forall i | 0 <= i < |sessions| :: NoDuplicates(sessions[i].stages)
  }

  /** The position of the first session dated `day`, if there is one. */
  function FirstSessionOn(sessions: seq<Session>, day: Day): (r: Option<nat>)
    ensures r.None? <==> forall i | 0 <= i < |sessions| :: sessions[i].date != day
    ensures r.Some? ==> r.value < |sessions| && sessions[r.value].date == day
    ensures r.Some? ==> forall i | 0 <= i < r.value :: sessions[i].date != day
  {
    if sessions == [] then None
    else if sessions[0].date == day then Some(0)
    else match FirstSessionOn(sessions[1..], day)
      case None => None
      case Some(i) => Some(i + 1)
  }

  /** `stage` appended to a stage list unless it is already there. */
  function AddStage(stages: seq<int>, stage: int): seq<int>
  {
    if stage in stages then stages else stages + [stage]
  }

  /** The last `n` entries of a log, in their order. */
  function KeepLast(sessions: seq<Session>, n: nat): seq<Session>
  {
    if |sessions| > n then sessions[|sessions| - n..] else sessions
  }

  /** The log after a visit to `stage` on `today`. */
  function RecordVisit(sessions: seq<Session>, stage: int, today: Day): (r: seq<Session>)
    ensures r != [] && |r| <= |sessions| + 1
    ensures |sessions| <= MaxSessions ==> |r| <= MaxSessions
    ensures forall k | 0 <= k < |r| :: r[k].date == today || r[k] in sessions
  {
    match FirstSessionOn(sessions, today)
    case Some(i) => sessions[i := sessions[i].(stages := AddStage(sessions[i].stages, stage))]
    case None => KeepLast(sessions + [Session(today, [stage])], MaxSessions)
  }

  /** The "sessions" array of a parsed document; None where reading it throws. */
  function SessionsOf(parsed: Option<Statistic>): Option<seq<Session>>
  {
    match parsed
    case None => None
    case Some(statistic) => statistic.sessions
  }

  /**
   * The sessions addSessionToStatistic writes back for the stored text
   * `current`; None where it throws.
   */
  function Recorded(current: string, stage: int, today: Day, decode: Decoder): Option<seq<Session>>
  {
    if current == [] then Some([Session(today, [stage])])
    else match Unwrap(current)
      case None => None
      case Some(clean) =>
        match SessionsOf(decode(clean))
        case None => None
        case Some(sessions) => Some(RecordVisit(sessions, stage, today))
  }

  /**
   * Records a visit to `stage` today. An empty text starts a one-session
   * log; text that cannot be read, or that has no "sessions", is an error.
   */
  method AddSessionToStatistic(current: string, stage: int, today: Day, decode: Decoder)
    returns (r: Option<seq<Session>>)
    ensures current == [] ==> r == Some([Session(today, [stage])])
    ensures r == Recorded(current, stage, today, decode)
  {
    if current == [] {
      return Some([Session(today, [stage])]);
    }
    var cleaned := Unwrap(current);
    if cleaned.None? {
      return None;
    }
    var clean := cleaned.value;
    var parsed := SessionsOf(decode(clean));
    if parsed.None? {
      return None;
    }
    var sessions := parsed.value;

    var todayIndex := -1;
    var i := 0;
    while i < |sessions|
      invariant 0 <= i <= |sessions|
      invariant todayIndex == -1
      invariant forall k | 0 <= k < i :: sessions[k].date != today
    {
      if sessions[i].date == today {
        todayIndex := i;
        break;
      }
      i := i + 1;
    }

    if todayIndex == -1 {
      r := AddNewSessionToStatistic(clean, today, stage, decode);
      return;
    }
    assert FirstSessionOn(sessions, today) == Some(todayIndex);

    var stages := sessions[todayIndex].stages;
    var stageExists := false;
    var j := 0;
    while j < |stages|
      invariant 0 <= j <= |stages|
      invariant !stageExists
      invariant stage !in stages[..j]
    {
      if stages[j] == stage {
        stageExists := true;
        break;
      }
      j := j + 1;
    }
    assert stageExists <==> stage in stages by {
      if !stageExists { assert stages[..|stages|] == stages; }
    }

    if !stageExists {
      stages := stages + [stage];
    }
    sessions := sessions[todayIndex := sessions[todayIndex].(stages := stages)];
    r := Some(sessions);
  }

  /**
   * Appends a session for today holding only `stage` to the log parsed from
   * `clean`, then keeps the last seven sessions.
   */
  method AddNewSessionToStatistic(clean: string, today: Day, stage: int, decode: Decoder)
    returns (r: Option<seq<Session>>)
    ensures SessionsOf(decode(clean)).None? ==> r.None?
    ensures SessionsOf(decode(clean)).Some? ==>
      r == Some(KeepLast(SessionsOf(decode(clean)).value + [Session(today, [stage])], MaxSessions))
  {
    var parsed := SessionsOf(decode(clean));
    if parsed.None? {
      return None;
    }
    var sessions := parsed.value + [Session(today, [stage])];
    if |sessions| > MaxSessions {
      var kept: seq<Session> := [];
      var i := |sessions| - MaxSessions;
      while i < |sessions|
        invariant |sessions| - MaxSessions <= i <= |sessions|
        invariant kept == sessions[|sessions| - MaxSessions..i]
      {
        kept := kept + [sessions[i]];
        i := i + 1;
      }
      assert kept == sessions[|sessions| - MaxSessions..];
      sessions := kept;
    }
    r := Some(sessions);
  }

  /**
   * A visit on a day the log already has: the first session of that day
   * gains the stage if it lacked it, and nothing else changes.
   */
  lemma RecordVisitOnLoggedDay(sessions: seq<Session>, stage: int, today: Day, i: nat)
    requires i < |sessions| && sessions[i].date == today
    requires forall k | 0 <= k < i :: sessions[k].date != today
    ensures var r := RecordVisit(sessions, stage, today);
      && |r| == |sessions|
      && (forall k | 0 <= k < |r| && k != i :: r[k] == sessions[k])
      && r[i].date == today
      && stage in r[i].stages
      && r[i].stages[..|sessions[i].stages|] == sessions[i].stages
      && |r[i].stages| == |sessions[i].stages| + (if stage in sessions[i].stages then 0 else 1)
  {
    assert FirstSessionOn(sessions, today) == Some(i);
  }

  /**
   * A visit on a day the log lacks: a session for it holding only the stage
   * is appended last, and of the longer log only the last seven remain.
   */
  lemma RecordVisitOnNewDay(sessions: seq<Session>, stage: int, today: Day)
    requires forall k | 0 <= k < |sessions| :: sessions[k].date != today
    ensures var r := RecordVisit(sessions, stage, today);
      && |r| == (if |sessions| < MaxSessions then |sessions| + 1 else MaxSessions)
      && r[|r| - 1] == Session(today, [stage])
      && forall k | 0 <= k < |r| - 1 :: r[k] == sessions[|sessions| + 1 - |r| + k]
  {
    assert FirstSessionOn(sessions, today).None?;
  }

  /** A full log that gains a new day loses its first entry. */
  lemma RecordVisitEvictsOldest(sessions: seq<Session>, stage: int, today: Day)
    requires |sessions| == MaxSessions
    requires forall k | 0 <= k < |sessions| :: sessions[k].date != today
    ensures RecordVisit(sessions, stage, today) == sessions[1..] + [Session(today, [stage])]
  {
    assert FirstSessionOn(sessions, today).None?;
    var t := sessions + [Session(today, [stage])];
    assert t[|t| - MaxSessions..] == sessions[1..] + [Session(today, [stage])];
  }

  /** After a visit, the first session dated today holds the stage. */
  lemma RecordVisitRecords(sessions: seq<Session>, stage: int, today: Day)
    ensures var r := RecordVisit(sessions, stage, today);
      FirstSessionOn(r, today).Some? && stage in r[FirstSessionOn(r, today).value].stages
  {
    var r := RecordVisit(sessions, stage, today);
    match FirstSessionOn(sessions, today)
    case Some(i) =>
      assert forall k | 0 <= k < |r| :: r[k].date == sessions[k].date;
      assert FirstSessionOn(r, today) == Some(i);
    case None =>
      RecordVisitOnNewDay(sessions, stage, today);
      assert FirstSessionOn(r, today) == Some(|r| - 1);
  }

  /** Recording the same stage twice on one day is recording it once. */
  lemma RecordVisitIdempotent(sessions: seq<Session>, stage: int, today: Day)
    ensures RecordVisit(RecordVisit(sessions, stage, today), stage, today)
         == RecordVisit(sessions, stage, today)
  {
    var r := RecordVisit(sessions, stage, today);
    RecordVisitRecords(sessions, stage, today);
    var i := FirstSessionOn(r, today).value;
    assert AddStage(r[i].stages, stage) == r[i].stages;
    assert r[i := r[i].(stages := r[i].stages)] == r;
  }

  /** A visit keeps the log invariants, and keeps a log of at most seven sessions so. */
  lemma RecordVisitPreservesWellFormed(sessions: seq<Session>, stage: int, today: Day)
    requires WellFormedLog(sessions)
    ensures WellFormedLog(RecordVisit(sessions, stage, today))
    ensures |sessions| <= MaxSessions ==> |RecordVisit(sessions, stage, today)| <= MaxSessions
  {
    var r := RecordVisit(sessions, stage, today);
    match FirstSessionOn(sessions, today)
    case Some(i) =>
      var old_ := sessions[i].stages;
      assert forall k | 0 <= k < |r| :: r[k].date == sessions[k].date;
      assert NoDuplicates(AddStage(old_, stage)) by {
        if stage !in old_ {
          var s := old_ + [stage];
          forall a, b | 0 <= a < b < |s| ensures s[a] != s[b] {
            if b == |old_| { assert s[a] == old_[a]; }
          }
        }
      }
    case None =>
      RecordVisitOnNewDay(sessions, stage, today);
      var off := |sessions| + 1 - |r|;
      forall a, b | 0 <= a < b < |r| ensures r[a].date != r[b].date {
        if b == |r| - 1 {
          assert r[a] == sessions[off + a];
        } else {
          assert r[a] == sessions[off + a] && r[b] == sessions[off + b];
        }
      }
      forall a | 0 <= a < |r| ensures NoDuplicates(r[a].stages) {
        if a < |r| - 1 { assert r[a] == sessions[off + a]; }
      }
  }

  // ---------------------------------------------------------------------
  // The chart series

  /** The distinct stage numbers of a stage list. */
  function DistinctStages(stages: seq<int>): set<int>
  {
    set x | x in stages
  }

  /**
   * The distinct stages the chart attributes to `day`: those of the LAST
   * session dated `day` (a later session overrides an earlier one of the
   * same date), none if there is no such session.
   */
  function StagesOn(sessions: seq<Session>, day: Day): set<int>
  {
    if sessions == [] then {}
    else if sessions[|sessions| - 1].date == day then DistinctStages(sessions[|sessions| - 1].stages)
    else StagesOn(sessions[..|sessions| - 1], day)
  }

  /** The chart value for `day`. */
  function CountOn(sessions: seq<Session>, day: Day): nat
  {
    |StagesOn(sessions, day)|
  }

  /** A map lookup that reads a missing day as 0 (Kotlin's `map[k] ?: 0`). */
  function Lookup(m: map<Day, nat>, day: Day): nat
  {
    if day in m then m[day] else 0
  }

  /**
   * The sessions getChartData reads from `current`: none for an empty text
   * or a document without "sessions"; None where it throws.
   */
  function ChartSessions(current: string, decode: Decoder): Option<seq<Session>>
  {
    if current == [] then Some([])
    else match Unwrap(current)
      case None => None
      case Some(clean) =>
        match decode(clean)
        case None => None
        case Some(statistic) => Some(statistic.sessions.GetOr([]))
  }

  /** The seven labels ending today, each with a zero count. */
  method CreateLast7Days(today: Day, dayLabel: Day -> string) returns (labels: seq<string>, counts: seq<nat>)
    ensures |labels| == ChartDays && |counts| == ChartDays
    ensures forall k | 0 <= k < ChartDays :: labels[k] == dayLabel(today - (ChartDays - 1) + k) && counts[k] == 0
  {
    labels, counts := [], [];
    var i: int := ChartDays - 1;
    while i >= 0
      invariant -1 <= i <= ChartDays - 1
      invariant |labels| == |counts| == ChartDays - 1 - i
      invariant forall k | 0 <= k < |labels| :: labels[k] == dayLabel(today - (ChartDays - 1) + k) && counts[k] == 0
    {
      labels := labels + [dayLabel(today - i)];
      counts := counts + [0];
      i := i - 1;
    }
  }

  /** The set of distinct stages of one session, built one stage at a time. */
  method UniqueStages(stages: seq<int>) returns (unique: set<int>)
    ensures unique == DistinctStages(stages)
  {
    unique := {};
    for j := 0 to |stages|
      invariant unique == DistinctStages(stages[..j])
    {
      assert stages[..j + 1] == stages[..j] + [stages[j]];
      unique := unique + {stages[j]};
    }
    assert stages[..|stages|] == stages;
  }

  /**
   * Seven labels and seven counts for the days today - 6 .. today, oldest
   * first; each count is the number of distinct stages the log attributes to
   * that day. An empty text, or one without "sessions", gives zero counts.
   */
  method GetChartData(current: string, today: Day, decode: Decoder, dayLabel: Day -> string)
    returns (r: Option<Chart>)
    ensures r.None? <==> ChartSessions(current, decode).None?
    ensures r.Some? ==> |r.value.labels| == ChartDays && |r.value.counts| == ChartDays
    ensures r.Some? ==> forall k | 0 <= k < ChartDays ::
      r.value.labels[k] == dayLabel(today - (ChartDays - 1) + k) &&
      r.value.counts[k] == CountOn(ChartSessions(current, decode).value, today - (ChartDays - 1) + k)
    ensures current == [] ==> r.Some? && forall k | 0 <= k < ChartDays :: r.value.counts[k] == 0
  {
    var labels, counts := CreateLast7Days(today, dayLabel);
    if current != [] {
      var cleaned := Unwrap(current);
      if cleaned.None? {
        return None;
      }
      var parsed := decode(cleaned.value);
      if parsed.None? {
        return None;
      }
      if parsed.value.sessions.Some? {
        var sessions := parsed.value.sessions.value;

        var sessionMap: map<Day, nat> := map[];
        var i := 0;
        while i < |sessions|
          invariant 0 <= i <= |sessions|
          invariant forall d :: Lookup(sessionMap, d) == CountOn(sessions[..i], d)
        {
          var unique := UniqueStages(sessions[i].stages);
          ghost var before := sessionMap;
          sessionMap := sessionMap[sessions[i].date := |unique|];
          forall d ensures Lookup(sessionMap, d) == CountOn(sessions[..i + 1], d) {
            assert Lookup(before, d) == CountOn(sessions[..i], d);
            var prefix := sessions[..i + 1];
            assert prefix[|prefix| - 1] == sessions[i];
            assert prefix[..|prefix| - 1] == sessions[..i];
          }
          i := i + 1;
        }
        assert sessions[..|sessions|] == sessions;

        labels, counts := [], [];
        var k: int := ChartDays - 1;
        while k >= 0
          invariant -1 <= k <= ChartDays - 1
          invariant |labels| == |counts| == ChartDays - 1 - k
          invariant forall n | 0 <= n < |labels| ::
            labels[n] == dayLabel(today - (ChartDays - 1) + n) &&
            counts[n] == CountOn(sessions, today - (ChartDays - 1) + n)
        {
          labels := labels + [dayLabel(today - k)];
          counts := counts + [Lookup(sessionMap, today - k)];
          k := k - 1;
        }
      }
    }
    r := Some(Chart(labels, counts));
  }

  /** A day no session carries has no stages. */
  lemma {:induction false} StagesOnAbsent(sessions: seq<Session>, day: Day)
    requires forall k | 0 <= k < |sessions| :: sessions[k].date != day
    ensures StagesOn(sessions, day) == {}
  {
    if sessions != [] {
      StagesOnAbsent(sessions[..|sessions| - 1], day);
    }
  }

  /** The last session dated `day` decides the stages of that day. */
  lemma {:induction false} StagesOnLast(sessions: seq<Session>, day: Day, j: nat)
    requires j < |sessions| && sessions[j].date == day
    requires forall k | j < k < |sessions| :: sessions[k].date != day
    ensures StagesOn(sessions, day) == DistinctStages(sessions[j].stages)
  {
    if j < |sessions| - 1 {
      StagesOnLast(sessions[..|sessions| - 1], day, j);
    }
  }

  /** A session dated another day, added first or last, changes nothing on `day`. */
  lemma {:induction false} StagesOnIgnoresOtherDay(sessions: seq<Session>, x: Session, day: Day)
    requires x.date != day
    ensures StagesOn([x] + sessions, day) == StagesOn(sessions, day)
    ensures StagesOn(sessions + [x], day) == StagesOn(sessions, day)
  {
    assert (sessions + [x])[..|sessions|] == sessions;
    if sessions != [] {
      var front := sessions[..|sessions| - 1];
      assert ([x] + sessions)[..|sessions|] == [x] + front;
      StagesOnIgnoresOtherDay(front, x, day);
    }
  }

  /** Without repeated stages, the count of a session is its length. */
  lemma {:induction false} DistinctStagesOfNoDuplicates(stages: seq<int>)
    requires NoDuplicates(stages)
    ensures |DistinctStages(stages)| == |stages|
  {
    if stages != [] {
      var rest := stages[1..];
      assert NoDuplicates(rest);
      DistinctStagesOfNoDuplicates(rest);
      assert stages[0] !in rest;
      assert DistinctStages(stages) == DistinctStages(rest) + {stages[0]};
    }
  }

  /**
   * With one session per date, a visit adds exactly the visited stage to
   * today's chart bar.
   */
  lemma VisitAddsToToday(sessions: seq<Session>, stage: int, today: Day)
    requires UniqueDates(sessions)
    ensures StagesOn(RecordVisit(sessions, stage, today), today) == StagesOn(sessions, today) + {stage}
  {
    var r := RecordVisit(sessions, stage, today);
    match FirstSessionOn(sessions, today)
    case Some(i) =>
      StagesOnLast(sessions, today, i);
      assert forall k | 0 <= k < |r| :: r[k].date == sessions[k].date;
      StagesOnLast(r, today, i);
      assert DistinctStages(AddStage(sessions[i].stages, stage)) == DistinctStages(sessions[i].stages) + {stage};
    case None =>
      StagesOnAbsent(sessions, today);
      RecordVisitOnNewDay(sessions, stage, today);
      StagesOnLast(r, today, |r| - 1);
      assert DistinctStages([stage]) == {stage};
  }

  /**
   * A log holding one session, stages 0 and 2 on `first`, counts 2 on that
   * day and 0 on every other; with `first` six days ago, the chart reads
   * 2, 0, 0, 0, 0, 0, 0.
   */
  lemma ChartOfOneSession(first: Day)
    ensures forall d :: CountOn([Session(first, [0, 2])], d) == (if d == first then 2 else 0)
  {
    var log := [Session(first, [0, 2])];
    assert DistinctStages([0, 2]) == {0, 2};
    assert log[..0] == [];
    forall d ensures CountOn(log, d) == (if d == first then 2 else 0) {
      if d != first {
        assert StagesOn(log, d) == StagesOn(log[..0], d);
      }
    }
  }
}
