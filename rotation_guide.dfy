/** The rotation guide screen: it owns slot 0 of the progress string and records stage 0. */
module RotationGuide {
  import opened Wrappers
  import opened UserDocuments
  import StageProgress

  /** The stage number the rotation guide records in the session log. */
  const RotationGuideSessionStage: nat := 0

  /** The screen's completion test: the progress is non-empty and starts with '1'. */
  function IsRotationGuideCompleted(progress: string): (r: bool)
    ensures r <==> StageProgress.IsStageCompleted(progress, 0)
  {
    |progress| != 0 && progress[0] == '1'
  }

  /**
   * markRotationGuideAsCompleted: '1' followed by the progress without its
   * first character. On an empty progress `substring(1)` throws (None).
   */
  function MarkRotationGuideAsCompleted(progress: string): (r: Option<string>)
    ensures r.None? <==> progress == []
    ensures r.Some? ==> |r.value| == |progress| && IsRotationGuideCompleted(r.value)
    ensures r.Some? ==> forall i | 1 <= i < |progress| :: r.value[i] == progress[i]
  {
    if progress == [] then None else Some("1" + progress[1..])
  }

  /**
   * On a non-empty progress the rotation guide's own rule is the stage rule
   * applied to slot 0; on the empty one the stage rule would pad to "1"
   * where this rule throws.
   */
  lemma MarkAgreesWithStageRule(progress: string)
    ensures progress != [] ==> MarkRotationGuideAsCompleted(progress) == Some(StageProgress.Marked(progress, 0))
    ensures StageProgress.Marked([], 0) == "1"
  {
    if progress != [] {
      var mine := MarkRotationGuideAsCompleted(progress).value;
      var stages := StageProgress.Marked(progress, 0);
      assert |mine| == |stages|;
      forall i | 0 <= i < |mine| ensures mine[i] == stages[i] {
      }
      assert mine == stages;
    }
    assert |StageProgress.Marked([], 0)| == 1;
  }

  /** Marking the rotation guide twice is marking it once. */
  lemma MarkIdempotent(progress: string)
    requires progress != []
    ensures MarkRotationGuideAsCompleted(MarkRotationGuideAsCompleted(progress).value)
         == MarkRotationGuideAsCompleted(progress)
  {
    var once := MarkRotationGuideAsCompleted(progress).value;
    assert once[1..] == progress[1..];
  }

  /** A user without a stored progress field gets "10000000". */
  lemma MarkDefaultProgress(doc: UserDocument)
    requires doc.stagesProgress.None?
    ensures MarkRotationGuideAsCompleted(StoredProgress(doc)) == Some("10000000")
  {
    var marked := MarkRotationGuideAsCompleted(StoredProgress(doc)).value;
    assert |marked| == 8;
    assert forall i | 0 <= i < 8 :: marked[i] == "10000000"[i];
    assert marked == "10000000";
  }

  /**
   * The stage number recorded when the screen opens: 0, outside guest mode
   * and only when the "username" extra is present and non-empty.
   */
  function SessionOnOpen(guestMode: bool, usernameExtra: Option<string>): (r: Option<nat>)
    ensures r.Some? <==> !guestMode && usernameExtra.GetOr("") != ""
    ensures r.Some? ==> r.value == RotationGuideSessionStage
  {
    if guestMode then None
    else
      var currentUser := usernameExtra.GetOr("");
      if currentUser == "" then None else Some(RotationGuideSessionStage)
  }
}
