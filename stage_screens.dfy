/**
 * What the three stage screens do with the progress string and the session
 * log: which slot each one tests and marks, and which stage number each one
 * records when it opens.
 */
module StageScreens {
  import opened Wrappers
  import opened UserDocuments
  import opened StageProgress
  import StatisticManager

  datatype StageScreen = Stage1 | Stage4 | Stage7

  /**
   * The stageIndex a screen works with: Stage1 takes the "stage_index" extra
   * of its intent, 0 when absent; Stage4 and Stage7 fix theirs.
   */
  function StageIndex(screen: StageScreen, stageIndexExtra: Option<int>): int
  {
    match screen
    case Stage1 => stageIndexExtra.GetOr(0)
    case Stage4 => 3
    case Stage7 => 6
  }

  /** An intent's "stage_index" extra is a Kotlin Int. */
  predicate IsIntExtra(stageIndexExtra: Option<int>)
  {
    stageIndexExtra.Some? ==> IsInt(stageIndexExtra.value)
  }

  /**
   * The progress slot a screen tests and marks. Stage1's slot wraps to a
   * negative Int for the largest extra.
   */
  function Position(screen: StageScreen, stageIndexExtra: Option<int>): (r: int)
    requires IsIntExtra(stageIndexExtra)
    ensures screen == Stage1 && stageIndexExtra.GetOr(0) < IntMax ==> r == stageIndexExtra.GetOr(0) + 1
    ensures screen == Stage1 && stageIndexExtra.GetOr(0) == IntMax ==> r == IntMin
    ensures screen == Stage4 ==> r == 4
    ensures screen == Stage7 ==> r == 7
  {
    StagePosition(StageIndex(screen, stageIndexExtra))
  }

  /**
   * Stage1's slot is negative exactly for an extra below -1 or equal to
   * IntMax; every index the catalog passes (0 to 6) gives a valid slot.
   */
  lemma Stage1SlotNegative(extra: int)
    requires IsInt(extra)
    ensures Position(Stage1, Some(extra)) < 0 <==> extra < -1 || extra == IntMax
    ensures 0 <= extra <= 6 ==> Position(Stage1, Some(extra)) == extra + 1
  {
  }

  /** The stage number a screen records in the session log (independent of its stageIndex). */
  function SessionStage(screen: StageScreen): nat
  {
    match screen
    case Stage1 => 1
    case Stage4 => 4
    case Stage7 => 7
  }

  /**
   * The stage number a screen records when it opens, None when it records
   * nothing. Stage4 and Stage7 do nothing with the user in guest mode; every
   * screen skips recording when the "username" extra is missing or empty.
   */
  function SessionOnOpen(screen: StageScreen, guestMode: bool, usernameExtra: Option<string>): (r: Option<nat>)
    ensures r.Some? <==> (screen == Stage1 || !guestMode) && usernameExtra.GetOr("") != ""
    ensures r.Some? ==> r.value == SessionStage(screen)
  {
    if screen != Stage1 && guestMode then None
    else
      var currentUser := usernameExtra.GetOr("");
      if currentUser == "" then None else Some(SessionStage(screen))
  }

  /**
   * What recordSessionInFirebase writes when a screen that records `stage`
   * opens for a found user: a user without a statistic starts a one-session
   * log for today, and whenever a log is written, its first session dated
   * today holds the screen's stage.
   */
  lemma OpenRecordsVisit(screen: StageScreen, doc: UserDocument, today: StatisticManager.Day,
                         decode: StatisticManager.Decoder)
    ensures var w := StatisticManager.Recorded(StoredStatistic(doc), SessionStage(screen), today, decode);
      && (doc.statistic.None? ==> w == Some([StatisticManager.Session(today, [SessionStage(screen)])]))
      && (w.Some? ==>
            && StatisticManager.FirstSessionOn(w.value, today).Some?
            && SessionStage(screen) in w.value[StatisticManager.FirstSessionOn(w.value, today).value].stages)
  {
    var stage := SessionStage(screen);
    var current := StoredStatistic(doc);
    if current == [] {
      assert StatisticManager.FirstSessionOn([StatisticManager.Session(today, [stage])], today) == Some(0);
    } else {
      var clean := StatisticManager.Unwrap(current);
      if clean.Some? {
        var sessions := StatisticManager.SessionsOf(decode(clean.value));
        if sessions.Some? {
          StatisticManager.RecordVisitRecords(sessions.value, stage, today);
        }
      }
    }
  }

  /**
   * Whether the "mark completed" button marks the stage: Stage4 and Stage7
   * attach no action to it in guest mode; Stage1 always does.
   */
  function MarksOnClick(screen: StageScreen, guestMode: bool): (r: bool)
    ensures r <==> screen == Stage1 || !guestMode
  {
    match screen
    case Stage1 => true
    case Stage4 => !guestMode
    case Stage7 => !guestMode
  }

  /** The button state loadProgressFromFirebase sets for a stored user: completed or not. */
  function ShowsCompleted(screen: StageScreen, stageIndexExtra: Option<int>, doc: UserDocument): (r: bool)
    requires IsIntExtra(stageIndexExtra) && Position(screen, stageIndexExtra) >= 0
    ensures r <==> |StoredProgress(doc)| > Position(screen, stageIndexExtra)
                   && StoredProgress(doc)[Position(screen, stageIndexExtra)] == '1'
  {
    IsStageCompleted(StoredProgress(doc), Position(screen, stageIndexExtra))
  }

  /** The progress markStageAsCompleted writes back for a stored user. */
  function ProgressAfterMark(screen: StageScreen, stageIndexExtra: Option<int>, doc: UserDocument): (r: string)
    requires IsIntExtra(stageIndexExtra) && Position(screen, stageIndexExtra) >= 0
    ensures |r| >= |StoredProgress(doc)| && |r| > Position(screen, stageIndexExtra)
    ensures r[Position(screen, stageIndexExtra)] == '1'
    ensures forall i | 0 <= i < |StoredProgress(doc)| && i != Position(screen, stageIndexExtra) ::
      r[i] == StoredProgress(doc)[i]
  {
    Marked(StoredProgress(doc), Position(screen, stageIndexExtra))
  }

  /**
   * Once the marked progress is stored, the screen shows its stage as
   * completed, and every slot completed before still is.
   */
  lemma MarkThenShowsCompleted(screen: StageScreen, stageIndexExtra: Option<int>, doc: UserDocument)
    requires IsIntExtra(stageIndexExtra) && Position(screen, stageIndexExtra) >= 0
    ensures var stored := doc.(stagesProgress := Some(ProgressAfterMark(screen, stageIndexExtra, doc)));
      && ShowsCompleted(screen, stageIndexExtra, stored)
      && Extends(StoredProgress(doc), StoredProgress(stored))
  {
    MarkedExtends(StoredProgress(doc), Position(screen, stageIndexExtra));
  }

  /**
   * A user without a stored progress field: Stage7 marks the last slot of
   * the default in place, Stage4 slot 4, Stage1 (opened from the catalog
   * with stageIndex 0) slot 1.
   */
  lemma MarkFromDefaultProgress(doc: UserDocument)
    requires doc.stagesProgress.None?
    ensures ProgressAfterMark(Stage7, None, doc) == "00000001"
    ensures ProgressAfterMark(Stage4, None, doc) == "00001000"
    ensures ProgressAfterMark(Stage1, Some(0), doc) == "01000000"
  {
    var p7 := ProgressAfterMark(Stage7, None, doc);
    assert forall i | 0 <= i < 8 :: p7[i] == "00000001"[i];
    var p4 := ProgressAfterMark(Stage4, None, doc);
    assert forall i | 0 <= i < 8 :: p4[i] == "00001000"[i];
    var p1 := ProgressAfterMark(Stage1, Some(0), doc);
    assert forall i | 0 <= i < 8 :: p1[i] == "01000000"[i];
  }
}
