/**
 * The catalog screen: the fixed list of eight items, the status it shows for
 * each from the progress string, the stage index a click passes on, and the
 * refresh of its cached progress.
 */
module Catalog {
  import opened Wrappers
  import opened UserDocuments
  import StageProgress
  import StageScreens
  import RotationGuide

  /** The screen an item opens: the rotation guide, or the screen of stage `number`. */
  datatype Screen = RotationGuideScreen | StageScreen(number: nat)

  datatype CatalogItem = CatalogItem(title: string, screen: Screen, isRotationGuide: bool)

  /** initCatalogData: the rotation guide first, then stages 1 to 7. */
  function CatalogItems(): (items: seq<CatalogItem>)
    ensures |items| == 8
    ensures forall p | 0 <= p < |items| :: items[p].isRotationGuide <==> p == 0
    ensures items[0].screen == RotationGuideScreen
    ensures forall p | 1 <= p < |items| :: items[p].screen == StageScreen(p)
  {
    [ CatalogItem("Язык вращения", RotationGuideScreen, true),
      CatalogItem("Этап 1", StageScreen(1), false),
      CatalogItem("Этап 2", StageScreen(2), false),
      CatalogItem("Этап 3", StageScreen(3), false),
      CatalogItem("Этап 4", StageScreen(4), false),
      CatalogItem("Этап 5", StageScreen(5), false),
      CatalogItem("Этап 6", StageScreen(6), false),
      CatalogItem("Этап 7", StageScreen(7), false) ]
  }

  /** The "stage_index" extra a click on `position` puts in the intent; the rotation guide gets none. */
  function StageIndexExtra(position: nat): (r: Option<int>)
    requires position < |CatalogItems()|
    ensures r.None? <==> position == 0
    ensures r.Some? ==> r.value == position - 1
  {
    if !CatalogItems()[position].isRotationGuide then Some(position - 1) else None
  }

  /**
   * The status onBindViewHolder shows for `position`: its character of the
   * progress is '1'. The progress is indexed without a bounds check, so it
   * must reach `position`. It agrees with the opened screen's own test.
   */
  function ItemCompleted(progress: string, position: nat): (r: bool)
    requires position < |CatalogItems()| && position < |progress|
    ensures position == 0 ==> (r <==> RotationGuide.IsRotationGuideCompleted(progress))
    ensures position > 0 ==> (r <==> StageProgress.IsStageCompleted(progress, position))
  {
    progress[position] == '1'
  }

  /**
   * A click on a stage item opens a screen whose progress slot is the item's
   * position: Stage1 derives it from the extra, and Stage4 and Stage7 fix the
   * same index the catalog passes them.
   */
  lemma ClickOpensSlotOfPosition(position: nat)
    requires 1 <= position < |CatalogItems()|
    ensures StageProgress.StagePosition(StageIndexExtra(position).value) == position
    ensures position == 1 ==> StageScreens.Position(StageScreens.Stage1, StageIndexExtra(position)) == position
    ensures position == 4 ==> StageScreens.Position(StageScreens.Stage4, StageIndexExtra(position)) == position
    ensures position == 7 ==> StageScreens.Position(StageScreens.Stage7, StageIndexExtra(position)) == position
    ensures position == 4 ==> StageScreens.StageIndex(StageScreens.Stage4, None) == StageIndexExtra(position).value
    ensures position == 7 ==> StageScreens.StageIndex(StageScreens.Stage7, None) == StageIndexExtra(position).value
  {
  }

  /**
   * Once a stage screen has marked its slot, the catalog shows that item as
   * completed, and every item it showed as completed stays so.
   */
  lemma MarkShowsInCatalog(progress: string, position: nat, other: nat)
    requires 1 <= position < |CatalogItems()| && other < |CatalogItems()|
    requires |progress| >= |CatalogItems()|
    ensures ItemCompleted(StageProgress.Marked(progress, position), position)
    ensures ItemCompleted(progress, other) ==> ItemCompleted(StageProgress.Marked(progress, position), other)
  {
  }

  /** The catalog screen's state: its cached copy of the user's progress. */
  class CatalogScreen {
    const guestMode: bool
    var stagesProgress: string

    /** onCreate: the "stages_progress" extra outside guest mode, "00000000" otherwise or when absent. */
    constructor (guestMode: bool, progressExtra: Option<string>)
      ensures this.guestMode == guestMode
      ensures stagesProgress == if guestMode then DefaultProgress else progressExtra.GetOr(DefaultProgress)
    {
      this.guestMode := guestMode;
      stagesProgress := DefaultProgress;
      if !guestMode {
        stagesProgress := progressExtra.GetOr(DefaultProgress);
      }
    }

    /** The status shown on item `position`: none in guest mode. */
    function ItemStatus(position: nat): (r: Option<bool>)
      reads this
      requires position < |CatalogItems()|
      requires !guestMode ==> position < |stagesProgress|
      ensures r.None? <==> guestMode
      ensures r.Some? ==> (r.value <==> stagesProgress[position] == '1')
    {
      if guestMode then None else Some(ItemCompleted(stagesProgress, position))
    }

    /**
     * updateStagesProgressFromFirebase: the fetched progress ("00000000"
     * when the field is missing) replaces the cached one only when it
     * differs, and then the list is redrawn (`notified`). Nothing happens
     * when no user document is found.
     */
    method UpdateStagesProgressFromFirebase(found: Option<UserDocument>) returns (notified: bool)
      modifies this
      ensures found.None? ==> stagesProgress == old(stagesProgress)
      ensures found.Some? ==> stagesProgress == StoredProgress(found.value)
      ensures notified <==> found.Some? && StoredProgress(found.value) != old(stagesProgress)
    {
      notified := false;
      if found.Some? {
        var newProgress := StoredProgress(found.value);
        if newProgress != stagesProgress {
          stagesProgress := newProgress;
          notified := true;
        }
      }
    }
  }
}
