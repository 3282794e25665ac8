# CollectTheCube: session log and stage progress

CollectTheCube is an Android app that teaches solving a Rubik's cube. It has
a rotation guide and seven stage screens. Each user's Firestore document
holds two fields that the screens read and rewrite:

- `statistic`: a JSON document with a rolling log of sessions. A session is a
  date plus the stage numbers opened on that date. The log keeps at most seven
  sessions once a new day is appended. The catalog screen turns it into a
  seven-day bar chart: for each day, the number of distinct stages opened.
- `stagesProgress`: a string of `'0'`/`'1'` characters, `"00000000"` by
  default. Slot 0 belongs to the rotation guide. The stage with index `k` owns
  slot `k + 1`. A screen marks its slot by setting that character to `'1'`;
  when the string is too short, the stage screens first pad it with `'0'`.

The model has these modules:

- `StatisticManager`: recording a visit (`AddSessionToStatistic`,
  `AddNewSessionToStatistic`) and building the chart series (`GetChartData`).
  - Both are loops written as methods and proved against the functions
    `RecordVisit`, `Recorded`, `StagesOn`/`CountOn` and `ChartSessions`.
  - Lemmas state what those functions promise: the log invariants survive a
    visit, a full log evicts its first (earliest-appended) session, and a
    repeated visit changes nothing. In a log with one session per date,
    today's bar gains exactly the visited stage; the condition matters
    because the visit writes the first session of a date and the chart reads
    the last.
  - The quote clean-up (`Unwrap`) is proved to undo escaping (`Escape`) and
    a re-encoding as a quoted string (`Wrap`).
- `StageProgress`: the completion test and the mark rule shared by the stage
  screens.
  - `MarkStageAsCompleted` works on a character buffer, as the source's
    `StringBuilder` does.
  - Lemmas prove the rule monotone, idempotent and order-independent.
- `StageScreens` and `RotationGuide`: which slot each screen tests and marks,
  which stage number it records when opened, and how guest mode changes that.
- `Registration`:
  - the credential checks of the login and registration form, with Kotlin's
    `trim()`;
  - the seven-day empty statistic a new account starts with;
  - how that statistic behaves under the first visits and in the chart.
- `Catalog`: the eight catalog items, the status each shows from the progress
  string, the stage index a click passes on, and the catalog screen's cached
  progress (a class whose refresh method updates it in place).
- `UserDocuments`: the stored user document and its defaults.

Dates are day numbers, and "today" is a parameter. Rendering a day as text is
a parameter too (`dayLabel`). The JSON text is abstracted by a `Decoder`: a
function from the cleaned-up text to a typed document, or `None` wherever the
JSON library throws. Firestore reads become parameters (`found`, `existing`,
`current`). The writes are the returned values.

Where parsing or `substring` throws, the model returns `None`. That is the
case for text that cannot be parsed, a document without `"sessions"` when recording a
visit, and `substring` on an empty progress string. In particular, a
malformed statistic is not replaced by a fresh log on the next visit: the
exception escapes the Firestore success callback, and nothing is written.
The model follows the code here. The other exceptions (a negative or
wrapped slot, an unchecked catalog index) are excluded by preconditions and
listed under "Left out".

## Model

| member | source | states |
|---|---|---|
| StatisticManager.Unwrap | app/src/main/java/com/example/collectthecube/StatisticManager.kt:17-21 | The clean-up of the stored text: it fails exactly on the one-character text `"`, never lengthens the text, drops the outer quotes only when the text both starts and ends with one (then unescapes the inside), and otherwise unescapes the whole text, so text without backslashes that lacks either quote comes back unchanged |
| StatisticManager.Unescape | app/src/main/java/com/example/collectthecube/StatisticManager.kt:21 | Replacing `\"` by `"` never lengthens the text and is the identity on text without a backslash |
| StatisticManager.UnwrapWrap | app/src/main/java/com/example/collectthecube/StatisticManager.kt:17-21 | A document stored once more as a quoted, escaped string value comes back intact through the clean-up |
| StatisticManager.UnwrapEscape | app/src/main/java/com/example/collectthecube/StatisticManager.kt:17-21 | A document whose quotes were escaped but not wrapped in outer quotes comes back intact through the clean-up |
| StatisticManager.UnescapeEscape | app/src/main/java/com/example/collectthecube/StatisticManager.kt:21 | Unescaping is the inverse of escaping every quote |
| StatisticManager.FirstSessionOn | app/src/main/java/com/example/collectthecube/StatisticManager.kt:26-33 | The index of the first session dated today, or none when no session carries that date |
| StatisticManager.RecordVisit | app/src/main/java/com/example/collectthecube/StatisticManager.kt:26-76 | The log after a visit is non-empty, at most one session longer, stays within seven sessions when it was, and holds only the old sessions and sessions dated today |
| StatisticManager.AddSessionToStatistic | app/src/main/java/com/example/collectthecube/StatisticManager.kt:10-55 | An empty text starts a one-session log for today. Otherwise the result is the recorded visit, or an error where the code throws |
| StatisticManager.AddNewSessionToStatistic | app/src/main/java/com/example/collectthecube/StatisticManager.kt:57-79 | The parsed log with a session for today holding only the stage appended, cut to its last seven sessions; an error when there is no session list |
| StatisticManager.RecordVisitOnLoggedDay | app/src/main/java/com/example/collectthecube/StatisticManager.kt:39-54 | On a logged day, only the first session of that day changes. It gains the stage at its end if it lacked it and is otherwise unchanged |
| StatisticManager.RecordVisitOnNewDay | app/src/main/java/com/example/collectthecube/StatisticManager.kt:61-76 | On a new day, the session for the stage comes last, the log grows by one up to seven, and the earlier sessions are kept in order |
| StatisticManager.RecordVisitEvictsOldest | app/src/main/java/com/example/collectthecube/StatisticManager.kt:70-76 | A full log of seven that gains a new day drops exactly its first (earliest-appended) session |
| StatisticManager.RecordVisitRecords | app/src/main/java/com/example/collectthecube/StatisticManager.kt:26-54 | After a visit, the first session dated today holds the stage |
| StatisticManager.RecordVisitIdempotent | app/src/main/java/com/example/collectthecube/StatisticManager.kt:42-52 | Recording the same stage twice on one day equals recording it once |
| StatisticManager.RecordVisitPreservesWellFormed | app/src/main/java/com/example/collectthecube/StatisticManager.kt:26-76 | Unique dates and stage lists without repeats survive a visit, and a log of at most seven stays at most seven |
| StatisticManager.CreateLast7Days | app/src/main/java/com/example/collectthecube/StatisticManager.kt:151-165 | Seven labels for today - 6 .. today, oldest first, each with count 0 |
| StatisticManager.UniqueStages | app/src/main/java/com/example/collectthecube/StatisticManager.kt:123-126 | The set built in the loop is the set of distinct stages of the session |
| StatisticManager.GetChartData | app/src/main/java/com/example/collectthecube/StatisticManager.kt:98-149 | The result fails exactly where the parsing throws. Otherwise there are seven labels and seven counts, and each count is the number of distinct stages the log attributes to that day. An empty text gives all zeros |
| StatisticManager.StagesOnLast | app/src/main/java/com/example/collectthecube/StatisticManager.kt:116-129 | When two sessions share a date, the last one decides that day's count, because the map entry is overwritten |
| StatisticManager.StagesOnAbsent | app/src/main/java/com/example/collectthecube/StatisticManager.kt:143 | A day without a session counts 0 |
| StatisticManager.StagesOnIgnoresOtherDay | app/src/main/java/com/example/collectthecube/StatisticManager.kt:137-144 | A session of another date, added first or last, does not change a day's count |
| StatisticManager.DistinctStagesOfNoDuplicates | app/src/main/java/com/example/collectthecube/StatisticManager.kt:123-128 | For a stage list without repeats, the count is its length |
| StatisticManager.VisitAddsToToday | app/src/main/java/com/example/collectthecube/StatisticManager.kt:39-54 | In a log with one session per date, a visit adds exactly the visited stage to today's bar |
| StatisticManager.ChartOfOneSession | app/src/main/java/com/example/collectthecube/StatisticManager.kt:116-144 | A log holding stages 0 and 2 on one day counts 2 on that day and 0 on every other day |
| StageProgress.StagePosition | app/src/main/java/com/example/collectthecube/Stage1Activity.kt:185 | `stageIndex + 1` as a Kotlin Int: in range, congruent to the true sum modulo 2^32, and negative only for an index below -1 or equal to Int.MAX_VALUE |
| StageProgress.IsStageCompleted | app/src/main/java/com/example/collectthecube/Stage1Activity.kt:184-186 | A completed slot lies inside the progress; on a '0'/'1' string a slot inside it is completed exactly when it is not '0' |
| StageProgress.PadEnd | app/src/main/java/com/example/collectthecube/Stage1Activity.kt:205 | Kotlin's padEnd: the result has length max(len, n), the original is kept as a prefix, and the pad character fills the rest |
| StageProgress.Marked | app/src/main/java/com/example/collectthecube/Stage1Activity.kt:202-207 | The marked progress has the slot set to '1'. Every other slot keeps its character, and any padding is '0'. The length grows only to reach the slot |
| StageProgress.MarkStageAsCompleted | app/src/main/java/com/example/collectthecube/Stage1Activity.kt:202-207 | The character buffer, after its one write, holds exactly the marked progress |
| StageProgress.MarkedCompletion | app/src/main/java/com/example/collectthecube/Stage1Activity.kt:184-207 | After marking, a slot reads as completed if and only if it is the marked slot or was completed before |
| StageProgress.MarkedExtends | app/src/main/java/com/example/collectthecube/Stage1Activity.kt:202-207 | Marking never shortens the progress and never clears a '1' |
| StageProgress.MarkedIdempotent | app/src/main/java/com/example/collectthecube/Stage1Activity.kt:202-207 | Marking a slot twice equals marking it once |
| StageProgress.MarkedCommutes | app/src/main/java/com/example/collectthecube/Stage1Activity.kt:202-207 | Two marks give the same progress in either order |
| StageProgress.MarkedKeepsBitstring | app/src/main/java/com/example/collectthecube/Stage1Activity.kt:202-207 | A string of '0'/'1' stays one after marking |
| StageProgress.MarkAllExtends | app/src/main/java/com/example/collectthecube/Stage1Activity.kt:191-216 | Over any run of marks, nothing is shortened or cleared, and every marked slot ends up completed |
| StageProgress.MarkedExamples | app/src/main/java/com/example/collectthecube/Stage7Activity.kt:250-255 | "00000000" marked at slot 9 pads to "0000000001"; marked at slot 7 it becomes "00000001" in place |
| StageScreens.Position | app/src/main/java/com/example/collectthecube/Stage1Activity.kt:18-25 | Stage1 uses the slot after its "stage_index" extra (0 when absent) in 32-bit Int arithmetic, so the largest extra wraps to Int.MIN_VALUE; Stage4 uses slot 4 and Stage7 slot 7 |
| StageScreens.Stage1SlotNegative | app/src/main/java/com/example/collectthecube/Stage1Activity.kt:185-186 | Stage1's slot is negative exactly for an extra below -1 or equal to Int.MAX_VALUE; every index the catalog passes gives slot index + 1 |
| StageScreens.SessionOnOpen | app/src/main/java/com/example/collectthecube/Stage4Activity.kt:24-35 | A screen records a session exactly when it is Stage1 or not in guest mode, and the username extra is non-empty. It records 1, 4 or 7, whatever its stage index |
| StageScreens.MarksOnClick | app/src/main/java/com/example/collectthecube/Stage4Activity.kt:56-67 | The mark button marks the stage exactly on Stage1 or outside guest mode |
| StageScreens.ProgressAfterMark | app/src/main/java/com/example/collectthecube/Stage1Activity.kt:197-207 | The progress a screen writes for a found user reaches the screen's slot, sets it to '1', and keeps every other stored slot |
| StageScreens.OpenRecordsVisit | app/src/main/java/com/example/collectthecube/Stage4Activity.kt:34-51 | When a screen opens for a found user, a missing statistic becomes a one-session log for today; any log written holds the screen's stage in its first session dated today |
| UserDocuments.StoredProgress | app/src/main/java/com/example/collectthecube/CatalogActivity.kt:247 | A stored progress is read as is; a missing one reads as eight '0' slots |
| StageScreens.ShowsCompleted | app/src/main/java/com/example/collectthecube/Stage4Activity.kt:148-150 | The button shows "completed" exactly when the stored progress (default "00000000") reaches past the screen's slot and holds '1' there |
| StageScreens.MarkThenShowsCompleted | app/src/main/java/com/example/collectthecube/Stage7Activity.kt:233-255 | Once the marked progress is stored, the screen shows its stage as completed and every earlier '1' is kept |
| StageScreens.MarkFromDefaultProgress | app/src/main/java/com/example/collectthecube/Stage7Activity.kt:247-255 | With no stored progress, Stage7 writes "00000001", Stage4 writes "00001000", and Stage1 (stage index 0) writes "01000000" |
| RotationGuide.IsRotationGuideCompleted | app/src/main/java/com/example/collectthecube/RotationGuideActivity.kt:221-222 | The guide's test agrees with the stage completion test at slot 0 |
| RotationGuide.MarkRotationGuideAsCompleted | app/src/main/java/com/example/collectthecube/RotationGuideActivity.kt:235-236 | The guide's mark fails exactly on an empty progress. Otherwise it keeps the length, completes slot 0 and leaves every later slot unchanged |
| RotationGuide.MarkAgreesWithStageRule | app/src/main/java/com/example/collectthecube/RotationGuideActivity.kt:236 | On a non-empty progress, the guide's mark equals the stage mark at slot 0. On the empty one, the stage rule would give "1" |
| RotationGuide.MarkIdempotent | app/src/main/java/com/example/collectthecube/RotationGuideActivity.kt:236 | Marking the guide twice equals marking it once |
| RotationGuide.MarkDefaultProgress | app/src/main/java/com/example/collectthecube/RotationGuideActivity.kt:235-236 | With no stored progress, the guide writes "10000000" |
| RotationGuide.SessionOnOpen | app/src/main/java/com/example/collectthecube/RotationGuideActivity.kt:24-27 | The guide records stage 0 exactly outside guest mode with a non-empty username extra |
| Registration.IsWhitespace | app/src/main/java/com/example/collectthecube/RegisterActivity.kt:138 | Kotlin's `Char.isWhitespace`: space, tab, line feed and carriage return are whitespace; digits, ASCII letters, U+0085 and the zero-width space are not |
| Registration.TrimStart | app/src/main/java/com/example/collectthecube/RegisterActivity.kt:138 | The result is a suffix of the input that does not start with whitespace; only whitespace was removed |
| Registration.TrimEnd | app/src/main/java/com/example/collectthecube/RegisterActivity.kt:138 | The result is a prefix of the input that does not end with whitespace; only whitespace was removed |
| Registration.Trim | app/src/main/java/com/example/collectthecube/RegisterActivity.kt:138 | The trimmed name neither starts nor ends with whitespace, and it is empty exactly when the input is blank |
| Registration.TrimIdempotent | app/src/main/java/com/example/collectthecube/RegisterActivity.kt:138 | Trimming twice equals trimming once |
| Registration.ValidationError | app/src/main/java/com/example/collectthecube/RegisterActivity.kt:141-154 | Validation passes exactly when the username has at least 3 UTF-16 units and the password at least 6. The first failing check is reported in the order: empty field, short username, short password |
| Registration.Utf16Length | app/src/main/java/com/example/collectthecube/RegisterActivity.kt:146-151 | Kotlin's `length` in UTF-16 units: between the number of characters and twice it, zero only for the empty text, and equal to the character count when every character lies in the Basic Multilingual Plane |
| Registration.Utf16LengthAppend | app/src/main/java/com/example/collectthecube/RegisterActivity.kt:146-151 | The UTF-16 length of a concatenation is the sum of the two lengths |
| Registration.ValidationCountsUtf16Units | app/src/main/java/com/example/collectthecube/RegisterActivity.kt:146-154 | An emoji counts 2: one emoji plus one letter is a long enough name, and three emoji a long enough password; two letters are too short |
| Registration.EmptyStatistic | app/src/main/java/com/example/collectthecube/RegisterActivity.kt:185-207 | Seven sessions with no stages for today - 6 .. today in ascending order; a well-formed log |
| Registration.CreateEmptyStatistic | app/src/main/java/com/example/collectthecube/RegisterActivity.kt:194-204 | The loop builds exactly the seven-day empty statistic |
| Registration.AttemptRegistration | app/src/main/java/com/example/collectthecube/RegisterActivity.kt:137-183 | A failed check (lengths in UTF-16 units) is reported first, then a taken name. Registration happens exactly when both pass, and stores the trimmed name, the password, "00000000" and the empty statistic |
| Registration.FirstVisitOnRegistrationDay | app/src/main/java/com/example/collectthecube/RegisterActivity.kt:194-204 | A first visit on the registration day fills that day's empty session; nothing is evicted |
| Registration.FirstVisitOnNextDay | app/src/main/java/com/example/collectthecube/RegisterActivity.kt:194-204 | A visit the next day appends that day and evicts the oldest empty session |
| Registration.EmptyStatisticChartsZero | app/src/main/java/com/example/collectthecube/RegisterActivity.kt:200-202 | A new account's chart counts 0 on every day |
| Registration.AttemptLogin | app/src/main/java/com/example/collectthecube/RegisterActivity.kt:102-135 | Login succeeds exactly when both fields are filled, the user exists and the password matches. It returns the trimmed name and the stored progress (default "00000000"). A user without a stored password can never log in |
| Catalog.CatalogItems | app/src/main/java/com/example/collectthecube/CatalogActivity.kt:156-167 | Eight items: the rotation guide at position 0, then stage p at position p |
| Catalog.StageIndexExtra | app/src/main/java/com/example/collectthecube/CatalogActivity.kt:223-229 | A click passes no stage index for the rotation guide; for the item at position p it passes p - 1 |
| Catalog.ItemCompleted | app/src/main/java/com/example/collectthecube/CatalogActivity.kt:190-191 | The catalog's status for a position agrees with the rotation guide's test at 0 and with the stage test elsewhere |
| Catalog.ClickOpensSlotOfPosition | app/src/main/java/com/example/collectthecube/CatalogActivity.kt:227-229 | The screen a stage item opens tests and marks the slot equal to the item's position |
| Catalog.MarkShowsInCatalog | app/src/main/java/com/example/collectthecube/CatalogActivity.kt:191 | After a stage screen marks its slot, the catalog shows that item as completed and keeps every item completed before |
| Catalog.CatalogScreen.constructor | app/src/main/java/com/example/collectthecube/CatalogActivity.kt:49-52 | The cached progress is the "stages_progress" extra outside guest mode, and "00000000" in guest mode or when the extra is absent |
| Catalog.CatalogScreen.ItemStatus | app/src/main/java/com/example/collectthecube/CatalogActivity.kt:190-191 | Guest mode shows no status; otherwise the status is '1' at the item's position |
| Catalog.CatalogScreen.UpdateStagesProgressFromFirebase | app/src/main/java/com/example/collectthecube/CatalogActivity.kt:239-254 | A found document's progress (default "00000000") replaces the cache; the list is redrawn only when the value changed; nothing changes when no document is found |

## Left out

- Firestore reads and writes, and their asynchronous callbacks. A query result
  is a parameter and a write is a returned value. Two screens that
  read-modify-write the same field concurrently can lose an update; that race
  is not modelled.
- JSON syntax and `toString` output. The `Decoder` parameter stands for the
  parser, and the log is handled as typed sessions. Other keys of the
  document, and the exact text written back, are not modelled.
- Exceptions that `org.json` raises lazily while walking the log are all
  folded into the decoder's `None`. One example is a session without
  `"stages"` on a day other than today, which the visit path never reads.
- Date formatting (`SimpleDateFormat`, the "yyyy-MM-dd" keys and the "d.M"
  labels): dates are day numbers and the label is the `dayLabel` parameter.
  `getChartData` calls `Date()` once per iteration of each of its two day
  loops. The model uses one `today` for the whole call, so a run across
  midnight is not modelled.
- StageScreens.ShowsCompleted: requires the screen's slot to be
  non-negative. A "stage_index" extra below -1 gives a negative slot, and so
  does the extra 2147483647, whose slot wraps to Int.MIN_VALUE. Kotlin
  throws on a negative slot; that exception is not modelled. The same holds
  for the mark written after it.
- StageScreens.ProgressAfterMark: for the extra 2147483646, the slot is
  Int.MAX_VALUE, and the `padEnd` target `stagePosition + 1` wraps to a
  negative Int, so Kotlin throws. The model's `PadEnd` takes an unbounded
  length and pads to 2^31 characters.
- The catalog's status indexes the progress without a bounds check.
  `ItemCompleted` and `ItemStatus` require the progress to reach the
  position, so the exception on a shorter stored progress is not modelled.
- Registration.Utf16Length: Dafny strings hold Unicode scalar values, so a
  lone surrogate, which a Kotlin string can hold, cannot be represented.
- StageProgress.IsStageCompleted / StageProgress.Marked /
  RotationGuide.MarkRotationGuideAsCompleted / Catalog.ItemCompleted: the
  progress is indexed by character, while Kotlin indexes it
  (Stage1Activity.kt:186, 202-206; CatalogActivity.kt:191) by UTF-16 unit.
  The two agree on every progress without characters outside the Basic
  Multilingual Plane, which includes every '0'/'1' string the app writes.
- `checkUsernameExists` and login connection failures: the set of existing
  names and the found document are parameters, and a failed query is not
  modelled.
- ContentLoader.kt, DialogFragment.kt, and the layout, colour, toast and
  image-resource handling of every screen. Stage2, Stage3, Stage5 and
  Stage6Activity are not part of this model.
- `loadUserStatistics` and the chart drawing in CatalogActivity.kt: only the
  series `GetChartData` produces is modelled.
