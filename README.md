# Mistake notebook: a Dafny model

This project models the logic of a study app: a "mistake notebook" (错题本). A learner photographs homework, and a vision service detects the questions on the photos. The learner keeps the ones they got wrong as mistake records and practises them later on a generated practice sheet. Reviewing records earns XP, levels and a daily streak.

The model covers seven parts of the app:

- **`Types`** (`types.dfy`) holds the records: subjects, the analysis of one question, detected questions, mistake records and the learner's statistics. A question region is a box `[ymin, xmin, ymax, xmax]` on a 0..1000 scale.
- **`Sequences`** (`sequences.dfy`) holds the list idioms the app relies on:
  - the order-preserving `filter`;
  - the default string `sort`;
  - `Set` de-duplication;
  - lower-casing;
  - `includes`.
- **`GamificationHeader`** covers the XP threshold of a level, the progress bar's fill and the level titles.
- **`TestPaper`** covers four things:
  - the box overlay in percent;
  - the zoom-and-pan crop of a question region;
  - the drag editor for a region, as a class `RegionAdjuster` whose pointer events update the box;
  - the save path that writes an edited region back, as a class `Sheet` that logs the update calls.
- **`MistakeCard`** covers:
  - the 4:3 letterbox fit of a photo, with a class `CardImage` for the load and error handlers;
  - the box overlay's visibility;
  - the first two tags;
  - the difficulty colours;
  - the quick action button.
- **`UploadForm`** covers:
  - the five-photo cap and photo removal;
  - the detected questions and their selection toggles;
  - building one record per selected question, with the source-photo fallback;
  - the form's steps, as a class `Form`.
- **`App`** is the application state, as a class `Notebook`. Its parts are:
  - the streak rule and the XP/level-up step;
  - records replaced, toggled, added and deleted by id, including deleting all mastered records with a loop over the store;
  - the four-way list filter;
  - the sorted tag cloud;
  - the tag and selection toggles;
  - the smart practice draw.

Coordinates and percentages are exact `real` numbers. Anything the app reads from outside is a parameter:

- The clock is `now`, `clock(i)` or `diffDays`.
- The random id suffix is `suffix(k)`.
- The random shuffle is any permutation `shuffled` of the candidates.
- The user's answer to a confirmation dialog is `confirmed`.
- The outcome of the vision call is `outcome`.
- The rendered image size is `rectWidth` and `rectHeight`.

The browser's record store is a map field `store` of `Notebook`, and the stored statistics are the field `savedStats`.

## Model

| member | source | states |
|---|---|---|
| `Types.Box.AsArray` | types.ts:18 | a box is exactly four numbers, in the order ymin, xmin, ymax, xmax |
| `Sequences.Filter` | App.tsx:184-192 | the kept elements are a subsequence of the input in the same order. An element is kept, with all its copies, exactly when it satisfies the predicate |
| `Sequences.Includes` | App.tsx:187 | `s.includes(q)` holds exactly when some window of `s` spells `q` |
| `Sequences.Lower` | App.tsx:187 | lower-casing keeps the length, turns each ASCII capital into its lower-case letter and keeps every other character |
| `Sequences.BelowIrreflexive` | App.tsx:201 | in the default string sort order, no string comes before itself |
| `Sequences.BelowTransitive` | App.tsx:201 | the default string sort order is transitive |
| `Sequences.BelowTotal` | App.tsx:201 | any two different strings are ordered one way or the other |
| `Sequences.SortedSet` | App.tsx:197-201 | the de-duplicated, sorted tags are strictly ascending and hold exactly the input's strings |
| `Sequences.SortedUnique` | App.tsx:201 | two strictly ascending lists with the same strings are equal, so the sorted set is unique |
| `GamificationHeader.XpForNextLevel` | components/GamificationHeader.tsx:12 | the threshold is 200 XP per level, so at least 200 from level 1 on |
| `GamificationHeader.Progress` | components/GamificationHeader.tsx:12-13 | the fill is at most 100 and not negative for non-negative XP. It is 100 exactly when the XP reaches `level*200`; below that it is the XP's share of the threshold |
| `GamificationHeader.ProgressMonotone` | components/GamificationHeader.tsx:13 | more XP never lowers the fill |
| `GamificationHeader.LevelTitle` | components/GamificationHeader.tsx:15-20 | each title holds exactly on its range of levels: below 5, 5 to 9, 10 to 19, 20 and above |
| `GamificationHeader.TitleMonotone` | components/GamificationHeader.tsx:15-20 | a higher level never has a lower-ranked title |
| `GamificationHeader.TitleTextsDistinct` | components/GamificationHeader.tsx:16-19 | the four titles have distinct texts |
| `TestPaper.OverlayRect` | components/TestPaper.tsx:102-107 | the overlay ends at the box's far edges divided by 10. An on-image box gives an overlay within 0..100% |
| `TestPaper.OverlayRoundTrip` | components/TestPaper.tsx:102-107 | the box can be read back from its overlay |
| `TestPaper.CroppedImage` | components/TestPaper.tsx:153-176 | the whole image shows exactly when the box is missing or not four numbers. Otherwise the container's aspect is the box's width over its height |
| `TestPaper.CropPlacement` | components/TestPaper.tsx:173-192 | an image point appears at its offset from the box origin, in box widths and heights |
| `TestPaper.CropFillsContainer` | components/TestPaper.tsx:188-192 | the box's left and top edges land at 0% and its right and bottom edges at 100% of the container |
| `TestPaper.CropRoundTrip` | components/TestPaper.tsx:188-192 | the horizontal crop mapping can be inverted |
| `TestPaper.RecordCrop` | components/TestPaper.tsx:317-319 | a record shows the whole image exactly when it has no box |
| `TestPaper.InitialBox` | components/TestPaper.tsx:18-20 | the editor opens on the record's box, or on `[200,200,800,800]` without one |
| `TestPaper.ToUnits` | components/TestPaper.tsx:40-41 | a pointer distance is scaled to the 0..1000 box scale: the full rendered extent is 1000 units, and the sign is kept |
| `TestPaper.MoveBox` | components/TestPaper.tsx:45-51 | a move keeps the width and height and shifts the origin by the delta, clamped: to 0 when it would cross the top or left edge, and against the bottom or right edge when it would cross that. A box whose size is within 0..1000 stays on the image for any delta |
| `TestPaper.ResizeBox` | components/TestPaper.tsx:52-55 | a resize keeps ymin and xmin and moves the far corner by the delta, clamped: to 50 from the origin when it would come closer, and to 1000 when it would pass the edge. Width and height stay at least 50. xmax stays within 1000 when xmin ≤ 950, and ymax likewise |
| `TestPaper.DragsKeepEditable` | components/TestPaper.tsx:45-55 | both drags keep a box on the image and at least 50 units in size |
| `TestPaper.MoveByZero` | components/TestPaper.tsx:43-51 | a zero move leaves an on-image box unchanged |
| `TestPaper.ResizeByZero` | components/TestPaper.tsx:52-55 | a zero resize leaves an editable box unchanged |
| `TestPaper.DragSettles` | components/TestPaper.tsx:43-57 | applying a zero drag after a drag changes nothing more |
| `TestPaper.ResizeNearEdgeLeavesImage` | components/TestPaper.tsx:53-54 | when xmin > 950, every resize pushes xmax past 1000 |
| `TestPaper.ModeFor` | components/TestPaper.tsx:108-115 | a press always starts a drag; it resizes exactly when it lands on the corner handle |
| `TestPaper.RegionAdjuster.constructor` | components/TestPaper.tsx:18-23 | the editor starts idle on the initial box |
| `TestPaper.RegionAdjuster.PointerDown` | components/TestPaper.tsx:25-31 | a press sets the drag mode and snapshots the pointer and the box |
| `TestPaper.RegionAdjuster.PointerMove` | components/TestPaper.tsx:33-58 | a move while idle changes nothing. Otherwise the box is recomputed from the snapshot and the total pointer distance in 0..1000 units, and an editable snapshot gives an editable box |
| `TestPaper.RegionAdjuster.PointerUp` | components/TestPaper.tsx:60 | releasing ends the drag |
| `TestPaper.RepeatedPointerIsStable` | components/TestPaper.tsx:33-58 | for either handle, any rendered size and any detour, returning the pointer to an earlier position restores the earlier box, the drag of the initial box by the total distance |
| `TestPaper.DefaultBoxMoveScenario` | components/TestPaper.tsx:45-51 | the default box moved 200 units each way is clamped to `[400,400,1000,1000]` |
| `TestPaper.SaveBoxAsWritten` | components/TestPaper.tsx:228-233 | the saved analysis is the record's analysis, if any, spread with the new box |
| `TestPaper.SaveBoxWithoutAnalysisLosesTags` | components/TestPaper.tsx:230-233 | on a record without analysis, the analysis as written has no tags |
| `TestPaper.SavedRecord` | components/TestPaper.tsx:228-240 | the corrected save from the Findings, not the source as written: a save yields a record exactly when the record has an analysis. Only the box changes; the other analysis fields, id, time, subject, image and flag are kept |
| `TestPaper.SavedRecordKeepsTags` | components/TestPaper.tsx:230-237 | a saved record keeps its tags and question text |
| `TestPaper.Sheet.constructor` | components/TestPaper.tsx:226 | no record is being adjusted and no update has been made |
| `TestPaper.Sheet.OpenAdjuster` | components/TestPaper.tsx:321 | the adjust button opens the editor on that record |
| `TestPaper.Sheet.CancelAdjuster` | components/TestPaper.tsx:379 | cancel closes the editor and makes no update |
| `TestPaper.Sheet.SaveBox` | components/TestPaper.tsx:228-240 | with the corrected save from the Findings: save makes at most one update, carrying the saved record, and closes the editor |
| `TestPaper.SaveAfterResizeScenario` | components/TestPaper.tsx:228-240 | saving after one resize makes exactly one update with the resized box, id and image |
| `MistakeCard.LetterboxFit` | components/MistakeCard.tsx:78 | the fit stays within 100%. It is full before load. A wide photo (ratio > 4/3) fills the width with height < 100%; a narrow one fills the height. The fit keeps the photo's ratio within the 4:3 frame |
| `MistakeCard.FitKeepsAspect` | components/MistakeCard.tsx:78 | in any frame width, the fitted photo's width over height equals its ratio |
| `MistakeCard.CardImage.constructor` | components/MistakeCard.tsx:23-24 | a card starts with no error and no known ratio |
| `MistakeCard.CardImage.OnLoad` | components/MistakeCard.tsx:51-54 | loading records natural width over natural height |
| `MistakeCard.CardImage.OnError` | components/MistakeCard.tsx:84 | an error switches the card to the placeholder |
| `MistakeCard.CardImage.Shown` | components/MistakeCard.tsx:75-79 | the photo is shown exactly when no error occurred, and then with the letterbox fit of its recorded ratio, within the frame |
| `MistakeCard.BoxOverlay` | components/MistakeCard.tsx:75-100 | the overlay appears exactly when the record has a box, selection mode is off and the photo did not fail to load, and it outlines that box |
| `MistakeCard.VisibleTags` | components/MistakeCard.tsx:173 | a card shows the first two tags, or all of them when there are fewer |
| `MistakeCard.DifficultyColor` | components/MistakeCard.tsx:40-47 | the grey fallback colour is used exactly when the difficulty is missing |
| `MistakeCard.DifficultyColorsDistinct` | components/MistakeCard.tsx:40-47 | the three difficulties and the fallback get four distinct colours |
| `MistakeCard.HandleAction` | components/MistakeCard.tsx:56-63 | a press makes at most one call. It deletes exactly when the card is reviewed and a delete handler exists, and toggles review exactly when the card is not reviewed |
| `UploadForm.AppendPreview` | components/UploadForm.tsx:62 | appending keeps at most five photos, as a prefix of the old list plus the new photo |
| `UploadForm.RemoveAt` | components/UploadForm.tsx:69-71 | removing index i drops exactly that photo and keeps the others in order. An index outside the list removes nothing |
| `UploadForm.RemoveKeepsCap` | components/UploadForm.tsx:70 | removing keeps the cap and shortens the list by one for a valid index |
| `UploadForm.DecimalInjective` | components/UploadForm.tsx:85 | different numbers are written with different digits |
| `UploadForm.TempId` | components/UploadForm.tsx:85 | a temporary id starts with `q-`, then the index's digits, then a dash |
| `UploadForm.TempIdsDistinct` | components/UploadForm.tsx:83-87 | questions at different positions get different temporary ids, whatever the clock read |
| `UploadForm.Detect` | components/UploadForm.tsx:83-87 | each result becomes one selected question, in order, with its temporary id, and no two questions share an id |
| `UploadForm.ToggleQuestion` | components/UploadForm.tsx:98-102 | only the questions with the given id flip `selected`; everything else stays |
| `UploadForm.ToggleQuestionTwice` | components/UploadForm.tsx:99-101 | toggling the same question twice restores the list |
| `UploadForm.ToggleAll` | components/UploadForm.tsx:104-107 | if all questions are selected, none is afterwards; otherwise all are |
| `UploadForm.ToggleAllFlips` | components/UploadForm.tsx:104-107 | on a non-empty list the "all selected" state always flips |
| `UploadForm.Selected` | components/UploadForm.tsx:110 | the kept questions are exactly the selected ones, in order, each with all its copies |
| `UploadForm.SourceImage` | components/UploadForm.tsx:117 | a record's photo is the preview at its source index (default 0), or the first preview when that entry is missing or empty |
| `UploadForm.RecordFor` | components/UploadForm.tsx:116-135 | a new record has the chosen subject and is not reviewed. It copies the question's analysis, box and tags, uses the source photo, and derives its id from the temporary id |
| `UploadForm.BuildRecords` | components/UploadForm.tsx:116-136 | one record per selected question, in selection order |
| `UploadForm.BuildRecordsFromSelection` | components/UploadForm.tsx:110-136 | every new record comes from a selected question and carries its box and tags |
| `UploadForm.Confirm` | components/UploadForm.tsx:109-138 | confirming reports an error exactly when no question is selected. Otherwise it yields the non-empty list of new records |
| `UploadForm.Form.constructor` | components/UploadForm.tsx:48-52 | the form starts on the upload step in Math with no photos, questions or error |
| `UploadForm.Form.SelectSubject` | components/UploadForm.tsx:259-262 | a subject button sets the subject |
| `UploadForm.Form.AddPreview` | components/UploadForm.tsx:61-63 | a finished read appends the photo under the cap |
| `UploadForm.Form.RemoveImage` | components/UploadForm.tsx:69-71 | the remove button drops that photo |
| `UploadForm.Form.BeginAnalysis` | components/UploadForm.tsx:73-77 | with no photos nothing happens. Otherwise the form enters the analysing step and clears the error |
| `UploadForm.Form.FinishAnalysis` | components/UploadForm.tsx:79-95 | results become all-selected questions on the selecting step. A failure returns to the upload step with the error message |
| `UploadForm.Form.ToggleQuestionSelection` | components/UploadForm.tsx:98-102 | a click toggles that question |
| `UploadForm.Form.ToggleAllQuestions` | components/UploadForm.tsx:104-107 | the select-all button toggles all questions |
| `UploadForm.Form.BackToUpload` | components/UploadForm.tsx:163 | the back button returns to the upload step |
| `UploadForm.Form.ConfirmSave` | components/UploadForm.tsx:109-139 | with nothing selected it sets the error and emits nothing. Otherwise it emits one record per selected question |
| `UploadForm.PreviewAspect` | components/UploadForm.tsx:17-21 | no preview without a box. The aspect is width over height, or width alone when the height is zero |
| `App.NextStreak` | App.tsx:53-58 | the next day adds one and a gap restarts at 1. Otherwise the streak is kept, with 0 becoming 1. A non-negative streak ends at least 1 |
| `App.SameDayReopenKeepsStreak` | App.tsx:51-60 | reopening on the same day keeps the streak |
| `App.GainXp` | App.tsx:77-94 | it levels up exactly when the XP reaches `level*200`, by one level only. Only XP and level change, and the total XP earned grows by exactly the amount |
| `App.GainKeepsBarInRange` | App.tsx:79-90 | a gain up to the next threshold keeps the XP within the bar of the level reached |
| `App.LargeGainLevelsUpOnce` | App.tsx:79-90 | 1000 XP at level 1 gives level 2 with 800 XP, and the bar is full |
| `App.FindById` | App.tsx:106 | the result is the first record with that id, and none exactly when no record has it |
| `App.ReplaceById` | App.tsx:107 | the length, order and ids are kept. Exactly the records with the id become the update; an unknown id changes nothing |
| `App.ReplaceByIdIdempotent` | App.tsx:107 | saving the same update twice equals saving it once |
| `App.ReplaceByIdKeepsUnique` | App.tsx:107 | replacing keeps ids unique |
| `App.ToggleReviewed` | App.tsx:116-121 | only the target's flag flips (records with other ids stay), and an unknown id changes nothing |
| `App.ToggleReviewedTwice` | App.tsx:116-121 | with unique ids, toggling twice restores the list |
| `App.RemoveId` | App.tsx:127 | single delete keeps exactly the records with other ids, in order, each with all its copies |
| `App.Unreviewed` | App.tsx:145 | delete-all-done keeps exactly the unreviewed records, in order, each with all its copies |
| `App.Reviewed` | App.tsx:137 | the mastered records are exactly the reviewed ones, in order, each with all its copies |
| `App.PutAll` | App.tsx:99 | storing records adds their ids and leaves other entries as they were |
| `App.PutAllKeepsLast` | App.tsx:99 | each id holds the last record written under it |
| `App.PutAllStoresAll` | App.tsx:99 | with distinct ids, the store holds every record written |
| `App.FilteredMistakes` | App.tsx:183-193 | the list is an ordered subsequence. A record is kept exactly when it is on the tab, in the subject (`All` matches any), its lower-cased text contains the lower-cased query, and no tag is selected or it carries a selected tag. Each kept record keeps all its copies |
| `App.UnfilteredListIsTab` | App.tsx:183-193 | with no subject, search or tag, the list is exactly the tab's records |
| `App.AllTags` | App.tsx:196-200 | the collected tags are exactly the tags of the given records |
| `App.AvailableTags` | App.tsx:195-202 | the tag cloud is strictly ascending and holds exactly the tags of the records in the active subject |
| `App.AvailableTagsUnique` | App.tsx:201 | it is the only such list |
| `App.ToggleTag` | App.tsx:302-304 | toggling flips the tag's membership and leaves the others with their counts. A new tag is appended at the end; removing a tag keeps the rest in order |
| `App.ToggleTagKeepsNoDuplicates` | App.tsx:302-304 | toggling never lists a tag twice |
| `App.ToggleTagTwice` | App.tsx:302-304 | after toggling a tag twice the same tags are selected again; their order can change |
| `App.SetToggle` | App.tsx:380-383 | a click in selection mode flips that id's membership and no other |
| `App.SetToggleTwice` | App.tsx:380-383 | two clicks restore the selection |
| `App.Candidates` | App.tsx:152-165 | the candidates are exactly the unreviewed records, in the subject unless mixed, carrying a chosen tag when tags are given, in order, each with all its copies |
| `App.SlicePrefix` | App.tsx:169 | `slice(0, count)` is a prefix of `count` elements, counted from the back when `count` is negative |
| `App.PracticeBonus` | App.tsx:177 | the bonus is 50 exactly when tags are given, 40 otherwise |
| `App.PracticeDrawsCandidates` | App.tsx:152-169 | whatever the shuffle, the drawn records are candidates and number at most `count` |
| `App.Notebook.constructor` | App.tsx:19-39 | the app starts on the list, All subjects, to-do tab, level 1 with no XP, nothing selected |
| `App.Notebook.Load` | App.tsx:42-62 | loading shows the store's records, given newest first, and advances the streak by the rule. It stamps the visit time and stores the statistics |
| `App.Notebook.AddXP` | App.tsx:77-94 | the statistics take one XP step and are stored; a level-up shows the toast |
| `App.Notebook.AddMistakes` | App.tsx:96-103 | new records go in front and are stored. They earn 10 XP each: the statistics are saved and a level-up shows the toast. The app returns to the to-do list |
| `App.Notebook.UpdateMistake` | App.tsx:105-114 | the update replaces records by id and is stored. It earns 20 XP exactly when the update is reviewed and the first record with its id was not reviewed, or there is no such record. An award saves the statistics and shows the toast on a level-up; otherwise the statistics and the toast are unchanged |
| `App.Notebook.ToggleReview` | App.tsx:116-121 | the target's flag flips through the update. Marking it reviewed earns 20 XP, saves the statistics and shows the toast on a level-up. Un-marking it or an unknown id leaves the statistics and the toast unchanged, and an unknown id also leaves the store |
| `App.Notebook.DeleteMistake` | App.tsx:123-134 | after confirmation the record leaves the list and the store, and the detail view closes. Without confirmation nothing changes |
| `App.Notebook.DeleteAllDone` | App.tsx:136-150 | after confirmation every reviewed record is deleted from the store and the list keeps exactly the unreviewed ones. With no reviewed record, or no confirmation, nothing changes |
| `App.Notebook.StartSmartPractice` | App.tsx:152-181 | an empty draw changes nothing. Otherwise the drawn ids are selected, the bonus is awarded with the statistics saved and the toast shown on a level-up, and the practice sheet opens |
| `App.Notebook.SetSubject` | App.tsx:72-75 | a subject button sets the subject. The selected tags are cleared when the subject changes and kept when it stays the same |
| `App.Notebook.ClickTag` | App.tsx:302-304 | a tag click toggles that tag |
| `App.Notebook.LeaveSelectionMode` | App.tsx:353 | closing the selection bar ends selection mode and empties the selection |
| `App.Notebook.LeavePractice` | App.tsx:422 | leaving the practice sheet returns to the list and empties the selection |
| `App.Notebook.HeaderProgress` | components/GamificationHeader.tsx:12-13 | the header's bar fill for the current statistics is at most 100, not negative for non-negative XP, and full exactly when the XP reaches 200 per level |
| `App.Notebook.CardClicked` | App.tsx:380-384 | in selection mode a click toggles the card's id; otherwise it opens the card's detail |
| `App.Notebook.Filtered` | App.tsx:183-193 | the shown cards are the four-way filter of the current state: an ordered subsequence holding exactly the records on the tab, in the subject, matching the search and the selected tags |
| `App.Notebook.TagCloud` | App.tsx:195-202 | the shown tags are the tag cloud of the active subject: strictly ascending, and exactly the tags of the records in the subject |
| `App.Notebook.PracticeItems` | App.tsx:421 | the practice sheet gets exactly the selected records, in list order, each with all its copies |

## Left out

- The vision service calls (services/geminiService.ts, api/analyze.ts) are not part of this model: their results enter as the `outcome` parameter of `UploadForm.Form.FinishAnalysis`. The split of a data URL at its comma before sending is not modelled either.
- Browser storage is not part of this model (services/storageService.ts). The store is a map. `App.Notebook.Load` requires its records to be exactly the store's records, newest first; that the read returns each stored record exactly once is not stated. Writes and deletes always succeed, so the "delete failed" alerts are not modelled.
- `App.Notebook.DeleteAllDone`: the source can stop part-way when one delete fails, leaving some records deleted from the store but all still in the list. The model covers only the run in which every delete succeeds.
- Asynchrony is not modelled. Handlers run one at a time to completion, and each state update applies in place of React's queued updates.
- `window.confirm` is the `confirmed` parameter. `alert` and `window.print` are left out, and so is the timer that hides the level-up toast: `levelUpShown` is never reset.
- Randomness and the clock are parameters: the shuffle, the id suffix, `Date.now` and the day difference.
- `App.Notebook.StartSmartPractice`: the source's comparator-based shuffle is not a uniform permutation. The model admits every permutation.
- Numbers are exact integers and reals, not IEEE doubles, so rounding, NaN and Infinity are not modelled.
- `TestPaper.CroppedImage`: it requires a positive width and height when the box has four numbers. The source divides by them unguarded.
- `TestPaper.RecordCrop`: the same restriction applies.
- `TestPaper.RegionAdjuster.PointerMove`: it requires a positive rendered size. The source has no such guard.
- `MistakeCard.LetterboxFit`: it requires a non-negative ratio.
- `MistakeCard.CardImage.OnLoad`: it requires a positive natural height.
- `TestPaper.RegionAdjuster.PointerDown`: a press always takes a fresh snapshot. In the source the window listeners are re-attached only when the drag mode changes, so a second press in the same mode during a drag can leave the move handler with the old snapshot.
- `TestPaper.Sheet.SaveBox`: it follows the corrected save, `TestPaper.SavedRecord`, from the Findings. The source as written, modelled by `TestPaper.SaveBoxAsWritten`, also sends an update for a record without an analysis.
- The CSS strings are not modelled. In particular, a crop offset is written with a literal minus sign before the computed number, so a negative box origin yields a double minus; the model keeps the numeric offset.
- Lower-casing (`Sequences.Lower`) covers only the ASCII letters; the Unicode case mapping of `toLowerCase` is not modelled.
- `Sequences.SortedSet`: it compares whole characters. JavaScript's default sort compares UTF-16 code units, which can order characters outside the Basic Multilingual Plane differently.
- `App.ToggleReviewed`: its flip is stated only for lists with unique ids. With duplicate ids, every copy becomes the first copy, flipped, which `App.ReplaceById` states.
- Some user-interface setters are not modelled because they only assign a field:
  - the navigation buttons and the view changes they make;
  - the search box and the list tabs;
  - entering selection mode;
  - the dialog's open and close buttons.
- components/MistakeDetail.tsx, components/LearningReport.tsx, components/SmartPracticeDialog.tsx, components/TagCloud.tsx, components/SubjectFilter.tsx and components/ImageUploader.tsx are not part of this model: they only display data or gather input.

## Findings

| source | as written | input that shows it | evidently intended | confidence | as-written member | corrected member |
|---|---|---|---|---|---|---|
| components/TestPaper.tsx:228-237 | `handleSaveBox` spreads `adjustingItem.analysis!` and sends the result as the record's analysis | saving a box on a stored record whose `analysis` is absent gives an analysis with only `boundingBox`, without `tags` or `questionText`; later `m.analysis?.tags.forEach` (App.tsx:199) then fails | a record without analysis is not updated, and a saved record keeps its other analysis fields | not executed | `TestPaper.SaveBoxWithoutAnalysisLosesTags` | `TestPaper.SavedRecord` |
