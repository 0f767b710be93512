# KPI scorecard for boiler-operation supervisors, modelled in Dafny

The application is a single-page form. A manager rates an employee against a fixed rubric of
five categories and thirteen items. Each item has a point weight (`maxPoints`) and three rating
levels, GOOD, AVERAGE and WEAK, each with a `scorePercent`. Choosing a level stores a score for
that item. Typing a note stores it beside the rating. The `DashboardReport` component renders a
printable report that lists every item with its score, level and note.

The views are modelled as components, each on the inputs it declares. App.tsx does
not put them together into a working page:
- It never imports or renders `DashboardReport` (App.tsx:1-5). It only looks up an element with id
  `printable-dashboard` (App.tsx:115), and nothing in App.tsx renders that element.
- It mounts `ResultsPanel` without `categoryScores`, `totalScore`, `percent` or `ranking`
  (App.tsx:490-497). The breakdown list at components/ResultsPanel.tsx:138 therefore reads `.map`
  of `undefined` on the first render.

This project models the pure logic behind that:

- `types.dfy` (module `Types`): the rubric and evaluation-state shapes of `types.ts`.
- `constants.dfy` (module `Constants`): the rubric `KPI_DATA` as a constant, and lemmas for its invariants.
- `scoring.dfy` (module `Scoring`): the per-item score a rating button produces. `Math.round` is modelled over exact rationals. Scores are integer hundredths of a point.
- `evaluation.dfy` (module `Evaluation`): the App-level state updates.
  - `handleRate` and `handleNoteChange`, with whole sessions of them.
  - `handleInfoChange`.
  - The PDF file name.
- `input_view.dfy` (module `InputView`): what a rubric card shows and what it sends.
- `results_panel.dfy` (module `ResultsPanel`): the colour band for the overall percentage and the month label.
- `dashboard_report.dfy` (module `DashboardReport`): the report.
  - The badge band, the period text and the empty-field placeholders.
  - One row per rubric item, in rubric order.
- `text.dfy` (module `Text`) models the JavaScript string built-ins the views use, each with a round-trip lemma.
  - `toFixed(2)`.
  - `split` and `join` with a one-character separator.
  - Whole-number printing.
- `wrappers.dfy` (module `Wrappers`): `Option` for `undefined`, and `Result` for a render that throws.

Facts about the code that the model keeps:

- A note typed before any rating creates an entry with `notes` only (App.tsx:67-75). The display code
  treats any entry as rated (components/InputSection.tsx:188, components/DashboardReport.tsx:200).
  See Findings.
- The results panel guards its bands with `percent > 0` (components/ResultsPanel.tsx:38). Zero and
  negative percentages therefore share the neutral band.
- The report badge has no neutral band (components/DashboardReport.tsx:107-111). A percentage of 0 is
  red there.

## Model

| member | source | states |
|---|---|---|
| `Types.AllLevelsComplete` | types.ts:1-5 | There are exactly three rating levels, each listed once, in the order the buttons show them. |
| `Constants.KpiDataNumbering` | constants.ts:3-261 | Five categories `cat_1`..`cat_5` in order. Each name opens with "N. ". Each item id is "category.position". |
| `Constants.KpiItemsInOrder` | constants.ts:3-261 | Reading the categories in order gives the thirteen items in their listed order. |
| `Constants.KpiDataItemsWellFormed` | constants.ts:3-261 | Every item: `maxPoints` > 0, `id` == `code`, `unit` is `maxPoints` followed by "đ", GOOD is 100%, 0 <= WEAK <= AVERAGE <= GOOD <= 100%, and a non-empty checklist. |
| `Constants.KpiDataItemCount` | constants.ts:3-261 | The rubric has 13 items. |
| `Constants.KpiDataIds` | constants.ts:9-243 | The item ids in rubric order are 1.1 .. 5.2. |
| `Constants.KpiDataIdsUnique` | constants.ts:9-10 | No two items share an id. |
| `Constants.KpiDataMaxima` | constants.ts:12-246 | Category maxima are 36, 18, 20, 16, 10 and all `maxPoints` add up to 100. |
| `Constants.RubricMaxIsSumOfCategoryMax` | constants.ts:3-261 | The rubric maximum equals the sum of the category maxima, for any rubric. |
| `Constants.WellFormedItemScores` | constants.ts:19-23 | On a well-formed item the buttons award WEAK <= AVERAGE <= GOOD, and GOOD awards exactly `maxPoints`. |
| `Scoring.MathRound` | components/InputSection.tsx:58 | `Math.round` of a rational gives the nearest integer, with halves rounded up. |
| `Scoring.MathRoundOfWhole` | components/InputSection.tsx:57-58 | Rounding a value that is already whole changes nothing. |
| `Scoring.PointsFor` | components/InputSection.tsx:55-58 | The rounded score is exactly `maxPoints * scorePercent` in hundredths, because every percentage is a multiple of 0.1. |
| `Scoring.SelectedScore` | components/InputSection.tsx:56-58 | The score a card sends for a level is exactly `maxPoints * scorePercent`, in hundredths. A 100% level sends exactly `maxPoints`. |
| `Scoring.SelectedScoreBounds` | components/InputSection.tsx:56-58 | With `scorePercent` in [0,1] the score lies in [0, `maxPoints`]. |
| `Scoring.SelectedScoreMonotone` | components/InputSection.tsx:56-58 | A higher `scorePercent` never gives a lower score. |
| `Scoring.GoodGivesFullMarks` | components/InputSection.tsx:58 | With GOOD at 1.0, choosing GOOD gives exactly `maxPoints`. |
| `Evaluation.Rate` | App.tsx:55-65 | Rating sets that id's level and score to exactly the given values. It keeps the existing notes, or "" without a prior entry. Other ids are unchanged. The key set grows by the id only. |
| `Evaluation.NoteChange` | App.tsx:67-75 | Only `notes` changes. An existing level and score are kept. An unrated id gets an entry with no level and no score. Other ids are unchanged. |
| `Evaluation.SelectLevel` | components/InputSection.tsx:55-59 | Clicking a level on an item's card stores that level and the exact score under the card's own id. It keeps the existing notes and leaves every other id unchanged. |
| `Evaluation.RateIdempotent` | App.tsx:55-64 | Rating twice with the same level and score equals rating once. |
| `Evaluation.RateLastWins` | App.tsx:56-63 | A second rating of the same id overwrites the first completely and still keeps the notes. |
| `Evaluation.NoteChangeLastWins` | App.tsx:68-73 | The last note written wins; writing the same note twice is writing it once. |
| `Evaluation.RateNoteCommute` | App.tsx:55-75 | Rating and note editing commute, on the same or on different ids, so a note written before a rating survives it. |
| `Evaluation.ReplayKeys` | App.tsx:56-70 | No sequence of actions removes a key. The final key set is the initial one plus every id acted on. |
| `Evaluation.ReplayKeepsUnratedIds` | App.tsx:67-75 | Across any session that never rates an id that already has an entry, that entry's level and score are unchanged. |
| `Evaluation.ReplayConsistent` | App.tsx:57-72 | Every session preserves "an entry has a level exactly when it has a score". |
| `Evaluation.ReplayScoresMatch` | components/InputSection.tsx:55-59 | If every action comes from a rubric card, each stored score is the one the card computes for the stored level. |
| `Evaluation.InfoChange` | App.tsx:77-79 | Only the named employee field changes, and it takes the given value. |
| `Evaluation.EmployeeTag` | App.tsx:162 | The file-name tag is the employee id, or "NV" when the id is empty. It is never empty. |
| `Evaluation.PdfFilename` | App.tsx:162 | The file name starts with "KPI_BaoCao_", ends with ".pdf", and has the month and then "_" right after the prefix. The tag after that is never empty. |
| `Evaluation.PdfFilenameRoundTrip` | App.tsx:160-163 | `KPI_BaoCao_<month>_<id or NV>.pdf` can be parsed back into the month and the tag when the month has no "_". |
| `InputView.Buttons` | components/InputSection.tsx:154-163 | There is one button per level, in declaration order, each showing that level's label and description. |
| `InputView.SelectedButton` | components/InputSection.tsx:154-156 | At most one button is selected, the one equal to the stored level. A button is selected exactly when the entry has a level. |
| `InputView.ClickRatesOwnItem` | components/InputSection.tsx:159-162 | Clicking button i rates the card's own item id with level i and the exact score. |
| `InputView.Checklist` | components/InputSection.tsx:135-146 | The checklist points are shown when present and non-empty; otherwise the fallback line is shown. |
| `InputView.KpiDataShowsChecklists` | components/InputSection.tsx:135-143 | Every rubric item shows its checklist points. |
| `InputView.NoteBoxValue` | components/InputSection.tsx:215 | The note box shows the entry's notes. It is empty exactly when there is no entry or the notes are empty. |
| `InputView.NoteBoxShowsKeptNotes` | components/InputSection.tsx:215 | The note box shows exactly the notes that `handleRate` keeps when the item is rated next (App.tsx:62). |
| `InputView.NoteBoxShowsTypedNote` | components/InputSection.tsx:212-216 | The note box shows exactly the last note typed, whether or not the item was rated afterwards. |
| `InputView.UntouchedCardIsBlank` | components/InputSection.tsx:215 | With no entry, the note box shows "" and no button is selected. |
| `InputView.FeedbackAsWritten` | components/InputSection.tsx:188-204 | As written, the feedback line throws exactly when an entry exists but lacks a level or a score. |
| `InputView.NoteBeforeRatingBreaksCard` | components/InputSection.tsx:188-197 | A note typed on a never-rated card makes the card throw. |
| `InputView.CardFeedback` | components/InputSection.tsx:186-204 | Guarded feedback: "not rated" unless the entry has a level and a score. Otherwise it shows the level's description and a score text that reads back as the stored score, followed by "/", the item's maxPoints and "đ". |
| `InputView.CardFeedbackAgreesWhereDefined` | components/InputSection.tsx:188-198 | The guard changes nothing wherever the card did not throw. |
| `InputView.GoodFeedbackShowsFullMarks` | components/InputSection.tsx:195-197 | After GOOD is chosen, the feedback reads "`maxPoints`.00/`maxPoints`đ" with the GOOD description. |
| `ResultsPanel.PanelBandOf` | components/ResultsPanel.tsx:35-49 | The bands are: neutral for percent <= 0; emerald for >= 90; blue for [70, 90); rose for (0, 70). They are exclusive and cover every integer. |
| `ResultsPanel.MonthLabel` | components/ResultsPanel.tsx:78 | The label never contains "-". A month text without "-" is shown unchanged. |
| `ResultsPanel.MonthLabelOfPeriod` | components/ResultsPanel.tsx:78 | "YYYY-MM" is shown as "MM/YYYY". |
| `ResultsPanel.MonthLabelKeepsPieces` | components/ResultsPanel.tsx:78 | For any month text without "/", splitting the label at "/" and reversing gives the pieces of the original. |
| `DashboardReport.BadgeBandOf` | components/DashboardReport.tsx:107-111 | Green for >= 90, blue for [70, 90), red otherwise. |
| `DashboardReport.BadgeVersusPanel` | components/DashboardReport.tsx:107-111 | Badge and panel agree on every positive percent. At zero or below the panel is neutral while the badge is red. |
| `DashboardReport.Period` | components/DashboardReport.tsx:41 | The year has no "-". The month is absent exactly when the text has no "-", and the year is then the whole text. Otherwise the text opens with year, "-", month, and the month is the whole second piece: it runs to the end of the text or to the next "-". |
| `DashboardReport.PeriodText` | components/DashboardReport.tsx:70 | Without a "-" the period prints as "Tháng /" and then the text. With exactly one "-" it prints "Tháng " and then the panel's month label. |
| `DashboardReport.PeriodTextOfMonth` | components/DashboardReport.tsx:41-70 | "YYYY-MM" splits into year and month and prints as "Tháng MM/YYYY", the same text as the panel heading. |
| `DashboardReport.ShownField` | components/DashboardReport.tsx:81-93 | An empty field prints as the dotted placeholder; a non-empty one prints as itself. |
| `DashboardReport.EmployeeBlock` | components/DashboardReport.tsx:78-95 | The employee block has four cells: name, id, position and department. Each shows its field, or the dotted placeholder when the field is empty, so no cell is empty. |
| `DashboardReport.SignatureName` | components/DashboardReport.tsx:233 | The signature line shows the employee name, the same text as the name cell, or a shorter dotted line when the name is empty. It is never empty. |
| `DashboardReport.CategoryNumberOfId` | components/DashboardReport.tsx:189 | The number shown for `cat_N` is N, the text after "_". |
| `DashboardReport.KpiDataCategoryNumbers` | components/DashboardReport.tsx:186-190 | Header c of the rubric shows c+1, and the category name starts with the same "N. ". |
| `DashboardReport.LevelLabel` | components/DashboardReport.tsx:212 | A level's label is never empty and never the unrated "-" (line 214). |
| `DashboardReport.LevelLabelInjective` | components/DashboardReport.tsx:212 | The labels TỐT, KHÁ and YẾU are distinct, so the label determines the level. |
| `DashboardReport.RowAsWritten` | components/DashboardReport.tsx:192-217 | As written, a row throws exactly when an entry exists but lacks a level or a score. |
| `DashboardReport.NoteBeforeRatingBreaksReport` | components/DashboardReport.tsx:200-204 | A note typed on a never-rated item makes the report throw. |
| `DashboardReport.ItemRow` | components/DashboardReport.tsx:195-217 | Unrated row: "0.00" (which reads back as 0), "-" and "Mục tiêu: " plus the GOOD description. Rated row: the level's description, its label, and a score text that reads back as `actualScore`. Notes are shown either way. |
| `DashboardReport.ItemRowAgreesWhereDefined` | components/DashboardReport.tsx:196-216 | The guard changes nothing wherever the report did not throw. |
| `DashboardReport.TableBody` | components/DashboardReport.tsx:186-221 | The table has one line per category plus one per item. |
| `DashboardReport.ItemLineAt` | components/DashboardReport.tsx:192-198 | Line i of a category's item lines is the row of its item i. |
| `DashboardReport.TableBodyLayout` | components/DashboardReport.tsx:186-219 | Category c's header sits after the headers and rows of all earlier categories. The lines right after it are exactly its own items' rows, so every row sits under its category's header. |
| `DashboardReport.TableBodyRows` | components/DashboardReport.tsx:186-221 | The rows, read in order, are exactly one per rubric item, in rubric order. |
| `DashboardReport.TableBodyHeaders` | components/DashboardReport.tsx:186-191 | There is one header line per category. |
| `DashboardReport.TableBodyIgnoresOtherIds` | components/DashboardReport.tsx:192-193 | The table depends only on the entries stored under rubric ids. |
| `DashboardReport.RatedRowShowsCardScore` | components/DashboardReport.tsx:200-212 | After a level is chosen on a card, its row shows that level's label and description and the card's score to two decimals. |
| `DashboardReport.TableRows` | components/DashboardReport.tsx:186-219 | Row i shows the code and name of the i-th rubric item, whatever is rated. |
| `DashboardReport.KpiDataTable` | components/DashboardReport.tsx:186-198 | For the rubric, the report has 5 category headers and 13 item rows. |
| `Text.Fixed2RoundTrip` | components/DashboardReport.tsx:204 | The `toFixed(2)` text of a score reads back as that score. |
| `Text.SplitJoin` | components/ResultsPanel.tsx:78 | Splitting a join of separator-free pieces gives the pieces back. |
| `Text.JoinSplit` | components/ResultsPanel.tsx:78 | Joining the pieces of a split restores the string. |

## Left out

- Aggregation of category scores, the total, the percentage and the ranking text. No modelled file computes them: `ResultsPanel` and `DashboardReport` receive them as props. App.tsx:490-497 passes `ResultsPanel` other props (`ratings`, `employeeInfo`, `logoUrl`), so App.tsx never supplies `percent`. The bands are therefore modelled as functions of a given integer percent.
- Putting the page together. The model covers each view component on the inputs it declares. App.tsx never renders `DashboardReport` (App.tsx:1-5, 115). It also mounts `ResultsPanel` without the props that components/ResultsPanel.tsx:138 maps over.
- The mobile score badge (components/InputSection.tsx:121-131): it duplicates the feedback line's score and only adds CSS colour. Its `actualScore.toFixed(2)` on a note-only entry fails the same way as the feedback line in Findings.
- PDF export and printing (App.tsx:93-195): DOM cloning, the external `html2pdf` library, timers, alerts and the busy flag. Only the file name is modelled.
- Theme and `localStorage` (App.tsx:20-53), and logo upload through `FileReader` (App.tsx:81-90): browser I/O.
- Charts and the progress ring (components/DashboardReport.tsx:117-166, components/ResultsPanel.tsx:51-55, 118-119): chart-library and floating-point presentation.
- Dates (`new Date()`, `toISOString`, `toLocaleDateString`): clock and locale dependent. The month and report date are plain strings here.
- `services/geminiService.ts`: a disabled stub that returns a constant string.
- CSS class strings, icons, layout, the category title shortening (components/InputSection.tsx:25) and the ranking legend in App.tsx: presentation only.
- Scoring.PointsFor: computes with exact rationals rather than IEEE doubles. On this data `Math.round(x * 100) / 100` only removes floating-point residue, so the model treats it as exact.
- Text.Fixed2: models `toFixed(2)` on a value that is already exact in hundredths. Binary floating-point rounding of `toFixed` is not modelled.
- Evaluation.Rate: takes the score as an argument, as `handleRate` does. That the score comes from the card is stated by `Evaluation.SelectLevel` and `Evaluation.ReplayScoresMatch`.

## Findings

| source | as written | input that shows it | evidently intended | confidence | as-written member | corrected member |
|---|---|---|---|---|---|---|
| components/DashboardReport.tsx:200-204 | Any entry present counts as rated. The row reads `item.criteria[rating.level].description` and `rating.actualScore.toFixed(2)`. | Render the `DashboardReport` component on its own with `ratings = {"1.1": {notes: "x"}}`. That is the entry `handleNoteChange("1.1", "x")` creates on an empty state. The entry has no `level`, so the description lookup throws a TypeError. App.tsx never mounts the report, so this is a defect of the component. | An entry without a level and score is shown as unrated, with its note. | high; not executed | `DashboardReport.NoteBeforeRatingBreaksReport` | `DashboardReport.ItemRow` |
| components/InputSection.tsx:188-197 | The feedback line shows whenever an entry exists, and reads `criteria[level].description` and `actualScore.toFixed(2)`. | Render the card component for item 1.1 with `currentRating = {notes: "x"}`, the entry a note typed before any rating creates. `criteria[undefined].description` throws at line 195. The unmodelled mobile badge at line 128 reads `actualScore.toFixed` of the same entry and throws as well. In App.tsx, the page already fails earlier in `ResultsPanel`, so this is a defect of the component. | A card whose entry has no level and score shows "Chưa có đánh giá nào" and no badge. | high; not executed | `InputView.NoteBeforeRatingBreaksCard` | `InputView.CardFeedback` |
