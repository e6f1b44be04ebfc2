# gym-helper in Dafny

This project models the core of gym-helper, a browser workout tracker.
A training (`Training`) is a named, dated list of exercises. An exercise (`Exercise`) is a weight exercise with sets, repetitions and a weight, or a cardio exercise with a time.

The model covers these parts of the application:

- **Storage service** (`TrainingService`). It keeps the one list of trainings under a storage key, and creates, reads, updates and deletes them.
- **`useTraining` hook.** It mirrors that list in memory, beside a `loading` flag and an `error` message.
- **Training detail page.** Its handlers edit the loaded training and switch editing mode on and off.
- **Spreadsheet import** (`processExcelData`). It reads spreadsheet rows into trainings:
  - a row with one cell opens a training;
  - a row with two cells adds an exercise;
  - the exercise's descriptor cell ("4X 12", "30 min", "15 - 12 - 10") is classified by substring tests in a fixed order.
- **The import dialog around the reader.** It picks the spreadsheet or the JSON path by file extension, filters the records, and creates them one by one until one create fails.
- **Spreadsheet export.** It builds one row per training. The exercises are rendered as "name (4X12)" or "name (30min)" and joined with "; ".
- **Older create-training page.** It edits a list of exercise entries and merges a group into a map stored under its own key.

## How the model is organised

The Dafny modules follow the source files:

| Module | Source |
|---|---|
| `Service` | `src/services/training.service.ts` |
| `UseTraining` | `src/hooks/useTraining.ts` |
| `TrainingPage` | `src/pages/training/TrainingPage.tsx` |
| `ImportDialog` | `src/components/header/ImportDialog.tsx` |
| `ExportDialog` | `src/components/header/ExportDialog.tsx` |
| `CreateTrainingPage` | `src/pages/create/create-training.page.tsx` |

Three supporting modules carry no application logic:

- `TrainingTypes` holds the records of `src/types/training.ts`.
- `Js` models the JavaScript built-ins the code calls: `trim`, `split`, `join`, `includes`, `parseInt`, `String(n)` and ASCII `toLowerCase`.
- `SeqOps` models the array methods `filter`, `map`, `find` and `findIndex`.

Modelling choices:

- **JavaScript numbers** are `Num = Int(int) | NaN`.
- **Thrown values** are an `Error` object with a name and a message, or some other value.
- **The stored list** is the class field `stored`. `None` means the storage key is absent.
- **Code that changes state in place** is a class:
  - the service, the hook, the pages and the import dialog;
  - each method's `ensures` states the whole new state in terms of the pure functions beside it.
- **The import loop** `ProcessExcelData` is proved equal to the function `Parse`, which folds `Step` over the rows. The lemmas about the reader are stated on `Parse`.
- **Nondeterministic and external inputs** become parameters:
  - the k-th `crypto.randomUUID()` call gives `uuid(k)`;
  - `new Date()` gives `now`;
  - a storage or file-read failure is a `fault` parameter, which the call throws before writing anything;
  - `toLocaleDateString` is `formatDate`.

Where the system's own description and the code disagree, the model follows the code:

- **"4X MÁXIMO".** The description reads it as 4 sets of 12.
  - The code tests for "X" before it tests for "MÁXIMO", and "MÁXIMO" itself contains an "X". So the "MÁXIMO" rule can never fire.
  - "4X MÁXIMO" therefore gives 4 sets and `NaN` repetitions (`FourByMaximo`, `MaximoIncludesX`).
- **The "+" rule.** The description says it parses "sets X reps + reps".
  - The code reaches that rule only when the descriptor has no "X". The rule then reads the second piece of a split on "X", which is `undefined`, so it throws.
  - The catch in `handleCSV` then drops the whole import (`PlusThrows`, `ParseFailsIff`).
- **File names without a ".".** `split('.').pop()` returns the whole name, so such a name is its own extension. A file named just `csv` is read as a spreadsheet (`BareCsvName`).

## Model

| member | source | states |
|---|---|---|
| Js.Trim | src/components/header/ImportDialog.tsx:69 | the result has no white space at either end, and text without white space is kept as it is |
| Js.TrimKept | src/components/header/ImportDialog.tsx:69 | text with no white space at either end is its own trim |
| Js.TrimLeadingBlank | src/components/header/ImportDialog.tsx:69 | trimming drops a leading blank and keeps the rest |
| Js.TrimTrailingBlank | src/components/header/ImportDialog.tsx:74 | trimming drops a trailing blank and keeps the rest |
| Js.IndexOf | src/components/header/ImportDialog.tsx:62 | -1 when the text does not occur, otherwise a position where it starts, with no earlier occurrence |
| Js.Includes | src/components/header/ImportDialog.tsx:62 | `includes` holds only for text no longer than the string, and always for the empty text |
| Js.Join | src/components/header/ExportDialog.tsx:33 | joining nothing gives ""; otherwise the text starts with the first part |
| Js.ParseInt | src/components/header/ImportDialog.tsx:70 | `parseInt` of blank text is NaN, and a negative result needs a leading "-" |
| Js.NumToString | src/components/header/ExportDialog.tsx:31 | `String(n)` is non-empty and starts with "-" exactly for a negative integer |
| Js.Split | src/components/header/ImportDialog.tsx:69 | `split` on one character: at least one piece, no piece holds the separator, and the first piece is the text before the first separator |
| Js.SplitJoin | src/components/header/ImportDialog.tsx:69 | joining the pieces of a split with the separator gives back the original text |
| Js.SplitCount | src/components/header/ImportDialog.tsx:74 | a split gives one more piece than the text has separators (the count of "-" segments) |
| Js.SplitAppend | src/components/header/ExportDialog.tsx:33 | text without the separator, then the separator, is a piece of its own ahead of the rest of the split |
| Js.SplitLast | src/components/header/ImportDialog.tsx:151 | the last piece of a split is the text after the last separator |
| Js.TextBefore | src/components/header/ImportDialog.tsx:71 | the text before the first separator: a prefix without the separator, followed by it when shorter |
| Js.DigitsOnly | src/components/header/ImportDialog.tsx:64 | the `replace(/[^0-9]/g, '')` result: only digits, and an all-digit text is kept |
| Js.DigitsOnlyAppend | src/components/header/ImportDialog.tsx:64 | dropping the non-digits works piece by piece |
| Js.ToLowerAscii | src/components/header/ImportDialog.tsx:58 | same length; every upper-case ASCII letter is lowered and every other character kept |
| Js.NatToString | src/components/header/ExportDialog.tsx:30-31 | the decimal text of a natural number is non-empty, all digits, and has no leading zero |
| Js.ParseIntOfDigits | src/components/header/ImportDialog.tsx:70 | `parseInt` reads an all-digit text without leading zeros to its decimal value |
| Js.ParseIntOfNumToString | src/components/header/ImportDialog.tsx:70-71 | `parseInt(String(x)) == x` for every integral number and for NaN |
| Js.DigitsValueOfNatToString | src/components/header/ExportDialog.tsx:31 | reading the decimal text of a natural number gives the number back |
| SeqOps.RemoveWhere | src/services/training.service.ts:70 | `filter` by key: no kept element has the key, every element without it is kept, nothing else appears |
| SeqOps.RemoveWhereConcat | src/services/training.service.ts:70 | filtering keeps relative order: it distributes over concatenation |
| SeqOps.RemoveWhereAbsent | src/services/training.service.ts:70 | filtering out a key no element has changes nothing |
| SeqOps.RemoveWhereIdempotent | src/services/training.service.ts:70 | filtering the same key twice is filtering it once |
| SeqOps.ReplaceWhere | src/hooks/useTraining.ts:57 | `map` with replacement: same length, each element with the key replaced, every other kept |
| SeqOps.FindIndex | src/services/training.service.ts:52 | `findIndex`: -1 or a position holding the key, and no earlier position holds it |
| SeqOps.FindFirst | src/services/training.service.ts:35 | `find`: nothing exactly when no element has the key, otherwise the first element that has it |
| SeqOps.FindFirstAtFindIndex | src/services/training.service.ts:35 | `find` returns the element at the position `findIndex` reports |
| SeqOps.RemoveAt | src/pages/training/TrainingPage.tsx:123 | filtering by position drops exactly the element at that position and keeps the order; an index past the end drops nothing |
| Service.TrainingService.Trainings | src/services/training.service.ts:19-23 | nothing stored reads as the empty list, otherwise the stored list |
| Service.TrainingService.GetAllTrainings | src/services/training.service.ts:29-31 | returns the stored list, the empty one when nothing is stored |
| Service.TrainingService.GetTrainingById | src/services/training.service.ts:33-36 | returns the first stored training with the id, or nothing |
| Service.TrainingService.CreateTraining | src/services/training.service.ts:38-48 | stores the list with exactly one training appended, under the fresh id that overrides the input's id, and returns that training |
| Service.TrainingService.UpdateTraining | src/services/training.service.ts:50-66 | an absent id throws "Training not found" and writes nothing; otherwise only the first match is overwritten, in place and keeping the id |
| Service.TrainingService.DeleteTraining | src/services/training.service.ts:68-72 | stores the list without every training that has the id, the others in order |
| Service.InstanceSlot.GetInstance | src/services/training.service.ts:12-17 | the first call creates the service; every later call returns that same object |
| Service.CreateThenFind | src/services/training.service.ts:38-48 | after a create under a fresh id, looking up that id finds the new training |
| Service.CreateKeepsIdsUnique | src/services/training.service.ts:38-48 | a create under an id not yet stored keeps the ids unique |
| Service.UpdateKeepsIdsUnique | src/services/training.service.ts:58-65 | an update keeps the ids unique |
| Service.DeleteKeepsIdsUnique | src/services/training.service.ts:68-72 | a delete keeps the ids unique |
| Service.DeleteAbsentIsNoOp | src/services/training.service.ts:68-72 | deleting an id that is not stored leaves the list unchanged |
| UseTraining.Message | src/hooks/useTraining.ts:17 | an `Error` gives its message, anything else "An error occurred" |
| UseTraining.TrainingState.constructor | src/hooks/useTraining.ts:6-8 | starts with no trainings, not loading, no error |
| UseTraining.TrainingState.FetchTrainings | src/hooks/useTraining.ts:10-21 | the list becomes the stored one; a failure records its message and keeps the list; always ends not loading |
| UseTraining.TrainingState.GetTrainingById | src/hooks/useTraining.ts:24-35 | the stored training with the id; a failure records its message and gives `undefined` instead of throwing |
| UseTraining.TrainingState.CreateTraining | src/hooks/useTraining.ts:37-50 | success appends the created training to the list and the storage; failure records the message, rethrows, changes neither; keeps the list equal to the storage |
| UseTraining.TrainingState.UpdateTraining | src/hooks/useTraining.ts:52-65 | success replaces every listed training with the id; failure records the message and rethrows with nothing changed; an absent id fails with "Training not found"; keeps the list equal to the storage and the ids unique |
| UseTraining.TrainingState.DeleteTraining | src/hooks/useTraining.ts:67-79 | success removes every training with the id from the list and the storage; failure records the message, rethrows, changes neither |
| UseTraining.ReplaceWhereIsUpdateAtFirst | src/hooks/useTraining.ts:57 | with unique ids, the hook's replace-all equals the service's overwrite of the first match |
| TrainingPage.OrZero | src/pages/training/TrainingPage.tsx:324 | NaN and zero become zero, any other number is kept |
| TrainingPage.WithField | src/pages/training/TrainingPage.tsx:95 | only the named field changes; sets and reps are the `parseInt` of the typed text, weight and time the typed number with NaN and zero read as zero |
| TrainingPage.SetsInputRoundTrip | src/pages/training/TrainingPage.tsx:285 | typing a number's own text into the sets input stores that number |
| TrainingPage.DeleteExercise | src/pages/training/TrainingPage.tsx:85-90 | removes every exercise with the id, keeps the others, changes no other field |
| TrainingPage.ChangeField | src/pages/training/TrainingPage.tsx:92-98 | changes only the given field of the exercise at the index; length and the other exercises are unchanged |
| TrainingPage.RemoveImage | src/pages/training/TrainingPage.tsx:118-127 | drops exactly the image at the index from that exercise; unchanged when it has no image list |
| TrainingPage.SetImages | src/pages/training/TrainingPage.tsx:106-111 | the exercise at the index shows the new images; the others are unchanged |
| TrainingPage.AddExercise | src/pages/training/TrainingPage.tsx:138-153 | appends one blank weight exercise (sets 1, reps 1, weight 0, empty name, notes and images) and keeps the rest |
| TrainingPage.BlankExercise | src/pages/training/TrainingPage.tsx:140-149 | the new exercise has the given id, an empty name, weight type, 1 set of 1, weight 0, no time, empty notes and no images |
| TrainingPage.RemoveImageKeepsOrder | src/pages/training/TrainingPage.tsx:123 | dropping an image keeps the others in order |
| TrainingPage.DeleteExerciseIdempotent | src/pages/training/TrainingPage.tsx:87 | deleting an exercise twice is deleting it once |
| TrainingPage.Render | src/pages/training/TrainingPage.tsx:159-169 | the details show only when not loading, with no error, and with a training loaded |
| TrainingPage.TrainingPageState.Load | src/pages/training/TrainingPage.tsx:31-39 | with a route id, the page holds the stored training with it, or none on failure |
| TrainingPage.TrainingPageState.HandleDeleteExercise | src/pages/training/TrainingPage.tsx:85-90 | applies `DeleteExercise`; a no-op with no training loaded |
| TrainingPage.TrainingPageState.HandleInputChange | src/pages/training/TrainingPage.tsx:92-98 | applies `ChangeField`; a no-op with no training loaded |
| TrainingPage.TrainingPageState.HandleRemoveImage | src/pages/training/TrainingPage.tsx:118-127 | applies `RemoveImage`; a no-op with no training loaded |
| TrainingPage.TrainingPageState.HandleImageChange | src/pages/training/TrainingPage.tsx:100-116 | a successful read replaces the exercise's images; a failed read or no file list changes nothing |
| TrainingPage.TrainingPageState.HandleAddExercise | src/pages/training/TrainingPage.tsx:138-157 | appends the blank exercise and turns editing on; a no-op with no training loaded |
| TrainingPage.TrainingPageState.HandleCancel | src/pages/training/TrainingPage.tsx:129-131 | leaves editing mode and keeps the edits made so far |
| TrainingPage.TrainingPageState.HandleStartEditing | src/pages/training/TrainingPage.tsx:133-136 | enters editing mode |
| TrainingPage.TrainingPageState.HandleEdit | src/pages/training/TrainingPage.tsx:63-72 | saves through the hook and leaves editing mode exactly when the update succeeds |
| TrainingPage.TrainingPageState.HandleDeleteTraining | src/pages/training/TrainingPage.tsx:74-83 | deletes the training; navigates exactly when the delete succeeds |
| ImportDialog.Lookup | src/components/header/ImportDialog.tsx:54 | `row[key]`: `undefined` exactly when no cell has the key, otherwise the text of a cell under it |
| ImportDialog.MainKey | src/components/header/ImportDialog.tsx:52 | the first key other than `__EMPTY`, falling back to the first key when that one is falsy |
| ImportDialog.StripOrdinal | src/components/header/ImportDialog.tsx:53 | a leading "<digits>)" is dropped with the white space after it; text where no run of digits at the start is followed by ")" is kept unchanged |
| ImportDialog.StripOrdinalOf | src/components/header/ImportDialog.tsx:53 | a leading "<digits>)" and the white space after it are dropped, and nothing more |
| ImportDialog.ExerciseName | src/components/header/ImportDialog.tsx:53 | the cell without its leading "<digits>)", trimmed; a cell without such an ordinal, trimmed; never longer than the cell |
| ImportDialog.ExerciseNameOfOrdinal | src/components/header/ImportDialog.tsx:53 | the name of "<digits>)rest" is `rest` trimmed |
| ImportDialog.ThreeSetsKept | src/components/header/ImportDialog.tsx:53 | "3 sets" is kept whole: digits not followed by ")" are no ordinal |
| ImportDialog.OrdinalEnd | src/components/header/ImportDialog.tsx:53 | the ")" of an ordinal stands right after the whole leading run of digits |
| ImportDialog.MaximoIncludesX | src/components/header/ImportDialog.tsx:67-81 | every descriptor with "MÁXIMO" has an "X", so the "MÁXIMO" rule is unreachable |
| ImportDialog.XRule | src/components/header/ImportDialog.tsx:69 | the two pieces the "X" rule reads are the text before the first "X" and the text between the first and the second |
| ImportDialog.DashRule | src/components/header/ImportDialog.tsx:74-76 | the "-" rule counts one more segment than there are dashes and reads the first segment |
| ImportDialog.Classify | src/components/header/ImportDialog.tsx:56-88 | precedence "min", then "X", then "-"; each rule's sets, reps and time; throws exactly for "+" without "min", "X" or "-"; the defaults 1/1 otherwise |
| ImportDialog.TimeOrDefault | src/components/header/ImportDialog.tsx:98 | a missing, zero or NaN time becomes 30 |
| ImportDialog.BuildExercise | src/components/header/ImportDialog.tsx:91-101 | cardio exactly when the lower-cased name contains "cardio"; cardio has no weight and the classified time or 30, weight has weight 0 and no time; sets and reps are the classified ones, or 1 and 1 without a descriptor; notes are the descriptor or ""; images empty; fails exactly when the descriptor throws |
| ImportDialog.ReadExercise | src/components/header/ImportDialog.tsx:52-101 | the imperative branch chain computes `BuildExercise` |
| ImportDialog.Commit | src/components/header/ImportDialog.tsx:37-107 | the finished trainings in order, then the open one, if any, finished with its id, name and exercises and the import date |
| ImportDialog.Step | src/components/header/ImportDialog.tsx:32-102 | empty rows and rows of three or more cells change nothing; a one-cell row commits the open training and opens a new one named by the cell; a two-cell row before any title changes nothing; a two-cell row after a title appends the exercise read from it to the open training or throws |
| ImportDialog.AddExercise | src/components/header/ImportDialog.tsx:91 | fails exactly when reading the exercise failed, with its error; otherwise the exercise is appended to the open training and one more id has been drawn |
| ImportDialog.ProcessExcelData | src/components/header/ImportDialog.tsx:28-110 | the loop computes `Parse`: the fold of `Step` over the rows, then the final commit; a throwing row ends it with that row's error |
| ImportDialog.Fields | src/components/header/ImportDialog.tsx:33 | the cells other than `__rowNum__`: every other cell kept, nothing added |
| ImportDialog.Run | src/components/header/ImportDialog.tsx:32-103 | after the rows read so far, at most one training per row and at most one id per row have been drawn |
| ImportDialog.Parse | src/components/header/ImportDialog.tsx:28-110 | no more trainings than rows |
| ImportDialog.ParseFails | src/components/header/ImportDialog.tsx:28-110 | a row that throws makes the whole read throw its error |
| ImportDialog.ParseCommits | src/components/header/ImportDialog.tsx:105-109 | after the last row the open training is committed behind the finished ones |
| ImportDialog.StepAddsExercise | src/components/header/ImportDialog.tsx:51-101 | a two-cell row under an open training adds the exercise read from it |
| ImportDialog.StepAppends | src/components/header/ImportDialog.tsx:91-101 | when the row reads as exercise x, the step appends exactly x to the open training and draws one id |
| ImportDialog.TitleRowsAreTitles | src/components/header/ImportDialog.tsx:37-48 | the title rows are one per title, in order, each a one-cell row holding its title |
| ImportDialog.TitleRowsInOrder | src/components/header/ImportDialog.tsx:37-48 | the title rows are strictly increasing and include every one-cell row |
| ImportDialog.Reads | src/components/header/ImportDialog.tsx:51-101 | one read result per row |
| ImportDialog.RunTracks | src/components/header/ImportDialog.tsx:32-103 | every committed training holds the exercises read between its title row and the next, the open one those after its title row |
| ImportDialog.ParseExercises | src/components/header/ImportDialog.tsx:28-110 | training k holds, in order, the exercises read from the two-cell rows strictly between the k-th title row and the next title row or the end of the sheet |
| ImportDialog.ParseTwoRows | src/components/header/ImportDialog.tsx:28-110 | a two-row sheet is its first row's state stepped by the second row, then committed |
| ImportDialog.TwoRowSheet | src/components/header/ImportDialog.tsx:28-110 | the sheet [{A: "Treino X"}, {A: "1) Supino", __EMPTY: "4X12"}] gives one training "Treino X" holding one weight exercise "Supino" of 4 sets of 12 with notes "4X12" |
| ImportDialog.SheetTitle | src/components/header/ImportDialog.tsx:37-48 | the title row alone opens "Treino X" with no exercises |
| ImportDialog.SheetExercise | src/components/header/ImportDialog.tsx:51-101 | the exercise row adds "Supino" under the open "Treino X" |
| ImportDialog.SupinoRead | src/components/header/ImportDialog.tsx:52-101 | the row {A: "1) Supino", __EMPTY: "4X12"} reads as "Supino", 4 sets of 12, weight 0 |
| ImportDialog.ReadRow | src/components/header/ImportDialog.tsx:33-102 | the loop body computes one `Step` |
| ImportDialog.RunSnoc | src/components/header/ImportDialog.tsx:32 | reading one more row is one more step, unless a row already threw |
| ImportDialog.RunFailureSticks | src/components/header/ImportDialog.tsx:127-129 | once a row throws, later rows are never read |
| ImportDialog.Titles | src/components/header/ImportDialog.tsx:37-48 | the titles of the one-cell rows are no more than the rows |
| ImportDialog.OpensBeforeEnd | src/components/header/ImportDialog.tsx:37 | a title has been read by the end of the rows when one was read earlier or the last row is one |
| ImportDialog.SomeRowThrowsAppend | src/components/header/ImportDialog.tsx:51-88 | some exercise row throws when one did before the last row, or the last row is a throwing exercise row after a title |
| ImportDialog.RunOpen | src/components/header/ImportDialog.tsx:38-51 | a training is open exactly when some one-cell row has been read |
| ImportDialog.RunNames | src/components/header/ImportDialog.tsx:37-48 | the committed and open trainings are named by the titles read so far, in order |
| ImportDialog.StepNames | src/components/header/ImportDialog.tsx:37-48 | a title row adds its title after the committed names; any other row keeps them |
| ImportDialog.RunDone | src/components/header/ImportDialog.tsx:42-47 | every finished training has an id, the import date and an exercise list |
| ImportDialog.ParseTitles | src/components/header/ImportDialog.tsx:37-109 | one training per one-cell row, in input order, named by that cell, each with an id, the date and an exercise list |
| ImportDialog.ParseFailsIff | src/components/header/ImportDialog.tsx:82-88 | the reader throws exactly when an exercise row after a title has a descriptor with "+" and no "min", "X" or "-" |
| ImportDialog.SkippedRow | src/components/header/ImportDialog.tsx:33-35 | a row with no cell besides `__rowNum__` changes nothing, wherever it stands among the rows |
| ImportDialog.XRuleOf | src/components/header/ImportDialog.tsx:67-71 | on `a X b` with no "X" in `a`: sets from `a`, reps from the first word of `b` up to its own "X" |
| ImportDialog.FourByTwelve | src/components/header/ImportDialog.tsx:67-71 | "4X 12" gives 4 sets of 12 |
| ImportDialog.FourByTwelveJoined | src/components/header/ImportDialog.tsx:67-71 | "4X12" gives 4 sets of 12 |
| ImportDialog.DashedCounts | src/components/header/ImportDialog.tsx:72-76 | "15 - 12 - 10 - 8 - 6" gives 5 sets of 15 |
| ImportDialog.SpacedXWithPlus | src/components/header/ImportDialog.tsx:67-71 | "3 X 12 + 12" takes the "X" rule: 3 sets of 12 |
| ImportDialog.FourByMaximo | src/components/header/ImportDialog.tsx:67-81 | "4X MÁXIMO" takes the "X" rule: 4 sets and NaN reps, not the 12 of the "MÁXIMO" rule |
| ImportDialog.LowerCaseX | src/components/header/ImportDialog.tsx:61-89 | a lower-case "4x12" matches no rule: 1 set of 1 |
| ImportDialog.ThirtyMinutes | src/components/header/ImportDialog.tsx:62-66 | "30 min" gives a time of 30 with 1 set of 1 |
| ImportDialog.PlusThrows | src/components/header/ImportDialog.tsx:82-86 | "3 + 3" throws the `TypeError` of reading `split` of `undefined` |
| ImportDialog.NumTextChars | src/components/header/ExportDialog.tsx:31 | a number's text is made of a sign, digits and the letters of "NaN" |
| ImportDialog.NumTextTrimmed | src/components/header/ExportDialog.tsx:31 | a number's text has nothing to trim |
| ImportDialog.WeightDescriptorRoundTrip | src/components/header/ExportDialog.tsx:31 | the export text `${sets}X${reps}` is read back by the "X" rule as the same sets and reps, for every integral number and NaN |
| ImportDialog.CardioDescriptorRoundTrip | src/components/header/ExportDialog.tsx:30 | the export text `${time}min` is read back as the same time, for every natural time |
| ImportDialog.Extension | src/components/header/ImportDialog.tsx:151 | a name without "." is its own lower-cased extension |
| ImportDialog.Dispatch | src/components/header/ImportDialog.tsx:151-156 | the spreadsheet path exactly for the extensions xlsx, xls and csv, the JSON path for every other |
| ImportDialog.ShouldCreate | src/components/header/ImportDialog.tsx:121 | a record is created exactly when its name is present and non-empty and it has an exercise list |
| ImportDialog.DispatchByLastExtension | src/components/header/ImportDialog.tsx:151-156 | only the lower-cased text after the last "." decides the path: xlsx, xls, csv to the spreadsheet path, anything else to JSON |
| ImportDialog.DispatchWithoutDot | src/components/header/ImportDialog.tsx:151-156 | a name without "." takes the spreadsheet path exactly when its lower-cased whole is xlsx, xls or csv |
| ImportDialog.BareCsvName | src/components/header/ImportDialog.tsx:151-153 | a file named just "csv" takes the spreadsheet path |
| ImportDialog.AsTraining | src/components/header/ImportDialog.tsx:122 | the cast keeps the name, exercises, date, notes and duration |
| ImportDialog.Selected | src/components/header/ImportDialog.tsx:120-124 | the records that pass the name and exercises filter are no more than the records |
| ImportDialog.Stamp | src/hooks/useTraining.ts:41-42 | the k-th created training carries the k-th fresh id and otherwise equals its record |
| ImportDialog.FirstFault | src/components/header/ImportDialog.tsx:120-129 | the number of creates before the first that fails: every earlier one succeeds and, if it is short of all, that one fails |
| ImportDialog.ImportDialogState.HandleFileChange | src/components/header/ImportDialog.tsx:161-166 | keeps the chosen file; no file keeps the old choice |
| ImportDialog.ImportDialogState.CreateAll | src/components/header/ImportDialog.tsx:120-141 | creates the filtered records in order up to the first failing create; the storage gains exactly those, under fresh ids; the list stays equal to the storage |
| ImportDialog.ImportDialogState.HandleCsv | src/components/header/ImportDialog.tsx:112-130 | a read or parse failure stores nothing; otherwise stores the filtered trainings up to the first failure; navigates exactly when all succeed |
| ImportDialog.ImportDialogState.HandleJson | src/components/header/ImportDialog.tsx:132-147 | a parse failure stores nothing; otherwise stores the filtered records up to the first failure; navigates exactly when all succeed |
| ImportDialog.ImportDialogState.HandleFileUpload | src/components/header/ImportDialog.tsx:149-159 | no file chosen does nothing; otherwise imports along the path the extension picks, clears the choice and navigates |
| ImportDialog.SelectedPrefix | src/components/header/ImportDialog.tsx:120 | the filter keeps relative order: it splits over any cut of the records |
| ImportDialog.SelectedSnoc | src/components/header/ImportDialog.tsx:121 | one more record adds its training exactly when it passes the filter |
| ImportDialog.StampSnoc | src/services/training.service.ts:40-45 | one more create gives the new training the next fresh id |
| ImportDialog.ImportedUpToFault | src/components/header/ImportDialog.tsx:120-129 | when the create for a record is the first to fail, exactly the trainings selected before it are stored |
| ImportDialog.ImportedAll | src/components/header/ImportDialog.tsx:120-124 | when no create fails, every selected training is stored |
| ExportDialog.Descriptor | src/components/header/ExportDialog.tsx:29-31 | the descriptor is non-empty and holds no ";" |
| ExportDialog.NumTextWithoutSemicolon | src/components/header/ExportDialog.tsx:31 | a number's text holds no ";" |
| ExportDialog.Entry | src/components/header/ExportDialog.tsx:32 | "name (desc)": the name, then " (", the descriptor and ")"; it holds a ";" exactly when the name does |
| ExportDialog.Entries | src/components/header/ExportDialog.tsx:28-32 | one entry per exercise, in order |
| ExportDialog.ExercisesText | src/components/header/ExportDialog.tsx:28-33 | the joined entries are "" exactly when there are no exercises |
| ExportDialog.SplitJoined | src/components/header/ExportDialog.tsx:33 | splitting a "; "-join on ";" gives the parts back, each after the first behind one blank |
| ExportDialog.ExercisesTextSplits | src/components/header/ExportDialog.tsx:28-33 | with no ";" in any name, the exercises column splits into one entry per exercise, in exercise order |
| ExportDialog.DateText | src/components/header/ExportDialog.tsx:37 | a missing date prints "Invalid Date", a present one its formatted text |
| ExportDialog.ExportRow | src/components/header/ExportDialog.tsx:35-39 | exactly the keys 'Nome do Treino', 'Data', 'Exercícios' in that order, holding the unchanged name, the formatted date and the joined exercises |
| ExportDialog.ExportRows | src/components/header/ExportDialog.tsx:27-40 | one row per training, in the same order |
| ExportDialog.WeightDescriptorReimports | src/components/header/ExportDialog.tsx:31 | a weight exercise's exported descriptor, imported as an exercise that is not cardio, gives back its sets and reps |
| ExportDialog.CardioDescriptorReimports | src/components/header/ExportDialog.tsx:30 | a cardio exercise's exported descriptor with a positive whole time, imported as a cardio exercise, gives back its time |
| CreateTrainingPage.AddExercise | src/pages/create/create-training.page.tsx:95-108 | one default entry (empty name, sets 1, repetitions 1, weight 0, rest time 0, empty observations, null example) appended; the existing entries kept |
| CreateTrainingPage.UpdateExercise | src/pages/create/create-training.page.tsx:110-117 | only the given field of the entry at the index changes; length and the other entries are unchanged |
| CreateTrainingPage.RemoveExercise | src/pages/create/create-training.page.tsx:119-122 | exactly the entry at the index is removed and the rest keep their order; an index past the end removes nothing |
| CreateTrainingPage.RemoveUndoesAdd | src/pages/create/create-training.page.tsx:95-122 | removing the entry just added gives the list back |
| CreateTrainingPage.UpdateOverrides | src/pages/create/create-training.page.tsx:110-117 | a second change of the same field overrides the first |
| CreateTrainingPage.FormErrors | src/pages/create/create-training.page.tsx:133-252 | the group name is required; the group reference is required with at most one character; each exercise needs its name, image, sets, repetitions, weight and rest time |
| CreateTrainingPage.EncodeAll | src/pages/create/create-training.page.tsx:52-54 | one data URL per chosen file, in order |
| CreateTrainingPage.SaveExercises | src/pages/create/create-training.page.tsx:50-67 | the saved exercises keep the submitted order with every field copied and the images encoded |
| CreateTrainingPage.SubmittedGroup | src/pages/create/create-training.page.tsx:69-76 | the stored group keeps the submitted name and reference, and its exercises are the saved form of the submitted entries, in order, each with its name and its images encoded |
| CreateTrainingPage.Merge | src/pages/create/create-training.page.tsx:47-78 | missing stored data counts as an empty map; the group under the reference is the new one; every other group is kept unchanged and none is added |
| CreateTrainingPage.MergeIdempotent | src/pages/create/create-training.page.tsx:69-76 | submitting the same group twice stores what submitting it once does |
| CreateTrainingPage.MergeCommutes | src/pages/create/create-training.page.tsx:69-76 | groups under different references can be submitted in either order |
| CreateTrainingPage.CreateTrainingPageState.constructor | src/pages/create/create-training.page.tsx:83-93 | the page opens with one default entry |
| CreateTrainingPage.CreateTrainingPageState.HandleAddExercise | src/pages/create/create-training.page.tsx:95-108 | applies `AddExercise` to the list |
| CreateTrainingPage.CreateTrainingPageState.HandleUpdateExercise | src/pages/create/create-training.page.tsx:110-117 | applies `UpdateExercise` to the list |
| CreateTrainingPage.CreateTrainingPageState.HandleRemoveExercise | src/pages/create/create-training.page.tsx:119-122 | applies `RemoveExercise` to the list |
| CreateTrainingPage.CreateTrainingPageState.OnSubmit | src/pages/create/create-training.page.tsx:45-80 | stores the merged map; a failed image read throws and writes nothing |
| CreateTrainingPage.CreateTrainingPageState.HandleSubmit | src/pages/create/create-training.page.tsx:127-146 | runs `onSubmit` only when no rule is broken; then the stored map holds the new group under its one-character reference |

## Left out

- Spreadsheet and JSON decoding are not modelled: the XLSX library, `JSON.parse`, `JSON.stringify`, `FileReader` and the file download are foreign code or I/O. Their results, or their failures, are parameters.
- The storage (`localStorage`) is modelled as a field holding the decoded value. An unreadable stored text is a `fault` parameter, not parsed text.
- `JSON.stringify` writes a NaN number as `null`, and `JSON.parse` reads it back as `null`. The model keeps NaN in storage. So a stored NaN count, such as the repetitions of an imported "4X MÁXIMO", exports in the application as "4Xnull", where `ExportDialog.Descriptor` gives "4XNaN". Likewise, after creating such a training, the hook's in-memory list holds NaN while storage returns `null`: the claim that the list stays equal to the storage holds only for trainings without NaN numbers.
- Numbers are integral or NaN. `parseFloat` of a fractional weight or time, and fractional numbers in general, are not modelled.
- Spreadsheet cells are modelled as text. A cell the spreadsheet reader gives as a number (for instance a title that is a bare number) is not modelled.
- One `now` stands for every `new Date()` of one import: the reader is modelled as if all its dates were taken at the same instant.
- `toLocaleDateString` depends on the locale; the export takes it as the parameter `formatDate`. Only the undefined date's "Invalid Date" is fixed.
- The message of the `TypeError` for `split` of `undefined` is V8's wording.
- Async interleaving, React re-renders, the `setTimeout` scroll and navigation timing are not modelled: each handler is one atomic step.
- TrainingPage.TrainingPageState.HandleRemoveImage: `handleRemoveImage` assigns the new image list into the exercise object it shares with the old state. The model builds a new training and does not capture that aliasing.
- TrainingPage.TrainingPageState.HandleInputChange requires an index of a shown exercise. An out-of-range index, which the page never passes, would make JavaScript extend the array with holes.
- TrainingPage.TrainingPageState.HandleRemoveImage and TrainingPage.TrainingPageState.HandleImageChange require an index of a shown exercise too. With an out-of-range index, `handleRemoveImage` throws a `TypeError` on reading `images` of `undefined`; the model does not capture that error.
- CreateTrainingPage.CreateTrainingPageState.HandleUpdateExercise requires an index of a shown entry, for the same reason.
- The relation between the create page's entry list and the values the form submits is kept by the form library and is not modelled: the submitted data is a parameter.
- The create page's stored text, when present but empty, is treated like absent data by the code. The model stores a decoded map and cannot hold that text.
- A spreadsheet row whose two cells repeat a key cannot occur, because object keys are distinct. `Lookup` takes the first cell under a key.
- Lower-casing is ASCII only; `toLowerCase` on letters outside ASCII is not modelled.
- Exercise ids within one training are unique only as far as `crypto.randomUUID` gives distinct values. The model takes the ids as an arbitrary function and does not assume they differ.
- Js.ParseIntOfNumToString: holds for the model's unbounded integers. JavaScript numbers are doubles: `String(n)` switches to exponent form from 10^21 on, and integers above 2^53 lose precision, so there `parseInt(String(n))` can differ from `n`.
- ImportDialog.WeightDescriptorRoundTrip: stated for every integer, for the same reason; in JavaScript it holds only for sets and reps below 10^21 in magnitude.
- ImportDialog.CardioDescriptorRoundTrip: stated for every natural time; in JavaScript it holds only below 10^21.
- ExportDialog.WeightDescriptorReimports and ExportDialog.CardioDescriptorReimports inherit the same magnitude bound.
- TrainingPage.SetsInputRoundTrip: stated for every integer; in JavaScript it holds only below 10^21 in magnitude.
- JSX rendering, routing and the scroll helpers are not modelled. The `VALIDATION` limits in `src/constants/config.ts` are never enforced by the code and are not modelled.
