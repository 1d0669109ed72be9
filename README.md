# Examify aptitude hub: a Dafny model of its core

The application runs online aptitude tests. Administrators keep a bank of
multiple-choice questions, organised by topic. They add questions through
forms, import them from CSV text or a CSV file, manage student accounts and
schedule tests over a time window. Students take a test one question at a
time, under a per-question countdown and a whole-test clock. On completion
each answer is scored against its question's key and a result is stored.

This project models that behaviour in Dafny. It has one module per core
source file:

- `AdminDashboard`, `QuestionsTab`, `StudentsTab`, `AddTopicDialog`,
  `TestScheduler`, `ScheduledTestList`, `QuestionUploader` and
  `CsvFileUploader` cover the administrator's screens.
- `StudentTest`, `QuestionTimer` and `TotalTestTimer` cover the student's
  session.
- `MockDb` covers the client-side mock store `src/lib/db.ts`.
- `DatabaseService` covers its wrapper `src/lib/database-service.ts`.
- `SqlBuilder` covers the statements the server-side
  `lib/database-service.ts` builds.
- `MockData` covers the fixture results of `src/mock/data.ts`.

Shared definitions live in four more modules:

- `Types` holds the records.
- `Js` holds the JavaScript notions: `undefined`, `NaN`, truthiness,
  `Math.floor` and the truncating `%`.
- `Text` holds the string operations `trim`, `split`, `parseInt`,
  `toString` and `padStart`.
- `Seqs` holds the array operations `filter`, `find` and `new Set`.

Most screens that keep state in React hooks are classes. Each hook
variable is a field, and each handler is a method whose `ensures` gives the
complete new state. Two small screens are modelled on values instead: the
students tab's form (`newUser`) and the topic dialog's name
(`newTopicName`) are arguments of functions that return the new state. The
parsing and formatting code is made of functions, each with lemmas about
what it produces. The loops of the three CSV importers (the dashboard's
`processCsvData` in `AdminDashboard.ReadCsvLines`, and the two uploaders)
and of scoring are methods, and each is proved equal to a specification
function.

Replies from the backend, file contents, the clock and random choices are
parameters of the operations that use them.

## Model

| member | source | states |
|---|---|---|
| Js.NonEmpty | src/components/admin/questions/CSVFileUploaderDialog.tsx:73-74 | `s \|\| undefined` is absent exactly for the empty string, and otherwise is `s` |
| Js.FloorDiv | src/components/test/TotalTestTimer.tsx:33 | `Math.floor(a / b)` is the unique `q` with `q*b <= a < q*b + b` |
| Js.Rem | src/components/test/TotalTestTimer.tsx:35 | JavaScript's `%` lies strictly between `-b` and `b`. For `a >= 0` it is the ordinary remainder. For `a < 0` it is the negated remainder of `-a`, because it truncates toward zero |
| Text.DigitValue | src/components/admin/QuestionUploader.tsx:49 | a digit's value is below 10 |
| Text.DigitChar | src/components/AdminDashboard.tsx:67 | the digit written for `d < 10` is a digit whose value is `d` |
| Text.NatToString | src/components/AdminDashboard.tsx:67 | `n.toString()` is a non-empty digit string whose value is `n`, with a leading `0` only for `n = 0` |
| Text.NatToStringInjective | src/components/AdminDashboard.tsx:139 | different numbers have different decimal texts |
| Text.IntToString | src/components/AdminDashboard.tsx:515 | `String(i)` is the digits of `i` for `i >= 0`, and `-` followed by the digits of `-i` otherwise |
| Text.TrimStartFacts | src/components/admin/QuestionUploader.tsx:37 | `trimStart` removes exactly the leading white space, and the result does not start with white space |
| Text.TrimEndFacts | src/components/admin/QuestionUploader.tsx:37 | `trimEnd` removes exactly the trailing white space, and the result does not end with white space |
| Text.TrimFacts | src/components/admin/questions/AddTopicDialog.tsx:30 | `trim` gives `""` exactly for all-white-space text. Otherwise its result starts and ends with a non-white-space character and is no longer than its input |
| Text.Trim | src/components/admin/QuestionUploader.tsx:37 | `trim`, as `trimEnd` of `trimStart`; `Text.TrimFacts` states what it removes |
| Text.IndexOf | src/components/admin/QuestionUploader.tsx:40 | the first position of `c`, or the length when `c` is absent |
| Text.TrimEach | src/components/admin/questions/CSVFileUploaderDialog.tsx:70-74 | each part trimmed, same count |
| Text.Split | src/components/admin/QuestionUploader.tsx:40 | `split` on one character gives at least one part, and no part contains the separator |
| Text.JoinSplit | src/components/admin/QuestionUploader.tsx:40 | joining the parts of a split with the separator gives the text back |
| Text.ColumnOrAbsent | src/components/admin/QuestionUploader.tsx:60-61 | `cols[k] \|\| undefined` is absent exactly for a missing or empty column, and otherwise is that column |
| Text.Lines | src/components/admin/QuestionUploader.tsx:29 | `trim().split('\n')` gives at least one line |
| Text.ContainsAt | src/components/admin/QuestionUploader.tsx:34 | `includes` holds exactly when the text occurs at some position |
| Text.ToLower | src/components/admin/questions/CSVFileUploaderDialog.tsx:49 | lower-casing keeps the length and leaves no ASCII capital letter |
| Text.PadStart2 | src/components/QuestionTimer.tsx:51 | `padStart(2, '0')` ends with the input and pads it to length 2 with zeros in front |
| Text.DigitPrefix | src/components/admin/QuestionUploader.tsx:49 | the longest all-digit prefix |
| Text.SignStripped | src/components/admin/QuestionUploader.tsx:49 | the text after one optional leading `+` or `-` |
| Text.ParseDecimal | src/components/admin/QuestionsTab.tsx:54 | `parseInt(s, 10)` is `NaN` exactly when no digit follows the optional white space and sign, and is negative only after a `-` |
| Text.HexDigitValue | src/components/admin/QuestionUploader.tsx:49 | a hex digit's value is below 16, and a decimal digit keeps its value |
| Text.HexPrefix | src/components/admin/QuestionUploader.tsx:49 | the longest hex-digit prefix |
| Text.ParseInt | src/components/admin/QuestionUploader.tsx:49 | `parseInt` with no radix reads decimal, unless a `0x` or `0X` follows the white space and sign; then it reads hex and is `NaN` exactly when no hex digit follows the prefix |
| Text.HexPrefixAlone | src/components/admin/QuestionUploader.tsx:49 | `0x` alone is `NaN` without a radix, where radix 10 reads it as 0 |
| Text.HexPrefixDigits | src/components/admin/QuestionUploader.tsx:49 | `0x1A` is 26 without a radix, where radix 10 reads it as 0 |
| Text.HexPrefixSigned | src/components/admin/QuestionUploader.tsx:49 | a sign may precede the prefix: `-0x3` is -3 |
| Text.DigitPrefixOf | src/components/admin/QuestionUploader.tsx:49 | the digit prefix of digits followed by a non-digit is those digits |
| Text.LeadingZero | src/components/test/TotalTestTimer.tsx:41 | a leading zero does not change a digit string's value |
| Text.ParseNatToString | src/components/StudentTest.tsx:84 | `parseInt` reads back `n.toString()`, whatever non-digit text follows |
| Text.ParseIntToString | src/components/admin/QuestionsTab.tsx:153 | `parseInt(String(i))` is `i` for every integer |
| Text.PaddedTwoDigits | src/components/test/TotalTestTimer.tsx:41 | a number below 100, zero-padded, is exactly two digits |
| Text.ParsePadded | src/components/test/TotalTestTimer.tsx:41 | `parseInt` reads back the zero-padded rendering |
| Seqs.Filter | src/components/AdminDashboard.tsx:87 | `filter` keeps exactly the elements satisfying the test, and never lengthens the list |
| Seqs.FilterConcat | src/components/AdminDashboard.tsx:87 | filtering distributes over concatenation, so the kept elements keep their order |
| Seqs.FilterSingleton | src/components/AdminDashboard.tsx:87 | one element is kept exactly when it satisfies the test |
| Seqs.FilterAll | src/components/AdminDashboard.tsx:18 | when every element passes, filtering changes nothing |
| Seqs.FindIndex | src/lib/db.ts:119 | `find` stops at the first element satisfying the test, and at the end when there is none |
| Seqs.SumNonNegative | src/components/StudentTest.tsx:156 | a sum of non-negative times is non-negative |
| Seqs.FirstIndex | src/lib/db.ts:224 | the position of the first occurrence |
| Seqs.FirstIndexSnoc | src/lib/db.ts:224 | appending does not move an existing first occurrence |
| Seqs.Distinct | src/lib/db.ts:224 | `[...new Set(s)]` has no repeats and the same elements as `s` |
| Seqs.DistinctFirstOccurrenceOrder | src/lib/db.ts:224 | `new Set` lists elements in the order of their first occurrence |
| Types.TempIdInjective | src/components/admin/QuestionUploader.tsx:56 | different line indices give different `temp-i` ids |
| Types.RemoveQuestion | src/components/AdminDashboard.tsx:87 | deleting a question id keeps exactly the questions with other ids |
| Types.RemoveQuestionKeepsOrder | src/components/admin/QuestionsTab.tsx:120 | deleting a question keeps the others in order |
| Types.RemoveUser | src/components/AdminDashboard.tsx:120 | deleting a user id keeps exactly the users with other ids |
| Types.RemoveUserKeepsOrder | src/components/admin/StudentsTab.tsx:58 | deleting a user keeps the others in order |
| Types.RemoveAbsentUser | src/components/AdminDashboard.tsx:120 | deleting an id no user has leaves the list as it was |
| Types.RemoveAppendedUser | src/components/AdminDashboard.tsx:120 | deleting the id of a user just appended to a list without it gives the list back |
| StudentsTab.AddUser | src/components/admin/StudentsTab.tsx:29-55 | an incomplete form (user name, password or name missing) changes neither the list nor the form. A complete one appends one user, keeps the earlier users and resets the form |
| StudentsTab.AddedStudent | src/components/admin/StudentsTab.tsx:35-44 | the added user is a student with the form's fields, and its id reads as `length + 1` |
| StudentsTab.AddedIdFresh | src/components/admin/StudentsTab.tsx:36 | the new id differs from every existing one, provided no existing id reads as `length + 1` |
| StudentsTab.DeleteUser | src/components/admin/StudentsTab.tsx:57-60 | deletion keeps exactly the users with other ids |
| StudentsTab.DeleteUndoesAdd | src/components/admin/StudentsTab.tsx:29-60 | deleting a just-added user with a fresh id restores the list |
| AdminDashboard.NextId | src/components/AdminDashboard.tsx:67 | the new id reads back as `length + 1` and has no leading zero |
| AdminDashboard.DraftQuestion | src/components/AdminDashboard.tsx:66-72 | the question `addQuestion` builds from a complete form; `AdminDashboard.Dashboard.AddQuestion` appends it and `AddAfterDeleteReusesId` shows its id can repeat |
| AdminDashboard.Students | src/components/AdminDashboard.tsx:18 | the dashboard lists exactly the users whose role is student |
| AdminDashboard.AddAfterDeleteReusesId | src/components/AdminDashboard.tsx:60-89 | with questions `1` and `2`, deleting `1` and adding a question gives it id `2` again, so ids made from the count can collide |
| AdminDashboard.CsvRow | src/components/AdminDashboard.tsx:136-145 | a pasted line gives a question exactly when it has at least six columns. The question of line `i` has id `base + i`, four options and no topic |
| AdminDashboard.CsvRows | src/components/AdminDashboard.tsx:132-146 | one possible question per pasted line, line `i` with id `base + i` |
| AdminDashboard.PresentStep | src/components/AdminDashboard.tsx:135-146 | one more line appends its question when it has one, and nothing otherwise |
| AdminDashboard.PresentIndices | src/components/AdminDashboard.tsx:135-137 | the qualifying lines after the first, in increasing order |
| AdminDashboard.PresentFromRows | src/components/AdminDashboard.tsx:135-146 | the k-th imported question is the question of the k-th qualifying line |
| AdminDashboard.CsvQuestionsFromLines | src/components/AdminDashboard.tsx:132-146 | the imported questions are those of the qualifying lines, in line order, and line `i` gets id `base + i` |
| AdminDashboard.CsvQuestions | src/components/AdminDashboard.tsx:132-146 | the questions `processCsvData` imports; `CsvQuestionsFromLines` and `CsvIdsFresh` state which lines they come from and that their ids are fresh |
| AdminDashboard.NumberedIdsFresh | src/components/AdminDashboard.tsx:139 | questions numbered `base + i` from increasing line indices above 0 have pairwise distinct ids, none of them from 1 to `base` |
| AdminDashboard.CsvIdsFresh | src/components/AdminDashboard.tsx:139 | imported ids are pairwise distinct, and none equals an id from 1 to the existing count |
| AdminDashboard.ReadCsvLine | src/components/AdminDashboard.tsx:136-145 | the loop body computes `CsvRow` |
| AdminDashboard.ReadCsvLines | src/components/AdminDashboard.tsx:132-146 | the loop computes `CsvQuestions` |
| AdminDashboard.TimeTextReadsBack | src/components/AdminDashboard.tsx:515 | for `t >= 0` the text shows minutes and seconds below 60 that add up to `t`, and both read back with `parseInt` |
| AdminDashboard.MinutesSecondsReadBack | src/components/AdminDashboard.tsx:515 | `<m>m <s>s` reads back as `m` with `parseInt`, and as `s` after the `m ` |
| AdminDashboard.NegativeTimeText | src/components/AdminDashboard.tsx:515 | `-5` seconds shows as `-1m -5s`, whose parts do not add up |
| AdminDashboard.TimeText | src/components/AdminDashboard.tsx:515 | the `<m>m <s>s` text of a result's time; `AdminDashboard.TimeTextReadsBack` and `NegativeTimeText` state what it shows |
| AdminDashboard.RegroupTimeText | src/components/AdminDashboard.tsx:515 | in `<m>m <s>s` the seconds start two characters after the minutes |
| AdminDashboard.RadioValue | src/components/AdminDashboard.tsx:306 | as written, option `i`'s radio button stores the digits of `i` as text, which `parseInt` reads back as `i` |
| AdminDashboard.KeptKey | src/components/AdminDashboard.tsx:70 | `correctOption \|\| 0` keeps a number or non-empty text as it is, and turns the empty text into 0 |
| AdminDashboard.RadioKeyMislabelled | src/components/AdminDashboard.tsx:348 | as written, the third option's radio button gives the key text `2`, labelled `Option 21`, where the number 2 is labelled `Option 3` |
| AdminDashboard.KeyLabel | src/components/AdminDashboard.tsx:348 | the table's `Option {correctOption + 1}`; `RadioKeyMislabelled` and `NumericKeyLabel` state what it shows for text and number keys |
| AdminDashboard.NumericKeyLabel | src/components/admin/questions/AddQuestionForm.tsx:50-54 | with the number key the radio button is meant to store, the key is kept and the label's number reads back as the index plus one |
| AdminDashboard.Dashboard.SelectCorrectOption | src/components/AdminDashboard.tsx:302-307 | corrected: the radio button stores the option's index as a number, and nothing else in the form changes |
| AdminDashboard.Dashboard.constructor | src/components/AdminDashboard.tsx:17-33 | starts from the stored questions, the student users and empty forms |
| AdminDashboard.Dashboard.AddQuestion | src/components/AdminDashboard.tsx:60-84 | a complete form appends its question with id `length + 1` and the form's number key, and is cleared. An incomplete one changes nothing |
| AdminDashboard.Dashboard.DeleteQuestion | src/components/AdminDashboard.tsx:86-89 | the questions become `RemoveQuestion` of the old ones |
| AdminDashboard.Dashboard.AddUser | src/components/AdminDashboard.tsx:91-117 | list and form change exactly as `StudentsTab.AddUser` says |
| AdminDashboard.Dashboard.DeleteUser | src/components/AdminDashboard.tsx:119-122 | the users become `StudentsTab.DeleteUser` of the old ones |
| AdminDashboard.Dashboard.ProcessCsvData | src/components/AdminDashboard.tsx:124-160 | blank text, or text with no qualifying line, changes nothing. Otherwise the imported questions are appended and the text is cleared |
| QuestionsTab.CorrectOptionNumber | src/components/admin/QuestionsTab.tsx:53-55 | a text value goes through `parseInt` with radix 10, and a number is kept |
| QuestionsTab.RowOf | src/components/admin/QuestionsTab.tsx:59-65 | the row inserted for a form, its key through `CorrectOptionNumber`; `QuestionsTab.Tab.AddQuestion` sends it |
| QuestionsTab.CorrectOptionEitherForm | src/components/admin/QuestionsTab.tsx:53-55 | an index given as text or as a number sends the same value |
| QuestionsTab.ScalarText | src/components/admin/QuestionsTab.tsx:153 | `String(val)` keeps text, and a number's text reads back as that number |
| QuestionsTab.NormaliseOptions | src/components/admin/QuestionsTab.tsx:149-153 | an array is kept, JSON text gives its decoding, and an object gives its values as text, in order |
| QuestionsTab.ObjectOfTextsAsList | src/components/admin/QuestionsTab.tsx:149-153 | an object of texts normalises like the array of those texts |
| QuestionsTab.Truthy | src/components/admin/QuestionsTab.tsx:83-84 | `x \|\| undefined` of a nullable column is absent exactly when it is falsy |
| QuestionsTab.FromStored | src/components/admin/QuestionsTab.tsx:73-85 | a returned row becomes a question with its id and normalised options. A falsy explanation or topic becomes absent |
| QuestionsTab.NewTopics | src/components/admin/QuestionsTab.tsx:161-167 | the topics added are non-empty and absent from the list, at most one per question |
| QuestionsTab.NewTopicsComplete | src/components/admin/QuestionsTab.tsx:161-167 | every non-empty topic of the batch that is absent from the list is added |
| QuestionsTab.NewTopicsKeepRepeats | src/components/admin/QuestionsTab.tsx:161-167 | two new questions on the same absent topic add it twice |
| QuestionsTab.AddNewTopic | src/components/admin/QuestionsTab.tsx:177-181 | a non-empty topic is appended, and an empty one is ignored |
| QuestionsTab.Tab.constructor | src/components/admin/QuestionsTab.tsx:25-31 | given lists and an empty form |
| QuestionsTab.Tab.AddQuestion | src/components/admin/QuestionsTab.tsx:45-109 | an incomplete form sends nothing. A backend error or an empty reply changes nothing. Success appends the first returned row, adds the form's topic if it is new, and resets the form |
| QuestionsTab.Tab.DeleteQuestion | src/components/admin/QuestionsTab.tsx:111-126 | the question is removed locally only when the backend reports no error |
| QuestionsTab.Tab.BulkUpload | src/components/admin/QuestionsTab.tsx:128-175 | the returned rows follow the existing questions and their absent topics join the list. On an error nothing changes |
| QuestionsTab.Tab.HandleAddNewTopic | src/components/admin/QuestionsTab.tsx:177-181 | the topics become `AddNewTopic` of the old ones |
| AddTopicDialog.Decide | src/components/admin/questions/AddTopicDialog.tsx:29-44 | blank exactly when the name trims to nothing. Duplicate exactly when the trimmed name is already listed. Otherwise the trimmed name is accepted |
| AddTopicDialog.WhitespaceNameRefused | src/components/admin/questions/AddTopicDialog.tsx:30-33 | a name made only of white space is refused |
| AddTopicDialog.AcceptedTopicClean | src/components/admin/questions/AddTopicDialog.tsx:35-42 | an accepted topic is non-empty, new, and has no white space at either end |
| AddTopicDialog.Submit | src/components/admin/questions/AddTopicDialog.tsx:29-44 | an accepted name is passed on trimmed, and the input is cleared and the dialog closed. A refused one leaves the dialog as it was |
| AddTopicDialog.DialogGrowsTopicsByOne | src/components/admin/questions/AddTopicDialog.tsx:40 | dialog and tab together grow the topics by exactly one new non-empty topic, or leave them unchanged |
| TestScheduler.Toggled | src/components/admin/TestScheduler.tsx:31-37 | a selected topic is removed, and an unselected one is appended |
| TestScheduler.ToggleTwice | src/components/admin/TestScheduler.tsx:31-37 | toggling twice restores the selected set, and the list itself when the topic was unselected |
| TestScheduler.Form.constructor | src/components/admin/TestScheduler.tsx:22-28 | the empty form: 60 minutes, 10 questions, no dates, no topics |
| TestScheduler.Form.ToggleTopic | src/components/admin/TestScheduler.tsx:31-37 | the selection becomes `Toggled` of the old one |
| TestScheduler.Form.SetDuration | src/components/admin/TestScheduler.tsx:185 | the duration becomes `parseInt` of the field's text, `NaN` when it is cleared |
| TestScheduler.Form.SetQuestionCount | src/components/admin/TestScheduler.tsx:198 | the question count becomes `parseInt` of the field's text, `NaN` when it is cleared |
| TestScheduler.ClearedSizePassesGuard | src/components/admin/TestScheduler.tsx:42 | a cleared size field is `NaN`, which the `<= 0` test lets through, while 0 and -5 are refused |
| TestScheduler.AtMostZero | src/components/admin/TestScheduler.tsx:42 | `n <= 0` as JavaScript evaluates it: true only for a number at most 0, never for `NaN`; `ClearedSizePassesGuard` shows both cases |
| TestScheduler.Form.Submit | src/components/admin/TestScheduler.tsx:39-90 | each refusal (missing fields, no topics, end not after start) happens exactly under its condition and changes nothing; a size refuses only when it is a number at most 0, so `NaN` passes. A scheduled test carries the form's fields, is well formed, and resets the form |
| ScheduledTestList.StatusAt | src/components/admin/ScheduledTestList.tsx:46-53 | completed exactly after the end, in progress exactly within the window, upcoming exactly before the start |
| ScheduledTestList.RowOf | src/components/admin/ScheduledTestList.tsx:63-90 | the disabled badge shows exactly for inactive tests. The switch shows `isActive` and is locked exactly after the end |
| ScheduledTestList.Rows | src/components/admin/ScheduledTestList.tsx:63-90 | one row per test, in order |
| ScheduledTestList.InProgressAndOnIsOpen | src/components/admin/ScheduledTestList.tsx:46-53 | a test is open to students exactly when it is in progress and switched on |
| QuestionUploader.ClassifyRow | src/components/admin/QuestionUploader.tsx:36-68 | an invalid line is reported by its 1-based number. A valid one has four options and an index from 0 to 3 |
| QuestionUploader.ClassifyRowKinds | src/components/admin/QuestionUploader.tsx:37-53 | blank exactly for white space. Invalid exactly for fewer than six columns or an index that is not 0 to 3 |
| QuestionUploader.ClassifyRowFields | src/components/admin/QuestionUploader.tsx:55-62 | a valid line gives id `temp-i`, its first column as text, the next four as options, the parsed index, and the explanation and topic unless empty |
| QuestionUploader.Rows | src/components/admin/QuestionUploader.tsx:36-68 | one classification per line |
| QuestionUploader.QuestionsIn | src/components/admin/QuestionUploader.tsx:36-68 | every delivered question has four options and an index from 0 to 3 |
| QuestionUploader.ErrorsIn | src/components/admin/QuestionUploader.tsx:43-53 | the reported line numbers are within the range and increasing |
| QuestionUploader.UploadLines | src/components/admin/QuestionUploader.tsx:29-88 | an upload happens exactly when some data line is valid, and then delivers the valid questions |
| QuestionUploader.Upload | src/components/admin/QuestionUploader.tsx:18-22 | nothing is processed exactly for blank text |
| QuestionUploader.QuestionsInExactly | src/components/admin/QuestionUploader.tsx:55-62 | a question is delivered exactly for each valid row, and none is delivered exactly when no row is valid |
| QuestionUploader.ErrorsInExactly | src/components/admin/QuestionUploader.tsx:43-53 | a line number is reported exactly when its row is invalid |
| QuestionUploader.RowsPartition | src/components/admin/QuestionUploader.tsx:36-68 | every non-blank row is either delivered or reported, never both |
| QuestionUploader.SkippedLinesIgnored | src/components/admin/QuestionUploader.tsx:34 | a skipped header line is neither reported nor delivered |
| QuestionUploader.StartIndex | src/components/admin/QuestionUploader.tsx:34 | parsing starts at line 1 exactly when the first line contains `Question,Option`, else at 0; `SkippedLinesIgnored` states what skipping means |
| QuestionUploader.ValidRowId | src/components/admin/QuestionUploader.tsx:56 | the question of line `i` has id `temp-i` |
| QuestionUploader.UploadStep | src/components/admin/QuestionUploader.tsx:36-68 | one more row appends its question when valid and its line number when invalid |
| QuestionUploader.ReadLine | src/components/admin/QuestionUploader.tsx:37-62 | the loop body computes `ClassifyRow` |
| QuestionUploader.ProcessCsv | src/components/admin/QuestionUploader.tsx:18-88 | the handler's loop computes `Upload` |
| QuestionUploader.Uploader.constructor | src/components/admin/QuestionUploader.tsx:15 | the text box starts empty |
| QuestionUploader.Uploader.HandleProcess | src/components/admin/QuestionUploader.tsx:79-80 | the outcome is `Upload` of the text, and the text is cleared exactly on upload |
| CsvFileUploader.ClassifyRow | src/components/admin/questions/CSVFileUploaderDialog.tsx:56-83 | a short line is reported by its 1-based number, and a parsed one has four options |
| CsvFileUploader.ClassifyRowKinds | src/components/admin/questions/CSVFileUploaderDialog.tsx:57-65 | blank exactly for white space. Short exactly for fewer than eight columns, whatever the index value |
| CsvFileUploader.ClassifyRowFields | src/components/admin/questions/CSVFileUploaderDialog.tsx:68-75 | the parsed question has id `temp-i`, trimmed text and options, the parsed index without a range check, and the explanation and topic unless they trim to nothing |
| CsvFileUploader.Rows | src/components/admin/questions/CSVFileUploaderDialog.tsx:56-83 | one classification per line |
| CsvFileUploader.ImportRows | src/components/admin/questions/CSVFileUploaderDialog.tsx:56-83 | rows give an abort or an import, never a header failure |
| CsvFileUploader.ImportAllOrNothing | src/components/admin/questions/CSVFileUploaderDialog.tsx:60-65 | the import succeeds exactly when no row is short, and then holds one question per full row |
| CsvFileUploader.ImportAbortsAtFirstShortRow | src/components/admin/questions/CSVFileUploaderDialog.tsx:60-65 | an abort names the first short row |
| CsvFileUploader.ImportedFromParsedRows | src/components/admin/questions/CSVFileUploaderDialog.tsx:68-78 | every imported question comes from a full row |
| CsvFileUploader.ImportLines | src/components/admin/questions/CSVFileUploaderDialog.tsx:45-85 | a bad header is reported exactly when the first line lacks the column list. The import succeeds exactly with a good header and no short row |
| CsvFileUploader.HeaderOnly | src/components/admin/questions/CSVFileUploaderDialog.tsx:85 | a header-only file imports zero questions, and they are still handed on |
| CsvFileUploader.ReadLine | src/components/admin/questions/CSVFileUploaderDialog.tsx:57-78 | the loop body computes `ClassifyRow` |
| CsvFileUploader.ParseFile | src/components/admin/questions/CSVFileUploaderDialog.tsx:42-89 | the `onload` body computes `Import` |
| CsvFileUploader.Import | src/components/admin/questions/CSVFileUploaderDialog.tsx:45-85 | the outcome of reading a file's text; `CsvFileUploader.ImportLines` states it |
| CsvFileUploader.HeaderOk | src/components/admin/questions/CSVFileUploaderDialog.tsx:49-50 | the trimmed, lower-cased first line contains the expected column list |
| CsvFileUploader.Fields | src/components/admin/questions/CSVFileUploaderDialog.tsx:57-74 | the trimmed columns of the trimmed line; `CsvFileUploader.ClassifyRowFields` states how they are used |
| CsvFileUploader.ReadRows | src/components/admin/questions/CSVFileUploaderDialog.tsx:56-83 | the loop with its early return computes `ImportRows` |
| CsvFileUploader.ImportStep | src/components/admin/questions/CSVFileUploaderDialog.tsx:56-83 | a blank row adds nothing, a parsed row appends its question, and a short row ends the import with its line number |
| CsvFileUploader.AbortIsFinal | src/components/admin/questions/CSVFileUploaderDialog.tsx:64 | once aborted, later rows change nothing |
| CsvFileUploader.Dialog.constructor | src/components/admin/questions/CSVFileUploaderDialog.tsx:22 | no file chosen |
| CsvFileUploader.Dialog.HandleUpload | src/components/admin/questions/CSVFileUploaderDialog.tsx:32-97 | no file gives `NoFile`, and otherwise the outcome is `Import` of the file. The choice is cleared exactly on success |
| StudentTest.StatusOf | src/components/StudentTest.tsx:91-101 | answered exactly when an option is chosen, and marked exactly when flagged for review |
| StudentTest.AnswersOf | src/components/StudentTest.tsx:143-154 | one answer per question in question order; `StudentTest.ResultInvariant` states its fields |
| StudentTest.CountCorrect | src/components/StudentTest.tsx:142-146 | the score, one per correct answer; bounded by `StudentTest.CountCorrectBound` and pinned by `CountCorrectAll` and `CountCorrectNone` |
| StudentTest.DisplayName | src/components/StudentTest.tsx:161 | `currentUser.name \|\| currentUser.username`: the name when it is non-empty, else the username |
| StudentTest.ResultFor | src/components/StudentTest.tsx:142-167 | the result `completeTest` keeps; `StudentTest.ResultInvariant` states its invariants and `StudentTest.ScoreAnswers` computes it |
| StudentTest.CountCorrectBound | src/components/StudentTest.tsx:154 | the score never exceeds the number of answers |
| StudentTest.CountCorrectAll | src/components/StudentTest.tsx:154 | all answers correct gives a score equal to the count |
| StudentTest.CountCorrectNone | src/components/StudentTest.tsx:154 | no answer correct gives a score of zero |
| MockData.CountAppend | src/components/StudentTest.tsx:142-146 | the score of two answer lists one after the other is the sum of their scores |
| MockData.CountFive | src/components/StudentTest.tsx:142-146 | the score of five answers is the number of them marked correct |
| StudentTest.ResultInvariant | src/components/StudentTest.tsx:142-167 | a result has one answer per question in order, a score between 0 and the question count that counts the correct answers, and a non-negative total time that sums the answer times |
| StudentTest.FullMarks | src/components/StudentTest.tsx:142-154 | choosing every key scores full marks |
| StudentTest.NoAnswerNoMarks | src/components/StudentTest.tsx:142-154 | answering nothing scores zero when no key is negative |
| StudentTest.TwoQuestionScenario | src/components/StudentTest.tsx:142-167 | one right and one unanswered question give score 1 of 2 and 100 seconds |
| StudentTest.ScoreAnswers | src/components/StudentTest.tsx:142-154 | the scoring loop builds `AnswersOf` and counts its correct answers |
| StudentTest.TestSession.constructor | src/components/StudentTest.tsx:15-23 | no questions, not started, not complete |
| StudentTest.TestSession.FetchQuestions | src/components/StudentTest.tsx:39-75 | a non-empty fetch, first or repeated, loads the questions with no answers, no time, no flags and every question unanswered, keeps the question index, and leaves a question on screen exactly when the kept index is within the new list. Anything else changes nothing |
| StudentTest.TestSession.StartTest | src/components/StudentTest.tsx:77-80 | the test is started |
| StudentTest.TestSession.UpdateQuestionStatus | src/components/StudentTest.tsx:91-101 | only that question's status changes, to `StatusOf` |
| StudentTest.TestSession.HandleOptionChange | src/components/StudentTest.tsx:82-89 | the current question's option and status change, and nothing else |
| StudentTest.TestSession.HandleQuestionOptionSelect | src/components/StudentTest.tsx:202-215 | the same as `HandleOptionChange`, and the question is charged between 20 and 59 seconds |
| StudentTest.TestSession.ToggleMarkForReview | src/components/StudentTest.tsx:103-114 | the current flag is flipped and its status follows |
| StudentTest.TestSession.CompleteTest | src/components/StudentTest.tsx:140-200 | the test is complete, and the kept result is `ResultFor` of the session, each of whose answer times is one the handlers record (`RecordableTime`) |
| StudentTest.TestSession.MoveToNextQuestion | src/components/StudentTest.tsx:116-122 | the next question is shown, and the last one completes the test |
| StudentTest.TestSession.GoToQuestion | src/components/StudentTest.tsx:124-126 | the chosen question becomes current |
| StudentTest.TestSession.HandleTimeUp | src/components/StudentTest.tsx:128-138 | an unanswered question is charged 60 seconds and the session moves on as `MoveToNextQuestion` does, but on the last question the result is scored with the times from before the charge |
| StudentTest.TimeUpOnOnlyQuestion | src/components/StudentTest.tsx:128-160 | one question left unanswered until time runs out: the session keeps the 60-second charge, while the result records no time |
| StudentTest.ToggleTwiceRestores | src/components/StudentTest.tsx:103-114 | flagging twice leaves the session as it was |
| QuestionTimer.BandOf | src/components/QuestionTimer.tsx:40-44 | primary exactly above 60% of the duration, amber exactly in (30%, 60%], red otherwise |
| QuestionTimer.BandMonotone | src/components/QuestionTimer.tsx:40-44 | as time runs out, the colour only moves from primary towards red |
| QuestionTimer.DisplayReadsBack | src/components/QuestionTimer.tsx:50-51 | for `t >= 0` the display is the minutes, a colon and two digits of seconds below 60, and these add back up to `t` |
| QuestionTimer.Display | src/components/QuestionTimer.tsx:51 | the `m:ss` countdown text; `QuestionTimer.DisplayReadsBack` states how it reads back |
| QuestionTimer.MinutesColonSeconds | src/components/QuestionTimer.tsx:51 | `<m>:<ss>` is three characters longer than the minutes, and both the minutes and the two-digit seconds read back |
| QuestionTimer.RegroupDisplay | src/components/QuestionTimer.tsx:51 | in `<m>:<ss>` the seconds start one character after the minutes |
| QuestionTimer.Urgent | src/components/QuestionTimer.tsx:50 | the urgent style exactly in the last ten seconds, `timeLeft <= 10` |
| QuestionTimer.Timer.constructor | src/components/QuestionTimer.tsx:12-13 | the countdown starts at the duration, running |
| QuestionTimer.Timer.Tick | src/components/QuestionTimer.tsx:15-29 | a running timer with time left loses one second, and otherwise nothing changes. Time is up exactly when it reaches 0, and the time never goes negative |
| QuestionTimer.Timer.SetDuration | src/components/QuestionTimer.tsx:31-35 | a new duration restarts the countdown from it |
| TotalTestTimer.Decomposition | src/components/test/TotalTestTimer.tsx:32-36 | hours, minutes below 60 and seconds below 60 add up to the count |
| TotalTestTimer.Pad2Facts | src/components/test/TotalTestTimer.tsx:37-40 | a zero-padded number below 100 has two characters and reads back with `parseInt` when no digit follows |
| TotalTestTimer.MinutesSecondsText | src/components/test/TotalTestTimer.tsx:40 | `mm:ss` has five characters, and both the minutes and the seconds read back |
| TotalTestTimer.RegroupMinutesSeconds | src/components/test/TotalTestTimer.tsx:40 | with two-character minutes, `mm:ss` is three characters longer than the seconds, and the seconds start at the fourth character |
| TotalTestTimer.RegroupFields | src/components/test/TotalTestTimer.tsx:37 | with two-character minutes and seconds, `hh:mm:ss` is six characters longer than the hours, the minutes start one character after them and the seconds four |
| TotalTestTimer.HoursText | src/components/test/TotalTestTimer.tsx:37 | `hh:mm:ss` has at least eight characters, its leading field reads back as the hours, and the minutes and seconds read back from one and four characters after the hours |
| TotalTestTimer.FormatTimeShape | src/components/test/TotalTestTimer.tsx:32-42 | `mm:ss` below an hour and `hh:mm:ss` from an hour on, and the hours, the minutes and the seconds each read back from their own offset |
| TotalTestTimer.FormatTimeHours | src/components/test/TotalTestTimer.tsx:37 | from an hour on the output is `hh:mm:ss`, and the hours, minutes and seconds each read back at their offsets |
| TotalTestTimer.FormatTime | src/components/test/TotalTestTimer.tsx:32-42 | the clock text; `TotalTestTimer.FormatTimeShape` states its two shapes and their read-back |
| TotalTestTimer.Clock.constructor | src/components/test/TotalTestTimer.tsx:11-16 | zero seconds elapsed, nothing reported |
| TotalTestTimer.Clock.Tick | src/components/test/TotalTestTimer.tsx:18-29 | a completed test changes nothing. Otherwise the whole seconds since the start are kept, reported, and shown formatted |
| MockDb.LoginUser | src/lib/db.ts:115-127 | login succeeds exactly when some user matches email and password. It returns the first such user without the password, and otherwise fails with invalid credentials |
| MockDb.ActiveScheduledTests | src/lib/db.ts:165-173 | exactly the tests that are active and within their window |
| MockDb.ActiveScheduledTestsInOrder | src/lib/db.ts:165-173 | the open tests keep the stored order |
| MockDb.ScheduledTestById | src/lib/db.ts:175-178 | the first test with the id, or none exactly when no test has it |
| MockDb.SliceTo | src/lib/db.ts:186 | `slice(0, end)` with its clamping and negative ends |
| MockDb.QuestionsByTopics | src/lib/db.ts:180-190 | questions on the given topics only, with no element more often than in the filtered pool. Exactly `limit` of them when `0 < limit <` their count, and all of them without a limit |
| MockDb.PrefixSubMultiset | src/lib/db.ts:186 | a prefix holds no element more often than the whole |
| MockDb.TestResults | src/lib/db.ts:192-201 | all results without a user id, and otherwise exactly that user's, in order |
| MockDb.GetUsers | src/lib/db.ts:217-220 | every user, in order, without the password |
| MockDb.LoginUserIsListed | src/lib/db.ts:115-127 | a user who can log in is listed by `getUsers` |
| MockDb.TruthyTopics | src/lib/db.ts:224 | exactly the non-empty topics of the questions |
| MockDb.GetTopics | src/lib/db.ts:222-225 | each non-empty topic once |
| MockDb.GetTopicsInFirstOccurrenceOrder | src/lib/db.ts:224 | topics are listed in the order in which they first occur |
| MockDb.Store.constructor | src/lib/db.ts:5-11 | the given users and results |
| MockDb.Store.SignupUser | src/lib/db.ts:129-152 | a taken email fails and changes nothing. Otherwise one user is appended with id from the clock and the admin role exactly when the email contains `admin` |
| MockDb.RoleForEmail | src/lib/db.ts:138 | the admin role exactly for an email containing `admin`, the student role otherwise |
| MockDb.Store.CreateTestResult | src/lib/db.ts:203-215 | the result is appended with id from the clock, and that id is returned |
| MockDb.SignupThenLogin | src/lib/db.ts:129-152 | after a signup, logging in with the same credentials returns the new user |
| MockDb.CreatedResultIsListed | src/lib/db.ts:203-215 | a created result is the last of its user's results, and does not appear in other users' results |
| DatabaseService.GetQuestionsByTopic | src/lib/database-service.ts:20-23 | exactly the questions whose topic is the given one |
| DatabaseService.GetQuestionsByTopicAgrees | src/lib/database-service.ts:20-27 | for a non-empty topic it agrees with the store's many-topic filter |
| DatabaseService.FilterSameTest | src/lib/database-service.ts:22 | equivalent tests filter alike |
| DatabaseService.CreateQuestion | src/lib/database-service.ts:29-35 | the id reads back as `count + 1` and has no leading zero |
| DatabaseService.CreateScheduledTest | src/lib/database-service.ts:60-63 | the id is the clock reading's decimal text |
| DatabaseService.GetUserRole | src/lib/database-service.ts:89-93 | the role of the first user with the id, or none exactly when there is none |
| DatabaseService.UpdateQuestion | src/lib/database-service.ts:37-40 | the store is unchanged |
| DatabaseService.DeleteQuestion | src/lib/database-service.ts:42-45 | the store is unchanged |
| DatabaseService.UpdateScheduledTest | src/lib/database-service.ts:65-68 | the store is unchanged |
| DatabaseService.DeleteScheduledTest | src/lib/database-service.ts:70-73 | the store is unchanged |
| SqlBuilder.NumberedAssignments | lib/database-service.ts:58-80 | the i-th assignment sets the i-th defined field's column to `$(i+1)` |
| SqlBuilder.Assignments | lib/database-service.ts:58-80 | one assignment per defined field; `SqlBuilder.NumberedAssignments` states what each is |
| SqlBuilder.Values | lib/database-service.ts:58-80 | one bound value per defined field |
| SqlBuilder.OrderedValues | lib/database-service.ts:58-80 | the i-th value is the i-th defined field's value |
| SqlBuilder.PlaceholderInjective | lib/database-service.ts:64-88 | different numbers give different `$k` placeholders |
| SqlBuilder.UpdatePlaceholdersBind | lib/database-service.ts:58-90 | each assignment's placeholder refers to its own value, the `WHERE` placeholder to the id, and no two placeholders coincide |
| SqlBuilder.UpdateBuilder.constructor | lib/database-service.ts:59-61 | empty lists, counter 1 |
| SqlBuilder.UpdateBuilder.AddIfDefined | lib/database-service.ts:63-66 | a defined value adds one numbered assignment, and an undefined one adds nothing |
| SqlBuilder.UpdateBuilder.Finish | lib/database-service.ts:84-89 | nothing is sent when no field was defined, and otherwise the numbered statement with the id last |
| SqlBuilder.UpdateQuestion | lib/database-service.ts:58-90 | the statement numbers the defined fields in column order and adds `updated_at = NOW()` |
| SqlBuilder.UpdateStatement | lib/database-service.ts:84-90 | no statement without a defined field, otherwise `UPDATE … WHERE id = $n`; `UpdatePlaceholdersBind` and the two shape lemmas state what it binds |
| SqlBuilder.UpdateScheduledTest | lib/database-service.ts:162-207 | the same numbering for a scheduled test, without `updated_at` |
| SqlBuilder.QuestionUpdateShape | lib/database-service.ts:58-90 | nothing is sent exactly for an empty patch. Otherwise there is one parameter per defined field, plus the id |
| SqlBuilder.ScheduledTestUpdateShape | lib/database-service.ts:162-207 | nothing is sent exactly for an empty patch. Otherwise there is one parameter per defined field, plus the id |
| SqlBuilder.TestResultsQuery | lib/database-service.ts:214-224 | a user id filters by user with one parameter, and none gives every result. The statement is always ordered |
| SqlBuilder.QuestionsByTopicsQuery | lib/database-service.ts:30-38 | the topics are the first parameter, and a non-zero limit adds `LIMIT $2` |
| MockData.CountStep | src/components/StudentTest.tsx:154 | counting correct answers proceeds left to right |
| MockData.SumStep | src/components/StudentTest.tsx:156 | summing times proceeds left to right |
| MockData.MockResult1Answers | src/mock/data.ts:87-102 | fixture 1's answers are the ones scoring builds |
| MockData.MockResult1Score | src/mock/data.ts:87-102 | fixture 1's score counts its correct answers |
| MockData.MockResult1Time | src/mock/data.ts:87-102 | fixture 1's time sums its answer times |
| MockData.MockResult2Answers | src/mock/data.ts:103-118 | fixture 2's answers are the ones scoring builds |
| MockData.MockResult2Score | src/mock/data.ts:103-118 | fixture 2's score counts its correct answers |
| MockData.MockResult2Time | src/mock/data.ts:103-118 | fixture 2's time sums its answer times |
| MockData.MockResult3Answers | src/mock/data.ts:119-139 | fixture 3's answers are the ones scoring builds |
| MockData.MockResult3Score | src/mock/data.ts:119-139 | fixture 3's score counts its correct answers |
| MockData.MockResult3Time | src/mock/data.ts:119-139 | fixture 3's time sums its answer times |
| MockData.MockResult4Answers | src/mock/data.ts:140-161 | fixture 4's answers are the ones scoring builds |
| MockData.MockResult4Score | src/mock/data.ts:140-161 | fixture 4's score counts its correct answers |
| MockData.MockResult4Time | src/mock/data.ts:140-161 | fixture 4's time sums its answer times |
| MockData.MockResult1Agrees | src/mock/data.ts:87-102 | fixture 1 is exactly the result scoring builds from its selections and times, with its score and total time |
| MockData.MockResult2Agrees | src/mock/data.ts:103-118 | fixture 2 is exactly the result scoring builds from its selections and times, with its score and total time |
| MockData.MockResult3Agrees | src/mock/data.ts:119-139 | fixture 3 is exactly the result scoring builds from its selections and times, with its score and total time |
| MockData.MockResult4Agrees | src/mock/data.ts:140-161 | fixture 4 is exactly the result scoring builds from its selections and times, with its score and total time |
| MockData.MockResultsAreScored | src/mock/data.ts:86-161 | every fixture result is exactly the one scoring builds from its selections and times |
| StudentTest.RecordableTime | src/components/StudentTest.tsx:61 | the times the session's handlers write: 0 on load (:61), 60 on time-up (:134), and 20 to 59 from the uncalled `handleQuestionOptionSelect` (:211) |
| StudentTest.PageRecordedTime | src/components/StudentTest.tsx:134 | the times the handlers the page calls write: only 0 and 60 |
| MockData.MockResultTimes | src/mock/data.ts:87-161 | fixtures 1, 3 and 4 use only times the model's handlers can record (0, 20 to 59, or 60), but each first answer's time is one the page itself never records |
| MockData.MockResult2TimeBeyondSession | src/mock/data.ts:116 | fixture 2's fifth answer records 62 seconds, a time no handler records, although scoring agrees with the fixture |

## Left out

- The backends, local storage and `FileReader` are I/O and not modelled. The backends are Supabase, the SQL pool and the `/api` routes. Their replies and the file text are parameters.
- Toasts, loading and uploading flags, dialog open state beyond the topic dialog, and React effect scheduling are not modelled. Each handler is one atomic step.
- StudentTest.TestSession.HandleQuestionOptionSelect: the page defines `handleQuestionOptionSelect` but never calls it. The radio group calls `handleOptionChange` and the navigator calls `goToQuestion`. It is modelled because it is part of the component, and the 20 to 59 in `RecordableTime` comes only from it.
- Randomness is not modelled directly:
  - The time `handleQuestionOptionSelect` charges is a choice between 20 and 59.
  - The shuffle in `getQuestionsByTopics` is a permutation passed in.
- Decoding JSON text is not modelled. The decoded options are carried beside the text.
- Dates, ISO strings and locale formatting are not modelled. Times are whole seconds, or integer milliseconds for the clock.
- QuestionTimer.BandOf: states the thresholds exactly (`5t > 3d`, `10t > 3d`) rather than with floating-point `0.6` and `0.3`. The progress-bar percentage is floating point and not modelled.
- QuestionTimer.Timer.Tick: the `onTimeUp` effect is modelled only through the result of `Tick`. Its firing at mount when the duration is 0, or after `SetDuration(0)`, is not modelled.
- The text-field edit handlers (`handleQuestionChange` for the text and explanation, `handleOptionChange` of the forms, `handleUserChange`, the scheduler's title and date fields) store the typed text unchanged in one field and are not modelled. The dashboard's correct-option radio button and the scheduler's two size fields convert their value and are modelled (`AdminDashboard.Dashboard.SelectCorrectOption`, `TestScheduler.Form.SetDuration`, `TestScheduler.Form.SetQuestionCount`).
- The browser's own checks on the scheduler's fields (`required`, `min`, `max`) are not modelled. `TestScheduler.Form.Submit` is the handler alone.
- Text.ToLower: lower-cases ASCII letters only. JavaScript's `toLowerCase` also lower-cases other capitals, and can change the length (U+0130 becomes two characters; the Kelvin sign U+212A becomes `k`). The header check it serves is unaffected: it looks for `question` and `option`, with no `k` and no final `i`.
- StudentTest.TestSession.FetchQuestions: React re-runs the fetch effect after every render because its `currentUser` dependency is parsed afresh each time. The model covers each repeated fetch as one more call, which wipes the answers and keeps the index. When it happens is not modelled.
- StudentTest.TestSession.HandleTimeUp: the question timer has no key, so it is not restarted for each question (src/components/StudentTest.tsx:285). Once it reaches 0 it calls `handleTimeUp` again on every render. Each call is one more `HandleTimeUp`; their timing is not modelled.
- QuestionsTab.CorrectOptionNumber: the form's own controls only store numbers. The text case is modelled because the handler accepts text.
- CsvFileUploader.ReadLine: trims every column at once, where the source trims each column as it reads it. The values are the same.
- AdminDashboard.TimeTextReadsBack: holds for non-negative times only. `NegativeTimeText` shows what a negative time gives.
- The read queries of `lib/database-service.ts` other than `getQuestionsByTopics` and `getTestResults` only map rows to records and are not modelled. Neither is its row mapping.
- DatabaseService.UpdateQuestion, DatabaseService.DeleteQuestion, DatabaseService.UpdateScheduledTest, DatabaseService.DeleteScheduledTest: these only log their arguments. The model's methods change nothing and name nothing they may change, so their "store unchanged" contract holds by framing alone and adds nothing.
- The delegating methods of `src/lib/database-service.ts` return what `src/lib/db.ts` returns. They are represented by the `MockDb` functions themselves.
- `lib/db.ts` (the pool setup), the pages, the API routes, the seeding script and the Supabase-backed fetch in `StudentTest` are not part of this model.

## Findings

| source | as written | input that shows it | evidently intended | confidence | as-written member | corrected member |
|---|---|---|---|---|---|---|
| src/components/AdminDashboard.tsx:306 | the correct-option radio button stores `i.toString()`, and `addQuestion` keeps that text (`correctOption \|\| 0`), so the added question's key is text | marking the third option correct gives the key `"2"`, which the questions table shows as `Option 21` | store the number `i`, as the questions tab's form does (src/components/admin/questions/AddQuestionForm.tsx:53) | high; not executed | AdminDashboard.RadioKeyMislabelled | AdminDashboard.NumericKeyLabel |
