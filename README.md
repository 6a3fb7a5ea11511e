# MedEase front end — a Dafny model of its page logic

MedEase is a React single-page application for medical students and the people who run
the course. Students browse years, modules, subjects and topics, answer topic quizzes
and attempt OSPE (objectively structured practical examination) stations. Administrators
maintain that resource tree, write and bulk-import MCQs, edit OSPEs, curate past "proff"
(professional examination) papers for JSMU and for other universities, approve payments
and verify users.

The application has no central engine. Its behaviour lives in small pieces of logic
inside components, and this project lifts each of them into Dafny:

- normalising loaded OSPEs, editing them, and assembling their payloads;
- flattening an OSPE for a student attempt;
- validating MCQ forms;
- the topic-quiz state machine;
- the bulk-import save gate;
- filtering, searching and paging list views;
- the lazy resource-tree caches;
- list edits on the proff structures;
- payment ordering, user verification and paging;
- the role guard on routes.

How the model treats the outside world:

- **Requests and responses.** An API response is an input: `Outcome` is `Ok(data)` or
  `Failed(message)`. Every request a component sends is appended to a `requests` log on
  its class.
- **Awaited reloads.** Where one handler waits for a reload, the reload's response is a
  second parameter.
- **One request spanning two steps.** Where a request is in flight across user actions,
  the handler is split into `Start…` and `Finish…` steps. The quiz's submit and the JSMU
  year list's add and remove are split this way.
- **React state.** Page state is a class whose fields are the component's `useState`
  variables. Each handler is a method whose `ensures` gives the whole new state.
- **Pure transformations.** The pure transformations (maps, filters, payload builders)
  are functions, with lemmas giving their independent properties.
- **Loops.** Code that really loops keeps its loop:
  - the de-duplicating `forEach` that builds filter options;
  - the `idx++` counter that flattens OSPE stations;
  - the render-time `globalIdx` counter;
  - the in-place `Array.prototype.sort` of fetched year lists (an insertion sort on an
    `array`, proved sorted and a permutation).

JavaScript idioms are modelled exactly:

| JavaScript | Model |
|---|---|
| `x ‖ d` on a string | `Strings.OrDefault`: a missing or empty string gives the default |
| `??` | `Option.GetOr` |
| `trim()` | `Strings.Trim`, over the ECMAScript whitespace set |
| `parseInt(s) ‖ 0` | `ProffJsmuYearDetail.OrderInput` |
| `findIndex` | `Seqs.FindIndex`, -1 when nothing matches |
| `filter` | `Seqs.Filter` |
| `slice` with clamped bounds | `Seqs.Slice` |

Two cases where the model's reading needs stating:

- `undefined === undefined` is true, written as `None == None`.
- An empty route parameter or id counts as missing, because the source tests these for
  truthiness.

`localeCompare` is an abstract collation key `collate: string -> int`, and
`toLowerCase` is an abstract per-character fold `fold: char -> char`, and the browser's
absolute-URL test for a `type="url"` input is an abstract `validUrl: string -> bool`.

Some behaviours of the code are easy to misread, and the model states them as written:

- **Bulk import.** `canSave` in `BulkMcqPage.jsx` needs import text that is not blank, a
  preview with at least one MCQ, and no parse errors before the import button is enabled.
  `BulkMcq.CanSaveIff` states the rule.
- **Free-trial button.** The code leaves the topic page stuck in loading when the button
  is pressed a second time. The flag is already set, so no fetch follows, and
  `TopicQuiz.Quiz.UseFreeTrial` models exactly that.
- **OSPE payload.** The payload carries `correctIndex` unchanged even though the options
  are filtered (`OspeFormPage.PayloadSpec`, `OspeForm.PayloadSpec`).

Modules:

- shared modules: `Wrappers`, `Strings`, `Seqs`, `Sorting`, `ListView` (the logic the
  three admin list views share), `Tree` (expand keys and cache loads), `Ospe` (option
  padding) and `ProffYears` (year types, normalisation and naming);
- one module per component, named after its file.

## Model

Source paths are relative to the repository root.

| member | source | states |
|---|---|---|
| Strings.Trim | src/pages/admin/resources/BulkMcqPage.jsx:61 | the trimmed string is no longer than the input and neither starts nor ends with whitespace |
| Strings.TrimIsSlice | src/pages/admin/resources/BulkMcqPage.jsx:61 | trimming removes exactly an all-whitespace prefix and an all-whitespace suffix |
| Strings.TrimIdempotent | src/pages/admin/proff/ProffJsmuYears.jsx:98-99 | trimming twice is trimming once |
| Strings.BlankIffAllSpace | src/pages/admin/proff/ProffOtherYears.jsx:47-48 | a string trims to empty exactly when every character is whitespace |
| Strings.OrDefault | src/pages/admin/proff/ProffJsmuYears.jsx:96 | a present non-empty string is kept; a missing or empty one gives the default |
| Strings.Lower | src/pages/admin/resources/TopicsList.jsx:60-66 | case folding keeps the length and folds each character |
| Strings.ParseIntOfNatToString | src/pages/admin/proff/ProffJsmuYearDetail.jsx:241 | `parseInt` reads back the decimal text of any count |
| Seqs.Filter | src/pages/admin/Payments.jsx:19-20 | the kept elements all satisfy the predicate and are no more than the input |
| Seqs.FilterDropsOne | src/pages/admin/proff/ProffJsmuYearDetail.jsx:109-111 | a filter that rejects exactly one position removes just that element and keeps the rest in order |
| Seqs.FindIndex | src/pages/admin/proff/ProffOtherYearDetail.jsx:66 | the result is -1 or the first position satisfying the predicate; no earlier position satisfies it |
| Seqs.RemoveIndex | src/pages/admin/resources/OspeFormPage.jsx:86 | a valid index drops exactly that element and shifts the rest down in order; an invalid one changes nothing |
| Seqs.Assign | src/pages/admin/resources/OspeFormPage.jsx:91-92 | the assigned slot holds the value, every other slot is unchanged, and an index one past the end appends |
| Seqs.Slice | src/pages/admin/resources/TopicsList.jsx:71-74 | a clamped slice has the clamped length and holds the elements from the lower bound on |
| Sorting.SortByKey | src/pages/admin/proff/ProffJsmuYears.jsx:8 | sorting in place leaves the array in ascending key order and a permutation of what it was |
| ProffYears.OrderKey | src/pages/admin/proff/ProffJsmuYears.jsx:8 | a missing order sorts as 0 and a present one as itself |
| ProffYears.NormalizeYears | src/pages/admin/proff/ProffJsmuYears.jsx:6-9 | no year list gives []; otherwise the fetched array itself is sorted in place and its contents returned, in key order and holding exactly the fetched years |
| ProffYears.NormalizedKeepsYears | src/pages/admin/proff/ProffOtherYears.jsx:8-11 | a normalised list has as many years as were fetched, and holds exactly those years |
| ProffYears.NewYearName | src/pages/admin/proff/ProffJsmuYears.jsx:30 | the name offered starts with `Year ` and has something after it |
| ProffYears.NewYearNameNumber | src/pages/admin/proff/ProffOtherYears.jsx:36 | the number in a new year's name reads back as the count plus one |
| ProffYears.NewYearNameInjective | src/pages/admin/proff/ProffJsmuYears.jsx:30 | different counts give different new-year names |
| Ospe.PadOptions | src/pages/admin/resources/OspeFormPage.jsx:55 | a loaded option list has length min(4, n + 3), keeps its original entries first and fills the rest with empty strings |
| Ospe.PadOptionsLength | src/pages/admin/resources/OspeFormPage.jsx:72 | a padded list has 3 or 4 slots, and exactly 3 when the original was missing or empty |
| OspeFormPage.LoadStationsShape | src/pages/admin/resources/OspeFormPage.jsx:47-60 | a stations-shaped OSPE keeps its station and question counts; each order becomes its index, a missing type becomes text_mcq and a missing correctIndex 0 |
| OspeFormPage.LoadStationsLegacy | src/pages/admin/resources/OspeFormPage.jsx:61-79 | a legacy OSPE becomes one single-question station per question, with the question's image and its index as order; the question keeps its text, padded options, correct index and expected answer, with `''`, `0` and `''` for missing ones; only viva_written stays viva_written, everything else becomes text_mcq |
| OspeFormPage.LoadStationsNeither | src/pages/admin/resources/OspeFormPage.jsx:45-81 | an OSPE with neither stations nor questions keeps the editor's stations |
| OspeFormPage.WithFieldChangesOne | src/pages/admin/resources/OspeFormPage.jsx:91 | setting one question field changes that field and no other |
| OspeFormPage.SetOptionIn | src/pages/admin/resources/OspeFormPage.jsx:92 | the option list written is the padded list with slot oi set to the value and every other slot as padded; slot 3 of a three-slot list is appended |
| OspeFormPage.UpdateQuestion | src/pages/admin/resources/OspeFormPage.jsx:91 | only the addressed station's addressed question changes; every other station and question is unchanged |
| OspeFormPage.UpdateOption | src/pages/admin/resources/OspeFormPage.jsx:92 | only the addressed option of the addressed question changes |
| OspeFormPage.PayloadSpec | src/pages/admin/resources/OspeFormPage.jsx:109-125 | station and question orders are their positions, an empty image is absent, MCQ types carry only their non-empty options and the unchanged correctIndex, and viva_written carries only the expected answer |
| OspeFormPage.Editor.constructor | src/pages/admin/resources/OspeFormPage.jsx:13-32 | a new form holds one empty station: order 0, one text_mcq question with four empty options, correctIndex 0 and an empty expected answer |
| OspeFormPage.Editor.Loaded | src/pages/admin/resources/OspeFormPage.jsx:41-83 | a found OSPE's name and normalised stations replace the form's; without one nothing changes |
| OspeFormPage.Editor.AddStation | src/pages/admin/resources/OspeFormPage.jsx:85 | exactly one empty station is appended |
| OspeFormPage.Editor.RemoveStation | src/pages/admin/resources/OspeFormPage.jsx:86 | exactly the station at the index is removed and the rest keep their order |
| OspeFormPage.Editor.AddQuestion | src/pages/admin/resources/OspeFormPage.jsx:89 | exactly one empty question is appended to the addressed station; other stations are unchanged |
| OspeFormPage.Editor.RemoveQuestion | src/pages/admin/resources/OspeFormPage.jsx:90 | exactly the addressed question is removed from its station |
| OspeFormPage.Editor.SetQuestion | src/pages/admin/resources/OspeFormPage.jsx:91 | the stations become `UpdateQuestion` of the old stations |
| OspeFormPage.Editor.SetOption | src/pages/admin/resources/OspeFormPage.jsx:92 | the stations become `UpdateOption` of the old stations |
| OspeFormPage.Editor.Submit | src/pages/admin/resources/OspeFormPage.jsx:109-133 | while the `required` name or a question text (lines 163, 191) is empty nothing is sent and nothing changes; otherwise the payload is sent as an update in edit mode and a create otherwise, a success navigates away, and saving ends false |
| OspeForm.LoadQuestion | src/components/admin/OspeForm.jsx:12 | an existing question keeps its fields, its options padded to min(4, n + 3), type defaulting to picture_mcq and correctIndex to 0 |
| OspeForm.InitialQuestionsSpec | src/components/admin/OspeForm.jsx:12 | existing questions are each loaded in order; with none the form holds one blank picture_mcq question with four empty options |
| OspeForm.InitialQuestionsSlots | src/components/admin/OspeForm.jsx:12-19 | every initial question has 3 or 4 option slots, so each of the four option inputs can be written |
| OspeForm.UpdateQuestion | src/components/admin/OspeForm.jsx:18 | only the named field of question i changes |
| OspeForm.UpdateOption | src/components/admin/OspeForm.jsx:19 | only option oi of question qi changes; a three-slot list gains the fourth slot, without padding first |
| OspeForm.UpdateOptionSlots | src/components/admin/OspeForm.jsx:19 | writing one of the four option inputs keeps every question at 3 or 4 slots |
| OspeForm.PayloadSpec | src/components/admin/OspeForm.jsx:34-47 | question order is the position and an empty image is absent; only picture_mcq carries options (non-empty ones) and correctIndex, and only viva_written the expected answer |
| OspeForm.Form.constructor | src/components/admin/OspeForm.jsx:11-13 | the form starts from the initial questions |
| OspeForm.Form.AddQuestion | src/components/admin/OspeForm.jsx:16 | exactly one blank question is appended |
| OspeForm.Form.RemoveQuestion | src/components/admin/OspeForm.jsx:17 | exactly question i is removed and the rest keep their order |
| OspeForm.Form.SetField | src/components/admin/OspeForm.jsx:18 | the questions become `UpdateQuestion` of the old ones |
| OspeForm.Form.SetOption | src/components/admin/OspeForm.jsx:19 | the questions become `UpdateOption` of the old ones |
| OspeForm.Form.Submit | src/components/admin/OspeForm.jsx:34-56 | while the `required` name or a question text (lines 63, 77) is empty, or a text was never set, nothing is sent and nothing changes; otherwise the payload is sent as an update when the OSPE has an id and a create otherwise, only a success runs `onSave` and `onClose`, and saving ends false |
| OspeAttempt.Indexed | src/pages/student/OspeAttempt.jsx:9 | legacy questions get their position as global index |
| OspeAttempt.GetFlatQuestions | src/pages/student/OspeAttempt.jsx:6-13 | the loop with its running counter computes exactly the specified flat list |
| OspeAttempt.ConcatAt | src/pages/student/OspeAttempt.jsx:12 | question qi of station si sits at the station's offset plus qi in the concatenation |
| OspeAttempt.ConcatPrefix | src/pages/student/OspeAttempt.jsx:12 | the questions of the first j stations are a prefix of all the stations' questions |
| OspeAttempt.ConcatLength | src/pages/student/OspeAttempt.jsx:12 | the concatenation's length is the total question count |
| OspeAttempt.FlatQuestionsSpec | src/pages/student/OspeAttempt.jsx:6-13 | global indices run 0..n-1 in station-then-question order; legacy indices are positions; no stations and no questions give [] |
| OspeAttempt.RenderIndices | src/pages/student/OspeAttempt.jsx:54-73 | the render loop's counter gives question qi of station si the station's offset plus qi |
| OspeAttempt.RenderMatchesFlat | src/pages/student/OspeAttempt.jsx:54-73 | the index shown for each rendered question is the global index the flat list gives it |
| OspeAttempt.AnswerListSpec | src/pages/student/OspeAttempt.jsx:34-38 | one entry per flat question, questionIndex its global index, selectedIndex the numeric choice or absent, the written answer passed through |
| OspeAttempt.LegacyChoiceRoundTrip | src/pages/student/OspeAttempt.jsx:36-134 | a choice stored as the text of its index reads back as that index |
| OspeAttempt.GuessUpdate | src/pages/student/OspeAttempt.jsx:43-49 | a question is locked only for guess_until_correct with a correctIndex equal to the choice; locks are never removed |
| OspeAttempt.Attempt.constructor | src/pages/student/OspeAttempt.jsx:19-23 | the attempt starts with no answers, no locks and nothing sent |
| OspeAttempt.Attempt.McqChange | src/pages/student/OspeAttempt.jsx:43-93 | enabled only for an unlocked question: the choice is stored as a number under i and the locks become `GuessUpdate` of the old ones |
| OspeAttempt.Attempt.LegacyChoice | src/pages/student/OspeAttempt.jsx:134 | a legacy radio stores its value string, the decimal text of its index |
| OspeAttempt.Attempt.Write | src/pages/student/OspeAttempt.jsx:107-147 | the written answer is stored for that question only |
| OspeAttempt.Attempt.Submit | src/pages/student/OspeAttempt.jsx:32-41 | exactly the answer list of the flat questions is sent; the page switches to saved only on success |
| Mcq.OptionsOrBlank | src/pages/admin/resources/McqFormPage.jsx:49 | a non-empty list is kept, otherwise four empty options |
| Mcq.SetSlot | src/pages/admin/resources/McqFormPage.jsx:202-208 | only the addressed option changes; past the end the list grows and the gap reads as empty options |
| Mcq.ValidateAsWritten | src/pages/admin/resources/McqFormPage.jsx:80-88 | the code's validation: fewer than 2 non-empty options or a correctIndex outside the filtered list rejects, else the filtered list and the raw index are accepted |
| Mcq.AsWrittenShiftsAnswer | src/components/admin/McqForm.jsx:37-39 | with a blank option before the answer, the accepted index names a different option than the one marked |
| Mcq.Validate | src/pages/admin/resources/McqFormPage.jsx:80-88 | fewer than 2 non-empty options, or a marked option that is out of range or blank, rejects; an accepted form sends the non-empty options |
| Mcq.ValidateKeepsAnswer | src/pages/admin/resources/McqFormPage.jsx:80-99 | an accepted answer's index names the option that was marked |
| Mcq.ValidateAgreesWithoutGaps | src/components/admin/McqForm.jsx:37-39 | with no blank options the corrected and the original validation agree |
| Mcq.ImageField | src/pages/admin/resources/McqFormPage.jsx:98 | the image is sent only for type image |
| McqFormPage.EditFieldsDefaults | src/pages/admin/resources/McqFormPage.jsx:47-54 | a loaded MCQ's missing fields become four empty options, correctIndex 0 and type text |
| McqFormPage.VideoField | src/pages/admin/resources/McqFormPage.jsx:96 | the video URL is trimmed, and absent when blank |
| McqFormPage.PayloadSpec | src/pages/admin/resources/McqFormPage.jsx:91-99 | the payload carries the non-empty options, an index naming the marked option, the trimmed video (absent when blank), the image only for type image, and no order |
| McqFormPage.Editor.constructor | src/pages/admin/resources/McqFormPage.jsx:15-29 | edit mode holds iff the id is present and not `new`; only edit mode loads |
| McqFormPage.Editor.Loaded | src/pages/admin/resources/McqFormPage.jsx:31-63 | a 404 from the topic or the MCQ lookup marks the page not found; the fields are filled, with defaults, only when the MCQ arrived in edit mode; loading ends |
| McqFormPage.Editor.SetOption | src/pages/admin/resources/McqFormPage.jsx:202-208 | the options become `SetSlot` of the old ones and nothing else changes |
| McqFormPage.Editor.SetCorrectIndex | src/pages/admin/resources/McqFormPage.jsx:196 | the marked answer changes and nothing else |
| McqFormPage.Editor.Submit | src/pages/admin/resources/McqFormPage.jsx:78-109 | while the `required` question text (line 164) is empty, or the `type="url"` video link (line 230) is neither empty nor a valid absolute URL by the browser's test, nothing is sent, alerted or changed; otherwise a rejected form alerts the reason and sends nothing, and an accepted one sends an update in edit mode and a create otherwise; a success navigates away and only a failure resets saving |
| McqForm.InitialFieldsDefaults | src/components/admin/McqForm.jsx:12-18 | the form starts from the MCQ's options if non-empty (else four blanks); correctIndex defaults to 0 and the type to text only when missing |
| McqForm.OrderOf | src/components/admin/McqForm.jsx:42 | the order sent is the MCQ's order, or 0 |
| McqForm.PayloadSpec | src/components/admin/McqForm.jsx:42 | the payload carries the non-empty options with the marked answer at the index sent, the untrimmed video, the image only for type image and the MCQ's order or 0 |
| McqForm.Form.constructor | src/components/admin/McqForm.jsx:11-20 | the form starts from the initial fields |
| McqForm.Form.SetOption | src/components/admin/McqForm.jsx:78 | the options become `SetSlot` of the old ones and nothing else changes |
| McqForm.Form.SetCorrectIndex | src/components/admin/McqForm.jsx:77 | the marked answer changes and nothing else |
| McqForm.Form.Submit | src/components/admin/McqForm.jsx:35-49 | while the `required` question text (line 64) is empty nothing is sent, alerted or changed; otherwise a rejected form alerts the reason and sends nothing, and an accepted one sends an update iff the MCQ has an id, else a create; `onSave` and `onClose` run only after a success; saving ends false |
| TopicQuiz.AdvanceAsWrittenOverruns | src/pages/student/Topic.jsx:55-60 | the timer compares against the index captured at submit: when Skip, offered by an earlier wrong answer, is pressed while a correct answer's request is in flight, the timer still sees the captured index below the last and pushes the index past the last question |
| TopicQuiz.Advance | src/pages/student/Topic.jsx:59 | the index advances by one unless it is on the last question |
| TopicQuiz.AdvanceInRange | src/pages/student/Topic.jsx:59-162 | advancing from a valid index stays a valid index |
| TopicQuiz.AdvanceAgrees | src/pages/student/Topic.jsx:55-60 | when nothing moved the index during the delay, the corrected and the original advance agree |
| TopicQuiz.Quiz.constructor | src/pages/student/Topic.jsx:12-24 | the page starts loading, without free trial, at question 0 with nothing selected, and the topic is requested without the trial |
| TopicQuiz.Quiz.Loaded | src/pages/student/Topic.jsx:22-39 | a response for the current trial flag stores the topic, MCQs and access (a spent trial refreshes the user), a 403 clears access, and loading ends; a response for a cancelled request is ignored |
| TopicQuiz.Quiz.UseFreeTrial | src/pages/student/Topic.jsx:41-79 | offered only when the trial is unused; sets the trial flag and loading, re-requesting only if the flag was not already set |
| TopicQuiz.Quiz.Select | src/pages/student/Topic.jsx:138 | the choice is recorded and nothing else changes |
| TopicQuiz.Quiz.StartSubmit | src/pages/student/Topic.jsx:46-53 | nothing selected or no MCQ at the index does nothing; otherwise the answer is sent and submitting is set |
| TopicQuiz.Quiz.FinishSubmit | src/pages/student/Topic.jsx:54-63 | a success records the result and a correct one schedules the advance; a wrong answer keeps the selection and index; a failure keeps the result; submitting ends |
| TopicQuiz.Quiz.AdvanceTimer | src/pages/student/Topic.jsx:56-60 | result and selection are cleared and the index advances by the corrected rule, staying in range |
| TopicQuiz.Quiz.Skip | src/pages/student/Topic.jsx:159-162 | offered only after a wrong answer before the last question; clears result and selection and advances by exactly one |
| BulkMcq.FailurePreview | src/pages/admin/resources/BulkMcqPage.jsx:68 | a failed parse gives a preview with no MCQs and exactly one error |
| BulkMcq.FailureBlocksSave | src/pages/admin/resources/BulkMcqPage.jsx:68-121 | a failed parse never allows saving |
| BulkMcq.CanSaveIff | src/pages/admin/resources/BulkMcqPage.jsx:121 | saving is allowed iff the trimmed text is non-empty, at least one MCQ was parsed and the preview has no errors |
| BulkMcq.BulkImportPage.constructor | src/pages/admin/resources/BulkMcqPage.jsx:29-36 | the page starts with empty text, no preview, no result and no error |
| BulkMcq.BulkImportPage.ImportEnabledIff | src/pages/admin/resources/BulkMcqPage.jsx:217 | the import button is enabled iff saving is allowed and no import is running |
| BulkMcq.BulkImportPage.SetText | src/pages/admin/resources/BulkMcqPage.jsx:198 | typing changes only the text; the preview and the result stay as they were |
| BulkMcq.BulkImportPage.Parse | src/pages/admin/resources/BulkMcqPage.jsx:60-71 | blank text does nothing; otherwise the trimmed text is sent, the import result cleared, the preview becomes the response or the failure preview, and parsing ends |
| BulkMcq.BulkImportPage.Import | src/pages/admin/resources/BulkMcqPage.jsx:73-89 | blank text does nothing; otherwise the import is sent, its result stored, and text, preview and PDF error cleared only when something was created |
| BulkMcq.BulkImportPage.PdfFile | src/pages/admin/resources/BulkMcqPage.jsx:91-119 | no file does nothing; a non-PDF is rejected before extraction; blank extracted text is an error without parsing; otherwise the trimmed text replaces the text and is parsed; a failed extraction shows the extraction error's message, and a rejected parse shows the client-side request error's own message (not the server's), each falling back to 'Failed to extract text from PDF.' |
| ListView.OptionOf | src/pages/admin/resources/TopicsList.jsx:28-29 | a parent's option is its id with its name, falling back to the id |
| ListView.IdsAppend | src/pages/admin/resources/TopicsList.jsx:24-31 | adding an option adds exactly its id to the option ids |
| ListView.FirstOccurrencesIds | src/pages/admin/resources/TopicsList.jsx:24-31 | the de-duplicated options cover exactly the rows' parent ids |
| ListView.FirstOccurrencesUnique | src/pages/admin/resources/TopicsList.jsx:24-31 | no id appears twice among the options |
| ListView.FirstOccurrencesFirstWins | src/pages/admin/resources/TopicsList.jsx:24-31 | each option is the one made from the first row with that id |
| ListView.ParentOptions | src/pages/admin/resources/TopicsList.jsx:23-33 | the loop filling the map yields a permutation of the first occurrences, sorted by name |
| ListView.SortOptions | src/pages/admin/resources/TopicsList.jsx:32 | sorting by name gives a sorted permutation of the entries |
| ListView.ParentOptionsSpec | src/pages/admin/resources/SubjectsList.jsx:23-33 | a sorted permutation of the first occurrences has one option per distinct parent id, the first name winning |
| ListView.FilterByParentSpec | src/pages/admin/resources/ModulesList.jsx:30-36 | a set filter keeps each row whose parent id equals it as often as it occurred and drops every other; an empty filter keeps all |
| ListView.FilterByParentInOrder | src/pages/admin/resources/ModulesList.jsx:30-36 | the filter keeps the rows' order: filtering a concatenation is concatenating the filtered parts, and one row stays iff it matches |
| ListView.SearchSpec | src/pages/admin/resources/TopicsList.jsx:60-66 | a blank query keeps the list; otherwise a row is kept iff its name or its parent's name contains the folded, trimmed query |
| ListView.TotalPages | src/pages/admin/resources/TopicsList.jsx:69 | at least one page (exactly one for no rows), enough pages for every row, and no page beyond the last row's |
| ListView.CurrentPage | src/pages/admin/resources/TopicsList.jsx:70 | the page shown is the requested page capped at the page count |
| ListView.PageSliceBounds | src/pages/admin/resources/SubjectsList.jsx:70-73 | a page holds at most pageSize rows, the rows from (page-1)*pageSize on |
| ListView.PagesPrefix | src/pages/admin/resources/TopicsList.jsx:71-74 | the first k pages concatenate to the list's prefix of k*pageSize rows |
| ListView.PagesPartition | src/pages/admin/resources/TopicsList.jsx:71-74 | pages 1..totalPages concatenate to the whole filtered list |
| ListView.PagerShownIffSeveralPages | src/pages/admin/resources/TopicsList.jsx:233 | the pager shows iff there is more than one page, i.e. more rows than pageSize |
| ListView.RangeMatchesPage | src/pages/admin/resources/TopicsList.jsx:237 | for a non-empty list the range a–b lies within 1..n and names exactly the rows of the page on display |
| ListView.ListPager.constructor | src/pages/admin/resources/TopicsList.jsx:12-19 | no rows, no search or filter, page 1 of 10 rows |
| ListView.ListPager.TotalPagesNow | src/pages/admin/resources/TopicsList.jsx:69 | the page count for the rows shown |
| ListView.ListPager.CurrentPageNow | src/pages/admin/resources/TopicsList.jsx:70 | the current page lies in [1, totalPages] |
| ListView.ListPager.Paginated | src/pages/admin/resources/TopicsList.jsx:71-74 | the rows on screen are never more than pageSize |
| ListView.ListPager.Loaded | src/pages/admin/resources/TopicsList.jsx:21 | a success stores the rows, a failure leaves none; the controls stay |
| ListView.ListPager.SetSearch | src/pages/admin/resources/TopicsList.jsx:115 | the search changes and the page resets to 1 |
| ListView.ListPager.SetFilter | src/pages/admin/resources/TopicsList.jsx:101 | the filter changes and the page resets to 1 |
| ListView.ListPager.SetPageSize | src/pages/admin/resources/TopicsList.jsx:243-244 | the page size changes and the page resets to 1 |
| ListView.ListPager.SyncPage | src/pages/admin/resources/TopicsList.jsx:76-78 | a page beyond the page count resets to 1, so the page ends in [1, totalPages]; nothing else changes |
| ListView.ListPager.Previous | src/pages/admin/resources/TopicsList.jsx:256-257 | enabled only past the first page: the page becomes max(1, page-1), within [1, totalPages] whenever it was before |
| ListView.ListPager.Next | src/pages/admin/resources/TopicsList.jsx:266-268 | enabled only before the last page: the page goes up by exactly one and stays in range |
| TopicsList.TopicLink | src/pages/admin/resources/TopicsList.jsx:47-53 | a link exists iff the year, module and subject ids are all present, and is built from them |
| SubjectsList.SubjectLink | src/pages/admin/resources/SubjectsList.jsx:47-52 | a link exists iff the module has a year id and an id, and is built from them and the subject's id |
| ModulesList.FilteredModules | src/pages/admin/resources/ModulesList.jsx:30-36 | no filter returns the list unchanged; with a filter nothing is added and every module kept belongs to that year |
| ModulesList.ActionsOf | src/pages/admin/resources/ModulesList.jsx:92-187 | Edit, Open and the name link appear iff the module has a year id; Delete always |
| ModulesList.EmptyStateOf | src/pages/admin/resources/ModulesList.jsx:196-205 | an empty state shows iff no module is left after filtering, and it is the in-this-year message iff a year filter is set |
| ModulesList.EmptyStateIffNoModuleShown | src/pages/admin/resources/ModulesList.jsx:196-205 | the empty state shows iff no module of the list belongs to the chosen year, or, with no year chosen, iff there is no module at all |
| Tree.Key | src/pages/ModulesPage.jsx:68-92 | an expand key is a one-letter kind prefix and a dash followed by the id itself |
| Tree.KeyInjective | src/pages/ModulesPage.jsx:68-92 | different kinds or ids give different keys, so same-id items expand independently |
| Tree.Toggle | src/pages/ModulesPage.jsx:39 | toggling flips exactly that key and no other |
| Tree.ToggleTwice | src/pages/student/Resources.jsx:40 | toggling a key twice restores every key's expanded state |
| Tree.Children | src/pages/ModulesPage.jsx:76 | a cached list is given back, a missing entry as [] |
| Tree.VisibleChildren | src/pages/ModulesPage.jsx:76-100 | a collapsed parent shows no children; an expanded one shows its cached list |
| Tree.GuardedLoad | src/pages/ModulesPage.jsx:21-37 | a cached id (even with an empty list) is not fetched and nothing changes; on a miss only that id's entry is written, on success with the response, and a failure writes nothing |
| Tree.GuardedLoadSettles | src/pages/student/Resources.jsx:18-38 | after a successful load a second load of the same id fetches nothing and changes nothing |
| Tree.Refetch | src/pages/admin/Resources.jsx:21-25 | a fetch always happens; a success overwrites only that parent's entry and a failure leaves the cache as it was |
| ModulesPage.TopicActionOf | src/pages/ModulesPage.jsx:41-114 | a topic shows Open iff the user has a package or has used the free trial, otherwise Locked |
| ModulesPage.Browser.constructor | src/pages/ModulesPage.jsx:10-15 | empty caches, nothing expanded, no requests |
| ModulesPage.Browser.DoToggle | src/pages/ModulesPage.jsx:39 | the expanded map becomes `Toggle` of the old one, caches untouched |
| ModulesPage.Browser.LoadModules | src/pages/ModulesPage.jsx:21-25 | the year's modules are loaded by `GuardedLoad`, the request logged only on a miss |
| ModulesPage.Browser.LoadSubjects | src/pages/ModulesPage.jsx:27-31 | the module's subjects are loaded by `GuardedLoad`, the request logged only on a miss |
| ModulesPage.Browser.LoadTopics | src/pages/ModulesPage.jsx:33-37 | the subject's topics are loaded by `GuardedLoad`, the request logged only on a miss |
| ModulesPage.Browser.ClickYear | src/pages/ModulesPage.jsx:67-70 | the year toggles and its modules load |
| ModulesPage.Browser.ClickModule | src/pages/ModulesPage.jsx:79-82 | the module toggles and its subjects load |
| ModulesPage.Browser.ClickSubject | src/pages/ModulesPage.jsx:91-94 | the subject toggles and its topics load |
| StudentResources.Browser.constructor | src/pages/student/Resources.jsx:7-12 | empty caches, nothing expanded, no requests |
| StudentResources.Browser.DoToggle | src/pages/student/Resources.jsx:40 | the expanded map becomes `Toggle` of the old one |
| StudentResources.Browser.LoadModules | src/pages/student/Resources.jsx:18-22 | the year's modules load on a miss only |
| StudentResources.Browser.LoadSubjects | src/pages/student/Resources.jsx:24-32 | on a miss, subjects and OSPEs are fetched together and both written for that module only, a failed OSPE fetch storing [] beside the subjects; a failed subject fetch stores neither; a hit sends nothing |
| StudentResources.Browser.LoadTopics | src/pages/student/Resources.jsx:34-38 | the subject's topics load on a miss only |
| StudentResources.Browser.ModuleContents | src/pages/student/Resources.jsx:70-100 | an expanded module shows its subjects then its OSPEs; a collapsed one shows nothing |
| AdminResources.DeleteRequest | src/pages/admin/Resources.jsx:201-207 | the confirmation sends exactly the delete matching its target's kind and id |
| AdminResources.ReloadRequest | src/pages/admin/Resources.jsx:48-65 | after a delete, the target's parent list is reloaded; a year reloads the year list |
| AdminResources.YearFormMode | src/pages/admin/Resources.jsx:186 | the year form edits iff the selected year has an id |
| AdminResources.ChildFormMode | src/pages/admin/Resources.jsx:187-190 | the other forms edit iff a child was supplied |
| AdminResources.ResourceTree.constructor | src/pages/admin/Resources.jsx:11-18 | empty lists and caches, nothing expanded, no dialog, nothing sent yet |
| AdminResources.ResourceTree.LoadYears | src/pages/admin/Resources.jsx:20 | the year request is sent and the year list becomes the response's, or [] on failure |
| AdminResources.ResourceTree.LoadModules | src/pages/admin/Resources.jsx:21 | the year's modules are refetched with no cache guard |
| AdminResources.ResourceTree.LoadSubjects | src/pages/admin/Resources.jsx:22 | the module's subjects are refetched |
| AdminResources.ResourceTree.LoadTopics | src/pages/admin/Resources.jsx:23 | the subject's topics are refetched |
| AdminResources.ResourceTree.LoadOspes | src/pages/admin/Resources.jsx:24 | the module's OSPEs are refetched |
| AdminResources.ResourceTree.LoadMcqs | src/pages/admin/Resources.jsx:25 | the topic's MCQs are refetched |
| AdminResources.ResourceTree.ClickYear | src/pages/admin/Resources.jsx:83 | the year toggles and its modules are refetched |
| AdminResources.ResourceTree.ClickModule | src/pages/admin/Resources.jsx:97 | the module toggles and both its subjects and its OSPEs are refetched |
| AdminResources.ResourceTree.ClickSubject | src/pages/admin/Resources.jsx:129 | the subject toggles and its topics are refetched |
| AdminResources.ResourceTree.ClickTopic | src/pages/admin/Resources.jsx:142 | the topic toggles and its MCQs are refetched |
| AdminResources.ResourceTree.AskDelete | src/pages/admin/Resources.jsx:90-164 | the confirmation opens on the target |
| AdminResources.ResourceTree.ConfirmDelete | src/pages/admin/Resources.jsx:48-65 | the kind's delete is sent; a success reloads only the target's parent list and closes the dialog; a failure keeps it open |
| ProffJsmuYears.RenameYear | src/pages/admin/proff/ProffJsmuYears.jsx:39 | only the years with the matching id take the new name; ids, orders and papers stay |
| ProffJsmuYears.RenameKeepsOrder | src/pages/admin/proff/ProffJsmuYears.jsx:36-41 | renaming keeps a sorted list sorted |
| ProffJsmuYears.RenameIdempotent | src/pages/admin/proff/ProffJsmuYears.jsx:39 | renaming twice to one name is renaming once |
| ProffJsmuYears.CommitOnce | src/pages/admin/proff/ProffJsmuYears.jsx:97-99 | after a committed rename, blurring again with the same text commits nothing |
| ProffJsmuYears.PaperCount | src/pages/admin/proff/ProffJsmuYears.jsx:108 | the count is the paper list's length, or 4 without a list |
| ProffJsmuYears.YearsPage.constructor | src/pages/admin/proff/ProffJsmuYears.jsx:11-25 | no years, loading, nothing being added or removed, the list requested |
| ProffJsmuYears.YearsPage.Load | src/pages/admin/proff/ProffJsmuYears.jsx:17-21 | the years are the normalised response, [] on failure |
| ProffJsmuYears.YearsPage.Loaded | src/pages/admin/proff/ProffJsmuYears.jsx:23-25 | the years load and loading ends |
| ProffJsmuYears.YearsPage.StartAdd | src/pages/admin/proff/ProffJsmuYears.jsx:27-30 | adding is set and `Year n+1` with order n is posted, n the count |
| ProffJsmuYears.YearsPage.FinishAdd | src/pages/admin/proff/ProffJsmuYears.jsx:31-34 | a success reloads the list; adding ends false either way |
| ProffJsmuYears.YearsPage.UpdateYearName | src/pages/admin/proff/ProffJsmuYears.jsx:36-41 | the name is sent; only a success renames the matching year |
| ProffJsmuYears.YearsPage.Blur | src/pages/admin/proff/ProffJsmuYears.jsx:97-99 | the trimmed value is saved only when non-empty and different from the current name |
| ProffJsmuYears.YearsPage.StartRemove | src/pages/admin/proff/ProffJsmuYears.jsx:43-46 | the year is marked as being removed (its button disabled) and its delete sent |
| ProffJsmuYears.YearsPage.FinishRemove | src/pages/admin/proff/ProffJsmuYears.jsx:47-50 | a success reloads the list; the mark is cleared either way |
| ProffJsmuYearDetail.WithDefaults | src/pages/admin/proff/ProffJsmuYearDetail.jsx:36-39 | a year without papers gets the four default papers; one with papers keeps them |
| ProffJsmuYearDetail.FindYear | src/pages/admin/proff/ProffJsmuYearDetail.jsx:30-43 | the first year with the route's id, defaults applied; none on failure or no match |
| ProffJsmuYearDetail.ShownPapers | src/pages/admin/proff/ProffJsmuYearDetail.jsx:120 | the papers listed are the year's, or the defaults |
| ProffJsmuYearDetail.ShownPapersOfLoaded | src/pages/admin/proff/ProffJsmuYearDetail.jsx:36-120 | a loaded year shows exactly its stored papers |
| ProffJsmuYearDetail.AddForm | src/pages/admin/proff/ProffJsmuYearDetail.jsx:65-73 | the add form has an empty name, type mcq and order equal to the paper count |
| ProffJsmuYearDetail.EditForm | src/pages/admin/proff/ProffJsmuYearDetail.jsx:75-83 | the edit form copies the paper's name, type and order, with defaults |
| ProffJsmuYearDetail.OrderInput | src/pages/admin/proff/ProffJsmuYearDetail.jsx:241 | the order is `parseInt` of the text, or 0 when that is NaN or zero |
| ProffJsmuYearDetail.OrderInputOfNat | src/pages/admin/proff/ProffJsmuYearDetail.jsx:241 | typing the decimal text of a count gives that count |
| ProffJsmuYearDetail.Merge | src/pages/admin/proff/ProffJsmuYearDetail.jsx:89 | an edit keeps the paper's id and takes the form's name, type and order |
| ProffJsmuYearDetail.NewPaper | src/pages/admin/proff/ProffJsmuYearDetail.jsx:91 | an added paper has no id and carries the form's name (untrimmed), type and order |
| ProffJsmuYearDetail.SubmittedPapers | src/pages/admin/proff/ProffJsmuYearDetail.jsx:85-95 | an add appends the new paper; an edit keeps the length and changes at most the first matching paper |
| ProffJsmuYearDetail.EditChangesFirstMatch | src/pages/admin/proff/ProffJsmuYearDetail.jsx:88 | an edit merges into the first paper matching by id or by name and order, and leaves the list as is without a match |
| ProffJsmuYearDetail.DeletePapersAsWritten | src/pages/admin/proff/ProffJsmuYearDetail.jsx:109-111 | the code's filter keeps a paper only if its id differs from the target's and it does not match by name and order |
| ProffJsmuYearDetail.DeleteDefaultAsWritten | src/pages/admin/proff/ProffJsmuYearDetail.jsx:107-112 | on id-less default papers the code's filter keeps nothing, so the delete is abandoned |
| ProffJsmuYearDetail.DeletePapers | src/pages/admin/proff/ProffJsmuYearDetail.jsx:107-111 | the corrected filter drops exactly the papers matching the target by the rule the edit uses |
| ProffJsmuYearDetail.DeleteCounts | src/pages/admin/proff/ProffJsmuYearDetail.jsx:107-111 | every paper not matching the target is kept as often as it occurred |
| ProffJsmuYearDetail.DeleteDefault | src/pages/admin/proff/ProffJsmuYearDetail.jsx:107-112 | deleting one of the default papers leaves exactly the other three, in their order |
| ProffJsmuYearDetail.YearDetail.constructor | src/pages/admin/proff/ProffJsmuYearDetail.jsx:15-53 | no year, loading and the year list requested iff the route names a year, forms and confirmation closed |
| ProffJsmuYearDetail.YearDetail.Loaded | src/pages/admin/proff/ProffJsmuYearDetail.jsx:30-53 | the year is the one `FindYear` finds and loading ends |
| ProffJsmuYearDetail.YearDetail.SaveYear | src/pages/admin/proff/ProffJsmuYearDetail.jsx:55-63 | no year id sends nothing; otherwise the body is sent, a success sends the re-fetch without waiting for it, and saving ends false |
| ProffJsmuYearDetail.YearDetail.OpenAddPaper | src/pages/admin/proff/ProffJsmuYearDetail.jsx:65-73 | the form opens as `AddForm` with no paper being edited |
| ProffJsmuYearDetail.YearDetail.OpenEditPaper | src/pages/admin/proff/ProffJsmuYearDetail.jsx:75-83 | the form opens as `EditForm` of the paper |
| ProffJsmuYearDetail.YearDetail.SetOrder | src/pages/admin/proff/ProffJsmuYearDetail.jsx:241 | the form's order becomes `OrderInput` of the text |
| ProffJsmuYearDetail.YearDetail.SubmitPaper | src/pages/admin/proff/ProffJsmuYearDetail.jsx:85-95 | from the enabled button (a name, no save running) the year is saved with `SubmittedPapers`, nothing being sent without a year id, and the modal closes whatever the outcome |
| ProffJsmuYearDetail.YearDetail.OpenEditYear | src/pages/admin/proff/ProffJsmuYearDetail.jsx:97-100 | the name field starts from the year's name |
| ProffJsmuYearDetail.YearDetail.SubmitYearName | src/pages/admin/proff/ProffJsmuYearDetail.jsx:102-105 | the year is saved under the typed name as it stands, with its current papers, and the modal closes whatever the outcome |
| ProffJsmuYearDetail.YearDetail.AskDelete | src/pages/admin/proff/ProffJsmuYearDetail.jsx:107 | the confirmation opens on the paper |
| ProffJsmuYearDetail.YearDetail.ConfirmDelete | src/pages/admin/proff/ProffJsmuYearDetail.jsx:107-115 | the dialog always closes (`ConfirmDialog.jsx` lines 11-14 call `onClose` right after the handler), so the target ends cleared; no target, no paper list, or no paper left by the corrected `DeletePapers` sends nothing; otherwise the year is saved with the papers left |
| ProffOtherYears.SubmitRequest | src/pages/admin/proff/ProffOtherYears.jsx:51-60 | an edit sends the name with the year's subjects (or []); an add sends the name with order the count |
| ProffOtherYears.YearsPage.constructor | src/pages/admin/proff/ProffOtherYears.jsx:13-32 | no years, loading, modal closed, the list requested |
| ProffOtherYears.YearsPage.Load | src/pages/admin/proff/ProffOtherYears.jsx:24-28 | the years are the normalised response, [] on failure |
| ProffOtherYears.YearsPage.Loaded | src/pages/admin/proff/ProffOtherYears.jsx:30-32 | the years load and loading ends |
| ProffOtherYears.YearsPage.OpenAddYear | src/pages/admin/proff/ProffOtherYears.jsx:34-38 | the form opens with `Year n+1`, n the count |
| ProffOtherYears.YearsPage.OpenEditYear | src/pages/admin/proff/ProffOtherYears.jsx:40-44 | the form opens on the year with its name |
| ProffOtherYears.YearsPage.SubmitYear | src/pages/admin/proff/ProffOtherYears.jsx:46-66 | a blank name does nothing; otherwise `SubmitRequest` is sent, only a success reloads and closes the modal, and adding ends false |
| ProffOtherYears.YearsPage.AskDelete | src/pages/admin/proff/ProffOtherYears.jsx:68 | the confirmation opens on the year |
| ProffOtherYears.YearsPage.ConfirmDelete | src/pages/admin/proff/ProffOtherYears.jsx:68-77 | the dialog always closes (`ConfirmDialog.jsx` lines 11-14 call `onClose` right after the handler), so the target ends cleared; without a target nothing is sent; otherwise the delete is sent, a success reloads the list, and the mark is cleared either way |
| ProffOtherYearDetail.FindYear | src/pages/admin/proff/ProffOtherYearDetail.jsx:19-28 | the first year with the route's id; none on failure or no match |
| ProffOtherYearDetail.EditIndex | src/pages/admin/proff/ProffOtherYearDetail.jsx:66 | the first subject with the edited id, or -1 |
| ProffOtherYearDetail.SubmittedSubjects | src/pages/admin/proff/ProffOtherYearDetail.jsx:62-74 | an add appends the name with order the previous length; an edit keeps the length |
| ProffOtherYearDetail.EditRenamesById | src/pages/admin/proff/ProffOtherYearDetail.jsx:66-68 | with distinct ids an edit renames exactly the subject with the edited id and keeps the rest |
| ProffOtherYearDetail.DeleteSubjects | src/pages/admin/proff/ProffOtherYearDetail.jsx:78 | a subject is kept iff it was there and its id differs from the target's |
| ProffOtherYearDetail.DeleteSubjectsAppend | src/pages/admin/proff/ProffOtherYearDetail.jsx:78 | deleting from a joined list joins the deletes, so the kept subjects keep their order |
| ProffOtherYearDetail.DeleteSubjectsCount | src/pages/admin/proff/ProffOtherYearDetail.jsx:78 | each subject with another id is kept as often as it occurred |
| ProffOtherYearDetail.YearDetail.constructor | src/pages/admin/proff/ProffOtherYearDetail.jsx:8-38 | no year, loading and the year list requested iff the route names a year, modal and confirmation closed |
| ProffOtherYearDetail.YearDetail.Loaded | src/pages/admin/proff/ProffOtherYearDetail.jsx:19-37 | the year is the one `FindYear` finds and loading ends |
| ProffOtherYearDetail.YearDetail.SaveYear | src/pages/admin/proff/ProffOtherYearDetail.jsx:40-48 | no year id does nothing; otherwise the body is sent, a success reloads, saving ends false |
| ProffOtherYearDetail.YearDetail.OpenAddSubject | src/pages/admin/proff/ProffOtherYearDetail.jsx:50-54 | the modal opens empty with nothing being edited |
| ProffOtherYearDetail.YearDetail.OpenEditSubject | src/pages/admin/proff/ProffOtherYearDetail.jsx:56-60 | the modal opens on the subject with its name |
| ProffOtherYearDetail.YearDetail.SubmitSubject | src/pages/admin/proff/ProffOtherYearDetail.jsx:62-74 | a blank name does nothing; otherwise the year is saved with its name and `SubmittedSubjects` (nothing is sent without a year id) and the modal closes whatever the outcome |
| ProffOtherYearDetail.YearDetail.AskDelete | src/pages/admin/proff/ProffOtherYearDetail.jsx:76 | the confirmation opens on the subject |
| ProffOtherYearDetail.YearDetail.ConfirmDelete | src/pages/admin/proff/ProffOtherYearDetail.jsx:76-81 | the dialog always closes (`ConfirmDialog.jsx` lines 11-14 call `onClose` right after the handler), so the target ends cleared; no target or no subject list sends nothing; otherwise the year is saved with `DeleteSubjects` |
| ProffOtherSubjectDetail.Lookup | src/pages/admin/proff/ProffOtherSubjectDetail.jsx:16-30 | the first year with the route's id and in it the first subject with the route's id; either missing shows not found |
| ProffOtherSubjectDetail.RenameSubject | src/pages/admin/proff/ProffOtherSubjectDetail.jsx:49-51 | only subjects with the route's id take the new name; length, ids and orders stay |
| ProffOtherSubjectDetail.RenameThenLookup | src/pages/admin/proff/ProffOtherSubjectDetail.jsx:43-60 | after a rename the lookup finds the subject in the same place, under the new name |
| ProffOtherSubjectDetail.SubjectDetail.constructor | src/pages/admin/proff/ProffOtherSubjectDetail.jsx:8-41 | no year or subject, loading and the year list requested iff the route names both ids |
| ProffOtherSubjectDetail.SubjectDetail.Loaded | src/pages/admin/proff/ProffOtherSubjectDetail.jsx:16-40 | year and subject are what `Lookup` finds and loading ends; "Subject not found." (line 68) shows iff no subject with the route's id was found |
| ProffOtherSubjectDetail.SubjectDetail.OpenEdit | src/pages/admin/proff/ProffOtherSubjectDetail.jsx:62-65 | the field starts from the subject's name |
| ProffOtherSubjectDetail.SubjectDetail.SaveSubjectName | src/pages/admin/proff/ProffOtherSubjectDetail.jsx:43-60 | no year id, no subject name or a blank new name does nothing; otherwise the renamed list is sent, only a success renames the subject shown and closes the modal, and saving ends false |
| Payments.DisplayOrder | src/pages/admin/Payments.jsx:19-20 | the display list is exactly as long as the fetched one |
| Payments.FilterSplit | src/pages/admin/Payments.jsx:19-20 | the pending group and the rest together are exactly as long as the input |
| Payments.DisplayIsPermutation | src/pages/admin/Payments.jsx:29 | the display list is a permutation of the input |
| Payments.PendingFirst | src/pages/admin/Payments.jsx:19-20 | exactly the first n entries of the display list are pending, n the number of pending payments |
| Payments.DisplayKeepsGroupOrder | src/pages/admin/Payments.jsx:19-20 | the pending payments and the others each keep, in the display list, the order the fetched list gave them |
| Payments.SetStatus | src/pages/admin/Payments.jsx:15 | only the payment with the id takes the new status |
| Payments.VerifiedLeavesPending | src/pages/admin/Payments.jsx:15-19 | a verified payment leaves the pending part and no other changes side |
| Payments.VerifyRequestOf | src/pages/admin/Payments.jsx:14 | a missing rejection reason is sent as '' |
| Payments.LoadedPayments | src/pages/admin/Payments.jsx:9 | the payments are the response's, or [] on failure |
| Payments.AfterVerify | src/pages/admin/Payments.jsx:12-17 | only a success changes the list, by `SetStatus` |
| Users.MarkVerified | src/pages/admin/Users.jsx:23 | only the user with the id becomes verified |
| Users.MarkVerifiedCommutes | src/pages/admin/Users.jsx:23 | verifying a user twice is verifying once, and verifying two users in either order gives the same list |
| Users.UsersPage.constructor | src/pages/admin/Users.jsx:5-11 | page 1, no users, total 0, loading, and page 1 requested |
| Users.UsersPage.Loaded | src/pages/admin/Users.jsx:10-18 | a success stores the response's users and total; a failure empties the users and keeps the total; loading ends |
| Users.UsersPage.Prev | src/pages/admin/Users.jsx:62 | enabled only past page 1: the page goes back by one, staying at least 1, and that page is requested |
| Users.UsersPage.Next | src/pages/admin/Users.jsx:64 | enabled only while page*20 is below the total: the page goes up by one and that page is requested |
| Users.UsersPage.Verify | src/pages/admin/Users.jsx:20-25 | the verification is sent; only a success marks that user |
| ProtectedRoute.StudentRoute | src/components/ProtectedRoute.jsx:5-12 | loading shows the loader; no user goes to /login; an admin goes to /admin, any other non-student to /, and only a student gets the page |
| ProtectedRoute.AdminRoute | src/components/ProtectedRoute.jsx:14-21 | loading shows the loader; no user goes to /login; a non-admin goes to /student, and only an admin gets the layout |
| ProtectedRoute.GuardsExclusive | src/components/ProtectedRoute.jsx:5-21 | no user is let through both guards |
| ProtectedRoute.RedirectsSettle | src/components/ProtectedRoute.jsx:10-20 | a student-page redirect to /admin lands on the admin layout; an admin-page redirect to /student admits a student and sends any other role on to / |

## Left out

- API client, session storage and HTTP: requests are logged values and responses are
  outcome parameters. The axios interceptors, `localStorage` and the auth context are
  not part of this model.
- Image uploads and `FormData` requests, in the OSPE and MCQ forms: their only effect on
  the modelled state is an image URL, which is an input.
- PDF text extraction: the extracted text is a parameter of
  `BulkMcq.BulkImportPage.PdfFile`. MCQ text parsing happens on the server and is an
  outcome.
- Breadcrumb meta loads: the year, module, subject and topic lookups of `McqFormPage`,
  `BulkMcqPage` and `OspeFormPage` are left out. Only the topic-found and not-found
  handling of `McqFormPage.Editor.Loaded` is kept.
- The years fetch that fills the first level of `ModulesPage` and the student resource
  browser: it is a plain fetch without logic.
- Plain setters of text inputs (names, question text, explanations, types): each writes
  one field.
- Animations, and every timer except the quiz's advance delay. That delay is the discrete
  step `TopicQuiz.Quiz.AdvanceTimer`.
- Concurrency: requests settle one at a time, in the order of the methods called; parallel
  `Promise.all` loads are one step. The exception is the quiz, whose stale responses after
  cancellation are modelled.
- String collation and case mapping: `localeCompare` and `toLowerCase` are abstract
  parameters, not Unicode algorithms.
- URL validity: the browser's URL parser behind `type="url"` is the abstract `validUrl`,
  and its stripping of surrounding whitespace from the input's value is not modelled.
- Sorting.SortByKey: does not state stability, only sortedness and permutation. The
  source's `Array.prototype.sort` is stable, and ties in `order` keep their fetched order
  there.
- Mcq.Validate: the MCQ form classes (`McqFormPage.Editor.Submit`, `McqForm.Form.Submit`)
  use the corrected validation, not the code's. The code's rule is `Mcq.ValidateAsWritten`.
- ProffJsmuYearDetail.YearDetail.ConfirmDelete: uses the corrected `DeletePapers`, not the
  code's filter. The code's filter is `ProffJsmuYearDetail.DeletePapersAsWritten`.
- TopicQuiz.Quiz.AdvanceTimer: advances by the corrected rule, from the current index. The
  code's rule is `TopicQuiz.AdvanceAsWritten`.
- The login redirect's remembered location: `ProtectedRoute` only decides where to go.
- Payments and users keep only the fields their pages read or write.
- ProffOtherYears.YearsPage.ConfirmDelete: the deleting mark is set and cleared inside one
  step, so its transient value is not observable in the model.
- The load and delete handlers of the admin `TopicsList`, `SubjectsList` and `ModulesList`
  pages are calls followed by a reload. Only the list's arrival (`ListView.ListPager.Loaded`)
  is modelled.
- Populated parent objects without an `_id`: the source keys filter options by such an
  object's identity, and the model treats it as having no id.

## Findings

| source | as written | input that shows it | evidently intended | confidence | as-written member | corrected member |
|---|---|---|---|---|---|---|
| src/pages/admin/resources/McqFormPage.jsx:80-99 | blank options are filtered out, but `correctIndex` is checked against and sent for the filtered list unchanged (the same in src/components/admin/McqForm.jsx:37-44) | options `["A", "", "C", "D"]` with `correctIndex` 2 (option "C") saves an MCQ whose answer is "D" | the saved index names the option the author marked, or the form is rejected when that option is blank | not executed | Mcq.AsWrittenShiftsAnswer | Mcq.ValidateKeepsAnswer |
| src/pages/student/Topic.jsx:55-60 | the advance timer tests the index captured when the answer was submitted, but increments the current index | 5 questions; a wrong answer at index 3 shows Skip; a second, correct answer is submitted and Skip is pressed while it is in flight, moving to 4; the timer then tests the captured 3 < 4 and moves to 5, past the last question | the index never passes the last question | not executed | TopicQuiz.AdvanceAsWrittenOverruns | TopicQuiz.AdvanceInRange |
| src/pages/admin/proff/ProffJsmuYearDetail.jsx:107-112 | a paper is kept only if `p._id !== target._id`; for the id-less default papers both ids are undefined, so every paper is dropped, the empty result abandons the delete, and a default paper can never be removed | a year still showing the four default papers; delete any one of them | drop only the papers matching the target by id or by name and order (the rule `submitPaper` uses), leaving the other three | not executed | ProffJsmuYearDetail.DeleteDefaultAsWritten | ProffJsmuYearDetail.DeleteDefault |
