# AI tutor: upload list, chat transcript, backend rules, dashboard arithmetic

This project models the small deterministic core of a study assistant. Students upload syllabus PDFs (NCERT or Samacheer Kalvi). They then ask questions, which a retrieval QA backend answers, with optional follow-up quiz questions. The project proves facts about that core in Dafny. Four parts are modelled.

- **Upload list** (`FileUpload`).
  - The panel's list of uploaded files is a reducer over five events:
    - files submitted;
    - progress set for an id;
    - success set for an id;
    - failure set for an id;
    - an id dismissed.
  - Drag-and-drop filtering keeps only the PDF files.
  - The simulated per-file transfer is a script of events. The concurrent per-file continuations become an arbitrary interleaving of these scripts.
  - A projection theorem settles every interleaving at once. What happens to the entries with id `k` depends only on the events for `k`.
- **Chat transcript** (`TutorChat`).
  - Sending is split in two at the request:
    - `Send` is the trim guard, the user message, clearing the input and setting the loading flag;
    - `Receive` appends one bot message and clears loading.
  - The bot's text is built from the outcome of the request:
    - the answer, with a numbered quiz suffix;
    - or a fixed diagnostic template.
  - A session reducer adds the view's guards, which disable the input and the button while loading. Over any sequence of events it keeps this invariant: the greeting comes first, then user and bot messages alternate, with loading exactly while a request is in flight.
- **Backend** (`Backend`).
  - The upload, question, status and health endpoints, with their checks in the order they fire.
  - The two-slot store map from syllabus to an optional document index. Only a successful upload replaces a store, and only its own.
  - The line filter that turns the language model's numbered list into at most two quiz questions.
- **Dashboard** (`ProgressDashboard`).
  - Accuracy and topic percentages.
  - The hours-and-minutes label.
  - The badge tier of an activity score.

Shared pieces:

- `Text`:
  - JavaScript `trim` and Python `strip`, over their own whitespace sets;
  - ASCII upper-casing;
  - `split` and `join` on one character, proved inverse to each other;
  - decimal numerals.
- `Seqs`: order-preserving filtering.
- `Wrappers`: `Option` and `Result`.

Clocks, random ids, HTTP, PDF parsing, chunking, embeddings, vector search and the language model are not computed here. Their results are parameters of the functions that use them. The values involved are ids, timestamps, the HTTP outcome, the extracted text, the chunk list, the QA answer and the completion text.

## Model

| member | source | states |
|---|---|---|
| FileUpload.NewEntries | src/components/FileUpload.tsx:28-35 | one fresh entry per picked file, in file order, with the file's id, name and size, the selected syllabus, status uploading and progress 0 |
| FileUpload.Submit | src/components/FileUpload.tsx:27-37 | the entries are appended after the existing ones, which are kept unchanged. There is one entry per file, in order, uploading at progress 0 under the selected syllabus, and submitting no files leaves the list as it was |
| FileUpload.SetProgress | src/components/FileUpload.tsx:46-50 | a progress update for id k changes only the progress field of the entries with id k. Every other entry, and every other field of those entries, stays the same, and the set of ids is unchanged |
| FileUpload.SetStatus | src/components/FileUpload.tsx:56-71 | a success or error update for id k changes only the status of the entries with id k. It keeps their last progress, leaves every other entry alone and keeps the set of ids |
| FileUpload.RemoveFile | src/components/FileUpload.tsx:124-126 | dismissing k deletes exactly the entries with id k. No entry with id k remains, every other entry is kept in its relative order (a subsequence), and the length drops by the number of entries with id k |
| FileUpload.HandleDrop | src/components/FileUpload.tsx:99-114 | exactly the files of type application/pdf are forwarded, in order. The invalid-type warning appears exactly when some dropped file is not a PDF, and an upload starts exactly when some dropped file is one |
| FileUpload.Apply | src/components/FileUpload.tsx:37-125 | the list reducer: only a submission adds entries, after the existing ones; progress and status updates keep every entry and its id in place; a dismissal leaves no entry with its id and never lengthens the list |
| FileUpload.ApplyAll | src/components/FileUpload.tsx:37-125 | a sequence of events applied in order; without a submission among them the list never grows |
| FileUpload.ApplyKeepsWellFormed | src/components/FileUpload.tsx:28-71 | with fresh distinct ids on submission and progress values in 0..100, every event keeps ids distinct and every progress within 0..100 |
| FileUpload.ProjectAll | src/components/FileUpload.tsx:40-82 | after any interleaving of events, the entries with id k are what the events concerning k alone make of the entries with id k |
| FileUpload.RemovedStaysRemoved | src/components/FileUpload.tsx:46-71 | once id k is dismissed, no later progress or status update brings it back: they only rewrite existing entries. Only a new submission reusing k could |
| FileUpload.Ticks | src/components/FileUpload.tsx:44 | the loop counter from a start value writes start, start+10, … and never exceeds 100. From a start of at most 100 it writes at least once, and its last value is above 90 |
| FileUpload.TicksFromZero | src/components/FileUpload.tsx:44 | the loop from 0 writes exactly the eleven values 0, 10, …, 100 |
| FileUpload.StepsFromLoop | src/components/FileUpload.tsx:44-60 | the steps of an uninterrupted continuation are a progress update for each value the loop writes, in order, followed by the success update |
| FileUpload.NoEntriesStayNone | src/components/FileUpload.tsx:46-71 | a list without entries for k keeps none under any events that do not submit a file with id k |
| FileUpload.Script | src/components/FileUpload.tsx:40-79 | the continuation of file k issues only progress and status updates for k |
| FileUpload.ScriptProgress | src/components/FileUpload.tsx:44-60 | every progress a continuation writes lies in 0..100, the values strictly increase, and success is written only right after progress 100 |
| FileUpload.UploadSucceeds | src/components/FileUpload.tsx:41-65 | however it is interleaved with other files, a continuation that runs to the end leaves its file at status success with progress 100, other fields unchanged |
| FileUpload.UploadFails | src/components/FileUpload.tsx:41-78 | a continuation that throws after j steps leaves its file at status error. Its progress is the last one written before the throw, or the original one when none was |
| FileUpload.RunSteps | src/components/FileUpload.tsx:44-60 | the first n steps of a file's continuation leave its entry at the last progress written, and at success once all twelve steps have run |
| FileUpload.FailAfter | src/components/FileUpload.tsx:67-71 | the error update after any prefix of steps changes only the status of the file |
| TutorChat.Send | src/components/TutorChat.tsx:48-74 | input that is blank after trimming changes nothing and sends nothing. Otherwise, exactly one user message is appended, carrying the untrimmed input and the syllabus. Then the input is cleared, loading is set, and the request carries the input, the syllabus and the quiz flag |
| TutorChat.Receive | src/components/TutorChat.tsx:77-104 | exactly one bot message is appended, with the reply text for the outcome and no syllabus tag. Earlier messages are kept, the input is untouched, and loading ends false on every path |
| TutorChat.Step | src/components/TutorChat.tsx:106-227 | the session reducer with the view's guards: while loading, typing and pressing send change nothing. Typing otherwise sets only the input. Pressing sends a request exactly when the input has a non-blank character. A request in flight ends with exactly one bot message carrying the reply text, loading off and nothing pending, and a result with nothing pending changes nothing. Every event only appends, at most one message |
| TutorChat.Run | src/components/TutorChat.tsx:106-227 | any sequence of events only appends to the transcript, at most one message per event |
| TutorChat.NumberedLines | src/components/TutorChat.tsx:86 | line i is the numeral of start+i, then `. `, then question i, in server order |
| TutorChat.BotText | src/components/TutorChat.tsx:83-90 | the answer is a prefix of the text. The text equals the answer exactly when the quiz list is absent or empty; otherwise the quiz header follows, then the numbered lines joined by line breaks |
| TutorChat.QuizSuffixLines | src/components/TutorChat.tsx:85-87 | when no question contains a line break, splitting the quiz suffix after the header on line breaks gives back the numbered lines `1. q1`, `2. q2`, … with no trailing empty line |
| TutorChat.QuizSuffixExample | src/components/TutorChat.tsx:85-87 | two questions a and b give the answer, the header, then `1. a`, a line break and `2. b` |
| TutorChat.ErrorText | src/components/TutorChat.tsx:95-97 | the diagnostic message starts with the fixed list of causes, names the syllabus upper-cased at the fixed place and ends with `Error: ` and the detail |
| TutorChat.ReplyText | src/components/TutorChat.tsx:77-101 | an ok status with a readable body gives the answer text. A non-ok status gives the diagnostic with `API Error: <status>`. An unreadable body gives the diagnostic with the reading error's message. A thrown error gives the diagnostic with its message, or `Unknown error` when the thrown value is not an `Error`. Each diagnostic names the upper-cased syllabus of the request |
| TutorChat.ErrorTextDetail | src/components/TutorChat.tsx:97 | the diagnostic keeps its detail: for one syllabus, two details give the same message only when they are equal |
| TutorChat.ErrorReplyExample | src/components/TutorChat.tsx:77-101 | a 500 for the ncert syllabus gives the diagnostic naming NCERT and ending in `Error: API Error: 500` |
| TutorChat.InitialGood | src/components/TutorChat.tsx:28-37 | the transcript starts as the greeting alone (id `1`, from the bot, no syllabus tag), the input is empty, nothing is loading, and with no request in flight this satisfies the alternation invariant |
| TutorChat.StepKeepsGood | src/components/TutorChat.tsx:48-104 | one event keeps the transcript invariant, keeps the earlier messages as a prefix and appends at most one message |
| TutorChat.SendKeepsGood | src/components/TutorChat.tsx:48-61 | sending while not loading keeps the transcript invariant and appends at most the one user message |
| TutorChat.ReceiveKeepsGood | src/components/TutorChat.tsx:83-104 | the end of a request in flight appends exactly one message and restores the invariant, with no request pending |
| TutorChat.RunKeepsGood | src/components/TutorChat.tsx:28-104 | over any event sequence, the transcript only grows by appending. It keeps the greeting first, alternating senders, and loading exactly while a request is in flight |
| TutorChat.PressWhileDisabledIsNoOp | src/components/TutorChat.tsx:221-225 | pressing send while the button is disabled (loading, or blank input) changes nothing |
| Backend.InitialStores | backend/main.py:38-41 | both syllabus slots exist and neither holds documents at start-up |
| Backend.UploadPdf | backend/main.py:73-172 | the checks fire in this order, each with its status and detail: a name not ending in `.pdf` (case-sensitive), a syllabus outside ncert/samacheer, an unreadable upload (500), an unreadable PDF (400), a text blank after stripping (400, `No text found in PDF`), an indexing failure (500, `Error creating vector store: ` and the reason). An upload that passes every check and is indexed succeeds, with the message naming the upper-cased syllabus. A failure leaves every store unchanged. A success replaces the store of its syllabus only, and echoes the file name and syllabus with the chunk count as pages processed |
| Backend.UploadKeepsWellFormed | backend/main.py:89 | uploads keep exactly the two syllabus slots |
| Backend.ParseQuiz | backend/main.py:118-121 | the questions are the first at most two lines, in order, that are non-blank and have a digit among their raw first three characters, each stripped. The whole text is stripped before splitting, and each question starts and ends with a non-blank character |
| Backend.GenerateQuiz | backend/main.py:95-125 | the questions are those parsed from the completion's text, so at most two, and none when the completion call fails |
| Backend.NumberedKept | backend/main.py:120 | a line starting with a digit, ending non-blank and without a line break is kept unchanged |
| Backend.UnnumberedDropped | backend/main.py:120 | a line with no digit among its first three characters is dropped |
| Backend.ParseQuizNumbered | backend/main.py:118-121 | numbered lines (a leading digit, a non-blank last character, no line break) joined by line breaks parse back into those lines, and the parser returns the first two of them, or all when there are fewer |
| Backend.ParseQuizExample | backend/main.py:118-121 | three numbered lines around a blank line and an unnumbered line give the first two numbered lines |
| Backend.AskQuestion | backend/main.py:174-229 | an unknown syllabus is rejected first (400). A syllabus without documents is rejected next (400), and a QA failure is a 500. A known syllabus with documents and an answered QA succeeds, and a success carries the QA answer and the syllabus. Quiz questions are present exactly in quiz mode with a non-empty generated list, and then number one or two |
| Backend.SyllabusStatus | backend/main.py:231-243 | an unknown syllabus is a 400. Otherwise the syllabus is echoed upper-cased, and documents-uploaded and status `ready` hold exactly when its store exists (`no_documents` otherwise) |
| Backend.Health | backend/main.py:245-254 | each syllabus is ready exactly when its store exists. The AI service is configured exactly when the environment sets a key that is neither empty nor the placeholder |
| Backend.UploadThenReady | backend/main.py:89-91 | after a successful upload, its syllabus reports ready and accepts questions, and the other syllabus reports as before |
| ProgressDashboard.JsRem | src/components/ProgressDashboard.tsx:78 | JavaScript's remainder is what is left of the dividend after taking out the divisor times the quotient rounded toward zero, so it takes the sign of the dividend: in 0..b-1 for a non-negative one, in -(b-1)..0 for a negative one |
| ProgressDashboard.SplitMinutes | src/components/ProgressDashboard.tsx:78 | for t ≥ 0 the hours and minutes satisfy h·60 + m = t with 0 ≤ m < 60. For negative t the floored hours and the truncated minutes come out an hour short whenever m ≠ 0 |
| ProgressDashboard.TimeLabel | src/components/ProgressDashboard.tsx:78 | for t ≥ 0 the label is a numeral, `h `, a numeral and `m`, where both numerals are as `String` writes them (non-empty, digits only, no leading zero), and they read back as hours and minutes under 60 that make up t |
| ProgressDashboard.TimeLabelDetermined | src/components/ProgressDashboard.tsx:78 | the label of t ≥ 0 is the only string of that shape: any two such numerals reading as hours and minutes under 60 that make up t spell it |
| Text.NumeralUnique | src/components/ProgressDashboard.tsx:78 | a numeral without leading zero that reads as n is the numeral of n, so each number has exactly one |
| ProgressDashboard.RoundedPercent | src/components/ProgressDashboard.tsx:40-41 | there is no value exactly for a zero denominator. Otherwise the result r is within half a unit of 100·num/den, halves rounding up, and lies in 0..100 when 0 ≤ num ≤ den |
| ProgressDashboard.PercentUnique | src/components/ProgressDashboard.tsx:40-41 | any integer within half a unit of 100·num/den (halves up) is the percentage |
| ProgressDashboard.PercentMonotone | src/components/ProgressDashboard.tsx:40 | more correct answers never lower the accuracy |
| ProgressDashboard.TierOf | src/components/ProgressDashboard.tsx:153 | every score gets exactly one tier: default at 85 or more, secondary from 70 to below 85, destructive below 70 |
| ProgressDashboard.TierMonotone | src/components/ProgressDashboard.tsx:153 | a higher score never gets a worse tier |
| ProgressDashboard.BadgeClass | src/components/ProgressDashboard.tsx:154-160 | the primary gradient for the default tier, the secondary gradient for the secondary tier, no class exactly for the destructive tier |
| ProgressDashboard.Show | src/components/ProgressDashboard.tsx:40-160 | accuracy is the rounded percentage of correct answers among questions, topic progress the rounded percentage of completed topics, and the time is the hours-and-minutes label. Both percentages exist and lie in 0..100 when the denominator is positive and not below the numerator, and each activity gets the tier of its score |
| ProgressDashboard.MockFigures | src/components/ProgressDashboard.tsx:24-41 | the built-in data shows accuracy 85, topic progress 60, time `4h 5m` and tiers default, default, secondary, default |
| ProgressDashboard.MockTime | src/components/ProgressDashboard.tsx:78 | 245 minutes read `4h 5m` |
| Text.Strip | src/components/TutorChat.tsx:49 | the stripped text is the slice of the input between its leading and trailing whitespace runs. It starts and ends with a non-space character, and it is empty exactly when the input is all whitespace |
| Text.SplitJoin | backend/main.py:120 | splitting a join of separator-free parts on the separator gives back the parts |
| Text.JoinSplit | backend/main.py:120 | joining the pieces of a split with the same separator gives back the text |
| Text.NatToString | src/components/TutorChat.tsx:78 | the numeral of n is all digits, has no leading zero, and reads back as n |
| Seqs.Filter | src/components/FileUpload.tsx:125 | the kept elements are exactly those satisfying the test, in their order (a subsequence), and nothing is dropped exactly when every element passes |

## Left out

- `formatFileSize` (FileUpload.tsx:128-134): it relies on `Math.log`, `Math.pow` and `toFixed`, which are floating point.
- The following are I/O or timing, so their outcomes are parameters:
  - `fetch`, the JSON body and `toast` notifications;
  - the 100 ms `setTimeout` delays, scrolling and the drag-hover flag.
- `handleInputChange` (FileUpload.tsx:117-122): it submits the chosen files without a type filter, and it is `Submit` with the chosen files.
- The following foreign libraries are inputs:
  - reading the upload bytes and PDF text extraction (PyPDF2);
  - `RecursiveCharacterTextSplitter` (chunk size 1000, overlap 200);
  - OpenAI embeddings and FAISS;
  - `RetrievalQA`;
  - `ChatCompletion`.
  - So the upload takes the extracted text and an indexing function, and the question endpoint takes the QA result and the completion text.
- The prompt texts sent to the language model (main.py:98-109, 201-211) are not modelled: they only reach the foreign calls.
- `datetime.now()`, `Date.now()` and `Math.random()` ids are parameters. Fresh, distinct ids on submission are a precondition of `FileUpload.ApplyKeepsWellFormed`, as in the source, where the time-plus-random id is assumed unique.
- TutorChat.Receive: the handler awaits twice (TutorChat.tsx:65 for the response, :81 for its body). The panel's state does not change between the two awaits, so the model merges them into one step; a transcript or loading change made by another handler in between is not represented.
- Real concurrency of the upload continuations is represented by arbitrary interleavings of their event scripts.
- The root endpoint `/` (main.py:128-131) returns a constant message, and CORS set-up and the server start-up are configuration.
- The following are layout, styling variants and boolean toggles, and are not part of this model:
  - src/pages/Index.tsx;
  - src/components/ui/button.tsx;
  - src/components/FeatureCard.tsx;
  - backend/run.py.
- Text.Upper: upper-cases ASCII letters only; JavaScript's `toUpperCase` and Python's `upper` map all of Unicode. The syllabus names involved are ASCII.
- Backend.KeepLine: counts only ASCII digits. Python's `isdigit` also accepts other Unicode digits, such as superscripts and other scripts' digits.
- Backend.ParseQuiz: the same ASCII-digit restriction as `KeepLine`.
- ProgressDashboard.TimeLabel: the time spent is a whole number of minutes here; the source's field is any JavaScript `number` (ProgressDashboard.tsx:11), and a fractional value would show fractional minutes such as `4h 5.5m`.
- ProgressDashboard.RoundedPercent: rounds the exact rational 100·num/den. The source rounds the floating-point value of `(num / den) * 100`, which can differ at a half by one unit.
- ProgressDashboard.TierOf: takes a real score; a `NaN` score, which JavaScript would place in the destructive tier, is not representable.
- TutorChat.ReplyText: a successful response whose body lacks `answer` shows as `undefined` followed by the suffix. That case is not modelled; an unreadable body stands for it only when reading the JSON throws.
- TutorChat.Receive: the handler itself has no loading guard. Only the view disables the input and the button (TutorChat.tsx:221, 225), so the session reducer `TutorChat.Step` applies those guards.
- Backend.UploadPdf: the `syllabus` query parameter's default of `ncert` belongs to the request parsing and is not modelled; the model takes the syllabus as given.
