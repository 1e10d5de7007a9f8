/** The question-answering service: its request validation, the per-syllabus
    document stores it keeps between requests, the parsing of generated quiz
    questions, and its readiness reports. PDF text extraction, chunking,
    embeddings, retrieval QA and the chat-completion call are foreign; their
    results are inputs here. */
module Backend {
  import opened Text
  import opened Wrappers
  import Seqs

  /** The syllabi the service knows, in the order it lists them. */
  const Syllabi: seq<String> := ["ncert", "samacheer"]

  const SyllabusDetail: String := "Syllabus must be 'ncert' or 'samacheer'"

  /** A raised `HTTPException`. */
  datatype HttpError = HttpError(status: int, detail: String)

  /** A similarity index built from the chunks of a document's text. */
  datatype VectorStore = VectorStore(chunks: seq<String>)

  /** The document store of each syllabus, if one was built. */
  type Stores = map<String, Option<VectorStore>>

  predicate WellFormedStores(stores: Stores) {
    stores.Keys == {"ncert", "samacheer"}
  }

  /** No syllabus has documents when the service starts. */
  function InitialStores(): (stores: Stores)
    ensures WellFormedStores(stores)
    ensures forall s :: s in Syllabi ==> stores[s] == None
  {
    map["ncert" := None, "samacheer" := None]
  }

  // ---------------------------------------------------------------------------
  // Upload

  /** What reading the upload and the PDF inside it produced: the text of all
      pages, the reason the PDF reader failed, or the reason reading the
      uploaded bytes failed. */
  datatype Extraction = Extracted(text: String) | ExtractFailed(reason: String) | ReadFailed(reason: String)

  /** What splitting the text into chunks and embedding them produced. */
  datatype Indexing = Indexed(chunks: seq<String>) | IndexFailed(reason: String)

  datatype UploadResponse = UploadResponse(message: String, filename: String, syllabus: String, pagesProcessed: nat)

  /** The stores after a request, with the request's response. */
  datatype Reply<T> = Reply(stores: Stores, result: Result<T, HttpError>)

  /** The upload endpoint. Its checks fire in order: a file name not ending
      in `.pdf` (case-sensitive), an unknown syllabus, upload bytes that
      cannot be read (a 500), a PDF that cannot be read, a text that is
      blank after stripping, an indexing failure. A failed upload leaves
      every store as it was; a successful one replaces the store of its
      syllabus and no other, and reports the file name, the syllabus and the
      chunk count. */
  function UploadPdf(stores: Stores, filename: String, syllabus: String,
                     extraction: Extraction, index: String -> Indexing): (r: Reply<UploadResponse>)
    ensures r.result.Failure? ==> r.stores == stores
    ensures !EndsWith(filename, ".pdf") ==>
              r.result == Failure(HttpError(400, "Only PDF files are allowed"))
    ensures EndsWith(filename, ".pdf") && syllabus !in Syllabi ==>
              r.result == Failure(HttpError(400, SyllabusDetail))
    ensures EndsWith(filename, ".pdf") && syllabus in Syllabi && extraction.ExtractFailed? ==>
              r.result == Failure(HttpError(400, "Error processing PDF: " + extraction.reason))
    ensures EndsWith(filename, ".pdf") && syllabus in Syllabi && extraction.ReadFailed? ==>
              r.result == Failure(HttpError(500, "Error processing file: " + extraction.reason))
    ensures extraction.Extracted? && (forall k :: 0 <= k < |extraction.text| ==> IsPySpace(extraction.text[k])) ==>
              r.result.Failure? && r.result.error.status == 400
    ensures EndsWith(filename, ".pdf") && syllabus in Syllabi && extraction.Extracted? && PyStrip(extraction.text) == [] ==>
              r.result == Failure(HttpError(400, "No text found in PDF"))
    ensures EndsWith(filename, ".pdf") && syllabus in Syllabi && extraction.Extracted? && PyStrip(extraction.text) != []
            && index(extraction.text).IndexFailed? ==>
              r.result == Failure(HttpError(500, "Error creating vector store: " + index(extraction.text).reason))
    ensures EndsWith(filename, ".pdf") && syllabus in Syllabi && extraction.Extracted? && PyStrip(extraction.text) != []
            && index(extraction.text).Indexed? ==>
              && r.result.Success?
              && r.result.value.message == "Successfully processed PDF for " + Upper(syllabus) + " syllabus"
    ensures r.result.Success? ==>
              && EndsWith(filename, ".pdf")
              && syllabus in Syllabi
              && extraction.Extracted?
              && (exists k :: 0 <= k < |extraction.text| && !IsPySpace(extraction.text[k]))
              && index(extraction.text).Indexed?
              && r.stores == stores[syllabus := Some(VectorStore(index(extraction.text).chunks))]
              && r.result.value.filename == filename
              && r.result.value.syllabus == syllabus
              && r.result.value.pagesProcessed == |index(extraction.text).chunks|
    ensures forall s :: s in stores && s != syllabus ==> s in r.stores && r.stores[s] == stores[s]
  {
    if !EndsWith(filename, ".pdf") then
      Reply(stores, Failure(HttpError(400, "Only PDF files are allowed")))
    else if syllabus !in Syllabi then
      Reply(stores, Failure(HttpError(400, SyllabusDetail)))
    else
      match extraction
      case ReadFailed(reason) =>
        Reply(stores, Failure(HttpError(500, "Error processing file: " + reason)))
      case ExtractFailed(reason) =>
        Reply(stores, Failure(HttpError(400, "Error processing PDF: " + reason)))
      case Extracted(text) =>
        if PyStrip(text) == [] then
          Reply(stores, Failure(HttpError(400, "No text found in PDF")))
        else
          match index(text)
          case IndexFailed(reason) =>
            Reply(stores, Failure(HttpError(500, "Error creating vector store: " + reason)))
          case Indexed(chunks) =>
            var message := "Successfully processed PDF for " + Upper(syllabus) + " syllabus";
            Reply(stores[syllabus := Some(VectorStore(chunks))],
                  Success(UploadResponse(message, filename, syllabus, |chunks|)))
  }

  /** Uploads keep both syllabus slots and add no other. */
  lemma UploadKeepsWellFormed(stores: Stores, filename: String, syllabus: String,
                              extraction: Extraction, index: String -> Indexing)
    requires WellFormedStores(stores)
    ensures WellFormedStores(UploadPdf(stores, filename, syllabus, extraction, index).stores)
  {
  }

  // ---------------------------------------------------------------------------
  // Quiz questions

  /** A line of the generated text that becomes a question: not blank, with
      a digit among its first three characters as written. */
  predicate KeepLine(line: String) {
    && PyStrip(line) != []
    && exists i :: 0 <= i < |line| && i < 3 && IsDigit(line[i])
  }

  /** Strips every line. */
  function StripAll(lines: seq<String>): (r: seq<String>)
    ensures |r| == |lines|
    ensures forall i :: 0 <= i < |lines| ==> r[i] == PyStrip(lines[i])
  {
    if lines == [] then [] else [PyStrip(lines[0])] + StripAll(lines[1..])
  }

  /** The lines of the generated text, once the text itself is stripped. */
  function QuizLines(text: String): seq<String> {
    Split(PyStrip(text), '\n')
  }

  /** A kept line stripped is non-empty and starts and ends with a
      non-blank character. */
  predicate Trimmed(q: String) {
    q != [] && !IsPySpace(q[0]) && !IsPySpace(q[|q| - 1])
  }

  lemma StripKept(line: String)
    requires KeepLine(line)
    ensures Trimmed(PyStrip(line))
  {
  }

  /** The kept lines, stripped, in their order. */
  function Questions(lines: seq<String>): (r: seq<String>)
    ensures |r| == Seqs.CountWhere(lines, KeepLine)
    ensures forall i :: 0 <= i < |r| ==> r[i] == PyStrip(Seqs.Filter(lines, KeepLine)[i])
    ensures forall i :: 0 <= i < |r| ==> Trimmed(r[i])
  {
    var kept := Seqs.Filter(lines, KeepLine);
    var r := StripAll(kept);
    forall i | 0 <= i < |r|
      ensures Trimmed(r[i])
    {
      assert KeepLine(kept[i]);
      StripKept(kept[i]);
    }
    r
  }

  /** The questions parsed from the generated text: at most two, each a kept
      line stripped (so non-empty and without surrounding blanks), and they
      are the first kept lines in the order of the text. */
  function ParseQuiz(text: String): (r: seq<String>)
    ensures var kept := StripAll(Seqs.Filter(QuizLines(text), KeepLine));
            && |r| == (if |kept| < 2 then |kept| else 2)
            && r == kept[..|r|]
    ensures var n := Seqs.CountWhere(QuizLines(text), KeepLine);
            |r| == (if n < 2 then n else 2)
    ensures forall i :: 0 <= i < |r| ==>
              exists line :: line in QuizLines(text) && KeepLine(line) && r[i] == PyStrip(line)
    ensures forall i :: 0 <= i < |r| ==> Trimmed(r[i])
  {
    var lines := QuizLines(text);
    var filtered := Seqs.Filter(lines, KeepLine);
    var kept := Questions(lines);
    var n := if |kept| < 2 then |kept| else 2;
    forall i | 0 <= i < n
      ensures exists line :: line in lines && KeepLine(line) && kept[i] == PyStrip(line)
    {
      assert filtered[i] in lines && KeepLine(filtered[i]);
    }
    kept[..n]
  }

  /** The quiz questions for an answer: those parsed from the completion's
      text, or none when the completion call raised. */
  function GenerateQuiz(completion: Option<String>): (r: seq<String>)
    ensures |r| <= 2
    ensures completion.None? ==> r == []
    ensures completion.Some? ==> r == ParseQuiz(completion.value)
  {
    match completion
    case None => []
    case Some(text) => ParseQuiz(text)
  }

  /** A line that reads as a numbered question: it starts with a digit, ends
      with a non-blank character and holds no line break. */
  predicate Numbered(q: String) {
    q != [] && IsDigit(q[0]) && !IsPySpace(q[|q| - 1]) && '\n' !in q
  }

  lemma NumberedKept(q: String)
    requires Numbered(q)
    ensures KeepLine(q) && PyStrip(q) == q
  {
    StripUnchanged(q, IsPySpace);
  }

  /** A line with no digit among its first three characters is dropped. */
  lemma UnnumberedDropped(b: String)
    requires forall i :: 0 <= i < |b| && i < 3 ==> !IsDigit(b[i])
    ensures !KeepLine(b)
  {
  }

  /** Numbered lines joined by line breaks parse back into the lines
      themselves, of which the parser keeps the first two. */
  lemma ParseQuizNumbered(qs: seq<String>)
    requires forall k :: 0 <= k < |qs| ==> Numbered(qs[k])
    ensures ParseQuiz(Join(qs, '\n')) == qs[..if |qs| < 2 then |qs| else 2]
  {
    if qs == [] {
      ParseQuizEmpty();
    } else {
      NumberedLinesBack(qs);
      KeptAllNumbered(qs);
    }
  }

  /** An empty text has no questions. */
  lemma ParseQuizEmpty()
    ensures ParseQuiz([]) == []
  {
    assert PyStrip([]) == [];
    assert QuizLines([]) == [""];
    UnnumberedDropped("");
    Seqs.FilterCons([""], KeepLine);
    assert [""][1..] == [];
  }

  /** The lines of numbered lines joined by line breaks are those lines. */
  lemma NumberedLinesBack(qs: seq<String>)
    requires |qs| >= 1
    requires forall k :: 0 <= k < |qs| ==> Numbered(qs[k])
    ensures QuizLines(Join(qs, '\n')) == qs
  {
    NumberedJoinStripped(qs);
    SplitJoin(qs, '\n');
  }

  /** Numbered lines all pass the filter and are left as they are. */
  lemma KeptAllNumbered(qs: seq<String>)
    requires forall k :: 0 <= k < |qs| ==> Numbered(qs[k])
    ensures StripAll(Seqs.Filter(qs, KeepLine)) == qs
  {
    forall k | 0 <= k < |qs|
      ensures KeepLine(qs[k]) && PyStrip(qs[k]) == qs[k]
    {
      NumberedKept(qs[k]);
    }
    Seqs.FilterAll(qs, KeepLine);
  }

  /** Numbered lines joined by line breaks have nothing to strip. */
  lemma NumberedJoinStripped(qs: seq<String>)
    requires |qs| >= 1
    requires forall k :: 0 <= k < |qs| ==> Numbered(qs[k])
    ensures PyStrip(Join(qs, '\n')) == Join(qs, '\n')
  {
    var text := Join(qs, '\n');
    NumberedJoinEnds(qs, text);
    DigitLedUnstripped(text);
  }

  lemma NumberedJoinEnds(qs: seq<String>, text: String)
    requires |qs| >= 1
    requires forall k :: 0 <= k < |qs| ==> Numbered(qs[k])
    requires text == Join(qs, '\n')
    ensures text != [] && IsDigit(text[0]) && !IsPySpace(text[|text| - 1])
  {
    var first, last := qs[0], qs[|qs| - 1];
    assert Numbered(first) && Numbered(last);
    JoinEnds(qs, '\n');
  }

  lemma DigitLedUnstripped(text: String)
    requires text != [] && IsDigit(text[0]) && !IsPySpace(text[|text| - 1])
    ensures PyStrip(text) == text
  {
    assert !IsPySpace(text[0]);
    StripUnchanged(text, IsPySpace);
  }

  lemma JoinFive(q1: String, q2: String, q3: String, b: String)
    ensures Join([q1, "", b, q2, q3], '\n') == q1 + "\n\n" + b + "\n" + q2 + "\n" + q3
  {
    var l3: seq<String> := [q2, q3];
    var l2: seq<String> := [b, q2, q3];
    var l1: seq<String> := ["", b, q2, q3];
    var l0: seq<String> := [q1, "", b, q2, q3];
    assert Join(l3, '\n') == q2 + "\n" + q3 by {
      assert l3[1..] == [q3];
    }
    assert Join(l2, '\n') == b + "\n" + q2 + "\n" + q3 by {
      assert l2[1..] == l3;
    }
    assert Join(l1, '\n') == "\n" + b + "\n" + q2 + "\n" + q3 by {
      assert l1[1..] == l2;
    }
    assert l0[1..] == l1;
  }

  /** Filtering five elements of which the first, fourth and fifth pass. */
  lemma FilterFive<T>(a: T, b: T, c: T, d: T, e: T, keep: T -> bool)
    requires keep(a) && !keep(b) && !keep(c) && keep(d) && keep(e)
    ensures Seqs.Filter([a, b, c, d, e], keep) == [a, d, e]
  {
    var l4: seq<T> := [e];
    var l3: seq<T> := [d, e];
    var l2: seq<T> := [c, d, e];
    var l1: seq<T> := [b, c, d, e];
    var l0: seq<T> := [a, b, c, d, e];
    assert Seqs.Filter(l4, keep) == [e] by {
      Seqs.FilterCons(l4, keep);
      assert l4[1..] == [];
    }
    assert Seqs.Filter(l3, keep) == [d, e] by {
      Seqs.FilterCons(l3, keep);
      assert l3[1..] == l4;
    }
    assert Seqs.Filter(l2, keep) == [d, e] by {
      Seqs.FilterCons(l2, keep);
      assert l2[1..] == l3;
    }
    assert Seqs.Filter(l1, keep) == [d, e] by {
      Seqs.FilterCons(l1, keep);
      assert l1[1..] == l2;
    }
    Seqs.FilterCons(l0, keep);
    assert l0[1..] == l1;
  }

  lemma QuizLinesFive(q1: String, q2: String, q3: String, b: String)
    requires Numbered(q1) && Numbered(q3) && '\n' !in q2 && '\n' !in b
    ensures QuizLines(q1 + "\n\n" + b + "\n" + q2 + "\n" + q3) == [q1, "", b, q2, q3]
  {
    var text := q1 + "\n\n" + b + "\n" + q2 + "\n" + q3;
    JoinFive(q1, q2, q3, b);
    assert text[0] == q1[0] && text[|text| - 1] == q3[|q3| - 1];
    StripUnchanged(text, IsPySpace);
    SplitJoin([q1, "", b, q2, q3], '\n');
  }

  /** A line the parser drops: no digit among its first three characters
      and no line break. */
  predicate Unnumbered(b: String) {
    '\n' !in b && forall i :: 0 <= i < |b| && i < 3 ==> !IsDigit(b[i])
  }

  lemma KeptFive(q1: String, q2: String, q3: String, b: String)
    requires Numbered(q1) && Numbered(q2) && Numbered(q3) && Unnumbered(b)
    ensures StripAll(Seqs.Filter([q1, "", b, q2, q3], KeepLine)) == [q1, q2, q3]
  {
    NumberedKept(q1);
    NumberedKept(q2);
    NumberedKept(q3);
    UnnumberedDropped(b);
    UnnumberedDropped("");
    FilterFive(q1, "", b, q2, q3, KeepLine);
  }

  /** With at least two kept lines, the parser returns the first two. */
  lemma ParseQuizFirstTwo(text: String, kept: seq<String>)
    requires StripAll(Seqs.Filter(QuizLines(text), KeepLine)) == kept
    requires |kept| >= 2
    ensures ParseQuiz(text) == [kept[0], kept[1]]
  {
    var r := ParseQuiz(text);
    assert r == kept[..2];
  }

  /** Three numbered questions with a blank line and an unnumbered line after
      the first: the parser keeps the first two numbered lines, as written. */
  lemma ParseQuizExample(q1: String, q2: String, q3: String, b: String)
    requires Numbered(q1) && Numbered(q2) && Numbered(q3) && Unnumbered(b)
    ensures ParseQuiz(q1 + "\n\n" + b + "\n" + q2 + "\n" + q3) == [q1, q2]
  {
    var text := q1 + "\n\n" + b + "\n" + q2 + "\n" + q3;
    QuizLinesFive(q1, q2, q3, b);
    KeptFive(q1, q2, q3, b);
    ParseQuizFirstTwo(text, [q1, q2, q3]);
  }

  // ---------------------------------------------------------------------------
  // Questions

  datatype QuestionRequest = QuestionRequest(question: String, syllabus: String, quizMode: bool)

  /** What the retrieval QA chain returned: the answer, or the reason it
      failed. */
  datatype QaResult = Answered(text: String) | QaFailed(reason: String)

  datatype QuestionResponse = QuestionResponse(
    answer: String,
    quizQuestions: Option<seq<String>>,
    timestamp: int,
    syllabus: String)

  /** The question endpoint. An unknown syllabus is rejected first, then a
      syllabus without documents; a failure of the QA chain is a 500. Quiz
      questions are produced only in quiz mode and an empty list is sent as
      no list at all. */
  function AskQuestion(stores: Stores, req: QuestionRequest, qa: QaResult,
                       completion: Option<String>, now: int): (r: Result<QuestionResponse, HttpError>)
    requires WellFormedStores(stores)
    ensures req.syllabus !in Syllabi ==> r == Failure(HttpError(400, SyllabusDetail))
    ensures req.syllabus in Syllabi && stores[req.syllabus].None? ==>
              r == Failure(HttpError(400, "No documents uploaded for " + Upper(req.syllabus)
                                          + " syllabus. Please upload PDFs first."))
    ensures req.syllabus in Syllabi && stores[req.syllabus].Some? && qa.QaFailed? ==>
              r == Failure(HttpError(500, "Error processing question: " + qa.reason))
    ensures r.Success? ==>
              && req.syllabus in Syllabi
              && stores[req.syllabus].Some?
              && qa.Answered?
              && r.value.answer == qa.text
              && r.value.syllabus == req.syllabus
              && r.value.timestamp == now
              && (r.value.quizQuestions.Some? <==> req.quizMode && GenerateQuiz(completion) != [])
              && (r.value.quizQuestions.Some? ==>
                    r.value.quizQuestions.value == GenerateQuiz(completion)
                    && 1 <= |r.value.quizQuestions.value| <= 2)
    ensures req.syllabus in Syllabi && stores[req.syllabus].Some? && qa.Answered? ==> r.Success?
  {
    if req.syllabus !in Syllabi then
      Failure(HttpError(400, SyllabusDetail))
    else if stores[req.syllabus].None? then
      Failure(HttpError(400, "No documents uploaded for " + Upper(req.syllabus)
                             + " syllabus. Please upload PDFs first."))
    else
      match qa
      case QaFailed(reason) => Failure(HttpError(500, "Error processing question: " + reason))
      case Answered(answer) =>
        var quiz := if req.quizMode then GenerateQuiz(completion) else [];
        Success(QuestionResponse(answer, if quiz != [] then Some(quiz) else None, now, req.syllabus))
  }

  // ---------------------------------------------------------------------------
  // Readiness

  datatype StatusReport = StatusReport(syllabus: String, documentsUploaded: bool, status: String)

  /** The status endpoint: an unknown syllabus is rejected; otherwise the
      syllabus is echoed upper-cased and it is ready exactly when its store
      exists. */
  function SyllabusStatus(stores: Stores, syllabus: String): (r: Result<StatusReport, HttpError>)
    requires WellFormedStores(stores)
    ensures syllabus !in Syllabi <==> r == Failure(HttpError(400, SyllabusDetail))
    ensures syllabus in Syllabi ==>
              && r.Success?
              && r.value.syllabus == Upper(syllabus)
              && (r.value.documentsUploaded <==> stores[syllabus].Some?)
              && (r.value.status == "ready" <==> stores[syllabus].Some?)
              && (r.value.status == "no_documents" <==> stores[syllabus].None?)
  {
    if syllabus !in Syllabi then Failure(HttpError(400, SyllabusDetail))
    else
      var ready := stores[syllabus].Some?;
      Success(StatusReport(Upper(syllabus), ready, if ready then "ready" else "no_documents"))
  }

  /** The key used when the environment does not set one. */
  const KeyPlaceholder: String := "your-openai-api-key-here"

  /** The configured key: the environment's value, or the placeholder. */
  function ApiKey(env: Option<String>): String {
    env.GetOr(KeyPlaceholder)
  }

  datatype HealthReport = HealthReport(
    status: String,
    timestamp: int,
    ncertReady: bool,
    samacheerReady: bool,
    openaiConfigured: bool)

  /** The health endpoint: each syllabus is ready exactly when its store
      exists, and the AI service counts as configured exactly when the
      environment sets a key that is neither empty nor the placeholder. */
  function Health(stores: Stores, env: Option<String>, now: int): (r: HealthReport)
    requires WellFormedStores(stores)
    ensures r.status == "healthy"
    ensures r.ncertReady <==> stores["ncert"].Some?
    ensures r.samacheerReady <==> stores["samacheer"].Some?
    ensures r.openaiConfigured <==> env.Some? && env.value != [] && env.value != KeyPlaceholder
  {
    var key := ApiKey(env);
    HealthReport("healthy", now, stores["ncert"].Some?, stores["samacheer"].Some?,
                 key != [] && key != KeyPlaceholder)
  }

  /** After a successful upload for a syllabus, that syllabus reports ready
      and accepts questions, and the other syllabus reports as before. */
  lemma UploadThenReady(stores: Stores, filename: String, syllabus: String,
                        extraction: Extraction, index: String -> Indexing, other: String)
    requires WellFormedStores(stores)
    requires UploadPdf(stores, filename, syllabus, extraction, index).result.Success?
    requires other in Syllabi && other != syllabus
    ensures var after := UploadPdf(stores, filename, syllabus, extraction, index).stores;
            && WellFormedStores(after)
            && SyllabusStatus(after, syllabus).value.status == "ready"
            && SyllabusStatus(after, other) == SyllabusStatus(stores, other)
            && forall req: QuestionRequest, qa: QaResult, completion: Option<String>, now: int ::
                 req.syllabus == syllabus && qa.Answered? ==>
                   AskQuestion(after, req, qa, completion, now).Success?
  {
    UploadKeepsWellFormed(stores, filename, syllabus, extraction, index);
  }
}
