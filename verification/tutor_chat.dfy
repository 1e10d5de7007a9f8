/** The chat panel: an append-only transcript, the input box and the loading
    flag. Sending is split in two: `Send` is what happens before the request
    goes out, `Receive` what happens once its outcome (an answer, an HTTP
    error status, a thrown error) is known. The handler awaits twice, for
    the response and for its body; nothing in the panel's state changes
    between the two, so they are taken as one step. */
module TutorChat {
  import opened Text
  import opened Wrappers

  datatype Sender = User | Bot

  /** A transcript entry; ids and timestamps come from the clock and are
      parameters here. */
  datatype Message = Message(id: String, text: String, sender: Sender, timestamp: int, syllabus: Option<String>)

  datatype Chat = Chat(messages: seq<Message>, input: String, loading: bool)

  /** The JSON body of the question request. */
  datatype Request = Request(question: String, syllabus: String, quizMode: bool)

  /** The body of a response: the answer fields, or a body that could not be
      read as such (the message of the error raised while reading it). */
  datatype Payload = Answer(answer: String, quizQuestions: Option<seq<String>>) | Unreadable(reason: String)

  /** How the request ended: a response with its HTTP status, or a rejection
      carrying the thrown error's message (`None` when the thrown value is
      not an `Error`). */
  datatype Outcome = Response(status: int, payload: Payload) | Rejected(message: Option<String>)

  const Greeting: String :=
    "Hello! I'm your AI tutor. I can help you with questions from NCERT and Samacheer Kalvi syllabus. Upload some PDFs and ask me anything!"

  /** The transcript holds the greeting alone, the input is empty and nothing
      is loading. */
  function Initial(now: int): (c: Chat)
    ensures |c.messages| == 1
    ensures c.messages[0] == Message("1", Greeting, Bot, now, None)
    ensures c.input == [] && !c.loading
  {
    Chat([Message("1", Greeting, Bot, now, None)], "", false)
  }

  /** `fetch`'s `Response.ok`. */
  predicate IsOk(status: int) {
    200 <= status <= 299
  }

  /** Whether the send button is disabled (the handler itself checks only the
      trimmed input). */
  predicate SendDisabled(c: Chat) {
    c.loading || JsTrim(c.input) == []
  }

  // ---------------------------------------------------------------------------
  // Bot message text

  const QuizHeader: String := "\n\n\U{1F9E0} Quiz Questions:\n"

  /** The questions as `"<n>. <question>"` lines, numbered from `start`. */
  function NumberedLines(qs: seq<String>, start: nat): (r: seq<String>)
    ensures |r| == |qs|
    ensures forall i :: 0 <= i < |qs| ==> r[i] == NatToString(start + i) + ". " + qs[i]
  {
    if qs == [] then []
    else [NatToString(start) + ". " + qs[0]] + NumberedLines(qs[1..], start + 1)
  }

  /** The text of the bot message for an answer: the answer itself, followed
      by the numbered quiz list exactly when the response carries a non-empty
      list of quiz questions. */
  function BotText(answer: String, quiz: Option<seq<String>>): (r: String)
    ensures StartsWith(r, answer)
    ensures r == answer <==> quiz.None? || quiz.value == []
    ensures quiz.Some? && quiz.value != [] ==>
              StartsWith(r[|answer|..], QuizHeader)
              && r[|answer| + |QuizHeader|..] == Join(NumberedLines(quiz.value, 1), '\n')
  {
    if quiz.Some? && |quiz.value| > 0 then
      var r := answer + QuizHeader + Join(NumberedLines(quiz.value, 1), '\n');
      assert r[|answer|..][..|QuizHeader|] == QuizHeader;
      r
    else answer
  }

  /** When no question contains a line break, the lines after the quiz
      header are exactly the numbered questions, in server order, numbered
      from 1, with nothing after the last one. */
  lemma QuizSuffixLines(answer: String, qs: seq<String>)
    requires qs != []
    requires forall i :: 0 <= i < |qs| ==> '\n' !in qs[i]
    ensures var r := BotText(answer, Some(qs));
            var lines := Split(r[|answer| + |QuizHeader|..], '\n');
            && |lines| == |qs|
            && forall i :: 0 <= i < |qs| ==> lines[i] == NatToString(i + 1) + ". " + qs[i]
  {
    var lines := NumberedLines(qs, 1);
    assert forall i :: 0 <= i < |lines| ==> '\n' !in lines[i];
    SplitJoin(lines, '\n');
  }

  /** Two quiz questions give a two-line numbered list after the header; an
      empty list gives the answer alone. */
  lemma QuizSuffixExample(answer: String)
    ensures BotText(answer, Some(["a", "b"])) == answer + "\n\n\U{1F9E0} Quiz Questions:\n1. a\n2. b"
    ensures BotText(answer, Some([])) == answer
    ensures BotText(answer, None) == answer
  {
    NumberedExample();
  }

  lemma NumberedExample()
    ensures Join(NumberedLines(["a", "b"], 1), '\n') == "1. a\n2. b"
  {
    assert NatToString(1) == "1" && NatToString(2) == "2";
    var lines := NumberedLines(["a", "b"], 1);
    assert lines[0] == "1. a" && lines[1] == "2. b";
    assert lines == ["1. a", "2. b"];
  }

  const ErrorLead: String :=
    "Sorry, I couldn't process your question. Please make sure:\n1. The backend server is running on http://localhost:8000\n2. PDFs are uploaded for the "

  const ErrorMid: String := " syllabus\n3. Your OpenAI API key is configured\n\nError: "

  /** The diagnostic bot message: the fixed list of likely causes naming the
      syllabus upper-cased, then `Error: ` and the error detail. */
  function ErrorText(syllabus: String, detail: String): (r: String)
    ensures StartsWith(r, ErrorLead)
    ensures |r| == |ErrorLead| + |syllabus| + |ErrorMid| + |detail|
    ensures r[|ErrorLead|..|ErrorLead| + |syllabus|] == Upper(syllabus)
    ensures EndsWith(r, ErrorMid + detail)
  {
    var r := ErrorLead + Upper(syllabus) + ErrorMid + detail;
    assert r[|r| - |ErrorMid + detail|..] == ErrorMid + detail;
    r
  }

  /** The diagnostic keeps its detail: for one syllabus, two details give the
      same message only when they are the same. */
  lemma ErrorTextDetail(syllabus: String, d1: String, d2: String)
    requires ErrorText(syllabus, d1) == ErrorText(syllabus, d2)
    ensures d1 == d2
  {
    var n := |ErrorLead| + |syllabus| + |ErrorMid|;
    var r := ErrorText(syllabus, d1);
    assert d1 == r[n..] by {
      assert r == ErrorLead + Upper(syllabus) + ErrorMid + d1;
    }
    assert d2 == r[n..] by {
      assert r == ErrorLead + Upper(syllabus) + ErrorMid + d2;
    }
  }

  /** The text of the one bot message appended when the request ends. */
  function ReplyText(syllabus: String, outcome: Outcome): (r: String)
    ensures outcome.Response? && IsOk(outcome.status) && outcome.payload.Answer? ==>
              r == BotText(outcome.payload.answer, outcome.payload.quizQuestions)
    ensures outcome.Response? && !IsOk(outcome.status) ==>
              r == ErrorText(syllabus, "API Error: " + IntToString(outcome.status))
    ensures outcome.Response? && IsOk(outcome.status) && outcome.payload.Unreadable? ==>
              r == ErrorText(syllabus, outcome.payload.reason)
    ensures outcome.Rejected? ==> r == ErrorText(syllabus, outcome.message.GetOr("Unknown error"))
    ensures !(outcome.Response? && IsOk(outcome.status) && outcome.payload.Answer?) ==>
              StartsWith(r, ErrorLead)
  {
    match outcome
    case Response(status, payload) =>
      if !IsOk(status) then ErrorText(syllabus, "API Error: " + IntToString(status))
      else (
        match payload
        case Answer(answer, quiz) => BotText(answer, quiz)
        case Unreadable(reason) => ErrorText(syllabus, reason))
    case Rejected(message) => ErrorText(syllabus, message.GetOr("Unknown error"))
  }

  /** A 500 response for the NCERT syllabus gives the diagnostic message
      naming NCERT and the status. */
  lemma ErrorReplyExample(payload: Payload)
    ensures ReplyText("ncert", Response(500, payload)) == ErrorLead + "NCERT" + ErrorMid + "API Error: 500"
  {
    UpperNcert();
    Numeral500();
  }

  lemma UpperNcert()
    ensures Upper("ncert") == "NCERT"
  {
  }

  lemma Numeral500()
    ensures IntToString(500) == "500"
  {
    assert NatToString(5) == "5";
    assert NatToString(50) == "50";
  }

  // ---------------------------------------------------------------------------
  // Sending

  /** The first half of sending. Input that is blank after trimming changes
      nothing and sends nothing; otherwise exactly one user message carrying
      the untrimmed input and the selected syllabus is appended, the input is
      cleared, loading is set, and the request carries the input, the
      syllabus and the quiz-mode flag. */
  function Send(c: Chat, syllabus: String, quizMode: bool, id: String, now: int): (r: (Chat, Option<Request>))
    ensures (forall k :: 0 <= k < |c.input| ==> IsJsSpace(c.input[k])) ==> r == (c, None)
    ensures (exists k :: 0 <= k < |c.input| && !IsJsSpace(c.input[k])) ==>
              && |r.0.messages| == |c.messages| + 1
              && r.0.messages[..|c.messages|] == c.messages
              && r.0.messages[|c.messages|].sender == User
              && r.0.messages[|c.messages|].text == c.input
              && r.0.messages[|c.messages|].syllabus == Some(syllabus)
              && r.0.input == []
              && r.0.loading
              && r.1 == Some(Request(c.input, syllabus, quizMode))
  {
    if JsTrim(c.input) == [] then (c, None)
    else
      var user := Message(id, c.input, User, now, Some(syllabus));
      (Chat(c.messages + [user], [], true), Some(Request(c.input, syllabus, quizMode)))
  }

  /** The second half of sending: exactly one bot message is appended, with
      the reply text for the outcome, and loading ends false on every path. */
  function Receive(c: Chat, pending: Request, outcome: Outcome, id: String, now: int): (r: Chat)
    ensures |r.messages| == |c.messages| + 1
    ensures r.messages[..|c.messages|] == c.messages
    ensures r.messages[|c.messages|].sender == Bot
    ensures r.messages[|c.messages|].text == ReplyText(pending.syllabus, outcome)
    ensures r.messages[|c.messages|].syllabus == None
    ensures !r.loading
    ensures r.input == c.input
  {
    var bot := Message(id, ReplyText(pending.syllabus, outcome), Bot, now, None);
    Chat(c.messages + [bot], c.input, false)
  }

  // ---------------------------------------------------------------------------
  // The panel as a reducer

  /** The chat together with the request in flight, if any. */
  datatype Session = Session(chat: Chat, pending: Option<Request>)

  /** What the user and the network do: typing into the input box, pressing
      the send button or Enter, and a request coming back. */
  datatype ChatEvent =
    | Typed(text: String)
    | Pressed(syllabus: String, quizMode: bool, id: String, now: int)
    | Resolved(outcome: Outcome, id: String, now: int)

  /** One event; the input box is disabled while loading, so neither typing
      nor Enter reaches the handler then, and the send button is disabled too.
      Every event only ever appends to the transcript, and at most one
      message; a request goes out only for non-blank input, and the one in
      flight ends with exactly one bot message. */
  function Step(s: Session, e: ChatEvent): (r: Session)
    ensures s.chat.messages <= r.chat.messages
    ensures |r.chat.messages| <= |s.chat.messages| + 1
    ensures s.chat.loading && !e.Resolved? ==> r == s
    ensures e.Typed? && !s.chat.loading ==> r.chat == s.chat.(input := e.text)
    ensures e.Pressed? && !s.chat.loading ==>
              (r.pending.Some? <==> exists k :: 0 <= k < |s.chat.input| && !IsJsSpace(s.chat.input[k]))
    ensures e.Resolved? && s.pending.None? ==> r == s
    ensures e.Resolved? && s.pending.Some? ==>
              && r.pending.None?
              && !r.chat.loading
              && |r.chat.messages| == |s.chat.messages| + 1
              && r.chat.messages[|s.chat.messages|].sender == Bot
              && r.chat.messages[|s.chat.messages|].text == ReplyText(s.pending.value.syllabus, e.outcome)
  {
    match e
    case Typed(text) =>
      if s.chat.loading then s else s.(chat := s.chat.(input := text))
    case Pressed(syllabus, quizMode, id, now) =>
      if s.chat.loading then s
      else
        var (c, req) := Send(s.chat, syllabus, quizMode, id, now);
        Session(c, req)
    case Resolved(outcome, id, now) =>
      match s.pending
      case None => s
      case Some(req) => Session(Receive(s.chat, req, outcome, id, now), None)
  }

  /** A sequence of events only ever appends to the transcript, at most one
      message per event. */
  function Run(s: Session, evs: seq<ChatEvent>): (r: Session)
    ensures s.chat.messages <= r.chat.messages
    ensures |r.chat.messages| <= |s.chat.messages| + |evs|
    decreases |evs|
  {
    if evs == [] then s else Run(Step(s, evs[0]), evs[1..])
  }

  /** Loading exactly while a request is in flight; the greeting first, then
      user and bot messages alternating, so that every user message but a
      pending one has exactly one bot message after it. */
  predicate Good(s: Session) {
    && (s.chat.loading <==> s.pending.Some?)
    && |s.chat.messages| >= 1
    && s.chat.messages[0].sender == Bot
    && s.chat.messages[0].text == Greeting
    && (forall i :: 1 <= i < |s.chat.messages| ==>
          s.chat.messages[i].sender == (if i % 2 == 1 then User else Bot))
    && (s.chat.loading <==> |s.chat.messages| % 2 == 0)
  }

  lemma StepKeepsGood(s: Session, e: ChatEvent)
    requires Good(s)
    ensures Good(Step(s, e))
    ensures s.chat.messages <= Step(s, e).chat.messages
    ensures |Step(s, e).chat.messages| <= |s.chat.messages| + 1
  {
    match e
    case Typed(_) =>
    case Pressed(syllabus, quizMode, id, now) =>
      if !s.chat.loading {
        SendKeepsGood(s, syllabus, quizMode, id, now);
      }
    case Resolved(outcome, id, now) =>
      if s.pending.Some? {
        ReceiveKeepsGood(s, outcome, id, now);
      }
  }

  lemma SendKeepsGood(s: Session, syllabus: String, quizMode: bool, id: String, now: int)
    requires Good(s) && !s.chat.loading
    ensures var (c, req) := Send(s.chat, syllabus, quizMode, id, now);
            && Good(Session(c, req))
            && s.chat.messages <= c.messages
            && |c.messages| <= |s.chat.messages| + 1
  {
    if JsTrim(s.chat.input) != [] {
      var (c, req) := Send(s.chat, syllabus, quizMode, id, now);
      assert c.messages == s.chat.messages + [c.messages[|s.chat.messages|]];
    }
  }

  lemma ReceiveKeepsGood(s: Session, outcome: Outcome, id: String, now: int)
    requires Good(s) && s.pending.Some?
    ensures var c := Receive(s.chat, s.pending.value, outcome, id, now);
            && Good(Session(c, None))
            && s.chat.messages <= c.messages
            && |c.messages| == |s.chat.messages| + 1
  {
    var c := Receive(s.chat, s.pending.value, outcome, id, now);
    assert c.messages == s.chat.messages + [c.messages[|s.chat.messages|]];
  }

  /** From the greeting, any sequence of events keeps the transcript
      well-formed and only ever appends to it. */
  lemma {:induction false} RunKeepsGood(s: Session, evs: seq<ChatEvent>)
    requires Good(s)
    ensures Good(Run(s, evs))
    ensures s.chat.messages <= Run(s, evs).chat.messages
    decreases |evs|
  {
    if evs != [] {
      StepKeepsGood(s, evs[0]);
      RunKeepsGood(Step(s, evs[0]), evs[1..]);
    }
  }

  /** The panel starts with the greeting alone, an empty input and nothing
      loading, which satisfies the invariant. */
  lemma InitialGood(now: int)
    ensures Initial(now).messages == [Message("1", Greeting, Bot, now, None)]
    ensures Initial(now).input == [] && !Initial(now).loading
    ensures Good(Session(Initial(now), None))
  {
  }

  /** Pressing send while a request is in flight, or with blank input,
      changes nothing: no message, no second request. */
  lemma PressWhileDisabledIsNoOp(s: Session, syllabus: String, quizMode: bool, id: String, now: int)
    requires Good(s)
    requires SendDisabled(s.chat)
    ensures Step(s, Pressed(syllabus, quizMode, id, now)) == s
  {
  }
}
