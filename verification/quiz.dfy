/**
  The quiz conversation of the bot (main.py): the per-user session, the
  four handlers `select_dictionary`, `hello`, `lesson` and `stop`, the
  question picker `_set_question`, and the transition table that wires
  them to the conversation states `HELLO` and `LESSON`.

  Each handler is a pure function from the session (Python's
  `context.user_data`) and the incoming message to the next conversation
  phase, the next session and the reply messages.  A handler that raises
  returns `Failure`, carrying the exception and the replies it had already
  sent before raising.
*/
module Quiz {
  import opened Wrappers
  import Matching

  /** One row of a dictionary file: a Russian prompt and its German answer
      (the columns `ru` and `de`). */
  datatype Entry = Entry(ru: string, de: string)

  /** A loaded dictionary file, in file order. */
  type Table = seq<Entry>

  /** The dictionary files as read from disk: path to parsed rows. */
  type Files = map<string, Table>

  /** `DICTIONARIES`, in declaration order: the names offered to the user. */
  const DictionaryNames: seq<string> :=
    ["Starken Verben", "Verben", "Adjektiven", "andere"]

  /** `DICTIONARIES`: dictionary name to file path. */
  const DictionaryFiles: map<string, string> := map[
    "Starken Verben" := "./data/starken_Verben.csv",
    "Verben" := "./data/verbs.csv",
    "Adjektiven" := "./data/adjectives.csv",
    "andere" := "./data/andere.csv"
  ]

  /** The conversation states; `End` is also the state before `/start`. */
  datatype Phase = Hello | Lesson | End

  /** `context.user_data`: the chosen dictionary and the open question. */
  datatype Session = Session(table: Option<Table>, q: Option<Entry>)

  const EmptySession: Session := Session(None, None)

  /** A message sent to the user: plain text, text with a one-time reply
      keyboard, or the printed dictionary (`str(dictionary)`). */
  datatype Reply = Say(text: string) | Offer(text: string, options: seq<string>) | Dump(table: Table)

  /** The outcome of a handler: next phase, next session, replies sent. */
  datatype Step = Step(phase: Phase, session: Session, replies: seq<Reply>)

  /** The exceptions the handlers can raise. */
  datatype Error =
    | UnknownDictionary(name: string)   // KeyError on DICTIONARIES
    | MissingFile(path: string)         // read_csv on a missing file
    | MissingQuestion                   // KeyError on user_data["q"]
    | MissingDictionary                 // KeyError on user_data["dictionary"]

  /** A raised exception together with the replies already sent. */
  datatype Crash = Crash(error: Error, sent: seq<Reply>)

  /** An incoming message: a bot command (`/start` is `Command("start")`)
      or plain text. */
  datatype Event = Command(name: string) | Text(text: string)

  const Rule: string := "---------------------------------------"
  const Praise: string := "Ja! Gut gemacht!!! \U{1F44D}"
  const Rebuke: string := "..NEIN.."
  const Question: string := "Welche W\U{F6}rter wollen Sie lernen?"
  const Go: string := "Lass uns gehen!"

  function Greeting(firstName: string): string {
    "\U{1F44B} Hallo, " + firstName + "!"
  }

  function Farewell(firstName: string): string {
    "\U{1F44B} Tsch\U{FC}ss, " + firstName + "! Bis bald!"
  }

  /** The prompt that shows a question: a rule, then the Russian word. */
  function Prompt(e: Entry): string {
    Rule + "\n" + e.ru + ":"
  }

  /** The line that reveals the expected answer of a question. */
  function Reveal(e: Entry): string {
    e.ru + " = " + e.de
  }

  /** `i` is a valid random draw from the table that will be sampled,
      if any. */
  predicate ValidPick(t: Option<Table>, i: nat) {
    t.Some? ==> i < |t.value|
  }

  /** The table `hello` loads for the dictionary name `name`, if the name
      is known and its file exists. */
  function Load(files: Files, name: string): Option<Table> {
    if name in DictionaryFiles && DictionaryFiles[name] in files
    then Some(files[DictionaryFiles[name]])
    else None
  }

  /** `_set_question`: draw entry `i` of the session's dictionary, make it
      the open question and show it.  The dictionary is untouched and the
      new question replaces the old one. */
  function SetQuestion(s: Session, i: nat): (r: (Session, Reply))
    requires s.table.Some? && i < |s.table.value|
    ensures r.0.table == s.table
    ensures r.0.q.Some? && r.0.q.value in s.table.value
    ensures r.1 == Say(Prompt(r.0.q.value))
  {
    var q := s.table.value[i];
    (Session(s.table, Some(q)), Say(Prompt(q)))
  }

  /** Every entry of the dictionary can be drawn as the next question. */
  lemma SetQuestionCovers(s: Session, e: Entry)
    requires s.table.Some? && e in s.table.value
    ensures exists i :: 0 <= i < |s.table.value| && SetQuestion(s, i).0.q == Some(e)
  {
    var i :| 0 <= i < |s.table.value| && s.table.value[i] == e;
    assert SetQuestion(s, i).0.q == Some(e);
  }

  /** `select_dictionary`: greet, offer every dictionary name on the reply
      keyboard, and wait for the choice in `HELLO`; the session is left
      alone. */
  function SelectDictionary(s: Session, firstName: string): (r: Step)
    ensures r.phase == Hello && r.session == s
    ensures |r.replies| == 2 && r.replies[1].Offer?
    ensures forall n :: n in r.replies[1].options <==> n in DictionaryFiles
  {
    Step(Hello, s, [Say(Greeting(firstName)), Offer(Question, DictionaryNames)])
  }

  /** `hello`: load the dictionary the user named, print it, store it in
      the session and ask its first question, moving to `LESSON`.  An
      unknown name raises `KeyError` and a missing file makes `read_csv`
      raise, both before anything is sent or stored. */
  function OpenDictionary(files: Files, s: Session, name: string, i: nat): (r: Result<Step, Crash>)
    requires ValidPick(Load(files, name), i)
    ensures name !in DictionaryFiles ==> r == Failure(Crash(UnknownDictionary(name), []))
    ensures name in DictionaryFiles && DictionaryFiles[name] !in files ==>
              r == Failure(Crash(MissingFile(DictionaryFiles[name]), []))
    ensures r.Success? <==> name in DictionaryFiles && DictionaryFiles[name] in files
    ensures r.Success? ==>
              var t := files[DictionaryFiles[name]];
              && r.value.phase == Lesson
              && r.value.session.table == Some(t)
              && r.value.session.q.Some? && r.value.session.q.value in t
              && r.value.replies == [Dump(t), Say(Go), Say(Prompt(r.value.session.q.value))]
  {
    if name !in DictionaryFiles then Failure(Crash(UnknownDictionary(name), []))
    else if DictionaryFiles[name] !in files then Failure(Crash(MissingFile(DictionaryFiles[name]), []))
    else
      var t := files[DictionaryFiles[name]];
      var (s', prompt) := SetQuestion(Session(Some(t), s.q), i);
      Success(Step(Lesson, s', [Dump(t), Say(Go), prompt]))
  }

  /** Every reply a handler sent, whether it finished or raised. */
  function Sent(r: Result<Step, Crash>): seq<Reply> {
    match r
    case Success(st) => st.replies
    case Failure(c) => c.sent
  }

  /** Praise and rebuke can never be confused, whatever follows them. */
  lemma VerdictsDiffer(rest: string)
    ensures Praise + "\n" + rest != Rebuke + "\n" + rest
  {
    assert (Praise + "\n" + rest)[0] != (Rebuke + "\n" + rest)[0];
  }

  /** `lesson`: grade the answer against the open question with
      `compare`, reveal the expected pair, and ask a fresh question from
      the same dictionary, staying in `LESSON`.  Without an open question
      it raises before replying; without a dictionary it raises after the
      verdict has been sent. */
  function CheckAnswer(s: Session, answer: string, i: nat): (r: Result<Step, Crash>)
    requires ValidPick(s.table, i)
    ensures s.q.None? ==> r == Failure(Crash(MissingQuestion, []))
    ensures r.Success? <==> s.q.Some? && s.table.Some?
    ensures s.q.Some? ==>
              && |Sent(r)| >= 1
              && (Sent(r)[0] == Say(Praise + "\n" + Reveal(s.q.value)) <==> Matching.Compare(answer, s.q.value.de))
              && (Sent(r)[0] == Say(Rebuke + "\n" + Reveal(s.q.value)) <==> !Matching.Compare(answer, s.q.value.de))
    ensures r.Success? ==>
              && r.value.phase == Lesson
              && r.value.session.table == s.table
              && r.value.session.q.Some? && r.value.session.q.value in s.table.value
              && |r.value.replies| == 2
              && r.value.replies[1] == Say(Prompt(r.value.session.q.value))
    ensures r.Failure? && s.q.Some? ==> r == Failure(Crash(MissingDictionary, r.error.sent)) && |r.error.sent| == 1
  {
    if s.q.None? then Failure(Crash(MissingQuestion, []))
    else
      var q := s.q.value;
      var head := if Matching.Compare(answer, q.de) then Praise else Rebuke;
      var verdict := Say(head + "\n" + Reveal(q));
      VerdictsDiffer(Reveal(q));
      if s.table.None? then Failure(Crash(MissingDictionary, [verdict]))
      else
        var (s', prompt) := SetQuestion(s, i);
        Success(Step(Lesson, s', [verdict, prompt]))
  }

  /** `stop`: say goodbye, clear the session and end the conversation. */
  function Stop(firstName: string): (r: Step)
    ensures r.phase == End
    ensures r.session.table.None? && r.session.q.None?
    ensures r.replies == [Say(Farewell(firstName))]
  {
    Step(End, EmptySession, [Say(Farewell(firstName))])
  }

  /** What every reachable conversation satisfies: in `LESSON` there is a
      dictionary and exactly one open question drawn from it; outside
      `LESSON` the session is empty. */
  predicate Invariant(phase: Phase, s: Session) {
    && (phase == Lesson ==> s.table.Some? && s.q.Some? && s.q.value in s.table.value)
    && (phase != Lesson ==> s == EmptySession)
  }

  /** The table the handler for `ev` in `phase` would sample from. */
  function Pool(files: Files, phase: Phase, s: Session, ev: Event): Option<Table> {
    match (phase, ev)
    case (Hello, Text(t)) => Load(files, t)
    case (Lesson, Text(_)) => s.table
    case _ => None
  }

  /** A handler's outcome as the conversation sees it: a raised exception
      leaves the conversation state unchanged, and what was already sent
      stays sent.  The session is kept as it was because none of the
      modelled exceptions is raised after the session was written. */
  function Settle(phase: Phase, s: Session, r: Result<Step, Crash>): Step {
    match r
    case Success(st) => st
    case Failure(c) => Step(phase, s, c.sent)
  }

  /** The conversation handler wired in `main`: `/start` enters `HELLO`
      from outside the conversation, plain text goes to `hello` in `HELLO`
      and to `lesson` in `LESSON`, `/stop` ends the conversation from either
      state, and every other message is ignored. */
  function Dispatch(files: Files, phase: Phase, s: Session, ev: Event, firstName: string, i: nat): (r: Step)
    requires ValidPick(Pool(files, phase, s, ev), i)
    ensures Invariant(phase, s) ==> Invariant(r.phase, r.session)
    ensures phase != End && ev == Command("stop") ==> r == Stop(firstName)
    ensures phase == End && ev != Command("start") ==> r == Step(End, s, [])
    ensures phase == End && ev == Command("start") ==> r.phase == Hello && r.session == s
    ensures phase == Lesson && ev.Text? && Invariant(phase, s) ==>
              && r.phase == Lesson
              && r.session.table == s.table
              && r.session.q.Some?
              && |r.replies| == 2
              && (r.replies[0] == Say(Praise + "\n" + Reveal(s.q.value)) <==> Matching.Compare(ev.text, s.q.value.de))
    ensures phase != End && ev.Command? && ev.name != "stop" ==> r == Step(phase, s, [])
    ensures phase == Hello && ev.Text? && Load(files, ev.text).Some? ==>
              r.phase == Lesson && r.session.table == Load(files, ev.text) && r.session.q.Some?
    ensures phase == Hello && ev.Text? && Load(files, ev.text).None? ==> r == Step(Hello, s, [])
  {
    match phase
    case End =>
      if ev == Command("start") then SelectDictionary(s, firstName) else Step(End, s, [])
    case Hello =>
      (match ev
       case Command(c) => if c == "stop" then Stop(firstName) else Step(Hello, s, [])
       case Text(t) => Settle(Hello, s, OpenDictionary(files, s, t, i)))
    case Lesson =>
      (match ev
       case Command(c) => if c == "stop" then Stop(firstName) else Step(Lesson, s, [])
       case Text(t) => Settle(Lesson, s, CheckAnswer(s, t, i)))
  }

  /** A run of answers in `LESSON`: each answer is graded and replaced by
      a question drawn with the matching entry of `picks`.  However long
      the run, the conversation stays in `LESSON` on the same dictionary
      with exactly one open question, and every answer gets two replies. */
  function Drill(files: Files, s: Session, answers: seq<string>, picks: seq<nat>): (r: Step)
    requires Invariant(Lesson, s)
    requires |picks| == |answers|
    requires forall k :: 0 <= k < |picks| ==> picks[k] < |s.table.value|
    decreases |answers|
    ensures r.phase == Lesson && Invariant(r.phase, r.session)
    ensures r.session.table == s.table
    ensures |r.replies| == 2 * |answers|
  {
    if |answers| == 0 then Step(Lesson, s, [])
    else
      var st := Dispatch(files, Lesson, s, Text(answers[0]), "", picks[0]);
      var rest := Drill(files, st.session, answers[1..], picks[1..]);
      Step(rest.phase, rest.session, st.replies + rest.replies)
  }
}
