/**
  Whole conversations driven through the transition table: the paths a
  user takes through the quiz, stated on concrete messages.
*/
module Scenarios {
  import opened Wrappers
  import Matching
  import opened Quiz

  const RunEntry: Entry := Entry("\U{431}\U{435}\U{436}\U{430}\U{442}\U{44C}", "laufen")

  /** Only the verbs file exists, and it holds one entry. */
  const VerbsOnly: Files := map["./data/verbs.csv" := [RunEntry]]

  /** `/start`, choose "Verben", answer "Laufen": the answer is accepted,
      the pair is revealed, and the only entry is asked again. */
  lemma CorrectAnswerScenario()
    ensures
      var s1 := Dispatch(VerbsOnly, End, EmptySession, Command("start"), "Anna", 0);
      var s2 := Dispatch(VerbsOnly, s1.phase, s1.session, Text("Verben"), "Anna", 0);
      var s3 := Dispatch(VerbsOnly, s2.phase, s2.session, Text("Laufen"), "Anna", 0);
      && s1.phase == Hello
      && s2.phase == Lesson && s2.session.q == Some(RunEntry)
      && s2.replies[2] == Say(Prompt(RunEntry))
      && s3.phase == Lesson && s3.session.q == Some(RunEntry)
      && s3.replies == [Say(Praise + "\n" + Reveal(RunEntry)), Say(Prompt(RunEntry))]
  {
    var s1 := Dispatch(VerbsOnly, End, EmptySession, Command("start"), "Anna", 0);
    assert Load(VerbsOnly, "Verben") == Some([RunEntry]);
    var s2 := Dispatch(VerbsOnly, s1.phase, s1.session, Text("Verben"), "Anna", 0);
    Matching.CapitalIgnored();
  }

  /** A dictionary name that is not offered leaves the user in `HELLO`
      with nothing sent and nothing stored. */
  lemma UnknownNameScenario(files: Files, name: string)
    requires name !in DictionaryFiles
    ensures Dispatch(files, Hello, EmptySession, Text(name), "Anna", 0) == Step(Hello, EmptySession, [])
  {
  }

  /** `/stop` in the middle of a lesson clears the session; an answer sent
      afterwards is outside the conversation and is ignored. */
  lemma StopThenAnswerScenario(files: Files, s: Session, answer: string)
    requires Invariant(Lesson, s)
    ensures
      var s1 := Dispatch(files, Lesson, s, Command("stop"), "Anna", 0);
      var s2 := Dispatch(files, s1.phase, s1.session, Text(answer), "Anna", 0);
      && s1.phase == End && s1.session == EmptySession
      && s2 == Step(End, EmptySession, [])
  {
  }
}
