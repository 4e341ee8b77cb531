/**
  The assessment sequencer: five fixed prompts answered in order. Each React
  handler of the assessment screen is one atomic transition on an explicit
  state record; the list handed to the parent is returned as data.
*/
module AssessmentFlow {
  import opened Wrappers
  import opened Text
  import opened Types

  /** A prompt: the stage label and the question shown to the user. */
  datatype Stage = Stage(name: string, question: string)

  /** The five prompts, in the order they are asked. */
  const Stages: seq<Stage> := [
    Stage("Daily Life",
      "Describe your typical morning routine. What do you do from the moment you wake up?"),
    Stage("Descriptive",
      "Describe a place you visited recently. What did it look like? What sounds, smells, or feelings do you remember?"),
    Stage("Opinion",
      "What is your opinion on remote work? Do you think it's beneficial or challenging?"),
    Stage("Professional",
      "Describe a professional challenge you faced recently. How did you approach solving it?"),
    Stage("Abstract",
      "What does \"success\" mean to you? How would you define it in your own words?")
  ]

  /** Index of the last prompt. */
  const LastIndex: nat := |Stages| - 1

  /**
    The sequencer's state: the prompt being answered, the response list and
    the live transcript of the current prompt.
  */
  datatype State = State(current: nat, responses: seq<UserResponse>, transcript: string)

  /** What a transition produces: the next state and, possibly, the list handed to the parent. */
  datatype Step = Step(next: State, emitted: Option<seq<UserResponse>>)

  /** The shape every reachable state has: one entry per prompt, labelled by position. */
  predicate Valid(s: State) {
    && s.current < |Stages|
    && |s.responses| == |Stages|
    && forall i :: 0 <= i < |Stages| ==> s.responses[i].stage == Stages[i].name
  }

  /** The state once the screen has mounted: first prompt, five empty answers. */
  function Init(): (s: State)
    ensures Valid(s)
    ensures s.current == 0 && s.transcript == ""
    ensures |s.responses| == 5
    ensures s.responses[0].stage == "Daily Life"
    ensures s.responses[1].stage == "Descriptive"
    ensures s.responses[2].stage == "Opinion"
    ensures s.responses[3].stage == "Professional"
    ensures s.responses[4].stage == "Abstract"
    ensures forall i :: 0 <= i < |s.responses| ==> s.responses[i].transcript == ""
  {
    State(0, seq(|Stages|, i requires 0 <= i < |Stages| => UserResponse(Stages[i].name, "")), "")
  }

  /** The list with the entry of the current prompt replaced by `text`, trimmed. */
  function CommitAt(s: State, text: string): seq<UserResponse>
    requires Valid(s)
  {
    s.responses[s.current := UserResponse(Stages[s.current].name, Trim(text))]
  }

  /** A new transcript arrives from the recogniser (`handleTranscript`). */
  function OnTranscript(s: State, text: string): (r: State)
    requires Valid(s)
    ensures Valid(r)
    ensures r.current == s.current && r.transcript == text
    ensures r.responses[s.current].transcript == Trim(text)
    ensures forall j :: 0 <= j < |s.responses| && j != s.current ==> r.responses[j] == s.responses[j]
  {
    State(s.current, CommitAt(s, text), text)
  }

  /**
    The current prompt is finished (`handleComplete`, also reached directly from
    the recogniser's stop button): the live transcript is committed, then the
    sequencer moves on or, at the last prompt, hands the list to the parent.
  */
  function Complete(s: State): (r: Step)
    requires Valid(s)
    ensures Valid(r.next)
    ensures r.next.responses[s.current].transcript == Trim(s.transcript)
    ensures forall j :: 0 <= j < |s.responses| && j != s.current ==> r.next.responses[j] == s.responses[j]
    ensures s.current < LastIndex ==>
      && r.next.current == s.current + 1
      && r.next.transcript == ""
      && r.emitted == None
    ensures s.current == LastIndex ==>
      && r.next.current == s.current
      && r.next.transcript == s.transcript
      && r.emitted == Some(r.next.responses)
  {
    var committed := CommitAt(s, s.transcript);
    if s.current < LastIndex then
      Step(State(s.current + 1, committed, ""), None)
    else
      Step(s.(responses := committed), Some(committed))
  }

  /** Whether the Next control is offered: the trimmed live transcript is non-empty. */
  predicate NextOffered(s: State) {
    Trim(s.transcript) != ""
  }

  /**
    The Next control (`handleNext`): nothing happens on a blank transcript,
    otherwise it is `Complete`. Whatever it hands to the parent therefore ends
    with a non-blank answer.
  */
  function Next(s: State): (r: Step)
    requires Valid(s)
    ensures !NextOffered(s) ==> r == Step(s, None)
    ensures NextOffered(s) ==> r == Complete(s)
    ensures r.emitted.Some? ==> |r.emitted.value| == |Stages| && r.emitted.value[LastIndex].transcript != ""
  {
    if Trim(s.transcript) != "" then Complete(s) else Step(s, None)
  }

  /** The Next control is offered exactly when pressing it changes something. */
  lemma NextOfferedIffEffective(s: State)
    requires Valid(s)
    ensures NextOffered(s) <==> Next(s) != Step(s, None)
  {
  }

  /** Width of the progress bar, in percent. */
  function Progress(s: State): (p: real)
    requires Valid(s)
    ensures 20.0 <= p <= 100.0
    ensures p == (s.current + 1) as real * 20.0
    ensures p == 100.0 <==> s.current == LastIndex
  {
    ((s.current + 1) as real / |Stages| as real) * 100.0
  }

  /** Caption of the Next control. */
  function NextLabel(s: State): (caption: string)
    requires Valid(s)
    ensures caption == "Complete Assessment" <==> s.current == LastIndex
    ensures caption != "Complete Assessment" ==> caption == "Next Question"
  {
    if s.current < LastIndex then "Next Question" else "Complete Assessment"
  }

  /** What can happen on the assessment screen. */
  datatype Input =
    | Heard(text: string)   // the recogniser reports a transcript
    | Stopped               // the recogniser's stop button
    | NextPressed           // the Next control

  function Apply(s: State, input: Input): (r: Step)
    requires Valid(s)
    ensures Valid(r.next)
  {
    match input
    case Heard(text) => Step(OnTranscript(s, text), None)
    case Stopped => Complete(s)
    case NextPressed => Next(s)
  }

  /** The final state after a run of inputs and every list handed to the parent, in order. */
  function Run(s: State, inputs: seq<Input>): (r: (State, seq<seq<UserResponse>>))
    requires Valid(s)
    ensures Valid(r.0)
    decreases |inputs|
  {
    if inputs == [] then (s, [])
    else
      var step := Apply(s, inputs[0]);
      var rest := Run(step.next, inputs[1..]);
      (rest.0, (if step.emitted.Some? then [step.emitted.value] else []) + rest.1)
  }

  /** No backward navigation: the prompt index never decreases over a run. */
  lemma {:induction false} RunNeverGoesBack(s: State, inputs: seq<Input>)
    requires Valid(s)
    ensures Run(s, inputs).0.current >= s.current
    decreases |inputs|
  {
    if inputs != [] {
      RunNeverGoesBack(Apply(s, inputs[0]).next, inputs[1..]);
    }
  }

  /** A committed answer is frozen: entries before the current prompt never change again. */
  lemma {:induction false} RunKeepsCommittedAnswers(s: State, inputs: seq<Input>, j: nat)
    requires Valid(s) && j < s.current
    ensures Run(s, inputs).0.responses[j] == s.responses[j]
    decreases |inputs|
  {
    if inputs != [] {
      var next := Apply(s, inputs[0]).next;
      assert next.responses[j] == s.responses[j];
      RunKeepsCommittedAnswers(next, inputs[1..], j);
    }
  }

  /** Every list handed to the parent has one entry per prompt, labelled in prompt order. */
  lemma {:induction false} RunEmitsWellFormedLists(s: State, inputs: seq<Input>)
    requires Valid(s)
    ensures forall k :: 0 <= k < |Run(s, inputs).1| ==>
      var list := Run(s, inputs).1[k];
      |list| == |Stages| && forall i :: 0 <= i < |Stages| ==> list[i].stage == Stages[i].name
    decreases |inputs|
  {
    if inputs != [] {
      var step := Apply(s, inputs[0]);
      RunEmitsWellFormedLists(step.next, inputs[1..]);
    }
  }

  /** The inputs of a user who speaks each remaining answer and presses Next after it. */
  function AnswerScript(answers: seq<string>): seq<Input>
  {
    if answers == [] then [] else [Heard(answers[0]), NextPressed] + AnswerScript(answers[1..])
  }

  /** The list that answering the remaining prompts with `answers` should produce. */
  function Answered(s: State, answers: seq<string>): seq<UserResponse>
    requires Valid(s) && |answers| == |Stages| - s.current
  {
    seq(|Stages|, i requires 0 <= i < |Stages| =>
      if i < s.current then s.responses[i]
      else UserResponse(Stages[i].name, Trim(answers[i - s.current])))
  }

  /** A run is its first step followed by the run of the remaining inputs. */
  lemma RunCons(s: State, input: Input, rest: seq<Input>)
    requires Valid(s)
    ensures var step := Apply(s, input);
      Run(s, [input] + rest)
        == (Run(step.next, rest).0,
            (if step.emitted.Some? then [step.emitted.value] else []) + Run(step.next, rest).1)
  {
    assert ([input] + rest)[0] == input;
    assert ([input] + rest)[1..] == rest;
  }

  /** A transcript from the recogniser never hands anything to the parent. */
  lemma RunHeard(s: State, answer: string, rest: seq<Input>)
    requires Valid(s)
    ensures Run(s, [Heard(answer)] + rest) == Run(OnTranscript(s, answer), rest)
  {
    var heard := OnTranscript(s, answer);
    RunCons(s, Heard(answer), rest);
    assert Apply(s, Heard(answer)) == Step(heard, None);
    var t := Run(heard, rest);
    assert Run(s, [Heard(answer)] + rest) == (t.0, [] + t.1);
    assert [] + t.1 == t.1;
  }

  /** One spoken answer followed by Next, then the rest of the run. */
  lemma RunAnswerThenNext(s: State, answer: string, rest: seq<Input>)
    requires Valid(s)
    ensures var step := Next(OnTranscript(s, answer));
      Run(s, [Heard(answer), NextPressed] + rest)
        == (Run(step.next, rest).0,
            (if step.emitted.Some? then [step.emitted.value] else []) + Run(step.next, rest).1)
  {
    var heard := OnTranscript(s, answer);
    assert [Heard(answer), NextPressed] + rest == [Heard(answer)] + ([NextPressed] + rest);
    RunHeard(s, answer, [NextPressed] + rest);
    assert Apply(heard, NextPressed) == Next(heard);
    RunCons(heard, NextPressed, rest);
  }

  /** Answering a prompt that is not the last commits the answer and moves to the next prompt. */
  lemma NextAfterAnswer(s: State, answer: string)
    requires Valid(s) && s.current < LastIndex
    requires Trim(answer) != ""
    ensures var next := Next(OnTranscript(s, answer)).next;
      && Valid(next)
      && next.current == s.current + 1
      && next.responses[s.current] == UserResponse(Stages[s.current].name, Trim(answer))
      && forall j :: 0 <= j < s.current ==> next.responses[j] == s.responses[j]
  {
    var heard := OnTranscript(s, answer);
    assert NextOffered(heard);
  }

  /** The expected list is the same from two states one prompt apart that agree on the answers so far. */
  lemma AnsweredShift(s: State, next: State, answers: seq<string>)
    requires Valid(s) && Valid(next) && |answers| == |Stages| - s.current
    requires next.current == s.current + 1
    requires next.responses[s.current] == UserResponse(Stages[s.current].name, Trim(answers[0]))
    requires forall j :: 0 <= j < s.current ==> next.responses[j] == s.responses[j]
    ensures |answers[1..]| == |Stages| - next.current
    ensures Answered(next, answers[1..]) == Answered(s, answers)
  {
    var a := Answered(next, answers[1..]);
    var b := Answered(s, answers);
    forall i | 0 <= i < |a| ensures a[i] == b[i] {
      if i > s.current {
        assert answers[1..][i - next.current] == answers[i - s.current];
      }
    }
  }

  /** Moving one prompt forward with a committed answer leaves the expected list unchanged. */
  lemma AnsweredAfterCommit(s: State, answers: seq<string>)
    requires Valid(s) && s.current < LastIndex && |answers| == |Stages| - s.current
    requires Trim(answers[0]) != ""
    ensures var next := Next(OnTranscript(s, answers[0])).next;
      Valid(next) && |answers[1..]| == |Stages| - next.current
      && Answered(next, answers[1..]) == Answered(s, answers)
  {
    NextAfterAnswer(s, answers[0]);
    AnsweredShift(s, Next(OnTranscript(s, answers[0])).next, answers);
  }

  /** Answering the last prompt commits exactly the expected list. */
  lemma AnsweredAtLast(s: State, answers: seq<string>)
    requires Valid(s) && s.current == LastIndex && |answers| == 1
    requires Trim(answers[0]) != ""
    ensures Next(OnTranscript(s, answers[0])).next.responses == Answered(s, answers)
  {
    var a := Next(OnTranscript(s, answers[0])).next.responses;
    var b := Answered(s, answers);
    assert |a| == |b|;
    forall i | 0 <= i < |a| ensures a[i] == b[i] {
      if i < s.current {
        assert a[i] == s.responses[i];
      }
    }
  }

  /**
    Answering every remaining prompt with a non-blank answer and pressing Next
    after each hands the parent exactly one list: the earlier answers followed
    by the new ones, trimmed, in prompt order.
  */
  lemma {:induction false} AnsweringEveryPromptEmitsOnce(s: State, answers: seq<string>)
    requires Valid(s) && |answers| == |Stages| - s.current
    requires forall i :: 0 <= i < |answers| ==> Trim(answers[i]) != ""
    ensures Run(s, AnswerScript(answers)).1 == [Answered(s, answers)]
    decreases |answers|
  {
    var step := Next(OnTranscript(s, answers[0]));
    var rest := AnswerScript(answers[1..]);
    assert AnswerScript(answers) == [Heard(answers[0]), NextPressed] + rest;
    RunAnswerThenNext(s, answers[0], rest);
    if s.current == LastIndex {
      assert answers[1..] == [];
      AnsweredAtLast(s, answers);
    } else {
      AnsweredAfterCommit(s, answers);
      assert forall i :: 0 <= i < |answers[1..]| ==> Trim(answers[1..][i]) != "" by {
        forall i | 0 <= i < |answers[1..]| ensures Trim(answers[1..][i]) != "" {
          assert answers[1..][i] == answers[i + 1];
        }
      }
      AnsweringEveryPromptEmitsOnce(step.next, answers[1..]);
    }
  }

  /**
    The stop button reaches `Complete` without the blank check of `Next`:
    stopping five times from the start hands the parent five empty answers.
  */
  lemma StopPathHasNoBlankGuard()
    ensures var r := Run(Init(), [Stopped, Stopped, Stopped, Stopped, Stopped]);
      && |r.1| == 1 && |r.1[0]| == |Stages|
      && forall i :: 0 <= i < |r.1[0]| ==> r.1[0][i].transcript == ""
  {
    var s0 := Init();
    var s1 := Complete(s0).next;
    var s2 := Complete(s1).next;
    var s3 := Complete(s2).next;
    var s4 := Complete(s3).next;
    assert Trim("") == "";
    assert s4.transcript == "";
  }
}
