/**
  The recognition session controller. The browser's recogniser is an oracle:
  its callbacks (start, result, error, end) arrive as events, and the calls the
  component makes on it or on its parent are returned as effects.
*/
module SpeechSession {
  import opened Wrappers

  /** One entry of the recogniser's result list: its best alternative and whether it is final. */
  datatype Recognized = Recognized(transcript: string, isFinal: bool)

  /** The results from `resultIndex` on: the only ones a result event looks at. */
  function Window(results: seq<Recognized>, resultIndex: nat): seq<Recognized>
  {
    if resultIndex <= |results| then results[resultIndex..] else []
  }

  /** The final results' texts, each followed by one space, in order. */
  function FinalText(rs: seq<Recognized>): string
  {
    if rs == [] then ""
    else (if rs[0].isFinal then rs[0].transcript + " " else "") + FinalText(rs[1..])
  }

  /** The interim results' texts concatenated, in order. */
  function InterimText(rs: seq<Recognized>): string
  {
    if rs == [] then ""
    else (if rs[0].isFinal then "" else rs[0].transcript) + InterimText(rs[1..])
  }

  lemma {:induction false} FinalTextSnoc(rs: seq<Recognized>, r: Recognized)
    ensures FinalText(rs + [r]) == FinalText(rs) + (if r.isFinal then r.transcript + " " else "")
    decreases |rs|
  {
    if rs == [] {
      assert [] + [r] == [r];
    } else {
      assert (rs + [r])[1..] == rs[1..] + [r];
      FinalTextSnoc(rs[1..], r);
    }
  }

  lemma {:induction false} InterimTextSnoc(rs: seq<Recognized>, r: Recognized)
    ensures InterimText(rs + [r]) == InterimText(rs) + (if r.isFinal then "" else r.transcript)
    decreases |rs|
  {
    if rs == [] {
      assert [] + [r] == [r];
    } else {
      assert (rs + [r])[1..] == rs[1..] + [r];
      InterimTextSnoc(rs[1..], r);
    }
  }

  /**
    The transcript assembled by one result event: the loop over the results
    from `resultIndex` on, collecting finals (each with a trailing space) and
    interims separately, then finals followed by interims. Results before
    `resultIndex` play no part.
  */
  method AssembleTranscript(results: seq<Recognized>, resultIndex: nat) returns (full: string)
    ensures full == FinalText(Window(results, resultIndex)) + InterimText(Window(results, resultIndex))
  {
    var interim := "";
    var final := "";
    var i := resultIndex;
    while i < |results|
      invariant resultIndex <= |results| ==> resultIndex <= i <= |results|
      invariant resultIndex > |results| ==> i == resultIndex
      invariant final == FinalText(if resultIndex <= |results| then results[resultIndex..i] else [])
      invariant interim == InterimText(if resultIndex <= |results| then results[resultIndex..i] else [])
      decreases |results| - i
    {
      var r := results[i];
      assert results[resultIndex..i + 1] == results[resultIndex..i] + [r];
      FinalTextSnoc(results[resultIndex..i], r);
      InterimTextSnoc(results[resultIndex..i], r);
      if r.isFinal {
        final := final + r.transcript + " ";
      } else {
        interim := interim + r.transcript;
      }
      i := i + 1;
    }
    if resultIndex <= |results| {
      assert results[resultIndex..i] == results[resultIndex..];
    }
    full := final + interim;
  }

  /** The same assembly as a function, for reasoning about sessions. */
  function Assemble(results: seq<Recognized>, resultIndex: nat): string
  {
    FinalText(Window(results, resultIndex)) + InterimText(Window(results, resultIndex))
  }

  /** Without final results nothing is added: the transcript is the interims, concatenated. */
  lemma {:induction false} NoFinalsMeansNoSpaces(rs: seq<Recognized>)
    requires forall i :: 0 <= i < |rs| ==> !rs[i].isFinal
    ensures FinalText(rs) == ""
    ensures FinalText(rs) + InterimText(rs) == InterimText(rs)
    decreases |rs|
  {
    if rs != [] {
      NoFinalsMeansNoSpaces(rs[1..]);
    }
  }

  /** Number of final results. */
  function FinalCount(rs: seq<Recognized>): nat
  {
    if rs == [] then 0 else (if rs[0].isFinal then 1 else 0) + FinalCount(rs[1..])
  }

  /** Sum of the texts' lengths. */
  function TextLength(rs: seq<Recognized>): nat
  {
    if rs == [] then 0 else |rs[0].transcript| + TextLength(rs[1..])
  }

  /**
    Assembly loses no text and adds nothing but one space per final result:
    its length is the texts' lengths plus the number of finals.
  */
  lemma {:induction false} AssembledLength(rs: seq<Recognized>)
    ensures |FinalText(rs) + InterimText(rs)| == TextLength(rs) + FinalCount(rs)
    decreases |rs|
  {
    if rs != [] {
      AssembledLength(rs[1..]);
    }
  }

  /** The browser-side state of the component. */
  datatype Session = Session(
    hasRecognizer: bool,      // a recogniser was created (the browser supports the API)
    listening: bool,
    transcript: string,
    error: Option<string>)

  /** Calls the component makes on the recogniser or on its parent. */
  datatype Effect =
    | CallStart                    // recognition.start()
    | CallStop                     // recognition.stop()
    | SignalTranscript(text: string)   // onTranscript(text)
    | SignalComplete               // onComplete()

  const UnsupportedMessage := "Speech recognition is not supported in this browser. Please use Chrome or Edge."
  const StartFailedMessage := "Failed to start speech recognition. Please try again."
  const NoSpeechMessage := "No speech detected. Please try again."
  const NoMicrophoneMessage := "No microphone found. Please check your microphone settings."
  const PermissionDeniedMessage := "Microphone permission denied. Please allow microphone access."
  const GenericErrorPrefix := "Speech recognition error: "

  /** The component after mounting, on a browser with or without the speech API. */
  function Mount(supported: bool): (s: Session)
    ensures s.hasRecognizer == supported
    ensures !s.listening && s.transcript == ""
    ensures !supported <==> s.error == Some(UnsupportedMessage)
    ensures supported ==> s.error == None
  {
    if supported then Session(true, false, "", None)
    else Session(false, false, "", Some(UnsupportedMessage))
  }

  /**
    The start button. It acts only when a recogniser exists and is not
    listening: transcript and error are cleared and the recogniser is started;
    if starting throws (`startThrows`, decided by the browser) the start
    failure message is shown. Listening only begins with the start callback.
  */
  function StartListening(s: Session, startThrows: bool): (r: (Session, seq<Effect>))
    ensures !(s.hasRecognizer && !s.listening) ==> r == (s, [])
    ensures s.hasRecognizer && !s.listening ==>
      && r.1 == [CallStart]
      && r.0.transcript == ""
      && r.0.listening == s.listening && r.0.hasRecognizer
      && r.0.error == (if startThrows then Some(StartFailedMessage) else None)
  {
    if s.hasRecognizer && !s.listening then
      var cleared := s.(transcript := "", error := None);
      if startThrows then (cleared.(error := Some(StartFailedMessage)), [CallStart])
      else (cleared, [CallStart])
    else (s, [])
  }

  /**
    The stop button. It acts only while listening: the recogniser is stopped,
    listening ends and the parent is told the prompt is complete, exactly once.
  */
  function StopListening(s: Session): (r: (Session, seq<Effect>))
    ensures !(s.hasRecognizer && s.listening) ==> r == (s, [])
    ensures s.hasRecognizer && s.listening ==>
      && r.0 == s.(listening := false)
      && r.1 == [CallStop, SignalComplete]
  {
    if s.hasRecognizer && s.listening then (s.(listening := false), [CallStop, SignalComplete])
    else (s, [])
  }

  /** The start callback: listening begins and any error is cleared. */
  function OnStart(s: Session): (r: Session)
    ensures r.listening && r.error == None
    ensures r.transcript == s.transcript && r.hasRecognizer == s.hasRecognizer
  {
    s.(listening := true, error := None)
  }

  /** The result callback: the assembled transcript is shown and passed to the parent. */
  function OnResult(s: Session, results: seq<Recognized>, resultIndex: nat): (r: (Session, seq<Effect>))
    ensures r.0 == s.(transcript := Assemble(results, resultIndex))
    ensures r.1 == [SignalTranscript(r.0.transcript)]
  {
    var full := Assemble(results, resultIndex);
    (s.(transcript := full), [SignalTranscript(full)])
  }

  /** The message shown for a recogniser error code. */
  function ErrorMessage(code: string): (m: string)
    ensures code == "no-speech" ==> m == NoSpeechMessage
    ensures code == "audio-capture" ==> m == NoMicrophoneMessage
    ensures code == "not-allowed" ==> m == PermissionDeniedMessage
    ensures code !in {"no-speech", "audio-capture", "not-allowed"} ==>
      && |m| == |GenericErrorPrefix| + |code|
      && m[..|GenericErrorPrefix|] == GenericErrorPrefix
      && m[|GenericErrorPrefix|..] == code
  {
    if code == "no-speech" then NoSpeechMessage
    else if code == "audio-capture" then NoMicrophoneMessage
    else if code == "not-allowed" then PermissionDeniedMessage
    else GenericErrorPrefix + code
  }

  /**
    The error callback: every error, `no-speech` included, is shown and ends
    listening. Nothing is restarted.
  */
  function OnError(s: Session, code: string): (r: Session)
    ensures !r.listening
    ensures r.error == Some(ErrorMessage(code))
    ensures r.transcript == s.transcript && r.hasRecognizer == s.hasRecognizer
  {
    s.(error := Some(ErrorMessage(code)), listening := false)
  }

  /** The end callback: listening ends. The recogniser is not restarted. */
  function OnEnd(s: Session): (r: Session)
    ensures !r.listening
    ensures r.error == s.error && r.transcript == s.transcript && r.hasRecognizer == s.hasRecognizer
  {
    s.(listening := false)
  }

  /** What can happen to the component: a button press or a recogniser callback. */
  datatype Event =
    | StartPressed(startThrows: bool)
    | StopPressed
    | Started
    | Results(results: seq<Recognized>, resultIndex: nat)
    | Failed(code: string)
    | Ended

  /** Only a recogniser fires callbacks; the buttons are the user's. */
  predicate IsButton(e: Event) {
    e.StartPressed? || e.StopPressed?
  }

  function Step(s: Session, e: Event): (Session, seq<Effect>)
  {
    match e
    case StartPressed(t) => StartListening(s, t)
    case StopPressed => StopListening(s)
    case Started => (OnStart(s), [])
    case Results(rs, k) => OnResult(s, rs, k)
    case Failed(code) => (OnError(s, code), [])
    case Ended => (OnEnd(s), [])
  }

  /** The final session and every effect, in order, after a run of events. */
  function Run(s: Session, events: seq<Event>): (Session, seq<Effect>)
    decreases |events|
  {
    if events == [] then (s, [])
    else
      var first := Step(s, events[0]);
      var rest := Run(first.0, events[1..]);
      (rest.0, first.1 + rest.1)
  }

  /** Occurrences of one effect. */
  function CountEffect(effects: seq<Effect>, e: Effect): nat
  {
    multiset(effects)[e]
  }

  /** Occurrences of presses of the start button. */
  function StartPresses(events: seq<Event>): nat
  {
    if events == [] then 0 else (if events[0].StartPressed? then 1 else 0) + StartPresses(events[1..])
  }

  /** Occurrences of presses of the stop button. */
  function StopPresses(events: seq<Event>): nat
  {
    if events == [] then 0 else (if events[0].StopPressed? then 1 else 0) + StopPresses(events[1..])
  }

  /**
    Recognition is never restarted behind the user's back: every start of the
    recogniser comes from a press of the start button, and every completion
    signal from a press of the stop button. End and error callbacks start nothing.
  */
  lemma {:induction false} EffectsComeFromButtons(s: Session, events: seq<Event>)
    ensures CountEffect(Run(s, events).1, CallStart) <= StartPresses(events)
    ensures CountEffect(Run(s, events).1, SignalComplete) <= StopPresses(events)
    decreases |events|
  {
    if events != [] {
      var first := Step(s, events[0]);
      EffectsComeFromButtons(first.0, events[1..]);
      assert multiset(first.1 + Run(first.0, events[1..]).1)
        == multiset(first.1) + multiset(Run(first.0, events[1..]).1);
    }
  }

  /**
    On a browser without the speech API no recogniser exists, so the buttons
    do nothing: the unsupported message stays and no effect is ever produced.
  */
  lemma {:induction false} UnsupportedBrowserIsInert(events: seq<Event>)
    requires forall i :: 0 <= i < |events| ==> IsButton(events[i])
    ensures Run(Mount(false), events) == (Mount(false), [])
    decreases |events|
  {
    if events != [] {
      assert Step(Mount(false), events[0]) == (Mount(false), []);
      assert forall i :: 0 <= i < |events[1..]| ==> IsButton(events[1..][i]) by {
        forall i | 0 <= i < |events[1..]| ensures IsButton(events[1..][i]) {
          assert events[1..][i] == events[i + 1];
        }
      }
      UnsupportedBrowserIsInert(events[1..]);
      var first := Step(Mount(false), events[0]);
      var rest := Run(first.0, events[1..]);
      assert rest == (Mount(false), []);
      assert Run(Mount(false), events) == (rest.0, first.1 + rest.1);
      assert first.1 + rest.1 == [];
    }
  }

  /** Stop wins: once stopped, only the start button or a start callback resumes listening. */
  lemma {:induction false} StoppedStaysStopped(s: Session, events: seq<Event>)
    requires !s.listening
    requires forall i :: 0 <= i < |events| ==> !events[i].StartPressed? && !events[i].Started?
    ensures !Run(s, events).0.listening
    ensures CountEffect(Run(s, events).1, SignalComplete) == 0
    decreases |events|
  {
    if events != [] {
      var first := Step(s, events[0]);
      assert !first.0.listening && SignalComplete !in first.1;
      assert forall i :: 0 <= i < |events[1..]| ==> !events[1..][i].StartPressed? && !events[1..][i].Started? by {
        forall i | 0 <= i < |events[1..]|
          ensures !events[1..][i].StartPressed? && !events[1..][i].Started?
        {
          assert events[1..][i] == events[i + 1];
        }
      }
      StoppedStaysStopped(first.0, events[1..]);
      assert multiset(first.1 + Run(first.0, events[1..]).1)
        == multiset(first.1) + multiset(Run(first.0, events[1..]).1);
    }
  }
}
