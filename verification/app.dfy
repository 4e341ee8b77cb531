/**
  The top-level screen-state machine: which screen is shown, the stored
  analysis, whether an analysis is running and the error banner. Each
  handler is one transition on an explicit state record; the analysis call
  and the build-time API key are parameters.
*/
module AppFlow {
  import opened Wrappers
  import opened Types
  import AiAnalysis

  /** The application's state: `appState`, `analysisResult`, `isAnalyzing` and `error`. */
  datatype App = App(screen: AppState, result: Option<AnalysisResult>, analyzing: bool, error: Option<string>)

  /** The state on first render. */
  function Init(): (a: App)
    ensures a.screen == HomeScreen && a.result == None && !a.analyzing && a.error == None
  {
    App(HomeScreen, None, false, None)
  }

  /** `handleStartAssessment`: show the assessment and clear the error. */
  function Start(a: App): (b: App)
    ensures b.screen == AssessmentScreen && b.error == None
    ensures b.result == a.result && b.analyzing == a.analyzing
  {
    a.(screen := AssessmentScreen, error := None)
  }

  /** The banner's dismiss button: clear the error and nothing else. */
  function Dismiss(a: App): (b: App)
    ensures b.error == None
    ensures b.screen == a.screen && b.result == a.result && b.analyzing == a.analyzing
  {
    a.(error := None)
  }

  /** `handleRestart`: back home, forgetting the result and the error. */
  function Restart(a: App): (b: App)
    ensures b.screen == HomeScreen && b.result == None && b.error == None
    ensures b.analyzing == a.analyzing
  {
    a.(screen := HomeScreen, result := None, error := None)
  }

  /** What a failed analysis threw: an `Error` with its message, or some other value. */
  datatype Thrown = ErrorObject(message: string) | OtherValue

  const MissingKeyMessage := "Gemini API key not found. Please set VITE_GEMINI_API_KEY in your .env file."
  const DefaultMessage := "Failed to analyze responses"

  /** The text shown for what was thrown. */
  function Message(t: Thrown): (m: string)
    ensures t.ErrorObject? ==> m == t.message
    ensures t.OtherValue? ==> m == DefaultMessage
  {
    match t
    case ErrorObject(message) => message
    case OtherValue => DefaultMessage
  }

  /** The key counts as present when it is set and not the empty string. */
  predicate KeyPresent(apiKey: Option<string>)
  {
    apiKey.Some? && apiKey.value != ""
  }

  /** The analysis call: responses and key in, what it parsed or what it threw out. */
  type Analyzer = (seq<UserResponse>, string) -> Result<Parsed, Thrown>

  /**
    One completed assessment: the state while the analysis runs, the state
    once it has settled, and whether the analysis was called at all.
  */
  datatype Completion = Completion(during: App, after: App, analyzerCalled: bool)

  /** What the application stores for a parsed reply: a falsy value is stored as no result. */
  function Stored(p: Parsed): (r: Option<AnalysisResult>)
    ensures r.Some? <==> p.Record?
    ensures p.Record? ==> r.value == p.result
  {
    match p
    case Falsy => None
    case Record(result) => Some(result)
  }

  /**
    `handleAssessmentComplete`. A successful analysis always switches to the
    result screen, whatever it returned; a falsy return is stored as no result.
  */
  function Complete(a: App, responses: seq<UserResponse>, apiKey: Option<string>, analyze: Analyzer): (c: Completion)
    ensures c.during.analyzing && c.during.error == None
    ensures c.during.screen == a.screen && c.during.result == a.result
    ensures !c.after.analyzing
    ensures c.analyzerCalled <==> KeyPresent(apiKey)
    ensures !KeyPresent(apiKey) ==>
      c.after == a.(analyzing := false, error := Some(MissingKeyMessage))
    ensures KeyPresent(apiKey) && analyze(responses, apiKey.value).Success? ==>
      && c.after.screen == ResultScreen
      && c.after.error == None
      && (c.after.result.Some? <==> analyze(responses, apiKey.value).value.Record?)
      && (c.after.result.Some? ==> c.after.result.value == analyze(responses, apiKey.value).value.result)
    ensures KeyPresent(apiKey) && analyze(responses, apiKey.value).Failure? ==>
      && c.after.screen == a.screen && c.after.result == a.result
      && c.after.error == Some(Message(analyze(responses, apiKey.value).error))
  {
    var during := a.(analyzing := true, error := None);
    if !KeyPresent(apiKey) then
      Completion(during, during.(analyzing := false, error := Some(Message(ErrorObject(MissingKeyMessage)))), false)
    else
      match analyze(responses, apiKey.value)
      case Success(p) => Completion(during, during.(result := Stored(p), screen := ResultScreen, analyzing := false), true)
      case Failure(t) => Completion(during, during.(error := Some(Message(t)), analyzing := false), true)
  }

  /** What the main area shows. */
  datatype Screen = HomeView | AssessmentView | AnalyzingOverlay | ResultView(result: AnalysisResult) | Blank

  /** A rendered frame: the main area and the error banner, if shown. */
  datatype View = View(main: Screen, banner: Option<string>)

  /** The render function. */
  function Render(a: App): (v: View)
    ensures v.main == HomeView <==> a.screen == HomeScreen
    ensures v.main == AssessmentView <==> a.screen == AssessmentScreen && !a.analyzing
    ensures v.main == AnalyzingOverlay <==> a.screen == AssessmentScreen && a.analyzing
    ensures v.main.ResultView? <==> a.screen == ResultScreen && a.result.Some?
    ensures v.main.ResultView? ==> a.result == Some(v.main.result)
    ensures v.banner.Some? <==> a.error.Some? && a.error.value != ""
    ensures v.banner.Some? ==> a.error == Some(v.banner.value)
  {
    var main :=
      match a.screen
      case HomeScreen => HomeView
      case AssessmentScreen => if a.analyzing then AnalyzingOverlay else AssessmentView
      case ResultScreen => if a.result.Some? then ResultView(a.result.value) else Blank;
    var banner := if a.error.Some? && a.error.value != "" then a.error else None;
    View(main, banner)
  }

  /** A user action or a settled analysis. */
  datatype Event =
    | StartPressed
    | Completed(responses: seq<UserResponse>, apiKey: Option<string>)
    | RestartPressed
    | DismissPressed

  /**
    Whether the rendered frame offers the control behind an event: the home
    screen's start button, the assessment itself, the result screen's restart
    button, or the banner's dismiss button.
  */
  predicate Offered(v: View, e: Event)
  {
    match e
    case StartPressed => v.main == HomeView
    case Completed(_, _) => v.main == AssessmentView
    case RestartPressed => v.main.ResultView?
    case DismissPressed => v.banner.Some?
  }

  /** The state after an event has been handled (an analysis has settled). */
  function Handle(a: App, e: Event, analyze: Analyzer): (b: App)
    ensures e.Completed? ==> !b.analyzing
    ensures !e.Completed? ==> b.analyzing == a.analyzing
  {
    match e
    case StartPressed => Start(a)
    case Completed(responses, apiKey) => Complete(a, responses, apiKey, analyze).after
    case RestartPressed => Restart(a)
    case DismissPressed => Dismiss(a)
  }

  /** Handles events in order. */
  function Run(a: App, events: seq<Event>, analyze: Analyzer): App
    decreases |events|
  {
    if events == [] then a else Run(Handle(a, events[0], analyze), events[1..], analyze)
  }

  /** A completed assessment whose analysis returned a falsy value. */
  predicate FalsyAccepted(e: Event, analyze: Analyzer)
  {
    && e.Completed? && KeyPresent(e.apiKey)
    && analyze(e.responses, e.apiKey.value) == Success(Falsy)
  }

  /** Between events: no analysis is running and the result screen always has a result. */
  predicate Settled(a: App)
  {
    !a.analyzing && (a.screen == ResultScreen ==> a.result.Some?)
  }

  /**
    From a settled state, every event but one settles again. The exception is a
    completed analysis that returned a falsy value: it switches to the result
    screen with nothing to show, so the main area goes blank.
  */
  lemma HandleKeepsSettled(a: App, e: Event, analyze: Analyzer)
    requires Settled(a)
    ensures !FalsyAccepted(e, analyze) ==> Settled(Handle(a, e, analyze))
    ensures FalsyAccepted(e, analyze) ==> !Handle(a, e, analyze).analyzing && Render(Handle(a, e, analyze)).main == Blank
  {
  }

  /** The same over a run: it stays settled as long as no analysis returns a falsy value. */
  lemma {:induction false} RunKeepsSettled(a: App, events: seq<Event>, analyze: Analyzer)
    requires Settled(a)
    ensures !Run(a, events, analyze).analyzing
    ensures (forall i :: 0 <= i < |events| ==> !FalsyAccepted(events[i], analyze)) ==> Settled(Run(a, events, analyze))
    decreases |events|
  {
    if events != [] {
      var b := Handle(a, events[0], analyze);
      HandleKeepsSettled(a, events[0], analyze);
      if Settled(b) {
        RunKeepsSettled(b, events[1..], analyze);
        if forall i :: 0 <= i < |events| ==> !FalsyAccepted(events[i], analyze) {
          assert forall i :: 0 <= i < |events[1..]| ==> !FalsyAccepted(events[1..][i], analyze) by {
            forall i | 0 <= i < |events[1..]| ensures !FalsyAccepted(events[1..][i], analyze) {
              assert events[1..][i] == events[i + 1];
            }
          }
        }
      } else {
        assert FalsyAccepted(events[0], analyze);
        RunStaysIdle(b, events[1..], analyze);
      }
    }
  }

  /** Once no analysis is running, none is running after any further events. */
  lemma {:induction false} RunStaysIdle(a: App, events: seq<Event>, analyze: Analyzer)
    requires !a.analyzing
    ensures !Run(a, events, analyze).analyzing
    decreases |events|
  {
    if events != [] {
      RunStaysIdle(Handle(a, events[0], analyze), events[1..], analyze);
    }
  }

  /**
    From the first render the main area never shows the overlay once an
    analysis has settled, and it goes blank only if some analysis returned a
    falsy value.
  */
  lemma {:induction false} RunNeverBlank(events: seq<Event>, analyze: Analyzer)
    ensures Render(Run(Init(), events, analyze)).main != AnalyzingOverlay
    ensures Render(Run(Init(), events, analyze)).main == Blank ==>
      exists i :: 0 <= i < |events| && FalsyAccepted(events[i], analyze)
  {
    RunKeepsSettled(Init(), events, analyze);
  }

  /**
    A falsy analysis leaves the user stranded: the main area is blank, no
    banner is shown, and the frame offers the control of none of the
    application's handlers.
  */
  lemma FalsyReplyStrandsUser(a: App, responses: seq<UserResponse>, key: string, analyze: Analyzer)
    requires key != ""
    requires analyze(responses, key) == Success(Falsy)
    ensures var v := Render(Handle(a, Completed(responses, Some(key)), analyze));
      && v == View(Blank, None)
      && forall e: Event :: !Offered(v, e)
  {
  }

  /** The analysis module's outcome as the application sees it: its failure is an `Error`. */
  function AsThrown(r: Result<Parsed, string>): (t: Result<Parsed, Thrown>)
    ensures t.Success? <==> r.Success?
    ensures t.Success? ==> t.value == r.value
    ensures t.Failure? ==> t.error == ErrorObject(r.error)
  {
    match r
    case Success(v) => Success(v)
    case Failure(m) => Failure(ErrorObject(m))
  }

  /** The analysis call as the application makes it, wired to the analysis module. */
  function Wired(service: string -> AiAnalysis.Reply, parse: string -> Option<Parsed>): Analyzer
  {
    (rs, k) => AsThrown(AiAnalysis.Analyze(rs, service, parse))
  }

  /**
    Wired to the analysis module, a failed analysis leaves the screen and the
    stored result alone and shows that module's one failure message.
  */
  lemma FailedAnalysisShowsUniformMessage(
    a: App, responses: seq<UserResponse>, key: string,
    service: string -> AiAnalysis.Reply, parse: string -> Option<Parsed>)
    requires key != ""
    ensures AiAnalysis.Analyze(responses, service, parse).Failure? ==>
      var c := Complete(a, responses, Some(key), Wired(service, parse));
      && c.analyzerCalled
      && c.after.screen == a.screen && c.after.result == a.result
      && Render(c.after).banner == Some(AiAnalysis.FailureMessage)
  {
  }

  /** A service that answers every prompt with the text `null`. */
  function NullService(prompt: string): AiAnalysis.Reply
  {
    AiAnalysis.Replied(Some("null"))
  }

  /**
    Wired to the analysis module, a service answering `null`, which the parser
    reads as a falsy value, blanks the main area with no banner.
  */
  lemma NullReplyBlanksScreen(a: App, responses: seq<UserResponse>, key: string, parse: string -> Option<Parsed>)
    requires key != ""
    requires parse("null") == Some(Falsy)
    ensures Render(Handle(a, Completed(responses, Some(key)), Wired(NullService, parse))) == View(Blank, None)
  {
    var analyze := Wired(NullService, parse);
    assert analyze(responses, key) == Success(Falsy) by {
      AiAnalysis.NullReplyParsesFalsy(responses, NullService, parse);
    }
    FalsyReplyStrandsUser(a, responses, key, analyze);
  }
}
