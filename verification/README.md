# EchoMap core, modelled in Dafny

EchoMap is a single-page React application for English speaking practice. The
user answers five spoken prompts. The browser's speech recogniser turns each
answer into a transcript. The five answers go to a language-model service, and
its JSON reply is shown as a result screen. That screen can be exported as a PDF
roadmap.

This project models the core of that application as pure Dafny functions over
explicit state records. It then proves properties of the model.

| file | module | models |
|---|---|---|
| `wrappers.dfy` | `Wrappers` | `Option` and `Result` |
| `text.dfy` | `Text` | JavaScript `trim` (ECMAScript whitespace set), `join`, decimal rendering of integers |
| `types.dfy` | `Types` | the shared records: `UserResponse`, `AnalysisResult`, `RoadmapDay`, `AppState` |
| `assessment.dfy` | `AssessmentFlow` | the five-prompt sequencer of the assessment screen |
| `speech.dfy` | `SpeechSession` | the recognition session: buttons, recogniser callbacks, transcript assembly |
| `analysis.dfy` | `AiAnalysis` | prompt construction, code-fence cleaning, the uniform failure |
| `pdf.dfy` | `PdfExport` | the PDF layout, as a content plan and a page-placement fold; footers; file name |
| `app.dfy` | `AppFlow` | the top-level screen-state machine and its render decision |

How the model is shaped:

- Every React event handler is one transition function from state to state.
- Calls to a parent component or to the recogniser are returned as data: emitted lists and `Effect` values.
- These things are oracles passed in as parameters:
  - the recogniser's callbacks, which arrive as events;
  - the language-model service call;
  - `JSON.parse`;
  - the PDF library's text measurement;
  - the clock-derived date texts;
  - the page size.
- The PDF export is split in two:
  - a content plan, a list of page-break checks, drawn items and downward moves, built from the analysis result;
  - a fold that places the plan on pages with the page-break rule.
- The footers are a second pass over the final page count.

Where the application's own documentation and its code differ, the model
follows the code:

- **No automatic restart.** The recogniser is never restarted after its end or
  error callback, and a `no-speech` error is shown like any other.
- **No blank guard on stop.** The stop button completes a prompt without the
  blank-answer check that the Next control applies. `AssessmentFlow.StopPathHasNoBlankGuard`
  exhibits an assessment finished with five empty answers.
- **No shape check on the reply.** The reply is not validated beyond `JSON.parse`.
  The scores are walked in whatever order `Object.entries` yields, so they are
  modelled as an ordered list of entries; any order it can produce is such a list.
  A reply that parses to a falsy value that renders nothing (`null`, `false`, `""`)
  counts as a success: the application switches to the result screen with nothing stored,
  renders an empty main area and offers none of its controls
  (`AppFlow.FalsyReplyStrandsUser`, `AppFlow.NullReplyBlanksScreen`).
- **Earlier finals are dropped.** A result event only looks at results from
  `resultIndex` on. Final results before that index vanish from the displayed
  transcript.
- **The API key argument is ignored.** The analysis function overwrites it with
  the build-time key, so `AiAnalysis.Analyze` takes no key. The missing-key
  check lives in `AppFlow.Complete`.
- **An empty error hides the banner.** The banner is rendered under `error &&`,
  so an empty message is not shown.

## Model

| member | source | states |
|---|---|---|
| Text.Trim | src/components/Assessment.tsx:56 | the result has no whitespace at either end, and it is empty exactly when the input is all whitespace |
| Text.TrimIsInfix | src/utils/aiAnalysis.ts:87 | trim keeps one contiguous part of the input, with only whitespace before and after it |
| Text.TrimStripsExactlySurroundingSpace | src/utils/aiAnalysis.ts:87 | a trimmed core wrapped in whitespace on both sides trims to exactly that core |
| Text.TrimIdempotent | src/components/Assessment.tsx:81 | trimming twice is trimming once |
| Text.TrimIgnoresTrailingSpace | src/utils/aiAnalysis.ts:87 | whitespace appended to a text does not change its trim |
| Text.JoinConcat | src/utils/aiAnalysis.ts:21-23 | joining two non-empty lists puts exactly one separator between them |
| Text.JoinLength | src/utils/aiAnalysis.ts:21-23 | a join of n parts is the parts plus exactly n - 1 separators |
| Text.NatToString | src/utils/generatePDF.ts:141 | the decimal rendering is non-empty, all digits, and has no leading zero |
| Text.NatToStringRoundTrip | src/utils/generatePDF.ts:190 | reading the decimal rendering back gives the number |
| Text.IntToString | src/utils/generatePDF.ts:141-151 | the rendering is an optional '-' followed by a decimal without leading zeros, and starts with '-' exactly when the number is negative |
| Text.IntToStringRoundTrip | src/utils/generatePDF.ts:141-151 | reading the rendering back, sign included, gives the number |
| Text.Join | src/utils/aiAnalysis.ts:21-23 | no contract of its own; `Text.JoinConcat` and `Text.JoinLength` state what it does |
| AssessmentFlow.Init | src/components/Assessment.tsx:38-48 | after mounting: the first prompt, an empty transcript, and five empty answers labelled Daily Life, Descriptive, Opinion, Professional, Abstract |
| AssessmentFlow.OnTranscript | src/components/Assessment.tsx:50-59 | a new transcript replaces only the current prompt's answer, trimmed, and becomes the live transcript |
| AssessmentFlow.Complete | src/components/Assessment.tsx:61-78 | commits the trimmed live transcript to the current prompt only; before the last prompt it advances and clears the transcript; at the last prompt it hands over the committed list |
| AssessmentFlow.Next | src/components/Assessment.tsx:80-84 | does nothing on a blank transcript and is `Complete` otherwise; any list handed over ends with a non-blank answer |
| AssessmentFlow.NextOfferedIffEffective | src/components/Assessment.tsx:114-124 | the Next control is shown exactly when pressing it changes the state |
| AssessmentFlow.Progress | src/components/Assessment.tsx:86 | the bar is 20% per prompt reached, and is 100% exactly at the last prompt |
| AssessmentFlow.NextLabel | src/components/Assessment.tsx:120 | the caption is "Complete Assessment" exactly at the last prompt and "Next Question" otherwise |
| AssessmentFlow.Apply | src/components/Assessment.tsx:50-84 | every input keeps one entry per prompt, labelled by position |
| AssessmentFlow.RunNeverGoesBack | src/components/Assessment.tsx:71-73 | over any run of inputs the prompt index never decreases |
| AssessmentFlow.RunKeepsCommittedAnswers | src/components/Assessment.tsx:53-57 | answers to earlier prompts never change again |
| AssessmentFlow.RunEmitsWellFormedLists | src/components/Assessment.tsx:61-78 | every list handed to the parent has five entries in prompt order |
| AssessmentFlow.AnsweredAfterCommit | src/components/Assessment.tsx:63-73 | answering a prompt that is not the last and pressing Next leaves the list still expected from the remaining answers unchanged |
| AssessmentFlow.AnsweredAtLast | src/components/Assessment.tsx:74-77 | answering the last prompt commits exactly the earlier answers plus the new one, trimmed |
| AssessmentFlow.AnsweringEveryPromptEmitsOnce | src/components/Assessment.tsx:50-84 | speaking every remaining answer and pressing Next after each hands the parent exactly one list: the earlier answers followed by the new ones, trimmed, in order |
| AssessmentFlow.StopPathHasNoBlankGuard | src/components/SpeechRecognition.tsx:95-101 | pressing stop five times from the start hands the parent one list of five answers, every one of them empty |
| SpeechSession.AssembleTranscript | src/components/SpeechRecognition.tsx:37-53 | the loop from `resultIndex` on yields the finals, each followed by a space, and then the interims |
| SpeechSession.Assemble | src/components/SpeechRecognition.tsx:37-53 | no contract of its own; `SpeechSession.AssembleTranscript` is the loop it stands for, and `SpeechSession.AssembledLength` and `SpeechSession.NoFinalsMeansNoSpaces` state what it yields |
| SpeechSession.NoFinalsMeansNoSpaces | src/components/SpeechRecognition.tsx:41-50 | without final results the transcript is the interims concatenated, with nothing added |
| SpeechSession.AssembledLength | src/components/SpeechRecognition.tsx:41-50 | assembly loses no text and adds exactly one space per final result |
| SpeechSession.Mount | src/components/SpeechRecognition.tsx:17-24 | a recogniser exists exactly when the browser supports the API, and otherwise the unsupported message is shown |
| SpeechSession.StartListening | src/components/SpeechRecognition.tsx:82-93 | acts only with a recogniser that is not listening; it clears transcript and error and starts the recogniser; a throwing start shows the start-failure message |
| SpeechSession.StopListening | src/components/SpeechRecognition.tsx:95-101 | acts only while listening: stops the recogniser, ends listening, and signals completion once |
| SpeechSession.OnStart | src/components/SpeechRecognition.tsx:32-35 | listening begins and the error is cleared |
| SpeechSession.OnResult | src/components/SpeechRecognition.tsx:50-52 | the new session is the old one with only the transcript replaced by the assembled text (the recogniser and listening flag are untouched); that text is passed to the parent unchanged |
| SpeechSession.ErrorMessage | src/components/SpeechRecognition.tsx:57-65 | the three known codes map to their messages; any other code is prefixed with "Speech recognition error: " |
| SpeechSession.OnError | src/components/SpeechRecognition.tsx:55-67 | every error, `no-speech` included, is shown and ends listening |
| SpeechSession.OnEnd | src/components/SpeechRecognition.tsx:69-71 | listening ends and nothing else changes |
| SpeechSession.EffectsComeFromButtons | src/components/SpeechRecognition.tsx:69-101 | over any run, recogniser starts never outnumber start presses, and completion signals never outnumber stop presses |
| SpeechSession.UnsupportedBrowserIsInert | src/components/SpeechRecognition.tsx:19-24 | without the speech API, button presses change nothing and produce no effect |
| SpeechSession.StoppedStaysStopped | src/components/SpeechRecognition.tsx:95-101 | once stopped, no event other than a start resumes listening or signals completion |
| AiAnalysis.TranscriptBlock | src/utils/aiAnalysis.ts:21-23 | no contract of its own; `AiAnalysis.TranscriptBlockSnoc`, `AiAnalysis.TranscriptBlockLength`, `AiAnalysis.FiveAnswerBlock` and `AiAnalysis.TranscriptBlockIgnoresStage` state its layout |
| AiAnalysis.Prompt | src/utils/aiAnalysis.ts:18-75 | no contract: the fixed text around the transcript block |
| AiAnalysis.TranscriptBlockSnoc | src/utils/aiAnalysis.ts:21-23 | one more answer adds exactly a blank line and its labelled transcript at the end |
| AiAnalysis.TranscriptBlockLength | src/utils/aiAnalysis.ts:21-23 | the block holds the labelled lines plus exactly n - 1 blank-line separators |
| AiAnalysis.FiveAnswerBlock | src/utils/aiAnalysis.ts:4-23 | five answers give five lines labelled by position, separated by blank lines |
| AiAnalysis.TranscriptBlockIgnoresStage | src/utils/aiAnalysis.ts:21-22 | labels come from the position, never from an answer's own stage field |
| AiAnalysis.RemoveFences | src/utils/aiAnalysis.ts:87 | no contract of its own; `AiAnalysis.RemoveFencesLeavesNoFence` and `AiAnalysis.RemoveFencesOfFenceFree` state what it does |
| AiAnalysis.CleanReply | src/utils/aiAnalysis.ts:87 | no contract of its own; `AiAnalysis.CleanReplyIsClean`, `AiAnalysis.CleanReplyIdempotent`, `AiAnalysis.CleanReplyOfPlainText` and `AiAnalysis.CleanReplyOfFencedJson` state what it does |
| AiAnalysis.RemoveFencesLeavesNoFence | src/utils/aiAnalysis.ts:87 | after removing every "```", none is left, not even one formed across a removal |
| AiAnalysis.RemoveFencesOfFenceFree | src/utils/aiAnalysis.ts:87 | text with no "```" passes through fence removal unchanged |
| AiAnalysis.CleanReplyIsClean | src/utils/aiAnalysis.ts:87 | the cleaned reply has no "```" and no whitespace at either end |
| AiAnalysis.CleanReplyIdempotent | src/utils/aiAnalysis.ts:87 | cleaning a cleaned reply changes nothing |
| AiAnalysis.CleanReplyOfPlainText | src/utils/aiAnalysis.ts:87 | a reply without backticks is only trimmed |
| AiAnalysis.CleanReplyOfFencedJson | src/utils/aiAnalysis.ts:86-87 | a reply wrapped in a json code fence cleans to its trimmed content |
| AiAnalysis.Analyze | src/utils/aiAnalysis.ts:77-96 | succeeds exactly when the service replies and the cleaned text parses, and then returns what the parser produced, a falsy value included; every failure carries the one message "Failed to analyze responses. Please try again." |
| AiAnalysis.FencedReplyAnalysedLikePlain | src/utils/aiAnalysis.ts:84-89 | a fenced reply is analysed exactly like the same reply without the fence |
| AiAnalysis.NullCleansToItself | src/utils/aiAnalysis.ts:87 | the reply `null` passes the cleaning unchanged |
| AiAnalysis.NullReplyParsesFalsy | src/utils/aiAnalysis.ts:84-91 | a reply of `null` that the parser reads as a falsy value is returned as a success |
| PdfExport.WrappedHeight | src/utils/generatePDF.ts:23-28 | a wrapped block's height is its line count times the font size times 0.4; it is never negative, and is zero exactly when it has no lines |
| PdfExport.MistakeAdvance | src/utils/generatePDF.ts:114 | the advance after a mistake is the larger of its text height and 8 |
| PdfExport.BarFill | src/utils/generatePDF.ts:80-82 | the filled part is the score's percentage of the bar width (fill × 100 = score × width); for a score between 0 and 100 it lies within the bar; it is empty at 0 and full at 100 |
| PdfExport.UpperAscii | src/utils/generatePDF.ts:66 | lower-case ASCII letters become upper case; every other character is kept |
| PdfExport.ScoreLabel | src/utils/generatePDF.ts:66 | `lexicalRange` gets its fixed label; any other key keeps its length and has its first letter capitalised |
| PdfExport.ScoreLabelsOfRequestedKeys | src/utils/generatePDF.ts:66 | the three requested keys are labelled Syntax, Lexical Range and Fluidity |
| PdfExport.HeaderItems | src/utils/generatePDF.ts:30-52 | the title block draws the title, the subtitle and the date line, in that order |
| PdfExport.ScoreBlockItems | src/utils/generatePDF.ts:64-93 | one score draws its text line and then its bar |
| PdfExport.ScoreLinesInOrder | src/utils/generatePDF.ts:64-77 | the scores part draws one text line per entry, in the reply's order |
| PdfExport.ScoreItemKinds | src/utils/generatePDF.ts:64-93 | the scores part draws only text lines and bars |
| PdfExport.MistakeItems | src/utils/generatePDF.ts:106-115 | the mistakes part draws one bullet per mistake, in order, and nothing else |
| PdfExport.DayItems | src/utils/generatePDF.ts:130-170 | one day draws its badge, title, task, caption and explanation, in that order |
| PdfExport.DaysPuts | src/utils/generatePDF.ts:130-180 | the days part draws each day's items, with one separator between consecutive days |
| PdfExport.DayTitlesInOrder | src/utils/generatePDF.ts:130-151 | the days part draws every day's title, in list order |
| PdfExport.SeparatorsBetweenDays | src/utils/generatePDF.ts:172-179 | the days part draws one separator fewer than there are days |
| PdfExport.DaysDrawNoAnalytics | src/utils/generatePDF.ts:121-180 | the days part draws no heading, score line, bar or bullet |
| PdfExport.DayOps | src/utils/generatePDF.ts:130-170 | no contract of its own; `PdfExport.DayItems` states what it draws |
| PdfExport.DaysOps | src/utils/generatePDF.ts:130-180 | no contract of its own; `PdfExport.DaysPuts`, `PdfExport.DayTitlesInOrder` and `PdfExport.SeparatorsBetweenDays` state what it draws |
| PdfExport.RoadmapOps | src/utils/generatePDF.ts:121-180 | no contract of its own; `PdfExport.RoadmapInOrder` and `PdfExport.SectionHeadings` state what it draws |
| PdfExport.AnalyticsOps | src/utils/generatePDF.ts:54-119 | no contract of its own; `PdfExport.AnalyticsPuts` states what it draws |
| PdfExport.Content | src/utils/generatePDF.ts:30-180 | no contract of its own; `PdfExport.ContentPuts` states what it draws |
| PdfExport.ContentPuts | src/utils/generatePDF.ts:30-180 | the document is the title block, then the analytics part only when included, then the roadmap part |
| PdfExport.AnalyticsPuts | src/utils/generatePDF.ts:54-119 | the analytics part is its heading and the scores, then the mistakes heading and bullets only when there are mistakes |
| PdfExport.SectionHeadings | src/utils/generatePDF.ts:54-127 | the headings, in order: the scores heading, and the mistakes heading when there are mistakes, only with analytics; the roadmap heading always |
| PdfExport.ScoresInOrder | src/utils/generatePDF.ts:55-93 | the document's score lines are one per entry, in the reply's order, and appear only with analytics |
| PdfExport.MistakesInOrder | src/utils/generatePDF.ts:98-118 | the document's bullets are the mistakes, in order, and appear only with analytics |
| PdfExport.RoadmapInOrder | src/utils/generatePDF.ts:129-180 | every day's title appears in order, with one separator between consecutive days |
| PdfExport.CheckPageBreak | src/utils/generatePDF.ts:13-20 | a new page starts at the top margin exactly when the needed height would pass the bottom margin; a need that fits on a page then fits |
| PdfExport.Place | src/utils/generatePDF.ts:10-180 | placement draws exactly the planned items in order; pages never go back; every page break comes from a check |
| PdfExport.Step | src/utils/generatePDF.ts:13-20 | one instruction moves the cursor to a later page only when it is a check, and then by one page; drawing leaves the cursor where it is |
| PdfExport.PlaceOnOnePage | src/utils/generatePDF.ts:13-20 | a plan stays on its starting page exactly when no check along it finds the needed height past the bottom margin, and then the cursor ends lower by the sum of the plan's moves |
| PdfExport.PlaceBreakThenPut | src/utils/generatePDF.ts:13-20 | an item drawn after a check lands at the top margin of the next page when the need would pass the bottom margin, at the cursor otherwise, and a need that fits a page fits below it |
| PdfExport.PlaceAppend | src/utils/generatePDF.ts:10-180 | running two parts of the document in a row is running the second from the cursor (y and page) where the first ended, with the first part's items followed by the second's |
| PdfExport.PlaceCheckedItem | src/utils/generatePDF.ts:13-20 | an item drawn right after a check anywhere in the document lands at the top margin of the next page when the need would pass the bottom margin from where the earlier content ended, and at that cursor otherwise |
| PdfExport.Footers | src/utils/generatePDF.ts:182-195 | page i of n is labelled "EchoMap - Page i of n", 10 above the bottom, for every page |
| PdfExport.DatePart | src/utils/generatePDF.ts:198 | the date part is the longest prefix without a 'T', and is followed by a 'T' when one exists |
| PdfExport.DatePartOfTimestamp | src/utils/generatePDF.ts:198 | on an ISO timestamp the date part is the date |
| PdfExport.Filename | src/utils/generatePDF.ts:197-198 | the name is "EchoMap-roadmap-", the date part, then ".pdf" |
| PdfExport.Export | src/utils/generatePDF.ts:4-199 | the document holds the planned items in order on pages 1 to n; it has one footer per page naming the total; the file name is from the timestamp |
| PdfExport.ExportSpansPagesIffOverflow | src/utils/generatePDF.ts:10-199 | the document has two or more pages exactly when some check along the content, run from the top margin, finds the needed height past the bottom margin |
| PdfExport.RoadmapOnlyExport | src/utils/generatePDF.ts:54-55 | without analytics the document shows no score, bar or bullet, whatever the reply holds |
| AppFlow.Init | src/App.tsx:11-14 | the first render: home screen, no result, not analysing, no error |
| AppFlow.Start | src/App.tsx:16-19 | shows the assessment and clears the error, keeping the rest |
| AppFlow.Restart | src/App.tsx:44-48 | back to the home screen, forgetting the result and the error |
| AppFlow.Dismiss | src/App.tsx:78-83 | clears the error and nothing else |
| AppFlow.Message | src/App.tsx:37 | an Error shows its own message; anything else thrown shows "Failed to analyze responses" |
| AppFlow.Stored | src/App.tsx:34 | a reply record is stored as the result; a falsy value is stored as no result |
| AppFlow.Complete | src/App.tsx:21-42 | while running: analysing with no error. The analysis is called exactly when the key is set and non-empty. A missing key shows its message and changes nothing else. A success always switches to the result screen with no error, storing a result exactly when the parsed value was a record. A failure shows the message and keeps screen and result. It always ends not analysing |
| AppFlow.Render | src/App.tsx:50-85 | home, assessment, overlay and result views each appear exactly under their condition; the banner shows exactly a non-empty error |
| AppFlow.Handle | src/App.tsx:16-48 | a completed analysis always leaves no analysis running; every other event keeps the analysing flag |
| AppFlow.HandleKeepsSettled | src/App.tsx:16-48 | from a state with no analysis running and a result behind the result screen, every event keeps that, except a completed analysis that returned a falsy value, which blanks the main area |
| AppFlow.RunKeepsSettled | src/App.tsx:16-48 | over any run no analysis is left running, and the result screen keeps a result unless some analysis returned a falsy value |
| AppFlow.RunStaysIdle | src/App.tsx:21-42 | once no analysis is running, none is left running after any further events |
| AppFlow.RunNeverBlank | src/App.tsx:53-72 | from the first render, after any run of events the main area is never the analysing overlay, and it is blank only if some analysis returned a falsy value |
| AppFlow.FalsyReplyStrandsUser | src/App.tsx:33-35 | after an analysis that returned a falsy value the frame is an empty main area with no banner, offering neither start, assessment, restart nor dismiss |
| AppFlow.AsThrown | src/utils/aiAnalysis.ts:93-96 | the analysis outcome as the application sees it: its failure is an Error with the same message |
| AppFlow.FailedAnalysisShowsUniformMessage | src/App.tsx:33-37 | a failed analysis keeps screen and result and shows "Failed to analyze responses. Please try again." |
| AppFlow.NullReplyBlanksScreen | src/App.tsx:33-35 | wired to the analysis module, a service answering `null`, which the parser reads as a falsy value, leaves an empty main area and no banner |

## Left out

- Styling, layout coordinates other than the vertical cursor, colours, fonts and icons are not modelled. Neither are the `Home`, `Result` and `Footer` components, which only render.
- The recogniser's configuration (`continuous`, `interimResults`, `lang`) and the stop on unmount are not modelled: they only configure or tear down the browser object.
- Re-creating the recogniser whenever `onTranscript` changes identity is not modelled. The model keeps one recogniser per mount.
- `isActive` is always true where the component is used, so the hidden branch is left out.
- The assessment's first render, before the mount effect fills the five empty answers, is not modelled. `AssessmentFlow.Init` is the state after that effect.
- The question text shown with each prompt is data only and has no behaviour.
- Console logging is left out.
- A reply that parses to a truthy value that is not a reply record (a number, a string, an array) is not modelled. The parser oracle returns either a falsy value or a record, and the `Result` component that would read a malformed record is not modelled.
- A reply that parses to `0` (or `-0`) is falsy too, but React prints a falsy number, so the result area would show the text "0" and still offer no control. That case is not modelled: `Types.Parsed.Falsy` stands only for the falsy values that render nothing.
- After a failed analysis the application returns to the assessment screen. The `Assessment` component was unmounted while the analysis ran, so it mounts again from its first prompt and the spoken answers are lost. `AppFlow` keeps no assessment state, so this loss is not stated as a property; a new assessment always starts from `AssessmentFlow.Init`.
- Which control a frame offers is stated (`AppFlow.Offered`), but runs of events are not restricted to offered controls, so the run lemmas cover more event sequences than the interface allows.
- The service call, `JSON.parse` and text measurement (`splitTextToSize`) are oracles passed in as functions.
- The service is modelled as succeeding with an optional text or failing. Its network behaviour is not modelled.
- `new Date()`, `toLocaleDateString` and `toISOString` are not modelled. The date line and the ISO timestamp are parameters.
- `doc.save` is left out because it is I/O.
- Lengths are exact reals, not IEEE doubles, so rounding is not modelled.
- Scores and day numbers are integers. A non-integer score or day number would print with JavaScript's number formatting, which is not modelled.
- Text.IntToString: scores and day numbers are taken to be below 10^21 in magnitude, where JavaScript prints an integer-valued number as plain decimals; from 10^21 on it switches to exponent form ("1e+21"), which is not modelled. `JSON.parse` also holds integers exactly only up to 2^53, so larger values in a reply are not read exactly, and the model does not round them.
- Strings are sequences of characters. UTF-16 surrogate pairs are not modelled.
- PdfExport.UpperAscii: upper-cases the ASCII letters only, because `toUpperCase` on other scripts depends on Unicode case tables that are not modelled.
- The bullet glyph drawn before each mistake is not modelled. The source file contains a mis-encoded character there.
- `handleAssessmentComplete` is asynchronous. `AppFlow.Complete` models it as the state while the analysis runs plus the state once it has settled. Events arriving while it runs (a restart or a dismiss) are not interleaved.
- The `apiKey` argument of `analyzeResponses` is replaced by the build-time key inside the function, so `AiAnalysis.Analyze` has no key parameter. The key check is modelled in `AppFlow.Complete`.
- The prompt template is modelled as its exact text. No property beyond the transcript block's layout is stated about it.
