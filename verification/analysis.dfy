/**
  The analysis adapter: builds the prompt from the five answers, sends it to
  the language-model service, strips code fences from the reply and parses it.
  The service call and `JSON.parse` are oracles passed in as functions.
*/
module AiAnalysis {
  import opened Wrappers
  import opened Text
  import opened Types

  /** The adapter's own copy of the stage labels, used by position. */
  const StageLabels: seq<string> := ["Daily Life", "Descriptive", "Opinion", "Professional", "Abstract"]

  /**
    The label of the answer at `index`: indexing past the five labels yields
    `undefined`, which the template literal renders as that word.
  */
  function StageLabel(index: nat): string
  {
    if index < |StageLabels| then StageLabels[index] else "undefined"
  }

  /** One line of the transcript block. */
  function Entry(index: nat, response: UserResponse): string
  {
    StageLabel(index) + ": " + response.transcript
  }

  /** The lines of the transcript block, one per answer, in order. */
  function Entries(responses: seq<UserResponse>): seq<string>
  {
    seq(|responses|, i requires 0 <= i < |responses| => Entry(i, responses[i]))
  }

  /** The separator between lines of the transcript block: one blank line. */
  const BlankLine := "\n\n"

  /** The transcript block of the prompt. */
  function TranscriptBlock(responses: seq<UserResponse>): string
  {
    Join(Entries(responses), BlankLine)
  }

  /**
    Appending an answer appends exactly one blank line and its labelled
    transcript: the block lists every answer in order, separated by blank lines.
  */
  lemma TranscriptBlockSnoc(responses: seq<UserResponse>, last: UserResponse)
    requires |responses| > 0
    ensures TranscriptBlock(responses + [last])
      == TranscriptBlock(responses) + BlankLine + Entry(|responses|, last)
  {
    assert Entries(responses + [last]) == Entries(responses) + [Entry(|responses|, last)];
    JoinConcat(Entries(responses), [Entry(|responses|, last)], BlankLine);
  }

  /** For n answers the block holds the n lines and exactly n - 1 blank-line separators. */
  lemma TranscriptBlockLength(responses: seq<UserResponse>)
    requires |responses| > 0
    ensures |TranscriptBlock(responses)|
      == TotalLength(Entries(responses)) + (|responses| - 1) * |BlankLine|
  {
    JoinLength(Entries(responses), BlankLine);
  }

  /** Five parts joined: the parts with the separator between consecutive ones. */
  lemma JoinFive(e: seq<string>, sep: string)
    requires |e| == 5
    ensures Join(e, sep) == e[0] + sep + e[1] + sep + e[2] + sep + e[3] + sep + e[4]
  {
    assert e[3..][1..] == e[4..];
    assert e[2..][1..] == e[3..];
    assert e[1..][1..] == e[2..];
    assert Join(e[3..], sep) == e[3] + sep + e[4];
    assert Join(e[2..], sep) == e[2] + sep + Join(e[3..], sep);
    assert Join(e[1..], sep) == e[1] + sep + Join(e[2..], sep);
  }

  /** The block for five answers, spelled out. */
  lemma FiveAnswerBlock(responses: seq<UserResponse>)
    requires |responses| == 5
    ensures TranscriptBlock(responses) ==
      ("Daily Life: " + responses[0].transcript) + "\n\n"
      + ("Descriptive: " + responses[1].transcript) + "\n\n"
      + ("Opinion: " + responses[2].transcript) + "\n\n"
      + ("Professional: " + responses[3].transcript) + "\n\n"
      + ("Abstract: " + responses[4].transcript)
  {
    var e := Entries(responses);
    assert e[0] == "Daily Life: " + responses[0].transcript;
    assert e[1] == "Descriptive: " + responses[1].transcript;
    assert e[2] == "Opinion: " + responses[2].transcript;
    assert e[3] == "Professional: " + responses[3].transcript;
    assert e[4] == "Abstract: " + responses[4].transcript;
    JoinFive(e, BlankLine);
  }

  /** The labels come from the position, never from the answer's own `stage` field. */
  lemma TranscriptBlockIgnoresStage(a: seq<UserResponse>, b: seq<UserResponse>)
    requires |a| == |b|
    requires forall i :: 0 <= i < |a| ==> a[i].transcript == b[i].transcript
    ensures TranscriptBlock(a) == TranscriptBlock(b)
  {
    assert Entries(a) == Entries(b);
  }

  /** One roadmap entry of the reply template. */
  function RoadmapTemplateEntry(day: nat): string
  {
    "    {\n      \"day\": " + NatToString(day) + ",\n"
    + "      \"task\": \"<15-minute exercise specific to their needs>\",\n"
    + "      \"whyItMatters\": \"<brief explanation>\"\n    }"
  }

  /** The seven roadmap entries of the reply template, separated by commas. */
  function RoadmapTemplate(): string
  {
    Join([RoadmapTemplateEntry(1), RoadmapTemplateEntry(2), RoadmapTemplateEntry(3),
      RoadmapTemplateEntry(4), RoadmapTemplateEntry(5), RoadmapTemplateEntry(6),
      RoadmapTemplateEntry(7)], ",\n")
  }

  const PromptHead :=
    "Analyze these 5 speech transcripts from an English communication assessment. "
    + "Each transcript corresponds to a different stage: Daily Life, Descriptive, Opinion, Professional, and Abstract.\n\n"
    + "Transcripts:\n"

  const PromptTail :=
    "\n\nPlease provide a JSON response with the following structure:\n{\n"
    + "  \"scores\": {\n"
    + "    \"syntax\": <number between 0-100>,\n"
    + "    \"lexicalRange\": <number between 0-100>,\n"
    + "    \"fluidity\": <number between 0-100>\n"
    + "  },\n"
    + "  \"pastMistakes\": [\n"
    + "    \"<specific mistake 1>\",\n"
    + "    \"<specific mistake 2>\"\n"
    + "  ],\n"
    + "  \"roadmap\": [\n"
    + RoadmapTemplate() + "\n"
    + "  ]\n}\n\n"
    + "Focus on identifying specific, actionable patterns. The roadmap should address the identified "
    + "mistakes and gaps. Return ONLY valid JSON, no markdown formatting."

  /** The prompt sent to the service: fixed text around the transcript block. */
  function Prompt(responses: seq<UserResponse>): string
  {
    PromptHead + TranscriptBlock(responses) + PromptTail
  }

  /** A run of three backticks starts at `i`. */
  predicate FenceAt(s: string, i: int) {
    0 <= i && i + 3 <= |s| && s[i] == '`' && s[i + 1] == '`' && s[i + 2] == '`'
  }

  /** `s` contains no run of three backticks. */
  ghost predicate NoFence(s: string) {
    forall i :: !FenceAt(s, i)
  }

  /**
    `s.replace(/<fence>\n?/g, '')`: every occurrence of `fence`, and the
    newline right after it if there is one, is removed, scanning left to right.
  */
  function RemoveFences(s: string, fence: string): string
    requires |fence| > 0
    decreases |s|
  {
    if |s| >= |fence| && s[..|fence|] == fence then
      var rest := s[|fence|..];
      if |rest| > 0 && rest[0] == '\n' then RemoveFences(rest[1..], fence) else RemoveFences(rest, fence)
    else if s == [] then []
    else [s[0]] + RemoveFences(s[1..], fence)
  }

  const JsonFence := "```json"
  const Fence := "```"

  /** The reply after fence removal and `trim`. */
  function CleanReply(text: string): string
  {
    Trim(RemoveFences(RemoveFences(text, JsonFence), Fence))
  }

  /** Text without backticks passes through fence removal unchanged, whatever follows it. */
  lemma {:induction false} RemoveFencesSkipsPlainPrefix(x: string, t: string, fence: string)
    requires |fence| > 0 && fence[0] == '`'
    requires '`' !in x
    ensures RemoveFences(x + t, fence) == x + RemoveFences(t, fence)
    decreases |x|
  {
    if x != [] {
      assert (x + t)[0] == x[0];
      assert (x + t)[1..] == x[1..] + t;
      assert x == [x[0]] + x[1..];
      RemoveFencesSkipsPlainPrefix(x[1..], t, fence);
    } else {
      assert x + t == t;
    }
  }

  /** A first character other than a backtick is kept. */
  lemma RemoveFencesKeepsFirst(t: string, fence: string)
    requires |fence| > 0 && fence[0] == '`'
    requires |t| > 0 && t[0] != '`'
    ensures RemoveFences(t, fence) == [t[0]] + RemoveFences(t[1..], fence)
  {
    if |t| >= |fence| {
      assert t[..|fence|][0] == t[0];
    }
  }

  /** Removing every "```" leaves no "```" behind, not even one formed across a removal. */
  lemma {:induction false} RemoveFencesLeavesNoFence(s: string)
    ensures NoFence(RemoveFences(s, Fence))
    decreases |s|
  {
    if |s| >= 3 && s[..3] == Fence {
      var rest := s[3..];
      if |rest| > 0 && rest[0] == '\n' {
        RemoveFencesLeavesNoFence(rest[1..]);
      } else {
        RemoveFencesLeavesNoFence(rest);
      }
    } else if s != [] {
      var t := s[1..];
      var tail := RemoveFences(t, Fence);
      var r := [s[0]] + tail;
      RemoveFencesLeavesNoFence(t);
      assert RemoveFences(s, Fence) == r;
      forall i ensures !FenceAt(r, i) {
        if i > 0 && FenceAt(r, i) {
          assert FenceAt(tail, i - 1);
        }
        if i == 0 && FenceAt(r, 0) {
          // s[0] is a backtick, and s does not start with three of them
          if t[0] != '`' {
            RemoveFencesKeepsFirst(t, Fence);
          } else {
            assert |t| < 2 || t[1] != '`';
            assert |t| < 3 || t[..3] != Fence;
            assert RemoveFences(t, Fence) == [t[0]] + RemoveFences(t[1..], Fence);
            if |t| >= 2 {
              RemoveFencesKeepsFirst(t[1..], Fence);
            }
          }
          assert false;
        }
      }
    }
  }

  /** A fence inside a slice is a fence of the whole text. */
  lemma FenceInSlice(x: string, k: nat, r: string, i: int)
    requires k + |r| <= |x| && x[k..k + |r|] == r
    ensures FenceAt(r, i) ==> FenceAt(x, k + i)
  {
    if FenceAt(r, i) {
      assert r[i] == x[k + i] && r[i + 1] == x[k + i + 1] && r[i + 2] == x[k + i + 2];
    }
  }

  /** Text with no "```" has no fence to remove. */
  lemma {:induction false} RemoveFencesOfFenceFree(x: string, fence: string)
    requires |fence| >= 3 && fence[..3] == Fence
    requires NoFence(x)
    ensures RemoveFences(x, fence) == x
    decreases |x|
  {
    if x != [] {
      if |x| >= |fence| && x[..|fence|] == fence {
        assert x[..|fence|][..3] == x[..3];
        assert FenceAt(x, 0);
        assert false;
      }
      forall i ensures !FenceAt(x[1..], i) {
        FenceInSlice(x, 1, x[1..], i);
      }
      RemoveFencesOfFenceFree(x[1..], fence);
      assert x == [x[0]] + x[1..];
    }
  }

  /** Trimming cannot create a fence. */
  lemma TrimKeepsNoFence(x: string)
    requires NoFence(x)
    ensures NoFence(Trim(x))
  {
    var r := Trim(x);
    var k := TrimStart(x);
    TrimIsInfix(x);
    forall i ensures !FenceAt(r, i) {
      FenceInSlice(x, k, r, i);
    }
  }

  /** The cleaned reply has no "```" in it and no whitespace at either end. */
  lemma CleanReplyIsClean(text: string)
    ensures NoFence(CleanReply(text)) && IsTrimmed(CleanReply(text))
  {
    var once := RemoveFences(text, JsonFence);
    RemoveFencesLeavesNoFence(once);
    TrimKeepsNoFence(RemoveFences(once, Fence));
  }

  /** Cleaning is idempotent. */
  lemma CleanReplyIdempotent(text: string)
    ensures CleanReply(CleanReply(text)) == CleanReply(text)
  {
    var c := CleanReply(text);
    CleanReplyIsClean(text);
    RemoveFencesOfFenceFree(c, JsonFence);
    RemoveFencesOfFenceFree(c, Fence);
    TrimIdempotent(RemoveFences(RemoveFences(text, JsonFence), Fence));
  }

  /** A reply with no backticks is only trimmed. */
  lemma CleanReplyOfPlainText(x: string)
    requires '`' !in x
    ensures CleanReply(x) == Trim(x)
  {
    assert x + [] == x;
    RemoveFencesSkipsPlainPrefix(x, [], JsonFence);
    RemoveFencesSkipsPlainPrefix(x, [], Fence);
  }

  /** A reply wrapped in a json code fence cleans to the trimmed content. */
  lemma CleanReplyOfFencedJson(x: string)
    requires '`' !in x
    ensures CleanReply("```json\n" + x + "\n```") == Trim(x)
  {
    var s := "```json\n" + x + "\n```";
    var body := x + "\n";
    assert '`' !in body;
    assert s[..7] == JsonFence;
    assert s[7..][0] == '\n';
    assert s[7..][1..] == body + "```";
    RemoveFencesSkipsPlainPrefix(body, "```", JsonFence);
    assert RemoveFences("```", JsonFence) == "```";
    RemoveFencesSkipsPlainPrefix(body, "```", Fence);
    assert "```"[..3] == Fence;
    assert RemoveFences("```", Fence) == RemoveFences([], Fence) == [];
    assert body + [] == body;
    assert IsBlank("\n");
    TrimIgnoresTrailingSpace(x, "\n");
  }

  /** What the service call produced: a thrown error, or a reply whose text may be missing. */
  datatype Reply = ServiceFailed | Replied(text: Option<string>)

  /** `response.text || ''`. */
  function ReplyText(reply: Reply): string
    requires reply.Replied?
  {
    match reply.text
    case Some(t) => t
    case None => ""
  }

  /** The only message the adapter ever fails with. */
  const FailureMessage := "Failed to analyze responses. Please try again."

  /**
    `analyzeResponses`: one call to the service with the prompt, then fence
    removal and parsing. Any failure, in the call or in the parse, becomes the
    one uniform failure; a success is exactly what the parser produced, a
    falsy value included, since nothing checks the reply's shape.
  */
  function Analyze(
    responses: seq<UserResponse>,
    service: string -> Reply,
    parse: string -> Option<Parsed>): (r: Result<Parsed, string>)
    ensures r.Failure? ==> r.error == FailureMessage
    ensures r.Success? <==>
      && service(Prompt(responses)).Replied?
      && parse(CleanReply(ReplyText(service(Prompt(responses))))).Some?
    ensures r.Success? ==> Some(r.value) == parse(CleanReply(ReplyText(service(Prompt(responses)))))
  {
    var reply := service(Prompt(responses));
    if reply.ServiceFailed? then Failure(FailureMessage)
    else
      match parse(CleanReply(ReplyText(reply)))
      case Some(result) => Success(result)
      case None => Failure(FailureMessage)
  }

  /**
    A reply wrapped in a json code fence is analysed exactly like the same
    reply without the fence.
  */
  lemma FencedReplyAnalysedLikePlain(
    responses: seq<UserResponse>,
    x: string,
    fenced: string -> Reply,
    plain: string -> Reply,
    parse: string -> Option<Parsed>)
    requires '`' !in x
    requires fenced(Prompt(responses)) == Replied(Some("```json\n" + x + "\n```"))
    requires plain(Prompt(responses)) == Replied(Some(x))
    ensures Analyze(responses, fenced, parse) == Analyze(responses, plain, parse)
  {
    CleanReplyOfFencedJson(x);
    CleanReplyOfPlainText(x);
  }

  /** The text `null` is left alone by the reply cleaning. */
  lemma NullCleansToItself()
    ensures CleanReply("null") == "null"
  {
    CleanReplyOfPlainText("null");
    var m := "null";
    assert !IsSpace(m[0]) && !IsSpace(m[3]);
    TrimStripsExactlySurroundingSpace([], m, []);
    assert [] + m + [] == m;
  }

  /**
    A reply of `null` reaches the parser unchanged, so when the parser reads it
    as a falsy value the analysis succeeds with that value.
  */
  lemma NullReplyParsesFalsy(responses: seq<UserResponse>, service: string -> Reply, parse: string -> Option<Parsed>)
    requires service(Prompt(responses)) == Replied(Some("null"))
    requires parse("null") == Some(Falsy)
    ensures Analyze(responses, service, parse) == Success(Falsy)
  {
    NullCleansToItself();
  }
}
