/**
  The document exporter. The export is split in two, as the drawing code
  interleaves them: a pure content plan (which items are drawn, in which order,
  with the page-break checks and vertical advances between them) and a fold
  that places the plan on pages with the page-break rule. A final pass labels
  every page. Text measurement (`splitTextToSize`) is an oracle giving line
  counts; page size is a parameter; lengths are exact reals.
*/
module PdfExport {
  import opened Text
  import opened Types

  /** The margin on every side of the page. */
  const Margin: real := 20.0

  /** The page size in the drawing library's units. */
  datatype PageSize = PageSize(width: real, height: real)

  /** Width available to text between the margins. */
  function MaxWidth(page: PageSize): real
  {
    page.width - 2.0 * Margin
  }

  /** Text measurement: how many lines a text breaks into at a width and font size. */
  type LineCounter = (string, real, real) -> nat

  /** What gets drawn. */
  datatype Item =
    | Title(text: string)
    | Subtitle(text: string)
    | Note(text: string)                      // one short line of small text
    | SectionHeading(text: string)
    | ScoreText(caption: string, value: string) // "<caption>:" on the left, "<value>/100" on the right
    | Bar(fill: real, width: real)            // a score bar: filled part and full width
    | Bullet(text: string, height: real)      // a bullet and its wrapped text
    | DayBadge(number: string)                // the day number in its circle
    | DayTitle(text: string)
    | Wrapped(text: string, height: real)     // a wrapped block of text
    | Separator
    | Footer(text: string)

  /** One step of the content plan. */
  datatype Op =
    | Break(need: real)   // checkPageBreak(need)
    | Put(item: Item)     // draw an item at the cursor
    | Down(dy: real)      // move the cursor down

  /** Height of a wrapped block: an approximate line height of 0.4 times the font size per line. */
  function WrappedHeight(lines: nat, fontSize: real): (h: real)
    requires fontSize > 0.0
    ensures h >= 0.0
    ensures h == 0.0 <==> lines == 0
    ensures h == lines as real * fontSize * 0.4
  {
    lines as real * (fontSize * 0.4)
  }

  /** Vertical advance after a mistake: its text height, but at least 8. */
  function MistakeAdvance(height: real): (dy: real)
    ensures dy >= 8.0 && dy >= height
    ensures dy == 8.0 || dy == height
  {
    if height > 8.0 then height else 8.0
  }

  /** Full width of a score bar: 80% of the text width. */
  function BarWidth(maxWidth: real): real
  {
    maxWidth * 0.8
  }

  /** Filled width of a score bar. */
  function BarFill(value: int, barWidth: real): (fill: real)
    ensures 0 <= value <= 100 && barWidth >= 0.0 ==> 0.0 <= fill <= barWidth
    ensures value == 100 ==> fill == barWidth
    ensures value == 0 ==> fill == 0.0
    ensures fill * 100.0 == value as real * barWidth
  {
    PercentOf(value, barWidth);
    (value as real / 100.0) * barWidth
  }

  /** A percentage of a width: its exact value, and its bounds for a percentage from 0 to 100. */
  lemma PercentOf(value: int, w: real)
    ensures (value as real / 100.0) * w * 100.0 == value as real * w
    ensures 0 <= value <= 100 && w >= 0.0 ==> 0.0 <= (value as real / 100.0) * w <= w
  {
    var f := value as real / 100.0;
    assert f * 100.0 == value as real;
    assert f * w * 100.0 == (f * 100.0) * w;
    if 0 <= value <= 100 && w >= 0.0 {
      ScaleWithin(f, w);
    }
  }

  /** A fraction of a non-negative width lies between zero and the width. */
  lemma ScaleWithin(f: real, w: real)
    requires 0.0 <= f <= 1.0 && w >= 0.0
    ensures 0.0 <= f * w <= w
  {
    assert w - f * w == (1.0 - f) * w;
  }

  /** `toUpperCase` on one character, for the ASCII letters. */
  function UpperAscii(c: char): (u: char)
    ensures 'a' <= c <= 'z' ==> 'A' <= u <= 'Z' && u as int == c as int - 32
    ensures !('a' <= c <= 'z') ==> u == c
  {
    if 'a' <= c <= 'z' then (c as int - 32) as char else c
  }

  /** The label of a score: a fixed one for `lexicalRange`, otherwise the key capitalised. */
  function ScoreLabel(key: string): (caption: string)
    ensures key == "lexicalRange" ==> caption == "Lexical Range"
    ensures key != "lexicalRange" ==>
      && |caption| == |key|
      && (|key| > 0 ==> caption[0] == UpperAscii(key[0]) && caption[1..] == key[1..])
  {
    if key == "lexicalRange" then "Lexical Range"
    else if key == [] then []
    else [UpperAscii(key[0])] + key[1..]
  }

  /** The three keys the reply is asked for get these labels. */
  lemma ScoreLabelsOfRequestedKeys()
    ensures ScoreLabel("syntax") == "Syntax"
    ensures ScoreLabel("lexicalRange") == "Lexical Range"
    ensures ScoreLabel("fluidity") == "Fluidity"
  {
    assert UpperAscii('s') == 'S';
    assert UpperAscii('f') == 'F';
  }

  const ScoresHeading := "Communication Scores"
  const MistakesHeading := "Patterns to Address"
  const RoadmapHeading := "7-Day Roadmap"

  /** Draw an item, then move down by `dy`. */
  function Show(item: Item, dy: real): seq<Op>
  {
    [Put(item), Down(dy)]
  }

  /** Title block: title, subtitle and the (already formatted) date line. */
  function HeaderOps(dateText: string): seq<Op>
  {
    Show(Title("EchoMap"), 12.0)
    + (Show(Subtitle("Your Communication Profile & Roadmap"), 15.0)
       + Show(Note("Generated on " + dateText), 15.0))
  }

  /** The text line of one score: "<label>:" and "<value>/100". */
  function ScoreLine(s: ScoreEntry): Item
  {
    ScoreText(ScoreLabel(s.key) + ":", IntToString(s.value) + "/100")
  }

  /** One score: its text line and its bar. */
  function ScoreBlock(s: ScoreEntry, barWidth: real): seq<Op>
  {
    [Break(15.0), Put(ScoreLine(s)), Down(8.0), Put(Bar(BarFill(s.value, barWidth), barWidth)), Down(10.0)]
  }

  /** One score per entry, in the reply's key order. */
  function ScoreOps(scores: seq<ScoreEntry>, barWidth: real): seq<Op>
  {
    if scores == [] then [] else ScoreBlock(scores[0], barWidth) + ScoreOps(scores[1..], barWidth)
  }

  /** The bullet of one mistake, with the height of its wrapped text (font size 10, indented by 10). */
  function MistakeBullet(mistake: string, maxWidth: real, lines: LineCounter): Item
  {
    Bullet(mistake, WrappedHeight(lines(mistake, maxWidth - 10.0, 10.0), 10.0))
  }

  /** One mistake: its bullet, then an advance of its height but at least 8. */
  function MistakeBlock(mistake: string, maxWidth: real, lines: LineCounter): seq<Op>
  {
    var bullet := MistakeBullet(mistake, maxWidth, lines);
    [Break(10.0), Put(bullet), Down(MistakeAdvance(bullet.height))]
  }

  /** One bullet per mistake, in order. */
  function MistakeOps(mistakes: seq<string>, maxWidth: real, lines: LineCounter): seq<Op>
  {
    if mistakes == [] then []
    else MistakeBlock(mistakes[0], maxWidth, lines) + MistakeOps(mistakes[1..], maxWidth, lines)
  }

  /** The scores section and, when there are mistakes, the mistakes section. */
  function AnalyticsOps(result: AnalysisResult, maxWidth: real, lines: LineCounter): seq<Op>
  {
    [Break(40.0), Put(SectionHeading(ScoresHeading)), Down(12.0)]
    + ScoreOps(result.scores, BarWidth(maxWidth))
    + [Down(5.0)]
    + MistakesPart(result.pastMistakes, maxWidth, lines)
  }

  /** The heading of one roadmap day. */
  function DayTitleText(day: RoadmapDay): string
  {
    "Day " + IntToString(day.day) + " - Task"
  }

  /** Height of a day's task text (font size 10, indented by 25). */
  function TaskHeight(day: RoadmapDay, maxWidth: real, lines: LineCounter): real
  {
    WrappedHeight(lines(day.task, maxWidth - 25.0, 10.0), 10.0)
  }

  /** Height of a day's explanation (font size 9, indented by 25). */
  function WhyHeight(day: RoadmapDay, maxWidth: real, lines: LineCounter): real
  {
    WrappedHeight(lines(day.whyItMatters, maxWidth - 25.0, 9.0), 9.0)
  }

  /** One roadmap day: badge, title, task, "Why it matters:" and its text. */
  function DayOps(day: RoadmapDay, maxWidth: real, lines: LineCounter): seq<Op>
  {
    var taskHeight := TaskHeight(day, maxWidth, lines);
    var whyHeight := WhyHeight(day, maxWidth, lines);
    [Break(50.0), Put(DayBadge(IntToString(day.day)))]
    + (Show(DayTitle(DayTitleText(day)), 8.0)
       + (Show(Wrapped(day.task, taskHeight), taskHeight + 5.0)
          + (Show(Note("Why it matters:"), 6.0)
             + Show(Wrapped(day.whyItMatters, whyHeight), whyHeight + 10.0))))
  }

  /** The separator drawn between two days. */
  const SeparatorOps: seq<Op> := [Break(5.0), Put(Separator), Down(8.0)]

  /** The days in order, with a separator after every day but the last. */
  function DaysOps(days: seq<RoadmapDay>, maxWidth: real, lines: LineCounter): seq<Op>
  {
    if days == [] then []
    else
      DayOps(days[0], maxWidth, lines)
      + (if |days| > 1 then SeparatorOps else [])
      + DaysOps(days[1..], maxWidth, lines)
  }

  /** The roadmap section, always present. */
  function RoadmapOps(days: seq<RoadmapDay>, maxWidth: real, lines: LineCounter): seq<Op>
  {
    [Break(30.0), Put(SectionHeading(RoadmapHeading)), Down(15.0)] + DaysOps(days, maxWidth, lines)
  }

  /** The whole content plan of the document. */
  function Content(
    result: AnalysisResult, includeAnalytics: bool, dateText: string,
    page: PageSize, lines: LineCounter): seq<Op>
  {
    HeaderOps(dateText)
    + (if includeAnalytics then AnalyticsOps(result, MaxWidth(page), lines) else [])
    + RoadmapOps(result.roadmap, MaxWidth(page), lines)
  }

  /** The items a plan draws, in order. */
  function Puts(ops: seq<Op>): seq<Item>
  {
    if ops == [] then [] else (if ops[0].Put? then [ops[0].item] else []) + Puts(ops[1..])
  }

  /** The number of page-break checks in a plan. */
  function Breaks(ops: seq<Op>): nat
  {
    if ops == [] then 0 else (if ops[0].Break? then 1 else 0) + Breaks(ops[1..])
  }

  lemma {:induction false} PutsAppend(a: seq<Op>, b: seq<Op>)
    ensures Puts(a + b) == Puts(a) + Puts(b)
    decreases |a|
  {
    if a == [] {
      assert a + b == b;
    } else {
      assert (a + b)[0] == a[0];
      assert (a + b)[1..] == a[1..] + b;
      PutsAppend(a[1..], b);
    }
  }

  /** The kinds of drawn item the document-level properties speak about. */
  datatype Kind = Headings | ScoreLines | Bullets | DayTitles | Separators

  /** Whether an item is of a kind. */
  predicate Is(kind: Kind, it: Item)
  {
    match kind
    case Headings => it.SectionHeading?
    case ScoreLines => it.ScoreText?
    case Bullets => it.Bullet?
    case DayTitles => it.DayTitle?
    case Separators => it.Separator?
  }

  /** The items of a list of the given kind, in order. */
  function Select(items: seq<Item>, kind: Kind): seq<Item>
  {
    if items == [] then [] else (if Is(kind, items[0]) then [items[0]] else []) + Select(items[1..], kind)
  }

  lemma {:induction false} SelectAppend(a: seq<Item>, b: seq<Item>, kind: Kind)
    ensures Select(a + b, kind) == Select(a, kind) + Select(b, kind)
    decreases |a|
  {
    if a == [] {
      assert a + b == b;
    } else {
      assert (a + b)[0] == a[0];
      assert (a + b)[1..] == a[1..] + b;
      SelectAppend(a[1..], b, kind);
    }
  }

  lemma {:induction false} SelectNone(items: seq<Item>, kind: Kind)
    requires forall i :: 0 <= i < |items| ==> !Is(kind, items[i])
    ensures Select(items, kind) == []
    decreases |items|
  {
    if items != [] {
      SelectNone(items[1..], kind);
    }
  }

  /** One step of `Puts` at an interior position of a plan. */
  lemma PutsStep(ops: seq<Op>, k: nat)
    requires k < |ops|
    ensures Puts(ops[k..]) == (if ops[k].Put? then [ops[k].item] else []) + Puts(ops[k + 1..])
  {
    assert ops[k..][0] == ops[k];
    assert ops[k..][1..] == ops[k + 1..];
  }

  /** Showing an item draws it, then whatever follows. */
  lemma PutsShowThen(item: Item, dy: real, rest: seq<Op>)
    ensures Puts(Show(item, dy) + rest) == [item] + Puts(rest)
  {
    var ops := Show(item, dy) + rest;
    assert ops[1..][1..] == rest;
  }

  /** One step of `Select` at an interior position of a list. */
  lemma SelectStep(items: seq<Item>, k: nat, kind: Kind)
    requires k < |items|
    ensures Select(items[k..], kind) == (if Is(kind, items[k]) then [items[k]] else []) + Select(items[k + 1..], kind)
  {
    assert items[k..][0] == items[k];
    assert items[k..][1..] == items[k + 1..];
  }

  /** Items the title block draws. */
  lemma HeaderItems(dateText: string)
    ensures Puts(HeaderOps(dateText))
      == [Title("EchoMap"), Subtitle("Your Communication Profile & Roadmap"), Note("Generated on " + dateText)]
  {
    var note := Note("Generated on " + dateText);
    var tail := Show(Subtitle("Your Communication Profile & Roadmap"), 15.0) + Show(note, 15.0);
    assert Puts(tail) == [Subtitle("Your Communication Profile & Roadmap"), note] by {
      PutsShowThen(Subtitle("Your Communication Profile & Roadmap"), 15.0, Show(note, 15.0));
      PutsShowThen(note, 15.0, []);
      assert Show(note, 15.0) + [] == Show(note, 15.0);
    }
    PutsShowThen(Title("EchoMap"), 12.0, tail);
  }

  /** One score draws its text line and then its bar. */
  lemma ScoreBlockItems(s: ScoreEntry, barWidth: real)
    ensures Puts(ScoreBlock(s, barWidth)) == [ScoreLine(s), Bar(BarFill(s.value, barWidth), barWidth)]
  {
    var ops := ScoreBlock(s, barWidth);
    var bar := Bar(BarFill(s.value, barWidth), barWidth);
    assert Puts(ops[4..]) == [] by { PutsStep(ops, 4); assert ops[5..] == []; }
    assert Puts(ops[3..]) == [bar] by { PutsStep(ops, 3); }
    assert Puts(ops[2..]) == [bar] by { PutsStep(ops, 2); }
    assert Puts(ops[1..]) == [ScoreLine(s), bar] by { PutsStep(ops, 1); }
    assert Puts(ops) == [ScoreLine(s), bar] by { PutsStep(ops, 0); assert ops[0..] == ops; }
  }

  /** The items of the scores part: the first score's line and bar, then the rest. */
  lemma ScoreOpsPuts(scores: seq<ScoreEntry>, barWidth: real)
    requires scores != []
    ensures Puts(ScoreOps(scores, barWidth))
      == [ScoreLine(scores[0]), Bar(BarFill(scores[0].value, barWidth), barWidth)]
         + Puts(ScoreOps(scores[1..], barWidth))
  {
    ScoreBlockItems(scores[0], barWidth);
    PutsAppend(ScoreBlock(scores[0], barWidth), ScoreOps(scores[1..], barWidth));
  }

  /** Of a kept item followed by a dropped one, only the first is selected. */
  lemma SelectKeptThenDropped(a: Item, b: Item, rest: seq<Item>, kind: Kind)
    requires Is(kind, a) && !Is(kind, b)
    ensures Select([a, b] + rest, kind) == [a] + Select(rest, kind)
  {
    assert Select([a, b], kind) == [a] by {
      assert Select([b], kind) == [] by { assert [b][1..] == []; }
      assert [a, b][1..] == [b];
    }
    SelectAppend([a, b], rest, kind);
  }

  /** The scores part draws one text line per entry, in the reply's order. */
  lemma {:induction false} ScoreLinesInOrder(scores: seq<ScoreEntry>, barWidth: real)
    ensures |Select(Puts(ScoreOps(scores, barWidth)), ScoreLines)| == |scores|
    ensures forall i :: 0 <= i < |scores| ==> Select(Puts(ScoreOps(scores, barWidth)), ScoreLines)[i] == ScoreLine(scores[i])
    decreases |scores|
  {
    if scores != [] {
      var line := ScoreLine(scores[0]);
      var bar := Bar(BarFill(scores[0].value, barWidth), barWidth);
      var rest := Puts(ScoreOps(scores[1..], barWidth));
      var sel := Select(Puts(ScoreOps(scores, barWidth)), ScoreLines);
      ScoreOpsPuts(scores, barWidth);
      SelectKeptThenDropped(line, bar, rest, ScoreLines);
      ScoreLinesInOrder(scores[1..], barWidth);
      assert sel == [line] + Select(rest, ScoreLines);
      LinesOfScores(scores, sel, Select(rest, ScoreLines));
    }
  }

  /** The first score's line in front of the lines of the other scores gives the lines of all. */
  lemma LinesOfScores(scores: seq<ScoreEntry>, sel: seq<Item>, restSel: seq<Item>)
    requires scores != []
    requires sel == [ScoreLine(scores[0])] + restSel
    requires |restSel| == |scores| - 1
    requires forall i :: 0 <= i < |scores| - 1 ==> restSel[i] == ScoreLine(scores[1..][i])
    ensures |sel| == |scores|
    ensures forall i :: 0 <= i < |scores| ==> sel[i] == ScoreLine(scores[i])
  {
    forall i | 0 <= i < |scores| ensures sel[i] == ScoreLine(scores[i]) {
      if i > 0 {
        assert sel[i] == restSel[i - 1];
        assert scores[1..][i - 1] == scores[i];
      }
    }
  }

  /** The scores part draws only text lines and bars. */
  lemma {:induction false} ScoreItemKinds(scores: seq<ScoreEntry>, barWidth: real)
    ensures forall i :: 0 <= i < |Puts(ScoreOps(scores, barWidth))| ==>
      Puts(ScoreOps(scores, barWidth))[i].ScoreText? || Puts(ScoreOps(scores, barWidth))[i].Bar?
    decreases |scores|
  {
    if scores != [] {
      var head: seq<Item> := [ScoreLine(scores[0]), Bar(BarFill(scores[0].value, barWidth), barWidth)];
      var rest := Puts(ScoreOps(scores[1..], barWidth));
      ScoreOpsPuts(scores, barWidth);
      ScoreItemKinds(scores[1..], barWidth);
      forall i | 0 <= i < |head + rest| ensures (head + rest)[i].ScoreText? || (head + rest)[i].Bar? {
        if i >= 2 {
          assert (head + rest)[i] == rest[i - 2];
        }
      }
    }
  }

  /** The mistakes part draws one bullet per mistake, in order, and nothing else. */
  lemma {:induction false} MistakeItems(mistakes: seq<string>, maxWidth: real, lines: LineCounter)
    ensures |Puts(MistakeOps(mistakes, maxWidth, lines))| == |mistakes|
    ensures forall i :: 0 <= i < |mistakes| ==>
      && Puts(MistakeOps(mistakes, maxWidth, lines))[i].Bullet?
      && Puts(MistakeOps(mistakes, maxWidth, lines))[i].text == mistakes[i]
    decreases |mistakes|
  {
    if mistakes != [] {
      var bullet := MistakeBullet(mistakes[0], maxWidth, lines);
      var rest := Puts(MistakeOps(mistakes[1..], maxWidth, lines));
      assert Puts(MistakeOps(mistakes, maxWidth, lines)) == [bullet] + rest by {
        PutsOfBlock(10.0, bullet, MistakeAdvance(bullet.height));
        PutsAppend(MistakeBlock(mistakes[0], maxWidth, lines), MistakeOps(mistakes[1..], maxWidth, lines));
      }
      MistakeItems(mistakes[1..], maxWidth, lines);
    }
  }

  /** The items one roadmap day draws. */
  function DayItemList(day: RoadmapDay, maxWidth: real, lines: LineCounter): seq<Item>
  {
    [ DayBadge(IntToString(day.day)), DayTitle(DayTitleText(day)),
      Wrapped(day.task, TaskHeight(day, maxWidth, lines)),
      Note("Why it matters:"),
      Wrapped(day.whyItMatters, WhyHeight(day, maxWidth, lines)) ]
  }

  /** One roadmap day draws its badge, title, task, caption and explanation, in that order. */
  lemma DayItems(day: RoadmapDay, maxWidth: real, lines: LineCounter)
    ensures Puts(DayOps(day, maxWidth, lines)) == DayItemList(day, maxWidth, lines)
  {
    var taskHeight := TaskHeight(day, maxWidth, lines);
    var whyHeight := WhyHeight(day, maxWidth, lines);
    var title := DayTitle(DayTitleText(day));
    var task := Wrapped(day.task, taskHeight);
    var note := Note("Why it matters:");
    var why := Wrapped(day.whyItMatters, whyHeight);
    var rest := Show(title, 8.0) + (Show(task, taskHeight + 5.0) + (Show(note, 6.0) + Show(why, whyHeight + 10.0)));
    PutsOfShows(title, 8.0, task, taskHeight + 5.0, note, 6.0, why, whyHeight + 10.0);
    PutsOfBreakPut(50.0, DayBadge(IntToString(day.day)), rest);
  }

  /** Four shown items draw exactly those items. */
  lemma PutsOfShows(a: Item, da: real, b: Item, db: real, c: Item, dc: real, d: Item, dd: real)
    ensures Puts(Show(a, da) + (Show(b, db) + (Show(c, dc) + Show(d, dd)))) == [a, b, c, d]
  {
    assert Puts(Show(d, dd)) == [d] by {
      PutsShowThen(d, dd, []);
      assert Show(d, dd) + [] == Show(d, dd);
    }
    assert Puts(Show(c, dc) + Show(d, dd)) == [c, d] by { PutsShowThen(c, dc, Show(d, dd)); }
    assert Puts(Show(b, db) + (Show(c, dc) + Show(d, dd))) == [b, c, d] by {
      PutsShowThen(b, db, Show(c, dc) + Show(d, dd));
    }
    PutsShowThen(a, da, Show(b, db) + (Show(c, dc) + Show(d, dd)));
  }

  /** A page-break check followed by an item draws the item, then whatever follows. */
  lemma PutsOfBreakPut(need: real, item: Item, rest: seq<Op>)
    ensures Puts([Break(need), Put(item)] + rest) == [item] + Puts(rest)
  {
    var ops := [Break(need), Put(item)] + rest;
    assert ops[1..] == [Put(item)] + rest;
    assert ops[1..][1..] == rest;
  }

  /** The separator plan draws exactly one separator. */
  lemma SeparatorItems()
    ensures Puts(SeparatorOps) == [Separator]
  {
    PutsOfBlock(5.0, Separator, 8.0);
  }

  /** The items the days part draws: each day's items, with a separator between consecutive days. */
  function DaysItems(days: seq<RoadmapDay>, maxWidth: real, lines: LineCounter): seq<Item>
  {
    if days == [] then []
    else
      DayItemList(days[0], maxWidth, lines)
      + (if |days| > 1 then [Separator] else [])
      + DaysItems(days[1..], maxWidth, lines)
  }

  /** The days part draws exactly `DaysItems`. */
  lemma {:induction false} DaysPuts(days: seq<RoadmapDay>, maxWidth: real, lines: LineCounter)
    ensures Puts(DaysOps(days, maxWidth, lines)) == DaysItems(days, maxWidth, lines)
    decreases |days|
  {
    if days != [] {
      var d := DayOps(days[0], maxWidth, lines);
      var sep := if |days| > 1 then SeparatorOps else [];
      var r := DaysOps(days[1..], maxWidth, lines);
      assert DaysOps(days, maxWidth, lines) == d + sep + r;
      assert Puts(sep) == (if |days| > 1 then [Separator] else []) by { SeparatorItems(); }
      assert Puts(d) == DayItemList(days[0], maxWidth, lines) by { DayItems(days[0], maxWidth, lines); }
      assert Puts(r) == DaysItems(days[1..], maxWidth, lines) by { DaysPuts(days[1..], maxWidth, lines); }
      assert Puts(d + sep + r) == Puts(d) + Puts(sep) + Puts(r) by {
        PutsAppend(d, sep);
        PutsAppend(d + sep, r);
      }
    }
  }

  /** A day draws exactly one title and no separator. */
  lemma DayItemKinds(day: RoadmapDay, maxWidth: real, lines: LineCounter)
    ensures Select(DayItemList(day, maxWidth, lines), DayTitles) == [DayTitle(DayTitleText(day))]
    ensures Select(DayItemList(day, maxWidth, lines), Separators) == []
  {
    var items := DayItemList(day, maxWidth, lines);
    assert items == [items[0], items[1]] + items[2..];
    SelectNone(items[2..], DayTitles);
    SelectAppend([items[0], items[1]], items[2..], DayTitles);
    assert [items[0], items[1]][1..] == [items[1]];
    SelectNone(items, Separators);
  }

  /** A day draws nothing of the analytics part. */
  lemma DayDrawsNoAnalytics(day: RoadmapDay, maxWidth: real, lines: LineCounter)
    ensures forall i :: 0 <= i < |DayItemList(day, maxWidth, lines)| ==>
      var it := DayItemList(day, maxWidth, lines)[i];
      !it.SectionHeading? && !it.ScoreText? && !it.Bar? && !it.Bullet?
  {
  }

  /** The days part draws every day's title, in list order. */
  lemma {:induction false} DayTitlesInOrder(days: seq<RoadmapDay>, maxWidth: real, lines: LineCounter)
    ensures |Select(DaysItems(days, maxWidth, lines), DayTitles)| == |days|
    ensures forall i :: 0 <= i < |days| ==>
      Select(DaysItems(days, maxWidth, lines), DayTitles)[i] == DayTitle(DayTitleText(days[i]))
    decreases |days|
  {
    if days != [] {
      var dayItems := DayItemList(days[0], maxWidth, lines);
      var sepItems: seq<Item> := if |days| > 1 then [Separator] else [];
      var restItems := DaysItems(days[1..], maxWidth, lines);
      var sel := Select(DaysItems(days, maxWidth, lines), DayTitles);
      var restSel := Select(restItems, DayTitles);
      assert sel == [DayTitle(DayTitleText(days[0]))] + restSel by {
        SelectAppend(dayItems, sepItems, DayTitles);
        SelectAppend(dayItems + sepItems, restItems, DayTitles);
        DayItemKinds(days[0], maxWidth, lines);
        SelectNone(sepItems, DayTitles);
      }
      DayTitlesInOrder(days[1..], maxWidth, lines);
      forall i | 0 <= i < |days| ensures sel[i] == DayTitle(DayTitleText(days[i])) {
        if i > 0 {
          assert sel[i] == restSel[i - 1];
          assert days[1..][i - 1] == days[i];
        }
      }
    }
  }

  /** The days part draws one separator fewer than there are days (none for no days). */
  lemma {:induction false} SeparatorsBetweenDays(days: seq<RoadmapDay>, maxWidth: real, lines: LineCounter)
    ensures |Select(DaysItems(days, maxWidth, lines), Separators)| == (if |days| == 0 then 0 else |days| - 1)
    decreases |days|
  {
    if days != [] {
      var dayItems := DayItemList(days[0], maxWidth, lines);
      var sepItems: seq<Item> := if |days| > 1 then [Separator] else [];
      var restItems := DaysItems(days[1..], maxWidth, lines);
      assert |Select(DaysItems(days, maxWidth, lines), Separators)|
        == |Select(sepItems, Separators)| + |Select(restItems, Separators)| by {
        SelectAppend(dayItems, sepItems, Separators);
        SelectAppend(dayItems + sepItems, restItems, Separators);
        DayItemKinds(days[0], maxWidth, lines);
      }
      assert |Select(sepItems, Separators)| == (if |days| > 1 then 1 else 0);
      SeparatorsBetweenDays(days[1..], maxWidth, lines);
    }
  }

  /** The days part draws no heading, score, bar or bullet. */
  lemma {:induction false} DaysDrawNoAnalytics(days: seq<RoadmapDay>, maxWidth: real, lines: LineCounter)
    ensures forall i :: 0 <= i < |DaysItems(days, maxWidth, lines)| ==>
      var it := DaysItems(days, maxWidth, lines)[i];
      !it.SectionHeading? && !it.ScoreText? && !it.Bar? && !it.Bullet?
    decreases |days|
  {
    if days != [] {
      var dayItems := DayItemList(days[0], maxWidth, lines);
      var sepItems: seq<Item> := if |days| > 1 then [Separator] else [];
      var restItems := DaysItems(days[1..], maxWidth, lines);
      DayDrawsNoAnalytics(days[0], maxWidth, lines);
      DaysDrawNoAnalytics(days[1..], maxWidth, lines);
      var all := dayItems + sepItems + restItems;
      forall i | 0 <= i < |all| ensures !all[i].SectionHeading? && !all[i].ScoreText? && !all[i].Bar? && !all[i].Bullet? {
        if i < |dayItems| {
          assert all[i] == dayItems[i];
        } else if i < |dayItems| + |sepItems| {
          assert all[i] == sepItems[i - |dayItems|];
        } else {
          assert all[i] == restItems[i - |dayItems| - |sepItems|];
        }
      }
    }
  }

  /** Every item of a list is of the kind: selecting keeps the whole list. */
  lemma {:induction false} SelectAll(items: seq<Item>, kind: Kind)
    requires forall i :: 0 <= i < |items| ==> Is(kind, items[i])
    ensures Select(items, kind) == items
    decreases |items|
  {
    if items != [] {
      SelectAll(items[1..], kind);
    }
  }

  /** A check, one item and an advance draw just that item. */
  lemma PutsOfBlock(need: real, item: Item, dy: real)
    ensures Puts([Break(need), Put(item), Down(dy)]) == [item]
  {
    var ops := [Break(need), Put(item), Down(dy)];
    assert Puts(ops[2..]) == [] by { PutsStep(ops, 2); assert ops[3..] == []; }
    assert Puts(ops[1..]) == [item] by { PutsStep(ops, 1); }
    PutsStep(ops, 0);
    assert ops[0..] == ops;
  }

  /** The items of the whole plan: title block, analytics when included, roadmap. */
  lemma ContentPuts(result: AnalysisResult, includeAnalytics: bool, dateText: string, page: PageSize, lines: LineCounter)
    ensures Puts(Content(result, includeAnalytics, dateText, page, lines))
      == Puts(HeaderOps(dateText))
         + (if includeAnalytics then Puts(AnalyticsOps(result, MaxWidth(page), lines)) else [])
         + Puts(RoadmapOps(result.roadmap, MaxWidth(page), lines))
  {
    var a := if includeAnalytics then AnalyticsOps(result, MaxWidth(page), lines) else [];
    PutsAppend(HeaderOps(dateText), a);
    PutsAppend(HeaderOps(dateText) + a, RoadmapOps(result.roadmap, MaxWidth(page), lines));
  }

  /** The items of the analytics part: its heading, the scores, and the mistakes part when there are mistakes. */
  lemma AnalyticsPuts(result: AnalysisResult, maxWidth: real, lines: LineCounter)
    ensures Puts(AnalyticsOps(result, maxWidth, lines))
      == [SectionHeading(ScoresHeading)]
         + Puts(ScoreOps(result.scores, BarWidth(maxWidth)))
         + (if |result.pastMistakes| > 0 then
              [SectionHeading(MistakesHeading)] + Puts(MistakeOps(result.pastMistakes, maxWidth, lines))
            else [])
  {
    var head := [Break(40.0), Put(SectionHeading(ScoresHeading)), Down(12.0)];
    var scores := ScoreOps(result.scores, BarWidth(maxWidth));
    var tail := MistakesPart(result.pastMistakes, maxWidth, lines);
    assert AnalyticsOps(result, maxWidth, lines) == head + scores + [Down(5.0)] + tail;
    PutsOfBlock(40.0, SectionHeading(ScoresHeading), 12.0);
    assert Puts([Down(5.0)]) == [];
    MistakesPartPuts(result.pastMistakes, maxWidth, lines);
    PutsOfSection(head, scores, [Down(5.0)], tail, SectionHeading(ScoresHeading), Puts(tail));
  }

  /** The mistakes section of the analytics part, present only when there are mistakes. */
  function MistakesPart(mistakes: seq<string>, maxWidth: real, lines: LineCounter): seq<Op>
  {
    if |mistakes| > 0 then
      [Break(30.0), Put(SectionHeading(MistakesHeading)), Down(12.0)]
      + MistakeOps(mistakes, maxWidth, lines)
      + [Down(10.0)]
    else []
  }

  /** The mistakes section draws its heading and the bullets, when there are mistakes. */
  lemma MistakesPartPuts(mistakes: seq<string>, maxWidth: real, lines: LineCounter)
    ensures Puts(MistakesPart(mistakes, maxWidth, lines))
      == (if |mistakes| > 0 then [SectionHeading(MistakesHeading)] + Puts(MistakeOps(mistakes, maxWidth, lines)) else [])
  {
    if |mistakes| > 0 {
      var mHead := [Break(30.0), Put(SectionHeading(MistakesHeading)), Down(12.0)];
      var body := MistakeOps(mistakes, maxWidth, lines);
      PutsOfBlock(30.0, SectionHeading(MistakesHeading), 12.0);
      assert Puts([Down(10.0)]) == [];
      PutsAppend(mHead, body);
      PutsAppend(mHead + body, [Down(10.0)]);
    }
  }

  /**
    A section drawn as a heading, a body, a gap that draws nothing and a tail
    draws the heading, the body's items and the tail's items.
  */
  lemma PutsOfSection(head: seq<Op>, body: seq<Op>, gap: seq<Op>, tail: seq<Op>, heading: Item, rest: seq<Item>)
    requires Puts(head) == [heading] && Puts(gap) == [] && Puts(tail) == rest
    ensures Puts(head + body + gap + tail) == [heading] + Puts(body) + rest
  {
    PutsAppend(head, body);
    PutsAppend(head + body, gap);
    PutsAppend(head + body + gap, tail);
  }

  /** The items of the roadmap part: its heading and the days. */
  lemma RoadmapPuts(days: seq<RoadmapDay>, maxWidth: real, lines: LineCounter)
    ensures Puts(RoadmapOps(days, maxWidth, lines)) == [SectionHeading(RoadmapHeading)] + DaysItems(days, maxWidth, lines)
  {
    DaysPuts(days, maxWidth, lines);
    PutsOfBlock(30.0, SectionHeading(RoadmapHeading), 15.0);
    PutsAppend([Break(30.0), Put(SectionHeading(RoadmapHeading)), Down(15.0)], DaysOps(days, maxWidth, lines));
  }

  /** Selecting past a prefix that holds nothing of the kind. */
  lemma SelectPastNone(h: seq<Item>, a: seq<Item>, r: seq<Item>, kind: Kind)
    requires forall i :: 0 <= i < |h| ==> !Is(kind, h[i])
    ensures Select(h + a + r, kind) == Select(a, kind) + Select(r, kind)
  {
    assert Select(h + a, kind) == Select(a, kind) by {
      SelectNone(h, kind);
      SelectAppend(h, a, kind);
      assert [] + Select(a, kind) == Select(a, kind);
    }
    SelectAppend(h + a, r, kind);
  }

  /** `Select` distributes over the three parts of the document; the title block holds nothing of any kind. */
  lemma ContentSelect(
    result: AnalysisResult, includeAnalytics: bool, dateText: string, page: PageSize, lines: LineCounter,
    kind: Kind)
    ensures Select(Puts(Content(result, includeAnalytics, dateText, page, lines)), kind)
      == (if includeAnalytics then Select(Puts(AnalyticsOps(result, MaxWidth(page), lines)), kind) else [])
         + Select(Puts(RoadmapOps(result.roadmap, MaxWidth(page), lines)), kind)
  {
    var h := Puts(HeaderOps(dateText));
    var a := if includeAnalytics then Puts(AnalyticsOps(result, MaxWidth(page), lines)) else [];
    var r := Puts(RoadmapOps(result.roadmap, MaxWidth(page), lines));
    ContentPuts(result, includeAnalytics, dateText, page, lines);
    HeaderItems(dateText);
    SelectPastNone(h, a, r, kind);
  }

  /** `Select` distributes over the pieces of the analytics part. */
  lemma AnalyticsSelect(result: AnalysisResult, w: real, lines: LineCounter, kind: Kind)
    ensures Select(Puts(AnalyticsOps(result, w, lines)), kind)
      == Select([SectionHeading(ScoresHeading)], kind)
         + Select(Puts(ScoreOps(result.scores, BarWidth(w))), kind)
         + (if |result.pastMistakes| > 0 then
              Select([SectionHeading(MistakesHeading)], kind) + Select(Puts(MistakeOps(result.pastMistakes, w, lines)), kind)
            else [])
  {
    var scores := Puts(ScoreOps(result.scores, BarWidth(w)));
    var mistakes := Puts(MistakeOps(result.pastMistakes, w, lines));
    var tail := if |result.pastMistakes| > 0 then [SectionHeading(MistakesHeading)] + mistakes else [];
    AnalyticsPuts(result, w, lines);
    if |result.pastMistakes| > 0 {
      SelectAppend([SectionHeading(MistakesHeading)], mistakes, kind);
    }
    SelectAppend([SectionHeading(ScoresHeading)], scores, kind);
    SelectAppend([SectionHeading(ScoresHeading)] + scores, tail, kind);
  }

  /** `Select` distributes over the pieces of the roadmap part. */
  lemma RoadmapSelect(days: seq<RoadmapDay>, w: real, lines: LineCounter, kind: Kind)
    ensures Select(Puts(RoadmapOps(days, w, lines)), kind)
      == Select([SectionHeading(RoadmapHeading)], kind) + Select(DaysItems(days, w, lines), kind)
  {
    RoadmapPuts(days, w, lines);
    SelectAppend([SectionHeading(RoadmapHeading)], DaysItems(days, w, lines), kind);
  }

  /** The scores part holds no heading, bullet, day title or separator. */
  lemma ScorePartSelect(scores: seq<ScoreEntry>, barWidth: real)
    ensures var items := Puts(ScoreOps(scores, barWidth));
      && Select(items, Headings) == [] && Select(items, Bullets) == []
      && Select(items, DayTitles) == [] && Select(items, Separators) == []
  {
    var items := Puts(ScoreOps(scores, barWidth));
    ScoreItemKinds(scores, barWidth);
    SelectNone(items, Headings);
    SelectNone(items, Bullets);
    SelectNone(items, DayTitles);
    SelectNone(items, Separators);
  }

  /** The mistakes part holds its bullets and nothing else. */
  lemma MistakePartSelect(mistakes: seq<string>, w: real, lines: LineCounter)
    ensures var items := Puts(MistakeOps(mistakes, w, lines));
      && Select(items, Bullets) == items
      && Select(items, Headings) == [] && Select(items, ScoreLines) == []
      && Select(items, DayTitles) == [] && Select(items, Separators) == []
  {
    var items := Puts(MistakeOps(mistakes, w, lines));
    MistakeItems(mistakes, w, lines);
    SelectAll(items, Bullets);
    SelectNone(items, Headings);
    SelectNone(items, ScoreLines);
    SelectNone(items, DayTitles);
    SelectNone(items, Separators);
  }

  /** The days part holds no heading, score line or bullet. */
  lemma DaysPartSelect(days: seq<RoadmapDay>, w: real, lines: LineCounter)
    ensures var items := DaysItems(days, w, lines);
      && Select(items, Headings) == [] && Select(items, ScoreLines) == [] && Select(items, Bullets) == []
  {
    var items := DaysItems(days, w, lines);
    DaysDrawNoAnalytics(days, w, lines);
    SelectNone(items, Headings);
    SelectNone(items, ScoreLines);
    SelectNone(items, Bullets);
  }

  /** The analytics part's headings: scores, then mistakes when there are any. */
  lemma AnalyticsHeadings(result: AnalysisResult, w: real, lines: LineCounter)
    ensures Select(Puts(AnalyticsOps(result, w, lines)), Headings)
      == [SectionHeading(ScoresHeading)] + (if |result.pastMistakes| > 0 then [SectionHeading(MistakesHeading)] else [])
  {
    AnalyticsSelect(result, w, lines, Headings);
    ScorePartSelect(result.scores, BarWidth(w));
    MistakePartSelect(result.pastMistakes, w, lines);
  }

  /** The roadmap part's only heading is its own. */
  lemma RoadmapHeadings(days: seq<RoadmapDay>, w: real, lines: LineCounter)
    ensures Select(Puts(RoadmapOps(days, w, lines)), Headings) == [SectionHeading(RoadmapHeading)]
  {
    RoadmapSelect(days, w, lines, Headings);
    DaysPartSelect(days, w, lines);
  }

  /**
    The section headings, in order: the scores heading and, when there are
    mistakes, the mistakes heading, only when analytics are included; the
    roadmap heading always.
  */
  lemma SectionHeadings(result: AnalysisResult, includeAnalytics: bool, dateText: string, page: PageSize, lines: LineCounter)
    ensures Select(Puts(Content(result, includeAnalytics, dateText, page, lines)), Headings)
      == (if includeAnalytics then
            [SectionHeading(ScoresHeading)]
            + (if |result.pastMistakes| > 0 then [SectionHeading(MistakesHeading)] else [])
          else [])
         + [SectionHeading(RoadmapHeading)]
  {
    ContentSelect(result, includeAnalytics, dateText, page, lines, Headings);
    RoadmapHeadings(result.roadmap, MaxWidth(page), lines);
    AnalyticsHeadings(result, MaxWidth(page), lines);
  }

  /** The roadmap part holds no score line and no bullet. */
  lemma RoadmapSelectsNone(days: seq<RoadmapDay>, w: real, lines: LineCounter, kind: Kind)
    requires kind == ScoreLines || kind == Bullets
    ensures Select(Puts(RoadmapOps(days, w, lines)), kind) == []
  {
    RoadmapSelect(days, w, lines, kind);
    DaysPartSelect(days, w, lines);
  }

  /** The analytics part's score lines are the scores part's. */
  lemma AnalyticsScoreLines(result: AnalysisResult, w: real, lines: LineCounter)
    ensures Select(Puts(AnalyticsOps(result, w, lines)), ScoreLines) == Select(Puts(ScoreOps(result.scores, BarWidth(w))), ScoreLines)
  {
    var scores := Select(Puts(ScoreOps(result.scores, BarWidth(w))), ScoreLines);
    AnalyticsSelect(result, w, lines, ScoreLines);
    assert Select([SectionHeading(ScoresHeading)], ScoreLines) == [];
    if |result.pastMistakes| > 0 {
      assert Select([SectionHeading(MistakesHeading)], ScoreLines) == [];
      MistakePartSelect(result.pastMistakes, w, lines);
      assert [] + scores + ([] + []) == scores;
    } else {
      assert [] + scores + [] == scores;
    }
  }

  /** The analytics part's bullets are the mistakes part's. */
  lemma AnalyticsBullets(result: AnalysisResult, w: real, lines: LineCounter)
    ensures Select(Puts(AnalyticsOps(result, w, lines)), Bullets) == Puts(MistakeOps(result.pastMistakes, w, lines))
  {
    AnalyticsSelect(result, w, lines, Bullets);
    ScorePartSelect(result.scores, BarWidth(w));
    MistakePartSelect(result.pastMistakes, w, lines);
    if |result.pastMistakes| == 0 {
      MistakeItems(result.pastMistakes, w, lines);
    }
  }

  /** The analytics part holds no day title and no separator. */
  lemma AnalyticsSelectsNoDays(result: AnalysisResult, w: real, lines: LineCounter, kind: Kind)
    requires kind == DayTitles || kind == Separators
    ensures Select(Puts(AnalyticsOps(result, w, lines)), kind) == []
  {
    AnalyticsSelect(result, w, lines, kind);
    ScorePartSelect(result.scores, BarWidth(w));
    MistakePartSelect(result.pastMistakes, w, lines);
  }

  /** The document's score lines are those of the scores part, when analytics are included. */
  lemma ContentScoreLines(result: AnalysisResult, includeAnalytics: bool, dateText: string, page: PageSize, lines: LineCounter)
    ensures Select(Puts(Content(result, includeAnalytics, dateText, page, lines)), ScoreLines)
      == if includeAnalytics then Select(Puts(ScoreOps(result.scores, BarWidth(MaxWidth(page)))), ScoreLines) else []
  {
    ContentSelect(result, includeAnalytics, dateText, page, lines, ScoreLines);
    RoadmapSelectsNone(result.roadmap, MaxWidth(page), lines, ScoreLines);
    AnalyticsScoreLines(result, MaxWidth(page), lines);
  }

  /** The score lines, one per entry and in the reply's order, present only when analytics are included. */
  lemma ScoresInOrder(result: AnalysisResult, includeAnalytics: bool, dateText: string, page: PageSize, lines: LineCounter)
    ensures var sel := Select(Puts(Content(result, includeAnalytics, dateText, page, lines)), ScoreLines);
      && |sel| == (if includeAnalytics then |result.scores| else 0)
      && forall i :: 0 <= i < |sel| ==> sel[i] == ScoreLine(result.scores[i])
  {
    ContentScoreLines(result, includeAnalytics, dateText, page, lines);
    ScoreLinesInOrder(result.scores, BarWidth(MaxWidth(page)));
  }

  /** The document's bullets are the mistakes part's, when analytics are included. */
  lemma ContentBullets(result: AnalysisResult, includeAnalytics: bool, dateText: string, page: PageSize, lines: LineCounter)
    ensures Select(Puts(Content(result, includeAnalytics, dateText, page, lines)), Bullets)
      == if includeAnalytics then Puts(MistakeOps(result.pastMistakes, MaxWidth(page), lines)) else []
  {
    ContentSelect(result, includeAnalytics, dateText, page, lines, Bullets);
    RoadmapSelectsNone(result.roadmap, MaxWidth(page), lines, Bullets);
    AnalyticsBullets(result, MaxWidth(page), lines);
  }

  /** One bullet per past mistake, in order, present only when analytics are included. */
  lemma MistakesInOrder(result: AnalysisResult, includeAnalytics: bool, dateText: string, page: PageSize, lines: LineCounter)
    ensures var bullets := Select(Puts(Content(result, includeAnalytics, dateText, page, lines)), Bullets);
      && |bullets| == (if includeAnalytics then |result.pastMistakes| else 0)
      && forall i :: 0 <= i < |bullets| ==> bullets[i].Bullet? && bullets[i].text == result.pastMistakes[i]
  {
    ContentBullets(result, includeAnalytics, dateText, page, lines);
    MistakeItems(result.pastMistakes, MaxWidth(page), lines);
  }

  /** The document's day titles and separators are those of the days part. */
  lemma ContentDayItems(
    result: AnalysisResult, includeAnalytics: bool, dateText: string, page: PageSize, lines: LineCounter, kind: Kind)
    requires kind == DayTitles || kind == Separators
    ensures Select(Puts(Content(result, includeAnalytics, dateText, page, lines)), kind)
      == Select(DaysItems(result.roadmap, MaxWidth(page), lines), kind)
  {
    ContentSelect(result, includeAnalytics, dateText, page, lines, kind);
    RoadmapSelect(result.roadmap, MaxWidth(page), lines, kind);
    AnalyticsSelectsNoDays(result, MaxWidth(page), lines, kind);
  }

  /** The roadmap: every day's title in order, with one separator between consecutive days. */
  lemma RoadmapInOrder(result: AnalysisResult, includeAnalytics: bool, dateText: string, page: PageSize, lines: LineCounter)
    ensures var titles := Select(Puts(Content(result, includeAnalytics, dateText, page, lines)), DayTitles);
      && |titles| == |result.roadmap|
      && forall i :: 0 <= i < |titles| ==> titles[i] == DayTitle(DayTitleText(result.roadmap[i]))
    ensures |Select(Puts(Content(result, includeAnalytics, dateText, page, lines)), Separators)|
      == (if |result.roadmap| == 0 then 0 else |result.roadmap| - 1)
  {
    ContentDayItems(result, includeAnalytics, dateText, page, lines, DayTitles);
    ContentDayItems(result, includeAnalytics, dateText, page, lines, Separators);
    DayTitlesInOrder(result.roadmap, MaxWidth(page), lines);
    SeparatorsBetweenDays(result.roadmap, MaxWidth(page), lines);
  }

  // ---------------------------------------------------------------------
  // Placing the plan on pages

  /** Where the next item goes: its baseline and its page (pages count from 1). */
  datatype Cursor = Cursor(y: real, page: nat)

  /** An item drawn at a position. */
  datatype Placed = Placed(page: nat, y: real, item: Item)

  /**
    `checkPageBreak`: when the needed height would run past the bottom margin,
    start a new page and go back to the top margin.
  */
  function CheckPageBreak(c: Cursor, need: real, pageHeight: real): (r: Cursor)
    ensures r.page == c.page + 1 <==> c.y + need > pageHeight - Margin
    ensures r.page == c.page ==> r == c
    ensures r.page == c.page || (r.page == c.page + 1 && r.y == Margin)
    ensures need <= pageHeight - 2.0 * Margin ==> r.y + need <= pageHeight - Margin
  {
    if c.y + need > pageHeight - Margin then Cursor(Margin, c.page + 1) else c
  }

  /** Runs a plan from a cursor: the cursor at the end and the items placed. */
  function Place(ops: seq<Op>, c: Cursor, pageHeight: real): (r: (Cursor, seq<Placed>))
    ensures |r.1| == |Puts(ops)|
    ensures forall i :: 0 <= i < |r.1| ==> r.1[i].item == Puts(ops)[i]
    ensures c.page <= r.0.page <= c.page + Breaks(ops)
    ensures forall i :: 0 <= i < |r.1| ==> c.page <= r.1[i].page <= r.0.page
    ensures forall i, j :: 0 <= i < j < |r.1| ==> r.1[i].page <= r.1[j].page
    decreases |ops|
  {
    if ops == [] then (c, [])
    else
      var rest := Place(ops[1..], Step(ops[0], c, pageHeight), pageHeight);
      PlacedBefore(ops, c, rest.0, rest.1);
      if ops[0].Put? then (rest.0, [Placed(c.page, c.y, ops[0].item)] + rest.1) else rest
  }

  /** The cursor after one instruction: a check may start a new page, a move goes down. */
  function Step(op: Op, c: Cursor, pageHeight: real): (r: Cursor)
    ensures c.page <= r.page <= c.page + (if op.Break? then 1 else 0)
    ensures op.Put? ==> r == c
  {
    match op
    case Break(need) => CheckPageBreak(c, need, pageHeight)
    case Down(dy) => c.(y := c.y + dy)
    case Put(_) => c
  }

  /**
    The induction step of `Place`: what the rest of the plan placed, with the
    first instruction's item (if any) in front, still lines up with the items
    the plan draws and keeps the pages in order.
  */
  lemma PlacedBefore(ops: seq<Op>, c: Cursor, last: Cursor, ps: seq<Placed>)
    requires ops != []
    requires |ps| == |Puts(ops[1..])|
    requires forall i :: 0 <= i < |ps| ==> ps[i].item == Puts(ops[1..])[i]
    requires c.page <= last.page
    requires forall i :: 0 <= i < |ps| ==> c.page <= ps[i].page <= last.page
    requires forall i, j :: 0 <= i < j < |ps| ==> ps[i].page <= ps[j].page
    ensures var qs := if ops[0].Put? then [Placed(c.page, c.y, ops[0].item)] + ps else ps;
      && |qs| == |Puts(ops)|
      && (forall i :: 0 <= i < |qs| ==> qs[i].item == Puts(ops)[i])
      && (forall i :: 0 <= i < |qs| ==> c.page <= qs[i].page <= last.page)
      && (forall i, j :: 0 <= i < j < |qs| ==> qs[i].page <= qs[j].page)
  {
    if ops[0].Put? {
      assert Puts(ops) == [ops[0].item] + Puts(ops[1..]);
      PrependPlaced(Placed(c.page, c.y, ops[0].item), ps, last.page);
      PrependItems(Placed(c.page, c.y, ops[0].item), ps, Puts(ops[1..]));
    } else {
      assert Puts(ops) == Puts(ops[1..]);
    }
  }

  /** An item placed before items on its page or later keeps the pages in order. */
  lemma PrependPlaced(p: Placed, ps: seq<Placed>, last: int)
    requires p.page <= last
    requires forall i :: 0 <= i < |ps| ==> p.page <= ps[i].page <= last
    requires forall i, j :: 0 <= i < j < |ps| ==> ps[i].page <= ps[j].page
    ensures forall i :: 0 <= i < |[p] + ps| ==> p.page <= ([p] + ps)[i].page <= last
    ensures forall i, j :: 0 <= i < j < |[p] + ps| ==> ([p] + ps)[i].page <= ([p] + ps)[j].page
  {
  }

  /** Prepending a placed item to placed items keeps them aligned with the items drawn. */
  lemma PrependItems(p: Placed, ps: seq<Placed>, items: seq<Item>)
    requires |ps| == |items|
    requires forall i :: 0 <= i < |ps| ==> ps[i].item == items[i]
    ensures |[p] + ps| == |[p.item] + items|
    ensures forall i :: 0 <= i < |[p] + ps| ==> ([p] + ps)[i].item == ([p.item] + items)[i]
  {
  }

  /**
    Placing two plans in a row is placing the second from where the first
    ended: the items of the first come first, then those of the second.
  */
  lemma {:induction false} PlaceAppend(a: seq<Op>, b: seq<Op>, c: Cursor, pageHeight: real)
    ensures var mid := Place(a, c, pageHeight).0;
      Place(a + b, c, pageHeight)
        == (Place(b, mid, pageHeight).0, Place(a, c, pageHeight).1 + Place(b, mid, pageHeight).1)
    decreases |a|
  {
    if a == [] {
      assert a + b == b;
      assert Place(a, c, pageHeight) == (c, []);
      assert [] + Place(b, c, pageHeight).1 == Place(b, c, pageHeight).1;
    } else {
      var op, tail := a[0], a[1..];
      assert a == [op] + tail;
      assert a + b == [op] + (tail + b);
      PlaceAppend(tail, b, Step(op, c, pageHeight), pageHeight);
      PlaceAppendCons(op, tail, b, c, pageHeight);
    }
  }

  /**
    An item drawn right after a check anywhere in a plan: it lands at the top
    margin of the page after the one the earlier part ended on when the need
    would run past the bottom margin, and at that part's end cursor otherwise.
  */
  lemma PlaceCheckedItem(a: seq<Op>, need: real, it: Item, rest: seq<Op>, c: Cursor, pageHeight: real)
    ensures var before := Place(a, c, pageHeight);
      var placed := Place(a + ([Break(need), Put(it)] + rest), c, pageHeight).1;
      && |before.1| < |placed|
      && (before.0.y + need > pageHeight - Margin ==> placed[|before.1|] == Placed(before.0.page + 1, Margin, it))
      && (before.0.y + need <= pageHeight - Margin ==> placed[|before.1|] == Placed(before.0.page, before.0.y, it))
  {
    var before := Place(a, c, pageHeight);
    var after := Place([Break(need), Put(it)] + rest, before.0, pageHeight).1;
    PlaceAppend(a, [Break(need), Put(it)] + rest, c, pageHeight);
    PlaceBreakThenPut(need, it, rest, before.0, pageHeight);
    FirstAfter(before.1, after);
  }

  /** The element just past a list, in that list joined with a non-empty one, is the second list's first. */
  lemma FirstAfter<T>(u: seq<T>, v: seq<T>)
    requires |v| > 0
    ensures |u| < |u + v| && (u + v)[|u|] == v[0]
  {
  }

  /** The induction step of `PlaceAppend`: one more instruction in front of the first plan. */
  lemma PlaceAppendCons(op: Op, tail: seq<Op>, b: seq<Op>, c: Cursor, pageHeight: real)
    requires var next := Step(op, c, pageHeight);
      var mid := Place(tail, next, pageHeight).0;
      Place(tail + b, next, pageHeight)
        == (Place(b, mid, pageHeight).0, Place(tail, next, pageHeight).1 + Place(b, mid, pageHeight).1)
    ensures var mid := Place([op] + tail, c, pageHeight).0;
      Place([op] + tail + b, c, pageHeight)
        == (Place(b, mid, pageHeight).0, Place([op] + tail, c, pageHeight).1 + Place(b, mid, pageHeight).1)
  {
    var next := Step(op, c, pageHeight);
    assert [op] + tail + b == [op] + (tail + b);
    PlaceCons(op, tail, c, pageHeight);
    PlaceCons(op, tail + b, c, pageHeight);
    var rest := Place(tail, next, pageHeight);
    var second := Place(b, rest.0, pageHeight);
    if op.Put? {
      var p := Placed(c.page, c.y, op.item);
      ConsAppend(p, rest.1, second.1);
    }
  }

  /** An element in front of two joined lists is in front of the first of them. */
  lemma ConsAppend<T>(x: T, u: seq<T>, v: seq<T>)
    ensures [x] + (u + v) == ([x] + u) + v
  {
  }

  /** One step of placement: the rest of the plan from the next cursor, with the first item in front. */
  lemma PlaceCons(op: Op, tail: seq<Op>, c: Cursor, pageHeight: real)
    ensures var rest := Place(tail, Step(op, c, pageHeight), pageHeight);
      Place([op] + tail, c, pageHeight)
        == if op.Put? then (rest.0, [Placed(c.page, c.y, op.item)] + rest.1) else rest
  {
    assert ([op] + tail)[0] == op;
    assert ([op] + tail)[1..] == tail;
  }

  /** The total downward movement of a plan. */
  function Advance(ops: seq<Op>): real
    decreases |ops|
  {
    if ops == [] then 0.0 else (if ops[0].Down? then ops[0].dy else 0.0) + Advance(ops[1..])
  }

  /**
    The plan fits on the rest of the page from height `y`: moving down without
    ever starting a new page, no check finds its needed height running past
    the bottom margin.
  */
  predicate Fits(ops: seq<Op>, y: real, pageHeight: real)
    decreases |ops|
  {
    ops == [] ||
    match ops[0]
    case Break(need) => y + need <= pageHeight - Margin && Fits(ops[1..], y, pageHeight)
    case Down(dy) => Fits(ops[1..], y + dy, pageHeight)
    case Put(_) => Fits(ops[1..], y, pageHeight)
  }

  /**
    Placement stays on its starting page exactly when the plan fits there, and
    then ends as far down as the plan's moves add up to.
  */
  lemma {:induction false} PlaceOnOnePage(ops: seq<Op>, c: Cursor, pageHeight: real)
    ensures Place(ops, c, pageHeight).0.page == c.page <==> Fits(ops, c.y, pageHeight)
    ensures Place(ops, c, pageHeight).0.page == c.page ==> Place(ops, c, pageHeight).0.y == c.y + Advance(ops)
    decreases |ops|
  {
    if ops != [] {
      var next := Step(ops[0], c, pageHeight);
      PlaceEnd(ops, c, pageHeight);
      match ops[0]
      case Break(need) =>
        assert Advance(ops) == Advance(ops[1..]);
        if c.y + need > pageHeight - Margin {
          assert next.page == c.page + 1;
          assert !Fits(ops, c.y, pageHeight);
        } else {
          assert next == c;
          assert Fits(ops, c.y, pageHeight) == Fits(ops[1..], c.y, pageHeight);
          PlaceOnOnePage(ops[1..], c, pageHeight);
        }
      case Down(dy) =>
        assert Advance(ops) == dy + Advance(ops[1..]);
        assert Fits(ops, c.y, pageHeight) == Fits(ops[1..], c.y + dy, pageHeight);
        PlaceOnOnePage(ops[1..], next, pageHeight);
      case Put(item) =>
        assert Advance(ops) == Advance(ops[1..]);
        assert Fits(ops, c.y, pageHeight) == Fits(ops[1..], c.y, pageHeight);
        PlaceOnOnePage(ops[1..], c, pageHeight);
    }
  }

  /** Placement ends where the rest of the plan, run from the cursor after the first instruction, ends. */
  lemma PlaceEnd(ops: seq<Op>, c: Cursor, pageHeight: real)
    requires ops != []
    ensures Place(ops, c, pageHeight).0 == Place(ops[1..], Step(ops[0], c, pageHeight), pageHeight).0
  {
  }

  /**
    A check followed by an item: the item lands at the top margin of the next
    page when the needed height would run past the bottom margin, and at the
    cursor otherwise. A need that fits on a page then fits below the item.
  */
  lemma PlaceBreakThenPut(need: real, it: Item, rest: seq<Op>, c: Cursor, pageHeight: real)
    ensures var placed := Place([Break(need), Put(it)] + rest, c, pageHeight).1;
      && |placed| > 0
      && (c.y + need > pageHeight - Margin ==> placed[0] == Placed(c.page + 1, Margin, it))
      && (c.y + need <= pageHeight - Margin ==> placed[0] == Placed(c.page, c.y, it))
      && (need <= pageHeight - 2.0 * Margin ==> placed[0].y + need <= pageHeight - Margin)
  {
    var ops := [Break(need), Put(it)] + rest;
    var next := CheckPageBreak(c, need, pageHeight);
    assert ops[1..] == [Put(it)] + rest;
    assert ([Put(it)] + rest)[1..] == rest;
    assert Place(ops, c, pageHeight).1 == [Placed(next.page, next.y, it)] + Place(rest, next, pageHeight).1;
  }

  /** The label on page `page` of `total`. */
  function FooterText(page: nat, total: nat): string
  {
    "EchoMap - Page " + NatToString(page) + " of " + NatToString(total)
  }

  /** The footer pass: pages 1 to `count`, each labelled with its number and the total, 10 above the bottom. */
  function Footers(count: nat, total: nat, pageHeight: real): (fs: seq<Placed>)
    ensures |fs| == count
    ensures forall i :: 0 <= i < count ==>
      fs[i] == Placed(i + 1, pageHeight - 10.0, Footer(FooterText(i + 1, total)))
  {
    if count == 0 then []
    else Footers(count - 1, total, pageHeight) + [Placed(count, pageHeight - 10.0, Footer(FooterText(count, total)))]
  }

  /** `split('T')[0]`: the text before the first 'T', or all of it. */
  function DatePart(iso: string): (d: string)
    ensures |d| <= |iso| && iso[..|d|] == d
    ensures 'T' !in d
    ensures |d| < |iso| ==> iso[|d|] == 'T'
  {
    if iso == [] || iso[0] == 'T' then []
    else
      var d := [iso[0]] + DatePart(iso[1..]);
      assert iso[..|d|] == [iso[0]] + iso[1..][..|d| - 1];
      d
  }

  /** On an ISO timestamp (date, 'T', time) the date part is the date. */
  lemma {:induction false} DatePartOfTimestamp(date: string, time: string)
    requires 'T' !in date
    ensures DatePart(date + "T" + time) == date
    decreases |date|
  {
    if date != [] {
      assert (date + "T" + time)[1..] == date[1..] + "T" + time;
      DatePartOfTimestamp(date[1..], time);
    } else {
      assert (date + "T" + time)[0] == 'T';
    }
  }

  /** The saved file's name. */
  function Filename(isoTimestamp: string): (name: string)
    ensures |name| == 20 + |DatePart(isoTimestamp)|
    ensures name[..16] == "EchoMap-roadmap-" && name[|name| - 4..] == ".pdf"
    ensures name[16..|name| - 4] == DatePart(isoTimestamp)
  {
    "EchoMap-roadmap-" + DatePart(isoTimestamp) + ".pdf"
  }

  /** The finished document: page count, placed content, footers and file name. */
  datatype Document = Document(pageCount: nat, content: seq<Placed>, footers: seq<Placed>, filename: string)

  /**
    `generatePDF`. The date line and the ISO timestamp come from the clock and
    are parameters; so are the page size and text measurement.
  */
  function Export(
    result: AnalysisResult, includeAnalytics: bool, dateText: string, isoTimestamp: string,
    page: PageSize, lines: LineCounter): (doc: Document)
    ensures var items := Puts(Content(result, includeAnalytics, dateText, page, lines));
      && |doc.content| == |items|
      && forall i :: 0 <= i < |items| ==> doc.content[i].item == items[i]
    ensures 1 <= doc.pageCount <= 1 + Breaks(Content(result, includeAnalytics, dateText, page, lines))
    ensures forall i :: 0 <= i < |doc.content| ==> 1 <= doc.content[i].page <= doc.pageCount
    ensures forall i, j :: 0 <= i < j < |doc.content| ==> doc.content[i].page <= doc.content[j].page
    ensures |doc.footers| == doc.pageCount
    ensures forall i :: 0 <= i < doc.pageCount ==>
      doc.footers[i] == Placed(i + 1, page.height - 10.0, Footer(FooterText(i + 1, doc.pageCount)))
    ensures doc.filename == Filename(isoTimestamp)
  {
    var placed := Place(Content(result, includeAnalytics, dateText, page, lines), Cursor(Margin, 1), page.height);
    var total := placed.0.page;
    Document(total, placed.1, Footers(total, total, page.height), Filename(isoTimestamp))
  }

  /**
    The document has more than one page exactly when its content does not fit
    on the first page from the top margin.
  */
  lemma ExportSpansPagesIffOverflow(
    result: AnalysisResult, includeAnalytics: bool, dateText: string, isoTimestamp: string,
    page: PageSize, lines: LineCounter)
    ensures Export(result, includeAnalytics, dateText, isoTimestamp, page, lines).pageCount >= 2
      <==> !Fits(Content(result, includeAnalytics, dateText, page, lines), Margin, page.height)
  {
    PlaceOnOnePage(Content(result, includeAnalytics, dateText, page, lines), Cursor(Margin, 1), page.height);
  }

  /** Without analytics the document shows no scores and no mistakes, whatever the reply holds. */
  lemma RoadmapOnlyExport(
    result: AnalysisResult, dateText: string, isoTimestamp: string, page: PageSize, lines: LineCounter)
    ensures var doc := Export(result, false, dateText, isoTimestamp, page, lines);
      forall i :: 0 <= i < |doc.content| ==>
        !doc.content[i].item.ScoreText? && !doc.content[i].item.Bar? && !doc.content[i].item.Bullet?
  {
    var w := MaxWidth(page);
    var items := Puts(Content(result, false, dateText, page, lines));
    ContentPuts(result, false, dateText, page, lines);
    HeaderItems(dateText);
    RoadmapPuts(result.roadmap, w, lines);
    DaysDrawNoAnalytics(result.roadmap, w, lines);
    assert items == Puts(HeaderOps(dateText)) + [SectionHeading(RoadmapHeading)] + DaysItems(result.roadmap, w, lines);
    forall i | 0 <= i < |items| ensures !items[i].ScoreText? && !items[i].Bar? && !items[i].Bullet? {
      if i >= 4 {
        assert items[i] == DaysItems(result.roadmap, w, lines)[i - 4];
      }
    }
  }
}
