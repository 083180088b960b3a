/** A reader of the Prometheus text format, and exactly which printed texts it gives back. */
module PrometheusText {
  import opened Values
  import opened Prometheus

  // ---- lines ----

  predicate OneLine(s: string) { '\n' !in s }

  /** The lines of a text. */
  function SplitLines(text: string): (lines: seq<string>)
    ensures lines != []
  {
    if text == "" then [""]
    else
      var rest := SplitLines(text[1..]);
      if text[0] == '\n' then [""] + rest else [[text[0]] + rest[0]] + rest[1..]
  }

  lemma {:induction false} SplitFirst(line: string, rest: string)
    requires OneLine(line)
    ensures SplitLines(line + "\n" + rest) == [line] + SplitLines(rest)
  {
    var text := line + "\n" + rest;
    if line == "" {
      assert text[1..] == rest;
    } else {
      assert text[1..] == line[1..] + "\n" + rest;
      SplitFirst(line[1..], rest);
      assert [line[0]] + line[1..] == line;
    }
  }

  /** Every line closed by a line break. */
  function Closed(lines: seq<Line>): string {
    if lines == [] then "" else Rendered(lines[0]) + "\n" + Closed(lines[1..])
  }

  lemma {:induction false} JoinedIsClosed(lines: seq<Line>)
    requires lines != []
    ensures JoinedBy(RenderedAll(lines)) + "\n" == Closed(lines)
  {
    var texts := RenderedAll(lines);
    assert texts[1..] == RenderedAll(lines[1..]);
    if |lines| == 1 {
      assert Closed(lines[1..]) == "";
      assert Rendered(lines[0]) + "\n" + "" == Rendered(lines[0]) + "\n";
    } else {
      JoinedIsClosed(lines[1..]);
      assert texts[0] + "\n" + JoinedBy(texts[1..]) + "\n" == texts[0] + "\n" + (JoinedBy(texts[1..]) + "\n");
    }
  }

  // ---- reading a line ----

  datatype Item =
    | HelpItem(name: string, text: string)
    | TypeItem(name: string, kind: string)
    | SampleItem(reading: Reading)

  predicate IsBlank(c: char) { c == ' ' || c == '\t' }

  /** Any number of blanks and tabs separates tokens. */
  function Skipped(s: string): string {
    if s != "" && IsBlank(s[0]) then Skipped(s[1..]) else s
  }

  /** In a help text a backslash stands before a backslash or an n, for a line break. */
  function Unescaped(s: string): Option<string> {
    if s == "" then Some("")
    else if s[0] != '\\' then Prepended(s[0], Unescaped(s[1..]))
    else if |s| == 1 then None
    else if s[1] == '\\' then Prepended('\\', Unescaped(s[2..]))
    else if s[1] == 'n' then Prepended('\n', Unescaped(s[2..]))
    else None
  }

  function Prepended(c: char, s: Option<string>): Option<string> {
    if s.Some? then Some([c] + s.value) else None
  }

  const HELP := "# HELP "
  const TYPE := "# TYPE "

  /** A line that starts with a mark is a header; any other is a sample. */
  function ReadLine(line: string): Option<Item> {
    if HELP <= line then ReadHelp(line[|HELP|..])
    else if TYPE <= line then ReadType(line[|TYPE|..])
    else
      match ReadSample(line)
      case None => None
      case Some(r) => Some(SampleItem(r))
  }

  function ReadHelp(s: string): Option<Item> {
    var (name, rest) := ReadName(s);
    match Unescaped(Skipped(rest))
    case None => None
    case Some(text) => Some(HelpItem(name, text))
  }

  function ReadType(s: string): Option<Item> {
    var (name, rest) := ReadName(s);
    Some(TypeItem(name, Skipped(rest)))
  }

  /** Empty lines are ignored; a line that does not read fails the whole text. */
  function ReadAll(lines: seq<string>): Option<seq<Item>> {
    if lines == [] then Some([])
    else if lines[0] == "" then ReadAll(lines[1..])
    else Joined(ReadLine(lines[0]), ReadAll(lines[1..]))
  }

  function Joined(item: Option<Item>, items: Option<seq<Item>>): Option<seq<Item>> {
    if item.Some? && items.Some? then Some([item.value] + items.value) else None
  }

  function ReadText(text: string): Option<seq<Item>> { ReadAll(SplitLines(text)) }

  // ---- what a printed line reads as ----

  ghost predicate GoodNames(l: Line) {
    match l
    case Help(name, _) => IsName(name)
    case Type(name, _) => IsName(name)
    case Metric(s) => WellNamed(s)
  }

  /** The part of a line that holds names, and the free text after it. */
  function Head(l: Line): string {
    match l
    case Help(name, _) => HELP + name + " "
    case Type(name, _) => TYPE + name + " "
    case Metric(s) => SampleHead(s)
  }

  function Tail(l: Line): string {
    match l
    case Help(_, text) => text
    case Type(_, kind) => kind
    case Metric(s) => s.value
  }

  /** What the line should read as. */
  function ItemOf(l: Line): Item {
    match l
    case Help(name, text) => HelpItem(name, text)
    case Type(name, kind) => TypeItem(name, kind)
    case Metric(s) => SampleItem(Reading(s.name, Sorted(s.labels), s.value))
  }

  /** What it reads as with another free text. */
  function ItemWith(l: Line, tail: string): Option<Item> {
    match l
    case Help(name, _) => (match Unescaped(Skipped(tail))
                           case None => None
                           case Some(text) => Some(HelpItem(name, text)))
    case Type(name, _) => Some(TypeItem(name, Skipped(tail)))
    case Metric(s) => Some(SampleItem(Reading(s.name, Sorted(s.labels), tail)))
  }

  lemma MarkedReads(mark: string, name: string, tail: string)
    requires IsName(name)
    ensures (mark + name + " " + tail)[|mark|..] == name + (" " + tail)
    ensures ReadName(name + (" " + tail)) == (name, " " + tail)
    ensures Skipped(" " + tail) == Skipped(tail)
  {
    NameReadsBack(name, " " + tail);
    assert (" " + tail)[1..] == tail;
  }

  lemma HeadReads(l: Line, tail: string)
    requires GoodNames(l)
    ensures ReadLine(Head(l) + tail) == ItemWith(l, tail)
  {
    var line := Head(l) + tail;
    match l
    case Help(name, _) =>
      MarkedReads(HELP, name, tail);
      assert HELP <= line;
    case Type(name, _) =>
      MarkedReads(TYPE, name, tail);
      assert TYPE <= line && line[2] == 'T' && HELP[2] == 'H';
    case Metric(s) =>
      SampleHeadReads(s, tail);
      assert line[0] == s.name[0] && NameChar(line[0]) && HELP[0] == TYPE[0] == '#';
  }

  lemma RenderedIsHeadAndTail(l: Line)
    ensures Rendered(l) == Head(l) + Tail(l)
  {
    match l
    case Help(name, text) =>
    case Type(name, kind) =>
    case Metric(s) =>
  }

  lemma {:induction false} NamesAreOneLine(labels: seq<Label>)
    requires forall i :: 0 <= i < |labels| ==> IsName(labels[i].key)
    ensures OneLine(LabelBlock(labels))
  {
    if labels != [] {
      EscapeIsPerCharacter(labels[0].value);
      EscapedIsOneLine(labels[0].value);
      assert OneLine(labels[0].key);
      NamesAreOneLine(labels[1..]);
    }
  }

  lemma {:induction false} EscapedIsOneLine(s: string)
    ensures OneLine(EscapedText(s))
  {
    if s != "" {
      EscapedIsOneLine(s[1..]);
    }
  }

  lemma HeadIsOneLine(l: Line)
    requires GoodNames(l)
    ensures OneLine(Head(l)) && Head(l) != ""
  {
    match l
    case Help(name, _) => assert OneLine(name);
    case Type(name, _) => assert OneLine(name);
    case Metric(s) =>
      assert OneLine(s.name);
      SortedKeepsNames(s.labels);
      NamesAreOneLine(Sorted(s.labels));
  }

  // ---- which lines survive ----

  /** No line break, and no blank in front. */
  predicate IsPlain(s: string) { OneLine(s) && (s == "" || !IsBlank(s[0])) }

  predicate Survives(l: Line) {
    match l
    case Help(_, text) => IsPlain(text) && '\\' !in text
    case Type(_, kind) => IsPlain(kind)
    case Metric(s) => OneLine(s.value)
  }

  lemma {:induction false} SkippedIsShorter(s: string)
    ensures |Skipped(s)| <= |s|
    ensures Skipped(s) == s <==> s == "" || !IsBlank(s[0])
  {
    if s != "" && IsBlank(s[0]) {
      SkippedIsShorter(s[1..]);
    }
  }

  lemma {:induction false} UnescapedIsShorter(s: string)
    ensures Unescaped(s).Some? ==> |Unescaped(s).value| <= |s|
    ensures Unescaped(s) == Some(s) <==> '\\' !in s
    ensures Unescaped(s).Some? && '\\' in s ==> |Unescaped(s).value| < |s|
    decreases |s|
  {
    if s != "" && s[0] != '\\' {
      UnescapedIsShorter(s[1..]);
      assert s == [s[0]] + s[1..];
      assert Unescaped(s).Some? ==> Unescaped(s).value[1..] == Unescaped(s[1..]).value;
    } else if |s| > 1 && (s[1] == '\\' || s[1] == 'n') {
      UnescapedIsShorter(s[2..]);
    }
  }

  /** With all its free text a one-line line reads as it should exactly when it survives; with less it never does. */
  lemma ReadsRightExactly(l: Line, tail: string)
    requires |tail| <= |Tail(l)|
    ensures |tail| < |Tail(l)| ==> ItemWith(l, tail) != Some(ItemOf(l))
    ensures tail == Tail(l) && OneLine(tail) ==> (ItemWith(l, tail) == Some(ItemOf(l)) <==> Survives(l))
  {
    SkippedIsShorter(tail);
    UnescapedIsShorter(Skipped(tail));
  }

  // ---- the whole text ----

  ghost predicate AllSurvive(lines: seq<Line>) {
    forall i :: 0 <= i < |lines| ==> Survives(lines[i])
  }

  ghost predicate AllNamed(lines: seq<Line>) {
    forall i :: 0 <= i < |lines| ==> GoodNames(lines[i])
  }

  function ItemsOf(lines: seq<Line>): seq<Item> {
    if lines == [] then [] else [ItemOf(lines[0])] + ItemsOf(lines[1..])
  }

  /** The free text up to its first line break. */
  function FirstPart(s: string): (t: string)
    ensures OneLine(t) && |t| <= |s| && t == s[..|t|]
    ensures |t| < |s| ==> s[|t|] == '\n'
    ensures OneLine(s) ==> t == s
  {
    if s == "" || s[0] == '\n' then "" else [s[0]] + FirstPart(s[1..])
  }

  /** A nonempty first line is read before the rest. */
  lemma FirstLineFirst(line: string, rest: string)
    requires OneLine(line) && line != ""
    ensures ReadText(line + "\n" + rest) == Joined(ReadLine(line), ReadText(rest))
  {
    SplitFirst(line, rest);
    var lines := SplitLines(rest);
    assert ([line] + lines)[1..] == lines;
  }

  lemma Regroup(head: string, first: string, last: string, rest: string)
    ensures head + (first + "\n" + last) + "\n" + rest == (head + first) + "\n" + (last + "\n" + rest)
  {
    var broken := "\n" + last;
    assert head + (first + broken) == (head + first) + broken;
    assert (head + first) + broken + "\n" + rest == (head + first) + (broken + "\n" + rest);
    assert broken + "\n" + rest == "\n" + (last + "\n" + rest);
  }

  /** A text with a line break is its first part, the break, and the rest. */
  lemma Broken(s: string)
    requires !OneLine(s)
    ensures |FirstPart(s)| < |s| && s == FirstPart(s) + "\n" + s[|FirstPart(s)| + 1..]
  {
  }

  lemma BrokenLineFails(l: Line, rest: string, items: seq<Item>)
    requires GoodNames(l) && !OneLine(Tail(l))
    ensures ReadText(Rendered(l) + "\n" + rest) != Some([ItemOf(l)] + items)
  {
    var tail := Tail(l);
    var t := FirstPart(tail);
    Broken(tail);
    var last := tail[|t| + 1..];
    var more := last + "\n" + rest;
    HeadIsOneLine(l);
    HeadReads(l, t);
    ReadsRightExactly(l, t);
    RenderedIsHeadAndTail(l);
    Regroup(Head(l), t, last, rest);
    FirstLineFirst(Head(l) + t, more);
    FirstAndRest(ItemWith(l, t), ReadText(more), ItemOf(l), items);
  }

  lemma WholeLineReads(l: Line, rest: string)
    requires GoodNames(l) && OneLine(Tail(l))
    ensures ReadText(Rendered(l) + "\n" + rest) == Joined(ItemWith(l, Tail(l)), ReadText(rest))
  {
    HeadIsOneLine(l);
    HeadReads(l, Tail(l));
    RenderedIsHeadAndTail(l);
    FirstLineFirst(Rendered(l), rest);
  }

  lemma {:induction false} ClosedReadsBackExactly(lines: seq<Line>)
    requires AllNamed(lines)
    ensures ReadText(Closed(lines)) == Some(ItemsOf(lines)) <==> AllSurvive(lines)
  {
    if lines == [] {
      assert [""][1..] == [];
    } else {
      var l, rest := lines[0], lines[1..];
      ClosedReadsBackExactly(rest);
      if OneLine(Tail(l)) {
        WholeLineReads(l, Closed(rest));
        ReadsRightExactly(l, Tail(l));
        FirstAndRest(ItemWith(l, Tail(l)), ReadText(Closed(rest)), ItemOf(l), ItemsOf(rest));
      } else {
        BrokenLineFails(l, Closed(rest), ItemsOf(rest));
      }
      assert AllSurvive(lines) <==> Survives(l) && AllSurvive(rest) by {
        assert forall i :: 0 < i < |lines| ==> lines[i] == rest[i - 1];
        assert forall i :: 0 <= i < |rest| ==> rest[i] == lines[i + 1];
      }
    }
  }

  lemma FirstAndRest(read: Option<Item>, readRest: Option<seq<Item>>, item: Item, items: seq<Item>)
    ensures Joined(read, readRest) == Some([item] + items) <==> read == Some(item) && readRest == Some(items)
  {
    if read.Some? && readRest.Some? {
      assert ([read.value] + readRest.value)[0] == read.value && ([read.value] + readRest.value)[1..] == readRest.value;
      assert ([item] + items)[0] == item && ([item] + items)[1..] == items;
    }
  }

  // ---- in terms of samples ----

  /** Values are one line each; the help text and the kind of the first sample of a name are plain, and the help text
      has no backslash. What later samples of the name carry is never printed. */
  ghost predicate SampleSurvives(samples: seq<Sample>, i: nat)
    requires i < |samples|
  {
    && OneLine(samples[i].value)
    && (Named(samples[..i], samples[i].name)
        || (IsPlain(samples[i].help) && '\\' !in samples[i].help && IsPlain(samples[i].kind)))
  }

  ghost predicate SamplesSurvive(samples: seq<Sample>) {
    forall i :: 0 <= i < |samples| ==> SampleSurvives(samples, i)
  }

  ghost predicate AllWellNamed(samples: seq<Sample>) {
    forall i :: 0 <= i < |samples| ==> WellNamed(samples[i])
  }

  lemma SurviveTogether(a: seq<Line>, b: seq<Line>)
    ensures AllSurvive(a + b) <==> AllSurvive(a) && AllSurvive(b)
    ensures AllNamed(a + b) <==> AllNamed(a) && AllNamed(b)
  {
    assert forall i :: 0 <= i < |a| ==> (a + b)[i] == a[i];
    assert forall i :: 0 <= i < |b| ==> (a + b)[|a| + i] == b[i];
  }

  lemma LastSurvives(front: seq<Sample>, s: Sample)
    ensures SamplesSurvive(front + [s]) <==> SamplesSurvive(front) && SampleSurvives(front + [s], |front|)
  {
    var all := front + [s];
    forall i | 0 <= i < |front| ensures SampleSurvives(all, i) <==> SampleSurvives(front, i) {
      assert all[..i] == front[..i] && all[i] == front[i];
    }
  }

  lemma {:induction false} LinesSurviveWithSamples(samples: seq<Sample>)
    requires AllWellNamed(samples)
    ensures AllNamed(LinesOf(samples))
    ensures AllSurvive(LinesOf(samples)) <==> SamplesSurvive(samples)
  {
    if samples != [] {
      var front, s := samples[..|samples| - 1], samples[|samples| - 1];
      assert samples == front + [s];
      LinesSurviveWithSamples(front);
      NextLines(front, s);
      LastSurvives(front, s);
      SurviveTogether(LinesOf(front), HeadersFor(front, s));
      SurviveTogether(LinesOf(front) + HeadersFor(front, s), [Metric(s)]);
      assert samples[..|front|] == front;
      OwnLinesSurvive(front, s);
    }
  }

  lemma OwnLinesSurvive(front: seq<Sample>, s: Sample)
    requires WellNamed(s)
    ensures AllNamed(HeadersFor(front, s)) && AllNamed([Metric(s)])
    ensures AllSurvive([Metric(s)]) <==> OneLine(s.value)
    ensures AllSurvive(HeadersFor(front, s)) <==>
      Named(front, s.name) || (IsPlain(s.help) && '\\' !in s.help && IsPlain(s.kind))
  {
    assert [Metric(s)][0] == Metric(s);
    var headers := HeadersFor(front, s);
    if !Named(front, s.name) {
      assert headers[0] == Help(s.name, s.help) && headers[1] == Type(s.name, s.kind);
    }
  }

  lemma NothingReads()
    ensures ReadText(PrintedText([])) == Some([])
  {
    assert RenderedAll([]) == [];
    SplitFirst("", "");
    assert PrintedText([]) == "" + "\n" + "";
    assert [""] + [""] == ["", ""];
    assert ["", ""][1..] == [""] && [""][1..] == [];
    assert ReadAll([]) == Some([]);
    assert ReadAll([""]) == Some([]);
  }

  /** Main result on texts: a reader of the format gets back from a printed text exactly the headers and the samples, in
      order, if and only if values are one line each and the help texts and kinds that are printed need no escape:
      labels may hold any characters, help texts may not. */
  lemma TextReadsBackExactly(samples: seq<Sample>)
    requires AllWellNamed(samples)
    ensures ReadText(PrintedText(samples)) == Some(ItemsOf(LinesOf(samples))) <==> SamplesSurvive(samples)
  {
    LinesSurviveWithSamples(samples);
    if samples == [] {
      NothingReads();
    } else {
      assert LinesOf(samples) != [];
      JoinedIsClosed(LinesOf(samples));
      ClosedReadsBackExactly(LinesOf(samples));
    }
  }

  lemma {:induction false} SplitGivesOneLines(text: string)
    ensures forall i :: 0 <= i < |SplitLines(text)| ==> OneLine(SplitLines(text)[i])
  {
    if text != "" {
      SplitGivesOneLines(text[1..]);
    }
  }

  lemma {:induction false} ClosedSplits(lines: seq<Line>)
    requires forall i :: 0 <= i < |lines| ==> OneLine(Rendered(lines[i]))
    ensures SplitLines(Closed(lines)) == RenderedAll(lines) + [""]
  {
    if lines != [] {
      var first, rest := Rendered(lines[0]), lines[1..];
      ClosedSplits(rest);
      SplitFirst(first, Closed(rest));
      assert RenderedAll(lines) == [first] + RenderedAll(rest);
      assert ([first] + RenderedAll(rest)) + [""] == [first] + (RenderedAll(rest) + [""]);
    }
  }

  lemma RenderedIsOneLine(l: Line)
    requires GoodNames(l)
    ensures OneLine(Rendered(l)) <==> OneLine(Tail(l))
  {
    HeadIsOneLine(l);
    RenderedIsHeadAndTail(l);
  }

  ghost predicate TailsOneLine(lines: seq<Line>) {
    forall i :: 0 <= i < |lines| ==> OneLine(Tail(lines[i]))
  }

  /** A printed text splits into its lines exactly when the free text of every printed line is one line: of all values,
      and of the help text and kind that the first sample of a name brings. */
  lemma BrokenLinesSplit(text: string, lines: seq<Line>)
    requires exists i :: 0 <= i < |lines| && !OneLine(Rendered(lines[i]))
    ensures SplitLines(text) != RenderedAll(lines) + [""]
  {
    var i :| 0 <= i < |lines| && !OneLine(Rendered(lines[i]));
    SplitGivesOneLines(text);
    assert (RenderedAll(lines) + [""])[i] == Rendered(lines[i]);
  }

  lemma TextSplitsExactly(samples: seq<Sample>)
    requires AllWellNamed(samples) && samples != []
    ensures SplitLines(PrintedText(samples)) == RenderedAll(LinesOf(samples)) + [""] <==> SamplesOneLine(samples)
  {
    var lines := LinesOf(samples);
    LinesSurviveWithSamples(samples);
    TailsWithSamples(samples);
    assert lines != [];
    JoinedIsClosed(lines);
    forall i | 0 <= i < |lines| ensures OneLine(Rendered(lines[i])) <==> OneLine(Tail(lines[i])) {
      RenderedIsOneLine(lines[i]);
    }
    if TailsOneLine(lines) {
      ClosedSplits(lines);
    } else {
      BrokenLinesSplit(PrintedText(samples), lines);
    }
  }

  ghost predicate SampleIsOneLine(samples: seq<Sample>, i: nat)
    requires i < |samples|
  {
    OneLine(samples[i].value)
      && (Named(samples[..i], samples[i].name) || (OneLine(samples[i].help) && OneLine(samples[i].kind)))
  }

  ghost predicate SamplesOneLine(samples: seq<Sample>) {
    forall i :: 0 <= i < |samples| ==> SampleIsOneLine(samples, i)
  }

  lemma {:induction false} TailsWithSamples(samples: seq<Sample>)
    ensures TailsOneLine(LinesOf(samples)) <==> SamplesOneLine(samples)
  {
    if samples != [] {
      var front, s := samples[..|samples| - 1], samples[|samples| - 1];
      assert samples == front + [s] && samples[..|front|] == front;
      TailsWithSamples(front);
      NextLines(front, s);
      TailsTogether(LinesOf(front), HeadersFor(front, s), [Metric(s)]);
      OwnTails(front, s);
      LastIsOneLine(front, s);
    }
  }

  lemma LastIsOneLine(front: seq<Sample>, s: Sample)
    ensures SamplesOneLine(front + [s]) <==> SamplesOneLine(front) && SampleIsOneLine(front + [s], |front|)
  {
    var all := front + [s];
    forall i | 0 <= i < |front| ensures SampleIsOneLine(all, i) <==> SampleIsOneLine(front, i) {
      assert all[..i] == front[..i] && all[i] == front[i];
    }
  }

  lemma TailsTogether(a: seq<Line>, b: seq<Line>, c: seq<Line>)
    ensures TailsOneLine(a + b + c) <==> TailsOneLine(a) && TailsOneLine(b) && TailsOneLine(c)
  {
    var all := a + b + c;
    assert forall i :: 0 <= i < |a| ==> all[i] == a[i];
    assert forall i :: 0 <= i < |b| ==> all[|a| + i] == b[i];
    assert forall i :: 0 <= i < |c| ==> all[|a| + |b| + i] == c[i];
  }

  lemma OwnTails(front: seq<Sample>, s: Sample)
    ensures TailsOneLine([Metric(s)]) <==> OneLine(s.value)
    ensures TailsOneLine(HeadersFor(front, s)) <==> Named(front, s.name) || (OneLine(s.help) && OneLine(s.kind))
  {
    assert [Metric(s)][0] == Metric(s);
    var headers := HeadersFor(front, s);
    if !Named(front, s.name) {
      assert headers[0] == Help(s.name, s.help) && headers[1] == Type(s.name, s.kind);
    }
  }

  /** Two help texts that do not come back: one with a line break, one with a backslash. */
  lemma UnescapedHelpFails(text: string)
    requires text == "a\nb" || text == "a\\b"
    ensures var samples := [Sample("m", "1", [], text, "gauge")];
      AllWellNamed(samples) && ReadText(PrintedText(samples)) != Some(ItemsOf(LinesOf(samples)))
  {
    var samples := [Sample("m", "1", [], text, "gauge")];
    assert samples[..0] == [];
    assert text[1] in text;
    assert !SampleSurvives(samples, 0);
    TextReadsBackExactly(samples);
  }

  /** The first sample of a name gives the name its help text and kind. */
  lemma {:induction false} FirstSampleGivesHeaders(samples: seq<Sample>, i: nat)
    requires i < |samples| && !Named(samples[..i], samples[i].name)
    ensures Help(samples[i].name, samples[i].help) in LinesOf(samples)
    ensures Type(samples[i].name, samples[i].kind) in LinesOf(samples)
  {
    var front := samples[..|samples| - 1];
    if i < |front| {
      assert front[..i] == samples[..i];
      FirstSampleGivesHeaders(front, i);
    } else {
      assert front == samples[..i];
    }
  }
}
