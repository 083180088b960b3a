/** Printing metric samples in the Prometheus text format, and reading them back. */
module Prometheus {

  import opened Values

  datatype Label = Label(key: string, value: string)

  /** The labels in the order of their dictionary; the value in printed form. */
  datatype Sample = Sample(name: string, value: string, labels: seq<Label>, help: string, kind: string)

  // ---- escaping ----

  function Replaced(s: string, c: char, put: string): string {
    if s == "" then "" else (if s[0] == c then put else [s[0]]) + Replaced(s[1..], c, put)
  }

  /** Three replacements, one after the other. */
  function Escape(s: string): string {
    Replaced(Replaced(Replaced(s, '\\', "\\\\"), '"', "\\\""), '\n', "\\n")
  }

  function EscapedChar(c: char): string {
    if c == '\\' then "\\\\" else if c == '"' then "\\\"" else if c == '\n' then "\\n" else [c]
  }

  function EscapedText(s: string): string {
    if s == "" then "" else EscapedChar(s[0]) + EscapedText(s[1..])
  }

  lemma {:induction false} ReplacedConcat(a: string, b: string, c: char, put: string)
    ensures Replaced(a + b, c, put) == Replaced(a, c, put) + Replaced(b, c, put)
  {
    if a == "" {
      assert a + b == b;
    } else {
      assert (a + b)[1..] == a[1..] + b;
      ReplacedConcat(a[1..], b, c, put);
    }
  }

  lemma EscapeOfChar(c: char)
    ensures Escape([c]) == EscapedChar(c)
  {
    assert [c][1..] == "";
    if c == '\\' {
      assert Replaced([c], '\\', "\\\\") == "\\\\";
      assert "\\\\"[1..] == "\\" && "\\"[1..] == "";
      assert Replaced("\\", '"', "\\\"") == "\\";
      assert Replaced("\\\\", '"', "\\\"") == "\\\\";
      assert Replaced("\\", '\n', "\\n") == "\\";
    } else if c == '"' {
      assert "\\\""[1..] == "\"" && "\""[1..] == "";
      assert Replaced("\"", '\n', "\\n") == "\"";
    }
  }

  /** Escaping in full: backslash, double quote and line break each become two characters, any other stays, and pieces
      are escaped on their own. */
  lemma EscapeInFull(a: string, b: string, c: char)
    ensures Escape("\\") == ['\\', '\\'] && Escape("\"") == ['\\', '"'] && Escape("\n") == ['\\', 'n']
    ensures c !in "\\\"\n" ==> Escape([c]) == [c]
    ensures Escape(a + b) == Escape(a) + Escape(b)
  {
    EscapeOfChar('\\');
    EscapeOfChar('"');
    EscapeOfChar('\n');
    EscapeOfChar(c);
    ReplacedConcat(a, b, '\\', "\\\\");
    ReplacedConcat(Replaced(a, '\\', "\\\\"), Replaced(b, '\\', "\\\\"), '"', "\\\"");
    ReplacedConcat(Replaced(Replaced(a, '\\', "\\\\"), '"', "\\\""),
      Replaced(Replaced(b, '\\', "\\\\"), '"', "\\\""), '\n', "\\n");
  }

  /** The three replacements do not interfere: they are one replacement per character. */
  lemma {:induction false} EscapeIsPerCharacter(s: string)
    ensures Escape(s) == EscapedText(s)
  {
    if s != "" {
      var c, rest := [s[0]], s[1..];
      assert s == c + rest;
      ReplacedConcat(c, rest, '\\', "\\\\");
      ReplacedConcat(Replaced(c, '\\', "\\\\"), Replaced(rest, '\\', "\\\\"), '"', "\\\"");
      ReplacedConcat(Replaced(Replaced(c, '\\', "\\\\"), '"', "\\\""),
        Replaced(Replaced(rest, '\\', "\\\\"), '"', "\\\""), '\n', "\\n");
      EscapeOfChar(s[0]);
      EscapeIsPerCharacter(rest);
    }
  }

  // ---- reading a quoted value ----

  /** Reads up to the closing quote, undoing escapes; an unknown escape or a missing quote fails. */
  function ReadQuoted(s: string): Option<(string, string)> {
    if s == "" then None
    else if s[0] == '"' then Some(("", s[1..]))
    else if s[0] != '\\' then Before(s[0], ReadQuoted(s[1..]))
    else if |s| == 1 then None
    else if s[1] == '\\' || s[1] == '"' then Before(s[1], ReadQuoted(s[2..]))
    else if s[1] == 'n' then Before('\n', ReadQuoted(s[2..]))
    else None
  }

  function Before(c: char, r: Option<(string, string)>): Option<(string, string)> {
    if r.Some? then Some(([c] + r.value.0, r.value.1)) else None
  }

  lemma {:induction false} QuotedReadsBack(v: string, rest: string)
    ensures ReadQuoted(EscapedText(v) + "\"" + rest) == Some((v, rest))
  {
    if v == "" {
      var s := EscapedText(v) + "\"" + rest;
      assert s == "\"" + rest;
      assert s[1..] == rest;
    } else {
      var e, tail := EscapedChar(v[0]), EscapedText(v[1..]) + "\"" + rest;
      assert EscapedText(v) + "\"" + rest == e + tail;
      assert (e + tail)[|e|..] == tail;
      QuotedReadsBack(v[1..], rest);
      assert [v[0]] + v[1..] == v;
    }
  }

  // ---- labels in order ----

  ghost predicate InOrder(labels: seq<Label>) {
    forall i, j :: 0 <= i < j < |labels| ==> AtMost(labels[i].key, labels[j].key)
  }

  function Inserted(labels: seq<Label>, x: Label): seq<Label> {
    if labels == [] || AtMost(x.key, labels[0].key) then [x] + labels else [labels[0]] + Inserted(labels[1..], x)
  }

  function Sorted(labels: seq<Label>): seq<Label> {
    if labels == [] then [] else Inserted(Sorted(labels[1..]), labels[0])
  }

  lemma {:induction false} InsertedIsSame(labels: seq<Label>, x: Label)
    ensures multiset(Inserted(labels, x)) == multiset(labels) + multiset{x}
  {
    if labels != [] && !AtMost(x.key, labels[0].key) {
      InsertedIsSame(labels[1..], x);
      assert labels == [labels[0]] + labels[1..];
    }
  }

  lemma {:induction false} InsertedFrom(labels: seq<Label>, x: Label, l: Label)
    requires l in Inserted(labels, x)
    ensures l == x || l in labels
  {
    InsertedIsSame(labels, x);
    assert l in multiset(Inserted(labels, x));
  }

  lemma {:induction false} InsertedKeepsOrder(labels: seq<Label>, x: Label)
    requires InOrder(labels)
    ensures InOrder(Inserted(labels, x))
  {
    if labels != [] && AtMost(x.key, labels[0].key) {
      forall i | 0 <= i < |labels| ensures AtMost(x.key, labels[i].key) {
        if i > 0 {
          AtMostIsTransitive(x.key, labels[0].key, labels[i].key);
        }
      }
    } else if labels != [] {
      AtMostIsTotal(x.key, labels[0].key);
      InsertedKeepsOrder(labels[1..], x);
      var rest := Inserted(labels[1..], x);
      forall i | 0 <= i < |rest| ensures AtMost(labels[0].key, rest[i].key) {
        InsertedFrom(labels[1..], x, rest[i]);
      }
    }
  }

  /** The printed labels are the given ones, by ascending key. */
  lemma {:induction false} SortedIsOrdered(labels: seq<Label>)
    ensures InOrder(Sorted(labels)) && multiset(Sorted(labels)) == multiset(labels)
  {
    if labels != [] {
      SortedIsOrdered(labels[1..]);
      InsertedKeepsOrder(Sorted(labels[1..]), labels[0]);
      InsertedIsSame(Sorted(labels[1..]), labels[0]);
      assert labels == [labels[0]] + labels[1..];
    }
  }

  // ---- a sample line ----

  function LabelText(l: Label): string { l.key + "=\"" + Escape(l.value) + "\"" }

  function LabelBlock(labels: seq<Label>): string {
    if labels == [] then ""
    else if |labels| == 1 then LabelText(labels[0])
    else LabelText(labels[0]) + "," + LabelBlock(labels[1..])
  }

  function SampleLine(s: Sample): string { s.name + "{" + LabelBlock(Sorted(s.labels)) + "} " + s.value }

  /** A label block in full: key, equals sign, quoted escaped value, with commas between the labels. */
  lemma {:induction false} LabelBlockInFull(a: seq<Label>, b: seq<Label>, l: Label)
    ensures LabelBlock([]) == ""
    ensures LabelBlock([l]) == l.key + "=\"" + Escape(l.value) + "\""
    ensures a != [] && b != [] ==> LabelBlock(a + b) == LabelBlock(a) + "," + LabelBlock(b)
  {
    if a != [] && b != [] {
      assert (a + b)[1..] == a[1..] + b;
      if |a| == 1 {
        assert a[1..] + b == b;
      } else {
        LabelBlockInFull(a[1..], b, l);
        var first, rest, last := LabelText(a[0]) + ",", LabelBlock(a[1..]), "," + LabelBlock(b);
        assert first + (rest + last) == (first + rest) + last;
      }
    }
  }

  /** The characters of metric and label names. */
  predicate IsName(s: string) {
    s != "" && forall i :: 0 <= i < |s| ==> NameChar(s[i])
  }

  predicate NameChar(c: char) {
    'a' <= c <= 'z' || 'A' <= c <= 'Z' || '0' <= c <= '9' || c == '_' || c == ':'
  }

  function ReadName(s: string): (string, string) {
    if s == "" || !NameChar(s[0]) then ("", s)
    else
      var (name, rest) := ReadName(s[1..]);
      ([s[0]] + name, rest)
  }

  lemma {:induction false} NameReadsBack(name: string, rest: string)
    requires forall i :: 0 <= i < |name| ==> NameChar(name[i])
    requires rest == "" || !NameChar(rest[0])
    ensures ReadName(name + rest) == (name, rest)
  {
    if name == "" {
      assert name + rest == rest;
    } else {
      assert (name + rest)[1..] == name[1..] + rest;
      NameReadsBack(name[1..], rest);
      assert [name[0]] + name[1..] == name;
    }
  }

  function ReadLabel(s: string): Option<(Label, string)> {
    var (key, rest) := ReadName(s);
    if |rest| < 2 || rest[0] != '=' || rest[1] != '"' then None
    else
      match ReadQuoted(rest[2..])
      case None => None
      case Some((value, after)) => Some((Label(key, value), after))
  }

  /** Reads labels up to the closing brace. */
  function ReadLabels(s: string, fuel: nat): Option<(seq<Label>, string)>
    decreases fuel
  {
    if s != "" && s[0] == '}' then Some(([], s[1..]))
    else if fuel == 0 then None
    else
      match ReadLabel(s)
      case None => None
      case Some((first, rest)) =>
        match ReadLabels(if rest != "" && rest[0] == ',' then rest[1..] else rest, fuel - 1)
        case None => None
        case Some((labels, after)) => Some(([first] + labels, after))
  }

  lemma LabelReadsBack(l: Label, rest: string)
    requires IsName(l.key)
    ensures ReadLabel(LabelText(l) + rest) == Some((l, rest))
  {
    var quoted := EscapedText(l.value) + "\"" + rest;
    EscapeIsPerCharacter(l.value);
    assert LabelText(l) + rest == l.key + ("=\"" + quoted);
    NameReadsBack(l.key, "=\"" + quoted);
    assert ("=\"" + quoted)[2..] == quoted;
    QuotedReadsBack(l.value, rest);
  }

  /** One label, then what follows it. */
  lemma LabelThenRest(l: Label, tail: string, labels: seq<Label>, rest: string, fuel: nat)
    requires IsName(l.key) && fuel > 0 && tail != ""
    requires ReadLabels(if tail[0] == ',' then tail[1..] else tail, fuel - 1) == Some((labels, rest))
    ensures ReadLabels(LabelText(l) + tail, fuel) == Some(([l] + labels, rest))
  {
    LabelReadsBack(l, tail);
    assert (LabelText(l) + tail)[0] == l.key[0];
  }

  lemma Regroup(a: string, b: string, c: string, d: string, e: string)
    ensures a + b + c + d + e == a + (b + (c + d + e))
    ensures a + d + e == a + (d + e)
  {
  }

  lemma {:induction false} BlockSplits(labels: seq<Label>, rest: string)
    requires labels != []
    ensures |labels| == 1 ==> LabelBlock(labels) + "}" + rest == LabelText(labels[0]) + ("}" + rest)
    ensures |labels| > 1 ==>
      LabelBlock(labels) + "}" + rest == LabelText(labels[0]) + ("," + (LabelBlock(labels[1..]) + "}" + rest))
  {
    Regroup(LabelText(labels[0]), ",", LabelBlock(labels[1..]), "}", rest);
  }

  lemma {:induction false} LabelsReadBack(labels: seq<Label>, rest: string, fuel: nat)
    requires (forall i :: 0 <= i < |labels| ==> IsName(labels[i].key)) && fuel >= |labels|
    ensures ReadLabels(LabelBlock(labels) + "}" + rest, fuel) == Some((labels, rest))
  {
    if labels == [] {
      assert LabelBlock(labels) + "}" + rest == "}" + rest;
      assert ("}" + rest)[1..] == rest;
    } else {
      BlockSplits(labels, rest);
      assert [labels[0]] + labels[1..] == labels;
      if |labels| == 1 {
        assert ("}" + rest)[1..] == rest && labels[1..] == [];
        LabelThenRest(labels[0], "}" + rest, [], rest, fuel);
      } else {
        var more := LabelBlock(labels[1..]) + "}" + rest;
        LabelsReadBack(labels[1..], rest, fuel - 1);
        assert ("," + more)[1..] == more;
        LabelThenRest(labels[0], "," + more, labels[1..], rest, fuel);
      }
    }
  }

  datatype Reading = Reading(name: string, labels: seq<Label>, value: string)

  function ReadSample(line: string): Option<Reading> {
    var (name, rest) := ReadName(line);
    if rest == "" || rest[0] != '{' then None
    else
      match ReadLabels(rest[1..], |rest|)
      case None => None
      case Some((labels, after)) =>
        if after != "" && after[0] == ' ' then Some(Reading(name, labels, after[1..])) else None
  }

  /** The metric and its labels have names the format allows. */
  ghost predicate WellNamed(s: Sample) {
    IsName(s.name) && forall i :: 0 <= i < |s.labels| ==> IsName(s.labels[i].key)
  }

  lemma {:induction false} LabelBlockIsLong(labels: seq<Label>)
    ensures |LabelBlock(labels)| >= |labels|
  {
    if |labels| > 1 {
      LabelBlockIsLong(labels[1..]);
    }
  }

  lemma SortedKeepsNames(labels: seq<Label>)
    requires forall i :: 0 <= i < |labels| ==> IsName(labels[i].key)
    ensures forall i :: 0 <= i < |Sorted(labels)| ==> IsName(Sorted(labels)[i].key)
  {
    SortedIsOrdered(labels);
    var sorted := Sorted(labels);
    forall i | 0 <= i < |sorted| ensures IsName(sorted[i].key) {
      assert sorted[i] in multiset(sorted);
      assert sorted[i] in labels;
    }
  }

  lemma BlockReadsBack(labels: seq<Label>, value: string, fuel: nat)
    requires (forall i :: 0 <= i < |labels| ==> IsName(labels[i].key)) && fuel >= |LabelBlock(labels)|
    ensures ReadLabels(LabelBlock(labels) + "} " + value, fuel) == Some((labels, " " + value))
  {
    LabelBlockIsLong(labels);
    LabelsReadBack(labels, " " + value, fuel);
    assert LabelBlock(labels) + "} " + value == LabelBlock(labels) + "}" + (" " + value);
  }

  /** Everything of a sample line before its value. */
  function SampleHead(s: Sample): string { s.name + "{" + LabelBlock(Sorted(s.labels)) + "} " }

  lemma SampleHeadReads(s: Sample, value: string)
    requires WellNamed(s)
    ensures ReadSample(SampleHead(s) + value) == Some(Reading(s.name, Sorted(s.labels), value))
  {
    SortedKeepsNames(s.labels);
    var block := LabelBlock(Sorted(s.labels)) + "} " + value;
    var rest := "{" + block;
    assert SampleHead(s) + value == s.name + rest;
    NameReadsBack(s.name, rest);
    assert rest[1..] == block;
    BlockReadsBack(Sorted(s.labels), value, |rest|);
    assert (" " + value)[1..] == value;
  }

  /** Main result on lines: a printed sample reads back as its name, its labels by ascending key, whatever characters
      their values hold, and its value. */
  lemma SampleReadsBack(s: Sample)
    requires WellNamed(s)
    ensures ReadSample(SampleLine(s)) == Some(Reading(s.name, Sorted(s.labels), s.value))
  {
    SampleHeadReads(s, s.value);
    assert SampleLine(s) == SampleHead(s) + s.value;
  }

  // ---- the whole text ----

  datatype Line = Help(name: string, text: string) | Type(name: string, kind: string) | Metric(sample: Sample)

  predicate Named(samples: seq<Sample>, name: string) {
    exists i :: 0 <= i < |samples| && samples[i].name == name
  }

  lemma NamedLast(front: seq<Sample>, s: Sample)
    ensures forall name :: Named(front + [s], name) <==> Named(front, name) || name == s.name
  {
    var all := front + [s];
    forall name ensures Named(all, name) <==> Named(front, name) || name == s.name {
      if Named(front, name) {
        var i :| 0 <= i < |front| && front[i].name == name;
        assert all[i].name == name;
      } else if name == s.name {
        assert all[|front|].name == name;
      }
    }
  }

  function LinesOf(samples: seq<Sample>): seq<Line> {
    if samples == [] then []
    else
      var front, s := samples[..|samples| - 1], samples[|samples| - 1];
      LinesOf(front) + HeadersFor(front, s) + [Metric(s)]
  }

  /** The first sample of a name brings the headers. */
  function HeadersFor(front: seq<Sample>, s: Sample): seq<Line> {
    if Named(front, s.name) then [] else [Help(s.name, s.help), Type(s.name, s.kind)]
  }

  ghost predicate HeadedAt(lines: seq<Line>, name: string, i: int) {
    && 0 <= i && i + 1 < |lines|
    && lines[i].Help? && lines[i].name == name
    && lines[i + 1].Type? && lines[i + 1].name == name
  }

  ghost predicate Headed(lines: seq<Line>, name: string, before: int) {
    exists i :: i + 1 < before && HeadedAt(lines, name, i)
  }

  ghost predicate HeadersOnce(lines: seq<Line>) {
    && (forall i, j :: 0 <= i < j < |lines| && lines[i].Help? && lines[j].Help? ==> lines[i].name != lines[j].name)
    && (forall i, j :: 0 <= i < j < |lines| && lines[i].Type? && lines[j].Type? ==> lines[i].name != lines[j].name)
  }

  ghost predicate SamplesHeaded(lines: seq<Line>) {
    forall i :: 0 <= i < |lines| && lines[i].Metric? ==> Headed(lines, lines[i].sample.name, i)
  }

  lemma {:induction false} HeadersAreOfNames(samples: seq<Sample>)
    ensures forall i :: 0 <= i < |LinesOf(samples)| && !LinesOf(samples)[i].Metric? ==>
      Named(samples, LinesOf(samples)[i].name)
    ensures forall name :: Named(samples, name) ==> Headed(LinesOf(samples), name, |LinesOf(samples)|)
  {
    if samples != [] {
      var front, s := samples[..|samples| - 1], samples[|samples| - 1];
      HeadersAreOfNames(front);
      var before, lines := LinesOf(front), LinesOf(samples);
      NamedLast(front, s);
      assert samples == front + [s];
      forall name | Named(samples, name) ensures Headed(lines, name, |lines|) {
        if Named(front, name) {
          var i :| i + 1 < |before| && HeadedAt(before, name, i);
          assert HeadedAt(lines, name, i);
        } else {
          assert HeadedAt(lines, name, |before|);
        }
      }
    }
  }

  lemma HeadedEarlier(before: seq<Line>, more: seq<Line>, name: string, i: int)
    requires Headed(before, name, i)
    ensures Headed(before + more, name, i)
  {
    var k :| k + 1 < i && HeadedAt(before, name, k);
    assert HeadedAt(before + more, name, k);
  }

  lemma SamplesStayHeaded(front: seq<Sample>, s: Sample)
    requires SamplesHeaded(LinesOf(front))
    ensures SamplesHeaded(LinesOf(front + [s]))
  {
    var before, more := LinesOf(front), HeadersFor(front, s) + [Metric(s)];
    var lines := LinesOf(front + [s]);
    NextLines(front, s);
    assert lines == before + more;
    forall i | 0 <= i < |lines| && lines[i].Metric? ensures Headed(lines, lines[i].sample.name, i) {
      if i < |before| {
        HeadedEarlier(before, more, lines[i].sample.name, i);
      } else if Named(front, s.name) {
        HeadersAreOfNames(front);
        HeadedEarlier(before, more, s.name, |before|);
      } else {
        assert HeadedAt(lines, s.name, |before|);
      }
    }
  }

  ghost predicate HeaderNamed(lines: seq<Line>, i: int, name: string) {
    0 <= i < |lines| && !lines[i].Metric? && lines[i].name == name
  }

  lemma OnceAppended(before: seq<Line>, more: seq<Line>)
    requires HeadersOnce(before) && HeadersOnce(more)
    requires forall i, j, name :: HeaderNamed(before, i, name) && HeaderNamed(more, j, name) ==> false
    ensures HeadersOnce(before + more)
  {
    var lines, n := before + more, |before|;
    forall i, j | 0 <= i < j < |lines| && !lines[i].Metric? && !lines[j].Metric? && lines[i].name == lines[j].name
      ensures lines[i].Help? != lines[j].Help?
    {
      if i < n <= j {
        assert HeaderNamed(before, i, lines[i].name) && HeaderNamed(more, j - n, lines[i].name);
      } else if n <= i {
        assert lines[i] == more[i - n] && lines[j] == more[j - n];
      }
    }
  }

  lemma HeadersStayOnce(front: seq<Sample>, s: Sample)
    requires HeadersOnce(LinesOf(front))
    ensures HeadersOnce(LinesOf(front + [s]))
  {
    HeadersAreOfNames(front);
    NextLines(front, s);
    var before, more := LinesOf(front), HeadersFor(front, s) + [Metric(s)];
    assert LinesOf(front + [s]) == before + more;
    OnceAppended(before, more);
  }

  /** Main result on headers: HELP and TYPE come exactly once per metric name, together, before its first sample. */
  lemma {:induction false} HeadersAreExact(samples: seq<Sample>)
    ensures HeadersOnce(LinesOf(samples)) && SamplesHeaded(LinesOf(samples))
  {
    if samples != [] {
      var front, s := samples[..|samples| - 1], samples[|samples| - 1];
      HeadersAreExact(front);
      assert samples == front + [s];
      HeadersStayOnce(front, s);
      SamplesStayHeaded(front, s);
    }
  }

  function Rendered(l: Line): string {
    match l
    case Help(name, text) => "# HELP " + name + " " + text
    case Type(name, kind) => "# TYPE " + name + " " + kind
    case Metric(sample) => SampleLine(sample)
  }

  function RenderedAll(lines: seq<Line>): seq<string> {
    seq(|lines|, i requires 0 <= i < |lines| => Rendered(lines[i]))
  }

  function JoinedBy(lines: seq<string>): string {
    if lines == [] then "" else if |lines| == 1 then lines[0] else lines[0] + "\n" + JoinedBy(lines[1..])
  }

  function PrintedText(samples: seq<Sample>): string {
    JoinedBy(RenderedAll(LinesOf(samples))) + "\n"
  }

  lemma NextLines(front: seq<Sample>, s: Sample)
    ensures LinesOf(front + [s]) == LinesOf(front) + HeadersFor(front, s) + [Metric(s)]
    ensures RenderedAll(LinesOf(front + [s]))
      == RenderedAll(LinesOf(front)) + RenderedAll(HeadersFor(front, s)) + [SampleLine(s)]
  {
    assert (front + [s])[..|front|] == front;
  }

  lemma {:induction false} JoinedByAppend(a: seq<string>, b: seq<string>)
    requires a != [] && b != []
    ensures JoinedBy(a + b) == JoinedBy(a) + "\n" + JoinedBy(b)
  {
    assert (a + b)[1..] == a[1..] + b;
    if |a| == 1 {
      assert a[1..] + b == b;
    } else {
      JoinedByAppend(a[1..], b);
      var first, rest, last := a[0] + "\n", JoinedBy(a[1..]), "\n" + JoinedBy(b);
      assert first + (rest + last) == (first + rest) + last;
    }
  }

  /** The lines one more sample adds. */
  function Added(front: seq<Sample>, s: Sample): string {
    var sample := s.name + "{" + LabelBlock(Sorted(s.labels)) + "} " + s.value;
    if exists i :: 0 <= i < |front| && front[i].name == s.name then sample
    else "# HELP " + s.name + " " + s.help + "\n" + ("# TYPE " + s.name + " " + s.kind + "\n" + sample)
  }

  lemma JoinedAdded(front: seq<Sample>, s: Sample)
    ensures JoinedBy(RenderedAll(HeadersFor(front, s)) + [SampleLine(s)]) == Added(front, s)
  {
    if Named(front, s.name) {
      assert RenderedAll(HeadersFor(front, s)) + [SampleLine(s)] == [SampleLine(s)];
    } else {
      var help, kind := "# HELP " + s.name + " " + s.help, "# TYPE " + s.name + " " + s.kind;
      var lines := [help, kind, SampleLine(s)];
      assert RenderedAll(HeadersFor(front, s)) + [SampleLine(s)] == lines;
      assert lines[1..] == [kind, SampleLine(s)] && lines[1..][1..] == [SampleLine(s)];
      assert JoinedBy([SampleLine(s)]) == SampleLine(s);
      assert JoinedBy([kind, SampleLine(s)]) == kind + "\n" + SampleLine(s);
      assert JoinedBy(lines) == help + "\n" + (kind + "\n" + SampleLine(s));
    }
  }

  /** The text in full: one line break for no samples; otherwise what the samples before give, then HELP and TYPE if the
      name is new, then the sample, each on a line of its own. */
  lemma TextInFull(front: seq<Sample>, s: Sample)
    ensures PrintedText([]) == "\n"
    ensures PrintedText(front + [s]) == (if front == [] then "" else PrintedText(front)) + Added(front, s) + "\n"
  {
    NextLines(front, s);
    var before, more := RenderedAll(LinesOf(front)), RenderedAll(HeadersFor(front, s)) + [SampleLine(s)];
    JoinedAdded(front, s);
    assert RenderedAll(LinesOf(front + [s])) == before + more;
    if front == [] {
      assert before + more == more;
    } else {
      JoinedByAppend(before, more);
    }
  }

  /** Groups by name as it goes; the text ends with a line break. */
  method MeshBrainSamplesToPrometheus(samples: seq<Sample>) returns (text: string)
    ensures text == PrintedText(samples)
  {
    var grouped: set<string> := {};
    var lines: seq<string> := [];
    for i := 0 to |samples|
      invariant forall name :: name in grouped <==> Named(samples[..i], name)
      invariant lines == RenderedAll(LinesOf(samples[..i]))
    {
      var sample := samples[i];
      ghost var front := samples[..i];
      NamedLast(front, sample);
      NextLines(front, sample);
      assert samples[..i + 1] == front + [sample];
      var headers := [];
      if sample.name !in grouped {
        grouped := grouped + {sample.name};
        headers := ["# HELP " + sample.name + " " + sample.help];
        headers := headers + ["# TYPE " + sample.name + " " + sample.kind];
      }
      assert headers == RenderedAll(HeadersFor(front, sample));
      lines := lines + headers;
      lines := lines + [SampleLine(sample)];
    }
    assert samples[..|samples|] == samples;
    text := JoinedBy(lines) + "\n";
  }

  /** The samples among the lines are the given ones, in order. */
  function MetricsOf(lines: seq<Line>): seq<Sample> {
    if lines == [] then []
    else MetricsOf(lines[..|lines| - 1]) + if lines[|lines| - 1].Metric? then [lines[|lines| - 1].sample] else []
  }

  lemma {:induction false} MetricsAppend(a: seq<Line>, b: seq<Line>)
    ensures MetricsOf(a + b) == MetricsOf(a) + MetricsOf(b)
  {
    if b == [] {
      assert a + b == a;
    } else {
      assert (a + b)[..|a + b| - 1] == a + b[..|b| - 1];
      MetricsAppend(a, b[..|b| - 1]);
    }
  }

  lemma HeadersHoldNoSample(front: seq<Sample>, s: Sample)
    ensures MetricsOf(HeadersFor(front, s)) == []
  {
    var headers := HeadersFor(front, s);
    if headers != [] {
      var help, kind := Help(s.name, s.help), Type(s.name, s.kind);
      assert [help][..0] == [] && MetricsOf([]) == [];
      assert MetricsOf([help]) == [];
      assert [help, kind][..1] == [help];
    }
  }

  lemma {:induction false} NoSampleIsLost(samples: seq<Sample>)
    ensures MetricsOf(LinesOf(samples)) == samples
  {
    if samples != [] {
      var front, s := samples[..|samples| - 1], samples[|samples| - 1];
      NoSampleIsLost(front);
      MetricsAppend(LinesOf(front), HeadersFor(front, s));
      MetricsAppend(LinesOf(front) + HeadersFor(front, s), [Metric(s)]);
      assert [Metric(s)][..0] == [];
      HeadersHoldNoSample(front, s);
      assert samples == front + [s];
    }
  }
}
