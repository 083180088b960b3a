/** The rubric judge: scores, reasons and decisions, and what reversing the rubric can change. */
module Judge {
  import opened Values
  import opened Text

  datatype Criterion = Criterion(name: string, weight: real, required: seq<string>, forbidden: seq<string>)

  datatype Rubric = Rubric(minScore: real, criteria: seq<Criterion>)

  /** Reasons are texts; these are the ones the judge itself writes, and any other. */
  datatype Reason =
    | EmptyResponse
    | UnsupportedClaim
    | MissingTerms(name: string)
    | SwapInconsistent
    | Other(text: string)

  datatype Decision = Pass | ManualReview | Block | Unknown(text: string)

  /** Lower-casing and rounding are left abstract; everything else is exact. */
  datatype Setup = Setup(lower: string -> string, rounded: real -> real)

  /** A name and its points, in the order of a dictionary. */
  datatype Entry = Entry(name: string, points: real)

  datatype Scored = Scored(decision: Decision, score: real, reasons: seq<Reason>, entries: seq<Entry>)

  function LeftStripped(s: string): string {
    if s != "" && IsSpace(s[0]) then LeftStripped(s[1..]) else s
  }

  function RightStripped(s: string): string {
    if s != "" && IsSpace(s[|s| - 1]) then RightStripped(s[..|s| - 1]) else s
  }

  /** What the criteria look at: the normalised text and the length of the stripped one. */
  datatype Facts = Facts(normalized: string, length: nat)

  function FactsOf(setup: Setup, text: string): Facts {
    Facts(Clean(setup.lower(text)), |RightStripped(LeftStripped(text))|)
  }

  predicate StandsAt(text: string, term: string, i: int) {
    0 <= i && i + |term| <= |text| && text[i..i + |term|] == term
  }

  predicate Contains(text: string, term: string) {
    exists i :: 0 <= i <= |text| && StandsAt(text, term, i)
  }

  predicate AnyContained(text: string, terms: seq<string>) {
    exists k :: 0 <= k < |terms| && Contains(text, terms[k])
  }

  predicate IsConcise(c: Criterion) { c.name == "concise" }

  predicate Passes(f: Facts, c: Criterion) {
    if IsConcise(c) then f.length <= 1200
    else if c.forbidden != [] then !AnyContained(f.normalized, c.forbidden)
    else AnyContained(f.normalized, c.required)
  }

  function Points(f: Facts, c: Criterion): real { if Passes(f, c) then c.weight else 0.0 }

  /** Failing to be concise costs points and gives no reason. */
  function ReasonFor(f: Facts, c: Criterion): seq<Reason> {
    if IsConcise(c) || Passes(f, c) then []
    else if c.forbidden != [] then [UnsupportedClaim]
    else [MissingTerms(c.name)]
  }

  // ---- what the criteria ask, in plain terms ----

  /** Stripping takes off the white space at both ends and nothing else. */
  lemma StrippedExactly(s: string, t: string) returns (before: string, after: string)
    requires t == RightStripped(LeftStripped(s))
    ensures s == before + t + after && (t != "" ==> !IsSpace(t[0]) && !IsSpace(t[|t| - 1]))
    ensures forall k :: 0 <= k < |before| ==> IsSpace(before[k])
    ensures forall k :: 0 <= k < |after| ==> IsSpace(after[k])
  {
    var left := LeftStripped(s);
    LeftExactly(s);
    RightExactly(left);
    before, after := s[..|s| - |left|], left[|t|..];
    PutTogether(s, before, left, t, after);
    assert t != "" ==> left[0] == t[0];
  }

  lemma PutTogether(s: string, before: string, left: string, t: string, after: string)
    requires |before| + |left| == |s| && s[..|before|] == before && s[|before|..] == left
    requires |t| <= |left| && left[..|t|] == t && left[|t|..] == after
    ensures s == before + t + after
  {
    assert before + t + after == before + left;
  }

  /** The criteria look at the lower-cased text with its white space normalised, and at the length of the text itself
      without the white space at its ends. */
  lemma FactsExactly(setup: Setup, text: string, f: Facts) returns (before: string, inner: string, after: string)
    requires f == FactsOf(setup, text)
    ensures f.normalized == Clean(setup.lower(text))
    ensures f.length == |inner| && text == before + inner + after
    ensures inner != "" ==> !IsSpace(inner[0]) && !IsSpace(inner[|inner| - 1])
    ensures forall k :: 0 <= k < |before| ==> IsSpace(before[k])
    ensures forall k :: 0 <= k < |after| ==> IsSpace(after[k])
  {
    inner := RightStripped(LeftStripped(text));
    before, after := StrippedExactly(text, inner);
  }

  lemma {:induction false} LeftExactly(s: string)
    ensures |LeftStripped(s)| <= |s| && s[|s| - |LeftStripped(s)|..] == LeftStripped(s)
    ensures forall k :: 0 <= k < |s| - |LeftStripped(s)| ==> IsSpace(s[k])
    ensures LeftStripped(s) != "" ==> !IsSpace(LeftStripped(s)[0])
  {
    if s != "" && IsSpace(s[0]) {
      var rest := s[1..];
      LeftExactly(rest);
      assert forall k :: 1 <= k < |s| ==> s[k] == rest[k - 1];
    }
  }

  lemma {:induction false} RightExactly(s: string)
    ensures |RightStripped(s)| <= |s| && s[..|RightStripped(s)|] == RightStripped(s)
    ensures forall k :: |RightStripped(s)| <= k < |s| ==> IsSpace(s[k])
    ensures RightStripped(s) != "" ==> !IsSpace(RightStripped(s)[|RightStripped(s)| - 1])
  {
    if s != "" && IsSpace(s[|s| - 1]) {
      var rest := s[..|s| - 1];
      RightExactly(rest);
      assert forall k :: 0 <= k < |rest| ==> s[k] == rest[k];
    }
  }

  /** A text contains a term exactly if it is something, the term, and something. */
  lemma ContainsExactly(text: string, term: string)
    ensures Contains(text, term) <==> exists a, b :: text == a + term + b
  {
    if Contains(text, term) {
      var i :| 0 <= i <= |text| && StandsAt(text, term, i);
      assert text == text[..i] + term + text[i + |term|..];
    }
    if a, b :| text == a + term + b {
      assert StandsAt(text, term, |a|);
    }
  }

  lemma AnyContainedExactly(text: string, terms: seq<string>)
    ensures AnyContained(text, terms) <==> exists term :: term in terms && Contains(text, term)
  {
    if term :| term in terms && Contains(text, term) {
      var k :| 0 <= k < |terms| && terms[k] == term;
    }
  }

  /** What one criterion asks. The one called concise asks for at most 1200 characters and never gives a reason; one
      with forbidden terms asks that the text contain none of them; any other, that it contain one of its required
      terms. A criterion earns its weight or nothing. */
  lemma CriterionInFull(f: Facts, c: Criterion)
    ensures c.name == "concise" ==> ReasonFor(f, c) == [] && Points(f, c) == if f.length <= 1200 then c.weight else 0.0
    ensures c.name != "concise" && c.forbidden != [] ==>
      if exists term :: term in c.forbidden && Contains(f.normalized, term)
      then ReasonFor(f, c) == [UnsupportedClaim] && Points(f, c) == 0.0
      else ReasonFor(f, c) == [] && Points(f, c) == c.weight
    ensures c.name != "concise" && c.forbidden == [] ==>
      if exists term :: term in c.required && Contains(f.normalized, term)
      then ReasonFor(f, c) == [] && Points(f, c) == c.weight
      else ReasonFor(f, c) == [MissingTerms(c.name)] && Points(f, c) == 0.0
  {
    AnyContainedExactly(f.normalized, c.forbidden);
    AnyContainedExactly(f.normalized, c.required);
  }

  function ReasonsFor(f: Facts, cs: seq<Criterion>): seq<Reason> {
    if cs == [] then if f.normalized == "" then [EmptyResponse] else []
    else ReasonsFor(f, cs[..|cs| - 1]) + ReasonFor(f, cs[|cs| - 1])
  }

  /** A dictionary keeps the place of a name and replaces its points. */
  function Put(entries: seq<Entry>, e: Entry): seq<Entry> {
    if entries == [] then [e]
    else if entries[0].name == e.name then [e] + entries[1..]
    else [entries[0]] + Put(entries[1..], e)
  }

  function EntriesFor(f: Facts, cs: seq<Criterion>): seq<Entry> {
    if cs == [] then []
    else Put(EntriesFor(f, cs[..|cs| - 1]), Entry(cs[|cs| - 1].name, Points(f, cs[|cs| - 1])))
  }

  function Total(entries: seq<Entry>): real {
    if entries == [] then 0.0 else entries[0].points + Total(entries[1..])
  }

  function Decide(score: real, minScore: real, reasons: seq<Reason>): Decision {
    if UnsupportedClaim in reasons || EmptyResponse in reasons then Block
    else if score >= minScore && reasons == [] then Pass
    else ManualReview
  }

  function ScoredBy(setup: Setup, f: Facts, rubric: Rubric): Scored {
    var reasons, entries := ReasonsFor(f, rubric.criteria), EntriesFor(f, rubric.criteria);
    var score := setup.rounded(Total(entries));
    Scored(Decide(score, rubric.minScore, reasons), score, reasons, entries)
  }

  /** A score: the reasons of the criteria in order, after that of an empty text; the rounded total of the points; and
      the decision, which is to block if a claim is unsupported or the text is empty, and to pass if the score reaches
      the minimum without any reason. */
  lemma ScoreInFull(setup: Setup, f: Facts, rubric: Rubric, r: Scored)
    requires r == ScoredBy(setup, f, rubric)
    ensures r.reasons == ReasonsFor(f, rubric.criteria) && r.entries == EntriesFor(f, rubric.criteria)
    ensures r.score == setup.rounded(Total(r.entries))
    ensures r.decision == Block <==> UnsupportedClaim in r.reasons || EmptyResponse in r.reasons
    ensures r.decision == Pass <==> r.reasons == [] && r.score >= rubric.minScore
    ensures r.decision in {Block, Pass, ManualReview}
  {
  }

  lemma {:induction false} ReasonsInOrder(f: Facts, cs: seq<Criterion>, c: Criterion)
    ensures ReasonsFor(f, []) == if f.normalized == "" then [EmptyResponse] else []
    ensures ReasonsFor(f, cs + [c]) == ReasonsFor(f, cs) + ReasonFor(f, c)
  {
    assert (cs + [c])[..|cs|] == cs;
  }

  /** A name that the first k entries do not have leaves them alone. */
  lemma {:induction false} PutPasses(entries: seq<Entry>, e: Entry, k: nat)
    requires k <= |entries| && forall i :: 0 <= i < k ==> entries[i].name != e.name
    ensures Put(entries, e) == entries[..k] + Put(entries[k..], e)
  {
    if k > 0 {
      PutPasses(entries[1..], e, k - 1);
      assert entries[1..][k - 1..] == entries[k..];
      assert [entries[0]] + entries[1..][..k - 1] == entries[..k];
    }
  }

  lemma {:induction false} PutReplaces(entries: seq<Entry>, e: Entry, k: nat)
    requires k < |entries| && entries[k].name == e.name
    requires forall i :: 0 <= i < k ==> entries[i].name != e.name
    ensures Put(entries, e) == entries[..k] + [e] + entries[k + 1..]
  {
    PutPasses(entries, e, k);
    assert entries[k..][1..] == entries[k + 1..];
  }

  method PutEntry(entries: seq<Entry>, e: Entry) returns (r: seq<Entry>)
    ensures r == Put(entries, e)
  {
    var k := 0;
    while k < |entries| && entries[k].name != e.name
      invariant k <= |entries| && forall i :: 0 <= i < k ==> entries[i].name != e.name
    {
      k := k + 1;
    }
    if k < |entries| {
      PutReplaces(entries, e, k);
      r := entries[..k] + [e] + entries[k + 1..];
    } else {
      PutPasses(entries, e, k);
      r := entries + [e];
    }
  }

  /** The reasons one criterion gives and the points it earns. */
  method ScoreCriterion(f: Facts, c: Criterion) returns (reasons: seq<Reason>, points: real)
    ensures reasons == ReasonFor(f, c) && points == Points(f, c)
  {
    reasons := [];
    var passed;
    if IsConcise(c) {
      passed := f.length <= 1200;
    } else if c.forbidden != [] {
      passed := !AnyContained(f.normalized, c.forbidden);
      if !passed {
        reasons := [UnsupportedClaim];
      }
    } else {
      passed := AnyContained(f.normalized, c.required);
      if !passed {
        reasons := [MissingTerms(c.name)];
      }
    }
    points := if passed then c.weight else 0.0;
  }

  lemma ScoringNext(f: Facts, cs: seq<Criterion>, k: nat)
    requires k < |cs|
    ensures ReasonsFor(f, cs[..k + 1]) == ReasonsFor(f, cs[..k]) + ReasonFor(f, cs[k])
    ensures EntriesFor(f, cs[..k + 1]) == Put(EntriesFor(f, cs[..k]), Entry(cs[k].name, Points(f, cs[k])))
  {
    assert cs[..k + 1][..k] == cs[..k];
  }

  /** The reasons and the entries of all criteria. */
  method ScoreCriteria(f: Facts, cs: seq<Criterion>) returns (reasons: seq<Reason>, entries: seq<Entry>)
    ensures reasons == ReasonsFor(f, cs) && entries == EntriesFor(f, cs)
  {
    reasons := if f.normalized == "" then [EmptyResponse] else [];
    entries := [];
    for k := 0 to |cs|
      invariant reasons == ReasonsFor(f, cs[..k]) && entries == EntriesFor(f, cs[..k])
    {
      var more, points := ScoreCriterion(f, cs[k]);
      ScoringNext(f, cs, k);
      reasons := reasons + more;
      entries := PutEntry(entries, Entry(cs[k].name, points));
    }
    assert cs[..|cs|] == cs;
  }

  method ScoreText(setup: Setup, text: string, rubric: Rubric) returns (r: Scored)
    ensures r == ScoredBy(setup, FactsOf(setup, text), rubric)
  {
    var f := FactsOf(setup, text);
    var reasons, entries := ScoreCriteria(f, rubric.criteria);
    var score := setup.rounded(Total(entries));
    var decision := if score >= rubric.minScore && reasons == [] then Pass else ManualReview;
    if UnsupportedClaim in reasons || EmptyResponse in reasons {
      decision := Block;
    }
    r := Scored(decision, score, reasons, entries);
  }

  // ---- reasons do not depend on order ----

  function Reversed<T>(s: seq<T>): seq<T> {
    if s == [] then [] else Reversed(s[1..]) + [s[0]]
  }

  function Swapped(rubric: Rubric): Rubric { rubric.(criteria := Reversed(rubric.criteria)) }

  lemma {:induction false} ReversedMembers<T>(s: seq<T>)
    ensures forall x :: x in Reversed(s) <==> x in s
  {
    if s != [] {
      ReversedMembers(s[1..]);
      assert forall x :: x in s <==> x == s[0] || x in s[1..];
    }
  }

  /** A reason is given exactly when the text is empty or some criterion gives it. */
  lemma {:induction false} ReasonsAreExact(f: Facts, cs: seq<Criterion>)
    ensures forall r :: r in ReasonsFor(f, cs) <==>
      (r == EmptyResponse && f.normalized == "") || exists c :: c in cs && r in ReasonFor(f, c)
  {
    if cs != [] {
      var front, last := cs[..|cs| - 1], cs[|cs| - 1];
      ReasonsAreExact(f, front);
      assert forall c :: c in cs <==> c in front || c == last;
    }
  }

  lemma {:induction false} SwapKeepsReasons(f: Facts, cs: seq<Criterion>)
    ensures forall r :: r in ReasonsFor(f, Reversed(cs)) <==> r in ReasonsFor(f, cs)
    ensures ReasonsFor(f, Reversed(cs)) == [] <==> ReasonsFor(f, cs) == []
  {
    ReasonsAreExact(f, cs);
    ReasonsAreExact(f, Reversed(cs));
    ReversedMembers(cs);
    var a, b := ReasonsFor(f, Reversed(cs)), ReasonsFor(f, cs);
    if a != [] {
      assert a[0] in a;
      assert a[0] in b;
    }
    if b != [] {
      assert b[0] in b;
      assert b[0] in a;
    }
  }

  // ---- points by name ----

  /** The points of the last criterion with a name. */
  function LastPoints(f: Facts, cs: seq<Criterion>, name: string): Option<real> {
    if cs == [] then None
    else if cs[|cs| - 1].name == name then Some(Points(f, cs[|cs| - 1]))
    else LastPoints(f, cs[..|cs| - 1], name)
  }

  function FirstPoints(f: Facts, cs: seq<Criterion>, name: string): Option<real> {
    if cs == [] then None
    else if cs[0].name == name then Some(Points(f, cs[0]))
    else FirstPoints(f, cs[1..], name)
  }

  function PointsOf(entries: seq<Entry>, name: string): Option<real> {
    if entries == [] then None
    else if entries[0].name == name then Some(entries[0].points)
    else PointsOf(entries[1..], name)
  }

  /** They are those of its last criterion, and of its first. */
  lemma {:induction false} LastPointsAt(f: Facts, cs: seq<Criterion>, name: string, i: nat)
    requires i < |cs| && cs[i].name == name && forall k :: i < k < |cs| ==> cs[k].name != name
    ensures LastPoints(f, cs, name) == Some(Points(f, cs[i]))
  {
    if i < |cs| - 1 {
      LastPointsAt(f, cs[..|cs| - 1], name, i);
    }
  }

  lemma {:induction false} FirstPointsAt(f: Facts, cs: seq<Criterion>, name: string, i: nat)
    requires i < |cs| && cs[i].name == name && forall k :: 0 <= k < i ==> cs[k].name != name
    ensures FirstPoints(f, cs, name) == Some(Points(f, cs[i]))
  {
    if i > 0 {
      FirstPointsAt(f, cs[1..], name, i - 1);
    }
  }

  lemma {:induction false} PointsOfPut(entries: seq<Entry>, e: Entry, name: string)
    ensures PointsOf(Put(entries, e), name) == if name == e.name then Some(e.points) else PointsOf(entries, name)
  {
    if entries == [] {
      assert [e][1..] == [];
    } else if entries[0].name == e.name {
      assert ([e] + entries[1..])[1..] == entries[1..];
    } else {
      PointsOfPut(entries[1..], e, name);
      assert ([entries[0]] + Put(entries[1..], e))[1..] == Put(entries[1..], e);
    }
  }

  lemma {:induction false} EntriesHoldLast(f: Facts, cs: seq<Criterion>, name: string)
    ensures PointsOf(EntriesFor(f, cs), name) == LastPoints(f, cs, name)
  {
    if cs != [] {
      var front, last := cs[..|cs| - 1], cs[|cs| - 1];
      EntriesHoldLast(f, front, name);
      PointsOfPut(EntriesFor(f, front), Entry(last.name, Points(f, last)), name);
    }
  }

  lemma {:induction false} LastOfReversed(f: Facts, cs: seq<Criterion>, name: string)
    ensures LastPoints(f, Reversed(cs), name) == FirstPoints(f, cs, name)
  {
    if cs != [] {
      LastOfReversed(f, cs[1..], name);
      var front := Reversed(cs[1..]);
      assert Reversed(cs) == front + [cs[0]];
      assert (front + [cs[0]])[..|front|] == front;
    }
  }

  lemma {:induction false} PointsEitherWay(f: Facts, cs: seq<Criterion>, name: string)
    ensures PointsOf(EntriesFor(f, Reversed(cs)), name) == FirstPoints(f, cs, name)
    ensures PointsOf(EntriesFor(f, cs), name) == LastPoints(f, cs, name)
  {
    EntriesHoldLast(f, Reversed(cs), name);
    LastOfReversed(f, cs, name);
    EntriesHoldLast(f, cs, name);
  }

  /** Reversing the rubric keeps the points of every name exactly when, for every name, its first and its last criterion
      earn the same. */
  lemma SwapKeepsPointsExactly(f: Facts, cs: seq<Criterion>)
    ensures (forall name :: PointsOf(EntriesFor(f, Reversed(cs)), name) == PointsOf(EntriesFor(f, cs), name))
       <==> (forall name :: FirstPoints(f, cs, name) == LastPoints(f, cs, name))
  {
    if forall name :: FirstPoints(f, cs, name) == LastPoints(f, cs, name) {
      forall name ensures PointsOf(EntriesFor(f, Reversed(cs)), name) == PointsOf(EntriesFor(f, cs), name) {
        PointsEitherWay(f, cs, name);
      }
    } else {
      var name :| FirstPoints(f, cs, name) != LastPoints(f, cs, name);
      PointsEitherWay(f, cs, name);
    }
  }

  // ---- totals by name ----

  function Others(cs: seq<Criterion>, name: string): (others: seq<Criterion>)
    ensures |others| <= |cs|
  {
    if cs == [] then []
    else Others(cs[..|cs| - 1], name) + if cs[|cs| - 1].name == name then [] else [cs[|cs| - 1]]
  }

  /** The points of the last criterion of every name. */
  function LastTotal(f: Facts, cs: seq<Criterion>): real
    decreases |cs|
  {
    if cs == [] then 0.0 else Points(f, cs[|cs| - 1]) + LastTotal(f, Others(cs[..|cs| - 1], cs[|cs| - 1].name))
  }

  /** The points of the first criterion of every name. */
  function FirstTotal(f: Facts, cs: seq<Criterion>): real
    decreases |cs|
  {
    if cs == [] then 0.0 else Points(f, cs[0]) + FirstTotal(f, Others(cs[1..], cs[0].name))
  }

  function OrZero(points: Option<real>): real { if points.Some? then points.value else 0.0 }

  lemma {:induction false} TotalOfPut(entries: seq<Entry>, e: Entry)
    ensures Total(Put(entries, e)) == Total(entries) - OrZero(PointsOf(entries, e.name)) + e.points
  {
    if entries == [] {
      assert [e][1..] == [];
    } else if entries[0].name == e.name {
      assert ([e] + entries[1..])[1..] == entries[1..];
    } else {
      TotalOfPut(entries[1..], e);
      assert ([entries[0]] + Put(entries[1..], e))[1..] == Put(entries[1..], e);
    }
  }

  lemma {:induction false} OthersKeepPoints(f: Facts, cs: seq<Criterion>, name: string, other: string)
    requires name != other
    ensures LastPoints(f, Others(cs, name), other) == LastPoints(f, cs, other)
  {
    if cs != [] {
      var front, last := cs[..|cs| - 1], cs[|cs| - 1];
      OthersKeepPoints(f, front, name, other);
      if last.name != name {
        assert (Others(front, name) + [last])[..|Others(front, name)|] == Others(front, name);
      } else {
        assert Others(cs, name) == Others(front, name);
      }
    }
  }

  /** Dropping a name from the criteria drops its points from the total. */
  lemma {:induction false} DroppingAName(f: Facts, cs: seq<Criterion>, name: string)
    ensures Total(EntriesFor(f, cs)) == Total(EntriesFor(f, Others(cs, name))) + OrZero(LastPoints(f, cs, name))
  {
    if cs != [] {
      var front, last := cs[..|cs| - 1], cs[|cs| - 1];
      var e := Entry(last.name, Points(f, last));
      DroppingAName(f, front, name);
      TotalOfPut(EntriesFor(f, front), e);
      EntriesHoldLast(f, front, last.name);
      if last.name == name {
        assert Others(cs, name) == Others(front, name);
      } else {
        var others := Others(front, name);
        assert Others(cs, name) == others + [last];
        assert (others + [last])[..|others|] == others;
        TotalOfPut(EntriesFor(f, others), e);
        EntriesHoldLast(f, others, last.name);
        OthersKeepPoints(f, front, name, last.name);
      }
    }
  }

  lemma {:induction false} TotalIsLastTotal(f: Facts, cs: seq<Criterion>)
    ensures Total(EntriesFor(f, cs)) == LastTotal(f, cs)
    decreases |cs|
  {
    if cs != [] {
      var front, last := cs[..|cs| - 1], cs[|cs| - 1];
      TotalIsLastTotal(f, Others(front, last.name));
      DroppingAName(f, front, last.name);
      TotalOfPut(EntriesFor(f, front), Entry(last.name, Points(f, last)));
      EntriesHoldLast(f, front, last.name);
    }
  }

  lemma {:induction false} OthersAppend(a: seq<Criterion>, b: seq<Criterion>, name: string)
    ensures Others(a + b, name) == Others(a, name) + Others(b, name)
  {
    if b == [] {
      assert a + b == a;
    } else {
      assert (a + b)[..|a + b| - 1] == a + b[..|b| - 1];
      OthersAppend(a, b[..|b| - 1], name);
    }
  }

  lemma {:induction false} OthersReversed(cs: seq<Criterion>, name: string)
    ensures Others(Reversed(cs), name) == Reversed(Others(cs, name))
  {
    if cs != [] {
      OthersReversed(cs[1..], name);
      OthersAppend(Reversed(cs[1..]), [cs[0]], name);
      OthersAppend([cs[0]], cs[1..], name);
      assert cs == [cs[0]] + cs[1..];
      assert [cs[0]][..0] == [];
      if cs[0].name != name {
        assert ([cs[0]] + Others(cs[1..], name))[1..] == Others(cs[1..], name);
      } else {
        assert [] + Others(cs[1..], name) == Others(cs[1..], name);
        assert Others(Reversed(cs[1..]), name) + [] == Others(Reversed(cs[1..]), name);
      }
    }
  }

  lemma {:induction false} LastTotalOfReversed(f: Facts, cs: seq<Criterion>)
    ensures LastTotal(f, Reversed(cs)) == FirstTotal(f, cs)
    decreases |cs|
  {
    if cs != [] {
      var front := Reversed(cs[1..]);
      assert (front + [cs[0]])[..|front|] == front;
      OthersReversed(cs[1..], cs[0].name);
      LastTotalOfReversed(f, Others(cs[1..], cs[0].name));
    }
  }

  /** The two sides on which a score can be of the rubric's minimum. */
  predicate SameSide(a: real, b: real, minScore: real) { a >= minScore <==> b >= minScore }

  /** Main result: the two orders agree exactly when the rounded totals of the last and of the first points per name are
      within 0.0001, and, if no reason is given, on the same side of the minimum. */
  lemma {:induction false} ConsistentExactly(setup: Setup, text: string, rubric: Rubric, client: Option<ClientResult>)
    ensures var f := FactsOf(setup, text);
      var last, first := setup.rounded(LastTotal(f, rubric.criteria)), setup.rounded(FirstTotal(f, rubric.criteria));
      Judged(setup, text, rubric, client).consistent <==>
        Apart(last, first) <= 0.0001
          && (ReasonsFor(f, rubric.criteria) == [] ==> SameSide(last, first, rubric.minScore))
  {
    var f := FactsOf(setup, text);
    TotalIsLastTotal(f, rubric.criteria);
    TotalIsLastTotal(f, Reversed(rubric.criteria));
    LastTotalOfReversed(f, rubric.criteria);
    SwapKeepsReasons(f, rubric.criteria);
  }

  /** The judge reports an order swap exactly when the two orders disagree, unless the client reports one itself. */
  lemma SwapReportedExactly(setup: Setup, text: string, rubric: Rubric, client: Option<ClientResult>)
    requires client.Some? ==> SwapInconsistent !in client.value.reasons
    ensures SwapInconsistent in Judged(setup, text, rubric, client).reasons
      <==> !Judged(setup, text, rubric, client).consistent
  {
    var f := FactsOf(setup, text);
    OwnReasons(f, rubric.criteria);
    var own := if Judged(setup, text, rubric, client).consistent then ReasonsFor(f, rubric.criteria)
      else ReasonsFor(f, rubric.criteria) + [SwapInconsistent];
    if client.Some? {
      ExtendedMembers(own, client.value.reasons);
    }
  }

  // ---- distinct names ----

  ghost predicate DistinctNames(cs: seq<Criterion>) {
    forall i, j :: 0 <= i < j < |cs| ==> cs[i].name != cs[j].name
  }

  function Listed(f: Facts, cs: seq<Criterion>): (entries: seq<Entry>)
    ensures |entries| == |cs| && forall i :: 0 <= i < |cs| ==> entries[i] == Entry(cs[i].name, Points(f, cs[i]))
  {
    seq(|cs|, i requires 0 <= i < |cs| => Entry(cs[i].name, Points(f, cs[i])))
  }

  lemma {:induction false} PutNew(entries: seq<Entry>, e: Entry)
    requires forall i :: 0 <= i < |entries| ==> entries[i].name != e.name
    ensures Put(entries, e) == entries + [e]
  {
    if entries != [] {
      PutNew(entries[1..], e);
    }
  }

  lemma {:induction false} DistinctEntries(f: Facts, cs: seq<Criterion>)
    requires DistinctNames(cs)
    ensures EntriesFor(f, cs) == Listed(f, cs)
  {
    if cs != [] {
      var front, last := cs[..|cs| - 1], cs[|cs| - 1];
      DistinctEntries(f, front);
      PutNew(Listed(f, front), Entry(last.name, Points(f, last)));
    }
  }

  lemma {:induction false} ReversedAt<T>(s: seq<T>)
    ensures |Reversed(s)| == |s| && forall i :: 0 <= i < |s| ==> Reversed(s)[i] == s[|s| - 1 - i]
  {
    if s != [] {
      ReversedAt(s[1..]);
    }
  }

  lemma {:induction false} TotalAppend(a: seq<Entry>, b: seq<Entry>)
    ensures Total(a + b) == Total(a) + Total(b)
  {
    if a == [] {
      assert a + b == b;
    } else {
      assert (a + b)[1..] == a[1..] + b;
      TotalAppend(a[1..], b);
    }
  }

  lemma {:induction false} TotalReversed(entries: seq<Entry>)
    ensures Total(Reversed(entries)) == Total(entries)
  {
    if entries != [] {
      TotalReversed(entries[1..]);
      TotalAppend(Reversed(entries[1..]), [entries[0]]);
      assert [entries[0]][1..] == [];
    }
  }

  lemma SwapKeepsTotal(f: Facts, cs: seq<Criterion>)
    requires DistinctNames(cs)
    ensures Total(EntriesFor(f, Reversed(cs))) == Total(EntriesFor(f, cs))
  {
    ReversedAt(cs);
    ReversedAt(Listed(f, cs));
    DistinctEntries(f, cs);
    DistinctEntries(f, Reversed(cs));
    assert Listed(f, Reversed(cs)) == Reversed(Listed(f, cs));
    TotalReversed(Listed(f, cs));
  }

  /** Main result: with distinct criterion names, reversing the rubric changes neither score nor decision. */
  lemma {:induction false} SwapKeepsVerdict(setup: Setup, f: Facts, rubric: Rubric)
    requires DistinctNames(rubric.criteria)
    ensures ScoredBy(setup, f, Swapped(rubric)).score == ScoredBy(setup, f, rubric).score
    ensures ScoredBy(setup, f, Swapped(rubric)).decision == ScoredBy(setup, f, rubric).decision
  {
    SwapKeepsTotal(f, rubric.criteria);
    SwapKeepsReasons(f, rubric.criteria);
  }

  // ---- the whole judgement ----

  datatype ClientResult = ClientResult(decision: Decision, score: real, reasons: seq<Reason>)

  datatype Judgement = Judgement(decision: Decision, score: real, reasons: seq<Reason>, consistent: bool)

  /** Reasons are added one by one unless already there. */
  function Extended(reasons: seq<Reason>, more: seq<Reason>): seq<Reason>
    decreases |more|
  {
    if more == [] then reasons
    else Extended(if more[0] in reasons then reasons else reasons + [more[0]], more[1..])
  }

  function Combined(a: Decision, b: Decision): Decision {
    if a == Block || b == Block then Block else if a == ManualReview || b == ManualReview then ManualReview else Pass
  }

  function Apart(a: real, b: real): real { if a >= b then a - b else b - a }

  function Judged(setup: Setup, text: string, rubric: Rubric, client: Option<ClientResult>): Judgement {
    var f := FactsOf(setup, text);
    var primary, swapped := ScoredBy(setup, f, rubric), ScoredBy(setup, f, Swapped(rubric));
    var consistent := primary.decision == swapped.decision && Apart(primary.score, swapped.score) <= 0.0001;
    var own := if consistent then primary.reasons else primary.reasons + [SwapInconsistent];
    var reasons := if client.Some? then Extended(own, client.value.reasons) else own;
    var base := if client.Some? then Combined(primary.decision, client.value.decision) else primary.decision;
    var score := if client.Some? && client.value.score < primary.score then client.value.score else primary.score;
    var decision := if UnsupportedClaim in reasons || EmptyResponse in reasons then Block else base;
    Judgement(if !consistent && decision == Pass then ManualReview else decision, score, reasons, consistent)
  }

  /** The judgement in full. The client can lower the score and add reasons; the decision is the stricter of the two, to
      block if a claim is unsupported or the text is empty whoever says so, and never to pass if the two orders of the
      rubric disagree. */
  lemma JudgementInFull(
      setup: Setup, text: string, rubric: Rubric, client: Option<ClientResult>, primary: Scored, swapped: Scored,
      j: Judgement)
    requires primary == ScoredBy(setup, FactsOf(setup, text), rubric)
    requires swapped == ScoredBy(setup, FactsOf(setup, text), Rubric(rubric.minScore, Reversed(rubric.criteria)))
    requires j == Judged(setup, text, rubric, client)
    ensures j.consistent <==>
      primary.decision == swapped.decision && -0.0001 <= primary.score - swapped.score <= 0.0001
    ensures j.score == if client.Some? && client.value.score < primary.score then client.value.score else primary.score
    ensures forall r :: r in j.reasons <==>
      r in primary.reasons || (r == SwapInconsistent && !j.consistent) || (client.Some? && r in client.value.reasons)
    ensures primary.reasons <= j.reasons
    ensures j.decision == Block <==>
      || UnsupportedClaim in j.reasons || EmptyResponse in j.reasons
      || primary.decision == Block || (client.Some? && client.value.decision == Block)
    ensures j.decision == Pass <==>
      && UnsupportedClaim !in j.reasons && EmptyResponse !in j.reasons
      && primary.decision == Pass && (client.Some? ==> client.value.decision !in {Block, ManualReview})
      && j.consistent
    ensures j.decision in {Block, Pass, ManualReview}
  {
    var own := if j.consistent then primary.reasons else primary.reasons + [SwapInconsistent];
    if client.Some? {
      ExtendedMembers(own, client.value.reasons);
      ExtendedKeeps(own, client.value.reasons);
    }
  }

  lemma {:induction false} ExtendedKeeps(reasons: seq<Reason>, more: seq<Reason>)
    ensures reasons <= Extended(reasons, more)
    decreases |more|
  {
    if more != [] {
      ExtendedKeeps(if more[0] in reasons then reasons else reasons + [more[0]], more[1..]);
    }
  }

  lemma {:induction false} ExtendedMembers(reasons: seq<Reason>, more: seq<Reason>)
    ensures forall r :: r in Extended(reasons, more) <==> r in reasons || r in more
    decreases |more|
  {
    if more != [] {
      ExtendedMembers(if more[0] in reasons then reasons else reasons + [more[0]], more[1..]);
      assert forall r :: r in more <==> r == more[0] || r in more[1..];
    }
  }

  lemma OwnReasons(f: Facts, cs: seq<Criterion>)
    ensures SwapInconsistent !in ReasonsFor(f, cs)
  {
    ReasonsAreExact(f, cs);
  }

  /** Main result: with distinct criterion names the judge never reports an order swap of its own. */
  lemma {:induction false} NeverInconsistent(setup: Setup, text: string, rubric: Rubric, client: Option<ClientResult>)
    requires DistinctNames(rubric.criteria)
    ensures Judged(setup, text, rubric, client).consistent
    ensures SwapInconsistent in Judged(setup, text, rubric, client).reasons ==>
      client.Some? && SwapInconsistent in client.value.reasons
  {
    var f := FactsOf(setup, text);
    SwapKeepsVerdict(setup, f, rubric);
    OwnReasons(f, rubric.criteria);
    if client.Some? {
      ExtendedMembers(ReasonsFor(f, rubric.criteria), client.value.reasons);
    }
  }

  /** Why names must be distinct: of two criteria with one name the later one counts, so the score is the second's one
      way round and the first's the other. */
  lemma EqualNamesSwapPoints(f: Facts, c: Criterion, d: Criterion)
    requires c.name == d.name
    ensures Total(EntriesFor(f, [c, d])) == Points(f, d) && Total(EntriesFor(f, Reversed([c, d]))) == Points(f, c)
  {
    PairTotal(f, c, d);
    PairTotal(f, d, c);
    assert [c, d][1..] == [d] && [d][1..] == [];
    assert Reversed([d]) == [d] by { assert Reversed<Criterion>([]) == []; }
    assert Reversed([c, d]) == [d, c];
  }

  lemma PairTotal(f: Facts, c: Criterion, d: Criterion)
    requires c.name == d.name
    ensures Total(EntriesFor(f, [c, d])) == Points(f, d)
  {
    assert [c, d][..1] == [c] && [c][..0] == [];
    var e := Entry(c.name, Points(f, c));
    assert EntriesFor(f, []) == [];
    assert EntriesFor(f, [c]) == [e];
    assert [e][1..] == [];
    assert EntriesFor(f, [c, d]) == [Entry(d.name, Points(f, d))];
    assert [Entry(d.name, Points(f, d))][1..] == [];
  }

  /** So every pair of criteria with one name whose rounded points differ by more than 0.0001 is reported. */
  lemma EqualNamesAreReported(setup: Setup, text: string, minScore: real, c: Criterion, d: Criterion)
    requires c.name == d.name
    requires var f := FactsOf(setup, text); Apart(setup.rounded(Points(f, d)), setup.rounded(Points(f, c))) > 0.0001
    ensures SwapInconsistent in Judged(setup, text, Rubric(minScore, [c, d]), None).reasons
  {
    EqualNamesSwapPoints(FactsOf(setup, text), c, d);
    SwapReportedExactly(setup, text, Rubric(minScore, [c, d]), None);
  }

  /** A rubric and a text for which the order swap is reported. */
  lemma SomeSwapIsReported(setup: Setup, text: string)
    requires setup.rounded(1.0) == 1.0 && setup.rounded(0.0) == 0.0
    ensures var c, d := Criterion("x", 1.0, [""], []), Criterion("x", 0.0, [""], []);
      SwapInconsistent in Judged(setup, text, Rubric(0.5, [c, d]), None).reasons
  {
    var c, d := Criterion("x", 1.0, [""], []), Criterion("x", 0.0, [""], []);
    var f := FactsOf(setup, text);
    assert StandsAt(f.normalized, "", 0);
    assert Contains(f.normalized, [""][0]);
    assert !IsConcise(c) && !IsConcise(d) by { assert |"x"| != |"concise"|; }
    assert Passes(f, c) && Passes(f, d);
    EqualNamesAreReported(setup, text, 0.5, c, d);
  }

  /** The judgement passes exactly when the text is not empty, every criterion but conciseness passes, the score is
      reached, and the client, if asked, neither blocks nor asks for review. */
  lemma JudgementPassesExactly(setup: Setup, text: string, rubric: Rubric, client: Option<ClientResult>)
    requires DistinctNames(rubric.criteria)
    ensures var f := FactsOf(setup, text);
      Judged(setup, text, rubric, client).decision == Pass <==>
        && f.normalized != ""
        && (forall c :: c in rubric.criteria ==>
              c.name == "concise"
              || (if c.forbidden != [] then forall term :: term in c.forbidden ==> !Contains(f.normalized, term)
                  else exists term :: term in c.required && Contains(f.normalized, term)))
        && ScoredBy(setup, f, rubric).score >= rubric.minScore
        && (client.Some? ==>
              && client.value.decision != Block && client.value.decision != ManualReview
              && UnsupportedClaim !in client.value.reasons && EmptyResponse !in client.value.reasons)
  {
    var f := FactsOf(setup, text);
    NeverInconsistent(setup, text, rubric, client);
    ReasonsAreExact(f, rubric.criteria);
    NoReasonExactly(f, rubric.criteria);
    AskedExactly(f, rubric.criteria);
    if client.Some? {
      ExtendedMembers(ReasonsFor(f, rubric.criteria), client.value.reasons);
    }
  }

  lemma AskedExactly(f: Facts, cs: seq<Criterion>)
    ensures (forall c :: c in cs ==> IsConcise(c) || Passes(f, c)) <==>
      (forall c :: c in cs ==>
        c.name == "concise"
        || (if c.forbidden != [] then forall term :: term in c.forbidden ==> !Contains(f.normalized, term)
            else exists term :: term in c.required && Contains(f.normalized, term)))
  {
    forall c | c in cs
      ensures !IsConcise(c) ==> (Passes(f, c) <==>
        if c.forbidden != [] then forall term :: term in c.forbidden ==> !Contains(f.normalized, term)
        else exists term :: term in c.required && Contains(f.normalized, term))
    {
      AnyContainedExactly(f.normalized, c.forbidden);
      AnyContainedExactly(f.normalized, c.required);
    }
  }

  lemma NoReasonExactly(f: Facts, cs: seq<Criterion>)
    ensures ReasonsFor(f, cs) == [] <==> f.normalized != "" && forall c :: c in cs ==> IsConcise(c) || Passes(f, c)
  {
    ReasonsAreExact(f, cs);
    var reasons := ReasonsFor(f, cs);
    if reasons != [] {
      assert reasons[0] in reasons;
    }
    forall c | c in cs && !IsConcise(c) && !Passes(f, c) ensures reasons != [] {
      assert ReasonFor(f, c)[0] in ReasonFor(f, c);
      assert ReasonFor(f, c)[0] in reasons;
    }
    assert f.normalized == "" ==> EmptyResponse in reasons;
  }
}
