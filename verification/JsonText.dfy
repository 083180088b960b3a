/** The JSON text of the store, with two-space indentation, sorted keys and ASCII escapes, and a parser of RFC 8259
    texts: what the store assumes of its codec is proved of this one. */
module JsonText {
  import opened Values
  import opened JsonStore

  /** How floats are printed and read, which this model leaves open. */
  datatype Floats = Floats(write: Double -> string, read: string -> Double)

  // ---- numbers ----

  predicate IsDigit(c: char) { '0' <= c <= '9' }

  function DigitChar(d: nat): (c: char)
    requires d < 10
    ensures IsDigit(c) && c as int - '0' as int == d
  {
    ('0' as int + d) as char
  }

  function Decimal(n: nat): string {
    if n < 10 then [DigitChar(n)] else Decimal(n / 10) + [DigitChar(n % 10)]
  }

  function Signed(i: int): string { if i < 0 then "-" + Decimal(-i) else Decimal(i) }

  /** The value of a run of digits. */
  function NatOf(s: string): nat
    requires forall i :: 0 <= i < |s| ==> IsDigit(s[i])
  {
    if s == "" then 0
    else
      assert IsDigit(s[|s| - 1]);
      10 * NatOf(s[..|s| - 1]) + (s[|s| - 1] as int - '0' as int)
  }

  /** The length of the leading run of digits. */
  function Digits(s: string): (n: nat)
    ensures n <= |s| && forall i :: 0 <= i < n ==> IsDigit(s[i])
  {
    if s == "" || !IsDigit(s[0]) then 0 else 1 + Digits(s[1..])
  }

  /** A zero, or digits that do not start with one. */
  function NatLength(s: string): (n: nat)
    ensures n <= |s| && forall i :: 0 <= i < n ==> IsDigit(s[i])
  {
    if s != "" && s[0] == '0' then 1 else Digits(s)
  }

  /** The length of the integer that the text starts with; zero if it starts with none. */
  function IntLength(s: string): (n: nat)
    ensures n <= |s|
  {
    if s == "" || s[0] != '-' then NatLength(s)
    else if NatLength(s[1..]) == 0 then 0
    else 1 + NatLength(s[1..])
  }

  function FractionLength(s: string): (n: nat)
    ensures n <= |s|
  {
    if s == "" || s[0] != '.' || Digits(s[1..]) == 0 then 0 else 1 + Digits(s[1..])
  }

  function SignLength(s: string): (n: nat)
    ensures n <= |s|
  {
    if s != "" && (s[0] == '+' || s[0] == '-') then 1 else 0
  }

  function ExponentLength(s: string): (n: nat)
    ensures n <= |s|
  {
    if s == "" || (s[0] != 'e' && s[0] != 'E') then 0
    else
      var sign := SignLength(s[1..]);
      if Digits(s[1 + sign..]) == 0 then 0 else 1 + sign + Digits(s[1 + sign..])
  }

  /** What follows the integer part of a number. */
  function TailLength(s: string): (n: nat)
    ensures n <= |s|
  {
    FractionLength(s) + ExponentLength(s[FractionLength(s)..])
  }

  function IntOf(s: string): int
    requires IntLength(s) == |s|
  {
    if s == "" || s[0] != '-' then NatOf(s)
    else
      var n: int := NatOf(s[1..]);
      -n
  }

  /** A number with a fraction or an exponent, and nothing else. */
  predicate IsFloatToken(s: string) {
    0 < IntLength(s) < |s| && TailLength(s[IntLength(s)..]) == |s| - IntLength(s)
  }

  lemma IntPrefix(s: string)
    ensures IntLength(s[..IntLength(s)]) == IntLength(s)
  {
    var n := IntLength(s);
    var t := s[..n];
    assert s == t + s[n..];
    if n > 0 && s[0] == '-' {
      NatPrefix(s[1..]);
      assert t[1..] == s[1..][..n - 1];
    } else if n > 0 {
      NatPrefix(s);
    }
  }

  lemma NatPrefix(s: string)
    ensures NatLength(s[..NatLength(s)]) == NatLength(s)
  {
    AllDigits(s[..Digits(s)]);
  }

  lemma {:induction false} AllDigits(s: string)
    requires forall i :: 0 <= i < |s| ==> IsDigit(s[i])
    ensures Digits(s) == |s|
  {
    if s != "" {
      AllDigits(s[1..]);
    }
  }

  function ReadNumber(floats: Floats, s: string): Option<(Value, string)> {
    var n := IntLength(s);
    var tail := TailLength(s[n..]);
    if n == 0 then None
    else if tail == 0 then IntPrefix(s); Some((Int(IntOf(s[..n])), s[n..]))
    else Some((Float(floats.read(s[..n + tail])), s[n + tail..]))
  }

  // ---- characters ----

  function HexDigit(d: nat): char
    requires d < 16
  {
    (if d < 10 then '0' as int + d else 'a' as int + d - 10) as char
  }

  function HexValue(c: char): Option<nat> {
    if '0' <= c <= '9' then Some(c as int - '0' as int)
    else if 'a' <= c <= 'f' then Some(c as int - 'a' as int + 10)
    else if 'A' <= c <= 'F' then Some(c as int - 'A' as int + 10)
    else None
  }

  function Hex(n: nat): string
    requires n < 0x10000
  {
    [HexDigit(n / 16 / 16 / 16), HexDigit(n / 16 / 16 % 16), HexDigit(n / 16 % 16), HexDigit(n % 16)]
  }

  function ReadHex(s: string): Option<nat> {
    if |s| < 4 then None
    else
      match (HexValue(s[0]), HexValue(s[1]), HexValue(s[2]), HexValue(s[3]))
      case (Some(a), Some(b), Some(c), Some(d)) => Some(4096 * a + 256 * b + 16 * c + d)
      case _ => None
  }

  /** A character beyond 16 bits is written as a pair of surrogates. */
  function CodeText(n: nat): string
    requires n < 0x110000
  {
    if n < 0x10000 then "u" + Hex(n)
    else "u" + (Hex(0xd800 + (n - 0x10000) / 1024) + ("\\u" + Hex(0xdc00 + (n - 0x10000) % 1024)))
  }

  predicate IsPlain(c: char) { ' ' <= c <= '~' && c != '"' && c != '\\' }

  function ShortCode(c: char): Option<char> {
    if c == '"' || c == '\\' then Some(c)
    else if c == '\n' then Some('n')
    else if c == '\r' then Some('r')
    else if c == '\t' then Some('t')
    else if c == 12 as char then Some('f')
    else if c == 8 as char then Some('b')
    else None
  }

  function Code(c: char): string {
    match ShortCode(c)
    case Some(short) => [short]
    case None => CodeText(c as int)
  }

  function EscapedChar(c: char): string { if IsPlain(c) then [c] else "\\" + Code(c) }

  function Escaped(s: string): string {
    if s == "" then "" else EscapedChar(s[0]) + Escaped(s[1..])
  }

  function ReadLowSurrogate(high: nat, s: string): Option<(char, string)>
    requires 0xd800 <= high < 0xdc00
  {
    if |s| < 2 || s[0] != '\\' || s[1] != 'u' then None
    else
      match ReadHex(s[2..])
      case None => None
      case Some(low) =>
        if 0xdc00 <= low < 0xe000 then Some(((0x10000 + (high - 0xd800) * 1024 + (low - 0xdc00)) as char, s[6..]))
          else None
  }

  function ReadUnicode(s: string): Option<(char, string)> {
    match ReadHex(s)
    case None => None
    case Some(n) =>
      if 0xd800 <= n < 0xdc00 then ReadLowSurrogate(n, s[4..])
      else if 0xdc00 <= n < 0xe000 || n > 0xffff then None
      else Some((n as char, s[4..]))
  }

  /** What a backslash stands for with the text after it. */
  function ReadEscape(s: string): (r: Option<(char, string)>)
    ensures r.Some? ==> |r.value.1| < |s|
  {
    if s == "" then None
    else
      match s[0]
      case '"' => Some(('"', s[1..]))
      case '\\' => Some(('\\', s[1..]))
      case '/' => Some(('/', s[1..]))
      case 'n' => Some(('\n', s[1..]))
      case 'r' => Some(('\r', s[1..]))
      case 't' => Some(('\t', s[1..]))
      case 'f' => Some((12 as char, s[1..]))
      case 'b' => Some((8 as char, s[1..]))
      case 'u' => ReadUnicode(s[1..])
      case _ => None
  }

  function Before(c: char, r: Option<(string, string)>): Option<(string, string)> {
    if r.Some? then Some(([c] + r.value.0, r.value.1)) else None
  }

  /** Reads a text up to its closing quote; control characters must be escaped. */
  function ReadText(s: string): (r: Option<(string, string)>)
    ensures r.Some? ==> |r.value.1| < |s|
    decreases |s|
  {
    if s == "" || s[0] < ' ' then None
    else if s[0] == '"' then Some(("", s[1..]))
    else if s[0] != '\\' then Before(s[0], ReadText(s[1..]))
    else
      match ReadEscape(s[1..])
      case None => None
      case Some((c, rest)) => Before(c, ReadText(rest))
  }

  // ---- the parser ----

  predicate IsBlank(c: char) { c == ' ' || c == '\t' || c == '\n' || c == '\r' }

  function Skip(s: string): (r: string)
    ensures |r| <= |s|
  {
    if s != "" && IsBlank(s[0]) then Skip(s[1..]) else s
  }

  function Literal(s: string, text: string, v: Value): (r: Option<(Value, string)>)
    ensures r.Some? && text != "" ==> |r.value.1| < |s|
  {
    if text <= s then Some((v, s[|text|..])) else None
  }

  function ReadValue(floats: Floats, s: string): (r: Option<(Value, string)>)
    ensures r.Some? ==> |r.value.1| < |s|
    decreases |s|, 2
  {
    if s == "" then None
    else
      match s[0]
      case '"' => (match ReadText(s[1..])
                   case None => None
                   case Some((text, rest)) => Some((Str(text), rest)))
      case '[' => ReadArray(floats, s[1..])
      case '{' => ReadObject(floats, s[1..])
      case 'n' => Literal(s, "null", Null)
      case 't' => Literal(s, "true", Bool(true))
      case 'f' => Literal(s, "false", Bool(false))
      case _ => ReadNumber(floats, s)
  }

  function ReadArray(floats: Floats, s: string): (r: Option<(Value, string)>)
    ensures r.Some? ==> |r.value.1| < |s|
    decreases |s|, 4
  {
    var t := Skip(s);
    if t == "" then None
    else if t[0] == ']' then Some((List([]), t[1..]))
    else
      match ReadItems(floats, t)
      case None => None
      case Some((items, rest)) => Some((List(items), rest))
  }

  function ReadItems(floats: Floats, s: string): (r: Option<(seq<Value>, string)>)
    ensures r.Some? ==> |r.value.1| < |s|
    decreases |s|, 3
  {
    match ReadValue(floats, s)
    case None => None
    case Some((first, rest)) =>
      var t := Skip(rest);
      if t == "" then None
      else if t[0] == ']' then Some(([first], t[1..]))
      else if t[0] != ',' then None
      else
        match ReadItems(floats, Skip(t[1..]))
        case None => None
        case Some((items, after)) => Some(([first] + items, after))
  }

  function ReadObject(floats: Floats, s: string): (r: Option<(Value, string)>)
    ensures r.Some? ==> |r.value.1| < |s|
    decreases |s|, 4
  {
    var t := Skip(s);
    if t == "" then None
    else if t[0] == '}' then Some((Dict(map[]), t[1..]))
    else
      match ReadMembers(floats, t)
      case None => None
      case Some((entries, rest)) => Some((Dict(entries), rest))
  }

  /** A key in quotes, a colon, and the text of the value. */
  function ReadKey(s: string): (r: Option<(string, string)>)
    ensures r.Some? ==> |r.value.1| < |s|
  {
    if s == "" || s[0] != '"' then None
    else
      match ReadText(s[1..])
      case None => None
      case Some((key, rest)) =>
        var t := Skip(rest);
        if t == "" || t[0] != ':' then None else Some((key, Skip(t[1..])))
  }

  /** Of members with one key the last one stays. */
  function ReadMembers(floats: Floats, s: string): (r: Option<(Payload, string)>)
    ensures r.Some? ==> |r.value.1| < |s|
    decreases |s|, 3
  {
    match ReadKey(s)
    case None => None
    case Some((key, text)) =>
      match ReadValue(floats, text)
      case None => None
      case Some((v, rest)) =>
        var t := Skip(rest);
        if t == "" then None
        else if t[0] == '}' then Some((map[key := v], t[1..]))
        else if t[0] != ',' then None
        else
          match ReadMembers(floats, Skip(t[1..]))
          case None => None
          case Some((entries, after)) => Some((map[key := v] + entries, after))
  }

  function Parse(floats: Floats, s: string): Parsed {
    match ReadValue(floats, Skip(s))
    case None => Invalid
    case Some((v, rest)) => if Skip(rest) != "" then Invalid else if v.Dict? then Object(v.entries) else Other
  }

  /** Blanks are allowed, something else than an object is told apart, and text that goes on or breaks off is
      invalid. */
  lemma ParsedExamples(floats: Floats)
    ensures Parse(floats, " {\t}\n") == Object(map[])
    ensures Parse(floats, "[ ]") == Other && Parse(floats, "null") == Other && Parse(floats, "-12") == Other
    ensures Parse(floats, "{} 1") == Invalid && Parse(floats, "{") == Invalid && Parse(floats, "01") == Invalid
  {
    ObjectExamples(floats);
    OtherExamples(floats);
    NumberExamples(floats);
  }

  lemma OtherExamples(floats: Floats)
    ensures Parse(floats, "[ ]") == Other && Parse(floats, "null") == Other
  {
    assert "[ ]"[1..] == " ]" && " ]"[1..] == "]" && "]"[1..] == "";
    assert Skip("]") == "]" && Skip(" ]") == "]";
    assert "null" <= "null" && "null"[4..] == "";
  }

  lemma ObjectExamples(floats: Floats)
    ensures Parse(floats, " {\t}\n") == Object(map[])
    ensures Parse(floats, "{} 1") == Invalid && Parse(floats, "{") == Invalid
  {
    assert " {\t}\n"[1..] == "{\t}\n" && "{\t}\n"[1..] == "\t}\n" && "\t}\n"[1..] == "}\n" && "}\n"[1..] == "\n";
    assert Skip("\n") == "" && Skip("}\n") == "}\n" && Skip("\t}\n") == "}\n" && Skip("{\t}\n") == "{\t}\n";
    assert "{} 1"[1..] == "} 1" && "} 1"[1..] == " 1" && " 1"[1..] == "1" && "{"[1..] == "";
    assert Skip("1") == "1" && Skip("} 1") == "} 1";
  }

  lemma NumberExamples(floats: Floats)
    ensures Parse(floats, "-12") == Other && Parse(floats, "01") == Invalid
  {
    assert "-12"[1..] == "12" && "12"[1..] == "2" && "2"[1..] == "" && "01"[1..] == "1";
    assert Digits("2") == 1 && Digits("12") == 2 && IntLength("-12") == 3 && "-12"[3..] == "";
    assert IntLength("01") == 1 && "01"[1..] == "1" && TailLength("1") == 0 by {
      assert "1"[0..] == "1";
    }
    assert TailLength("") == 0;
    assert Skip("-12") == "-12" && Skip("01") == "01" && Skip("1") == "1";
  }

  // ---- the printer ----

  ghost predicate IsLeast(keys: set<string>, k: string) {
    k in keys && forall other :: other in keys ==> AtMost(k, other)
  }

  lemma {:induction false} LeastExists(keys: set<string>)
    requires keys != {}
    ensures exists k :: IsLeast(keys, k)
  {
    var some :| some in keys;
    var rest := keys - {some};
    if rest == {} {
      AtMostIsTotal(some, some);
      assert keys == {some};
      assert IsLeast(keys, some);
    } else {
      LeastExists(rest);
      var k :| IsLeast(rest, k);
      AtMostIsTotal(some, k);
      AtMostIsTotal(some, some);
      if AtMost(some, k) {
        forall other | other in keys && other != some ensures AtMost(some, other) {
          assert other in rest;
          AtMostIsTransitive(some, k, other);
        }
        assert IsLeast(keys, some);
      } else {
        assert IsLeast(keys, k);
      }
    }
  }

  ghost function Least(keys: set<string>): (k: string)
    requires keys != {}
    ensures IsLeast(keys, k)
  {
    LeastExists(keys);
    var k :| IsLeast(keys, k);
    k
  }

  function Spaces(n: nat): string { if n == 0 then "" else " " + Spaces(n - 1) }

  function NewLine(level: nat): string { "\n" + Spaces(2 * level) }

  function KeyText(key: string, t: string): string { "\"" + (Escaped(key) + ("\": " + t)) }

  ghost function Text(floats: Floats, v: Value, level: nat): string
    decreases v, 2
  {
    match v
    case Null => "null"
    case Bool(b) => if b then "true" else "false"
    case Int(i) => Signed(i)
    case Float(f) => floats.write(f)
    case Str(s) => "\"" + (Escaped(s) + "\"")
    case List(items) =>
      if items == [] then "[]"
      else "[" + (NewLine(level + 1) + (ItemsText(floats, items, level + 1) + (NewLine(level) + "]")))
    case Dict(entries) =>
      if entries == map[] then "{}"
      else "{" + (NewLine(level + 1) + (MembersText(floats, v, entries, level + 1) + (NewLine(level) + "}")))
  }

  ghost function ItemsText(floats: Floats, items: seq<Value>, level: nat): string
    requires items != []
    decreases items, 0
  {
    if |items| == 1 then Text(floats, items[0], level)
    else Text(floats, items[0], level) + ("," + (NewLine(level) + ItemsText(floats, items[1..], level)))
  }

  /** The members of a dictionary, by ascending key; entries are those still to be printed. */
  ghost function MembersText(floats: Floats, v: Value, entries: Payload, level: nat): string
    requires v.Dict? && entries != map[] && PartOf(entries, v.entries)
    decreases v, 1, |entries|
  {
    var k := Least(entries.Keys);
    var first := KeyText(k, Text(floats, v.entries[k], level));
    var rest := entries - {k};
    assert rest.Keys == entries.Keys - {k};
    if rest == map[] then first else first + ("," + (NewLine(level) + MembersText(floats, v, rest, level)))
  }

  predicate PartOf(entries: Payload, whole: Payload) {
    forall k :: k in entries ==> k in whole && whole[k] == entries[k]
  }

  ghost function Serialize(floats: Floats, p: Payload): string { Text(floats, Dict(p), 0) + "\n" }

  // ---- the layout, on examples ----

  lemma LeastOfTwo(a: string, b: string)
    requires a != b && AtMost(a, b)
    ensures Least({a, b}) == a && Least({b}) == b
  {
    var k := Least({a, b});
    assert a in {a, b};
    if k == b {
      AtMostBothWays(a, b);
    }
  }

  lemma EscapedExample()
    ensures Escaped("\U{e9}\n\"") == "\\u00e9\\n\\\""
  {
    var s: string := ['\U{e9}', '\n', '"'];
    assert s[1..] == ['\n', '"'] && s[1..][1..] == ['"'] && s[1..][1..][1..] == "";
    assert EscapedChar('"') == "\\\"" && EscapedChar('\n') == "\\n";
    assert Hex(0xe9) == "00e9";
    assert EscapedChar('\U{e9}') == "\\u00e9";
    assert Escaped(s[1..][1..]) == "\\\"" + "";
    assert Escaped(s[1..]) == "\\n" + ("\\\"" + "");
  }

  lemma SpacesExample()
    ensures NewLine(0) == "\n" && NewLine(1) == "\n  " && NewLine(2) == "\n    "
  {
    assert Spaces(1) == " " && Spaces(2) == "  " && Spaces(3) == "   " && Spaces(4) == "    ";
  }

  /** A dictionary of two keys prints them in ascending order, a line each, one level further in. */
  lemma TwoMembers(floats: Floats, a: string, x: Value, b: string, y: Value, level: nat)
    requires a != b && AtMost(a, b)
    ensures Text(floats, Dict(map[a := x, b := y]), level) ==
      "{" + (NewLine(level + 1)
        + ("\"" + (Escaped(a) + ("\": " + Text(floats, x, level + 1)))
          + ("," + (NewLine(level + 1) + ("\"" + (Escaped(b) + ("\": " + Text(floats, y, level + 1))))))
        + (NewLine(level) + "}")))
  {
    LeastOfTwo(a, b);
    var p: Payload := map[a := x, b := y];
    var first, second := KeyText(a, Text(floats, x, level + 1)), KeyText(b, Text(floats, y, level + 1));
    assert p.Keys == {a, b} && (p - {a}).Keys == {b} && p - {a} - {b} == map[];
    assert MembersText(floats, Dict(p), p - {a}, level + 1) == second;
    assert MembersText(floats, Dict(p), p, level + 1) == first + ("," + (NewLine(level + 1) + second));
  }

  lemma ListExample(floats: Floats)
    ensures Text(floats, List([Null, Int(-12)]), 1) == "[\n    null,\n    -12\n  ]"
  {
    SpacesExample();
    var items := [Null, Int(-12)];
    assert items[1..] == [Int(-12)];
    assert Decimal(1) == "1" && Decimal(12) == "1" + "2" && Signed(-12) == "-12";
    assert ItemsText(floats, [Int(-12)], 2) == "-12";
    assert ItemsText(floats, items, 2) == "null" + ("," + ("\n    " + "-12"));
  }

  lemma EmptyExample(floats: Floats)
    ensures Serialize(floats, map[]) == "{}\n" && Text(floats, List([]), 0) == "[]"
  {
  }

  // ---- numbers read back ----

  /** What may follow a printed value. */
  predicate Ends(rest: string) {
    rest == "" || rest[0] in {',', ']', '}', '\n'}
  }

  lemma Regroup(a: string, b: string, c: string)
    ensures (a + b) + c == a + (b + c)
  {
  }

  lemma {:induction false} DigitsStay(s: string, rest: string)
    requires rest == "" || !IsDigit(rest[0])
    ensures Digits(s + rest) == Digits(s)
  {
    if s == "" {
      assert s + rest == rest;
    } else {
      assert (s + rest)[1..] == s[1..] + rest;
      DigitsStay(s[1..], rest);
    }
  }

  lemma NatStays(s: string, rest: string)
    requires rest == "" || !IsDigit(rest[0])
    ensures NatLength(s + rest) == NatLength(s)
  {
    DigitsStay(s, rest);
    assert s == "" ==> s + rest == rest;
  }

  lemma IntStays(s: string, rest: string)
    requires s != "" && (rest == "" || !IsDigit(rest[0]))
    ensures IntLength(s + rest) == IntLength(s)
  {
    NatStays(s, rest);
    assert (s + rest)[1..] == s[1..] + rest;
    NatStays(s[1..], rest);
  }

  lemma FractionStays(s: string, rest: string)
    requires Ends(rest)
    ensures FractionLength(s + rest) == FractionLength(s)
  {
    if s == "" {
      assert s + rest == rest;
    } else {
      assert (s + rest)[1..] == s[1..] + rest;
      DigitsStay(s[1..], rest);
    }
  }

  lemma SuffixOfConcat(s: string, rest: string, n: nat)
    requires n <= |s|
    ensures (s + rest)[n..] == s[n..] + rest && (s + rest)[..n] == s[..n]
  {
  }

  lemma SignStays(s: string, rest: string)
    requires Ends(rest)
    ensures SignLength(s + rest) == SignLength(s)
  {
    assert s == "" ==> s + rest == rest;
  }

  lemma ExponentStays(s: string, rest: string)
    requires Ends(rest)
    ensures ExponentLength(s + rest) == ExponentLength(s)
  {
    if s == "" {
      assert s + rest == rest;
    } else {
      SuffixOfConcat(s, rest, 1);
      SignStays(s[1..], rest);
      var n := 1 + SignLength(s[1..]);
      SuffixOfConcat(s, rest, n);
      DigitsStay(s[n..], rest);
    }
  }

  lemma TailStays(s: string, rest: string)
    requires Ends(rest)
    ensures TailLength(s + rest) == TailLength(s)
  {
    FractionStays(s, rest);
    var n := FractionLength(s);
    SuffixOfConcat(s, rest, n);
    ExponentStays(s[n..], rest);
  }

  lemma {:induction false} DecimalIsDigits(n: nat)
    ensures forall i :: 0 <= i < |Decimal(n)| ==> IsDigit(Decimal(n)[i])
    ensures Decimal(n) != "" && (n > 0 ==> Decimal(n)[0] != '0')
    ensures n == 0 ==> Decimal(n) == "0"
  {
    if n >= 10 {
      DecimalIsDigits(n / 10);
    }
  }

  lemma {:induction false} DecimalReads(n: nat)
    requires forall i :: 0 <= i < |Decimal(n)| ==> IsDigit(Decimal(n)[i])
    ensures NatOf(Decimal(n)) == n
  {
    var s := Decimal(n);
    if n < 10 {
      assert s[..0] == "";
    } else {
      DecimalIsDigits(n / 10);
      assert s[..|s| - 1] == Decimal(n / 10);
      DecimalReads(n / 10);
    }
  }

  lemma NatLengthOfDecimal(n: nat)
    ensures NatLength(Decimal(n)) == |Decimal(n)| && Decimal(n)[0] != '-'
  {
    DecimalIsDigits(n);
    AllDigits(Decimal(n));
  }

  lemma SignedIsInt(i: int)
    ensures IntLength(Signed(i)) == |Signed(i)| > 0 && IntOf(Signed(i)) == i
  {
    var n: nat := if i < 0 then -i else i;
    NatLengthOfDecimal(n);
    DecimalIsDigits(n);
    DecimalReads(n);
    if i < 0 {
      assert Signed(i)[1..] == Decimal(n);
    }
  }

  lemma NoTail(rest: string)
    requires Ends(rest)
    ensures TailLength(rest) == 0
  {
    TailStays("", rest);
    assert "" + rest == rest;
  }

  lemma {:induction false} IntReads(floats: Floats, i: int, rest: string)
    requires Ends(rest)
    ensures ReadNumber(floats, Signed(i) + rest) == Some((Int(i), rest))
  {
    var t := Signed(i);
    SignedIsInt(i);
    IntStays(t, rest);
    assert (t + rest)[..|t|] == t && (t + rest)[|t|..] == rest;
    NoTail(rest);
  }

  /** What is assumed of floats: each is printed as a number with a fraction or an exponent, and reads as itself. */
  ghost predicate FloatsRead(floats: Floats) {
    forall f: Double :: FloatReads(floats, f)
  }

  ghost predicate FloatReads(floats: Floats, f: Double) {
    IsFloatToken(floats.write(f)) && floats.read(floats.write(f)) == f
  }

  lemma {:induction false} FloatTokenReads(floats: Floats, f: Double, rest: string)
    requires FloatReads(floats, f) && Ends(rest)
    ensures ReadNumber(floats, floats.write(f) + rest) == Some((Float(f), rest))
  {
    var t := floats.write(f);
    var n := IntLength(t);
    IntStays(t, rest);
    assert (t + rest)[n..] == t[n..] + rest;
    TailStays(t[n..], rest);
    assert (t + rest)[..|t|] == t && (t + rest)[|t|..] == rest;
  }

  lemma NumberStarts(s: string)
    requires IntLength(s) > 0
    ensures s != "" && (s[0] == '-' || IsDigit(s[0]))
  {
  }

  // ---- texts read back ----

  lemma HexOfDigit(d: nat)
    requires d < 16
    ensures HexValue(HexDigit(d)) == Some(d)
  {
  }

  lemma DigitsOfHex(a: nat, b: nat, c: nat, d: nat, rest: string)
    requires a < 16 && b < 16 && c < 16 && d < 16
    ensures ReadHex([HexDigit(a), HexDigit(b), HexDigit(c), HexDigit(d)] + rest)
      == Some(4096 * a + 256 * b + 16 * c + d)
  {
    HexOfDigit(a);
    HexOfDigit(b);
    HexOfDigit(c);
    HexOfDigit(d);
  }

  lemma HexReads(n: nat, rest: string)
    requires n < 0x10000
    ensures ReadHex(Hex(n) + rest) == Some(n) && |Hex(n)| == 4 && (Hex(n) + rest)[4..] == rest
  {
    DigitsOfHex(n / 16 / 16 / 16, n / 16 / 16 % 16, n / 16 % 16, n % 16, rest);
  }

  lemma {:induction false} LowReads(high: nat, low: nat, rest: string)
    requires 0xd800 <= high < 0xdc00 && 0xdc00 <= low < 0xe000
    ensures ReadLowSurrogate(high, "\\u" + Hex(low) + rest)
         == Some(((0x10000 + (high - 0xd800) * 1024 + (low - 0xdc00)) as char, rest))
  {
    var s := "\\u" + Hex(low) + rest;
    HexReads(low, rest);
    assert s[2..] == Hex(low) + rest;
    assert s[6..] == (Hex(low) + rest)[4..];
  }

  lemma {:induction false} SurrogatesRead(n: nat, rest: string)
    requires 0x10000 <= n < 0x110000
    ensures ReadUnicode(Hex(0xd800 + (n - 0x10000) / 1024) + ("\\u" + Hex(0xdc00 + (n - 0x10000) % 1024) + rest))
         == Some((n as char, rest))
  {
    var high, low := 0xd800 + (n - 0x10000) / 1024, 0xdc00 + (n - 0x10000) % 1024;
    HexReads(high, "\\u" + Hex(low) + rest);
    LowReads(high, low, rest);
  }

  lemma Rest(c: char, s: string)
    ensures ([c] + s)[1..] == s
  {
  }

  lemma {:induction false} UnitReads(n: nat, rest: string)
    requires n < 0xd800 || 0xe000 <= n < 0x10000
    ensures ReadEscape("u" + Hex(n) + rest) == Some((n as char, rest))
  {
    Regroup("u", Hex(n), rest);
    Rest('u', Hex(n) + rest);
    HexReads(n, rest);
  }

  lemma {:induction false} PairReads(n: nat, rest: string)
    requires 0x10000 <= n < 0x110000
    ensures ReadEscape(CodeText(n) + rest) == Some((n as char, rest))
  {
    var high, low := Hex(0xd800 + (n - 0x10000) / 1024), "\\u" + Hex(0xdc00 + (n - 0x10000) % 1024);
    Regroup("u", high + low, rest);
    Regroup(high, low, rest);
    Rest('u', high + (low + rest));
    SurrogatesRead(n, rest);
  }

  lemma {:induction false} CodeReads(c: char, rest: string)
    ensures ReadEscape(CodeText(c as int) + rest) == Some((c, rest))
  {
    if c as int < 0x10000 {
      UnitReads(c as int, rest);
    } else {
      PairReads(c as int, rest);
    }
  }

  lemma {:induction false} EscapeReads(c: char, rest: string)
    ensures ReadEscape(Code(c) + rest) == Some((c, rest))
  {
    match ShortCode(c)
    case Some(short) => Rest(short, rest);
    case None => CodeReads(c, rest);
  }

  lemma {:induction false} TextReads(s: string, rest: string)
    ensures ReadText(Escaped(s) + ("\"" + rest)) == Some((s, rest))
  {
    var tail := "\"" + rest;
    if s == "" {
      assert Escaped(s) + tail == tail;
      assert tail[1..] == rest;
    } else {
      var e, more := EscapedChar(s[0]), Escaped(s[1..]) + tail;
      Regroup(e, Escaped(s[1..]), tail);
      TextReads(s[1..], rest);
      CharReads(s[0], more);
      assert [s[0]] + s[1..] == s;
    }
  }

  lemma {:induction false} CharReads(c: char, more: string)
    ensures ReadText(EscapedChar(c) + more) == Before(c, ReadText(more))
  {
    if IsPlain(c) {
      Rest(c, more);
    } else {
      Regroup("\\", Code(c), more);
      Rest('\\', Code(c) + more);
      EscapeReads(c, more);
    }
  }

  // ---- values read back ----

  lemma {:induction false} SpacesSkip(n: nat, rest: string)
    requires rest != "" && !IsBlank(rest[0])
    ensures Skip(Spaces(n) + rest) == rest
  {
    if n == 0 {
      assert Spaces(n) + rest == rest;
    } else {
      assert (Spaces(n) + rest)[1..] == Spaces(n - 1) + rest;
      SpacesSkip(n - 1, rest);
    }
  }

  lemma NewLineSkips(level: nat, rest: string)
    requires rest != "" && !IsBlank(rest[0])
    ensures Skip(NewLine(level) + rest) == rest
  {
    assert (NewLine(level) + rest)[1..] == Spaces(2 * level) + rest;
    SpacesSkip(2 * level, rest);
  }

  /** The text can stand where a value is expected. */
  predicate StartsValue(s: string) {
    s != "" && !IsBlank(s[0]) && s[0] != ']' && s[0] != '}'
  }

  lemma {:induction false} TextStarts(floats: Floats, v: Value, level: nat)
    requires FloatsRead(floats)
    ensures StartsValue(Text(floats, v, level))
  {
    match v
    case Int(i) =>
      SignedIsInt(i);
      NumberStarts(Signed(i));
    case Float(f) =>
      assert FloatReads(floats, f);
      NumberStarts(floats.write(f));
    case _ =>
  }

  ghost predicate ReadsAs(floats: Floats, v: Value, t: string, rest: string) {
    ReadValue(floats, t + rest) == Some((v, rest))
  }

  lemma NumberReads(floats: Floats, v: Value, t: string, rest: string)
    requires IntLength(t) > 0 && ReadNumber(floats, t + rest) == Some((v, rest))
    ensures ReadsAs(floats, v, t, rest)
  {
    NumberStarts(t);
  }

  lemma StrReads(floats: Floats, s: string, rest: string)
    ensures ReadsAs(floats, Str(s), "\"" + (Escaped(s) + "\""), rest)
  {
    var t := "\"" + (Escaped(s) + "\"") + rest;
    assert t[1..] == Escaped(s) + "\"" + rest;
    Regroup(Escaped(s), "\"", rest);
    TextReads(s, rest);
  }

  lemma Regroup4(a: string, b: string, c: string, d: string, e: string)
    ensures (a + (b + (c + d))) + e == a + (b + (c + (d + e)))
  {
    Regroup(a, b + (c + d), e);
    Regroup(b, c + d, e);
    Regroup(c, d, e);
  }

  /** After the last value comes the end of the list or of the object. */
  lemma ClosingSkips(outer: nat, bracket: char, rest: string)
    requires bracket == ']' || bracket == '}'
    ensures var close := NewLine(outer) + ([bracket] + rest);
      Ends(close) && Skip(close) == [bracket] + rest && ([bracket] + rest)[1..] == rest
  {
    NewLineSkips(outer, [bracket] + rest);
  }

  /** After another value comes a comma and a new line. */
  lemma CommaSkips(level: nat, more: string)
    requires StartsValue(more)
    ensures var tail := "," + (NewLine(level) + more);
      Ends(tail) && Skip(tail) == tail && Skip(tail[1..]) == more
  {
    var tail := "," + (NewLine(level) + more);
    assert tail[1..] == NewLine(level) + more;
    NewLineSkips(level, more);
  }

  lemma {:induction false} LastItemReads(floats: Floats, v: Value, t: string, outer: nat, rest: string)
    requires ReadsAs(floats, v, t, NewLine(outer) + ("]" + rest))
    ensures ReadItems(floats, t + (NewLine(outer) + ("]" + rest))) == Some(([v], rest))
  {
    ClosingSkips(outer, ']', rest);
  }

  lemma {:induction false} NextItemReads(
      floats: Floats, v: Value, t: string, level: nat, more: string, items: seq<Value>, after: string)
    requires StartsValue(more) && ReadsAs(floats, v, t, "," + (NewLine(level) + more))
    requires ReadItems(floats, more) == Some((items, after))
    ensures ReadItems(floats, t + ("," + (NewLine(level) + more))) == Some(([v] + items, after))
  {
    CommaSkips(level, more);
  }

  lemma {:induction false} ItemsRead(floats: Floats, items: seq<Value>, level: nat, outer: nat, rest: string)
    requires FloatsRead(floats) && items != []
    ensures ReadItems(floats, ItemsText(floats, items, level) + (NewLine(outer) + ("]" + rest))) == Some((items, rest))
    decreases items, 0
  {
    var first, close := Text(floats, items[0], level), NewLine(outer) + ("]" + rest);
    if |items| == 1 {
      ClosingSkips(outer, ']', rest);
      TextReadsBack(floats, items[0], level, close);
      LastItemReads(floats, items[0], first, outer, rest);
      assert items == [items[0]];
    } else {
      var more := ItemsText(floats, items[1..], level);
      ItemsStart(floats, items[1..], level);
      CommaSkips(level, more + close);
      TextReadsBack(floats, items[0], level, "," + (NewLine(level) + (more + close)));
      ItemsRead(floats, items[1..], level, outer, rest);
      NextItemReads(floats, items[0], first, level, more + close, items[1..], rest);
      Regroup4(first, ",", NewLine(level), more, close);
      assert [items[0]] + items[1..] == items;
    }
  }

  lemma ItemsStart(floats: Floats, items: seq<Value>, level: nat)
    requires FloatsRead(floats) && items != []
    ensures StartsValue(ItemsText(floats, items, level))
  {
    TextStarts(floats, items[0], level);
  }

  lemma {:induction false} ArrayReads(floats: Floats, items: seq<Value>, level: nat, inner: string, rest: string)
    requires StartsValue(inner) && ReadItems(floats, inner) == Some((items, rest))
    ensures ReadValue(floats, "[" + (NewLine(level) + inner)) == Some((List(items), rest))
  {
    var t := "[" + (NewLine(level) + inner);
    assert t[1..] == NewLine(level) + inner;
    NewLineSkips(level, inner);
  }

  lemma {:induction false} EmptyArrayReads(floats: Floats, rest: string)
    ensures ReadValue(floats, "[]" + rest) == Some((List([]), rest))
  {
    var s := "[]" + rest;
    assert s[1..] == "]" + rest;
    Rest(']', rest);
  }

  lemma {:induction false} ListReads(floats: Floats, items: seq<Value>, level: nat, rest: string)
    requires FloatsRead(floats)
    ensures ReadsAs(floats, List(items), Text(floats, List(items), level), rest)
    decreases items, 1
  {
    if items == [] {
      EmptyArrayReads(floats, rest);
    } else {
      var inner, close := ItemsText(floats, items, level + 1), NewLine(level) + ("]" + rest);
      ItemsStart(floats, items, level + 1);
      ItemsRead(floats, items, level + 1, level, rest);
      ArrayReads(floats, items, level + 1, inner + close, rest);
      Regroup4("[", NewLine(level + 1), inner, NewLine(level) + "]", rest);
      Regroup(NewLine(level), "]", rest);
    }
  }

  lemma KeyTextConcat(key: string, t: string, rest: string)
    ensures KeyText(key, t) + rest == KeyText(key, t + rest)
  {
    Regroup("\"", Escaped(key) + ("\": " + t), rest);
    Regroup(Escaped(key), "\": " + t, rest);
    Regroup("\": ", t, rest);
  }

  lemma ColonSkips(text: string)
    requires StartsValue(text)
    ensures var s := ": " + text; Skip(s) == s && Skip(s[1..]) == text
  {
    assert (": " + text)[1..] == " " + text;
    assert (" " + text)[1..] == text;
  }

  lemma {:induction false} KeyReads(key: string, text: string)
    requires StartsValue(text)
    ensures ReadKey(KeyText(key, text)) == Some((key, text))
  {
    Rest('"', Escaped(key) + ("\": " + text));
    assert "\": " == "\"" + ": ";
    Regroup("\"", ": ", text);
    TextReads(key, ": " + text);
    ColonSkips(text);
  }

  lemma {:induction false} LastMemberReads(floats: Floats, key: string, v: Value, t: string, outer: nat, rest: string)
    requires StartsValue(t) && ReadsAs(floats, v, t, NewLine(outer) + ("}" + rest))
    ensures ReadMembers(floats, KeyText(key, t) + (NewLine(outer) + ("}" + rest))) == Some((map[key := v], rest))
  {
    var close := NewLine(outer) + ("}" + rest);
    KeyTextConcat(key, t, close);
    KeyReads(key, t + close);
    ClosingSkips(outer, '}', rest);
  }

  lemma {:induction false} NextMemberReads(
      floats: Floats, key: string, v: Value, t: string, level: nat, more: string, entries: Payload, after: string)
    requires StartsValue(t) && StartsValue(more) && ReadsAs(floats, v, t, "," + (NewLine(level) + more))
    requires ReadMembers(floats, more) == Some((entries, after))
    ensures ReadMembers(floats, KeyText(key, t) + ("," + (NewLine(level) + more)))
      == Some((map[key := v] + entries, after))
  {
    var tail := "," + (NewLine(level) + more);
    KeyTextConcat(key, t, tail);
    KeyReads(key, t + tail);
    CommaSkips(level, more);
  }

  lemma KeyStarts(key: string, t: string, tail: string)
    ensures StartsValue(KeyText(key, t) + tail)
  {
  }

  lemma MembersStart(floats: Floats, v: Value, entries: Payload, level: nat, tail: string)
    requires v.Dict? && entries != map[] && PartOf(entries, v.entries)
    ensures StartsValue(MembersText(floats, v, entries, level) + tail)
  {
    KeyStarts(Least(entries.Keys), Text(floats, v.entries[Least(entries.Keys)], level), tail);
  }

  lemma PutBack(entries: Payload, k: string)
    requires k in entries
    ensures (entries - {k}).Keys == entries.Keys - {k} && map[k := entries[k]] + (entries - {k}) == entries
    ensures entries - {k} == map[] ==> map[k := entries[k]] == entries
  {
    assert (entries - {k}).Keys == entries.Keys - {k};
    if entries - {k} == map[] {
      forall other | other in entries ensures other == k {
        assert other == k || other in entries - {k};
      }
    }
  }

  lemma {:induction false} MembersRead(floats: Floats, v: Value, entries: Payload, level: nat, outer: nat, rest: string)
    requires FloatsRead(floats) && v.Dict? && entries != map[] && PartOf(entries, v.entries)
    ensures ReadMembers(floats, MembersText(floats, v, entries, level) + (NewLine(outer) + ("}" + rest)))
      == Some((entries, rest))
    decreases v, 0, |entries|
  {
    var close, k := NewLine(outer) + ("}" + rest), Least(entries.Keys);
    var member, text, others := v.entries[k], Text(floats, v.entries[k], level), entries - {k};
    PutBack(entries, k);
    TextStarts(floats, member, level);
    if others == map[] {
      ClosingSkips(outer, '}', rest);
      TextReadsBack(floats, member, level, close);
      LastMemberReads(floats, k, member, text, outer, rest);
    } else {
      var more := MembersText(floats, v, others, level);
      MembersStart(floats, v, others, level, close);
      CommaSkips(level, more + close);
      TextReadsBack(floats, member, level, "," + (NewLine(level) + (more + close)));
      MembersRead(floats, v, others, level, outer, rest);
      NextMemberReads(floats, k, member, text, level, more + close, others, rest);
      Regroup4(KeyText(k, text), ",", NewLine(level), more, close);
    }
  }

  lemma {:induction false} ObjectReads(floats: Floats, entries: Payload, level: nat, inner: string, rest: string)
    requires StartsValue(inner) && ReadMembers(floats, inner) == Some((entries, rest))
    ensures ReadValue(floats, "{" + (NewLine(level) + inner)) == Some((Dict(entries), rest))
  {
    var t := "{" + (NewLine(level) + inner);
    assert t[1..] == NewLine(level) + inner;
    NewLineSkips(level, inner);
  }

  lemma {:induction false} EmptyObjectReads(floats: Floats, rest: string)
    ensures ReadValue(floats, "{}" + rest) == Some((Dict(map[]), rest))
  {
    var s := "{}" + rest;
    assert s[1..] == "}" + rest;
    Rest('}', rest);
  }

  lemma {:induction false} DictReads(floats: Floats, v: Value, level: nat, rest: string)
    requires FloatsRead(floats) && v.Dict?
    ensures ReadsAs(floats, v, Text(floats, v, level), rest)
    decreases v, 1
  {
    var entries := v.entries;
    if entries == map[] {
      EmptyObjectReads(floats, rest);
    } else {
      var inner, close := MembersText(floats, v, entries, level + 1), NewLine(level) + ("}" + rest);
      MembersRead(floats, v, entries, level + 1, level, rest);
      MembersStart(floats, v, entries, level + 1, close);
      ObjectReads(floats, entries, level + 1, inner + close, rest);
      Regroup4("{", NewLine(level + 1), inner, NewLine(level) + "}", rest);
      Regroup(NewLine(level), "}", rest);
    }
  }

  /** A printed value reads as itself, at any depth and before anything that can follow it. */
  lemma {:induction false} TextReadsBack(floats: Floats, v: Value, level: nat, rest: string)
    requires FloatsRead(floats) && Ends(rest)
    ensures ReadsAs(floats, v, Text(floats, v, level), rest)
    decreases v, 2
  {
    var t := Text(floats, v, level);
    match v
    case Null => assert (t + rest)[4..] == rest;
    case Bool(b) => assert (t + rest)[|t|..] == rest;
    case Int(i) =>
      SignedIsInt(i);
      IntReads(floats, i, rest);
      NumberReads(floats, v, t, rest);
    case Float(f) =>
      FloatTokenReads(floats, f, rest);
      NumberReads(floats, v, t, rest);
    case Str(s) => StrReads(floats, s, rest);
    case List(items) => ListReads(floats, items, level, rest);
    case Dict(_) => DictReads(floats, v, level, rest);
  }

  // ---- the codec of the store ----

  ghost function StoreCodec(floats: Floats): Codec {
    Codec((p: Payload) => Serialize(floats, p), (s: string) => Parse(floats, s))
  }

  /** Main result: for every payload, the printed text parses back, and it is never blank, as far as floats do. */
  lemma {:induction false} StoreTextRoundTrips(floats: Floats)
    requires FloatsRead(floats)
    ensures RoundTrips(StoreCodec(floats))
  {
    forall p: Payload ensures PrintsBack(StoreCodec(floats), p) {
      TextReadsBack(floats, Dict(p), 0, "\n");
      TextStarts(floats, Dict(p), 0);
      var s := Serialize(floats, p);
      assert s[0] == '{' && Skip(s) == s && Skip("\n") == "";
    }
  }

  /** Floats that print mantissa and exponent as a decimal number does. */
  function PlainFloats(): Floats {
    Floats((f: Double) => PlainText(f), (s: string) => PlainFloat(s))
  }

  function PlainText(f: Double): string { Signed(f.mantissa) + ("e" + Signed(f.exponent)) }

  function PlainFloat(s: string): Double {
    var n := IntLength(s);
    if n >= |s| || IntLength(s[n + 1..]) != |s| - n - 1 then Binary(0, 0)
    else
      IntPrefix(s);
      var f := Binary(IntOf(s[..n]), IntOf(s[n + 1..]));
      if IsDouble(f) then f else Binary(0, 0)
  }

  lemma {:induction false} ExponentOfSigned(i: int)
    ensures TailLength("e" + Signed(i)) == 1 + |Signed(i)|
  {
    var t, n: nat := Signed(i), if i < 0 then -i else i;
    DecimalIsDigits(n);
    AllDigits(Decimal(n));
    Rest('e', t);
    assert t[SignLength(t)..] == Decimal(n);
    assert ("e" + t)[1 + SignLength(t)..] == Decimal(n);
    assert ("e" + t)[0..] == "e" + t;
  }

  /** A printed float, taken apart. */
  lemma {:induction false} PlainTextParts(f: Double)
    ensures var t, m, e := PlainText(f), Signed(f.mantissa), Signed(f.exponent);
      IntLength(t) == |m| && t[..|m|] == m && t[|m|..] == "e" + e && t[|m| + 1..] == e && |t| == |m| + 1 + |e|
  {
    var m, e := Signed(f.mantissa), Signed(f.exponent);
    SignedIsInt(f.mantissa);
    IntStays(m, "e" + e);
  }

  lemma {:induction false} PlainFloatReads(f: Double)
    ensures FloatReads(PlainFloats(), f)
  {
    SignedIsInt(f.mantissa);
    SignedIsInt(f.exponent);
    ExponentOfSigned(f.exponent);
    PlainTextParts(f);
    PlainTextIsRead(f, PlainText(f));
  }

  lemma PlainTextIsRead(f: Double, t: string)
    requires t == PlainText(f) && IntLength(t) < |t|
    requires t[..IntLength(t)] == Signed(f.mantissa) && IntLength(Signed(f.mantissa)) == |Signed(f.mantissa)|
    requires t[IntLength(t) + 1..] == Signed(f.exponent) && IntLength(Signed(f.exponent)) == |Signed(f.exponent)|
    requires IntOf(Signed(f.mantissa)) == f.mantissa && IntOf(Signed(f.exponent)) == f.exponent
    ensures PlainFloat(t) == f
  {
  }

  /** So a codec of the assumed kind exists. */
  lemma {:induction false} RoundTripsCanBeMet()
    ensures FloatsRead(PlainFloats()) && RoundTrips(StoreCodec(PlainFloats()))
  {
    forall f: Double ensures FloatReads(PlainFloats(), f) {
      PlainFloatReads(f);
    }
    StoreTextRoundTrips(PlainFloats());
  }
}
