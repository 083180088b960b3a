/** Token segments: base64url without padding, as in section 5 of RFC 4648 and section 2 of RFC 7515. */
module Segments {
  import opened Values

  type Byte = x: int | 0 <= x < 256

  type Sextet = x: int | 0 <= x < 64

  function Letter(v: Sextet): char {
    if v < 26 then ('A' as int + v) as char
    else if v < 52 then ('a' as int + v - 26) as char
    else if v < 62 then ('0' as int + v - 52) as char
    else if v == 62 then '-' else '_'
  }

  /** The value of a letter; the decoder takes the letters of both alphabets. */
  function Reading(c: char): Option<Sextet> {
    if 'A' <= c <= 'Z' then Some(c as int - 'A' as int)
    else if 'a' <= c <= 'z' then Some(c as int - 'a' as int + 26)
    else if '0' <= c <= '9' then Some(c as int - '0' as int + 52)
    else if c == '-' || c == '+' then Some(62)
    else if c == '_' || c == '/' then Some(63)
    else None
  }

  lemma ReadingOfLetter(v: Sextet)
    ensures Reading(Letter(v)) == Some(v) && Letter(v) != '=' && Letter(v) != '.' && Letter(v) < 128 as char
  {
  }

  // ---- encoding ----

  /** The four sextets of three bytes. */
  function First(a: Byte): Sextet { a / 4 }

  function Second(a: Byte, b: Byte): Sextet { a % 4 * 16 + b / 16 }

  function Third(b: Byte, c: Byte): Sextet { b % 16 * 4 + c / 64 }

  function Fourth(c: Byte): Sextet { c % 64 }

  function Encode(bytes: seq<Byte>): (s: string)
    ensures |s| % 4 == 0
  {
    if bytes == [] then ""
    else if |bytes| == 1 then Single(bytes[0])
    else if |bytes| == 2 then Pair(bytes[0], bytes[1])
    else
      var rest := Encode(bytes[3..]);
      WholeGroups(|rest|);
      Quad(bytes[0], bytes[1], bytes[2]) + rest
  }

  lemma WholeGroups(n: nat)
    requires n % 4 == 0
    ensures (4 + n) % 4 == 0
  {
  }

  function Single(a: Byte): (s: string)
    ensures |s| == 4
  {
    [Letter(First(a)), Letter(Second(a, 0)), '=', '=']
  }

  function Pair(a: Byte, b: Byte): (s: string)
    ensures |s| == 4
  {
    [Letter(First(a)), Letter(Second(a, b)), Letter(Third(b, 0)), '=']
  }

  function Quad(a: Byte, b: Byte, c: Byte): (s: string)
    ensures |s| == 4
  {
    [Letter(First(a)), Letter(Second(a, b)), Letter(Third(b, c)), Letter(Fourth(c))]
  }

  function Stripped(s: string): string {
    if s != "" && s[|s| - 1] == '=' then Stripped(s[..|s| - 1]) else s
  }

  function Segment(bytes: seq<Byte>): string { Stripped(Encode(bytes)) }

  /** The alphabet of section 5 of RFC 4648: 26 capitals, 26 small letters, ten digits, minus, underscore. */
  lemma AlphabetInFull(v: Sextet)
    ensures Letter(v) as int ==
      if v <= 25 then 65 + v else if v <= 51 then 71 + v else if v <= 61 then v - 4 else if v == 62 then 45 else 95
  {
  }

  /** The reader takes a letter of that alphabet, and plus and slash for its last two, and no other character. */
  lemma ReadingInFull(c: char, v: Sextet)
    ensures Reading(c) == Some(v) <==> c == Letter(v) || (v == 62 && c == '+') || (v == 63 && c == '/')
  {
  }

  /** The four sextets of three bytes spell the same number of 24 bits. */
  lemma SextetsSpell(a: Byte, b: Byte, c: Byte)
    ensures ((First(a) * 64 + Second(a, b)) * 64 + Third(b, c)) * 64 + Fourth(c) == (a * 256 + b) * 256 + c
  {
    assert a == a / 4 * 4 + a % 4 && b == b / 16 * 16 + b % 16 && c == c / 64 * 64 + c % 64;
  }

  /** Three bytes become the letters of their four sextets; one or two at the end are filled up with zeros, and padding
      stands for the sextets that come from these alone. */
  lemma EncodedInFull(a: Byte, b: Byte, c: Byte, rest: seq<Byte>)
    returns (v0: Sextet, v1: Sextet, v2: Sextet, v3: Sextet)
    ensures ((v0 * 64 + v1) * 64 + v2) * 64 + v3 == (a * 256 + b) * 256 + c
    ensures Encode([]) == ""
    ensures Encode([a, b, c] + rest) == [Letter(v0), Letter(v1), Letter(v2), Letter(v3)] + Encode(rest)
    ensures c == 0 ==> Encode([a, b]) == [Letter(v0), Letter(v1), Letter(v2), '=']
    ensures b == 0 && c == 0 ==> Encode([a]) == [Letter(v0), Letter(v1), '=', '=']
  {
    v0, v1, v2, v3 := First(a), Second(a, b), Third(b, c), Fourth(c);
    SextetsSpell(a, b, c);
    assert ([a, b, c] + rest)[3..] == rest;
  }

  /** Some of the test vectors of section 10 of RFC 4648: f, fo, foo and foobar. */
  lemma TestVectors()
    ensures Encode([102]) == "Zg==" && Encode([102, 111]) == "Zm8=" && Encode([102, 111, 111]) == "Zm9v"
    ensures Encode([102, 111, 111, 98, 97, 114]) == "Zm9vYmFy"
  {
    var foobar: seq<Byte> := [102, 111, 111, 98, 97, 114];
    assert foobar[3..] == [98, 97, 114] && [98, 97, 114][3..] == [] && [102, 111, 111][3..] == [];
    assert Encode([102, 111, 111]) == "Zm9v" && Encode([98, 97, 114]) == "YmFy";
  }

  // ---- decoding ----

  function Padding(n: nat): string {
    if n == 0 then "" else "=" + Padding(n - 1)
  }

  function Padded(s: string): string { s + Padding((-|s|) % 4) }

  /** The lenient decoder: characters outside the alphabet are skipped, and enough padding ends the text. The state is
      the place in the group of four, the bits left over, and the padding seen since the last letter. */
  function Decode(s: string, place: nat, left: nat, pads: nat): Option<seq<Byte>>
    requires place < 4 && left < 64
    decreases |s|
  {
    if s == "" then if place == 0 then Some([]) else None
    else if s[0] == '=' then
      if place >= 2 && place + pads + 1 >= 4 then Some([])
      else Decode(s[1..], place, left, if place >= 2 then pads + 1 else pads)
    else
      match Reading(s[0])
      case None => Decode(s[1..], place, left, pads)
      case Some(v) =>
        if place == 0 then Decode(s[1..], 1, v, 0)
        else
          Prepend(Out(place, left, v), Decode(s[1..], (place + 1) % 4, Rest(place, v), 0))
  }

  /** The byte that a letter completes. */
  function Out(place: nat, left: nat, v: Sextet): Byte {
    (if place == 1 then left * 4 + v / 16 else if place == 2 then left * 16 + v / 4 else left * 64 + v) % 256
  }

  /** The bits a letter leaves over. */
  function Rest(place: nat, v: Sextet): Sextet {
    if place == 1 then v % 16 else if place == 2 then v % 4 else 0
  }

  function Prepend(b: Byte, rest: Option<seq<Byte>>): Option<seq<Byte>> {
    if rest.Some? then Some([b] + rest.value) else None
  }

  /** Characters outside the alphabet do not count, padding included where it cannot end the text; and a text that ends
      within a group of four does not decode. */
  lemma DecodingIsLenient(c: char, rest: string, place: nat, left: nat, pads: nat)
    requires place < 4 && left < 64
    ensures c != '=' && (forall v: Sextet :: Reading(c) != Some(v)) ==>
      Decode([c] + rest, place, left, pads) == Decode(rest, place, left, pads)
    ensures place < 2 ==> Decode("=" + rest, place, left, pads) == Decode(rest, place, left, pads)
    ensures place > 0 ==> Decode("", place, left, pads) == None
  {
    assert ([c] + rest)[1..] == rest && ("=" + rest)[1..] == rest;
    if Reading(c).Some? {
      assert Reading(c) == Some(Reading(c).value);
    }
  }

  lemma DecodeLetter(v: Sextet, rest: string, place: nat, left: nat, pads: nat)
    requires place < 4 && left < 64
    ensures Decode([Letter(v)] + rest, place, left, pads) ==
      if place == 0 then Decode(rest, 1, v, 0)
      else Prepend(Out(place, left, v), Decode(rest, (place + 1) % 4, Rest(place, v), 0))
  {
    ReadingOfLetter(v);
    assert ([Letter(v)] + rest)[1..] == rest;
  }

  /** The sextets of three bytes give the bytes back. */
  lemma SextetsGiveBytes(a: Byte, b: Byte, c: Byte)
    ensures Out(1, First(a), Second(a, b)) == a
    ensures Out(2, Rest(1, Second(a, b)), Third(b, c)) == b
    ensures Out(3, Rest(2, Third(b, c)), Fourth(c)) == c
  {
    HighBits(a % 4, b / 16, 16);
    HighBits(b % 16, c / 64, 4);
  }

  lemma HighBits(high: nat, low: nat, base: nat)
    requires low < base && (base == 16 || base == 4)
    ensures (high * base + low) / base == high && (high * base + low) % base == low
  {
  }

  lemma DecodeLastTwo(left: Sextet, v2: Sextet, v3: Sextet, rest: string)
    ensures Decode([Letter(v2)] + ([Letter(v3)] + rest), 2, left, 0)
      == Prepend(Out(2, left, v2), Prepend(Out(3, Rest(2, v2), v3), Decode(rest, 0, 0, 0)))
  {
    DecodeLetter(v2, [Letter(v3)] + rest, 2, left, 0);
    DecodeLetter(v3, rest, 3, Rest(2, v2), 0);
  }

  lemma FourFirst(a: char, b: char, c: char, d: char, rest: string)
    ensures [a, b, c, d] + rest == [a] + ([b] + ([c] + ([d] + rest)))
  {
  }

  lemma DecodeFour(v0: Sextet, v1: Sextet, v2: Sextet, v3: Sextet, rest: string)
    ensures Decode([Letter(v0), Letter(v1), Letter(v2), Letter(v3)] + rest, 0, 0, 0)
      == Prepend(Out(1, v0, v1),
        Prepend(Out(2, Rest(1, v1), v2), Prepend(Out(3, Rest(2, v2), v3), Decode(rest, 0, 0, 0))))
  {
    var s2 := [Letter(v2)] + ([Letter(v3)] + rest);
    DecodeLastTwo(Rest(1, v1), v2, v3, rest);
    DecodeLetter(v1, s2, 1, v0, 0);
    DecodeLetter(v0, [Letter(v1)] + s2, 0, 0, 0);
    FourFirst(Letter(v0), Letter(v1), Letter(v2), Letter(v3), rest);
  }

  lemma DecodeGroup(a: Byte, b: Byte, c: Byte, rest: string)
    ensures Decode(Quad(a, b, c) + rest, 0, 0, 0) == Prepend(a, Prepend(b, Prepend(c, Decode(rest, 0, 0, 0))))
  {
    DecodeFour(First(a), Second(a, b), Third(b, c), Fourth(c), rest);
    SextetsGiveBytes(a, b, c);
  }

  lemma EnoughPadding(left: nat)
    requires left < 64
    ensures Decode("=", 3, left, 0) == Some([]) && Decode("==", 2, left, 0) == Some([])
  {
    assert "=="[1..] == "=";
    assert Decode("=", 2, left, 1) == Some([]);
  }

  lemma DecodeOne(a: Byte)
    ensures Decode(Encode([a]), 0, 0, 0) == Some([a])
  {
    var v0, v1 := First(a), Second(a, 0);
    EnoughPadding(Rest(1, v1));
    DecodeLetter(v1, "==", 1, v0, 0);
    DecodeLetter(v0, [Letter(v1)] + "==", 0, 0, 0);
    SextetsGiveBytes(a, 0, 0);
    assert Encode([a]) == [Letter(v0)] + ([Letter(v1)] + "==");
    assert [a] + [] == [a];
  }

  lemma DecodeTwo(a: Byte, b: Byte)
    ensures Decode(Encode([a, b]), 0, 0, 0) == Some([a, b])
  {
    var v0, v1, v2 := First(a), Second(a, b), Third(b, 0);
    EnoughPadding(Rest(2, v2));
    DecodeLetter(v2, "=", 2, Rest(1, v1), 0);
    DecodeLetter(v1, [Letter(v2)] + "=", 1, v0, 0);
    DecodeLetter(v0, [Letter(v1)] + ([Letter(v2)] + "="), 0, 0, 0);
    SextetsGiveBytes(a, b, 0);
    assert Encode([a, b]) == [Letter(v0)] + ([Letter(v1)] + ([Letter(v2)] + "="));
    assert [a] + ([b] + []) == [a, b];
  }

  lemma {:induction false} DecodeEncode(bytes: seq<Byte>)
    ensures Decode(Encode(bytes), 0, 0, 0) == Some(bytes)
  {
    if |bytes| > 2 {
      DecodeEncode(bytes[3..]);
      DecodeGroup(bytes[0], bytes[1], bytes[2], Encode(bytes[3..]));
      assert [bytes[0]] + ([bytes[1]] + ([bytes[2]] + bytes[3..])) == bytes;
    } else if |bytes| == 2 {
      DecodeTwo(bytes[0], bytes[1]);
      assert bytes == [bytes[0], bytes[1]];
    } else if |bytes| == 1 {
      DecodeOne(bytes[0]);
      assert bytes == [bytes[0]];
    }
  }

  // ---- stripping and padding ----

  predicate Letters(s: string) {
    forall i :: 0 <= i < |s| ==> s[i] != '=' && s[i] != '.' && s[i] < 128 as char
  }

  /** The letters of an encoding, without its padding. */
  function Body(bytes: seq<Byte>): string {
    if bytes == [] then ""
    else if |bytes| == 1 then [Letter(First(bytes[0])), Letter(Second(bytes[0], 0))]
    else if |bytes| == 2 then [Letter(First(bytes[0])), Letter(Second(bytes[0], bytes[1])), Letter(Third(bytes[1], 0))]
    else Quad(bytes[0], bytes[1], bytes[2]) + Body(bytes[3..])
  }

  lemma LettersAppend(s: string, t: string)
    requires Letters(s) && Letters(t)
    ensures Letters(s + t)
  {
  }

  lemma OneLetter(v: Sextet)
    ensures Letters([Letter(v)])
  {
    ReadingOfLetter(v);
  }

  lemma TwoLetters(v0: Sextet, v1: Sextet)
    ensures Letters([Letter(v0), Letter(v1)])
  {
    OneLetter(v0);
    OneLetter(v1);
    LettersAppend([Letter(v0)], [Letter(v1)]);
    assert [Letter(v0)] + [Letter(v1)] == [Letter(v0), Letter(v1)];
  }

  lemma ThreeLetters(v0: Sextet, v1: Sextet, v2: Sextet)
    ensures Letters([Letter(v0), Letter(v1), Letter(v2)])
  {
    TwoLetters(v0, v1);
    OneLetter(v2);
    LettersAppend([Letter(v0), Letter(v1)], [Letter(v2)]);
    assert [Letter(v0), Letter(v1)] + [Letter(v2)] == [Letter(v0), Letter(v1), Letter(v2)];
  }

  lemma FourLetters(v0: Sextet, v1: Sextet, v2: Sextet, v3: Sextet)
    ensures Letters([Letter(v0), Letter(v1), Letter(v2), Letter(v3)])
  {
    ThreeLetters(v0, v1, v2);
    OneLetter(v3);
    LettersAppend([Letter(v0), Letter(v1), Letter(v2)], [Letter(v3)]);
    assert [Letter(v0), Letter(v1), Letter(v2)] + [Letter(v3)] == [Letter(v0), Letter(v1), Letter(v2), Letter(v3)];
  }

  lemma {:induction false} BodyHasLetters(bytes: seq<Byte>)
    ensures Letters(Body(bytes))
  {
    if |bytes| > 2 {
      BodyHasLetters(bytes[3..]);
      FourLetters(First(bytes[0]), Second(bytes[0], bytes[1]), Third(bytes[1], bytes[2]), Fourth(bytes[2]));
      LettersAppend(Quad(bytes[0], bytes[1], bytes[2]), Body(bytes[3..]));
    } else if |bytes| == 2 {
      ThreeLetters(First(bytes[0]), Second(bytes[0], bytes[1]), Third(bytes[1], 0));
    } else if |bytes| == 1 {
      TwoLetters(First(bytes[0]), Second(bytes[0], 0));
    }
  }

  function PaddingOf(n: nat): nat {
    if n % 3 == 0 then 0 else 3 - n % 3
  }

  lemma {:induction false} BodyLength(bytes: seq<Byte>)
    ensures (-|Body(bytes)|) % 4 == PaddingOf(|bytes|)
  {
    if |bytes| > 2 {
      BodyLength(bytes[3..]);
      FourMore(|Body(bytes[3..])|, |bytes[3..]|);
    } else {
      ShortLengths();
    }
  }

  lemma FourMore(letters: int, n: nat)
    ensures (-(4 + letters)) % 4 == (-letters) % 4 && PaddingOf(n + 3) == PaddingOf(n)
  {
  }

  lemma ShortLengths()
    ensures (-0) % 4 == PaddingOf(0) && (-2) % 4 == PaddingOf(1) && (-3) % 4 == PaddingOf(2)
  {
  }

  lemma Reassociate(a: string, b: string, c: string)
    ensures a + (b + c) == (a + b) + c
  {
  }

  lemma {:induction false} ShortEncodingEndsInPadding(bytes: seq<Byte>)
    requires |bytes| <= 2
    ensures Encode(bytes) == Body(bytes) + Padding(PaddingOf(|bytes|))
  {
    ShortPaddings();
    if bytes == [] {
      assert Encode(bytes) == "" && Body(bytes) == "";
    } else if |bytes| == 1 {
      assert Encode(bytes) == Body(bytes) + "==";
    } else {
      assert Encode(bytes) == Body(bytes) + "=";
    }
  }

  lemma ShortPaddings()
    ensures Padding(PaddingOf(0)) == "" && Padding(PaddingOf(1)) == "==" && Padding(PaddingOf(2)) == "="
  {
    assert PaddingOf(0) == 0 && PaddingOf(1) == 2 && PaddingOf(2) == 1;
    assert Padding(1) == "=" && Padding(2) == "==";
  }

  lemma QuadEndsInPadding(bytes: seq<Byte>)
    requires |bytes| > 2 && Encode(bytes[3..]) == Body(bytes[3..]) + Padding(PaddingOf(|bytes| - 3))
    ensures Encode(bytes) == Body(bytes) + Padding(PaddingOf(|bytes|))
  {
    assert PaddingOf(|bytes| - 3) == PaddingOf(|bytes|);
    Reassociate(Quad(bytes[0], bytes[1], bytes[2]), Body(bytes[3..]), Padding(PaddingOf(|bytes|)));
  }

  lemma {:induction false} EncodingEndsInPadding(bytes: seq<Byte>)
    ensures Encode(bytes) == Body(bytes) + Padding(PaddingOf(|bytes|))
  {
    if |bytes| > 2 {
      EncodingEndsInPadding(bytes[3..]);
      QuadEndsInPadding(bytes);
    } else {
      ShortEncodingEndsInPadding(bytes);
    }
  }

  lemma {:induction false} StrippedPadding(s: string, n: nat)
    requires Letters(s)
    ensures Stripped(s + Padding(n)) == s
  {
    if n == 0 {
      assert s + Padding(0) == s;
    } else {
      PaddingLast(n);
      assert (s + Padding(n))[..|s + Padding(n)| - 1] == s + Padding(n - 1);
      StrippedPadding(s, n - 1);
    }
  }

  lemma {:induction false} PaddingLast(n: nat)
    requires n > 0
    ensures |Padding(n)| == n && Padding(n) == Padding(n - 1) + "=" && |Padding(n - 1)| == n - 1
  {
    if n > 1 {
      PaddingLast(n - 1);
      assert "=" + (Padding(n - 2) + "=") == ("=" + Padding(n - 2)) + "=";
    }
  }

  lemma {:induction false} SegmentIsBody(bytes: seq<Byte>)
    ensures Segment(bytes) == Body(bytes) && Letters(Segment(bytes))
  {
    EncodingEndsInPadding(bytes);
    BodyHasLetters(bytes);
    StrippedPadding(Body(bytes), PaddingOf(|bytes|));
  }

  /** Padding a stripped segment again gives the encoding back. */
  lemma {:induction false} PaddingRestores(bytes: seq<Byte>)
    ensures Padded(Segment(bytes)) == Encode(bytes)
  {
    SegmentIsBody(bytes);
    BodyLength(bytes);
    EncodingEndsInPadding(bytes);
  }

  /** Main result: a segment, padded again, decodes to its bytes; and it has no dot. */
  lemma {:induction false} SegmentRoundTrips(bytes: seq<Byte>)
    ensures Decode(Padded(Segment(bytes)), 0, 0, 0) == Some(bytes)
    ensures Letters(Segment(bytes))
  {
    PaddingRestores(bytes);
    DecodeEncode(bytes);
    SegmentIsBody(bytes);
  }

  // ---- tokens ----

  /** The pieces between dots. */
  function Pieces(token: string): (pieces: seq<string>)
    ensures pieces != []
  {
    if token == "" then [""]
    else if token[0] == '.' then [""] + Pieces(token[1..])
    else
      var rest := Pieces(token[1..]);
      [[token[0]] + rest[0]] + rest[1..]
  }

  lemma {:induction false} PiecesOf(s: string, rest: string)
    requires '.' !in s
    ensures Pieces(s + "." + rest) == [s] + Pieces(rest)
    ensures Pieces(s) == [s]
  {
    var all := s + "." + rest;
    if s == "" {
      assert all[1..] == rest && all[0] == '.';
    } else {
      assert all[1..] == s[1..] + "." + rest && all[0] == s[0];
      PiecesOf(s[1..], rest);
      assert [s[0]] + s[1..] == s;
    }
  }

  function Token(header: seq<Byte>, body: seq<Byte>, signature: seq<Byte>): string {
    Segment(header) + "." + Segment(body) + "." + Segment(signature)
  }

  /** The bytes of the second segment, if there is one that decodes. */
  function PayloadBytes(token: string): Option<seq<Byte>> {
    if |Pieces(token)| < 2 then None
    else
      var padded := Padded(Pieces(token)[1]);
      if exists i :: 0 <= i < |padded| && padded[i] >= 128 as char then None else Decode(padded, 0, 0, 0)
  }

  type Claims = map<string, Value>

  /** Printing claims to bytes and parsing bytes are left abstract. */
  datatype Codec = Codec(printed: Claims -> seq<Byte>, parse: seq<Byte> -> Option<Value>)

  ghost predicate PrintsBack(codec: Codec, claims: Claims) {
    codec.parse(codec.printed(claims)) == Some(Dict(claims))
  }

  /** Whatever goes wrong, the claims are empty. */
  function ClaimsOf(codec: Codec, token: string): Claims {
    match PayloadBytes(token)
    case None => map[]
    case Some(bytes) =>
      match codec.parse(bytes)
      case Some(Dict(claims)) => claims
      case _ => map[]
  }

  /** The expiry in seconds; a boolean counts as an integer. */
  function ExpiresAt(codec: Codec, token: string): Option<int> {
    match Lookup<string, Value>(ClaimsOf(codec, token), "exp")
    case Some(Int(i)) => Some(i)
    case Some(Bool(b)) => Some(if b then 1 else 0)
    case _ => None
  }

  lemma ThreePieces(h: string, b: string, g: string)
    requires '.' !in h && '.' !in b && '.' !in g
    ensures Pieces(h + "." + b + "." + g) == [h, b, g]
  {
    PiecesOf(g, "");
    PiecesOf(b, g);
    PiecesOf(h, b + "." + g);
    assert h + "." + b + "." + g == h + "." + (b + "." + g);
  }

  lemma TokenPieces(header: seq<Byte>, body: seq<Byte>, signature: seq<Byte>)
    ensures Pieces(Token(header, body, signature)) == [Segment(header), Segment(body), Segment(signature)]
  {
    SegmentIsBody(header);
    SegmentIsBody(body);
    SegmentIsBody(signature);
    ThreePieces(Segment(header), Segment(body), Segment(signature));
  }

  lemma MintedTokenGivesBytes(header: seq<Byte>, body: seq<Byte>, signature: seq<Byte>)
    ensures PayloadBytes(Token(header, body, signature)) == Some(body)
  {
    TokenPieces(header, body, signature);
    SegmentRoundTrips(body);
    PaddedIsAscii(Segment(body));
  }

  /** Main result: the second segment of any minted token gives back exactly the bytes, and so the claims and the
      expiry, it was minted with. */
  lemma MintedTokenGivesClaims(codec: Codec, header: seq<Byte>, claims: Claims, signature: seq<Byte>)
    requires PrintsBack(codec, claims)
    ensures var token := Token(header, codec.printed(claims), signature);
      && PayloadBytes(token) == Some(codec.printed(claims))
      && ClaimsOf(codec, token) == claims
      && (forall exp: int :: Lookup(claims, "exp") == Some(Int(exp)) ==> ExpiresAt(codec, token) == Some(exp))
      && (forall b: bool :: Lookup(claims, "exp") == Some(Bool(b)) ==>
            ExpiresAt(codec, token) == Some(if b then 1 else 0))
      && ("exp" !in claims || !(claims["exp"].Int? || claims["exp"].Bool?) ==> ExpiresAt(codec, token) == None)
  {
    MintedTokenGivesBytes(header, codec.printed(claims), signature);
  }

  /** A second segment that is not ASCII, does not decode, does not parse, or is not an object gives no claims and no
      expiry. */
  lemma BrokenSegmentNoClaims(codec: Codec, header: string, segment: string, rest: string)
    requires '.' !in header && '.' !in segment && '.' !in rest
    requires
      || (exists i :: 0 <= i < |segment| && segment[i] >= 128 as char)
      || Decode(Padded(segment), 0, 0, 0) == None
      || (var parsed := codec.parse(Decode(Padded(segment), 0, 0, 0).value); parsed == None || !parsed.value.Dict?)
    ensures ClaimsOf(codec, header + "." + segment + "." + rest) == map[]
    ensures ExpiresAt(codec, header + "." + segment + "." + rest) == None
  {
    ThreePieces(header, segment, rest);
    var padded := Padded(segment);
    assert forall i :: 0 <= i < |segment| ==> padded[i] == segment[i];
  }

  lemma PaddedIsAscii(s: string)
    requires Letters(s)
    ensures forall i :: 0 <= i < |Padded(s)| ==> Padded(s)[i] < 128 as char
  {
    PaddingChars((-|s|) % 4);
  }

  lemma {:induction false} PaddingChars(n: nat)
    ensures |Padding(n)| == n && forall i :: 0 <= i < n ==> Padding(n)[i] == '='
  {
    if n > 0 {
      PaddingChars(n - 1);
    }
  }

  /** A token without a dot has no claims. */
  lemma NoSecondSegmentNoClaims(codec: Codec, token: string)
    requires '.' !in token
    ensures ClaimsOf(codec, token) == map[]
  {
    PiecesOf(token, "");
  }
}
