/** Values that JSON-like dictionaries hold, optional values, results, the order of texts, and the characters Python
    calls white space. */
module Values {

  datatype Option<+T> = None | Some(value: T)

  datatype Result<+T, +E> = Ok(value: T) | Err(error: E)

  /** A mantissa times a power of two. */
  datatype Binary = Binary(mantissa: int, exponent: int)

  /** The number of binary digits. */
  function Bits(n: nat): nat { if n == 0 then 0 else 1 + Bits(n / 2) }

  function PowerOfTwo(k: nat): (n: nat)
    ensures n > 0
  {
    if k == 0 then 1 else 2 * PowerOfTwo(k - 1)
  }

  /** A number has at most k digits exactly if it is below the k-th power of two. */
  lemma {:induction false} BitsAtMost(n: nat, k: nat)
    ensures Bits(n) <= k <==> n < PowerOfTwo(k)
  {
    if n > 0 && k > 0 {
      BitsAtMost(n / 2, k - 1);
    }
  }

  /** The finite numbers of the 64-bit format of IEEE 754, each in one way; the two zeros are one. */
  predicate IsDouble(f: Binary) {
    if f.mantissa == 0 then f.exponent == 0
    else
      var digits := Bits(if f.mantissa < 0 then -f.mantissa else f.mantissa);
      f.mantissa % 2 == 1 && digits <= 53 && f.exponent >= -1074 && digits + f.exponent <= 1024
  }

  type Double = f: Binary | IsDouble(f) witness Binary(0, 0)

  datatype Value =
    | Null
    | Bool(b: bool)
    | Int(i: int)
    | Float(f: Double)
    | Str(s: string)
    | List(items: seq<Value>)
    | Dict(entries: map<string, Value>)

  function Lookup<K, T>(m: map<K, T>, key: K): Option<T> {
    if key in m then Some(m[key]) else None
  }

  /** Texts compare character by character. */
  predicate AtMost(a: string, b: string) {
    a == "" || (b != "" && (a[0] < b[0] || (a[0] == b[0] && AtMost(a[1..], b[1..]))))
  }

  lemma {:induction false} AtMostFrom(a: string, b: string, i: nat)
    requires i < |a| && i < |b| && a[i] < b[i] && forall k :: 0 <= k < i ==> a[k] == b[k]
    ensures AtMost(a, b)
  {
    if i > 0 {
      AtMostFrom(a[1..], b[1..], i - 1);
    }
  }

  lemma {:induction false} AtMostOfPrefix(a: string, b: string)
    requires |a| <= |b| && forall k :: 0 <= k < |a| ==> a[k] == b[k]
    ensures AtMost(a, b)
  {
    if a != "" {
      AtMostOfPrefix(a[1..], b[1..]);
    }
  }

  /** The place at which they first differ, or the end of the first. */
  lemma {:induction false} AtMostMeans(a: string, b: string) returns (i: nat)
    requires AtMost(a, b)
    ensures i <= |a| && i <= |b| && forall k :: 0 <= k < i ==> a[k] == b[k]
    ensures i == |a| || (i < |b| && a[i] < b[i])
  {
    i := 0;
    if a != "" && a[0] == b[0] {
      var j := AtMostMeans(a[1..], b[1..]);
      i := j + 1;
      assert forall k :: 1 <= k < i ==> a[k] == a[1..][k - 1] && b[k] == b[1..][k - 1];
    }
  }

  /** Either the first is a beginning of the second, or it has the lesser character where they first differ. */
  lemma AtMostExactly(a: string, b: string)
    ensures AtMost(a, b) <==>
      || (|a| <= |b| && forall k :: 0 <= k < |a| ==> a[k] == b[k])
      || exists i :: 0 <= i < |a| && i < |b| && a[i] < b[i] && forall k :: 0 <= k < i ==> a[k] == b[k]
  {
    if AtMost(a, b) {
      var i := AtMostMeans(a, b);
    }
    if |a| <= |b| && forall k :: 0 <= k < |a| ==> a[k] == b[k] {
      AtMostOfPrefix(a, b);
    }
    if i :| 0 <= i < |a| && i < |b| && a[i] < b[i] && forall k :: 0 <= k < i ==> a[k] == b[k] {
      AtMostFrom(a, b, i);
    }
  }

  lemma {:induction false} AtMostIsTotal(a: string, b: string)
    ensures AtMost(a, b) || AtMost(b, a)
  {
    if a != "" && b != "" {
      AtMostIsTotal(a[1..], b[1..]);
    }
  }

  lemma {:induction false} AtMostIsTransitive(a: string, b: string, c: string)
    requires AtMost(a, b) && AtMost(b, c)
    ensures AtMost(a, c)
  {
    if a != "" && a[0] == b[0] == c[0] {
      AtMostIsTransitive(a[1..], b[1..], c[1..]);
    }
  }

  lemma {:induction false} AtMostBothWays(a: string, b: string)
    requires AtMost(a, b) && AtMost(b, a)
    ensures a == b
  {
    if a != "" && b != "" {
      AtMostBothWays(a[1..], b[1..]);
      assert a == [a[0]] + a[1..] && b == [b[0]] + b[1..];
    }
  }

  predicate IsSpace(c: char) {
    || '\t' <= c <= '\r'
    || '\U{1c}' <= c <= '\U{20}'
    || c == '\U{85}' || c == '\U{a0}' || c == '\U{1680}'
    || '\U{2000}' <= c <= '\U{200a}'
    || c == '\U{2028}' || c == '\U{2029}' || c == '\U{202f}' || c == '\U{205f}' || c == '\U{3000}'
  }

  /** Nothing is left after stripping. */
  predicate Blank(s: string) {
    forall i :: 0 <= i < |s| ==> IsSpace(s[i])
  }

  /** The characters that str.strip and split remove, one by one. */
  lemma SpacesAreThese(c: char)
    ensures IsSpace(c) <==> c as int in {
      9, 10, 11, 12, 13, 28, 29, 30, 31, 32, 133, 160, 5760, 8192, 8193, 8194, 8195, 8196, 8197, 8198, 8199, 8200, 8201,
      8202, 8232, 8233, 8239, 8287, 12288}
  {
  }

  predicate Truthy(v: Value) {
    match v
    case Null => false
    case Bool(b) => b
    case Int(i) => i != 0
    case Float(f) => f.mantissa != 0
    case Str(s) => s != ""
    case List(items) => items != []
    case Dict(entries) => entries != map[]
  }

  /** The values that Python counts as false. */
  lemma TruthyExactly(v: Value)
    ensures Truthy(v) <==>
      v !in {Null, Bool(false), Int(0), Float(Binary(0, 0)), Str(""), List([]), Dict(map[])}
  {
  }

  /** A field counts as filled in if it is truthy and its text is not blank. */
  predicate Filled(v: Option<Value>) {
    match v
    case None => false
    case Some(Str(s)) => !Blank(s)
    case Some(other) => Truthy(other)
  }

  lemma FilledExactly(v: Option<Value>)
    ensures Filled(v) <==>
      && v.Some?
      && v.value !in {Null, Bool(false), Int(0), Float(Binary(0, 0)), Str(""), List([]), Dict(map[])}
      && (v.value.Str? ==> exists i :: 0 <= i < |v.value.s| && !IsSpace(v.value.s[i]))
  {
  }

  /** A missing or empty string. */
  predicate Missing(s: Option<string>) {
    s == None || s == Some("")
  }
}
