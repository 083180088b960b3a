/** White space normalisation and chunking of text. */
module Text {
  import opened Values

  /** The length of the first word of a text that starts with one. */
  function WordEnd(s: string): (n: nat)
    ensures n <= |s|
    ensures forall i :: 0 <= i < n ==> !IsSpace(s[i])
    ensures n < |s| ==> IsSpace(s[n])
  {
    if s == "" || IsSpace(s[0]) then 0 else 1 + WordEnd(s[1..])
  }

  /** The maximal runs of characters that are not white space. */
  function Words(s: string): seq<string>
    decreases |s|
  {
    if s == "" then []
    else if IsSpace(s[0]) then Words(s[1..])
    else [s[..WordEnd(s)]] + Words(s[WordEnd(s)..])
  }

  function Joined(words: seq<string>): string {
    if words == [] then "" else if |words| == 1 then words[0] else words[0] + " " + Joined(words[1..])
  }

  function Clean(text: string): string { Joined(Words(text)) }

  predicate IsWord(w: string) {
    w != "" && forall i :: 0 <= i < |w| ==> !IsSpace(w[i])
  }

  lemma {:induction false} WordsAreWords(s: string)
    ensures forall i :: 0 <= i < |Words(s)| ==> IsWord(Words(s)[i])
    decreases |s|
  {
    if s != "" {
      WordsAreWords(if IsSpace(s[0]) then s[1..] else s[WordEnd(s)..]);
    }
  }

  lemma {:induction false} WordEndOf(w: string, rest: string)
    requires IsWord(w) && (rest == "" || IsSpace(rest[0]))
    ensures WordEnd(w + rest) == |w|
  {
    assert (w + rest)[..|w|] == w;
    if |w| == 1 {
      assert (w + rest)[1..] == rest;
    } else {
      assert (w + rest)[1..] == w[1..] + rest;
      WordEndOf(w[1..], rest);
    }
  }

  /** Splitting undoes joining. */
  lemma {:induction false} WordsOfJoined(words: seq<string>)
    requires forall i :: 0 <= i < |words| ==> IsWord(words[i])
    ensures Words(Joined(words)) == words
  {
    if |words| == 1 {
      WordEndOf(words[0], "");
      assert words[0] + "" == words[0];
    } else if words != [] {
      var w, rest := words[0], " " + Joined(words[1..]);
      WordEndOf(w, rest);
      WordsOfJoined(words[1..]);
      assert Joined(words) == w + rest;
      assert (w + rest)[..|w|] == w && (w + rest)[|w|..] == rest && rest[1..] == Joined(words[1..]);
    }
  }

  /** Main result: cleaning keeps every word in order and is idempotent. */
  lemma CleanKeepsWords(text: string)
    ensures Words(Clean(text)) == Words(text)
    ensures Clean(Clean(text)) == Clean(text)
  {
    WordsAreWords(text);
    WordsOfJoined(Words(text));
  }

  /** The characters that are not white space. */
  function Ink(s: string): string {
    if s == "" then "" else (if IsSpace(s[0]) then "" else [s[0]]) + Ink(s[1..])
  }

  lemma {:induction false} InkOfConcat(a: string, b: string)
    ensures Ink(a + b) == Ink(a) + Ink(b)
  {
    if a == "" {
      assert a + b == b;
    } else {
      assert (a + b)[1..] == a[1..] + b;
      InkOfConcat(a[1..], b);
    }
  }

  lemma {:induction false} InkOfWord(w: string)
    requires forall i :: 0 <= i < |w| ==> !IsSpace(w[i])
    ensures Ink(w) == w
  {
    if w != "" {
      InkOfWord(w[1..]);
    }
  }

  lemma {:induction false} InkOfClean(s: string)
    ensures Ink(Clean(s)) == Ink(s)
    decreases |s|
  {
    if s != "" && IsSpace(s[0]) {
      InkOfClean(s[1..]);
    } else if s != "" {
      var w, rest := s[..WordEnd(s)], s[WordEnd(s)..];
      InkOfClean(rest);
      assert s == w + rest;
      InkOfConcat(w, rest);
      var words := Words(rest);
      assert Words(s) == [w] + words;
      if words != [] {
        assert Clean(s) == w + (" " + Clean(rest));
        InkOfConcat(w, " " + Clean(rest));
        assert (" " + Clean(rest))[1..] == Clean(rest);
      }
    }
  }

  lemma SpaceFirst(c: char, rest: string)
    requires IsSpace(c)
    ensures Words([c] + rest) == Words(rest)
  {
    assert ([c] + rest)[1..] == rest;
  }

  /** What follows a text that does not run on cannot lengthen its first word. */
  lemma WordEndBeforeSpace(a: string, t: string)
    requires a != "" && !IsSpace(a[0]) && (t == "" || IsSpace(t[0]))
    ensures WordEnd(a + t) == WordEnd(a)
  {
    var n := WordEnd(a);
    assert a + t == a[..n] + (a[n..] + t);
    WordEndOf(a[..n], a[n..] + t);
  }

  lemma WordsFromWord(s: string, w: string, rest: string)
    requires s != "" && !IsSpace(s[0]) && w == s[..WordEnd(s)] && rest == s[WordEnd(s)..]
    ensures Words(s) == [w] + Words(rest)
  {
  }

  lemma OneMore(word: string, x: seq<string>, y: seq<string>)
    ensures [word] + (x + y) == ([word] + x) + y
  {
  }

  lemma OneMoreWord(a: string, t: string, s: string, w: string, rest: string)
    requires a != "" && !IsSpace(a[0]) && (t == "" || IsSpace(t[0]))
    requires s == a + t && w == a[..WordEnd(a)] && rest == a[WordEnd(a)..]
    ensures Words(s) == [w] + Words(rest + t)
  {
    WordEndBeforeSpace(a, t);
    WordsFromWord(s, w, rest + t);
  }

  lemma {:induction false} WordsBeforeSpace(a: string, t: string)
    requires t == "" || IsSpace(t[0])
    ensures Words(a + t) == Words(a) + Words(t)
    decreases |a|
  {
    if a == "" {
      assert a + t == t;
    } else if IsSpace(a[0]) {
      assert (a + t)[1..] == a[1..] + t;
      WordsBeforeSpace(a[1..], t);
    } else {
      WordsBeforeSpace(a[WordEnd(a)..], t);
      var w, rest := a[..WordEnd(a)], a[WordEnd(a)..];
      OneMoreWord(a, t, a + t, w, rest);
      WordsFromWord(a, w, rest);
      OneMore(w, Words(rest), Words(t));
    }
  }

  lemma {:induction false} WordsAfterSpaces(gap: string, b: string)
    requires forall i :: 0 <= i < |gap| ==> IsSpace(gap[i])
    ensures Words(gap + b) == Words(b)
  {
    if gap == "" {
      assert gap + b == b;
    } else {
      assert gap + b == [gap[0]] + (gap[1..] + b);
      SpaceFirst(gap[0], gap[1..] + b);
      WordsAfterSpaces(gap[1..], b);
    }
  }

  /** White space splits a text into words that do not see each other. */
  lemma WordsOfSplit(a: string, gap: string, b: string)
    requires gap != "" && forall i :: 0 <= i < |gap| ==> IsSpace(gap[i])
    ensures Words(a + gap + b) == Words(a) + Words(b)
  {
    assert a + gap + b == a + (gap + b);
    WordsBeforeSpace(a, gap + b);
    WordsAfterSpaces(gap, b);
  }

  lemma {:induction false} JoinedOfConcat(x: seq<string>, y: seq<string>)
    requires x != [] && y != []
    ensures Joined(x + y) == Joined(x) + " " + Joined(y)
  {
    assert (x + y)[1..] == x[1..] + y;
    if |x| == 1 {
      assert x[1..] + y == y;
    } else {
      JoinedOfConcat(x[1..], y);
      assert Joined(x + y) == x[0] + " " + (Joined(x[1..]) + " " + Joined(y));
    }
  }

  /** Nothing is left of a text exactly if it is all white space. */
  lemma {:induction false} CleanOfBlank(s: string)
    ensures Words(s) == [] <==> forall i :: 0 <= i < |s| ==> IsSpace(s[i])
    ensures Clean(s) == "" <==> forall i :: 0 <= i < |s| ==> IsSpace(s[i])
  {
    WordsAreWords(s);
    if Words(s) != [] {
      assert IsWord(Words(s)[0]) && Joined(Words(s)) != "";
    }
    if s != "" && IsSpace(s[0]) {
      CleanOfBlank(s[1..]);
      assert forall i :: 1 <= i < |s| ==> s[i] == s[1..][i - 1];
    }
  }

  lemma CleanOfWord(w: string)
    requires forall i :: 0 <= i < |w| ==> !IsSpace(w[i])
    ensures Clean(w) == w
  {
    if w != "" {
      WordEndOf(w, "");
      assert w + "" == w && Words(w[|w|..]) == [];
      assert Words(w) == [w];
    }
  }

  /** Cleaning in full: with the two lemmas above, any white space between two texts becomes one blank, and none at
      the ends. */
  lemma CleanOfSplit(a: string, gap: string, b: string)
    requires gap != "" && forall i :: 0 <= i < |gap| ==> IsSpace(gap[i])
    ensures Clean(a + gap + b) ==
      if Clean(a) == "" then Clean(b) else if Clean(b) == "" then Clean(a) else Clean(a) + " " + Clean(b)
  {
    WordsOfSplit(a, gap, b);
    CleanOfBlank(a);
    CleanOfBlank(b);
    if Words(a) == [] {
      assert Words(a) + Words(b) == Words(b);
    } else if Words(b) == [] {
      assert Words(a) + Words(b) == Words(a);
    } else {
      JoinedOfConcat(Words(a), Words(b));
    }
  }

  // ---- chunks ----

  function Slices(s: string, at: nat, size: nat): seq<string>
    requires size > 0
    decreases |s| - at
  {
    if at >= |s| then []
    else [s[at..if at + size <= |s| then at + size else |s|]] + Slices(s, at + size, size)
  }

  function Chunks(text: string, size: nat): seq<string>
    requires size > 0
  {
    if Clean(text) == "" then [""] else Slices(Clean(text), 0, size)
  }

  function Concat(pieces: seq<string>): string {
    if pieces == [] then "" else pieces[0] + Concat(pieces[1..])
  }

  lemma {:induction false} SlicesCover(s: string, at: nat, size: nat)
    requires size > 0 && at <= |s|
    ensures Concat(Slices(s, at, size)) == s[at..]
    ensures forall i :: 0 <= i < |Slices(s, at, size)| ==> 0 < |Slices(s, at, size)[i]| <= size
    ensures forall i :: 0 <= i < |Slices(s, at, size)| - 1 ==> |Slices(s, at, size)[i]| == size
    decreases |s| - at
  {
    if at < |s| {
      if at + size <= |s| {
        SlicesCover(s, at + size, size);
        assert s[at..] == s[at..at + size] + s[at + size..];
      } else {
        assert Slices(s, at + size, size) == [];
      }
    }
  }

  /** Main result: the chunks put together are the cleaned text; none is too long, and only the last can be shorter. */
  lemma ChunksCover(text: string, size: nat)
    requires size > 0
    ensures Concat(Chunks(text, size)) == Clean(text)
    ensures Chunks(text, size) != []
    ensures forall i :: 0 <= i < |Chunks(text, size)| ==> |Chunks(text, size)[i]| <= size
    ensures forall i :: 0 <= i < |Chunks(text, size)| - 1 ==> |Chunks(text, size)[i]| == size
  {
    if Clean(text) == "" {
      assert Concat([""]) == "";
    } else {
      SlicesCover(Clean(text), 0, size);
      assert Clean(text)[0..] == Clean(text);
    }
  }
}
