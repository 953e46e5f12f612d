/** Whitespace splitting, joining and trimming as the query parser uses them. Which characters are
    whitespace is a parameter; the only requirement is that a blank is. */
module QueryWords {
  import opened Wrappers

  type Space = char -> bool

  predicate IsWord(sp: Space, w: string) { w != "" && forall i :: 0 <= i < |w| ==> !sp(w[i]) }

  predicate AllWords(sp: Space, ws: seq<string>) { forall i :: 0 <= i < |ws| ==> IsWord(sp, ws[i]) }

  /** Length of the word at the front. */
  function WordLength(sp: Space, s: string): (n: nat)
    ensures n <= |s| && (forall i :: 0 <= i < n ==> !sp(s[i])) && (n < |s| ==> sp(s[n]))
  {
    if s == "" || sp(s[0]) then 0 else 1 + WordLength(sp, s[1..])
  }

  /** The maximal runs of characters that are not whitespace, in order. */
  function Split(sp: Space, s: string): seq<string>
    decreases |s|
  {
    if s == "" then []
    else if sp(s[0]) then Split(sp, s[1..])
    else var n := WordLength(sp, s); [s[..n]] + Split(sp, s[n..])
  }

  function Join(ws: seq<string>): string {
    if ws == [] then "" else if |ws| == 1 then ws[0] else ws[0] + " " + Join(ws[1..])
  }

  /** What is left when the whitespace is taken out. */
  function Ink(sp: Space, s: string): string {
    if s == "" then "" else (if sp(s[0]) then "" else [s[0]]) + Ink(sp, s[1..])
  }

  lemma {:induction false} InkOfWord(sp: Space, w: string, s: string)
    requires forall i :: 0 <= i < |w| ==> !sp(w[i])
    ensures Ink(sp, w + s) == w + Ink(sp, s)
    decreases |w|
  {
    if w == "" {
      assert w + s == s;
    } else {
      assert (w + s)[1..] == w[1..] + s;
      InkOfWord(sp, w[1..], s);
      assert w == [w[0]] + w[1..];
    }
  }

  /** Splitting yields words only and loses nothing but whitespace. */
  lemma {:induction false} SplitIsLossless(sp: Space, s: string)
    ensures AllWords(sp, Split(sp, s))
    ensures Concat(Split(sp, s)) == Ink(sp, s)
    decreases |s|
  {
    if s != "" {
      if sp(s[0]) {
        SplitIsLossless(sp, s[1..]);
      } else {
        var n := WordLength(sp, s);
        SplitIsLossless(sp, s[n..]);
        assert s == s[..n] + s[n..];
        InkOfWord(sp, s[..n], s[n..]);
      }
    }
  }

  lemma {:induction false} WordLengthOf(sp: Space, w: string, s: string)
    requires IsWord(sp, w) && (s == "" || sp(s[0]))
    ensures WordLength(sp, w + s) == |w|
    decreases |w|
  {
    if |w| == 1 {
      assert (w + s)[1..] == s;
    } else {
      assert (w + s)[1..] == w[1..] + s;
      WordLengthOf(sp, w[1..], s);
    }
  }

  lemma SplitWord(sp: Space, w: string, s: string)
    requires IsWord(sp, w) && (s == "" || sp(s[0]))
    ensures Split(sp, w + s) == [w] + Split(sp, s)
  {
    WordLengthOf(sp, w, s);
    assert (w + s)[..|w|] == w && (w + s)[|w|..] == s;
  }

  lemma FirstWord(sp: Space, a: string, b: string) returns (w: string, rest: string)
    requires a != "" && !sp(a[0]) && (b == "" || sp(b[0]))
    ensures |rest| < |a|
    ensures Split(sp, a) == [w] + Split(sp, rest) && Split(sp, a + b) == [w] + Split(sp, rest + b)
  {
    var n := WordLength(sp, a);
    w, rest := a[..n], a[n..];
    assert a + b == w + (rest + b);
    SplitWord(sp, w, rest + b);
  }

  /** Whitespace between two texts keeps their words apart. */
  lemma {:induction false} SplitConcat(sp: Space, a: string, b: string)
    requires b == "" || sp(b[0])
    ensures Split(sp, a + b) == Split(sp, a) + Split(sp, b)
    decreases |a|
  {
    if a == "" {
      assert a + b == b;
    } else if sp(a[0]) {
      SkipSpace(sp, a, b);
      SplitConcat(sp, a[1..], b);
    } else {
      var w, rest := FirstWord(sp, a, b);
      SplitConcat(sp, rest, b);
      Regroup([w], Split(sp, rest), Split(sp, b));
    }
  }

  lemma SkipSpace(sp: Space, a: string, b: string)
    requires a != "" && sp(a[0])
    ensures Split(sp, a + b) == Split(sp, a[1..] + b) && Split(sp, a) == Split(sp, a[1..])
  {
    assert (a + b)[1..] == a[1..] + b;
  }

  lemma Regroup(x: seq<string>, y: seq<string>, z: seq<string>)
    ensures x + (y + z) == (x + y) + z
  {
  }

  lemma {:induction false} SplitTrimStart(sp: Space, s: string)
    ensures Split(sp, TrimStart(sp, s)) == Split(sp, s)
    decreases |s|
  {
    if s != "" && sp(s[0]) { SplitTrimStart(sp, s[1..]); }
  }

  lemma {:induction false} SplitTrimEnd(sp: Space, s: string)
    ensures Split(sp, TrimEnd(sp, s)) == Split(sp, s)
    decreases |s|
  {
    if s != "" && sp(s[|s| - 1]) {
      var init := s[..|s| - 1];
      SplitTrimEnd(sp, init);
      assert s == init + [s[|s| - 1]];
      SplitConcat(sp, init, [s[|s| - 1]]);
      assert [s[|s| - 1]][1..] == "";
    }
  }

  /** Splitting undoes joining. */
  lemma {:induction false} SplitJoin(sp: Space, ws: seq<string>)
    requires sp(' ') && AllWords(sp, ws)
    ensures Split(sp, Join(ws)) == ws
    decreases |ws|
  {
    if |ws| == 1 {
      assert ws[0] + "" == ws[0] && ws == [ws[0]];
      SplitWord(sp, ws[0], "");
    } else if |ws| > 1 {
      var rest := Join(ws[1..]);
      SplitJoin(sp, ws[1..]);
      assert ws[0] + " " + rest == ws[0] + (" " + rest);
      SplitWord(sp, ws[0], " " + rest);
      assert (" " + rest)[1..] == rest;
      assert ws == [ws[0]] + ws[1..];
    }
  }

  lemma SplitTrim(sp: Space, s: string)
    ensures Split(sp, Trim(sp, s)) == Split(sp, s)
  {
    SplitTrimStart(sp, s);
    SplitTrimEnd(sp, TrimStart(sp, s));
  }

  lemma SplitAround(sp: Space, a: string, b: string)
    requires sp(' ')
    ensures Split(sp, a + " " + b) == Split(sp, a) + Split(sp, b)
  {
    assert a + " " + b == a + (" " + b);
    SplitConcat(sp, a, " " + b);
    assert (" " + b)[1..] == b;
  }

  /** The words of two joined lists set side by side and trimmed are the words of both lists. */
  lemma SplitBoth(sp: Space, a: seq<string>, b: seq<string>)
    requires sp(' ') && AllWords(sp, a) && AllWords(sp, b)
    ensures Split(sp, Trim(sp, Join(a) + " " + Join(b))) == a + b
  {
    SplitTrim(sp, Join(a) + " " + Join(b));
    SplitAround(sp, Join(a), Join(b));
    SplitJoin(sp, a);
    SplitJoin(sp, b);
  }
}
