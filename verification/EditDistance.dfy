/** The bounded edit distance of zoeken-client/src/lib/didYouMean.ts: a one-row dynamic program
    with two early exits, and the suggestion picker built on it. Lower-casing and trimming are
    library calls and appear as functions. */
module EditDistance {
  import opened Wrappers

  function Abs(a: int): nat { if a < 0 then -a else a }

  // ----- what an edit distance is -----

  /** One column of an alignment of two strings. */
  datatype Edit = Keep | Replace(c: char) | Delete | Insert(c: char)

  /** `script` rewrites `x` into `y`; its last edit accounts for the last characters. */
  predicate Rewrites(script: seq<Edit>, x: string, y: string)
    decreases |script|
  {
    if script == [] then x == "" && y == ""
    else
      var n, i, j := |script| - 1, |x| - 1, |y| - 1;
      match script[n]
      case Keep => i >= 0 && j >= 0 && x[i] == y[j] && Rewrites(script[..n], x[..i], y[..j])
      case Replace(c) => i >= 0 && j >= 0 && y[j] == c && Rewrites(script[..n], x[..i], y[..j])
      case Delete => i >= 0 && Rewrites(script[..n], x[..i], y)
      case Insert(c) => j >= 0 && y[j] == c && Rewrites(script[..n], x, y[..j])
  }

  function Cost(script: seq<Edit>): nat {
    if script == [] then 0
    else Cost(script[..|script| - 1]) + (if script[|script| - 1].Keep? then 0 else 1)
  }

  /** The recursive Levenshtein distance with the full three-way minimum. */
  function Lev(x: string, y: string): (d: nat)
    ensures d <= |x| + |y|
    decreases |x| + |y|
  {
    if x == "" then |y|
    else if y == "" then |x|
    else
      var step := if x[|x| - 1] == y[|y| - 1] then 0 else 1;
      Min(Lev(x[..|x| - 1], y[..|y| - 1]) + step,
          1 + Min(Lev(x[..|x| - 1], y), Lev(x, y[..|y| - 1])))
  }

  /** A script of cost `Lev(x, y)`. */
  ghost function BestScript(x: string, y: string): (script: seq<Edit>)
    ensures Rewrites(script, x, y) && Cost(script) == Lev(x, y)
    decreases |x| + |y|
  {
    var m, n := |x| - 1, |y| - 1;
    if x == "" && y == "" then []
    else if y == "" || (x != "" && Lev(x, y) == 1 + Lev(x[..m], y)) then
      Then(BestScript(x[..m], y), Delete)
    else if x == "" || Lev(x, y) == 1 + Lev(x, y[..n]) then
      Then(BestScript(x, y[..n]), Insert(y[n]))
    else
      Then(BestScript(x[..m], y[..n]), if x[m] == y[n] then Keep else Replace(y[n]))
  }

  function Then(script: seq<Edit>, e: Edit): (r: seq<Edit>)
    ensures |r| == |script| + 1 && r[..|script|] == script && r[|script|] == e
  {
    script + [e]
  }

  /** No script is cheaper than the distance. */
  lemma {:induction false} NoCheaperScript(script: seq<Edit>, x: string, y: string)
    requires Rewrites(script, x, y)
    ensures Lev(x, y) <= Cost(script)
    decreases |script|
  {
    if script != [] {
      var n, i, j := |script| - 1, |x| - 1, |y| - 1;
      match script[n]
      case Keep => NoCheaperScript(script[..n], x[..i], y[..j]);
      case Replace(_) => NoCheaperScript(script[..n], x[..i], y[..j]);
      case Delete => NoCheaperScript(script[..n], x[..i], y);
      case Insert(_) => NoCheaperScript(script[..n], x, y[..j]);
    }
  }

  /** `Lev` is the least number of insertions, deletions and replacements. */
  lemma LevIsLeastCost(x: string, y: string, n: nat)
    ensures Lev(x, y) <= n <==> exists script :: Rewrites(script, x, y) && Cost(script) <= n
  {
    if Lev(x, y) <= n {
      var script := BestScript(x, y);
      assert Rewrites(script, x, y) && Cost(script) <= n;
    }
    forall script | Rewrites(script, x, y) ensures Lev(x, y) <= Cost(script) {
      NoCheaperScript(script, x, y);
    }
  }

  // ----- facts the fast loop relies on -----

  /** The distance of the first `i` and the first `j` characters. */
  function D(x: string, y: string, i: nat, j: nat): nat
    requires i <= |x| && j <= |y|
  {
    Lev(x[..i], y[..j])
  }

  lemma DStep(x: string, y: string, i: nat, j: nat)
    requires 0 < i <= |x| && 0 < j <= |y|
    ensures D(x, y, i, j) ==
            Min(D(x, y, i - 1, j - 1) + (if x[i - 1] == y[j - 1] then 0 else 1),
                1 + Min(D(x, y, i - 1, j), D(x, y, i, j - 1)))
  {
    var a, b := x[..i], y[..j];
    assert a[..i - 1] == x[..i - 1] && b[..j - 1] == y[..j - 1];
  }

  /** Neighbouring cells of the table differ by at most one. */
  lemma {:induction false} DNeighbours(x: string, y: string, i: nat, j: nat)
    requires i <= |x| && j <= |y|
    ensures i > 0 ==> Abs(D(x, y, i, j) - D(x, y, i - 1, j)) <= 1
    ensures j > 0 ==> Abs(D(x, y, i, j) - D(x, y, i, j - 1)) <= 1
    decreases i + j
  {
    if i > 0 && j > 0 {
      DNeighbours(x, y, i - 1, j);
      DNeighbours(x, y, i, j - 1);
      DNeighbours(x, y, i - 1, j - 1);
      DStep(x, y, i, j);
    }
  }

  /** On a match the diagonal alone is the three-way minimum; on a mismatch it is one more than
      the least neighbour. */
  lemma DMatch(x: string, y: string, i: nat, j: nat)
    requires 0 < i <= |x| && 0 < j <= |y|
    ensures D(x, y, i, j) ==
            if x[i - 1] == y[j - 1] then D(x, y, i - 1, j - 1)
            else 1 + Min(D(x, y, i - 1, j - 1), Min(D(x, y, i - 1, j), D(x, y, i, j - 1)))
  {
    DStep(x, y, i, j);
    DNeighbours(x, y, i - 1, j);
    DNeighbours(x, y, i, j - 1);
  }

  /** The length-gap exit is sound. */
  lemma {:induction false} LevAtLeastGap(x: string, y: string)
    ensures Lev(x, y) >= Abs(|x| - |y|)
    decreases |x| + |y|
  {
    if x != "" && y != "" {
      LevAtLeastGap(x[..|x| - 1], y[..|y| - 1]);
      LevAtLeastGap(x[..|x| - 1], y);
      LevAtLeastGap(x, y[..|y| - 1]);
    }
  }

  predicate RowAbove(x: string, y: string, i: nat, bound: int)
    requires i <= |x|
  {
    forall j :: 0 <= j <= |y| ==> D(x, y, i, j) > bound
  }

  /** Row minima never decrease. */
  lemma {:induction false} NextRowAbove(x: string, y: string, i: nat, bound: int, j: nat)
    requires i < |x| && j <= |y| && RowAbove(x, y, i, bound)
    ensures D(x, y, i + 1, j) > bound
  {
    if j > 0 {
      NextRowAbove(x, y, i, bound, j - 1);
      DStep(x, y, i + 1, j);
    } else {
      assert D(x, y, i, 0) == i && D(x, y, i + 1, 0) == i + 1;
    }
  }

  /** The row-minimum exit is sound: once a row is above the bound, so is the final distance. */
  lemma {:induction false} RowExit(x: string, y: string, i: nat, bound: int)
    requires i <= |x| && RowAbove(x, y, i, bound)
    ensures Lev(x, y) > bound
    decreases |x| - i
  {
    if i == |x| {
      assert x[..i] == x && y[..|y|] == y;
      assert D(x, y, i, |y|) > bound;
    } else {
      var next := i + 1;
      forall j | 0 <= j <= |y| ensures D(x, y, next, j) > bound { NextRowAbove(x, y, i, bound, j); }
      RowExit(x, y, next, bound);
    }
  }

  lemma {:induction false} LevSelf(x: string)
    ensures Lev(x, x) == 0
  {
    if x != "" { LevSelf(x[..|x| - 1]); }
  }

  // ----- the fast loop -----

  /** Exact up to the bound; above it exact too, or the bound and one. */
  predicate BoundedDistance(x: string, y: string, max: int, r: int) {
    && (r <= max <==> Lev(x, y) <= max)
    && (r == Lev(x, y) || r == max + 1)
  }

  method FillRow(x: string, y: string, i: nat, prev: array<int>) returns (rowMin: int)
    requires 0 < i <= |x| && prev.Length == |y| + 1
    requires forall j :: 0 <= j <= |y| ==> prev[j] == D(x, y, i - 1, j)
    modifies prev
    ensures forall j :: 0 <= j <= |y| ==> prev[j] == D(x, y, i, j) && rowMin <= prev[j]
    ensures exists j :: 0 <= j <= |y| && prev[j] == rowMin
  {
    var diag := prev[0];
    prev[0] := i;
    rowMin := i;
    ghost var at := 0;
    assert D(x, y, i, 0) == i;
    for j := 1 to |y| + 1
      invariant diag == D(x, y, i - 1, j - 1)
      invariant forall k :: j <= k <= |y| ==> prev[k] == D(x, y, i - 1, k)
      invariant forall k :: 0 <= k < j ==> prev[k] == D(x, y, i, k) && rowMin <= prev[k]
      invariant 0 <= at < j && prev[at] == rowMin
    {
      DMatch(x, y, i, j);
      var next := if x[i - 1] == y[j - 1] then diag else 1 + Min(diag, Min(prev[j], prev[j - 1]));
      diag := prev[j];
      prev[j] := next;
      if next < rowMin { at := j; }
      rowMin := Min(rowMin, next);
    }
  }

  method BoundedEditDistance(a: string, b: string, max: int, lower: string -> string) returns (r: int)
    ensures BoundedDistance(lower(a), lower(b), max, r)
  {
    var x, y := lower(a), lower(b);
    LevSelf(x);
    if x == y { return 0; }
    LevAtLeastGap(x, y);
    if Abs(|x| - |y|) > max { return max + 1; }
    var prev := new int[|y| + 1](i => i);
    for i := 1 to |x| + 1
      invariant forall j :: 0 <= j <= |y| ==> prev[j] == D(x, y, i - 1, j)
    {
      var rowMin := FillRow(x, y, i, prev);
      if rowMin > max {
        assert RowAbove(x, y, i, max);
        RowExit(x, y, i, max);
        return max + 1;
      }
    }
    assert x[..|x|] == x && y[..|y|] == y;
    return prev[|y|];
  }

  // ----- picking a suggestion -----

  /** A suggestion worth offering: not blank, not the query itself, at most two edits away. */
  predicate IsNear(q: string, raw: string, trim: string -> string, lower: string -> string) {
    var s := trim(raw);
    s != "" && lower(s) != lower(q) && Lev(lower(q), lower(s)) <= 2
  }

  method PickDidYouMean(query: string, suggestions: seq<string>, trim: string -> string, lower: string -> string)
    returns (r: Option<string>)
    ensures r.None? <==> trim(query) == "" ||
                         forall k :: 0 <= k < |suggestions| ==> !IsNear(trim(query), suggestions[k], trim, lower)
    ensures r.Some? ==> exists k :: 0 <= k < |suggestions| && r.value == trim(suggestions[k]) &&
                                    IsNear(trim(query), suggestions[k], trim, lower) &&
                                    forall j :: 0 <= j < k ==> !IsNear(trim(query), suggestions[j], trim, lower)
  {
    var q := trim(query);
    if q == "" || |suggestions| == 0 { return None; }
    var folded := lower(q);
    for k := 0 to |suggestions|
      invariant forall j :: 0 <= j < k ==> !IsNear(q, suggestions[j], trim, lower)
    {
      var s := trim(suggestions[k]);
      if s == "" || lower(s) == folded { continue; }
      var d := BoundedEditDistance(q, s, 2, lower);
      if d <= 2 { return Some(s); }
    }
    return None;
  }
}
