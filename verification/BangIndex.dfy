/** The bang index of zoeken/zoeken-data/src/lib.rs: a mutable prefix trie and a precompiled map
    with a sorted token list, which must answer alike. A trie owns its nodes, so a node is a value
    and an insertion replaces the root. `trim` followed by `to_ascii_lowercase` is a parameter. */
module BangIndex {
  import opened Ordering
  import opened Wrappers

  datatype Entry = Entry(url: string, rank: int)

  datatype Node = Node(children: map<char, Node>, entry: Option<Entry>)

  datatype Match = Match(token: string, entry: Entry)

  const LEAF := Node(map[], None)

  // ----- the trie as a map -----

  function Find(node: Node, token: string): Option<Entry>
    decreases |token|
  {
    if token == "" then node.entry
    else if token[0] in node.children then Find(node.children[token[0]], token[1..])
    else None
  }

  function InsertAt(node: Node, token: string, entry: Entry): Node
    decreases |token|
  {
    if token == "" then node.(entry := Some(entry))
    else
      var c := token[0];
      var child := if c in node.children then node.children[c] else LEAF;
      node.(children := node.children[c := InsertAt(child, token[1..], entry)])
  }

  /** Insertion changes the answer for its own token and for no other. */
  lemma {:induction false} FindAfterInsert(node: Node, token: string, entry: Entry, other: string)
    ensures Find(InsertAt(node, token, entry), other) == if other == token then Some(entry) else Find(node, other)
    decreases |token|
  {
    if token != "" && other != "" && other[0] == token[0] {
      var child := if token[0] in node.children then node.children[token[0]] else LEAF;
      FindAfterInsert(child, token[1..], entry, other[1..]);
      assert token == [token[0]] + token[1..] && other == [other[0]] + other[1..];
      if token[0] !in node.children { FindInLeaf(other[1..]); }
    }
  }

  lemma FindInLeaf(token: string)
    ensures Find(LEAF, token) == None
  {
  }

  ghost predicate Represents(node: Node, m: map<string, Entry>) {
    forall t :: Find(node, t) == if t in m then Some(m[t]) else None
  }

  // ----- matching and ranking -----

  predicate Contains(t: string, q: string) {
    exists i :: 0 <= i <= |t| && StartsWith(t[i..], q)
  }

  predicate Matches(t: string, q: string) { StartsWith(t, q) || Contains(t, q) }

  function Score(t: string, q: string): nat {
    if t == q then 2 else if StartsWith(t, q) then 1 else 0
  }

  /** Exact before prefix before substring, then rank down, then token up. */
  predicate MatchBefore(q: string, a: Match, b: Match) {
    var x, y := Score(a.token, q), Score(b.token, q);
    if x != y then x > y
    else if a.entry.rank != b.entry.rank then a.entry.rank > b.entry.rank
    else TextLess(a.token, b.token)
  }

  lemma MatchOrder(q: string)
    ensures WeakOrder((a, b) => MatchBefore(q, a, b))
  {
    var less := (a, b) => MatchBefore(q, a, b);
    forall a, b | less(a, b) ensures !less(b, a) { TextTotal(a.token, b.token); }
    forall a, b, c | !less(a, b) && !less(b, c) ensures !less(a, c) {
      TextTotal(a.token, b.token);
      TextTotal(b.token, c.token);
      TextTotal(a.token, c.token);
      if TextLess(b.token, a.token) && TextLess(c.token, b.token) { TextTransitive(c.token, b.token, a.token); }
    }
  }

  function Take(s: seq<Match>, limit: nat): seq<Match> {
    if |s| <= limit then s else s[..limit]
  }

  function RankMatches(q: string, matches: seq<Match>, limit: nat): seq<Match> {
    Take(SortBy((a, b) => MatchBefore(q, a, b), matches), limit)
  }

  /** `matches` lists each matching token of `m` exactly once. */
  ghost predicate AllMatches(m: map<string, Entry>, q: string, matches: seq<Match>) {
    && Distinct(matches)
    && forall x: Match :: x in matches <==> x.token in m && m[x.token] == x.entry && Matches(x.token, q)
  }

  /** `a` ranks above `b`: the exact match above all others, tokens that begin with the query above
      those that only contain it, and among tokens of one kind the higher rank first and then the
      lower token. */
  predicate Above(q: string, a: Match, b: Match) {
    if a.token == q || b.token == q then a.token == q && b.token != q
    else if StartsWith(a.token, q) != StartsWith(b.token, q) then StartsWith(a.token, q)
    else a.entry.rank > b.entry.rank || (a.entry.rank == b.entry.rank && TextLess(a.token, b.token))
  }

  /** The query stands somewhere in the token. */
  ghost predicate OccursIn(q: string, t: string) { exists before, after :: t == before + q + after }

  lemma MatchesIff(t: string, q: string)
    ensures Matches(t, q) <==> OccursIn(q, t)
  {
    if i :| 0 <= i <= |t| && StartsWith(t[i..], q) { OccursAt(t, q, i); }
    if StartsWith(t, q) { assert t[0..] == t; OccursAt(t, q, 0); }
    if before, after :| t == before + q + after { assert StartsWith(t[|before|..], q); }
  }

  lemma OccursAt(t: string, q: string, i: nat)
    requires i <= |t| && StartsWith(t[i..], q)
    ensures OccursIn(q, t)
  {
    assert t == t[..i] + q + t[i..][|q|..];
  }

  ghost predicate IsMatch(m: map<string, Entry>, q: string, x: Match) {
    x.token in m && m[x.token] == x.entry && OccursIn(q, x.token)
  }

  /** What a suggestion list is: matching tokens of the map, each above all that follow and above all
      that were left out, as many as there are or the limit allows. */
  ghost predicate IsSuggestionList(m: map<string, Entry>, q: string, limit: nat, r: seq<Match>) {
    if limit == 0 || q == "" then r == []
    else
      && (forall x :: x in r ==> IsMatch(m, q, x))
      && (forall i, j :: 0 <= i < j < |r| ==> Above(q, r[i], r[j]))
      && (forall x, y :: x in r && IsMatch(m, q, y) && y !in r ==> Above(q, x, y))
      && |r| == Min(limit, |set t | t in m && OccursIn(q, t)|)
  }

  lemma AboveIffBefore(m: map<string, Entry>, q: string, a: Match, b: Match)
    requires IsMatch(m, q, a) && IsMatch(m, q, b)
    ensures Above(q, a, b) <==> MatchBefore(q, a, b)
    ensures a != b ==> Above(q, a, b) || Above(q, b, a)
    ensures !(Above(q, a, b) && Above(q, b, a))
  {
    TextTotal(a.token, b.token);
  }

  lemma {:induction false} MatchCount(m: map<string, Entry>, q: string, matches: seq<Match>)
    requires AllMatches(m, q, matches)
    ensures |matches| == |set t | t in m && OccursIn(q, t)|
    ensures forall x :: x in matches <==> IsMatch(m, q, x)
  {
    forall t ensures Matches(t, q) <==> OccursIn(q, t) { MatchesIff(t, q); }
    var tokens := seq(|matches|, i requires 0 <= i < |matches| => matches[i].token);
    var all := set t | t in m && OccursIn(q, t);
    forall i, j | 0 <= i < j < |tokens| ensures tokens[i] != tokens[j] {
      assert matches[i] in matches && matches[j] in matches;
    }
    forall t ensures t in tokens <==> t in all {
      if t in tokens {
        var i :| 0 <= i < |tokens| && tokens[i] == t;
        assert matches[i] in matches;
      }
      if t in all {
        assert Match(t, m[t]) in matches;
        var i :| 0 <= i < |matches| && matches[i] == Match(t, m[t]);
        assert tokens[i] == t;
      }
    }
    DistinctSize(tokens);
    assert (set t | t in tokens) == all;
  }

  /** Ranking and cutting off all matches makes the suggestion list. */
  lemma RankedIsList(m: map<string, Entry>, q: string, limit: nat, matches: seq<Match>)
    requires limit != 0 && q != "" && AllMatches(m, q, matches)
    ensures IsSuggestionList(m, q, limit, RankMatches(q, matches, limit))
  {
    var less := (a, b) => MatchBefore(q, a, b);
    var sorted := SortBy(less, matches);
    MatchOrder(q);
    SortBySorts(less, matches);
    DistinctArrangement(matches, sorted);
    MatchCount(m, q, matches);
    forall x ensures x in sorted <==> IsMatch(m, q, x) { assert x in multiset(sorted) <==> x in multiset(matches); }
    forall i, j | 0 <= i < j < |sorted| ensures Above(q, sorted[i], sorted[j]) {
      assert sorted[i] in sorted && sorted[j] in sorted;
      AboveIffBefore(m, q, sorted[i], sorted[j]);
      AboveIffBefore(m, q, sorted[j], sorted[i]);
    }
    CutList(m, q, limit, sorted);
  }

  /** The front of a complete ranked list is above the rest of it. */
  lemma CutList(m: map<string, Entry>, q: string, limit: nat, sorted: seq<Match>)
    requires forall x :: x in sorted <==> IsMatch(m, q, x)
    requires forall i, j :: 0 <= i < j < |sorted| ==> Above(q, sorted[i], sorted[j])
    ensures var r := Take(sorted, limit);
            && (forall x :: x in r ==> IsMatch(m, q, x))
            && (forall x, y :: x in r && IsMatch(m, q, y) && y !in r ==> Above(q, x, y))
            && |r| == Min(limit, |sorted|)
  {
    var r := Take(sorted, limit);
    assert forall k :: 0 <= k < |r| ==> sorted[k] == r[k] && r[k] in r;
    forall x, y | x in r && IsMatch(m, q, y) && y !in r ensures Above(q, x, y) {
      var i :| 0 <= i < |r| && r[i] == x;
      var j :| 0 <= j < |sorted| && sorted[j] == y;
    }
  }

  /** A token map, a query and a limit have exactly one suggestion list. */
  lemma SuggestionListUnique(m: map<string, Entry>, q: string, limit: nat, r: seq<Match>, r': seq<Match>)
    requires IsSuggestionList(m, q, limit, r) && IsSuggestionList(m, q, limit, r')
    ensures r == r'
  {
    if limit != 0 && q != "" {
      SameSuggestions(m, q, limit, r, r');
      SameSuggestions(m, q, limit, r', r);
      ListDistinct(m, q, limit, r);
      ListDistinct(m, q, limit, r');
      DistinctSameMembers(r, r');
      var less := (a, b) => MatchBefore(q, a, b);
      ListSorted(m, q, limit, r);
      ListSorted(m, q, limit, r');
      SortedUnique(less, r, r');
    }
  }

  lemma ListDistinct(m: map<string, Entry>, q: string, limit: nat, r: seq<Match>)
    requires limit != 0 && q != "" && IsSuggestionList(m, q, limit, r)
    ensures Distinct(r)
  {
    forall i, j | 0 <= i < j < |r| ensures r[i] != r[j] {
      assert r[i] in r && r[j] in r;
      AboveIffBefore(m, q, r[i], r[j]);
    }
  }

  lemma ListSorted(m: map<string, Entry>, q: string, limit: nat, r: seq<Match>)
    requires limit != 0 && q != "" && IsSuggestionList(m, q, limit, r)
    ensures Sorted((a, b) => MatchBefore(q, a, b), r) && Separates((a, b) => MatchBefore(q, a, b), r)
  {
    forall i, j | 0 <= i < |r| && 0 <= j < |r|
      ensures (i < j ==> !MatchBefore(q, r[j], r[i]))
              && (r[i] != r[j] ==> MatchBefore(q, r[i], r[j]) || MatchBefore(q, r[j], r[i]))
    {
      assert r[i] in r && r[j] in r;
      AboveIffBefore(m, q, r[i], r[j]);
      AboveIffBefore(m, q, r[j], r[i]);
    }
  }

  /** Two lists of one size hold the same: what only one had would rank both above and below what only
      the other had. */
  lemma SameSuggestions(m: map<string, Entry>, q: string, limit: nat, r: seq<Match>, r': seq<Match>)
    requires limit != 0 && q != "" && IsSuggestionList(m, q, limit, r) && IsSuggestionList(m, q, limit, r')
    ensures forall x :: x in r ==> x in r'
  {
    forall x | x in r ensures x in r' {
      if x !in r' {
        ListDistinct(m, q, limit, r);
        ListDistinct(m, q, limit, r');
        var y := MissingMember(r, r', x);
        AboveIffBefore(m, q, x, y);
      }
    }
  }

  lemma MissingMember(r: seq<Match>, r': seq<Match>, x: Match) returns (y: Match)
    requires Distinct(r) && Distinct(r') && |r| == |r'| && x in r && x !in r'
    ensures y in r' && y !in r
  {
    var a, b := (set z | z in r), (set z | z in r');
    DistinctSize(r);
    DistinctSize(r');
    if b <= a {
      SubsetSize(b, a - {x});
      assert false;
    }
    y :| y in b && y !in a;
  }

  lemma {:induction false} SubsetSize<T>(a: set<T>, b: set<T>)
    requires a <= b
    ensures |a| <= |b|
  {
    if a != {} {
      var x :| x in a;
      SubsetSize(a - {x}, b - {x});
    }
  }

  // ----- the sorted token list -----

  /** Strictly ascending, as the keys of an ordered map are listed. */
  ghost predicate Ascending(tokens: seq<string>) {
    forall i, j :: 0 <= i < j < |tokens| ==> TextLess(tokens[i], tokens[j])
  }

  ghost predicate TokensOf(tokens: seq<string>, m: map<string, Entry>) {
    Ascending(tokens) && forall t :: t in tokens <==> t in m
  }

  /** A token with the prefix is not below it. */
  lemma {:induction false} PrefixNotLess(t: string, q: string)
    requires StartsWith(t, q)
    ensures !TextLess(t, q)
  {
    if q != "" {
      assert t[1..][..|q| - 1] == q[1..];
      PrefixNotLess(t[1..], q[1..]);
    }
  }

  /** Tokens with a common prefix are contiguous: nothing between the prefix and a token that has
      it lacks it. */
  lemma {:induction false} PrefixContiguous(q: string, t: string, u: string)
    requires !TextLess(t, q) && TextLess(t, u) && StartsWith(u, q)
    ensures StartsWith(t, q)
  {
    if q != "" {
      assert t != "" && t[0] == q[0] == u[0];
      assert u[1..][..|q| - 1] == q[1..];
      PrefixContiguous(q[1..], t[1..], u[1..]);
      assert t[..|q|] == [t[0]] + t[1..][..|q| - 1] == q;
    }
  }

  lemma {:induction false} NotLessTransitive(q: string, t: string, u: string)
    requires !TextLess(t, q) && TextLess(t, u)
    ensures !TextLess(u, q)
  {
    TextTotal(q, t);
    TextTotal(u, q);
    if TextLess(u, q) {
      if q == t { TextTotal(t, u); } else { TextTransitive(t, u, q); TextTotal(t, q); }
    }
  }

  /** Binary search for the first token that is not below `q`. */
  method PartitionPoint(tokens: seq<string>, q: string) returns (start: nat)
    requires Ascending(tokens)
    ensures start <= |tokens|
    ensures forall i :: 0 <= i < start ==> TextLess(tokens[i], q)
    ensures forall i :: start <= i < |tokens| ==> !TextLess(tokens[i], q)
  {
    var lo, hi := 0, |tokens|;
    while lo < hi
      invariant 0 <= lo <= hi <= |tokens|
      invariant forall i :: 0 <= i < lo ==> TextLess(tokens[i], q)
      invariant forall i :: hi <= i < |tokens| ==> !TextLess(tokens[i], q)
    {
      var mid := (lo + hi) / 2;
      if TextLess(tokens[mid], q) {
        forall i | 0 <= i < mid ensures TextLess(tokens[i], q) { TextTransitive(tokens[i], tokens[mid], q); }
        lo := mid + 1;
      } else {
        forall i | mid < i < |tokens| ensures !TextLess(tokens[i], q) { NotLessTransitive(q, tokens[mid], tokens[i]); }
        hi := mid;
      }
    }
    start := lo;
  }

  /** Matches among the first `n` tokens that satisfy `p`. */
  ghost predicate Collected(m: map<string, Entry>, tokens: seq<string>, n: nat, p: string -> bool, out: seq<Match>)
    requires n <= |tokens|
  {
    && Distinct(out)
    && forall x: Match :: x in out <==> x.token in m && m[x.token] == x.entry && p(x.token) && x.token in tokens[..n]
  }

  lemma CollectNext(m: map<string, Entry>, tokens: seq<string>, n: nat, p: string -> bool, out: seq<Match>)
    requires n < |tokens| && TokensOf(tokens, m) && Collected(m, tokens, n, p, out)
    ensures tokens[n] in m
    ensures Collected(m, tokens, n + 1, p, if p(tokens[n]) then out + [Match(tokens[n], m[tokens[n]])] else out)
  {
    var t := tokens[n];
    assert t in tokens;
    assert tokens[..n + 1] == tokens[..n] + [t];
    forall i | 0 <= i < n ensures tokens[i] != t { TextTotal(t, t); }
    assert t !in tokens[..n];
  }

  /** Prefix hits by binary search, stopping at the first token without the prefix. */
  method PrefixHits(m: map<string, Entry>, tokens: seq<string>, q: string) returns (out: seq<Match>)
    requires TokensOf(tokens, m)
    ensures Collected(m, tokens, |tokens|, t => StartsWith(t, q), out)
  {
    ghost var p := t => StartsWith(t, q);
    var start := PartitionPoint(tokens, q);
    out := [];
    forall i | 0 <= i < start ensures !p(tokens[i]) {
      if StartsWith(tokens[i], q) { PrefixNotLess(tokens[i], q); }
    }
    NothingCollected(m, tokens, start, p);
    var k := start;
    while k < |tokens|
      invariant start <= k <= |tokens|
      invariant Collected(m, tokens, k, p, out)
    {
      CollectNext(m, tokens, k, p, out);
      if !StartsWith(tokens[k], q) {
        forall i | k <= i < |tokens| ensures !p(tokens[i]) {
          if i > k && StartsWith(tokens[i], q) { PrefixContiguous(q, tokens[k], tokens[i]); }
        }
        NothingMore(m, tokens, k, p, out);
        break;
      }
      out := out + [Match(tokens[k], m[tokens[k]])];
      k := k + 1;
    }
  }

  lemma NothingCollected(m: map<string, Entry>, tokens: seq<string>, n: nat, p: string -> bool)
    requires n <= |tokens| && forall i :: 0 <= i < n ==> !p(tokens[i])
    ensures Collected(m, tokens, n, p, [])
  {
  }

  lemma NothingMore(m: map<string, Entry>, tokens: seq<string>, n: nat, p: string -> bool, out: seq<Match>)
    requires n <= |tokens| && Collected(m, tokens, n, p, out)
    requires forall i :: n <= i < |tokens| ==> !p(tokens[i])
    ensures Collected(m, tokens, |tokens|, p, out)
  {
    forall t | t in tokens && p(t) ensures t in tokens[..n] {
      var i :| 0 <= i < |tokens| && tokens[i] == t;
      assert tokens[..n][i] == t;
    }
    assert tokens[..|tokens|] == tokens;
  }

  /** Substring hits that are not prefix hits, by a scan of all tokens. */
  method SubstringHits(m: map<string, Entry>, tokens: seq<string>, q: string) returns (out: seq<Match>)
    requires TokensOf(tokens, m)
    ensures Collected(m, tokens, |tokens|, t => !StartsWith(t, q) && Contains(t, q), out)
  {
    ghost var p := t => !StartsWith(t, q) && Contains(t, q);
    out := [];
    for k := 0 to |tokens|
      invariant Collected(m, tokens, k, p, out)
    {
      CollectNext(m, tokens, k, p, out);
      if StartsWith(tokens[k], q) { continue; }
      if Contains(tokens[k], q) { out := out + [Match(tokens[k], m[tokens[k]])]; }
    }
  }

  lemma JoinHits(m: map<string, Entry>, tokens: seq<string>, q: string, a: seq<Match>, b: seq<Match>)
    requires TokensOf(tokens, m)
    requires Collected(m, tokens, |tokens|, t => StartsWith(t, q), a)
    requires Collected(m, tokens, |tokens|, t => !StartsWith(t, q) && Contains(t, q), b)
    ensures AllMatches(m, q, a + b)
  {
    assert tokens[..|tokens|] == tokens;
    forall i, j | 0 <= i < j < |a + b| ensures (a + b)[i] != (a + b)[j] {
      if i < |a| && |a| <= j { assert a[i] in a && b[j - |a|] in b; }
    }
  }

  // ----- the trie walk -----

  /** Matches below `node`, whose own token is `prefix`. */
  ghost predicate Below(node: Node, prefix: string, q: string, out: seq<Match>) {
    && Distinct(out)
    && forall x: Match :: x in out <==>
                            prefix <= x.token && Find(node, x.token[|prefix|..]) == Some(x.entry) && Matches(x.token, q)
  }

  /** Matches below the children in `done`, and at the node itself. */
  ghost predicate PartlyBelow(node: Node, prefix: string, q: string, done: set<char>, out: seq<Match>) {
    && Distinct(out)
    && forall x: Match :: x in out <==>
                            && prefix <= x.token && Find(node, x.token[|prefix|..]) == Some(x.entry)
                            && Matches(x.token, q)
                            && (|x.token| == |prefix| || x.token[|prefix|] in done)
  }

  lemma ChildMatches(node: Node, prefix: string, q: string, done: set<char>, out: seq<Match>, c: char, hits: seq<Match>)
    requires PartlyBelow(node, prefix, q, done, out) && c in node.children && c !in done
    requires Below(node.children[c], prefix + [c], q, hits)
    ensures PartlyBelow(node, prefix, q, done + {c}, out + hits)
  {
    var p := prefix + [c];
    forall x: Match | p <= x.token
      ensures Find(node, x.token[|prefix|..]) == Find(node.children[c], x.token[|p|..])
    {
      var s := x.token[|prefix|..];
      assert s[0] == x.token[|prefix|] == c && s[1..] == x.token[|p|..];
    }
    forall x: Match ensures x in hits <==>
                              && prefix <= x.token && Find(node, x.token[|prefix|..]) == Some(x.entry)
                              && Matches(x.token, q)
                              && |x.token| > |prefix| && x.token[|prefix|] == c
    {
      if prefix <= x.token && |x.token| > |prefix| && x.token[|prefix|] == c { assert p <= x.token; }
      if p <= x.token { assert x.token[|prefix|] == p[|prefix|] == c && x.token[..|prefix|] == p[..|prefix|]; }
    }
    forall i, j | 0 <= i < j < |out + hits| ensures (out + hits)[i] != (out + hits)[j] {
      if i < |out| && |out| <= j { assert out[i] in out && hits[j - |out|] in hits; }
    }
  }

  lemma AllChildrenDone(node: Node, prefix: string, q: string, out: seq<Match>)
    requires PartlyBelow(node, prefix, q, node.children.Keys, out)
    ensures Below(node, prefix, q, out)
  {
  }

  method CollectBangMatches(node: Node, prefix: string, q: string) returns (out: seq<Match>)
    ensures Below(node, prefix, q, out)
    decreases node
  {
    out := [];
    if node.entry.Some? && Matches(prefix, q) { out := [Match(prefix, node.entry.value)]; }
    var remaining := node.children.Keys;
    OwnMatch(node, prefix, q, out);
    while remaining != {}
      invariant remaining <= node.children.Keys
      invariant PartlyBelow(node, prefix, q, node.children.Keys - remaining, out)
      decreases |remaining|
    {
      var c :| c in remaining;
      var hits := CollectBangMatches(node.children[c], prefix + [c], q);
      ChildMatches(node, prefix, q, node.children.Keys - remaining, out, c, hits);
      assert node.children.Keys - (remaining - {c}) == (node.children.Keys - remaining) + {c};
      out, remaining := out + hits, remaining - {c};
    }
    AllChildrenDone(node, prefix, q, out);
  }

  lemma OwnMatch(node: Node, prefix: string, q: string, out: seq<Match>)
    requires out == if node.entry.Some? && Matches(prefix, q) then [Match(prefix, node.entry.value)] else []
    ensures PartlyBelow(node, prefix, q, {}, out)
  {
    assert prefix[|prefix|..] == "";
    forall x: Match | prefix <= x.token && |x.token| == |prefix| ensures x.token == prefix { }
  }

  lemma BelowRoot(root: Node, m: map<string, Entry>, q: string, out: seq<Match>)
    requires Represents(root, m) && Below(root, "", q, out)
    ensures AllMatches(m, q, out)
  {
    forall x: Match ensures x in out <==> x.token in m && m[x.token] == x.entry && Matches(x.token, q) {
      assert x.token[0..] == x.token;
    }
  }

  // ----- the index -----

  class BangTrie {
    var root: Node
    var len: nat
    const staticMap: Option<map<string, Entry>>
    const staticTokens: seq<string>
    /** The tokens inserted so far. */
    ghost var inserted: map<string, Entry>

    constructor New()
      ensures Valid() && staticMap.None? && inserted == map[]
    {
      root, len, staticMap, staticTokens, inserted := LEAF, 0, None, [], map[];
    }

    /** A precompiled index over a map and the ascending list of its tokens. */
    constructor FromStatic(m: map<string, Entry>, tokens: seq<string>)
      requires TokensOf(tokens, m)
      ensures Valid() && staticMap == Some(m) && inserted == map[]
    {
      root, len, staticMap, staticTokens, inserted := LEAF, |m|, Some(m), tokens, map[];
    }

    /** The token map the index stands for. */
    ghost function Contents(): map<string, Entry>
      reads this`inserted
    {
      if staticMap.Some? then staticMap.value else inserted
    }

    ghost predicate Valid()
      reads this`root, this`len, this`inserted
    {
      && Represents(root, inserted)
      && len == |inserted| + (if staticMap.Some? then |staticMap.value| else 0)
      && (staticMap.Some? ==> TokensOf(staticTokens, staticMap.value))
    }

    /** An insertion into a precompiled index is counted but never found. */
    method Insert(token: string, entry: Entry)
      requires Valid()
      modifies this
      ensures Valid() && inserted == old(inserted)[token := entry]
      ensures Contents() == if staticMap.Some? then old(Contents()) else old(Contents())[token := entry]
    {
      forall t ensures Find(InsertAt(root, token, entry), t) == if t == token then Some(entry) else Find(root, t) {
        FindAfterInsert(root, token, entry, t);
      }
      if Find(root, token).None? { len := len + 1; }
      root := InsertAt(root, token, entry);
      inserted := inserted[token := entry];
    }

    method Resolve(token: string) returns (r: Option<Entry>)
      requires Valid()
      ensures r == if token in Contents() then Some(Contents()[token]) else None
    {
      if staticMap.Some? {
        return if token in staticMap.value then Some(staticMap.value[token]) else None;
      }
      var node := root;
      assert token[0..] == token;
      for i := 0 to |token|
        invariant Find(node, token[i..]) == Find(root, token)
      {
        if token[i] !in node.children { return None; }
        assert token[i..][0] == token[i] && token[i..][1..] == token[i + 1..];
        node := node.children[token[i]];
      }
      return node.entry;
    }

    /** The number of distinct tokens, if nothing was inserted into a precompiled index. */
    function Len(): (n: nat)
      requires Valid()
      reads this`root, this`len, this`inserted
      ensures n == |Contents()| + if staticMap.Some? then |inserted| else 0
    {
      len
    }

    method Suggest(query: string, limit: nat, fold: string -> string) returns (r: seq<Match>)
      requires Valid()
      ensures IsSuggestionList(Contents(), fold(query), limit, r)
    {
      if limit == 0 { return []; }
      var q := fold(query);
      if q == "" { return []; }
      var matches;
      if staticMap.Some? {
        var prefixHits := PrefixHits(staticMap.value, staticTokens, q);
        var substringHits := SubstringHits(staticMap.value, staticTokens, q);
        JoinHits(staticMap.value, staticTokens, q, prefixHits, substringHits);
        matches := prefixHits + substringHits;
      } else {
        matches := CollectBangMatches(root, "", q);
        BelowRoot(root, inserted, q, matches);
      }
      r := RankMatches(q, matches, limit);
      RankedIsList(Contents(), q, limit, matches);
    }
  }
}
