/** The order in which zoeken/zoeken-search/src/aggregation.rs returns its results: score down,
    engine count down, best position up, URL up. */
module FinalOrder {
  import opened Ordering
  import opened Wrappers
  import opened Aggregation
  import opened Scoring

  /** What the comparison looks at. */
  datatype Rank = Rank(score: real, count: nat, best: nat, url: string)

  const USIZE_MAX: nat := 0xFFFF_FFFF_FFFF_FFFF

  predicate RankLess(a: Rank, b: Rank) {
    if a.score != b.score then a.score > b.score
    else if a.count != b.count then a.count > b.count
    else if a.best != b.best then a.best < b.best
    else TextLess(a.url, b.url)
  }

  function MinPosition(positions: seq<nat>): nat {
    if positions == [] then USIZE_MAX
    else if |positions| == 1 then positions[0]
    else Min(positions[0], MinPosition(positions[1..]))
  }

  function EngineCount(r: Result): nat {
    match r
    case Bare(_) => 0
    case Page(main, _, _, _, _, _, engine, engines, _, _) =>
      if main && engines != [] then |engines| else if engine != "" then 1 else 0
  }

  function RankOf(r: Result): Rank {
    if r.Page? then Rank(r.score, EngineCount(r), MinPosition(r.positions), r.url)
    else Rank(0.0, 0, USIZE_MAX, "")
  }

  predicate Before(a: Result, b: Result) { RankLess(RankOf(a), RankOf(b)) }

  function SetScore(r: Result, score: real): Result {
    if r.Page? then r.(score := score) else r
  }

  function ScoredEntry(h: Heuristics, m: Merged, w: Weights, query: string): Result {
    SetScore(m.result, ScoreOf(h, m, w, query))
  }

  function Scored(h: Heuristics, t: Table, w: Weights, query: string): seq<Result> {
    seq(|t.merged|, i requires 0 <= i < |t.merged| => ScoredEntry(h, t.merged[i], w, query))
  }

  function FinalResults(h: Heuristics, t: Table, w: Weights, query: string): seq<Result> {
    SortBy(Before, Scored(h, t, w, query))
  }

  lemma RankTotal(a: Rank, b: Rank)
    ensures a == b || RankLess(a, b) || RankLess(b, a)
    ensures !(RankLess(a, b) && RankLess(b, a))
  {
    TextTotal(a.url, b.url);
  }

  lemma RankTransitive(a: Rank, b: Rank, c: Rank)
    requires RankLess(a, b) && RankLess(b, c)
    ensures RankLess(a, c)
  {
    if a.score == b.score == c.score && a.count == b.count == c.count && a.best == b.best == c.best {
      TextTransitive(a.url, b.url, c.url);
    }
  }

  lemma RankNotLess(a: Rank, b: Rank, c: Rank)
    requires !RankLess(a, b) && !RankLess(b, c)
    ensures !RankLess(a, c)
  {
    RankTotal(a, b);
    RankTotal(b, c);
    RankTotal(a, c);
    if a != b && b != c { RankTransitive(c, b, a); }
  }

  lemma RankOrder()
    ensures WeakOrder(RankLess)
  {
    forall a, b | RankLess(a, b) ensures !RankLess(b, a) { RankTotal(a, b); }
    forall a, b, c | !RankLess(a, b) && !RankLess(b, c) ensures !RankLess(a, c) { RankNotLess(a, b, c); }
  }

  lemma BeforeOrder()
    ensures WeakOrder(Before)
  {
    forall a, b | Before(a, b) ensures !Before(b, a) { RankTotal(RankOf(a), RankOf(b)); }
    forall a, b, c | !Before(a, b) && !Before(b, c) ensures !Before(a, c) {
      RankNotLess(RankOf(a), RankOf(b), RankOf(c));
    }
  }

  function ScoreIn(r: Result): real { if r.Page? then r.score else 0.0 }

  function PositionsIn(r: Result): seq<nat> { if r.Page? then r.positions else [] }

  function UrlIn(r: Result): string { if r.Page? then r.url else "" }

  /** `a` has as good a position as `b` anywhere; no position counts as `USIZE_MAX`. */
  predicate PlacedAsWell(a: seq<nat>, b: seq<nat>) {
    if b == [] then a == [] || exists i :: 0 <= i < |a| && a[i] <= USIZE_MAX
    else if a == [] then forall j :: 0 <= j < |b| ==> USIZE_MAX <= b[j]
    else forall j :: 0 <= j < |b| ==> exists i :: 0 <= i < |a| && a[i] <= b[j]
  }

  /** `a` may stand in front of `b`: the score does not rise, at one score the number of engines does
      not, at one number the best position does not get better, and at one position the URL does not
      go back. A result without a page has score and count zero, no position and no URL. */
  ghost predicate MayPrecede(a: Result, b: Result) {
    && ScoreIn(a) >= ScoreIn(b)
    && (ScoreIn(a) == ScoreIn(b) ==> EngineCount(a) >= EngineCount(b))
    && (ScoreIn(a) == ScoreIn(b) && EngineCount(a) == EngineCount(b) ==> PlacedAsWell(PositionsIn(a), PositionsIn(b)))
    && (ScoreIn(a) == ScoreIn(b) && EngineCount(a) == EngineCount(b) && PlacedAsWell(PositionsIn(b), PositionsIn(a)) ==>
          !TextLess(UrlIn(b), UrlIn(a)))
  }

  lemma PlacedIff(a: seq<nat>, b: seq<nat>)
    ensures PlacedAsWell(a, b) <==> MinPosition(a) <= MinPosition(b)
  {
    if a != [] { MinPositionIsLeast(a); }
    if b != [] { MinPositionIsLeast(b); }
  }

  lemma NotBeforeMeans(a: Result, b: Result)
    ensures !Before(b, a) <==> MayPrecede(a, b)
  {
    PlacedIff(PositionsIn(a), PositionsIn(b));
    PlacedIff(PositionsIn(b), PositionsIn(a));
  }

  /** Every result stands where the comparison allows it. */
  ghost predicate Ranked(s: seq<Result>) {
    forall i, j :: 0 <= i < j < |s| ==> MayPrecede(s[i], s[j])
  }

  /** The final list is the scored entries, each once, in ranking order; entries that tie in
      everything stay in the order in which their pages were first listed. */
  lemma FinishSorts(h: Heuristics, t: Table, w: Weights, query: string)
    ensures multiset(FinalResults(h, t, w, query)) == multiset(Scored(h, t, w, query))
    ensures Ranked(FinalResults(h, t, w, query))
    ensures forall r :: Ties(Before, r, FinalResults(h, t, w, query)) == Ties(Before, r, Scored(h, t, w, query))
  {
    BeforeOrder();
    SortBySorts(Before, Scored(h, t, w, query));
    var s := FinalResults(h, t, w, query);
    forall i, j | 0 <= i < j < |s| ensures MayPrecede(s[i], s[j]) { NotBeforeMeans(s[i], s[j]); }
    forall r ensures Ties(Before, r, s) == Ties(Before, r, Scored(h, t, w, query)) {
      SortByStable(Before, Scored(h, t, w, query), r);
    }
  }

  /** A result without a page stands in front of one with a page only if that one has a negative
      score, or none, with no engine and no position below the maximum. */
  lemma BareComesLast(h: Heuristics, t: Table, w: Weights, query: string, i: nat, j: nat)
    requires var s := FinalResults(h, t, w, query); i < j < |s| && s[i].Bare? && s[j].Page?
    ensures var r := FinalResults(h, t, w, query)[j];
            && r.score <= 0.0
            && (r.score == 0.0 ==>
                  EngineCount(r) == 0 && forall k :: 0 <= k < |r.positions| ==> r.positions[k] >= USIZE_MAX)
  {
    FinishSorts(h, t, w, query);
    var s := FinalResults(h, t, w, query);
    assert MayPrecede(s[i], s[j]);
  }

  // ----- ranks of entries -----

  function Ranks(s: seq<Result>): seq<Rank> {
    seq(|s|, i requires 0 <= i < |s| => RankOf(s[i]))
  }

  lemma {:induction false} InsertRanks(x: Result, s: seq<Result>)
    ensures Ranks(Insert(Before, x, s)) == Insert(RankLess, RankOf(x), Ranks(s))
  {
    if s != [] && Before(s[0], x) {
      InsertRanks(x, s[1..]);
      assert Ranks(s)[1..] == Ranks(s[1..]);
    }
  }

  /** Ranking the sorted list is sorting the ranks. */
  lemma {:induction false} SortRanks(s: seq<Result>)
    ensures Ranks(SortBy(Before, s)) == SortBy(RankLess, Ranks(s))
  {
    if s != [] {
      SortRanks(s[1..]);
      InsertRanks(s[0], SortBy(Before, s[1..]));
      assert Ranks(s)[1..] == Ranks(s[1..]);
    }
  }

  lemma {:induction false} MinPositionIsLeast(positions: seq<nat>)
    requires positions != []
    ensures exists i :: 0 <= i < |positions| && positions[i] == MinPosition(positions)
    ensures forall i :: 0 <= i < |positions| ==> MinPosition(positions) <= positions[i]
  {
    if |positions| > 1 {
      MinPositionIsLeast(positions[1..]);
      var i :| 0 <= i < |positions| - 1 && positions[1..][i] == MinPosition(positions[1..]);
      assert positions[i + 1] == MinPosition(positions[1..]);
      assert MinPosition(positions) == positions[0] || MinPosition(positions) == positions[i + 1];
    } else {
      assert positions[0] == MinPosition(positions);
    }
  }

  lemma BestNoWorse(h: Heuristics, a: seq<Listing>, b: seq<Listing>, key: string, m: Merged, n: Merged)
    requires SameListings(a, b) && EntryOk(h, a, key, m) && EntryOk(h, b, key, n)
    ensures MinPosition(n.result.positions) <= MinPosition(m.result.positions)
  {
    MinPositionIsLeast(m.result.positions);
    MinPositionIsLeast(n.result.positions);
    var i :| 0 <= i < |m.result.positions| && m.result.positions[i] == MinPosition(m.result.positions);
    var e := m.engines[i];
    assert e in m.engines;
    ListedTransfers(h, a, b, key, e);
    assert e in n.engines;
    var j :| 0 <= j < |n.engines| && n.engines[j] == e;
    BestTransfers(h, a, b, key, e, m.result.positions[i]);
    BestIsUnique(h, b, key, e, m.result.positions[i], n.result.positions[j]);
  }

  lemma EntryUrl(h: Heuristics, log: seq<Listing>, key: string, m: Merged) returns (i: nat)
    requires EntryOk(h, log, key, m)
    ensures i < |log| && Lists(h, log[i], key) && log[i].result.url == m.result.url
  {
    i :| 0 <= i < |log| && Lists(h, log[i], key) && SameIdentity(m.result, log[i].result);
  }
}
