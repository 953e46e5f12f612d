/** Scores and final order of the merged results in zoeken/zoeken-search/src/aggregation.rs, and
    what of them depends on the order in which engines are ingested. */
module Scoring {
  import opened Ordering
  import opened Wrappers
  import opened Aggregation

  type Weights = map<string, real>

  function WeightOf(w: Weights, engine: string): real {
    if engine in w then w[engine] else 1.0
  }

  /** What one engine adds to a score. */
  function Contribution(w: Weights, priority: string, engine: string, rank: nat): real {
    if priority == "high" then WeightOf(w, engine) else WeightOf(w, engine) / AtLeastOne(rank) as real
  }

  function AtLeastOne(n: nat): nat { if n < 1 then 1 else n }

  function SeqSum(s: seq<real>): real {
    if s == [] then 0.0 else SeqSum(s[..|s| - 1]) + s[|s| - 1]
  }

  function Contributions(w: Weights, priority: string, engines: seq<string>, positions: seq<nat>): seq<real> {
    seq(|positions|, i requires 0 <= i < |positions| =>
      Contribution(w, priority, if i < |engines| then engines[i] else "", positions[i]))
  }

  function RankScore(w: Weights, priority: string, engines: seq<string>, positions: seq<nat>): real {
    SeqSum(Contributions(w, priority, engines, positions))
  }

  function Relevance(h: Heuristics, query: string, r: Result): real
    requires r.Page?
  {
    h.relevance(query, r.title, r.content, r.url)
  }

  function ScoreOf(h: Heuristics, m: Merged, w: Weights, query: string): real {
    if !m.result.Page? || m.result.positions == [] || m.result.priority == "low" then 0.0
    else WithRelevance(h, query, m.result, RankScore(w, m.result.priority, m.engines, m.result.positions))
  }

  method ComputeScore(h: Heuristics, m: Merged, w: Weights, query: string) returns (score: real)
    ensures score == ScoreOf(h, m, w, query)
  {
    if !m.result.Page? || m.result.positions == [] { return 0.0; }
    if m.result.priority == "low" { return 0.0; }
    var rankScore := ComputeRankScore(w, m.result.priority, m.engines, m.result.positions);
    return rankScore * h.relevance(query, m.result.title, m.result.content, m.result.url);
  }

  /** The accumulating loop of `score_of`. */
  method ComputeRankScore(w: Weights, priority: string, engines: seq<string>, positions: seq<nat>)
    returns (rankScore: real)
    ensures rankScore == RankScore(w, priority, engines, positions)
  {
    rankScore := 0.0;
    ghost var added := Contributions(w, priority, engines, positions);
    for i := 0 to |positions|
      invariant rankScore == SeqSum(added[..i])
    {
      assert added[..i + 1][..i] == added[..i];
      var engine := if i < |engines| then engines[i] else "";
      if priority == "high" {
        rankScore := rankScore + WeightOf(w, engine);
      } else {
        rankScore := rankScore + WeightOf(w, engine) / AtLeastOne(positions[i]) as real;
      }
    }
    assert added[..|positions|] == added;
  }

  // ----- a score is a sum over a set of engines -----

  ghost function SetSum(s: set<string>, f: string -> real): real {
    if s == {} then 0.0 else var x :| x in s; f(x) + SetSum(s - {x}, f)
  }

  lemma {:induction false} SetSumPick(s: set<string>, f: string -> real, x: string)
    requires x in s
    ensures SetSum(s, f) == f(x) + SetSum(s - {x}, f)
  {
    var y :| y in s && SetSum(s, f) == f(y) + SetSum(s - {y}, f);
    if y != x {
      SetSumPick(s - {y}, f, x);
      SetSumPick(s - {x}, f, y);
      assert s - {y} - {x} == s - {x} - {y};
    }
  }

  lemma {:induction false} SetSumSame(s: set<string>, f: string -> real, g: string -> real)
    requires forall x :: x in s ==> f(x) == g(x)
    ensures SetSum(s, f) == SetSum(s, g)
  {
    if s != {} {
      var x :| x in s;
      SetSumPick(s, f, x);
      SetSumPick(s, g, x);
      SetSumSame(s - {x}, f, g);
    }
  }

  /** Smallest rank at which `engine` listed `key`; 0 when it never did. */
  ghost function BestRank(h: Heuristics, log: seq<Listing>, key: string, engine: string): nat {
    if log == [] then 0
    else
      var init, l := log[..|log| - 1], log[|log| - 1];
      if !(Lists(h, l, key) && l.engine == engine) then BestRank(h, init, key, engine)
      else if Listed(h, init, key, engine) then Min(BestRank(h, init, key, engine), l.rank)
      else l.rank
  }

  lemma {:induction false} BestRankIsBest(h: Heuristics, log: seq<Listing>, key: string, engine: string)
    requires Listed(h, log, key, engine)
    ensures IsBest(h, log, key, engine, BestRank(h, log, key, engine))
  {
    var init, l := log[..|log| - 1], log[|log| - 1];
    assert log == init + [l];
    ListedSnoc(h, init, l, key, engine);
    if Listed(h, init, key, engine) {
      BestRankIsBest(h, init, key, engine);
      BestSnoc(h, init, l, key, engine, BestRank(h, init, key, engine));
    } else {
      FirstBest(h, init, l, key);
    }
  }

  lemma BestIsUnique(h: Heuristics, log: seq<Listing>, key: string, engine: string, a: nat, b: nat)
    requires IsBest(h, log, key, engine, a) && IsBest(h, log, key, engine, b)
    ensures a == b
  {
  }

  ghost function EnginesListing(h: Heuristics, log: seq<Listing>, key: string): set<string> {
    set j | 0 <= j < |log| && Lists(h, log[j], key) :: log[j].engine
  }

  /** The score a page deserves, from the listings alone: each engine once, at its best rank. */
  ghost function KeyScore(h: Heuristics, log: seq<Listing>, w: Weights, priority: string, key: string): real {
    if priority == "low" then 0.0
    else SetSum(EnginesListing(h, log, key), e => Contribution(w, priority, e, BestRank(h, log, key, e)))
  }

  /** A page that one engine lists once: nothing at low priority, the engine's weight at high priority,
      and otherwise its weight divided by the rank; a weight that is not configured is one. */
  lemma SoleListing(h: Heuristics, l: Listing, w: Weights, priority: string, key: string)
    requires Lists(h, l, key)
    ensures var weight := if l.engine in w then w[l.engine] else 1.0;
            KeyScore(h, [l], w, priority, key)
            == if priority == "low" then 0.0
               else if priority == "high" || l.rank <= 1 then weight
               else weight / l.rank as real
  {
    assert EnginesListing(h, [], key) == {} && [] + [l] == [l];
    if priority != "low" { NextEngine(h, [], l, w, priority, key); }
    DivideByOne(WeightOf(w, l.engine));
  }

  lemma DivideByOne(x: real)
    ensures x / 1.0 == x
  {
  }

  /** Every further engine adds what its listing alone is worth. */
  lemma NextEngine(h: Heuristics, log: seq<Listing>, l: Listing, w: Weights, priority: string, key: string)
    requires Lists(h, l, key) && !Listed(h, log, key, l.engine) && priority != "low"
    ensures KeyScore(h, log + [l], w, priority, key)
            == KeyScore(h, log, w, priority, key) + Contribution(w, priority, l.engine, l.rank)
  {
    var all, engines := log + [l], EnginesListing(h, log, key);
    var f := e => Contribution(w, priority, e, BestRank(h, all, key, e));
    var g := e => Contribution(w, priority, e, BestRank(h, log, key, e));
    EnginesSnoc(h, log, l, key);
    assert l.engine in engines <==> Listed(h, log, key, l.engine);
    forall e | e in engines ensures f(e) == g(e) { RankSnoc(h, log, l, key, e); }
    RankSnoc(h, log, l, key, l.engine);
    SumOfMore(engines, f, g, l.engine);
  }

  lemma SumOfMore(s: set<string>, f: string -> real, g: string -> real, x: string)
    requires x !in s && forall e :: e in s ==> f(e) == g(e)
    ensures SetSum(s + {x}, f) == SetSum(s, g) + f(x)
  {
    SetSumPick(s + {x}, f, x);
    assert s + {x} - {x} == s;
    SetSumSame(s, f, g);
  }

  lemma RankSnoc(h: Heuristics, log: seq<Listing>, l: Listing, key: string, engine: string)
    requires Lists(h, l, key) && !Listed(h, log, key, l.engine)
    ensures BestRank(h, log + [l], key, engine) == if engine == l.engine then l.rank else BestRank(h, log, key, engine)
  {
    assert (log + [l])[..|log|] == log;
  }

  lemma EnginesSnoc(h: Heuristics, log: seq<Listing>, l: Listing, key: string)
    requires Lists(h, l, key)
    ensures EnginesListing(h, log + [l], key) == EnginesListing(h, log, key) + {l.engine}
  {
    var all := log + [l];
    forall e ensures e in EnginesListing(h, all, key) <==> e in EnginesListing(h, log, key) + {l.engine} {
      assert e in EnginesListing(h, all, key) <==> Listed(h, all, key, e);
      assert e in EnginesListing(h, log, key) <==> Listed(h, log, key, e);
      ListedSnoc(h, log, l, key, e);
    }
  }

  lemma {:induction false} SeqSumIsSetSum(s: seq<real>, engines: seq<string>, f: string -> real)
    requires |engines| == |s| && Distinct(engines)
    requires forall i :: 0 <= i < |engines| ==> s[i] == f(engines[i])
    ensures SeqSum(s) == SetSum((set e | e in engines), f)
  {
    if engines == [] {
      assert (set e | e in engines) == {};
    } else {
      var n := |engines| - 1;
      var x, all, rest := engines[n], (set e | e in engines), (set e | e in engines[..n]);
      SeqSumIsSetSum(s[..n], engines[..n], f);
      assert engines == engines[..n] + [x];
      assert all - {x} == rest;
      SetSumPick(all, f, x);
    }
  }

  lemma EntryRankScore(h: Heuristics, log: seq<Listing>, w: Weights, key: string, m: Merged)
    requires EntryOk(h, log, key, m) && m.result.priority != "low"
    ensures RankScore(w, m.result.priority, m.engines, m.result.positions)
            == KeyScore(h, log, w, m.result.priority, key)
  {
    var p := m.result.priority;
    var f := e => Contribution(w, p, e, BestRank(h, log, key, e));
    forall i | 0 <= i < |m.engines| ensures f(m.engines[i]) == Contribution(w, p, m.engines[i], m.result.positions[i]) {
      assert Listed(h, log, key, m.engines[i]);
      BestRankIsBest(h, log, key, m.engines[i]);
      BestIsUnique(h, log, key, m.engines[i], m.result.positions[i], BestRank(h, log, key, m.engines[i]));
    }
    SeqSumIsSetSum(Contributions(w, p, m.engines, m.result.positions), m.engines, f);
    EnginesOfEntry(h, log, key, m);
  }

  function Scale(sum: real, factor: real): real { sum * factor }

  function WithRelevance(h: Heuristics, query: string, r: Result, sum: real): real
    requires r.Page?
  {
    Scale(sum, Relevance(h, query, r))
  }

  lemma ScoreFromSum(h: Heuristics, m: Merged, w: Weights, query: string, sum: real)
    requires m.result.Page? && m.result.positions != []
    requires m.result.priority != "low" ==> RankScore(w, m.result.priority, m.engines, m.result.positions) == sum
    requires m.result.priority == "low" ==> sum == 0.0
    ensures ScoreOf(h, m, w, query) == WithRelevance(h, query, m.result, sum)
  {
  }

  /** The score of an entry is the sum over the distinct engines that listed its page of weight
      over best rank, times the relevance. */
  lemma EntryScore(h: Heuristics, log: seq<Listing>, w: Weights, query: string, key: string, m: Merged)
    requires EntryOk(h, log, key, m)
    ensures ScoreOf(h, m, w, query) == WithRelevance(h, query, m.result, KeyScore(h, log, w, m.result.priority, key))
  {
    var sum := KeyScore(h, log, w, m.result.priority, key);
    if m.result.priority == "low" {
      ScoreFromSum(h, m, w, query, sum);
    } else {
      EntryRankScore(h, log, w, key, m);
      ScoreFromSum(h, m, w, query, sum);
    }
  }

  lemma EnginesOfEntry(h: Heuristics, log: seq<Listing>, key: string, m: Merged)
    requires EntryOk(h, log, key, m)
    ensures (set e | e in m.engines) == EnginesListing(h, log, key)
  {
    forall e ensures e in m.engines <==> e in EnginesListing(h, log, key) {
      assert e in m.engines <==> Listed(h, log, key, e);
    }
  }

  // ----- independence of the arrival order -----

  /** The same listings, in any order and any number of times. */
  ghost predicate SameListings(a: seq<Listing>, b: seq<Listing>) {
    forall l :: l in a <==> l in b
  }

  lemma ListedTransfers(h: Heuristics, a: seq<Listing>, b: seq<Listing>, key: string, engine: string)
    requires SameListings(a, b)
    ensures Listed(h, a, key, engine) ==> Listed(h, b, key, engine)
  {
    if Listed(h, a, key, engine) {
      var j :| 0 <= j < |a| && Lists(h, a[j], key) && a[j].engine == engine;
      assert a[j] in b;
    }
  }

  lemma BestTransfers(h: Heuristics, a: seq<Listing>, b: seq<Listing>, key: string, engine: string, rank: nat)
    requires SameListings(a, b) && IsBest(h, a, key, engine, rank)
    ensures IsBest(h, b, key, engine, rank)
  {
    var j :| 0 <= j < |a| && Lists(h, a[j], key) && a[j].engine == engine && a[j].rank == rank;
    assert a[j] in b;
    assert forall i :: 0 <= i < |b| ==> b[i] in a;
  }

  lemma BestRankTransfers(h: Heuristics, a: seq<Listing>, b: seq<Listing>, key: string, engine: string)
    requires SameListings(a, b) && Listed(h, a, key, engine)
    ensures BestRank(h, a, key, engine) == BestRank(h, b, key, engine)
  {
    ListedTransfers(h, a, b, key, engine);
    BestRankIsBest(h, a, key, engine);
    BestRankIsBest(h, b, key, engine);
    BestTransfers(h, a, b, key, engine, BestRank(h, a, key, engine));
    BestIsUnique(h, b, key, engine, BestRank(h, a, key, engine), BestRank(h, b, key, engine));
  }

  lemma EnginesTransfer(h: Heuristics, a: seq<Listing>, b: seq<Listing>, key: string)
    requires SameListings(a, b)
    ensures EnginesListing(h, a, key) == EnginesListing(h, b, key)
  {
    forall e ensures e in EnginesListing(h, a, key) <==> e in EnginesListing(h, b, key) {
      assert e in EnginesListing(h, a, key) <==> Listed(h, a, key, e);
      assert e in EnginesListing(h, b, key) <==> Listed(h, b, key, e);
      ListedTransfers(h, a, b, key, e);
      ListedTransfers(h, b, a, key, e);
    }
  }

  /** The score a page deserves does not depend on the order of its listings. */
  lemma KeyScoreIgnoresArrival(h: Heuristics, a: seq<Listing>, b: seq<Listing>, w: Weights, priority: string,
                               key: string)
    requires SameListings(a, b)
    ensures KeyScore(h, a, w, priority, key) == KeyScore(h, b, w, priority, key)
  {
    EnginesTransfer(h, a, b, key);
    var f := e => Contribution(w, priority, e, BestRank(h, a, key, e));
    var g := e => Contribution(w, priority, e, BestRank(h, b, key, e));
    forall e | e in EnginesListing(h, a, key) ensures f(e) == g(e) {
      assert Listed(h, a, key, e);
      BestRankTransfers(h, a, b, key, e);
    }
    SetSumSame(EnginesListing(h, a, key), f, g);
  }

  /** Listings of one page agree on its priority. */
  ghost predicate PriorityAgrees(h: Heuristics, log: seq<Listing>) {
    forall i, j, k :: 0 <= i < |log| && 0 <= j < |log| && Lists(h, log[i], k) && Lists(h, log[j], k) ==>
                        log[i].result.priority == log[j].result.priority
  }

  /** A query without a search term. */
  ghost predicate Blank(h: Heuristics, query: string) {
    forall title, content, url :: h.relevance(query, title, content, url) == 1.0
  }

  /** The entry of a page, if it has one. */
  function EntryFor(h: Heuristics, log: seq<Listing>, key: string): Merged
    requires key in Build(h, log).byKey
  {
    var t := Build(h, log);
    t.merged[t.byKey[key]]
  }

  lemma EntryForOk(h: Heuristics, log: seq<Listing>, key: string)
    requires key in Build(h, log).byKey
    ensures EntryOk(h, log, key, EntryFor(h, log, key))
  {
    BuildOk(h, log);
  }

  lemma KeysTransfer(h: Heuristics, a: seq<Listing>, b: seq<Listing>, key: string)
    requires SameListings(a, b) && key in Build(h, a).byKey
    ensures key in Build(h, b).byKey
    ensures exists i, j :: 0 <= i < |a| && 0 <= j < |b| && Lists(h, a[i], key) && a[i] == b[j]
  {
    BuildOk(h, a);
    BuildOk(h, b);
    var i :| 0 <= i < |a| && Lists(h, a[i], key);
    assert a[i] in b;
    var j :| 0 <= j < |b| && a[i] == b[j];
    assert Lists(h, b[j], key);
  }

  /** Two entries of one page, built from two arrivals of the same listings: what can differ in their
      scores is the priority and the relevance of the text they show. */
  lemma SameEntryScore(h: Heuristics, a: seq<Listing>, b: seq<Listing>, w: Weights, query: string,
                       key: string, m: Merged, n: Merged)
    requires SameListings(a, b) && EntryOk(h, a, key, m) && EntryOk(h, b, key, n)
    requires m.result.priority == n.result.priority && Relevance(h, query, m.result) == Relevance(h, query, n.result)
    ensures ScoreOf(h, m, w, query) == ScoreOf(h, n, w, query)
  {
    var sum, factor := KeyScore(h, a, w, m.result.priority, key), Relevance(h, query, m.result);
    KeyScoreIgnoresArrival(h, a, b, w, m.result.priority, key);
    ScoreIs(h, a, w, query, key, m, sum, factor);
    ScoreIs(h, b, w, query, key, n, sum, factor);
  }

  lemma ScoreIs(h: Heuristics, log: seq<Listing>, w: Weights, query: string, key: string, m: Merged,
                sum: real, factor: real)
    requires EntryOk(h, log, key, m)
    requires sum == KeyScore(h, log, w, m.result.priority, key) && factor == Relevance(h, query, m.result)
    ensures ScoreOf(h, m, w, query) == Scale(sum, factor)
  {
    EntryScore(h, log, w, query, key, m);
  }

  /** Two arrivals of the same listings give every page the same engines; if its listings agree on
      the priority, the same priority; and then, where the shown texts are equally relevant, as they
      are for a query without a search term, the same score. */
  lemma ScoreIgnoresArrival(h: Heuristics, a: seq<Listing>, b: seq<Listing>, w: Weights, query: string, key: string)
    requires SameListings(a, b) && key in Build(h, a).byKey
    ensures key in Build(h, b).byKey
    ensures var (m, n) := (EntryFor(h, a, key), EntryFor(h, b, key));
            && m.result.Page? && n.result.Page?
            && (set e | e in m.engines) == (set e | e in n.engines)
            && (PriorityAgrees(h, a) ==> m.result.priority == n.result.priority)
            && (m.result.priority == n.result.priority
                && Relevance(h, query, m.result) == Relevance(h, query, n.result) ==>
                  ScoreOf(h, m, w, query) == ScoreOf(h, n, w, query))
  {
    KeysTransfer(h, a, b, key);
    EntryForOk(h, a, key);
    EntryForOk(h, b, key);
    var m, n := EntryFor(h, a, key), EntryFor(h, b, key);
    EnginesOfEntry(h, a, key, m);
    EnginesOfEntry(h, b, key, n);
    EnginesTransfer(h, a, b, key);
    if PriorityAgrees(h, a) { SamePriority(h, a, b, key, m, n); }
    if m.result.priority == n.result.priority && Relevance(h, query, m.result) == Relevance(h, query, n.result) {
      SameEntryScore(h, a, b, w, query, key, m, n);
    }
  }

  lemma SamePriority(h: Heuristics, a: seq<Listing>, b: seq<Listing>, key: string, m: Merged, n: Merged)
    requires SameListings(a, b) && PriorityAgrees(h, a)
    requires EntryOk(h, a, key, m) && EntryOk(h, b, key, n)
    ensures m.result.priority == n.result.priority
  {
    var i :| 0 <= i < |a| && Lists(h, a[i], key) && SameIdentity(m.result, a[i].result);
    var j :| 0 <= j < |b| && Lists(h, b[j], key) && SameIdentity(n.result, b[j].result);
    assert b[j] in a;
    var k :| 0 <= k < |a| && a[k] == b[j];
  }
}
