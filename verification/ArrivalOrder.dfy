/** What the order of the listings decides in the results of
    zoeken/zoeken-search/src/aggregation.rs: the first listing of a page gives its entry URL, variant
    and priority, the first good one its text; everything else depends on the listings alone. */
module ArrivalOrder {
  import opened Ordering
  import opened Wrappers
  import opened Aggregation
  import opened Scoring
  import opened FinalOrder
  import opened ResultBuilder

  // ----- the first listings of a page -----

  function FirstWhere(p: Listing -> bool, log: seq<Listing>): Option<Listing> {
    if log == [] then None
    else
      var earlier := FirstWhere(p, log[..|log| - 1]);
      if earlier.Some? then earlier else if p(log[|log| - 1]) then Some(log[|log| - 1]) else None
  }

  function ListsPage(h: Heuristics, key: string): Listing -> bool { l => Lists(h, l, key) }

  predicate Good(h: Heuristics, l: Listing, key: string) { Lists(h, l, key) && !h.lowQuality(l.result.content) }

  function ShowsPage(h: Heuristics, key: string): Listing -> bool { l => Good(h, l, key) }

  function FirstListing(h: Heuristics, log: seq<Listing>, key: string): Option<Listing> {
    FirstWhere(ListsPage(h, key), log)
  }

  /** The first listing of the page whose content is not of low quality. */
  function FirstGood(h: Heuristics, log: seq<Listing>, key: string): Option<Listing> {
    FirstWhere(ShowsPage(h, key), log)
  }

  lemma {:induction false} FirstIsMember(p: Listing -> bool, log: seq<Listing>)
    ensures var f := FirstWhere(p, log);
            (f.Some? <==> exists j :: 0 <= j < |log| && p(log[j])) && (f.Some? ==> f.value in log && p(f.value))
  {
    if log != [] {
      FirstIsMember(p, log[..|log| - 1]);
      assert log == log[..|log| - 1] + [log[|log| - 1]];
    }
  }

  lemma {:induction false} FirstOfConcat(p: Listing -> bool, a: seq<Listing>, b: seq<Listing>)
    ensures FirstWhere(p, a + b) == if FirstWhere(p, a).Some? then FirstWhere(p, a) else FirstWhere(p, b)
    decreases |b|
  {
    if b == [] {
      assert a + b == a;
    } else {
      InitOfConcat(a, b);
      FirstOfConcat(p, a, b[..|b| - 1]);
    }
  }

  lemma FirstIsListed(h: Heuristics, log: seq<Listing>, key: string)
    ensures var f := FirstListing(h, log, key);
            && (f.Some? <==> exists j :: 0 <= j < |log| && Lists(h, log[j], key))
            && (f.Some? ==> f.value in log && Lists(h, f.value, key))
  {
    FirstIsMember(ListsPage(h, key), log);
    assert forall l :: ListsPage(h, key)(l) == Lists(h, l, key);
  }

  /** A first good listing is a listing, so there is a first one. */
  lemma GoodIsListed(h: Heuristics, log: seq<Listing>, key: string)
    ensures var g := FirstGood(h, log, key); g.Some? ==> Good(h, g.value, key) && FirstListing(h, log, key).Some?
  {
    FirstIsMember(ShowsPage(h, key), log);
    FirstIsListed(h, log, key);
    var g := FirstGood(h, log, key);
    if g.Some? {
      assert ShowsPage(h, key)(g.value) == Good(h, g.value, key);
      var j :| 0 <= j < |log| && log[j] == g.value;
    }
  }

  lemma FirstSnoc(h: Heuristics, log: seq<Listing>, l: Listing, key: string)
    ensures FirstListing(h, log + [l], key)
            == var f := FirstListing(h, log, key); if f.Some? then f else if Lists(h, l, key) then Some(l) else None
    ensures FirstGood(h, log + [l], key)
            == var g := FirstGood(h, log, key); if g.Some? then g else if Good(h, l, key) then Some(l) else None
  {
    assert (log + [l])[..|log|] == log;
  }

  // ----- what an entry shows -----

  /** The first result of a page with the text of its first good listing. */
  function Dressed(r: Result, good: Option<Listing>): Result {
    if r.Page? && good.Some? && good.value.result.Page? then
      var g := good.value.result;
      r.(content := g.content, title := if g.title != "" then g.title else r.title)
    else r
  }

  function FaceOf(h: Heuristics, log: seq<Listing>, key: string): Option<Result> {
    var f := FirstListing(h, log, key);
    if f.Some? then Some(Dressed(f.value.result, FirstGood(h, log, key))) else None
  }

  predicate SameFace(a: Result, b: Result) { SameIdentity(a, b) && a.title == b.title && a.content == b.content }

  lemma AddChangesFace(h: Heuristics, m: Merged, l: Listing)
    requires m.result.Page? && l.result.Page?
    ensures SameFace(AddTo(h, m, l).result, UpgradeContent(h, m.result, l.result))
  {
  }

  /** A merge step upgrades the face of the entry it adds to and of no other. */
  lemma StepChangesFace(h: Heuristics, t: Table, l: Listing, key: string)
    requires InRange(t) && Injective(t) && key in t.byKey && t.merged[t.byKey[key]].result.Page?
    ensures var t', r := MergeStep(h, t, l), t.merged[t.byKey[key]].result;
            && key in t'.byKey
            && SameFace(t'.merged[t'.byKey[key]].result,
                        if Lists(h, l, key) then UpgradeContent(h, r, l.result) else r)
  {
    if Lists(h, l, key) { AddChangesFace(h, t.merged[t.byKey[key]], l); }
  }

  lemma StepOpensEntry(h: Heuristics, t: Table, l: Listing, key: string)
    requires InRange(t) && key !in t.byKey
    ensures var t' := MergeStep(h, t, l);
            key in t'.byKey ==> Lists(h, l, key) && SameFace(t'.merged[t'.byKey[key]].result, l.result)
  {
  }

  lemma BuildKeys(h: Heuristics, log: seq<Listing>, key: string)
    ensures Injective(Build(h, log)) && (key in Build(h, log).byKey <==> FirstListing(h, log, key).Some?)
  {
    BuildOk(h, log);
    FirstIsListed(h, log, key);
  }

  /** The face of a page is of low quality until a good listing has come. */
  lemma FaceIsGood(h: Heuristics, log: seq<Listing>, key: string)
    ensures var face := FaceOf(h, log, key);
            face.Some? ==> face.value.Page? && (h.lowQuality(face.value.content) <==> FirstGood(h, log, key).None?)
  {
    FirstIsListed(h, log, key);
    GoodIsListed(h, log, key);
    FirstIsMember(ShowsPage(h, key), log);
    var f := FirstListing(h, log, key);
    if f.Some? && FirstGood(h, log, key).None? {
      var j :| 0 <= j < |log| && log[j] == f.value;
      assert !ShowsPage(h, key)(log[j]);
    }
  }

  lemma FaceSnoc(h: Heuristics, log: seq<Listing>, l: Listing, key: string)
    requires FaceOf(h, log, key).Some?
    ensures var face, face' := FaceOf(h, log, key).value, FaceOf(h, log + [l], key);
            face'.Some? && face'.value == if Lists(h, l, key) then UpgradeContent(h, face, l.result) else face
  {
    FirstSnoc(h, log, l, key);
    FaceIsGood(h, log, key);
  }

  /** The entry of a page has the URL, variant and priority of the page's first listing, and the
      text of its first good listing. */
  lemma {:induction false} EntryIsFirst(h: Heuristics, log: seq<Listing>, key: string)
    requires key in Build(h, log).byKey
    ensures var face := FaceOf(h, log, key); face.Some? && SameFace(EntryFor(h, log, key).result, face.value)
    decreases |log|
  {
    var init, l := log[..|log| - 1], log[|log| - 1];
    assert log == init + [l];
    BuildKeys(h, init, key);
    if key in Build(h, init).byKey {
      EntryIsFirst(h, init, key);
      StepChangesFace(h, Build(h, init), l, key);
      FaceSnoc(h, init, l, key);
    } else {
      StepOpensEntry(h, Build(h, init), l, key);
      FirstSnoc(h, init, l, key);
      GoodIsListed(h, init, key);
    }
  }

  // ----- the rank of a page -----

  /** Engines that the ranking counts when `r` is the first result of the page. */
  ghost function CountUnder(h: Heuristics, log: seq<Listing>, key: string, r: Result): nat
    requires r.Page?
  {
    if r.main then |EnginesListing(h, log, key)| else if r.engine != "" then 1 else 0
  }

  /** The score of the page when its entry shows `r`. */
  ghost function FaceScore(h: Heuristics, log: seq<Listing>, w: Weights, query: string, key: string, r: Result): real
    requires r.Page?
  {
    WithRelevance(h, query, r, KeyScore(h, log, w, r.priority, key))
  }

  lemma CountOfEntry(h: Heuristics, log: seq<Listing>, key: string, m: Merged, r: Result)
    requires EntryOk(h, log, key, m) && SameIdentity(m.result, r)
    ensures EngineCount(m.result) == CountUnder(h, log, key, r)
  {
    EnginesOfEntry(h, log, key, m);
    DistinctSize(m.engines);
  }

  lemma RankOfEntry(h: Heuristics, log: seq<Listing>, w: Weights, query: string, key: string, m: Merged, r: Result)
    requires EntryOk(h, log, key, m) && SameFace(m.result, r)
    ensures RankOf(ScoredEntry(h, m, w, query))
            == Rank(FaceScore(h, log, w, query, key, r), CountUnder(h, log, key, r),
                    MinPosition(m.result.positions), r.url)
  {
    EntryScore(h, log, w, query, key, m);
    CountOfEntry(h, log, key, m, r);
  }

  /** The page ranks the same whether its entry shows `r` or `s`. */
  ghost predicate Alike(h: Heuristics, log: seq<Listing>, w: Weights, query: string, key: string,
                        r: Result, s: Result)
  {
    && r.Page? && s.Page? && r.url == s.url
    && FaceScore(h, log, w, query, key, r) == FaceScore(h, log, w, query, key, s)
    && CountUnder(h, log, key, r) == CountUnder(h, log, key, s)
  }

  lemma RankTransfers(h: Heuristics, a: seq<Listing>, b: seq<Listing>, w: Weights, query: string, key: string,
                      r: Result)
    requires SameListings(a, b) && r.Page?
    ensures FaceScore(h, a, w, query, key, r) == FaceScore(h, b, w, query, key, r)
    ensures CountUnder(h, a, key, r) == CountUnder(h, b, key, r)
  {
    KeyScoreIgnoresArrival(h, a, b, w, r.priority, key);
    EnginesTransfer(h, a, b, key);
  }

  lemma AlikeTransfers(h: Heuristics, a: seq<Listing>, b: seq<Listing>, w: Weights, query: string, key: string,
                       r: Result, s: Result)
    requires SameListings(a, b)
    ensures Alike(h, a, w, query, key, r, s) <==> Alike(h, b, w, query, key, r, s)
  {
    if r.Page? && s.Page? {
      RankTransfers(h, a, b, w, query, key, r);
      RankTransfers(h, a, b, w, query, key, s);
    }
  }

  function EntryRank(h: Heuristics, log: seq<Listing>, w: Weights, query: string, key: string): Rank
    requires key in Build(h, log).byKey
  {
    RankOf(ScoredEntry(h, EntryFor(h, log, key), w, query))
  }

  /** Two arrivals of the same listings rank a page alike exactly if the faces they give it are
      alike; for every query. */
  lemma SameRankIff(h: Heuristics, a: seq<Listing>, b: seq<Listing>, w: Weights, query: string, key: string)
    requires SameListings(a, b)
    requires key in Build(h, a).byKey && key in Build(h, b).byKey
    ensures var (f, g) := (FaceOf(h, a, key), FaceOf(h, b, key));
            && f.Some? && g.Some?
            && (EntryRank(h, a, w, query, key) == EntryRank(h, b, w, query, key) <==>
                  Alike(h, a, w, query, key, f.value, g.value))
  {
    var m, n := EntryFor(h, a, key), EntryFor(h, b, key);
    EntryForOk(h, a, key);
    EntryForOk(h, b, key);
    EntryIsFirst(h, a, key);
    EntryIsFirst(h, b, key);
    RankOfEntry(h, a, w, query, key, m, FaceOf(h, a, key).value);
    RankOfEntry(h, b, w, query, key, n, FaceOf(h, b, key).value);
    RankTransfers(h, a, b, w, query, key, FaceOf(h, b, key).value);
    BestNoWorse(h, a, b, key, m, n);
    BestNoWorse(h, b, a, key, n, m);
  }

  // ----- ranks of results with a page, and without -----

  ghost function Bag(h: Heuristics, s: seq<Result>, keyed: bool): multiset<Rank> {
    if s == [] then multiset{}
    else
      var r := s[|s| - 1];
      Bag(h, s[..|s| - 1], keyed) + if KeyOf(h, r).Some? == keyed then multiset{RankOf(r)} else multiset{}
  }

  lemma {:induction false} BagSplit(h: Heuristics, s: seq<Result>)
    ensures multiset(Ranks(s)) == Bag(h, s, true) + Bag(h, s, false)
  {
    if s != [] {
      var n := |s| - 1;
      BagSplit(h, s[..n]);
      assert Ranks(s) == Ranks(s[..n]) + [RankOf(s[n])];
    }
  }

  lemma {:induction false} BagSet(h: Heuristics, s: seq<Result>, i: nat, x: Result)
    requires i < |s| && KeyOf(h, s[i]).Some? && KeyOf(h, x).Some?
    ensures Bag(h, s[i := x], false) == Bag(h, s, false)
  {
    var n := |s| - 1;
    if i < n {
      BagSet(h, s[..n], i, x);
      assert s[i := x][..n] == s[..n][i := x];
    } else {
      assert s[i := x][..n] == s[..n];
    }
  }

  predicate HasRank(h: Heuristics, s: seq<Result>, r: Rank) {
    exists i :: 0 <= i < |s| && KeyOf(h, s[i]).Some? && RankOf(s[i]) == r
  }

  lemma {:induction false} BagCount(h: Heuristics, s: seq<Result>, r: Rank)
    requires forall i, j :: 0 <= i < j < |s| && KeyOf(h, s[i]).Some? && KeyOf(h, s[j]).Some? ==>
                              RankOf(s[i]) != RankOf(s[j])
    ensures Bag(h, s, true)[r] == if HasRank(h, s, r) then 1 else 0
  {
    if s != [] {
      var n := |s| - 1;
      BagCount(h, s[..n], r);
      if HasRank(h, s[..n], r) {
        var i :| 0 <= i < n && KeyOf(h, s[..n][i]).Some? && RankOf(s[..n][i]) == r;
        assert s[i] == s[..n][i];
      }
      if HasRank(h, s, r) {
        var i :| 0 <= i < |s| && KeyOf(h, s[i]).Some? && RankOf(s[i]) == r;
        assert i < n ==> s[..n][i] == s[i];
      }
    }
  }

  /** Ranks of the listings without a page; each has an entry of its own. */
  ghost function LooseRanks(h: Heuristics, log: seq<Listing>, w: Weights, query: string): multiset<Rank> {
    if log == [] then multiset{}
    else LooseRanks(h, log[..|log| - 1], w, query) + LooseRank(h, log[|log| - 1], w, query)
  }

  ghost function LooseRank(h: Heuristics, l: Listing, w: Weights, query: string): multiset<Rank> {
    if KeyOf(h, l.result).None? then multiset{RankOf(ScoredEntry(h, NewEntry(l), w, query))} else multiset{}
  }

  lemma ScoredAdd(h: Heuristics, t: Table, l: Listing, w: Weights, query: string, i: nat, m: Merged)
    requires i < |t.merged| && t.merged[i].result.Page? && KeyOf(h, t.merged[i].result).Some?
    requires m.result.Page? && KeyOf(h, m.result) == KeyOf(h, t.merged[i].result)
    ensures Bag(h, Scored(h, t.(merged := t.merged[i := m]), w, query), false) == Bag(h, Scored(h, t, w, query), false)
  {
    var x := ScoredEntry(h, m, w, query);
    assert Scored(h, t.(merged := t.merged[i := m]), w, query) == Scored(h, t, w, query)[i := x];
    BagSet(h, Scored(h, t, w, query), i, x);
  }

  lemma ScoredNew(h: Heuristics, t: Table, byKey: map<string, nat>, l: Listing, w: Weights, query: string)
    ensures Bag(h, Scored(h, Table(t.merged + [NewEntry(l)], byKey), w, query), false)
            == Bag(h, Scored(h, t, w, query), false) + LooseRank(h, l, w, query)
  {
    var s, s' := Scored(h, t, w, query), Scored(h, Table(t.merged + [NewEntry(l)], byKey), w, query);
    assert s' == s + [ScoredEntry(h, NewEntry(l), w, query)];
    assert s'[..|s|] == s;
  }

  lemma ScoredStep(h: Heuristics, log: seq<Listing>, l: Listing, w: Weights, query: string)
    ensures var t := Build(h, log);
            Bag(h, Scored(h, MergeStep(h, t, l), w, query), false)
            == Bag(h, Scored(h, t, w, query), false) + LooseRank(h, l, w, query)
  {
    var key, t := KeyOf(h, l.result), Build(h, log);
    if key.Some? && key.value in t.byKey {
      var i := t.byKey[key.value];
      EntryForOk(h, log, key.value);
      EntryIdentity(h, log, key.value, t.merged[i]);
      AddKeepsKey(h, t.merged[i], l);
      AddChangesFace(h, t.merged[i], l);
      ScoredAdd(h, t, l, w, query, i, AddTo(h, t.merged[i], l));
    } else {
      ScoredNew(h, t, if key.Some? then t.byKey[key.value := |t.merged|] else t.byKey, l, w, query);
    }
  }

  lemma {:induction false} LooseOfBuild(h: Heuristics, log: seq<Listing>, w: Weights, query: string)
    ensures Bag(h, Scored(h, Build(h, log), w, query), false) == LooseRanks(h, log, w, query)
  {
    if log != [] {
      var init, l := log[..|log| - 1], log[|log| - 1];
      LooseOfBuild(h, init, w, query);
      ScoredStep(h, init, l, w, query);
    }
  }

  lemma LooseSnoc(h: Heuristics, log: seq<Listing>, l: Listing, w: Weights, query: string)
    ensures LooseRanks(h, log + [l], w, query) == LooseRanks(h, log, w, query) + LooseRank(h, l, w, query)
  {
    assert (log + [l])[..|log|] == log;
  }

  lemma {:induction false} LooseConcat(h: Heuristics, a: seq<Listing>, b: seq<Listing>, w: Weights, query: string)
    ensures LooseRanks(h, a + b, w, query) == LooseRanks(h, a, w, query) + LooseRanks(h, b, w, query)
    decreases |b|
  {
    if b == [] {
      assert a + b == a;
    } else {
      InitOfConcat(a, b);
      LooseConcat(h, a, b[..|b| - 1], w, query);
    }
  }

  /** The same listings, those without a page as often in one as in the other. */
  ghost predicate SameArrivals(h: Heuristics, a: seq<Listing>, b: seq<Listing>) {
    SameListings(a, b) && SameLoose(h, a, b)
  }

  ghost predicate SameLoose(h: Heuristics, a: seq<Listing>, b: seq<Listing>) {
    forall l: Listing :: KeyOf(h, l.result).None? ==> multiset(a)[l] == multiset(b)[l]
  }

  lemma {:induction false} NoneLoose(h: Heuristics, log: seq<Listing>, w: Weights, query: string)
    requires forall l: Listing :: l in log ==> KeyOf(h, l.result).Some?
    ensures LooseRanks(h, log, w, query) == multiset{}
  {
    if log != [] { NoneLoose(h, log[..|log| - 1], w, query); }
  }

  /** Ranks of listings without a page do not depend on the order. */
  lemma {:induction false} LooseIgnoresArrival(h: Heuristics, a: seq<Listing>, b: seq<Listing>, w: Weights,
                                               query: string)
    requires SameLoose(h, a, b)
    ensures LooseRanks(h, a, w, query) == LooseRanks(h, b, w, query)
    decreases |a|
  {
    if a == [] {
      forall l: Listing | l in b ensures KeyOf(h, l.result).Some? { assert multiset(b)[l] > 0; }
      NoneLoose(h, b, w, query);
    } else {
      var init, l := a[..|a| - 1], a[|a| - 1];
      LastOut(a);
      if KeyOf(h, l.result).Some? {
        LooseIgnoresArrival(h, init, b, w, query);
      } else {
        assert l in multiset(b);
        var before, after := TakeOut(b, l);
        LooseIgnoresArrival(h, init, before + after, w, query);
        LooseWithout(h, before, l, after, w, query);
      }
    }
  }

  lemma LooseWithout(h: Heuristics, before: seq<Listing>, l: Listing, after: seq<Listing>, w: Weights, query: string)
    ensures LooseRanks(h, before + [l] + after, w, query)
            == LooseRanks(h, before + after, w, query) + LooseRank(h, l, w, query)
  {
    LooseConcat(h, before, after, w, query);
    LooseConcat(h, before + [l], after, w, query);
    LooseSnoc(h, before, l, w, query);
  }

  // ----- the order of a log -----

  /** A URL names one page only. */
  ghost predicate UrlsNamePages(h: Heuristics, log: seq<Listing>) {
    forall i, j :: 0 <= i < |log| && 0 <= j < |log| && KeyOf(h, log[i].result).Some? && KeyOf(h, log[j].result).Some?
                   && log[i].result.url == log[j].result.url ==>
                     KeyOf(h, log[i].result) == KeyOf(h, log[j].result)
  }

  lemma NamesTransfer(h: Heuristics, a: seq<Listing>, b: seq<Listing>)
    requires SameListings(a, b) && UrlsNamePages(h, a)
    ensures UrlsNamePages(h, b)
  {
    assert forall i :: 0 <= i < |b| ==> b[i] in a;
  }

  /** Where an entry with a page stands. */
  lemma ScoredEntryAt(h: Heuristics, log: seq<Listing>, w: Weights, query: string, i: nat)
    returns (key: string, l: nat)
    requires i < |Build(h, log).merged| && KeyOf(h, Scored(h, Build(h, log), w, query)[i]).Some?
    ensures var t := Build(h, log);
            && key in t.byKey && t.byKey[key] == i
            && l < |log| && Lists(h, log[l], key)
            && log[l].result.url == Scored(h, t, w, query)[i].url
  {
    BuildOk(h, log);
    var m := Build(h, log).merged[i];
    key := KeyOf(h, m.result).value;
    l := EntryUrl(h, log, key, m);
  }

  lemma HasRankIff(h: Heuristics, log: seq<Listing>, w: Weights, query: string, r: Rank)
    ensures HasRank(h, Scored(h, Build(h, log), w, query), r) <==>
            exists key :: key in Build(h, log).byKey && EntryRank(h, log, w, query, key) == r
  {
    var t := Build(h, log);
    var s := Scored(h, t, w, query);
    if HasRank(h, s, r) {
      var i :| 0 <= i < |s| && KeyOf(h, s[i]).Some? && RankOf(s[i]) == r;
      var key, l := ScoredEntryAt(h, log, w, query, i);
      assert EntryRank(h, log, w, query, key) == r;
    }
    if key :| key in t.byKey && EntryRank(h, log, w, query, key) == r {
      EntryForOk(h, log, key);
      EntryIdentity(h, log, key, EntryFor(h, log, key));
      assert KeyOf(h, s[t.byKey[key]]).Some? && RankOf(s[t.byKey[key]]) == r;
    }
  }

  /** Pages have different ranks, since they have different URLs. */
  lemma PageRanks(h: Heuristics, log: seq<Listing>, w: Weights, query: string, r: Rank)
    requires UrlsNamePages(h, log)
    ensures var s := Scored(h, Build(h, log), w, query); Bag(h, s, true)[r] == if HasRank(h, s, r) then 1 else 0
  {
    var s := Scored(h, Build(h, log), w, query);
    forall i, j | 0 <= i < j < |s| && KeyOf(h, s[i]).Some? && KeyOf(h, s[j]).Some?
      ensures RankOf(s[i]) != RankOf(s[j])
    {
      var k, x := ScoredEntryAt(h, log, w, query, i);
      var k', y := ScoredEntryAt(h, log, w, query, j);
      assert KeyOf(h, log[x].result) == Some(k) && KeyOf(h, log[y].result) == Some(k');
    }
    BagCount(h, s, r);
  }

  lemma SortedRanksIff(a: seq<Result>, b: seq<Result>)
    ensures Ranks(SortBy(Before, a)) == Ranks(SortBy(Before, b)) <==> multiset(Ranks(a)) == multiset(Ranks(b))
  {
    var x, y := Ranks(a), Ranks(b);
    SortRanks(a);
    SortRanks(b);
    RankOrder();
    SortBySorts(RankLess, x);
    SortBySorts(RankLess, y);
    if multiset(x) == multiset(y) {
      forall i, j | 0 <= i < |x| && 0 <= j < |x| && x[i] != x[j] ensures RankLess(x[i], x[j]) || RankLess(x[j], x[i]) {
        RankTotal(x[i], x[j]);
      }
      SortIgnoresArrangement(RankLess, x, y);
    }
  }

  lemma BagsDecideOrder(h: Heuristics, a: seq<Listing>, b: seq<Listing>, w: Weights, query: string)
    requires SameArrivals(h, a, b)
    ensures Ranks(FinalResults(h, Build(h, a), w, query)) == Ranks(FinalResults(h, Build(h, b), w, query)) <==>
            Bag(h, Scored(h, Build(h, a), w, query), true) == Bag(h, Scored(h, Build(h, b), w, query), true)
  {
    var s, s' := Scored(h, Build(h, a), w, query), Scored(h, Build(h, b), w, query);
    SortedRanksIff(s, s');
    BagSplit(h, s);
    BagSplit(h, s');
    LooseOfBuild(h, a, w, query);
    LooseOfBuild(h, b, w, query);
    LooseIgnoresArrival(h, a, b, w, query);
    CancelBag(Bag(h, s, true), Bag(h, s', true), Bag(h, s, false));
  }

  /** The two arrivals give every page alike faces. */
  ghost predicate SameFaces(h: Heuristics, a: seq<Listing>, b: seq<Listing>, w: Weights, query: string) {
    forall key :: FaceOf(h, a, key).Some? && FaceOf(h, b, key).Some? ==>
      Alike(h, a, w, query, key, FaceOf(h, a, key).value, FaceOf(h, b, key).value)
  }

  lemma SameFacesBack(h: Heuristics, a: seq<Listing>, b: seq<Listing>, w: Weights, query: string)
    requires SameListings(a, b) && SameFaces(h, a, b, w, query)
    ensures SameFaces(h, b, a, w, query)
  {
    forall key | FaceOf(h, a, key).Some? && FaceOf(h, b, key).Some?
      ensures Alike(h, b, w, query, key, FaceOf(h, b, key).value, FaceOf(h, a, key).value)
    {
      AlikeTransfers(h, a, b, w, query, key, FaceOf(h, a, key).value, FaceOf(h, b, key).value);
    }
  }

  lemma RankIncluded(h: Heuristics, a: seq<Listing>, b: seq<Listing>, w: Weights, query: string, r: Rank)
    requires SameListings(a, b) && SameFaces(h, a, b, w, query)
    ensures HasRank(h, Scored(h, Build(h, a), w, query), r) ==> HasRank(h, Scored(h, Build(h, b), w, query), r)
  {
    HasRankIff(h, a, w, query, r);
    HasRankIff(h, b, w, query, r);
    if key :| key in Build(h, a).byKey && EntryRank(h, a, w, query, key) == r {
      KeysTransfer(h, a, b, key);
      SameRankIff(h, a, b, w, query, key);
      assert EntryRank(h, b, w, query, key) == r;
    }
  }

  lemma SameFacesSameBag(h: Heuristics, a: seq<Listing>, b: seq<Listing>, w: Weights, query: string)
    requires SameListings(a, b) && UrlsNamePages(h, a) && SameFaces(h, a, b, w, query)
    ensures Bag(h, Scored(h, Build(h, a), w, query), true) == Bag(h, Scored(h, Build(h, b), w, query), true)
  {
    var x, y := Bag(h, Scored(h, Build(h, a), w, query), true), Bag(h, Scored(h, Build(h, b), w, query), true);
    NamesTransfer(h, a, b);
    SameFacesBack(h, a, b, w, query);
    forall r ensures x[r] == y[r] {
      PageRanks(h, a, w, query, r);
      PageRanks(h, b, w, query, r);
      RankIncluded(h, a, b, w, query, r);
      RankIncluded(h, b, a, w, query, r);
    }
  }

  /** Of two arrivals whose page ranks are the same multiset, each gives a page the same rank. */
  lemma SameBagSameRank(h: Heuristics, a: seq<Listing>, b: seq<Listing>, w: Weights, query: string, key: string)
    requires SameListings(a, b) && UrlsNamePages(h, a)
    requires Bag(h, Scored(h, Build(h, a), w, query), true) == Bag(h, Scored(h, Build(h, b), w, query), true)
    requires key in Build(h, a).byKey
    ensures key in Build(h, b).byKey && EntryRank(h, a, w, query, key) == EntryRank(h, b, w, query, key)
  {
    var r := EntryRank(h, a, w, query, key);
    NamesTransfer(h, a, b);
    KeysTransfer(h, a, b, key);
    PageRanks(h, a, w, query, r);
    PageRanks(h, b, w, query, r);
    HasRankIff(h, a, w, query, r);
    HasRankIff(h, b, w, query, r);
    var key' :| key' in Build(h, b).byKey && EntryRank(h, b, w, query, key') == r;
    OneNameOnePage(h, a, b, key, key');
  }

  lemma OneNameOnePage(h: Heuristics, a: seq<Listing>, b: seq<Listing>, key: string, key': string)
    requires SameListings(a, b) && UrlsNamePages(h, a) && key in Build(h, a).byKey && key' in Build(h, b).byKey
    ensures EntryFor(h, a, key).result.Page? && EntryFor(h, b, key').result.Page?
    ensures EntryFor(h, a, key).result.url == EntryFor(h, b, key').result.url ==> key == key'
  {
    EntryForOk(h, a, key);
    EntryForOk(h, b, key');
    var i := EntryUrl(h, a, key, EntryFor(h, a, key));
    var j := EntryUrl(h, b, key', EntryFor(h, b, key'));
    assert b[j] in a;
    var k :| 0 <= k < |a| && a[k] == b[j];
  }

  /** Two arrivals give the same ranked list exactly if they give every page alike faces; results
      without a page may be among the listings. */
  lemma SameOrderIff(h: Heuristics, a: seq<Listing>, b: seq<Listing>, w: Weights, query: string)
    requires SameArrivals(h, a, b) && UrlsNamePages(h, a)
    ensures Ranks(FinalResults(h, Build(h, a), w, query)) == Ranks(FinalResults(h, Build(h, b), w, query)) <==>
            SameFaces(h, a, b, w, query)
  {
    var x, y := Bag(h, Scored(h, Build(h, a), w, query), true), Bag(h, Scored(h, Build(h, b), w, query), true);
    BagsDecideOrder(h, a, b, w, query);
    if SameFaces(h, a, b, w, query) { SameFacesSameBag(h, a, b, w, query); }
    if x == y {
      forall key | FaceOf(h, a, key).Some? && FaceOf(h, b, key).Some?
        ensures Alike(h, a, w, query, key, FaceOf(h, a, key).value, FaceOf(h, b, key).value)
      {
        BuildKeys(h, a, key);
        SameBagSameRank(h, a, b, w, query, key);
        SameRankIff(h, a, b, w, query, key);
      }
    }
  }

  // ----- a simple sufficient condition -----

  lemma BlankScore(h: Heuristics, log: seq<Listing>, w: Weights, query: string, key: string, r: Result)
    requires Blank(h, query) && r.Page?
    ensures FaceScore(h, log, w, query, key, r) == KeyScore(h, log, w, r.priority, key)
  {
  }

  /** A page has one URL, variant and priority, and different pages have different URLs. */
  ghost predicate UrlsIdentify(h: Heuristics, log: seq<Listing>) {
    && (forall i :: 0 <= i < |log| && KeyOf(h, log[i].result).Some? ==> log[i].result.engine != "")
    && (forall i, j ::
          0 <= i < |log| && 0 <= j < |log| && KeyOf(h, log[i].result).Some? && KeyOf(h, log[j].result).Some? ==>
            (log[i].result.url == log[j].result.url <==> KeyOf(h, log[i].result) == KeyOf(h, log[j].result)))
    && (forall i, j, k :: 0 <= i < |log| && 0 <= j < |log| && Lists(h, log[i], k) && Lists(h, log[j], k) ==>
                            log[i].result.main == log[j].result.main
                            && log[i].result.priority == log[j].result.priority)
  }

  /** Listings of one page show one text. */
  ghost predicate TextsAgree(h: Heuristics, log: seq<Listing>) {
    forall i, j, k :: 0 <= i < |log| && 0 <= j < |log| && Lists(h, log[i], k) && Lists(h, log[j], k) ==>
                        log[i].result.title == log[j].result.title && log[i].result.content == log[j].result.content
  }

  /** A face shows the text of the first listing if all listings do. */
  lemma PlainFace(h: Heuristics, log: seq<Listing>, key: string)
    requires TextsAgree(h, log) && FirstListing(h, log, key).Some?
    ensures FaceOf(h, log, key) == Some(FirstListing(h, log, key).value.result)
  {
    FirstIsListed(h, log, key);
    GoodIsListed(h, log, key);
    FirstIsMember(ShowsPage(h, key), log);
    var f, g := FirstListing(h, log, key), FirstGood(h, log, key);
    var i :| 0 <= i < |log| && log[i] == f.value;
    if g.Some? {
      var j :| 0 <= j < |log| && log[j] == g.value;
      assert Lists(h, log[i], key) && Lists(h, log[j], key);
    }
  }

  lemma FaceScoreByText(h: Heuristics, a: seq<Listing>, b: seq<Listing>, w: Weights, query: string, key: string)
    requires SameListings(a, b) && (Blank(h, query) || TextsAgree(h, a))
    requires FirstListing(h, a, key).Some? && FirstListing(h, b, key).Some?
    ensures var (r, s) := (FaceOf(h, a, key).value, FaceOf(h, b, key).value);
            && r.Page? && s.Page?
            && (r.url == s.url && r.priority == s.priority ==>
                  FaceScore(h, a, w, query, key, r) == FaceScore(h, a, w, query, key, s))
  {
    var r, s := FaceOf(h, a, key).value, FaceOf(h, b, key).value;
    FaceIsGood(h, a, key);
    FaceIsGood(h, b, key);
    if Blank(h, query) {
      BlankScore(h, a, w, query, key, r);
      BlankScore(h, a, w, query, key, s);
    } else {
      assert forall i :: 0 <= i < |b| ==> b[i] in a;
      assert TextsAgree(h, b);
      PlainFace(h, a, key);
      PlainFace(h, b, key);
      FirstIsListed(h, a, key);
      FirstIsListed(h, b, key);
      assert FirstListing(h, b, key).value in a;
    }
  }

  /** When URLs identify pages, and the query has no search term or listings of a page show one
      text, the final list shows the same pages with the same scores in the same order, whatever
      order the listings arrived in. */
  lemma OrderIgnoresArrival(h: Heuristics, a: seq<Listing>, b: seq<Listing>, w: Weights, query: string)
    requires SameArrivals(h, a, b) && UrlsIdentify(h, a) && (Blank(h, query) || TextsAgree(h, a))
    ensures Ranks(FinalResults(h, Build(h, a), w, query)) == Ranks(FinalResults(h, Build(h, b), w, query))
  {
    forall key | FaceOf(h, a, key).Some? && FaceOf(h, b, key).Some?
      ensures Alike(h, a, w, query, key, FaceOf(h, a, key).value, FaceOf(h, b, key).value)
    {
      FirstIsListed(h, a, key);
      FirstIsListed(h, b, key);
      assert FirstListing(h, b, key).value in a;
      FaceScoreByText(h, a, b, w, query, key);
    }
    SameOrderIff(h, a, b, w, query);
  }
}
