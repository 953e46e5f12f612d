/** Reports in which the order of the outcomes decides, in zoeken/zoeken-search/src/aggregation.rs: a
    tie between two pages, and the score of one page. */
module ArrivalTies {
  import opened Ordering
  import opened Wrappers
  import opened Aggregation
  import opened Scoring
  import opened FinalOrder
  import opened ResultBuilder
  import opened ArrivalOrder
  import opened ReportOrder
  import MergeKey

  function Hit(engine: string, url: string): Listing {
    Listing(engine, 1, Page(true, url, "", "", "", "", engine, [], [], 0.0))
  }

  function TwoEngines(url: string, first: string, second: string): Merged {
    Merged(Page(true, url, "", "", "", "", first, [first, second], [1, 1], 0.0), [first, second])
  }

  function OneEngine(url: string, engine: string): Merged {
    Merged(Page(true, url, "", "", "", "", engine, [engine], [1], 0.0), [engine])
  }

  /** `u` and `v` spell one page, `m` another. */
  predicate TwoPages(h: Heuristics, u: string, v: string, m: string) {
    u != "" && v != "" && m != "" && h.canon(u) == h.canon(v) != h.canon(m)
  }

  function Arrival(first: Listing, second: Listing, m: string): seq<Listing> {
    [first, second, Hit("r", m), Hit("s", m)]
  }

  function TwoEntries(h: Heuristics, u: string, p: string, q: string, m: string): Table {
    Table([TwoEngines(u, p, q), TwoEngines(m, "r", "s")], map[h.canon(u) := 0, h.canon(m) := 1])
  }

  lemma AddSecond(h: Heuristics, p: string, u: string, q: string, v: string)
    requires p != q
    ensures AddTo(h, OneEngine(u, p), Hit(q, v)) == TwoEngines(u, p, q)
  {
    IndexOfFinds([p], q);
    assert [p] + [q] == [p, q] && [1] + [1] == [1, 1];
  }

  lemma BuildArrival(h: Heuristics, p: string, u: string, q: string, v: string, m: string)
    requires p != q && p != "" && q != "" && TwoPages(h, u, v, m)
    ensures Build(h, Arrival(Hit(p, u), Hit(q, v), m)) == TwoEntries(h, u, p, q, m)
  {
    var log := Arrival(Hit(p, u), Hit(q, v), m);
    assert log[..1][..0] == [];
    assert Build(h, log[..1]) == Table([OneEngine(u, p)], map[h.canon(u) := 0]);
    assert log[..2][..1] == log[..1];
    AddSecond(h, p, u, q, v);
    assert Build(h, log[..2]) == Table([TwoEngines(u, p, q)], map[h.canon(u) := 0]);
    assert log[..3][..2] == log[..2];
    assert Build(h, log[..3])
        == Table([TwoEngines(u, p, q), OneEngine(m, "r")], map[h.canon(u) := 0, h.canon(m) := 1]);
    assert log[..3] == log[..|log| - 1];
    AddSecond(h, "r", m, "s", m);
  }

  lemma ScoreTwo(h: Heuristics, url: string, p: string, q: string, query: string)
    requires Blank(h, query)
    ensures ScoreOf(h, TwoEngines(url, p, q), map[], query) == 2.0
  {
    var added := Contributions(map[], "", TwoEngines(url, p, q).engines, [1, 1]);
    assert added == [1.0, 1.0];
    assert added[..1] == [1.0] && [1.0][..0] == [];
    assert SeqSum([1.0]) == 1.0;
  }

  lemma FinalOfTwo(h: Heuristics, u: string, p: string, q: string, m: string, query: string)
    requires Blank(h, query)
    ensures var final := FinalResults(h, TwoEntries(h, u, p, q, m), map[], query);
            && |final| == 2 && final[0].Page? && final[0].normalizedUrl == ""
            && final[0].url == if TextLess(m, u) then m else u
  {
    var t := TwoEntries(h, u, p, q, m);
    ScoreTwo(h, u, p, q, query);
    ScoreTwo(h, m, "r", "s", query);
    var x, y := SetScore(TwoEngines(u, p, q).result, 2.0), SetScore(TwoEngines(m, "r", "s").result, 2.0);
    assert Scored(h, t, map[], query) == [x, y];
    assert [x, y][1..] == [y] && [y][1..] == [];
    assert SortBy(Before, [y]) == [y];
    assert RankOf(x) == Rank(2.0, 2, MinPosition([1, 1]), u);
    assert RankOf(y) == Rank(2.0, 2, MinPosition([1, 1]), m);
    assert Insert(Before, x, []) == [x];
  }

  predicate IsTop(h: Heuristics, log: seq<Listing>, query: string, top: Result) {
    var final := FinalResults(h, Build(h, log), map[], query);
    final != [] && final[0] == top
  }

  /** The page of the top hit when `p` arrives first and spells it `u`. */
  lemma TopPage(h: Heuristics, p: string, u: string, q: string, v: string, m: string, query: string)
    returns (top: Result)
    requires p != q && p != "" && q != "" && TwoPages(h, u, v, m) && Blank(h, query)
    ensures IsTop(h, Arrival(Hit(p, u), Hit(q, v), m), query, top)
    ensures KeyOf(h, top) == Some(h.canon(if TextLess(m, u) then m else u))
  {
    BuildArrival(h, p, u, q, v, m);
    FinalOfTwo(h, u, p, q, m, query);
    top := FinalResults(h, Build(h, Arrival(Hit(p, u), Hit(q, v), m)), map[], query)[0];
  }

  /** One engine that answers with one page. */
  function Single(engine: string, url: string): RunOutcome {
    RunOutcome(engine, Completed([Page(true, url, "", "", "", "", "", [], [], 0.0)], []))
  }

  function TieReport(first: RunOutcome, second: RunOutcome, m: string): seq<RunOutcome> {
    [first, second, Single("r", m), Single("s", m)]
  }

  lemma SingleLog(engine: string, url: string)
    requires engine != ""
    ensures LogOf([Single(engine, url)]) == [Hit(engine, url)]
  {
    assert [Single(engine, url)][..0] == [];
  }

  lemma TieLog(p: string, u: string, q: string, v: string, m: string)
    requires p != "" && q != ""
    ensures LogOf(TieReport(Single(p, u), Single(q, v), m)) == Arrival(Hit(p, u), Hit(q, v), m)
  {
    SingleLog(p, u);
    SingleLog(q, v);
    SingleLog("r", m);
    SingleLog("s", m);
    var pair, rest := [Single(p, u)] + [Single(q, v)], [Single("r", m)] + [Single("s", m)];
    assert TieReport(Single(p, u), Single(q, v), m) == pair + rest;
    LogConcat(pair, rest);
    LogConcat([Single(p, u)], [Single(q, v)]);
    LogConcat([Single("r", m)], [Single("s", m)]);
  }

  /** The URL tie-breaker is itself decided by the order of the outcomes: in a report whose first two
      engines spell one page differently, with another page between the spellings, swapping these two
      swaps the page of the top hit, although priorities and variants agree and the query is blank. */
  lemma ArrivalDecidesTies(h: Heuristics, p: string, u: string, q: string, v: string, m: string, query: string)
    returns (top: Result, top': Result)
    requires p != q && p != "" && q != "" && TwoPages(h, u, v, m) && Blank(h, query)
    requires TextLess(m, u) && TextLess(v, m)
    ensures multiset(TieReport(Single(p, u), Single(q, v), m)) == multiset(TieReport(Single(q, v), Single(p, u), m))
    ensures PriorityAgrees(h, LogOf(TieReport(Single(p, u), Single(q, v), m)))
    ensures IsTop(h, LogOf(TieReport(Single(p, u), Single(q, v), m)), query, top)
    ensures IsTop(h, LogOf(TieReport(Single(q, v), Single(p, u), m)), query, top')
    ensures KeyOf(h, top) != KeyOf(h, top')
  {
    TextTotal(v, m);
    TieLog(p, u, q, v, m);
    TieLog(q, v, p, u, m);
    top := TopPage(h, p, u, q, v, m, query);
    top' := TopPage(h, q, v, p, u, m, query);
    SwapFirst(Single(p, u), Single(q, v), m);
    TiePriorities(h, p, u, q, v, m);
  }

  lemma TiePriorities(h: Heuristics, p: string, u: string, q: string, v: string, m: string)
    ensures PriorityAgrees(h, Arrival(Hit(p, u), Hit(q, v), m))
  {
    assert forall i :: 0 <= i < 4 ==> Arrival(Hit(p, u), Hit(q, v), m)[i].result.priority == "";
  }

  lemma SwapFirst(x: RunOutcome, y: RunOutcome, m: string)
    ensures multiset(TieReport(x, y, m)) == multiset(TieReport(y, x, m))
  {
    var rest := [Single("r", m), Single("s", m)];
    assert TieReport(x, y, m) == [x, y] + rest && TieReport(y, x, m) == [y, x] + rest;
  }

  /** Merge keys of the source tie like that: of texts that are no URLs, "n" and "N" have one key,
      "m" another, and "m" sorts between them. */
  lemma CanonicalKeysTie(lib: MergeKey.Library, h: Heuristics)
    requires forall raw :: h.canon(raw) == MergeKey.CanonicalMergeKey(lib, raw)
    requires lib.parse("n").None? && lib.parse("N").None? && lib.parse("m").None?
    ensures TwoPages(h, "n", "N", "m") && TextLess("m", "n") && TextLess("N", "m")
  {
    KeyOfLetter(lib, 'n');
    KeyOfLetter(lib, 'N');
    KeyOfLetter(lib, 'm');
    assert "m"[0] < "n"[0] && "N"[0] < "m"[0];
  }

  lemma KeyOfLetter(lib: MergeKey.Library, c: char)
    requires lib.parse([c]).None? && c != '/'
    ensures MergeKey.CanonicalMergeKey(lib, [c]) == [MergeKey.LowerChar(c)]
  {
  }

  lemma CanonicalKeysDecideTies(lib: MergeKey.Library, h: Heuristics, p: string, q: string, query: string)
    returns (top: Result, top': Result)
    requires forall raw :: h.canon(raw) == MergeKey.CanonicalMergeKey(lib, raw)
    requires lib.parse("n").None? && lib.parse("N").None? && lib.parse("m").None?
    requires p != q && p != "" && q != "" && Blank(h, query)
    ensures IsTop(h, LogOf(TieReport(Single(p, "n"), Single(q, "N"), "m")), query, top)
    ensures IsTop(h, LogOf(TieReport(Single(q, "N"), Single(p, "n"), "m")), query, top')
    ensures KeyOf(h, top) != KeyOf(h, top')
  {
    CanonicalKeysTie(lib, h);
    top, top' := ArrivalDecidesTies(h, p, "n", q, "N", "m", query);
  }

  // ----- a score that the order decides -----

  function Titled(engine: string, url: string, title: string, content: string): Result {
    Page(true, url, "", title, content, "", engine, [], [], 0.0)
  }

  function Answer(engine: string, url: string, title: string, content: string): RunOutcome {
    RunOutcome(engine, Completed([Titled("", url, title, content)], []))
  }

  lemma AnswerLog(engine: string, url: string, title: string, content: string)
    requires engine != ""
    ensures AnswerOf(Answer(engine, url, title, content)) == [Listing(engine, 1, Titled(engine, url, title, content))]
  {
  }

  lemma PairLog(x: RunOutcome, y: RunOutcome)
    ensures LogOf([x, y]) == AnswerOf(x) + AnswerOf(y)
  {
    LogSnoc([], x);
    LogSnoc([x], y);
    assert [] + [x] == [x] && [x] + [y] == [x, y] && [] + AnswerOf(x) == AnswerOf(x);
  }

  lemma FaceOfPair(h: Heuristics, x: Listing, y: Listing, key: string)
    requires Good(h, x, key)
    ensures FaceOf(h, [x, y], key) == Some(x.result)
  {
    FirstSnoc(h, [], x, key);
    FirstSnoc(h, [x], y, key);
    assert [] + [x] == [x] && [x] + [y] == [x, y];
  }

  lemma RankOne(h: Heuristics, log: seq<Listing>, key: string, engine: string)
    requires Listed(h, log, key, engine) && forall j :: 0 <= j < |log| ==> log[j].rank == 1
    ensures BestRank(h, log, key, engine) == 1
  {
    BestRankIsBest(h, log, key, engine);
  }

  lemma SumOfTwo(x: string, y: string, f: string -> real)
    requires x != y && f(x) == f(y) == 1.0
    ensures SetSum({x, y}, f) == 2.0
  {
    SetSumPick({x, y}, f, x);
    assert {x, y} - {x} == {y};
    SetSumPick({y}, f, y);
    assert {y} - {y} == {};
  }

  /** Two engines of weight one that list a page first give it the score two. */
  lemma KeyScoreOfPair(h: Heuristics, x: Listing, y: Listing, key: string)
    requires Lists(h, x, key) && Lists(h, y, key) && x.engine != y.engine && x.rank == y.rank == 1
    ensures KeyScore(h, [x, y], map[], "", key) == 2.0
  {
    var log := [x, y];
    assert log[0] == x && log[1] == y;
    RankOne(h, log, key, x.engine);
    RankOne(h, log, key, y.engine);
    assert EnginesListing(h, log, key) == {x.engine, y.engine};
    SumOfTwo(x.engine, y.engine, e => Contribution(map[], "", e, BestRank(h, log, key, e)));
  }

  lemma ScoreOfPair(h: Heuristics, p: string, q: string, url: string, title: string, title': string,
                    content: string, query: string)
    requires p != q && p != "" && q != "" && url != "" && !h.lowQuality(content)
    ensures PageScore(h, [Answer(p, url, title, content), Answer(q, url, title', content)], map[], query, h.canon(url))
            == Scale(2.0, h.relevance(query, title, content, url))
  {
    var key, report := h.canon(url), [Answer(p, url, title, content), Answer(q, url, title', content)];
    var x, y := Listing(p, 1, Titled(p, url, title, content)), Listing(q, 1, Titled(q, url, title', content));
    AnswerLog(p, url, title, content);
    AnswerLog(q, url, title', content);
    PairLog(report[0], report[1]);
    assert LogOf(report) == [x, y];
    ScoreOfPage(h, report, map[], query, key);
    FaceOfPair(h, x, y, key);
    KeyScoreOfPair(h, x, y, key);
  }

  /** Two answers give one URL, variant, priority and good content, and titles that the query finds
      unequally relevant: whoever comes first decides the score. */
  lemma TitleDecidesScore(h: Heuristics, p: string, q: string, url: string, title: string, title': string,
                          content: string, query: string)
    requires p != q && p != "" && q != "" && url != "" && !h.lowQuality(content)
    requires h.relevance(query, title, content, url) != h.relevance(query, title', content, url)
    ensures !ScoreIrrelevant(h, [Answer(p, url, title, content), Answer(q, url, title', content)],
                             map[], query, h.canon(url))
  {
    var x, y := Answer(p, url, title, content), Answer(q, url, title', content);
    ScoreOfPair(h, p, q, url, title, title', content, query);
    ScoreOfPair(h, q, p, url, title', title, content, query);
    assert multiset([y, x]) == multiset([x, y]);
  }
}
