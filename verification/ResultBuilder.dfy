/** `ContainerBuilder` and `aggregate_query` of zoeken/zoeken-search/src/aggregation.rs: the
    mutable builder, its loops, and the suggestion ranking. */
module ResultBuilder {
  import opened Ordering
  import opened Wrappers
  import opened Aggregation
  import opened Scoring
  import opened FinalOrder

  /** A suggestion as first displayed, with the weights and the number of its occurrences. */
  datatype Suggested = Suggested(text: string, weight: real, count: nat)

  datatype Status = Completed(results: seq<Result>, suggestions: seq<string>) | NoResults(cause: string)

  datatype RunOutcome = RunOutcome(engine: string, status: Status)

  /** `trim` and `to_ascii_lowercase`; the two commute. */
  datatype TextTools = TextTools(trim: string -> string, lower: string -> string)

  ghost predicate Commute(tt: TextTools) {
    forall s :: tt.trim(tt.lower(s)) == tt.lower(tt.trim(s))
  }

  function SuggestionKey(tt: TextTools, text: string): string { tt.lower(tt.trim(text)) }

  type SuggestionTable = map<string, Suggested>

  function Suggest(tt: TextTools, table: SuggestionTable, text: string, weight: real): SuggestionTable {
    var key := SuggestionKey(tt, text);
    if key == "" then table
    else if key in table then
      table[key := Suggested(table[key].text, table[key].weight + weight, table[key].count + 1)]
    else table[key := Suggested(text, weight, 1)]
  }

  function SuggestAll(tt: TextTools, table: SuggestionTable, texts: seq<string>, weight: real): SuggestionTable {
    if texts == [] then table
    else Suggest(tt, SuggestAll(tt, table, texts[..|texts| - 1], weight), texts[|texts| - 1], weight)
  }

  /** Listings of one engine's results, ranked from one. */
  function ListingsOf(engine: string, results: seq<Result>): seq<Listing> {
    seq(|results|, i requires 0 <= i < |results| => Listing(engine, i + 1, EnsureEngine(results[i], engine)))
  }

  function AnswerOf(o: RunOutcome): seq<Listing> {
    if o.status.Completed? then ListingsOf(o.engine, o.status.results) else []
  }

  /** All listings of a report, in ingest order. */
  function LogOf(report: seq<RunOutcome>): seq<Listing> {
    if report == [] then [] else LogOf(report[..|report| - 1]) + AnswerOf(report[|report| - 1])
  }

  function SuggestionsOf(tt: TextTools, w: Weights, report: seq<RunOutcome>): SuggestionTable {
    if report == [] then map[]
    else
      var o, table := report[|report| - 1], SuggestionsOf(tt, w, report[..|report| - 1]);
      if o.status.Completed? then SuggestAll(tt, table, o.status.suggestions, WeightOf(w, o.engine)) else table
  }

  function Unresponsive(report: seq<RunOutcome>): seq<string> {
    if report == [] then []
    else
      var o := report[|report| - 1];
      Unresponsive(report[..|report| - 1]) + if o.status.Completed? then [] else [o.engine]
  }

  // ----- the suggestion list -----

  predicate SuggestedBefore(tt: TextTools, a: Suggested, b: Suggested) {
    var x, y := a.weight * a.count as real, b.weight * b.count as real;
    if x != y then x > y else TextLess(tt.lower(a.text), tt.lower(b.text))
  }

  /** The texts with the key, in order. */
  function TextsOf(tt: TextTools, texts: seq<string>, key: string): seq<string> {
    if texts == [] then []
    else
      var text := texts[|texts| - 1];
      TextsOf(tt, texts[..|texts| - 1], key) + if tt.lower(tt.trim(text)) == key then [text] else []
  }

  /** The suggestions of a report with the key, and the weight of the engine that made each. */
  function Hits(tt: TextTools, w: Weights, report: seq<RunOutcome>, key: string): seq<(string, real)> {
    if report == [] then []
    else
      var o := report[|report| - 1];
      Hits(tt, w, report[..|report| - 1], key)
      + if o.status.Completed? then WithWeight(TextsOf(tt, o.status.suggestions, key), WeightOf(w, o.engine)) else []
  }

  function WithWeight(texts: seq<string>, weight: real): seq<(string, real)> {
    seq(|texts|, i requires 0 <= i < |texts| => (texts[i], weight))
  }

  function TotalWeight(hits: seq<(string, real)>): real {
    if hits == [] then 0.0 else TotalWeight(hits[..|hits| - 1]) + hits[|hits| - 1].1
  }

  /** A table stores under every key but the empty one what `hits` has for it: the first text, the sum
      of the weights, and the number of occurrences. */
  ghost predicate Stores(table: SuggestionTable, key: string, hits: seq<(string, real)>) {
    && (key in table <==> key != "" && hits != [])
    && (key in table ==> table[key] == Suggested(hits[0].0, TotalWeight(hits), |hits|))
  }

  lemma StoresOne(tt: TextTools, table: SuggestionTable, text: string, weight: real, key: string,
                  hits: seq<(string, real)>)
    requires Stores(table, key, hits)
    ensures Stores(Suggest(tt, table, text, weight), key,
                   hits + if tt.lower(tt.trim(text)) == key then [(text, weight)] else [])
  {
    assert (hits + [(text, weight)])[..|hits|] == hits;
    assert hits + [] == hits;
  }

  lemma {:induction false} StoresAll(tt: TextTools, table: SuggestionTable, texts: seq<string>, weight: real,
                                     key: string, hits: seq<(string, real)>)
    requires Stores(table, key, hits)
    ensures Stores(SuggestAll(tt, table, texts, weight), key, hits + WithWeight(TextsOf(tt, texts, key), weight))
  {
    if texts == [] {
      assert hits + [] == hits;
    } else {
      var init, text := texts[..|texts| - 1], texts[|texts| - 1];
      var more := WithWeight(TextsOf(tt, init, key), weight);
      StoresAll(tt, table, init, weight, key, hits);
      StoresOne(tt, SuggestAll(tt, table, init, weight), text, weight, key, hits + more);
      var last := if tt.lower(tt.trim(text)) == key then [(text, weight)] else [];
      assert WithWeight(TextsOf(tt, texts, key), weight) == more + last;
      ConcatAssociates(hits, more, last);
    }
  }

  /** After any report: a key is stored exactly if some engine suggested a text with it, with the first
      such text, the sum of the weights of the engines that made them, and how many there were. */
  lemma {:induction false} SuggestionsCount(tt: TextTools, w: Weights, report: seq<RunOutcome>, key: string)
    ensures Stores(SuggestionsOf(tt, w, report), key, Hits(tt, w, report, key))
  {
    if report != [] {
      var init, o := report[..|report| - 1], report[|report| - 1];
      SuggestionsCount(tt, w, init, key);
      if o.status.Completed? {
        StoresAll(tt, SuggestionsOf(tt, w, init), o.status.suggestions, WeightOf(w, o.engine), key,
                  Hits(tt, w, init, key));
      } else {
        assert Hits(tt, w, report, key) == Hits(tt, w, init, key);
      }
    }
  }

  /** Every stored suggestion sits under its own key. */
  predicate KeyedByText(tt: TextTools, table: SuggestionTable) {
    forall k :: k in table ==> k == SuggestionKey(tt, table[k].text)
  }

  lemma {:induction false} SuggestAllKeyed(tt: TextTools, table: SuggestionTable, texts: seq<string>, weight: real)
    requires KeyedByText(tt, table)
    ensures KeyedByText(tt, SuggestAll(tt, table, texts, weight))
  {
    if texts != [] { SuggestAllKeyed(tt, table, texts[..|texts| - 1], weight); }
  }

  lemma {:induction false} SuggestionsKeyed(tt: TextTools, w: Weights, report: seq<RunOutcome>)
    ensures KeyedByText(tt, SuggestionsOf(tt, w, report))
  {
    if report != [] {
      var o := report[|report| - 1];
      SuggestionsKeyed(tt, w, report[..|report| - 1]);
      if o.status.Completed? {
        SuggestAllKeyed(tt, SuggestionsOf(tt, w, report[..|report| - 1]), o.status.suggestions, WeightOf(w, o.engine));
      }
    }
  }

  lemma SuggestedOrder(tt: TextTools)
    ensures WeakOrder((a, b) => SuggestedBefore(tt, a, b))
  {
    var less := (a, b) => SuggestedBefore(tt, a, b);
    forall a, b | less(a, b) ensures !less(b, a) { TextTotal(tt.lower(a.text), tt.lower(b.text)); }
    forall a, b, c | !less(a, b) && !less(b, c) ensures !less(a, c) {
      var x, y, z := tt.lower(a.text), tt.lower(b.text), tt.lower(c.text);
      TextTotal(x, y);
      TextTotal(y, z);
      TextTotal(x, z);
      if TextLess(y, x) && TextLess(z, y) { TextTransitive(z, y, x); }
    }
  }

  /** An enumeration of the values of a map, in whatever order the hash map yields them. */
  ghost predicate Enumerates(values: seq<Suggested>, table: SuggestionTable) {
    exists keys: seq<string> ::
      Distinct(keys) && (forall k :: k in keys <==> k in table) && ValuesAt(values, keys, table)
  }

  ghost predicate ValuesAt(values: seq<Suggested>, keys: seq<string>, table: SuggestionTable) {
    |keys| == |values| && forall i :: 0 <= i < |keys| ==> keys[i] in table && values[i] == table[keys[i]]
  }

  function RankSuggestions(tt: TextTools, values: seq<Suggested>): seq<Suggested> {
    SortBy((a, b) => SuggestedBefore(tt, a, b), values)
  }

  lemma EnumerationDistinct(tt: TextTools, table: SuggestionTable, values: seq<Suggested>)
    requires Commute(tt) && KeyedByText(tt, table) && Enumerates(values, table)
    ensures forall i, j :: 0 <= i < j < |values| ==> tt.lower(values[i].text) != tt.lower(values[j].text)
    ensures forall v :: v in values <==> exists k :: k in table && table[k] == v
  {
    var keys :| Distinct(keys) && (forall k :: k in keys <==> k in table) && ValuesAt(values, keys, table);
    forall i, j | 0 <= i < j < |values| ensures tt.lower(values[i].text) != tt.lower(values[j].text) {
      assert keys[i] == tt.trim(tt.lower(values[i].text));
      assert keys[j] == tt.trim(tt.lower(values[j].text));
    }
    forall v ensures v in values <==> exists k :: k in table && table[k] == v {
      if v in values {
        var i :| 0 <= i < |values| && values[i] == v;
        assert keys[i] in table;
      }
      if k :| k in table && table[k] == v {
        assert k in keys;
        var i :| 0 <= i < |keys| && keys[i] == k;
        assert values[i] == v;
      }
    }
  }

  /** The suggestions stand in order: the product of weight and count does not rise, and at one product
      the lower-case text does not go back. */
  ghost predicate SuggestionsRanked(tt: TextTools, s: seq<Suggested>) {
    forall i, j :: 0 <= i < j < |s| ==> SuggestionMayPrecede(tt, s[i], s[j])
  }

  predicate SuggestionMayPrecede(tt: TextTools, a: Suggested, b: Suggested) {
    var x, y := a.weight * a.count as real, b.weight * b.count as real;
    x >= y && (x == y ==> !TextLess(tt.lower(b.text), tt.lower(a.text)))
  }

  lemma NotSuggestedBefore(tt: TextTools, a: Suggested, b: Suggested)
    requires !SuggestedBefore(tt, b, a)
    ensures SuggestionMayPrecede(tt, a, b)
  {
  }

  lemma RankingSorts(tt: TextTools, values: seq<Suggested>)
    ensures multiset(RankSuggestions(tt, values)) == multiset(values)
    ensures SuggestionsRanked(tt, RankSuggestions(tt, values))
  {
    SuggestedOrder(tt);
    var less := (a, b) => SuggestedBefore(tt, a, b);
    SortBySorts(less, values);
    var s := RankSuggestions(tt, values);
    forall i, j | 0 <= i < j < |s| ensures SuggestionMayPrecede(tt, s[i], s[j]) {
      assert !less(s[j], s[i]);
      NotSuggestedBefore(tt, s[i], s[j]);
    }
  }

  /** The suggestion list does not depend on the order in which the hash map yields its values. */
  lemma SuggestionsIgnoreMapOrder(tt: TextTools, table: SuggestionTable, a: seq<Suggested>, b: seq<Suggested>)
    requires Commute(tt) && KeyedByText(tt, table) && Enumerates(a, table) && Enumerates(b, table)
    ensures RankSuggestions(tt, a) == RankSuggestions(tt, b)
  {
    var less := (a, b) => SuggestedBefore(tt, a, b);
    EnumerationDistinct(tt, table, a);
    EnumerationDistinct(tt, table, b);
    forall v ensures v in a <==> v in b {
      assert v in a <==> exists k :: k in table && table[k] == v;
    }
    DistinctSameMembers(a, b);
    SuggestedOrder(tt);
    forall i, j | 0 <= i < |a| && 0 <= j < |a| && a[i] != a[j] ensures less(a[i], a[j]) || less(a[j], a[i]) {
      TextTotal(tt.lower(a[i].text), tt.lower(a[j].text));
    }
    SortIgnoresArrangement(less, a, b);
  }

  // ----- the builder -----

  class ContainerBuilder {
    const h: Heuristics
    const tt: TextTools
    var merged: seq<Merged>
    var byKey: map<string, nat>
    var suggestionRank: SuggestionTable
    var unresponsiveEngines: seq<string>
    ghost var log: seq<Listing>

    constructor (h: Heuristics, tt: TextTools)
      ensures this.h == h && this.tt == tt && Valid()
      ensures log == [] && suggestionRank == map[] && unresponsiveEngines == []
    {
      this.h, this.tt := h, tt;
      merged, byKey, suggestionRank, unresponsiveEngines, log := [], map[], map[], [], [];
    }

    /** The fields are what the listings ingested so far determine. */
    ghost predicate Valid()
      reads this`merged, this`byKey, this`log
    {
      Table(merged, byKey) == Build(h, log)
    }

    method RecordEnginePosition(index: nat, engine: string, rank: nat)
      requires index < |merged|
      modifies this`merged
      ensures merged == old(merged)[index := RecordPosition(old(merged[index]), engine, rank)]
    {
      var m := merged[index];
      var i := IndexOf(m.engines, engine);
      if i < |m.engines| {
        merged := merged[index := m.(result := KeepBest(m.result, i, rank))];
        return;
      }
      var engines := m.engines + [engine];
      merged := merged[index := Merged(SetEngines(PushPosition(m.result, rank), engines), engines)];
    }

    method PushNew(engine: string, result: Result, rank: nat)
      modifies this`merged
      ensures merged == old(merged) + [NewEntry(Listing(engine, rank, result))]
    {
      var r := if result.Page? then result.(positions := [rank]) else result;
      merged := merged + [Merged(SetEngines(r, [engine]), [engine])];
    }

    method MergeMain(engine: string, result: Result, rank: nat)
      requires Valid()
      modifies this`merged, this`byKey, this`log
      ensures Valid() && log == old(log) + [Listing(engine, rank, result)]
    {
      ghost var t := Build(h, log);
      log := log + [Listing(engine, rank, result)];
      assert log[..|log| - 1] == old(log);
      var key := KeyOf(h, result);
      if key.Some? && key.value in byKey {
        var existing := byKey[key.value];
        merged := merged[existing := merged[existing].(result := UpgradeContent(h, merged[existing].result, result))];
        RecordEnginePosition(existing, engine, rank);
      } else {
        if key.Some? { byKey := byKey[key.value := |merged|]; }
        PushNew(engine, result, rank);
      }
    }

    method IngestResults(engine: string, results: seq<Result>)
      requires Valid()
      modifies this`merged, this`byKey, this`log
      ensures Valid() && log == old(log) + ListingsOf(engine, results)
    {
      for idx := 0 to |results|
        invariant Valid() && log == old(log) + ListingsOf(engine, results[..idx])
      {
        MergeMain(engine, EnsureEngine(results[idx], engine), idx + 1);
        ListingsSnoc(engine, results, idx);
      }
      assert results[..|results|] == results;
    }

    method IngestSuggestions(suggestions: seq<string>, engineWeight: real)
      modifies this`suggestionRank
      ensures suggestionRank == SuggestAll(tt, old(suggestionRank), suggestions, engineWeight)
    {
      for i := 0 to |suggestions|
        invariant suggestionRank == SuggestAll(tt, old(suggestionRank), suggestions[..i], engineWeight)
      {
        assert suggestions[..i + 1][..i] == suggestions[..i];
        var text := suggestions[i];
        var key := SuggestionKey(tt, text);
        if key == "" { continue; }
        if key in suggestionRank {
          var s := suggestionRank[key];
          suggestionRank := suggestionRank[key := Suggested(s.text, s.weight + engineWeight, s.count + 1)];
        } else {
          suggestionRank := suggestionRank[key := Suggested(text, engineWeight, 1)];
        }
      }
      assert suggestions[..|suggestions|] == suggestions;
    }

    method Ingest(engine: string, results: seq<Result>, suggestions: seq<string>, w: Weights)
      requires Valid()
      modifies this`merged, this`byKey, this`log, this`suggestionRank
      ensures Valid() && log == old(log) + ListingsOf(engine, results)
      ensures suggestionRank == SuggestAll(tt, old(suggestionRank), suggestions, WeightOf(w, engine))
    {
      IngestResults(engine, results);
      IngestSuggestions(suggestions, WeightOf(w, engine));
    }

    method AddUnresponsive(engine: string)
      modifies this`unresponsiveEngines
      ensures unresponsiveEngines == old(unresponsiveEngines) + [engine]
    {
      unresponsiveEngines := unresponsiveEngines + [engine];
    }

    /** The values of the suggestion map, in an order nobody promises. */
    method SuggestionValues() returns (values: seq<Suggested>)
      ensures Enumerates(values, suggestionRank)
    {
      values := [];
      ghost var keys: seq<string> := [];
      var remaining := suggestionRank.Keys;
      while remaining != {}
        invariant Distinct(keys) && remaining <= suggestionRank.Keys
        invariant forall k :: k in keys <==> k in suggestionRank.Keys - remaining
        invariant ValuesAt(values, keys, suggestionRank)
        decreases |remaining|
      {
        var k :| k in remaining;
        DistinctSnoc(keys, k);
        remaining, values, keys := remaining - {k}, values + [suggestionRank[k]], keys + [k];
      }
    }

    method Finish(w: Weights, query: string) returns (results: seq<Result>, suggestions: seq<Suggested>)
      requires Valid()
      ensures results == FinalResults(h, Build(h, log), w, query) && Ranked(results)
      ensures exists values :: Enumerates(values, suggestionRank) && suggestions == RankSuggestions(tt, values)
      ensures SuggestionsRanked(tt, suggestions)
    {
      var scored: seq<Result> := [];
      for i := 0 to |merged|
        invariant scored == Scored(h, Build(h, log), w, query)[..i]
      {
        var score := ComputeScore(h, merged[i], w, query);
        scored := scored + [SetScore(merged[i].result, score)];
      }
      assert scored == Scored(h, Build(h, log), w, query);
      results := SortBy(Before, scored);
      FinishSorts(h, Build(h, log), w, query);
      var values := SuggestionValues();
      suggestions := RankSuggestions(tt, values);
      RankingSorts(tt, values);
    }
  }

  lemma DistinctSnoc(s: seq<string>, x: string)
    requires Distinct(s) && x !in s
    ensures Distinct(s + [x])
  {
  }

  lemma ListingsSnoc(engine: string, results: seq<Result>, i: nat)
    requires i < |results|
    ensures ListingsOf(engine, results[..i + 1])
            == ListingsOf(engine, results[..i]) + [Listing(engine, i + 1, EnsureEngine(results[i], engine))]
  {
  }

  /** The fold over a whole report. */
  method AggregateQuery(h: Heuristics, tt: TextTools, report: seq<RunOutcome>, w: Weights, query: string)
    returns (results: seq<Result>, suggestions: seq<Suggested>, unresponsive: seq<string>)
    ensures results == FinalResults(h, Build(h, LogOf(report)), w, query) && Ranked(results)
    ensures exists values ::
              Enumerates(values, SuggestionsOf(tt, w, report)) && suggestions == RankSuggestions(tt, values)
    ensures SuggestionsRanked(tt, suggestions)
    ensures unresponsive == Unresponsive(report)
  {
    var builder := new ContainerBuilder(h, tt);
    for i := 0 to |report|
      invariant builder.Valid() && fresh(builder) && builder.h == h && builder.tt == tt
      invariant builder.log == LogOf(report[..i])
      invariant builder.suggestionRank == SuggestionsOf(tt, w, report[..i])
      invariant builder.unresponsiveEngines == Unresponsive(report[..i])
    {
      assert report[..i + 1][..i] == report[..i];
      match report[i].status
      case Completed(rs, ss) => builder.Ingest(report[i].engine, rs, ss, w);
      case NoResults(_) => builder.AddUnresponsive(report[i].engine);
    }
    assert report[..|report|] == report;
    results, suggestions := builder.Finish(w, query);
    unresponsive := builder.unresponsiveEngines;
  }

  // ----- permuting a report -----

  lemma LogSnoc(report: seq<RunOutcome>, o: RunOutcome)
    ensures LogOf(report + [o]) == LogOf(report) + AnswerOf(o)
  {
    assert (report + [o])[..|report|] == report;
  }

  lemma {:induction false} LogConcat(a: seq<RunOutcome>, b: seq<RunOutcome>)
    ensures LogOf(a + b) == LogOf(a) + LogOf(b)
    decreases |b|
  {
    if b == [] {
      assert a + b == a;
    } else {
      InitOfConcat(a, b);
      LogConcat(a, b[..|b| - 1]);
      ConcatAssociates(LogOf(a), LogOf(b[..|b| - 1]), AnswerOf(b[|b| - 1]));
    }
  }

  /** Where one outcome stands does not matter to the multiset of listings. */
  lemma LogWithout(before: seq<RunOutcome>, o: RunOutcome, after: seq<RunOutcome>)
    ensures multiset(LogOf(before + [o] + after)) == multiset(LogOf(before + after)) + multiset(AnswerOf(o))
  {
    LogConcat(before, after);
    LogConcat(before + [o], after);
    LogSnoc(before, o);
  }

  /** Permuting the outcomes of a report permutes its listings. */
  lemma {:induction false} PermutedReport(a: seq<RunOutcome>, b: seq<RunOutcome>)
    requires multiset(a) == multiset(b)
    ensures multiset(LogOf(a)) == multiset(LogOf(b)) && SameListings(LogOf(a), LogOf(b))
  {
    if a == [] {
      assert |multiset(b)| == 0;
    } else {
      var o := a[|a| - 1];
      var before, after := LastElsewhere(a, b);
      PermutedReport(a[..|a| - 1], before + after);
      LogWithout(before, o, after);
    }
    MultisetMembers(LogOf(a), LogOf(b));
  }

  lemma MultisetMembers(a: seq<Listing>, b: seq<Listing>)
    requires multiset(a) == multiset(b)
    ensures SameListings(a, b)
  {
    forall l ensures l in a <==> l in b { assert l in multiset(a) <==> l in multiset(b); }
  }

  /** Aggregating a permuted report gives every page the same engines and, if its listings agree on
      the priority and the query has no search term, the same score. */
  lemma AggregateIgnoresOrder(h: Heuristics, a: seq<RunOutcome>, b: seq<RunOutcome>, w: Weights, query: string,
                              key: string)
    requires multiset(a) == multiset(b) && key in Build(h, LogOf(a)).byKey
    ensures key in Build(h, LogOf(b)).byKey
    ensures (set e | e in EntryFor(h, LogOf(a), key).engines) == (set e | e in EntryFor(h, LogOf(b), key).engines)
    ensures PriorityAgrees(h, LogOf(a)) && Blank(h, query) ==>
              ScoreOf(h, EntryFor(h, LogOf(a), key), w, query) == ScoreOf(h, EntryFor(h, LogOf(b), key), w, query)
  {
    PermutedReport(a, b);
    ScoreIgnoresArrival(h, LogOf(a), LogOf(b), w, query, key);
  }
}
