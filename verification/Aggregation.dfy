/** The result builder of zoeken/zoeken-search/src/aggregation.rs: many engines' result lists
    become one list of deduplicated, scored entries.

    The canonical merge key, the content heuristic and the relevance factor are parameters here;
    module MergeKey looks inside the first. Scores are real numbers. */
module Aggregation {
  import opened Ordering
  import opened Wrappers

  /** A result as far as merging and ranking see it. `main` marks the one variant that carries a
      list of engines; `Bare` stands for the variants without a URL. */
  datatype Result =
    | Page(main: bool, url: string, normalizedUrl: string, title: string, content: string,
           priority: string, engine: string, engines: seq<string>, positions: seq<nat>, score: real)
    | Bare(text: string)

  datatype Merged = Merged(result: Result, engines: seq<string>)

  /** One result as an engine listed it, at a one-based rank. */
  datatype Listing = Listing(engine: string, rank: nat, result: Result)

  datatype Table = Table(merged: seq<Merged>, byKey: map<string, nat>)

  /** The library and heuristic functions the builder calls. */
  datatype Heuristics = Heuristics(
    canon: string -> string,
    lowQuality: string -> bool,
    relevance: (string, string, string, string) -> real)  // of query, title, content and URL

  function KeyOf(h: Heuristics, r: Result): Option<string> {
    match r
    case Bare(_) => None
    case Page(_, url, normalized, _, _, _, _, _, _, _) =>
      if normalized != "" then Some(h.canon(normalized))
      else if url != "" then Some(h.canon(url))
      else None
  }

  // ----- one merge step -----

  function EnsureEngine(r: Result, engine: string): Result {
    if r.Page? && r.engine == "" then r.(engine := engine) else r
  }

  function UpgradeContent(h: Heuristics, existing: Result, incoming: Result): Result {
    if !existing.Page? || !incoming.Page? || !h.lowQuality(existing.content) || h.lowQuality(incoming.content)
    then existing
    else existing.(content := incoming.content,
                   title := if incoming.title != "" then incoming.title else existing.title)
  }

  function SetEngines(r: Result, engines: seq<string>): Result {
    if r.Page? && r.main then r.(engines := engines) else r
  }

  function IndexOf(s: seq<string>, x: string): (i: nat)
    ensures i <= |s| && (i < |s| ==> s[i] == x) && x !in s[..i]
  {
    if s == [] || s[0] == x then 0 else 1 + IndexOf(s[1..], x)
  }

  function PushPosition(r: Result, rank: nat): Result {
    if r.Page? then r.(positions := r.positions + [rank]) else r
  }

  function KeepBest(r: Result, i: nat, rank: nat): Result {
    if r.Page? && i < |r.positions| then r.(positions := r.positions[i := Min(r.positions[i], rank)]) else r
  }

  function RecordPosition(m: Merged, engine: string, rank: nat): Merged {
    var i := IndexOf(m.engines, engine);
    if i < |m.engines| then m.(result := KeepBest(m.result, i, rank))
    else
      var engines := m.engines + [engine];
      Merged(SetEngines(PushPosition(m.result, rank), engines), engines)
  }

  function NewEntry(l: Listing): Merged {
    var r := if l.result.Page? then l.result.(positions := [l.rank]) else l.result;
    Merged(SetEngines(r, [l.engine]), [l.engine])
  }

  function AddTo(h: Heuristics, m: Merged, l: Listing): Merged {
    RecordPosition(m.(result := UpgradeContent(h, m.result, l.result)), l.engine, l.rank)
  }

  predicate InRange(t: Table) {
    forall k :: k in t.byKey ==> t.byKey[k] < |t.merged|
  }

  function MergeStep(h: Heuristics, t: Table, l: Listing): (r: Table)
    requires InRange(t)
    ensures InRange(r)
  {
    var key := KeyOf(h, l.result);
    if key.Some? && key.value in t.byKey then
      var i := t.byKey[key.value];
      t.(merged := t.merged[i := AddTo(h, t.merged[i], l)])
    else
      Table(t.merged + [NewEntry(l)], if key.Some? then t.byKey[key.value := |t.merged|] else t.byKey)
  }

  function Build(h: Heuristics, log: seq<Listing>): (t: Table)
    ensures InRange(t)
  {
    if log == [] then Table([], map[])
    else MergeStep(h, Build(h, log[..|log| - 1]), log[|log| - 1])
  }

  // ----- what the table says about the listings -----

  predicate Lists(h: Heuristics, l: Listing, key: string) { KeyOf(h, l.result) == Some(key) }

  /** `engine` listed the page `key`. */
  ghost predicate Listed(h: Heuristics, log: seq<Listing>, key: string, engine: string) {
    exists j :: 0 <= j < |log| && Lists(h, log[j], key) && log[j].engine == engine
  }

  /** `rank` is the smallest rank at which `engine` listed `key`. */
  ghost predicate IsBest(h: Heuristics, log: seq<Listing>, key: string, engine: string, rank: nat) {
    && (exists j :: 0 <= j < |log| && Lists(h, log[j], key) && log[j].engine == engine && log[j].rank == rank)
    && (forall j :: 0 <= j < |log| && Lists(h, log[j], key) && log[j].engine == engine ==> rank <= log[j].rank)
  }

  /** Fields that an entry keeps from the first result it was made of. */
  predicate SameIdentity(a: Result, b: Result) {
    a.Page? && b.Page? && a.main == b.main && a.url == b.url && a.normalizedUrl == b.normalizedUrl
    && a.priority == b.priority && a.engine == b.engine
  }

  /** `r` has the identity of a listing of its key, and a good content if one of them has. */
  ghost predicate ShowsListings(h: Heuristics, log: seq<Listing>, key: string, r: Result)
    requires r.Page?
  {
    && (exists j :: 0 <= j < |log| && Lists(h, log[j], key) && SameIdentity(r, log[j].result))
    && (h.lowQuality(r.content) <==>
          forall j :: 0 <= j < |log| && Lists(h, log[j], key) ==> h.lowQuality(log[j].result.content))
  }

  /** An entry against the listings of its key. */
  ghost predicate EntryOk(h: Heuristics, log: seq<Listing>, key: string, m: Merged) {
    && m.result.Page?
    && Distinct(m.engines)
    && |m.result.positions| == |m.engines| > 0
    && (forall e :: e in m.engines <==> Listed(h, log, key, e))
    && (forall i :: 0 <= i < |m.engines| ==> IsBest(h, log, key, m.engines[i], m.result.positions[i]))
    && (m.result.main ==> m.result.engines == m.engines)
    && ShowsListings(h, log, key, m.result)
  }

  function KeylessCount(h: Heuristics, log: seq<Listing>): nat {
    if log == [] then 0
    else KeylessCount(h, log[..|log| - 1]) + if KeyOf(h, log[|log| - 1].result).None? then 1 else 0
  }

  predicate Injective(t: Table) {
    forall k, k' :: k in t.byKey && k' in t.byKey && k != k' ==> t.byKey[k] != t.byKey[k']
  }

  ghost predicate KeysOk(h: Heuristics, log: seq<Listing>, t: Table) {
    forall k :: k in t.byKey <==> exists j :: 0 <= j < |log| && Lists(h, log[j], k)
  }

  ghost predicate EntriesOk(h: Heuristics, log: seq<Listing>, t: Table)
    requires InRange(t)
  {
    forall k :: k in t.byKey ==> EntryOk(h, log, k, t.merged[t.byKey[k]])
  }

  /** Every entry that has a key is the one its key points at; one without came from a listing
      without. */
  ghost predicate Indexed(h: Heuristics, log: seq<Listing>, t: Table) {
    forall i :: 0 <= i < |t.merged| ==>
                  match KeyOf(h, t.merged[i].result)
                  case Some(k) => k in t.byKey && t.byKey[k] == i
                  case None => exists j :: 0 <= j < |log| && KeyOf(h, log[j].result).None?
  }

  /** The table against the whole log. */
  ghost predicate TableOk(h: Heuristics, log: seq<Listing>, t: Table) {
    && InRange(t) && Injective(t)
    && KeysOk(h, log, t)
    && EntriesOk(h, log, t)
    && Indexed(h, log, t)
    && |t.merged| == |t.byKey| + KeylessCount(h, log)
  }

  lemma ListedSnoc(h: Heuristics, log: seq<Listing>, l: Listing, key: string, engine: string)
    ensures Listed(h, log + [l], key, engine) <==>
            Listed(h, log, key, engine) || (Lists(h, l, key) && l.engine == engine)
  {
    var all := log + [l];
    if Listed(h, log, key, engine) {
      var j :| 0 <= j < |log| && Lists(h, log[j], key) && log[j].engine == engine;
      assert all[j] == log[j];
    }
    if Lists(h, l, key) && l.engine == engine { assert all[|log|] == l; }
  }

  lemma BestSnoc(h: Heuristics, log: seq<Listing>, l: Listing, key: string, engine: string, rank: nat)
    requires IsBest(h, log, key, engine, rank)
    ensures IsBest(h, log + [l], key, engine,
                   if Lists(h, l, key) && l.engine == engine then Min(rank, l.rank) else rank)
  {
    var all := log + [l];
    var j :| 0 <= j < |log| && Lists(h, log[j], key) && log[j].engine == engine && log[j].rank == rank;
    assert all[j] == log[j] && all[|log|] == l;
  }

  lemma FirstBest(h: Heuristics, log: seq<Listing>, l: Listing, key: string)
    requires Lists(h, l, key) && !Listed(h, log, key, l.engine)
    ensures IsBest(h, log + [l], key, l.engine, l.rank)
  {
    var all := log + [l];
    assert all[|log|] == l;
    assert forall j :: 0 <= j < |log| && Lists(h, log[j], key) && log[j].engine == l.engine ==>
                         Listed(h, log, key, l.engine);
    assert forall j :: 0 <= j < |log| ==> all[j] == log[j];
  }

  lemma {:induction false} IndexOfFinds(s: seq<string>, x: string)
    ensures IndexOf(s, x) < |s| <==> x in s
  {
    if s != [] { IndexOfFinds(s[1..], x); }
  }

  /** Facts about a log that only one more listing of another key extends. */
  lemma EntryFrame(h: Heuristics, log: seq<Listing>, l: Listing, key: string, m: Merged)
    requires EntryOk(h, log, key, m) && !Lists(h, l, key)
    ensures EntryOk(h, log + [l], key, m)
  {
    var all := log + [l];
    assert all[|log|] == l && forall j :: 0 <= j < |log| ==> all[j] == log[j];
    forall e ensures e in m.engines <==> Listed(h, all, key, e) { ListedSnoc(h, log, l, key, e); }
    forall i | 0 <= i < |m.engines| ensures IsBest(h, all, key, m.engines[i], m.result.positions[i]) {
      BestSnoc(h, log, l, key, m.engines[i], m.result.positions[i]);
    }
    var j :| 0 <= j < |log| && Lists(h, log[j], key) && SameIdentity(m.result, log[j].result);
    assert all[j] == log[j];
  }

  lemma EntryNew(h: Heuristics, log: seq<Listing>, l: Listing, key: string)
    requires Lists(h, l, key)
    requires forall j :: 0 <= j < |log| ==> !Lists(h, log[j], key)
    ensures EntryOk(h, log + [l], key, NewEntry(l))
  {
    var all, m := log + [l], NewEntry(l);
    assert all[|log|] == l && forall j :: 0 <= j < |log| ==> all[j] == log[j];
    forall e ensures e in m.engines <==> Listed(h, all, key, e) { ListedSnoc(h, log, l, key, e); }
    FirstBest(h, log, l, key);
  }

  /** Upgrading the content touches neither identity nor positions. */
  lemma UpgradeKeeps(h: Heuristics, existing: Result, incoming: Result)
    requires existing.Page? && incoming.Page?
    ensures var r := UpgradeContent(h, existing, incoming);
            && r.Page? && SameIdentity(r, existing)
            && r.engines == existing.engines && r.positions == existing.positions
            && (h.lowQuality(r.content) <==> h.lowQuality(existing.content) && h.lowQuality(incoming.content))
  {
  }

  /** Recording a position changes engines and positions only. */
  lemma RecordKeeps(m: Merged, engine: string, rank: nat)
    requires m.result.Page?
    ensures var r := RecordPosition(m, engine, rank).result;
            r.Page? && SameIdentity(r, m.result) && r.content == m.result.content
  {
  }

  lemma EntryRecord(h: Heuristics, log: seq<Listing>, l: Listing, key: string, m: Merged)
    requires Lists(h, l, key) && m.result.Page?
    requires Distinct(m.engines) && |m.result.positions| == |m.engines| > 0
    requires forall e :: e in m.engines <==> Listed(h, log, key, e)
    requires forall i :: 0 <= i < |m.engines| ==> IsBest(h, log, key, m.engines[i], m.result.positions[i])
    requires m.result.main ==> m.result.engines == m.engines
    ensures var r := RecordPosition(m, l.engine, l.rank);
            && r.result.Page?
            && Distinct(r.engines) && |r.result.positions| == |r.engines| > 0
            && (forall e :: e in r.engines <==> Listed(h, log + [l], key, e))
            && (forall i :: 0 <= i < |r.engines| ==> IsBest(h, log + [l], key, r.engines[i], r.result.positions[i]))
            && (r.result.main ==> r.result.engines == r.engines)
  {
    var all, r := log + [l], RecordPosition(m, l.engine, l.rank);
    IndexOfFinds(m.engines, l.engine);
    forall e ensures e in r.engines <==> Listed(h, all, key, e) { ListedSnoc(h, log, l, key, e); }
    forall i | 0 <= i < |r.engines| ensures IsBest(h, all, key, r.engines[i], r.result.positions[i]) {
      if i < |m.engines| {
        BestSnoc(h, log, l, key, m.engines[i], m.result.positions[i]);
      } else {
        FirstBest(h, log, l, key);
      }
    }
  }

  lemma EntryShows(h: Heuristics, log: seq<Listing>, l: Listing, key: string, m: Merged)
    requires EntryOk(h, log, key, m) && Lists(h, l, key)
    ensures AddTo(h, m, l).result.Page? && ShowsListings(h, log + [l], key, AddTo(h, m, l).result)
  {
    var all := log + [l];
    UpgradeKeeps(h, m.result, l.result);
    RecordKeeps(m.(result := UpgradeContent(h, m.result, l.result)), l.engine, l.rank);
    assert all[|log|] == l && forall j :: 0 <= j < |log| ==> all[j] == log[j];
    var j :| 0 <= j < |log| && Lists(h, log[j], key) && SameIdentity(m.result, log[j].result);
    assert all[j] == log[j];
  }

  lemma EntryAdd(h: Heuristics, log: seq<Listing>, l: Listing, key: string, m: Merged)
    requires EntryOk(h, log, key, m) && Lists(h, l, key)
    ensures EntryOk(h, log + [l], key, AddTo(h, m, l))
  {
    UpgradeKeeps(h, m.result, l.result);
    EntryRecord(h, log, l, key, m.(result := UpgradeContent(h, m.result, l.result)));
    EntryShows(h, log, l, key, m);
  }

  lemma EntriesStep(h: Heuristics, log: seq<Listing>, t: Table, l: Listing)
    requires InRange(t) && Injective(t) && KeysOk(h, log, t) && EntriesOk(h, log, t)
    ensures EntriesOk(h, log + [l], MergeStep(h, t, l))
  {
    var t' := MergeStep(h, t, l);
    forall k | k in t'.byKey ensures EntryOk(h, log + [l], k, t'.merged[t'.byKey[k]]) {
      if !Lists(h, l, k) {
        EntryFrame(h, log, l, k, t.merged[t.byKey[k]]);
      } else if k in t.byKey {
        EntryAdd(h, log, l, k, t.merged[t.byKey[k]]);
      } else {
        EntryNew(h, log, l, k);
      }
    }
  }

  lemma KeysStep(h: Heuristics, log: seq<Listing>, t: Table, l: Listing)
    requires InRange(t) && KeysOk(h, log, t)
    ensures KeysOk(h, log + [l], MergeStep(h, t, l))
  {
    var all, t' := log + [l], MergeStep(h, t, l);
    assert all[|log|] == l && forall j :: 0 <= j < |log| ==> all[j] == log[j];
    forall k ensures k in t'.byKey <==> exists j :: 0 <= j < |all| && Lists(h, all[j], k) {
      if k in t.byKey {
        var j :| 0 <= j < |log| && Lists(h, log[j], k);
        assert Lists(h, all[j], k);
      }
    }
  }

  lemma AddKeepsKey(h: Heuristics, m: Merged, l: Listing)
    requires m.result.Page? && l.result.Page?
    ensures KeyOf(h, AddTo(h, m, l).result) == KeyOf(h, m.result)
  {
    UpgradeKeeps(h, m.result, l.result);
    RecordKeeps(m.(result := UpgradeContent(h, m.result, l.result)), l.engine, l.rank);
  }

  lemma IndexedStep(h: Heuristics, log: seq<Listing>, t: Table, l: Listing)
    requires InRange(t) && EntriesOk(h, log, t) && Indexed(h, log, t)
    ensures Indexed(h, log + [l], MergeStep(h, t, l))
  {
    var all, t', key := log + [l], MergeStep(h, t, l), KeyOf(h, l.result);
    assert all[|log|] == l && forall j :: 0 <= j < |log| ==> all[j] == log[j];
    if key.Some? && key.value in t.byKey { AddKeepsKey(h, t.merged[t.byKey[key.value]], l); }
    forall i | 0 <= i < |t'.merged| && KeyOf(h, t'.merged[i].result).None?
      ensures exists j :: 0 <= j < |all| && KeyOf(h, all[j].result).None?
    {
      if i < |t.merged| {
        assert KeyOf(h, t.merged[i].result).None?;
        var j :| 0 <= j < |log| && KeyOf(h, log[j].result).None?;
        assert KeyOf(h, all[j].result).None?;
      } else {
        assert KeyOf(h, all[|log|].result).None?;
      }
    }
  }

  lemma CountStep(h: Heuristics, log: seq<Listing>, t: Table, l: Listing)
    requires InRange(t) && Injective(t) && |t.merged| == |t.byKey| + KeylessCount(h, log)
    ensures var t' := MergeStep(h, t, l);
            Injective(t') && |t'.merged| == |t'.byKey| + KeylessCount(h, log + [l])
  {
    assert (log + [l])[..|log|] == log;
  }

  lemma TableStep(h: Heuristics, log: seq<Listing>, t: Table, l: Listing)
    requires TableOk(h, log, t)
    ensures TableOk(h, log + [l], MergeStep(h, t, l))
  {
    KeysStep(h, log, t, l);
    EntriesStep(h, log, t, l);
    IndexedStep(h, log, t, l);
    CountStep(h, log, t, l);
  }

  /** The builder invariant, after any sequence of listings. */
  lemma {:induction false} BuildOk(h: Heuristics, log: seq<Listing>)
    ensures TableOk(h, log, Build(h, log))
  {
    if log != [] {
      var init, last := log[..|log| - 1], log[|log| - 1];
      assert init + [last] == log;
      BuildOk(h, init);
      var t := Build(h, init);
      assert Build(h, log) == MergeStep(h, t, last);
      TableStep(h, init, t, last);
    }
  }

  lemma EntryIdentity(h: Heuristics, log: seq<Listing>, key: string, m: Merged)
    requires EntryOk(h, log, key, m)
    ensures KeyOf(h, m.result) == Some(key)
  {
    var j :| 0 <= j < |log| && Lists(h, log[j], key) && SameIdentity(m.result, log[j].result);
  }

  /** No two keyed entries share a merge key. */
  lemma EntryKeysDiffer(h: Heuristics, log: seq<Listing>, k: string, k': string)
    requires k in Build(h, log).byKey && k' in Build(h, log).byKey
    ensures KeyOf(h, Build(h, log).merged[Build(h, log).byKey[k]].result) == Some(k)
    ensures Build(h, log).byKey[k] == Build(h, log).byKey[k'] ==> k == k'
  {
    var t := Build(h, log);
    BuildOk(h, log);
    EntryIdentity(h, log, k, t.merged[t.byKey[k]]);
  }
}
