/** The two flatteners of the bang JSON: `flatten_bang_trie` in zoeken/zoeken-data/src/lib.rs fills
    a trie at run time, its namesake in zoeken/zoeken-data/build.rs fills an ordered map at build
    time. An object's members are listed in the order the JSON map yields them. */
module BangFlatten {
  import opened Ordering
  import opened Wrappers
  import opened BangIndex

  datatype Json = Text(value: string) | Object(members: seq<Member>) | Scalar

  datatype Member = Member(key: string, value: Json)

  const LEAF_KEY: string := ['\U{10}']

  const RANK_SEP: char := '\U{1}'

  // ----- definitions -----

  /** `str::parse::<i32>`: an optional sign, at least one digit, in range. */
  function ParseI32(s: string): Option<int> {
    var negative := s != "" && s[0] == '-';
    var digits := if s != "" && (s[0] == '-' || s[0] == '+') then s[1..] else s;
    if digits == "" then None
    else match DigitsValue(digits)
         case None => None
         case Some(v) =>
           var n := if negative then -v else v;
           if -0x8000_0000 <= n < 0x8000_0000 then Some(n) else None
  }

  /** A written number is itself, with either sign in front or none, if it fits 32 bits; */
  lemma ParseOfNumber(n: int)
    requires n >= 0
    ensures var d := Decimal(n);
            && ParseI32(d) == ParseI32("+" + d) == (if n < 0x8000_0000 then Some(n) else None)
            && ParseI32("-" + d) == if n <= 0x8000_0000 then Some(-n) else None
  {
    DecimalValue(n);
    DigitsIff(Decimal(n));
    ParseOfDigits(Decimal(n), n);
  }

  lemma ParseOfDigits(d: string, n: int)
    requires d != "" && DigitsValue(d) == Some(n) && '0' <= d[0] <= '9' && n >= 0
    ensures ParseI32(d) == ParseI32("+" + d) == (if n < 0x8000_0000 then Some(n) else None)
    ensures ParseI32("-" + d) == if n <= 0x8000_0000 then Some(-n) else None
  {
    assert ("+" + d)[1..] == d && ("-" + d)[1..] == d;
  }

  /** and only a text of digits, with a sign in front or none, is a number at all. */
  lemma ParseTakesDigits(s: string)
    ensures ParseI32(s).Some? ==>
              && -0x8000_0000 <= ParseI32(s).value < 0x8000_0000
              && exists sign, digits :: s == sign + digits && sign in {"", "+", "-"} && digits != ""
                                        && forall i :: 0 <= i < |digits| ==> '0' <= digits[i] <= '9'
  {
    if ParseI32(s).Some? {
      var n := if s[0] in {'+', '-'} then 1 else 0;
      DigitsIff(s[n..]);
      assert s == s[..n] + s[n..] && (n == 1 ==> s[..n] == [s[0]]);
    }
  }

  /** The run-time reading of a definition: an absent or empty rank is 0. */
  function ParseAtRunTime(def: string): Entry {
    var (url, tail) := SplitOnce(def, RANK_SEP);
    var rankText := if tail.Some? then tail.value else "";
    var rank := if rankText == "" then 0
                else match ParseI32(rankText) case Some(n) => n case None => 0;
    Entry(url, rank)
  }

  /** The build-time reading: whatever does not parse is the default rank. */
  function ParseAtBuildTime(def: string): Entry {
    var (url, tail) := SplitOnce(def, RANK_SEP);
    var parsed := if tail.Some? then ParseI32(tail.value) else None;
    Entry(url, match parsed case Some(n) => n case None => 0)
  }

  lemma ReadingsAgree(def: string)
    ensures ParseAtRunTime(def) == ParseAtBuildTime(def)
  {
  }

  /** What a definition says, split at the first separator. */
  lemma ReadingMeans(url: string, rankText: string)
    requires RANK_SEP !in url
    ensures ParseAtBuildTime(url + [RANK_SEP] + rankText)
            == Entry(url, match ParseI32(rankText) case Some(n) => n case None => 0)
    ensures ParseAtBuildTime(url) == Entry(url, 0)
  {
    SplitAtFirst(url, RANK_SEP, rankText);
  }

  // ----- the paths of a JSON trie -----

  datatype Path = Path(token: string, def: string)

  /** Every definition in the trie with the token its path spells, in traversal order. */
  function Paths(node: Json, prefix: string): seq<Path>
    decreases node, 0
  {
    match node
    case Text(def) => [Path(prefix, def)]
    case Object(members) => MemberPaths(members, prefix)
    case Scalar => []
  }

  function MemberPaths(members: seq<Member>, prefix: string): seq<Path>
    decreases members, 1
  {
    if members == [] then []
    else
      var m := members[0];
      (if m.key == LEAF_KEY then (if m.value.Text? then [Path(prefix, m.value.value)] else [])
       else Paths(m.value, prefix + m.key))
      + MemberPaths(members[1..], prefix)
  }

  /** Following `keys` from member to member leads to the definition: a text, or the leaf text of an
      object. */
  ghost predicate Spells(node: Json, keys: seq<string>, def: string)
    decreases |keys|, 1
  {
    match node
    case Text(text) => keys == [] && text == def
    case Object(members) => exists m :: m in members && MemberSpells(m, keys, def)
    case Scalar => false
  }

  ghost predicate MemberSpells(m: Member, keys: seq<string>, def: string)
    decreases |keys|, 0
  {
    if keys == [] then m.key == LEAF_KEY && m.value == Text(def)
    else m.key == keys[0] && m.key != LEAF_KEY && Spells(m.value, keys[1..], def)
  }

  /** Keys that lead from the node to the definition of `p` spell its token after the prefix. */
  ghost predicate Reaches(node: Json, prefix: string, p: Path) {
    exists keys :: Spells(node, keys, p.def) && p.token == prefix + Concat(keys)
  }

  ghost predicate MemberReaches(m: Member, prefix: string, p: Path) {
    exists keys :: MemberSpells(m, keys, p.def) && p.token == prefix + Concat(keys)
  }

  /** The paths are the definitions that keys lead to, and the token of a path is its keys in a row. */
  lemma {:induction false} PathsSpell(node: Json, prefix: string, p: Path)
    ensures p in Paths(node, prefix) <==> Reaches(node, prefix, p)
    decreases node, 0
  {
    match node
    case Text(def) =>
      assert Spells(node, [], def) && prefix + Concat([]) == prefix;
    case Object(members) =>
      MemberPathsSpell(members, prefix, p);
      if m :| m in members && MemberReaches(m, prefix, p) {
        var keys :| MemberSpells(m, keys, p.def) && p.token == prefix + Concat(keys);
        assert Spells(node, keys, p.def);
      }
    case Scalar =>
  }

  lemma {:induction false} MemberPathsSpell(members: seq<Member>, prefix: string, p: Path)
    ensures p in MemberPaths(members, prefix) <==> exists m :: m in members && MemberReaches(m, prefix, p)
    decreases members, 1
  {
    if members != [] {
      var m := members[0];
      MemberPathsSpell(members[1..], prefix, p);
      FirstMember(members, prefix);
      if m.key != LEAF_KEY {
        PathsSpell(m.value, prefix + m.key, p);
        InnerReaches(m, prefix, p);
      } else {
        LeafReaches(m, prefix, p);
      }
      assert forall x :: x in members <==> x == m || x in members[1..];
    }
  }

  lemma LeafReaches(m: Member, prefix: string, p: Path)
    requires m.key == LEAF_KEY
    ensures MemberReaches(m, prefix, p) <==> m.value.Text? && p == Path(prefix, m.value.value)
  {
    assert prefix + Concat([]) == prefix;
    if m.value == Text(p.def) { assert MemberSpells(m, [], p.def); }
  }

  lemma InnerReaches(m: Member, prefix: string, p: Path)
    requires m.key != LEAF_KEY
    ensures MemberReaches(m, prefix, p) <==> Reaches(m.value, prefix + m.key, p)
  {
    if keys :| MemberSpells(m, keys, p.def) && p.token == prefix + Concat(keys) {
      FirstKey(prefix, m.key, keys[1..]);
      assert keys == [m.key] + keys[1..];
    }
    if keys :| Spells(m.value, keys, p.def) && p.token == prefix + m.key + Concat(keys) {
      FirstKey(prefix, m.key, keys);
      assert ([m.key] + keys)[1..] == keys;
      assert MemberSpells(m, [m.key] + keys, p.def);
    }
  }

  lemma FirstKey(prefix: string, key: string, keys: seq<string>)
    ensures prefix + Concat([key] + keys) == prefix + key + Concat(keys)
  {
    assert ([key] + keys)[1..] == keys;
  }

  /** The last definition spelt by `token`. */
  function LastDef(paths: seq<Path>, token: string): Option<string> {
    if paths == [] then None
    else if paths[|paths| - 1].token == token then Some(paths[|paths| - 1].def)
    else LastDef(paths[..|paths| - 1], token)
  }

  /** Storing the definitions one after the other. */
  function Store(m: map<string, Entry>, paths: seq<Path>): map<string, Entry> {
    if paths == [] then m
    else Store(m, paths[..|paths| - 1])[paths[|paths| - 1].token := ParseAtBuildTime(paths[|paths| - 1].def)]
  }

  /** A stored token has the entry of its last definition; when two paths spell one token, the
      later wins. */
  lemma {:induction false} StoreKeepsLast(paths: seq<Path>, token: string)
    ensures token in Store(map[], paths) <==> LastDef(paths, token).Some?
    ensures token in Store(map[], paths) ==> Store(map[], paths)[token] == ParseAtBuildTime(LastDef(paths, token).value)
  {
    if paths != [] { StoreKeepsLast(paths[..|paths| - 1], token); }
  }

  lemma {:induction false} StoreConcat(m: map<string, Entry>, a: seq<Path>, b: seq<Path>)
    ensures Store(m, a + b) == Store(Store(m, a), b)
  {
    if b == [] {
      assert a + b == a;
    } else {
      StoreConcat(m, a, b[..|b| - 1]);
      assert (a + b)[..|a + b| - 1] == a + b[..|b| - 1];
    }
  }

  // ----- run time: into a trie -----

  method FlattenAtRunTime(node: Json, prefix: string, trie: BangTrie)
    requires trie.Valid() && trie.staticMap.None?
    modifies trie
    ensures trie.Valid() && trie.Contents() == Store(old(trie.Contents()), Paths(node, prefix))
    decreases node, 0
  {
    match node
    case Text(def) => InsertDefinition(prefix, def, trie);
    case Object(members) => FlattenMembersAtRunTime(members, prefix, trie);
    case Scalar =>
  }

  method InsertDefinition(token: string, def: string, trie: BangTrie)
    requires trie.Valid() && trie.staticMap.None?
    modifies trie
    ensures trie.Valid() && trie.Contents() == Store(old(trie.Contents()), [Path(token, def)])
  {
    ReadingsAgree(def);
    trie.Insert(token, ParseAtRunTime(def));
    StoreOne(old(trie.Contents()), Path(token, def));
  }

  lemma StoreOne(m: map<string, Entry>, p: Path)
    ensures Store(m, [p]) == m[p.token := ParseAtBuildTime(p.def)]
  {
    assert [p][..0] == [];
  }

  method FlattenMembersAtRunTime(members: seq<Member>, prefix: string, trie: BangTrie)
    requires trie.Valid() && trie.staticMap.None?
    modifies trie
    ensures trie.Valid() && trie.Contents() == Store(old(trie.Contents()), MemberPaths(members, prefix))
    decreases members, 1
  {
    if members == [] { return; }
    var m := members[0];
    ghost var before := trie.Contents();
    ghost var head := MemberPaths(members[..1], prefix);
    FirstMember(members, prefix);
    if m.key == LEAF_KEY {
      if m.value.Text? { InsertDefinition(prefix, m.value.value, trie); }
    } else {
      FlattenAtRunTime(m.value, prefix + m.key, trie);
    }
    assert trie.Contents() == Store(before, head);
    FlattenMembersAtRunTime(members[1..], prefix, trie);
    StoreConcat(before, head, MemberPaths(members[1..], prefix));
  }

  lemma FirstMember(members: seq<Member>, prefix: string)
    requires members != []
    ensures var m := members[0];
            && MemberPaths(members[..1], prefix)
               == (if m.key == LEAF_KEY then (if m.value.Text? then [Path(prefix, m.value.value)] else [])
                   else Paths(m.value, prefix + m.key))
            && MemberPaths(members, prefix) == MemberPaths(members[..1], prefix) + MemberPaths(members[1..], prefix)
  {
    assert members[..1][1..] == [];
    assert MemberPaths([], prefix) == [];
  }

  // ----- build time: into an ordered map -----

  method FlattenAtBuildTime(node: Json, prefix: string, output: map<string, Entry>) returns (r: map<string, Entry>)
    ensures r == Store(output, Paths(node, prefix))
    decreases node, 0
  {
    match node
    case Text(def) =>
      StoreOne(output, Path(prefix, def));
      return output[prefix := ParseAtBuildTime(def)];
    case Object(members) =>
      r := FlattenMembersAtBuildTime(members, prefix, output);
    case Scalar =>
      return output;
  }

  method FlattenMembersAtBuildTime(members: seq<Member>, prefix: string, output: map<string, Entry>)
    returns (r: map<string, Entry>)
    ensures r == Store(output, MemberPaths(members, prefix))
    decreases members, 1
  {
    r := output;
    if members == [] { return; }
    var m := members[0];
    ghost var head := MemberPaths(members[..1], prefix);
    FirstMember(members, prefix);
    if m.key == LEAF_KEY {
      if m.value.Text? {
        r := r[prefix := ParseAtBuildTime(m.value.value)];
        StoreOne(output, Path(prefix, m.value.value));
      }
    } else {
      r := FlattenAtBuildTime(m.value, prefix + m.key, r);
    }
    assert r == Store(output, head);
    r := FlattenMembersAtBuildTime(members[1..], prefix, r);
    StoreConcat(output, head, MemberPaths(members[1..], prefix));
  }

  /** The keys of an ordered map, as iteration lists them. */
  method SortedKeys(m: map<string, Entry>) returns (tokens: seq<string>)
    ensures TokensOf(tokens, m)
  {
    var keys: seq<string> := [];
    var remaining := m.Keys;
    while remaining != {}
      invariant Distinct(keys) && remaining <= m.Keys
      invariant forall k :: k in keys <==> k in m.Keys - remaining
      decreases |remaining|
    {
      var k :| k in remaining;
      assert k !in keys;
      keys, remaining := keys + [k], remaining - {k};
    }
    tokens := SortBy(TextLess, keys);
    SortedTokensAscend(keys, tokens);
  }

  lemma TextOrder()
    ensures WeakOrder(TextLess)
  {
    forall a, b | TextLess(a, b) ensures !TextLess(b, a) { TextTotal(a, b); }
    forall a, b, c | !TextLess(a, b) && !TextLess(b, c) ensures !TextLess(a, c) {
      TextTotal(a, b);
      TextTotal(b, c);
      TextTotal(a, c);
      if TextLess(b, a) && TextLess(c, b) { TextTransitive(c, b, a); }
    }
  }

  lemma SortedTokensAscend(keys: seq<string>, tokens: seq<string>)
    requires Distinct(keys) && tokens == SortBy(TextLess, keys)
    ensures Ascending(tokens) && forall t :: t in tokens <==> t in keys
  {
    TextOrder();
    SortBySorts(TextLess, keys);
    forall t ensures t in tokens <==> t in keys { assert t in multiset(tokens) <==> t in multiset(keys); }
    forall i, j | 0 <= i < j < |tokens| ensures TextLess(tokens[i], tokens[j]) {
      TextTotal(tokens[i], tokens[j]);
      if tokens[i] == tokens[j] { TwiceInMultiset(tokens, i, j); DistinctCount(keys, tokens[i]); }
    }
  }

  lemma TwiceInMultiset(s: seq<string>, i: nat, j: nat)
    requires i < j < |s| && s[i] == s[j]
    ensures multiset(s)[s[i]] >= 2
  {
    assert s == s[..i] + [s[i]] + s[i + 1..j] + [s[j]] + s[j + 1..];
  }

  // ----- the two indexes agree -----

  /** The index loaded from disk. */
  method LoadBangs(json: Json) returns (trie: BangTrie)
    ensures trie.Valid() && trie.staticMap.None? && trie.Contents() == Store(map[], Paths(json, ""))
  {
    trie := new BangTrie.New();
    FlattenAtRunTime(json, "", trie);
  }

  /** The index compiled into the program. */
  method PrecompileBangs(json: Json) returns (trie: BangTrie)
    ensures trie.Valid() && trie.staticMap.Some? && trie.inserted == map[]
    ensures trie.Contents() == Store(map[], Paths(json, ""))
  {
    var m := FlattenAtBuildTime(json, "", map[]);
    var tokens := SortedKeys(m);
    trie := new BangTrie.FromStatic(m, tokens);
  }

  /** For every JSON trie the two indexes have the same size, resolve every token alike and suggest
      the same ranked list for every query and limit. */
  method IndexesAgree(json: Json, token: string, query: string, limit: nat, fold: string -> string)
    returns (loaded: Option<Entry>, compiled: Option<Entry>,
             suggested: seq<Match>, suggested': seq<Match>, size: nat, size': nat)
    ensures loaded == compiled && suggested == suggested' && size == size'
    ensures loaded == match LastDef(Paths(json, ""), token)
                      case Some(def) => Some(ParseAtBuildTime(def))
                      case None => None
    ensures size == |set p | p in Paths(json, "") :: p.token|
  {
    var a := LoadBangs(json);
    var b := PrecompileBangs(json);
    StoreKeepsLast(Paths(json, ""), token);
    loaded := a.Resolve(token);
    compiled := b.Resolve(token);
    suggested := a.Suggest(query, limit, fold);
    suggested' := b.Suggest(query, limit, fold);
    SuggestionListUnique(a.Contents(), fold(query), limit, suggested, suggested');
    size, size' := a.Len(), b.Len();
    StoredTokens(Paths(json, ""));
    assert |a.Contents()| == |a.Contents().Keys|;
  }

  lemma {:induction false} StoredTokens(paths: seq<Path>)
    ensures Store(map[], paths).Keys == set p | p in paths :: p.token
  {
    if paths != [] {
      var init, last := paths[..|paths| - 1], paths[|paths| - 1];
      StoredTokens(init);
      assert paths == init + [last];
      forall t ensures t in Store(map[], paths).Keys <==> t in (set p | p in paths :: p.token) {
        if t in (set p | p in paths :: p.token) {
          var p :| p in paths && p.token == t;
          assert p in init || p == last;
        }
        if t in (set p | p in init :: p.token) {
          var p :| p in init && p.token == t;
          assert p in paths;
        }
        assert last in paths;
      }
    }
  }
}
