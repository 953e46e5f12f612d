/** The raw query parser of zoeken/zoeken-query/src/lib.rs: every whitespace-separated word of the
    text either changes a setting or belongs to the user's query. Unicode case mapping, the bundled
    engine and bang tables and the building of a redirect URL are parameters. */
module RawQuery {
  import opened Ordering
  import opened Wrappers
  import opened QueryWords

  datatype Data = Data(space: Space, lower: string -> string, upper: string -> string,
                       engines: set<string>, bangs: map<string, string>,
                       redirect: (string, string) -> string)

  const KNOWN_CATEGORIES: seq<string> :=
    ["general", "images", "videos", "news", "map", "music", "it", "science", "files", "social media", "onions",
     "repos", "software wikis", "web", "q&a", "scientific publications", "packages", "lyrics", "movies", "radio",
     "tv", "weather", "apps", "dictionaries", "translate"]

  const U64_LIMIT: nat := 0x1_0000_0000_0000_0000

  datatype Parsed = Parsed(engines: seq<string>, categories: seq<string>, languages: seq<string>,
                           timeout: Option<nat>, externalBang: Option<string>, externalRedirect: Option<string>,
                           specific: bool, toFirstResult: bool, feedback: seq<string>,
                           queryParts: seq<string>, userParts: seq<string>)

  // ----- what one word means -----

  datatype Meaning =
    | Timeout(ms: nat)
    | Language(tag: string)
    | FirstResult
    | Bang(token: string)
    | UnknownBang(token: string)
    | Engine(name: string)
    | Category(name: string)
    | Plain

  function Replace(s: string, from: set<char>, to: char): string {
    seq(|s|, i requires 0 <= i < |s| => if s[i] in from then to else s[i])
  }

  /** Milliseconds: below 100 the amount counts seconds. An amount that does not fit 64 bits is no
      timeout. */
  function TimeoutOf(value: string): Option<nat> {
    if value == "" then None
    else match DigitsValue(value)
         case None => None
         case Some(amount) =>
           if amount < 0 || amount >= U64_LIMIT then None
           else if amount < 100 then Some(1000 * amount)
           else Some(amount)
  }

  function NormalizeTag(d: Data, value: string): string {
    var (lang, region) := SplitOnce(Replace(d.lower(Trim(d.space, value)), {'_'}, '-'), '-');
    if region.Some? && region.value != "" then lang + "-" + d.upper(region.value) else lang
  }

  predicate IsValidLanguageCode(value: string) {
    value == "auto" ||
    var (lang, region) := SplitOnce(value, '-');
    && 2 <= |lang| <= 3 && (forall i :: 0 <= i < |lang| ==> 'a' <= lang[i] <= 'z')
    && (region.Some? ==> |region.value| == 2 &&
                         forall i :: 0 <= i < 2 ==> 'a' <= region.value[i] <= 'z' || 'A' <= region.value[i] <= 'Z')
  }

  function MeaningOf(d: Data, part: string): Meaning {
    if "<" <= part then
      var ms := TimeoutOf(part[1..]);
      if ms.Some? then Timeout(ms.value) else Plain
    else if ":" <= part then
      var tag := NormalizeTag(d, part[1..]);
      if part[1..] != "" && IsValidLanguageCode(tag) then Language(tag) else Plain
    else if part == "!!" then FirstResult
    else if "!!" <= part then
      var token := d.lower(part[2..]);
      if token in d.bangs then Bang(token) else UnknownBang(token)
    else if ("!" <= part || "?" <= part) && part[1..] != "" then
      var name := d.lower(Replace(part[1..], {'-', '_'}, ' '));
      if name in d.engines then Engine(name)
      else if name in KNOWN_CATEGORIES then Category(name)
      else Plain
    else Plain
  }

  /** A recognised word is kept out of the user's query. */
  predicate Recognised(m: Meaning) { !m.Plain? && !m.UnknownBang? }

  /** `!` and `?` select alike unless a second `!` follows. */
  lemma MarksAgreeIff(d: Data, value: string)
    ensures MeaningOf(d, "!" + value) == MeaningOf(d, "?" + value) <==> !("!" <= value)
  {
    var (bang, mark) := ("!" + value, "?" + value);
    assert bang[1..] == value && mark[1..] == value;
    assert bang[0] == '!' && mark[0] == '?';
    assert "!!" <= bang ==> bang[1] == '!' && value[0] == '!';
    assert value != "" && value[0] == '!' ==> bang[..2] == "!!";
    assert bang == "!!" ==> |value| == 1;
  }

  predicate Unmarked(part: string) { part != "" && part[0] !in {'<', ':', '!', '?'} }

  /** A word without a marker in front is the user's. */
  lemma NoMarkerNoMeaning(d: Data, part: string)
    requires Unmarked(part)
    ensures MeaningOf(d, part) == Plain
  {
  }

  /** `!!` asks for the first result, and before a text for the bang of that name, if there is one. */
  lemma BangMeans(d: Data, name: string)
    ensures MeaningOf(d, "!!" + name)
            == if name == "" then FirstResult
               else if d.lower(name) in d.bangs then Bang(d.lower(name))
               else UnknownBang(d.lower(name))
  {
    var part := "!!" + name;
    assert part[..2] == "!!" && part[2..] == name;
    assert part[0] == '!' && !("<" <= part) && !(":" <= part);
    assert name == "" ==> part == "!!";
    assert name != "" ==> |part| > 2;
  }

  /** A single mark before a text selects the engine of that name, or else the category; dashes and
      underscores stand for blanks. */
  lemma SelectorMeans(d: Data, mark: char, value: string, name: string)
    requires mark in {'!', '?'} && value != "" && (mark == '!' ==> value[0] != '!')
    requires |name| == |value|
    requires forall i :: 0 <= i < |value| ==> name[i] == if value[i] in {'-', '_'} then ' ' else value[i]
    ensures MeaningOf(d, [mark] + value)
            == if d.lower(name) in d.engines then Engine(d.lower(name))
               else if d.lower(name) in KNOWN_CATEGORIES then Category(d.lower(name))
               else Plain
  {
    var part := [mark] + value;
    assert part[1..] == value && part[0] == mark && part[1] == value[0];
    assert Replace(value, {'-', '_'}, ' ') == name;
  }

  predicate AllLetters(s: string) { forall i :: 0 <= i < |s| ==> 'a' <= s[i] <= 'z' || 'A' <= s[i] <= 'Z' }

  predicate IsLanguage(s: string) { 2 <= |s| <= 3 && forall i :: 0 <= i < |s| ==> 'a' <= s[i] <= 'z' }

  /** A valid tag is `auto`, a language, or a language and a region. */
  lemma ValidTagIff(tag: string)
    ensures IsValidLanguageCode(tag) <==>
            tag == "auto" || IsLanguage(tag)
            || exists lang, region ::
                 tag == lang + "-" + region && IsLanguage(lang) && |region| == 2 && AllLetters(region)
  {
    SplitJoins(tag, '-');
    var (a, b) := SplitOnce(tag, '-');
    if IsValidLanguageCode(tag) && tag != "auto" && b.Some? { assert tag == a + "-" + b.value; }
    if IsLanguage(tag) { SplitAtFirst(tag, '-', ""); }
    if lang, region :| tag == lang + "-" + region && IsLanguage(lang) && |region| == 2 && AllLetters(region) {
      SplitAtFirst(lang, '-', region);
    }
  }

  lemma TagRegion(lang: string, mark: char, region: string)
    requires IsLanguage(lang) && mark in {'-', '_'} && '_' !in region
    ensures SplitOnce(Replace(lang + [mark] + region, {'_'}, '-'), '-') == (lang, Some(region))
  {
    assert Replace(lang + [mark] + region, {'_'}, '-') == lang + ['-'] + region;
    SplitAtFirst(lang, '-', region);
  }

  lemma ColonMeans(d: Data, value: string)
    requires value != ""
    ensures MeaningOf(d, ":" + value)
            == var tag := NormalizeTag(d, value); if IsValidLanguageCode(tag) then Language(tag) else Plain
  {
    var part := ":" + value;
    assert part[1..] == value && part[0] == ':';
  }

  /** A colon before a language, or before `auto`, adds that language. */
  lemma LanguageMeans(d: Data, value: string, lang: string)
    requires value != "" && (IsLanguage(lang) || lang == "auto") && d.lower(Trim(d.space, value)) == lang
    ensures MeaningOf(d, ":" + value) == Language(lang)
  {
    ColonMeans(d, value);
    SplitAtFirst(lang, '-', "");
    assert Replace(lang, {'_'}, '-') == lang;
  }

  /** A region after a dash or an underscore is added to it in upper case. */
  lemma RegionMeans(d: Data, value: string, lang: string, mark: char, region: string)
    requires value != "" && IsLanguage(lang) && mark in {'-', '_'} && region != "" && '_' !in region
    requires d.lower(Trim(d.space, value)) == lang + [mark] + region
    requires |d.upper(region)| == 2 && AllLetters(d.upper(region))
    ensures MeaningOf(d, ":" + value) == Language(lang + "-" + d.upper(region))
  {
    ColonMeans(d, value);
    TagRegion(lang, mark, region);
    ValidTagIff(lang + "-" + d.upper(region));
  }

  // ----- what a list of words means, given what each word means -----

  type Mean = string -> Meaning

  function MeanOf(d: Data): Mean { part => MeaningOf(d, part) }

  function Meanings(mean: Mean, parts: seq<string>): seq<Meaning> {
    seq(|parts|, i requires 0 <= i < |parts| => mean(parts[i]))
  }

  /** Everything `pick` finds, in order. */
  function Picked<T>(pick: Meaning -> Option<T>, ms: seq<Meaning>): seq<T> {
    if ms == [] then []
    else
      var init, x := Picked(pick, ms[..|ms| - 1]), pick(ms[|ms| - 1]);
      if x.Some? then init + [x.value] else init
  }

  function AddNew(xs: seq<string>, x: string): seq<string> {
    if x in xs then xs else xs + [x]
  }

  /** The first occurrence of every element, in order. */
  function FirstOccurrences(xs: seq<string>): (r: seq<string>)
    ensures Distinct(r) && forall x :: x in r <==> x in xs
  {
    if xs == [] then [] else
      var init, last := xs[..|xs| - 1], xs[|xs| - 1];
      assert xs == init + [last];
      AddNew(FirstOccurrences(init), last)
  }

  function Last<T>(xs: seq<T>): Option<T> {
    if xs == [] then None else Some(xs[|xs| - 1])
  }

  function PickEngine(m: Meaning): Option<string> { if m.Engine? then Some(m.name) else None }
  function PickCategory(m: Meaning): Option<string> { if m.Category? then Some(m.name) else None }
  function PickLanguage(m: Meaning): Option<string> { if m.Language? then Some(m.tag) else None }
  function PickTimeout(m: Meaning): Option<nat> { if m.Timeout? then Some(m.ms) else None }
  function PickBang(m: Meaning): Option<string> { if m.Bang? then Some(m.token) else None }
  function PickUnknown(m: Meaning): Option<string> { if m.UnknownBang? then Some(m.token) else None }
  function PickSpecific(m: Meaning): Option<bool> { if m.Engine? || m.Category? then Some(true) else None }
  function PickFirst(m: Meaning): Option<bool> { if m.FirstResult? then Some(true) else None }

  /** The words that are recognised, or the others, in order. */
  function Select(mean: Mean, parts: seq<string>, recognised: bool): seq<string>
  {
    if parts == [] then [] else
      var init, last := parts[..|parts| - 1], parts[|parts| - 1];
      if Recognised(mean(last)) == recognised then Select(mean, init, recognised) + [last]
      else Select(mean, init, recognised)
  }

  /** What the meanings of a list of words amount to, setting by setting. */
  function Fields(ms: seq<Meaning>, queryParts: seq<string>, userParts: seq<string>): Parsed {
    Parsed(FirstOccurrences(Picked(PickEngine, ms)), FirstOccurrences(Picked(PickCategory, ms)),
           FirstOccurrences(Picked(PickLanguage, ms)), Last(Picked(PickTimeout, ms)), Last(Picked(PickBang, ms)),
           None, Picked(PickSpecific, ms) != [], Picked(PickFirst, ms) != [], Picked(PickUnknown, ms),
           queryParts, userParts)
  }

  function Settings(mean: Mean, parts: seq<string>): Parsed {
    Fields(Meanings(mean, parts), Select(mean, parts, true), Select(mean, parts, false))
  }

  function Query(p: Parsed): string { Join(p.userParts) }

  function FullQuery(d: Data, p: Parsed): string { Trim(d.space, Join(p.queryParts) + " " + Query(p)) }

  function Resolved(d: Data, p: Parsed): Parsed {
    if p.externalBang.Some? && p.externalBang.value in d.bangs
    then p.(externalRedirect := Some(d.redirect(d.bangs[p.externalBang.value], Query(p))))
    else p
  }

  /** The reading of a whole text. */
  function Reading(d: Data, text: string): Parsed { Resolved(d, Settings(MeanOf(d), Split(d.space, text))) }

  // ----- the parser -----

  /** One word's effect on the settings. */
  function Apply(p: Parsed, m: Meaning): Parsed {
    match m
    case Timeout(ms) => p.(timeout := Some(ms))
    case Language(tag) => p.(languages := AddNew(p.languages, tag))
    case FirstResult => p.(toFirstResult := true)
    case Bang(token) => p.(externalBang := Some(token))
    case UnknownBang(token) => p.(feedback := p.feedback + [token])
    case Engine(name) => p.(engines := AddNew(p.engines, name), specific := true)
    case Category(name) => p.(categories := AddNew(p.categories, name), specific := true)
    case Plain => p
  }

  function Keep(p: Parsed, part: string, recognised: bool): Parsed {
    if recognised then p.(queryParts := p.queryParts + [part]) else p.(userParts := p.userParts + [part])
  }

  lemma PickedSnoc<T>(pick: Meaning -> Option<T>, ms: seq<Meaning>, m: Meaning)
    ensures Picked(pick, ms + [m]) == if pick(m).Some? then Picked(pick, ms) + [pick(m).value] else Picked(pick, ms)
  {
    assert (ms + [m])[..|ms|] == ms;
  }

  lemma ListSnoc(pick: Meaning -> Option<string>, ms: seq<Meaning>, m: Meaning)
    ensures var xs := FirstOccurrences(Picked(pick, ms));
            FirstOccurrences(Picked(pick, ms + [m])) == if pick(m).Some? then AddNew(xs, pick(m).value) else xs
  {
    PickedSnoc(pick, ms, m);
    var xs := Picked(pick, ms);
    if pick(m).Some? { assert (xs + [pick(m).value])[..|xs|] == xs; }
  }

  /** The settings grow as the parser changes its fields. */
  lemma FieldsSnoc(ms: seq<Meaning>, m: Meaning, q: seq<string>, u: seq<string>)
    ensures Fields(ms + [m], q, u) == Apply(Fields(ms, q, u), m)
  {
    ListSnoc(PickEngine, ms, m);
    ListSnoc(PickCategory, ms, m);
    ListSnoc(PickLanguage, ms, m);
    PickedSnoc(PickTimeout, ms, m);
    PickedSnoc(PickBang, ms, m);
    PickedSnoc(PickUnknown, ms, m);
    PickedSnoc(PickSpecific, ms, m);
    PickedSnoc(PickFirst, ms, m);
  }

  lemma SettingsSnoc(mean: Mean, parts: seq<string>, part: string)
    ensures Settings(mean, parts + [part])
            == Keep(Apply(Settings(mean, parts), mean(part)), part, Recognised(mean(part)))
  {
    var m, q, u := mean(part), Select(mean, parts + [part], true), Select(mean, parts + [part], false);
    assert (parts + [part])[..|parts|] == parts;
    assert Meanings(mean, parts + [part]) == Meanings(mean, parts) + [m];
    FieldsSnoc(Meanings(mean, parts), m, q, u);
    FieldsSnoc(Meanings(mean, parts), m, Select(mean, parts, true), Select(mean, parts, false));
  }

  lemma SettingsNext(mean: Mean, parts: seq<string>, i: nat)
    requires i < |parts|
    ensures Settings(mean, parts[..i + 1])
            == Keep(Apply(Settings(mean, parts[..i]), mean(parts[i])), parts[i], Recognised(mean(parts[i])))
  {
    assert parts[..i + 1] == parts[..i] + [parts[i]];
    SettingsSnoc(mean, parts[..i], parts[i]);
  }

  class RawTextQuery {
    var raw: string
    var engines: seq<string>
    var categories: seq<string>
    var languages: seq<string>
    var timeout: Option<nat>
    var externalBang: Option<string>
    var externalRedirect: Option<string>
    var specific: bool
    var redirectToFirstResult: bool
    var feedback: seq<string>
    var queryParts: seq<string>
    var userQueryParts: seq<string>

    ghost function State(): Parsed
      reads this
    {
      Parsed(engines, categories, languages, timeout, externalBang, externalRedirect, specific,
             redirectToFirstResult, feedback, queryParts, userQueryParts)
    }

    constructor (text: string)
      ensures raw == text && State() == Fields([], [], [])
    {
      raw := text;
      engines, categories, languages, timeout := [], [], [], None;
      externalBang, externalRedirect, specific, redirectToFirstResult := None, None, false, false;
      feedback, queryParts, userQueryParts := [], [], [];
    }

    method ParseTimeoutToken(value: string) returns (ok: bool)
      modifies this
      ensures raw == old(raw) && ok == TimeoutOf(value).Some?
      ensures State() == if ok then Apply(old(State()), Timeout(TimeoutOf(value).value)) else old(State())
    {
      if value == "" { return false; }
      var amount := DigitsValue(value);
      if amount.None? || amount.value < 0 || amount.value >= U64_LIMIT { return false; }
      timeout := Some(if amount.value < 100 then 1000 * amount.value else amount.value);
      return true;
    }

    method ParseLanguageToken(d: Data, value: string) returns (ok: bool)
      modifies this
      ensures raw == old(raw) && ok == (value != "" && IsValidLanguageCode(NormalizeTag(d, value)))
      ensures State() == if ok then Apply(old(State()), Language(NormalizeTag(d, value))) else old(State())
    {
      if value == "" { return false; }
      var normalized := NormalizeTag(d, value);
      if !IsValidLanguageCode(normalized) { return false; }
      if normalized !in languages { languages := languages + [normalized]; }
      return true;
    }

    method ParseExternalBangToken(d: Data, value: string) returns (ok: bool)
      modifies this
      ensures raw == old(raw) && ok == (value != "" && d.lower(value) in d.bangs)
      ensures State() == if value == "" then old(State())
                         else Apply(old(State()), if ok then Bang(d.lower(value)) else UnknownBang(d.lower(value)))
    {
      if value == "" { return false; }
      var token := d.lower(value);
      if token in d.bangs {
        externalBang := Some(token);
        return true;
      }
      feedback := feedback + [token];
      return false;
    }

    method ParseEngineOrCategoryToken(d: Data, value: string) returns (ok: bool)
      modifies this
      ensures raw == old(raw)
      ensures var name := d.lower(Replace(value, {'-', '_'}, ' '));
              && ok == (value != "" && (name in d.engines || name in KNOWN_CATEGORIES))
              && State() == if !ok then old(State())
                            else Apply(old(State()), if name in d.engines then Engine(name) else Category(name))
    {
      if value == "" { return false; }
      var normalized := d.lower(Replace(value, {'-', '_'}, ' '));
      if normalized in d.engines {
        if normalized !in engines { engines := engines + [normalized]; }
        specific := true;
        return true;
      }
      if normalized in KNOWN_CATEGORIES {
        if normalized !in categories { categories := categories + [normalized]; }
        specific := true;
        return true;
      }
      return false;
    }

    method ParseQueryPart(d: Data, part: string) returns (ok: bool)
      modifies this
      ensures raw == old(raw) && ok == Recognised(MeaningOf(d, part))
      ensures State() == Apply(old(State()), MeaningOf(d, part))
    {
      if "<" <= part {
        ok := ParseTimeoutToken(part[1..]);
      } else if ":" <= part {
        ok := ParseLanguageToken(d, part[1..]);
      } else if part == "!!" {
        redirectToFirstResult := true;
        ok := true;
      } else if "!!" <= part {
        ok := ParseExternalBangToken(d, part[2..]);
      } else if "!" <= part || "?" <= part {
        ok := ParseEngineOrCategoryToken(d, part[1..]);
      } else {
        ok := false;
      }
    }

    /** One word: its effect, and the list it goes to. */
    method ReadPart(d: Data, part: string)
      modifies this
      ensures raw == old(raw)
      ensures State() == Keep(Apply(old(State()), MeanOf(d)(part)), part, Recognised(MeanOf(d)(part)))
    {
      var parsed := ParseQueryPart(d, part);
      if parsed {
        queryParts := queryParts + [part];
      } else {
        userQueryParts := userQueryParts + [part];
      }
    }

    method ResolveExternalBang(d: Data)
      modifies this
      ensures raw == old(raw) && State() == Resolved(d, old(State()))
    {
      if externalBang.Some? && externalBang.value in d.bangs {
        externalRedirect := Some(d.redirect(d.bangs[externalBang.value], Join(userQueryParts)));
      }
    }
  }

  /** The parser's loop reads every word once and arrives at the reading of the text. */
  method ParseRaw(text: string, d: Data) returns (r: RawTextQuery)
    ensures fresh(r) && r.raw == text && r.State() == Reading(d, text)
  {
    r := new RawTextQuery(text);
    var parts := Split(d.space, text);
    var i := 0;
    while i < |parts|
      invariant 0 <= i <= |parts| && fresh(r) && r.raw == text
      invariant r.State() == Settings(MeanOf(d), parts[..i])
    {
      r.ReadPart(d, parts[i]);
      SettingsNext(MeanOf(d), parts, i);
      i := i + 1;
    }
    assert parts[..i] == parts;
    r.ResolveExternalBang(d);
  }

  // ----- every word goes to exactly one list, in order -----

  /** Deal a list of words back together: `true` takes from the recognised words. */
  function Weave(flags: seq<bool>, yes: seq<string>, no: seq<string>): seq<string> {
    if flags == [] then []
    else
      var init, from := flags[..|flags| - 1], if flags[|flags| - 1] then yes else no;
      if from == [] then []
      else if flags[|flags| - 1] then Weave(init, yes[..|yes| - 1], no) + [yes[|yes| - 1]]
      else Weave(init, yes, no[..|no| - 1]) + [no[|no| - 1]]
  }

  function Flags(mean: Mean, parts: seq<string>): seq<bool> {
    seq(|parts|, i requires 0 <= i < |parts| => Recognised(mean(parts[i])))
  }

  lemma WeaveSnoc(flags: seq<bool>, f: bool, yes: seq<string>, no: seq<string>, w: string)
    ensures Weave(flags + [f], if f then yes + [w] else yes, if f then no else no + [w]) == Weave(flags, yes, no) + [w]
  {
    assert (flags + [f])[..|flags|] == flags;
    assert (yes + [w])[..|yes|] == yes && (no + [w])[..|no|] == no;
  }

  lemma SelectSnoc(mean: Mean, parts: seq<string>, w: string)
    ensures var f := Recognised(mean(w));
            var (yes, no) := (Select(mean, parts, true), Select(mean, parts, false));
            && Select(mean, parts + [w], true) == (if f then yes + [w] else yes)
            && Select(mean, parts + [w], false) == (if f then no else no + [w])
            && Flags(mean, parts + [w]) == Flags(mean, parts) + [f]
  {
    assert (parts + [w])[..|parts|] == parts;
  }

  /** The two lists hold every word exactly once and in order: knowing which words were recognised,
      they give the text's words back. */
  lemma {:induction false} WordsAreDealtOut(mean: Mean, parts: seq<string>)
    ensures Weave(Flags(mean, parts), Select(mean, parts, true), Select(mean, parts, false)) == parts
    ensures |Select(mean, parts, true)| + |Select(mean, parts, false)| == |parts|
  {
    if parts != [] {
      var init, last := parts[..|parts| - 1], parts[|parts| - 1];
      WordsAreDealtOut(mean, init);
      assert parts == init + [last];
      SelectSnoc(mean, init, last);
      WeaveSnoc(Flags(mean, init), Recognised(mean(last)), Select(mean, init, true), Select(mean, init, false), last);
    }
  }

  // ----- reading a query back -----

  lemma {:induction false} SelectConcat(mean: Mean, a: seq<string>, b: seq<string>, recognised: bool)
    ensures Select(mean, a + b, recognised) == Select(mean, a, recognised) + Select(mean, b, recognised)
    decreases |b|
  {
    if b == [] {
      assert a + b == a;
    } else {
      assert (a + b)[..|a + b| - 1] == a + b[..|b| - 1];
      SelectConcat(mean, a, b[..|b| - 1], recognised);
    }
  }

  lemma {:induction false} SelectAgain(mean: Mean, parts: seq<string>, recognised: bool, again: bool)
    ensures Select(mean, Select(mean, parts, recognised), again)
            == if again == recognised then Select(mean, parts, recognised) else []
    decreases |parts|
  {
    if parts != [] {
      var init, last := parts[..|parts| - 1], parts[|parts| - 1];
      SelectAgain(mean, init, recognised, again);
      SelectConcat(mean, Select(mean, init, recognised), [last], again);
      assert [last][..0] == [];
    }
  }

  /** The recognised words, then the others. */
  function Regrouped(mean: Mean, parts: seq<string>): seq<string> {
    Select(mean, parts, true) + Select(mean, parts, false)
  }

  lemma {:induction false} PickedConcat<T>(pick: Meaning -> Option<T>, a: seq<Meaning>, b: seq<Meaning>)
    ensures Picked(pick, a + b) == Picked(pick, a) + Picked(pick, b)
    decreases |b|
  {
    if b == [] {
      assert a + b == a;
    } else {
      assert (a + b)[..|a + b| - 1] == a + b[..|b| - 1];
      PickedConcat(pick, a, b[..|b| - 1]);
    }
  }

  /** What `pick` finds comes from the recognised words only, or from the others only. */
  ghost predicate OneSided<T>(pick: Meaning -> Option<T>, recognised: bool) {
    forall m :: pick(m).Some? ==> Recognised(m) == recognised
  }

  lemma {:induction false} PickedFromSelect<T>(pick: Meaning -> Option<T>, side: bool, mean: Mean,
                                               parts: seq<string>, recognised: bool)
    requires OneSided(pick, side)
    ensures Picked(pick, Meanings(mean, Select(mean, parts, recognised)))
            == if recognised == side then Picked(pick, Meanings(mean, parts)) else []
    decreases |parts|
  {
    if parts != [] {
      var init, last := parts[..|parts| - 1], parts[|parts| - 1];
      PickedFromSelect(pick, side, mean, init, recognised);
      assert Meanings(mean, parts) == Meanings(mean, init) + [mean(last)];
      PickedSnoc(pick, Meanings(mean, init), mean(last));
      var s := Select(mean, init, recognised);
      assert Meanings(mean, s + [last]) == Meanings(mean, s) + [mean(last)];
      PickedSnoc(pick, Meanings(mean, s), mean(last));
    }
  }

  lemma PickedRegrouped<T>(pick: Meaning -> Option<T>, side: bool, mean: Mean, parts: seq<string>)
    requires OneSided(pick, side)
    ensures Picked(pick, Meanings(mean, Regrouped(mean, parts))) == Picked(pick, Meanings(mean, parts))
  {
    var a, b := Select(mean, parts, true), Select(mean, parts, false);
    assert Meanings(mean, a + b) == Meanings(mean, a) + Meanings(mean, b);
    PickedConcat(pick, Meanings(mean, a), Meanings(mean, b));
    PickedFromSelect(pick, side, mean, parts, true);
    PickedFromSelect(pick, side, mean, parts, false);
  }

  lemma SelectRegrouped(mean: Mean, parts: seq<string>, b: bool)
    ensures Select(mean, Regrouped(mean, parts), b) == Select(mean, parts, b)
  {
    SelectConcat(mean, Select(mean, parts, true), Select(mean, parts, false), b);
    SelectAgain(mean, parts, true, b);
    SelectAgain(mean, parts, false, b);
  }

  /** Putting the recognised words first changes no setting. */
  lemma SettingsRegrouped(mean: Mean, parts: seq<string>)
    ensures Settings(mean, Regrouped(mean, parts)) == Settings(mean, parts)
  {
    PickedRegrouped(PickEngine, true, mean, parts);
    PickedRegrouped(PickCategory, true, mean, parts);
    PickedRegrouped(PickLanguage, true, mean, parts);
    PickedRegrouped(PickTimeout, true, mean, parts);
    PickedRegrouped(PickBang, true, mean, parts);
    PickedRegrouped(PickSpecific, true, mean, parts);
    PickedRegrouped(PickFirst, true, mean, parts);
    PickedRegrouped(PickUnknown, false, mean, parts);
    SelectRegrouped(mean, parts, true);
    SelectRegrouped(mean, parts, false);
  }

  lemma {:induction false} SelectWords(mean: Mean, sp: Space, parts: seq<string>, recognised: bool)
    requires AllWords(sp, parts)
    ensures AllWords(sp, Select(mean, parts, recognised))
  {
    if parts != [] {
      SelectWords(mean, sp, parts[..|parts| - 1], recognised);
      assert IsWord(sp, parts[|parts| - 1]);
    }
  }

  lemma RegroupedWords(mean: Mean, sp: Space, parts: seq<string>)
    requires sp(' ') && AllWords(sp, parts)
    ensures Split(sp, Trim(sp, Join(Select(mean, parts, true)) + " " + Join(Select(mean, parts, false))))
            == Regrouped(mean, parts)
    ensures Split(sp, Join(Select(mean, parts, false))) == Select(mean, parts, false)
  {
    SelectWords(mean, sp, parts, true);
    SelectWords(mean, sp, parts, false);
    SplitBoth(sp, Select(mean, parts, true), Select(mean, parts, false));
    SplitJoin(sp, Select(mean, parts, false));
  }

  /** The words nobody recognised set nothing. */
  lemma SettingsOfUser(mean: Mean, parts: seq<string>)
    ensures var user := Select(mean, parts, false);
            Settings(mean, user)
            == Parsed([], [], [], None, None, None, false, false, Picked(PickUnknown, Meanings(mean, parts)), [], user)
  {
    PickedFromSelect(PickEngine, true, mean, parts, false);
    PickedFromSelect(PickCategory, true, mean, parts, false);
    PickedFromSelect(PickLanguage, true, mean, parts, false);
    PickedFromSelect(PickTimeout, true, mean, parts, false);
    PickedFromSelect(PickBang, true, mean, parts, false);
    PickedFromSelect(PickSpecific, true, mean, parts, false);
    PickedFromSelect(PickFirst, true, mean, parts, false);
    PickedFromSelect(PickUnknown, false, mean, parts, false);
    SelectAgain(mean, parts, false, true);
    SelectAgain(mean, parts, false, false);
  }

  /** The full query of a reading, read again, is the same reading. */
  lemma ReparseFixpoint(d: Data, text: string)
    requires d.space(' ')
    ensures Reading(d, FullQuery(d, Reading(d, text))) == Reading(d, text)
  {
    SplitIsLossless(d.space, text);
    RegroupedWords(MeanOf(d), d.space, Split(d.space, text));
    SettingsRegrouped(MeanOf(d), Split(d.space, text));
  }

  /** The user's query, read on its own, sets nothing: only unknown bangs are reported again. */
  lemma QueryReadsPlain(d: Data, text: string)
    requires d.space(' ')
    ensures var p := Reading(d, text);
            Reading(d, Query(p)) == Parsed([], [], [], None, None, None, false, false, p.feedback, [], p.userParts)
  {
    SplitIsLossless(d.space, text);
    RegroupedWords(MeanOf(d), d.space, Split(d.space, text));
    SettingsOfUser(MeanOf(d), Split(d.space, text));
  }

  lemma {:induction false} PickedMember(pick: Meaning -> Option<string>, ms: seq<Meaning>, x: string)
    ensures x in Picked(pick, ms) <==> exists m :: m in ms && pick(m) == Some(x)
    decreases |ms|
  {
    if ms != [] {
      var init, m := ms[..|ms| - 1], ms[|ms| - 1];
      assert ms == init + [m];
      PickedMember(pick, init, x);
      PickedSnoc(pick, init, m);
    }
  }

  /** A list setting holds exactly what some word of the text names, each name once. */
  lemma ListMeans(pick: Meaning -> Option<string>, mean: Mean, parts: seq<string>, x: string)
    ensures Distinct(FirstOccurrences(Picked(pick, Meanings(mean, parts))))
    ensures x in FirstOccurrences(Picked(pick, Meanings(mean, parts))) <==>
            exists w :: w in parts && pick(mean(w)) == Some(x)
  {
    var ms := Meanings(mean, parts);
    PickedMember(pick, ms, x);
    if m :| m in ms && pick(m) == Some(x) {
      var i :| 0 <= i < |ms| && ms[i] == m;
      assert parts[i] in parts && pick(mean(parts[i])) == Some(x);
    }
    if w :| w in parts && pick(mean(w)) == Some(x) {
      var i :| 0 <= i < |parts| && parts[i] == w;
      assert ms[i] == mean(w);
    }
  }

  lemma {:induction false} LastBangIsKnown(d: Data, parts: seq<string>)
    ensures forall t :: t in Picked(PickBang, Meanings(MeanOf(d), parts)) ==> t in d.bangs
    decreases |parts|
  {
    if parts != [] {
      var init, m := parts[..|parts| - 1], MeanOf(d)(parts[|parts| - 1]);
      LastBangIsKnown(d, init);
      assert Meanings(MeanOf(d), parts) == Meanings(MeanOf(d), init) + [m];
      PickedSnoc(PickBang, Meanings(MeanOf(d), init), m);
    }
  }

  /** There is a redirect exactly when there is an external bang, and the bang is a known one. */
  lemma RedirectIffBang(d: Data, text: string)
    ensures var p := Reading(d, text);
            && (p.externalRedirect.Some? <==> p.externalBang.Some?)
            && (p.externalBang.Some? ==> p.externalBang.value in d.bangs)
  {
    LastBangIsKnown(d, Split(d.space, text));
  }

  predicate SetsNothing(p: Parsed) {
    && p.engines == [] && p.categories == [] && p.languages == [] && p.timeout == None
    && p.externalBang == None && !p.specific && !p.toFirstResult
  }

  lemma PicksSomething(ms: seq<Meaning>, m: Meaning, q: seq<string>, u: seq<string>)
    requires Recognised(m)
    ensures !SetsNothing(Fields(ms + [m], q, u))
  {
    FieldsSnoc(ms, m, q, u);
  }

  /** A word is taken out of the user's query exactly when the text sets something. */
  lemma RecognisedIffSets(mean: Mean, parts: seq<string>)
    ensures Settings(mean, parts).queryParts == [] <==> SetsNothing(Settings(mean, parts))
  {
    var taken := Select(mean, parts, true);
    SettingsRegrouped(mean, parts);
    if taken == [] {
      SettingsOfUser(mean, parts);
      assert Regrouped(mean, parts) == Select(mean, parts, false);
    } else {
      SelectTaken(mean, parts);
      TakenSets(mean, parts);
    }
  }

  lemma {:induction false} SelectTaken(mean: Mean, parts: seq<string>)
    ensures var taken := Select(mean, parts, true); taken != [] ==> Recognised(mean(taken[|taken| - 1]))
  {
    if parts != [] { SelectTaken(mean, parts[..|parts| - 1]); }
  }

  lemma TakenAlone(mean: Mean, parts: seq<string>, q: seq<string>, u: seq<string>)
    ensures SetsNothing(Fields(Meanings(mean, Select(mean, parts, true)), q, u)) == SetsNothing(Settings(mean, parts))
  {
    PickedFromSelect(PickEngine, true, mean, parts, true);
    PickedFromSelect(PickCategory, true, mean, parts, true);
    PickedFromSelect(PickLanguage, true, mean, parts, true);
    PickedFromSelect(PickTimeout, true, mean, parts, true);
    PickedFromSelect(PickBang, true, mean, parts, true);
    PickedFromSelect(PickSpecific, true, mean, parts, true);
    PickedFromSelect(PickFirst, true, mean, parts, true);
  }

  lemma MeaningsSnoc(mean: Mean, init: seq<string>, last: string)
    ensures Meanings(mean, init + [last]) == Meanings(mean, init) + [mean(last)]
  {
  }

  lemma TakenSets(mean: Mean, parts: seq<string>)
    requires var taken := Select(mean, parts, true); taken != [] && Recognised(mean(taken[|taken| - 1]))
    ensures !SetsNothing(Settings(mean, parts))
  {
    var taken := Select(mean, parts, true);
    var init, last := taken[..|taken| - 1], taken[|taken| - 1];
    assert taken == init + [last];
    MeaningsSnoc(mean, init, last);
    PicksSomething(Meanings(mean, init), mean(last), [], []);
    TakenAlone(mean, parts, [], []);
  }

  lemma {:induction false} PlainParts(mean: Mean, parts: seq<string>)
    requires forall i :: 0 <= i < |parts| ==> mean(parts[i]) == Plain
    ensures Select(mean, parts, false) == parts && Picked(PickUnknown, Meanings(mean, parts)) == []
  {
    if parts != [] {
      var init, last := parts[..|parts| - 1], parts[|parts| - 1];
      assert parts == init + [last];
      PlainParts(mean, init);
      MeaningsSnoc(mean, init, last);
      PickedSnoc(PickUnknown, Meanings(mean, init), Plain);
    }
  }

  /** A text without markers is all the user's: it sets nothing and reports nothing. */
  lemma UnmarkedTextIsPlain(d: Data, text: string)
    requires forall i :: 0 <= i < |Split(d.space, text)| ==> Unmarked(Split(d.space, text)[i])
    ensures Reading(d, text)
            == Parsed([], [], [], None, None, None, false, false, [], [], Split(d.space, text))
  {
    var parts := Split(d.space, text);
    forall i | 0 <= i < |parts| ensures MeanOf(d)(parts[i]) == Plain { NoMarkerNoMeaning(d, parts[i]); }
    PlainParts(MeanOf(d), parts);
    SettingsOfUser(MeanOf(d), parts);
  }

  // ----- timeouts -----

  /** Only digits make a timeout. */
  lemma TimeoutTakesDigits(d: Data, value: string)
    ensures MeaningOf(d, "<" + value).Timeout? ==>
              value != "" && forall i :: 0 <= i < |value| ==> '0' <= value[i] <= '9'
    ensures !MeaningOf(d, "<" + value).Timeout? ==> MeaningOf(d, "<" + value) == Plain
  {
    assert ("<" + value)[1..] == value;
    DigitsIff(value);
  }

  /** A written number is seconds below 100, milliseconds from there on, and no timeout at all once
      it does not fit 64 bits. */
  lemma TimeoutOfNumber(d: Data, n: nat)
    ensures MeaningOf(d, "<" + Decimal(n))
            == if n < 100 then Timeout(1000 * n) else if n < U64_LIMIT then Timeout(n) else Plain
  {
    DecimalValue(n);
    assert ("<" + Decimal(n))[1..] == Decimal(n);
  }
}
