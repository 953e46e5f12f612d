/** The canonical merge key of zoeken/zoeken-search/src/aggregation.rs on URLs as records: which
    differences between two page addresses it ignores, and which it keeps. Parsing a URL and writing
    one out are library calls and parameters. */
module MergeKey {
  import opened Ordering
  import opened Wrappers
  import opened Aggregation

  datatype Pair = Pair(key: string, value: string)

  /** A parsed URL; `user` is the user information. */
  datatype Url = Url(scheme: string, user: string, host: Option<string>, port: Option<nat>, path: string,
                     query: Option<seq<Pair>>, fragment: Option<string>)

  predicate IsHttp(u: Url) { u.scheme == "http" || u.scheme == "https" }

  predicate EndsWith(s: string, suffix: string) { |suffix| <= |s| && s[|s| - |suffix|..] == suffix }

  // ----- tracking parameters -----

  const TRACKING_PARAMS: seq<string> :=
    ["gclid", "fbclid", "msclkid", "yclid", "wbraid", "gbraid", "mc_eid", "igshid", "ref_src", "ref_url", "spm",
     "sk", "ved", "ei"]

  predicate IsTracking(p: Pair) { "utm_" <= p.key || p.key in TRACKING_PARAMS }

  /** `sort_by`: by key, then by value. */
  predicate PairLess(a: Pair, b: Pair) { TextLess(a.key, b.key) || (a.key == b.key && TextLess(a.value, b.value)) }

  function Kept(pairs: seq<Pair>): seq<Pair> {
    if pairs == [] then []
    else if IsTracking(pairs[0]) then Kept(pairs[1..])
    else [pairs[0]] + Kept(pairs[1..])
  }

  function StripTrackingParams(query: Option<seq<Pair>>): Option<seq<Pair>> {
    if query.None? then None
    else var kept := Kept(query.value); if kept == [] then None else Some(SortBy(PairLess, kept))
  }

  /** The pairs of a query, none if there is no query. */
  function Pairs(query: Option<seq<Pair>>): seq<Pair> { if query.Some? then query.value else [] }

  lemma PairTotal(a: Pair, b: Pair)
    ensures !(PairLess(a, b) && PairLess(b, a)) && (a != b ==> PairLess(a, b) || PairLess(b, a))
  {
    TextTotal(a.key, b.key);
    TextTotal(a.value, b.value);
  }

  lemma PairTransitive(a: Pair, b: Pair, c: Pair)
    requires !PairLess(a, b) && !PairLess(b, c)
    ensures !PairLess(a, c)
  {
    PairTotal(a, b);
    PairTotal(b, c);
    PairTotal(a, c);
    if a != b && b != c && a != c {
      if TextLess(c.key, b.key) && TextLess(b.key, a.key) { TextTransitive(c.key, b.key, a.key); }
      if TextLess(c.value, b.value) && TextLess(b.value, a.value) { TextTransitive(c.value, b.value, a.value); }
    }
  }

  lemma PairOrder(s: seq<Pair>)
    ensures WeakOrder(PairLess) && Separates(PairLess, s)
  {
    forall a, b ensures PairLess(a, b) ==> !PairLess(b, a) { PairTotal(a, b); }
    forall a, b, c ensures !PairLess(a, b) && !PairLess(b, c) ==> !PairLess(a, c) {
      if !PairLess(a, b) && !PairLess(b, c) { PairTransitive(a, b, c); }
    }
    forall i, j | 0 <= i < |s| && 0 <= j < |s| && s[i] != s[j] ensures PairLess(s[i], s[j]) || PairLess(s[j], s[i]) {
      PairTotal(s[i], s[j]);
    }
  }

  lemma {:induction false} KeptCounts(pairs: seq<Pair>, p: Pair)
    ensures multiset(Kept(pairs))[p] == if IsTracking(p) then 0 else multiset(pairs)[p]
  {
    if pairs != [] {
      KeptCounts(pairs[1..], p);
      assert pairs == [pairs[0]] + pairs[1..];
      assert multiset(Kept(pairs))[p]
             == multiset(Kept(pairs[1..]))[p] + if !IsTracking(pairs[0]) && p == pairs[0] then 1 else 0;
    }
  }

  /** Stripping keeps every pair that does not track, as often as it occurs, and nothing else, and
      puts the pairs in order, by key and then by value. A pair tracks if its key begins with `utm_` or
      is on the list. */
  lemma StripKeeps(query: Option<seq<Pair>>, p: Pair)
    ensures multiset(Pairs(StripTrackingParams(query)))[p]
            == if StartsWith(p.key, "utm_") || p.key in TRACKING_PARAMS then 0 else multiset(Pairs(query))[p]
    ensures Sorted(PairLess, Pairs(StripTrackingParams(query)))
    ensures var kept := Pairs(StripTrackingParams(query));
            forall i, j :: 0 <= i < j < |kept| ==>
                             !TextLess(kept[j].key, kept[i].key)
                             && (kept[i].key == kept[j].key ==> !TextLess(kept[j].value, kept[i].value))
    ensures StripTrackingParams(query) != Some([])
  {
    PairOrder([]);
    if query.Some? {
      KeptCounts(query.value, p);
      SortBySorts(PairLess, Kept(query.value));
      if Kept(query.value) != [] { assert |multiset(SortBy(PairLess, Kept(query.value)))| > 0; }
    }
  }

  lemma {:induction false} NothingToStrip(pairs: seq<Pair>)
    requires forall i :: 0 <= i < |pairs| ==> !IsTracking(pairs[i])
    ensures Kept(pairs) == pairs
  {
    if pairs != [] { NothingToStrip(pairs[1..]); }
  }

  /** Two queries strip alike exactly when they keep the same pairs equally often. */
  lemma StripSameIff(a: Option<seq<Pair>>, b: Option<seq<Pair>>)
    ensures StripTrackingParams(a) == StripTrackingParams(b) <==> multiset(Kept(Pairs(a))) == multiset(Kept(Pairs(b)))
  {
    var x, y := Kept(Pairs(a)), Kept(Pairs(b));
    PairOrder(x);
    SortBySorts(PairLess, x);
    SortBySorts(PairLess, y);
    if multiset(x) == multiset(y) {
      SortIgnoresArrangement(PairLess, x, y);
      SameSize(x, y);
    }
  }

  lemma SameSize<T>(x: seq<T>, y: seq<T>)
    requires multiset(x) == multiset(y)
    ensures |x| == |y|
  {
    assert |multiset(x)| == |x| && |multiset(y)| == |y|;
  }

  /** Stripping again changes nothing. */
  lemma StripTwice(query: Option<seq<Pair>>)
    ensures StripTrackingParams(StripTrackingParams(query)) == StripTrackingParams(query)
  {
    var once := StripTrackingParams(query);
    if once.Some? {
      var kept := once.value;
      forall i | 0 <= i < |kept| ensures !IsTracking(kept[i]) {
        StripKeeps(query, kept[i]);
        assert multiset(kept)[kept[i]] > 0;
      }
      NothingToStrip(kept);
      StripKeeps(query, kept[0]);
      PairOrder(kept);
      SortBySorts(PairLess, kept);
      SortedUnique(PairLess, kept, SortBy(PairLess, kept));
    }
  }

  // ----- hosts -----

  function LowerChar(c: char): char { if 'A' <= c <= 'Z' then (c as int + 32) as char else c }

  /** `to_ascii_lowercase`. */
  function Lower(s: string): (r: string)
    ensures |r| == |s|
  {
    seq(|s|, i requires 0 <= i < |s| => LowerChar(s[i]))
  }

  /** `strip_prefix(..).unwrap_or(..)`. */
  function WithoutPrefix(s: string, prefix: string): string {
    if StartsWith(s, prefix) then s[|prefix|..] else s
  }

  predicate At(s: string, part: string, i: nat) { i + |part| <= |s| && s[i..i + |part|] == part }

  /** Where `part` first occurs. */
  function FindText(s: string, part: string): (r: Option<nat>)
    ensures r.Some? ==> At(s, part, r.value) && forall i: nat :: i < r.value ==> !At(s, part, i)
    ensures r.None? ==> forall i: nat :: !At(s, part, i)
    decreases |s|
  {
    if At(s, part, 0) then Some(0)
    else if s == "" then None
    else
      var rest := FindText(s[1..], part);
      assert forall i: nat :: i > 0 ==> At(s, part, i) == At(s[1..], part, i - 1);
      if rest.Some? then Some(rest.value + 1) else None
  }

  /** The mobile label of a lower-case host without `www.`. */
  function WithoutMobile(host: string): string {
    var at := FindText(host, ".m.");
    if at.Some? then
      var (lang, rest) := (host[..at.value], host[at.value + 3..]);
      if (rest == "wikipedia.org" || EndsWith(rest, ".wikipedia.org")) && lang != "" then lang + "." + rest
      else WithoutPrefix(host, "m.")
    else WithoutPrefix(host, "m.")
  }

  /** ASCII letters become small, and nothing else changes. */
  lemma LowerMeans(c: char)
    ensures LowerChar(c) == if 'A' <= c <= 'Z' then "abcdefghijklmnopqrstuvwxyz"[c as int - 'A' as int] else c
  {
  }

  function CanonicalHost(host: string): string { WithoutMobile(WithoutPrefix(Lower(host), "www.")) }

  lemma MobileKeepsWww(x: string, h: string)
    requires h == "www." + x
    ensures var r := WithoutMobile(h); |r| >= |x| + 2 && WithoutMobile(x) != r
  {
    MobileLength(x);
    assert h[0] == 'w';
    MobileLength(h);
  }

  lemma MobileLength(h: string)
    ensures |h| - 2 <= |WithoutMobile(h)| <= |h|
  {
  }

  lemma LowerConcat(a: string, b: string)
    ensures Lower(a + b) == Lower(a) + Lower(b)
  {
  }

  /** A leading `www.` makes no difference exactly when the host has none of its own. */
  lemma WwwIrrelevantIff(host: string)
    ensures CanonicalHost("www." + host) == CanonicalHost(host) <==> !StartsWith(Lower(host), "www.")
  {
    LowerConcat("www.", host);
    assert Lower("www.") == "www.";
    assert ("www." + Lower(host))[4..] == Lower(host);
    if StartsWith(Lower(host), "www.") {
      var x := Lower(host)[4..];
      assert Lower(host) == "www." + x;
      MobileKeepsWww(x, Lower(host));
    }
  }

  lemma AtDots(s: string, i: nat)
    ensures At(s, ".m.", i) ==> s[i] == '.' && s[i + 1] == 'm' && s[i + 2] == '.'
  {
    assert At(s, ".m.", i) ==> s[i..i + 3][0] == s[i] && s[i..i + 3][1] == s[i + 1] && s[i..i + 3][2] == s[i + 2];
  }

  lemma AtShift(lang: string, rest: string, part: string, i: nat)
    requires i >= |lang|
    ensures At(lang + rest, part, i) == At(rest, part, i - |lang|)
  {
    var host := lang + rest;
    assert i + |part| <= |host| ==> host[i..i + |part|] == rest[i - |lang|..i - |lang| + |part|];
  }

  lemma NotInLabel(lang: string, rest: string, i: nat)
    requires '.' !in lang && i < |lang|
    ensures !At(lang + rest, ".m.", i)
  {
    AtDots(lang + rest, i);
    assert (lang + rest)[i] in lang;
  }

  /** The first dot of a host ends its first label. */
  lemma FirstDot(lang: string, rest: string, n: nat)
    requires '.' !in lang && StartsWith(rest, ".") && n < |lang + rest|
    ensures (lang + rest)[n] == '.' && (forall i :: 0 <= i < n ==> (lang + rest)[i] != '.') <==> n == |lang|
  {
    var host := lang + rest;
    assert host[|lang|] == rest[0] == '.';
    assert forall i :: 0 <= i < |lang| ==> host[i] in lang;
  }

  /** A label and a dot start a host exactly if it is the first label. */
  lemma FirstLabel(lang: string, rest: string, name: string)
    requires '.' !in lang && '.' !in name && StartsWith(rest, ".")
    ensures StartsWith(lang + rest, name + ".") <==> lang == name
  {
    var (host, n) := (lang + rest, |name|);
    if StartsWith(host, name + ".") {
      FirstDot(lang, rest, n);
      FirstDot(name, ".", n);
      assert forall i :: 0 <= i <= n ==> host[i] == (name + ".")[i];
      assert host[..n] == name && host[..|lang|] == lang;
    }
    if lang == name { assert host[..n + 1] == name + "."; }
  }

  predicate IsWikipedia(rest: string) { rest == "wikipedia.org" || EndsWith(rest, ".wikipedia.org") }

  lemma EndsBehind(front: string, back: string, suffix: string)
    requires EndsWith(back, suffix)
    ensures EndsWith(front + back, suffix)
  {
    assert (front + back)[|front + back| - |suffix|..] == back[|back| - |suffix|..];
  }

  lemma EndsShorter(s: string, suffix: string)
    requires suffix != ""
    ensures EndsWith(s, suffix) ==> EndsWith(s, suffix[1..]) && s[|s| - 1] == suffix[|suffix| - 1]
  {
    if EndsWith(s, suffix) {
      assert s[|s| - |suffix| + 1..] == s[|s| - |suffix|..][1..];
      assert s[|s| - 1] == s[|s| - |suffix|..][|suffix| - 1];
    }
  }

  /** Of two endings of a text the longer one ends in the shorter. */
  lemma EndsTwice(s: string, a: string, b: string)
    requires |a| <= |b|
    ensures EndsWith(s, a) && EndsWith(s, b) ==> EndsWith(b, a)
  {
    if EndsWith(s, b) && EndsWith(s, a) { assert b[|b| - |a|..] == s[|s| - |b|..][|b| - |a|..] == s[|s| - |a|..]; }
  }

  lemma EndsInSite(front: string, rest: string)
    requires IsWikipedia(rest)
    ensures EndsWith(front + ("." + rest), ".wikipedia.org")
  {
    assert "." + "wikipedia.org" == ".wikipedia.org";
    if rest != "wikipedia.org" { EndsBehind(".", rest, ".wikipedia.org"); }
    EndsBehind(front, "." + rest, ".wikipedia.org");
  }

  lemma SiteChars(s: string, k: nat)
    requires EndsWith(s, ".wikipedia.org") && At(s, ".m.", k)
    ensures k + 2 <= |s| - 14
  {
    var (site, n) := (".wikipedia.org", |s| - 14);
    AtDots(s, k);
    assert forall i :: n <= i < |s| ==> s[i] == s[n..][i - n] == site[i - n];
  }

  /** What follows a label `m` in a Wikipedia host is one too. */
  lemma AfterDot(s: string, k: nat)
    requires EndsWith(s, ".wikipedia.org") && At(s, ".m.", k)
    ensures IsWikipedia(s[k + 3..])
  {
    SiteChars(s, k);
    var n := |s| - 14;
    if k + 2 == n {
      assert s[k + 3..] == s[n..][1..];
    } else {
      assert s[k + 3..][n - k - 3..] == s[n..];
    }
  }

  lemma MobileSplit(host: string, at: nat)
    requires EndsWith(host, ".wikipedia.org") && FindText(host, ".m.") == Some(at) && at > 0
    ensures WithoutMobile(host) == host[..at] + "." + host[at + 3..] && |WithoutMobile(host)| == |host| - 2
  {
    AfterDot(host, at);
  }

  lemma FoundAt(host: string, at: nat)
    requires At(host, ".m.", at) && forall i: nat :: i < at ==> !At(host, ".m.", i)
    ensures FindText(host, ".m.") == Some(at)
  {
  }

  lemma MobileDot(lang: string, rest: string)
    requires '.' !in lang && StartsWith(rest, ".m.")
    ensures FindText(lang + rest, ".m.") == Some(|lang|)
  {
    AtShift(lang, rest, ".m.", |lang|);
    forall i: nat ensures i < |lang| ==> !At(lang + rest, ".m.", i) {
      if i < |lang| { NotInLabel(lang, rest, i); }
    }
  }

  lemma MobileEdition(lang: string, rest: string)
    requires lang != "" && '.' !in lang && IsWikipedia(rest)
    ensures WithoutMobile(lang + (".m." + rest)) == lang + ("." + rest)
  {
    var host := lang + (".m." + rest);
    assert host == (lang + ".m") + ("." + rest);
    EndsInSite(lang + ".m", rest);
    MobileDot(lang, ".m." + rest);
    MobileSplit(host, |lang|);
    Slices(lang, ".m.", rest);
  }

  lemma Slices(lang: string, mid: string, rest: string)
    ensures (lang + (mid + rest))[..|lang|] == lang && (lang + (mid + rest))[|lang| + |mid|..] == rest
  {
  }

  /** A label `m` after some dot, seen with a dot in front of the host. */
  predicate HasMobileLabel(host: string) { FindText("." + host, ".m.").Some? }

  lemma MobileLabelIff(host: string)
    ensures HasMobileLabel(host) <==> StartsWith(host, "m.") || FindText(host, ".m.").Some?
  {
    var dotted := "." + host;
    assert At(dotted, ".m.", 0) <==> StartsWith(host, "m.") by {
      if StartsWith(host, "m.") { assert dotted[0..3] == "." + host[..2]; }
      if At(dotted, ".m.", 0) { assert dotted[0..3][1..] == host[..2]; }
    }
    forall i: nat | i > 0 ensures At(dotted, ".m.", i) == At(host, ".m.", i - 1) { AtShift(".", host, ".m.", i); }
    if FindText(host, ".m.").Some? { assert At(dotted, ".m.", FindText(host, ".m.").value + 1); }
  }

  /** A Wikipedia host with another label in front of it keeps its form exactly without a label `m`. */
  lemma DesktopEdition(lang: string, rest: string)
    requires lang != "" && '.' !in lang && IsWikipedia(rest)
    ensures WithoutMobile(lang + ("." + rest)) == lang + ("." + rest) <==> !HasMobileLabel(lang + ("." + rest))
  {
    var host := lang + ("." + rest);
    MobileLabelIff(host);
    EndsInSite(lang, rest);
    var at := FindText(host, ".m.");
    if at.Some? {
      if at.value == 0 { NotInLabel(lang, "." + rest, 0); }
      MobileSplit(host, at.value);
    }
  }

  /** The same below `www.`, which is gone from both. */
  lemma BareEdition(rest: string)
    requires IsWikipedia(rest)
    ensures WithoutMobile("m." + rest) == WithoutMobile(rest) <==> !HasMobileLabel(rest)
  {
    var host := "m" + ("." + rest);
    assert host == "m." + rest && host[2..] == rest;
    MobileLabelIff(rest);
    if !HasMobileLabel(rest) {
      BareNone(rest);
    } else if StartsWith(rest, "m.") {
      BareDouble(rest);
    } else {
      SiteHasNone(FindText(rest, ".m.").value);
      BareInner(rest, FindText(rest, ".m.").value);
    }
  }

  lemma AtBehind(rest: string, i: nat)
    ensures i >= 2 ==> At("m." + rest, ".m.", i) == At(rest, ".m.", i - 2)
    ensures !At("m." + rest, ".m.", 0) && (At("m." + rest, ".m.", 1) <==> StartsWith(rest, "m."))
  {
    var host := "m." + rest;
    if i >= 2 { AtShift("m.", rest, ".m.", i); }
    AtDots(host, 0);
    if StartsWith(rest, "m.") { assert host[1..4] == "." + rest[..2]; }
    if At(host, ".m.", 1) { assert host[1..4][1..] == rest[..2]; }
  }

  lemma BareNone(rest: string)
    requires FindText(rest, ".m.").None? && !StartsWith(rest, "m.")
    ensures WithoutMobile("m." + rest) == rest == WithoutMobile(rest)
  {
    forall i: nat ensures !At("m." + rest, ".m.", i) { AtBehind(rest, i); }
    assert ("m." + rest)[2..] == rest;
  }

  /** `www.m.m.…`: the desktop host loses its `m.`, the mobile one keeps one. */
  lemma BareDouble(rest: string)
    requires IsWikipedia(rest) && StartsWith(rest, "m.")
    ensures |WithoutMobile("m." + rest)| == |rest| && |WithoutMobile(rest)| == |rest| - 2
  {
    var host := "m" + ("." + rest);
    assert host == "m." + rest;
    EndsInSite("m", rest);
    AtBehind(rest, 0);
    FoundAt("m." + rest, 1);
    MobileSplit(host, 1);
    var at := FindText(rest, ".m.");
    if at.Some? {
      AtDots(rest, 0);
      MobileSplit(rest, at.value);
    }
  }

  lemma BareInner(rest: string, k: nat)
    requires EndsWith(rest, ".wikipedia.org") && !StartsWith(rest, "m.") && FindText(rest, ".m.") == Some(k)
    ensures WithoutMobile("m." + rest) != WithoutMobile(rest)
  {
    BareMobile(rest, k);
    AtDots(rest, k);
    if k > 0 { MobileSplit(rest, k); }
  }

  lemma BareFound(rest: string, k: nat)
    requires !StartsWith(rest, "m.") && FindText(rest, ".m.") == Some(k)
    ensures FindText("m." + rest, ".m.") == Some(k + 2)
  {
    forall i: nat ensures i < k + 2 ==> !At("m." + rest, ".m.", i) { AtBehind(rest, i); }
    AtBehind(rest, k + 2);
    FoundAt("m." + rest, k + 2);
  }

  lemma BareMobile(rest: string, k: nat)
    requires EndsWith(rest, ".wikipedia.org") && !StartsWith(rest, "m.") && FindText(rest, ".m.") == Some(k)
    ensures |WithoutMobile("m." + rest)| == |rest| && WithoutMobile("m." + rest)[0] == 'm'
  {
    BareFound(rest, k);
    EndsBehind("m.", rest, ".wikipedia.org");
    MobileSplit("m." + rest, k + 2);
  }

  lemma SiteHasNone(k: nat)
    ensures !At("wikipedia.org", ".m.", k)
  {
    AtDots("wikipedia.org", k);
  }

  /** The mobile and the desktop host of a Wikipedia have one key exactly if the desktop host has no
      label `m`. */
  lemma MobileWikipediaIff(lang: string, rest: string)
    requires lang != "" && '.' !in lang && IsWikipedia(Lower(rest))
    ensures CanonicalHost(lang + ".m." + rest) == CanonicalHost(lang + "." + rest) <==>
            !HasMobileLabel(Lower(lang + "." + rest))
  {
    var (l, r) := (Lower(lang), Lower(rest));
    LowerParts(lang, rest);
    FirstLabel(l, ".m." + r, "www");
    FirstLabel(l, "." + r, "www");
    if l == "www" {
      WwwHosts(r);
      BareEdition(r);
      WwwLabel(r);
    } else {
      MobileEdition(l, r);
      DesktopEdition(l, r);
    }
  }

  lemma LowerParts(lang: string, rest: string)
    requires '.' !in lang
    ensures Lower(lang + ".m." + rest) == Lower(lang) + (".m." + Lower(rest)) && '.' !in Lower(lang)
    ensures Lower(lang + "." + rest) == Lower(lang) + ("." + Lower(rest))
  {
    assert forall i :: 0 <= i < |lang| && Lower(lang)[i] == '.' ==> lang[i] in lang;
  }

  lemma WwwHosts(r: string)
    ensures WithoutPrefix("www" + (".m." + r), "www.") == "m." + r && WithoutPrefix("www" + ("." + r), "www.") == r
  {
    var (mobile, desktop) := ("www" + (".m." + r), "www" + ("." + r));
    assert mobile[..4] == "www." && mobile[4..] == "m." + r;
    assert desktop[..4] == "www." && desktop[4..] == r;
  }

  lemma WwwLabel(r: string)
    ensures HasMobileLabel("www" + ("." + r)) <==> HasMobileLabel(r)
  {
    var (host, dotted) := ("www" + ("." + r), "." + r);
    MobileLabelIff(host);
    FirstLabel("www", dotted, "m");
    if FindText(host, ".m.").Some? {
      var i := FindText(host, ".m.").value;
      if i < 3 { NotInLabel("www", dotted, i); } else { AtShift("www", dotted, ".m.", i); }
    }
    if FindText(dotted, ".m.").Some? { AtShift("www", dotted, ".m.", FindText(dotted, ".m.").value + 3); }
  }

  /** A host that does not begin with `www.` keeps its small letters, except that one with the first
      label `m` loses that label; the mobile labels of Wikipedia apart. */
  lemma PlainHost(host: string)
    requires !StartsWith(Lower(host), "www.") && !EndsWith(Lower(host), "wikipedia.org")
    ensures !StartsWith(Lower(host), "m.") ==> CanonicalHost(host) == Lower(host)
    ensures StartsWith(Lower(host), "m.") ==> Lower(host) == "m." + CanonicalHost(host)
  {
    var (h, at) := (Lower(host), FindText(Lower(host), ".m."));
    if at.Some? { SiteAtEnd(h[..at.value + 3], h[at.value + 3..]); }
  }

  lemma SiteAtEnd(front: string, rest: string)
    ensures IsWikipedia(rest) ==> EndsWith(front + rest, "wikipedia.org")
    ensures forall h :: h == front + rest ==> h[..|front|] == front
  {
    EndsShorter(rest, ".wikipedia.org");
    assert ".wikipedia.org"[1..] == "wikipedia.org";
    if IsWikipedia(rest) { EndsBehind(front, rest, "wikipedia.org"); }
  }

  // ----- paths -----

  function TrimSlashes(path: string): (r: string)
    ensures r <= path && (r == "" || r[|r| - 1] != '/')
  {
    if path != "" && path[|path| - 1] == '/' then TrimSlashes(path[..|path| - 1]) else path
  }

  function StripIndexFile(path: string): string {
    if EndsWith(path, "/index.html") then path[..|path| - 11]
    else if EndsWith(path, "/index.htm") then path[..|path| - 10]
    else path
  }

  predicate AllIn(s: string, lo: char, hi: char) { forall i :: 0 <= i < |s| ==> lo <= s[i] <= hi }

  /** `/xx` or `/xx-YY`. */
  predicate IsLocaleRootPath(path: string) {
    var (language, region) := SplitOnce(WithoutPrefix(path, "/"), '-');
    && |language| == 2 && AllIn(language, 'a', 'z')
    && (region.Some? ==> |region.value| == 2 && AllIn(region.value, 'A', 'Z'))
  }

  function CanonicalPath(path: string): string {
    var p := StripIndexFile(TrimSlashes(path));
    if p == "" || IsLocaleRootPath(p) then "/" else p
  }

  /** A trailing slash never makes a difference. */
  lemma TrailingSlashIrrelevant(path: string)
    ensures CanonicalPath(path + "/") == CanonicalPath(path)
  {
    assert (path + "/")[..|path|] == path;
  }

  lemma StripsIndex(path: string, p: string)
    requires p == path + "/index.html"
    ensures TrimSlashes(p) == p && StripIndexFile(p) == path
  {
    assert p[|p| - 11..] == "/index.html" && p[..|p| - 11] == path;
  }

  predicate EndsInIndexOrSlash(path: string) {
    EndsWith(path, "/") || EndsWith(path, "/index.html") || EndsWith(path, "/index.htm")
  }

  lemma EndsPlain(path: string)
    requires !EndsInIndexOrSlash(path)
    ensures StripIndexFile(TrimSlashes(path)) == path
  {
    if path != "" { assert path[|path| - 1..] == [path[|path| - 1]]; }
  }

  lemma EndsNotPlain(path: string)
    requires EndsInIndexOrSlash(path)
    ensures |StripIndexFile(TrimSlashes(path))| < |path|
  {
    if EndsWith(path, "/") {
      assert path[|path| - 1] == path[|path| - 1..][0];
      assert TrimSlashes(path) == TrimSlashes(path[..|path| - 1]);
    } else {
      TrimEndingIn(path);
    }
  }

  lemma TrimEndingIn(path: string)
    requires !EndsWith(path, "/")
    ensures TrimSlashes(path) == path
  {
    if path != "" { assert path[|path| - 1..] == [path[|path| - 1]]; }
  }

  /** A locale root is short and ends in a letter. */
  lemma LocaleRootEnd(path: string)
    requires IsLocaleRootPath(path)
    ensures 2 <= |path| <= 6 && path[|path| - 1] != '/'
  {
    var segment := WithoutPrefix(path, "/");
    SplitJoins(segment, '-');
    var (language, region) := SplitOnce(segment, '-');
    assert segment[|segment| - 1] == if region.Some? then region.value[1] else language[1];
    assert path[|path| - 1] == segment[|segment| - 1];
  }

  lemma EndsLong(path: string)
    requires EndsInIndexOrSlash(path)
    ensures path[|path| - 1] == '/' || |path| >= 10
  {
    if EndsWith(path, "/") { assert path[|path| - 1] == path[|path| - 1..][0]; }
  }

  /** A trailing `/index.html` makes no difference exactly when the path before it is the root or
      ends in neither a slash nor an index file. */
  lemma IndexIrrelevantIff(path: string)
    ensures CanonicalPath(path + "/index.html") == CanonicalPath(path) <==> path == "/" || !EndsInIndexOrSlash(path)
  {
    StripsIndex(path, path + "/index.html");
    if EndsInIndexOrSlash(path) {
      EndsNotPlain(path);
      EndsLong(path);
      if IsLocaleRootPath(path) { LocaleRootEnd(path); }
      if path == "/" { assert TrimSlashes(path) == ""; }
    } else {
      EndsPlain(path);
    }
  }

  /** Of a path that ends in no slash all is kept but an index file at its end and a locale that is all
      of it. */
  lemma PathKept(path: string)
    requires path != "" && !EndsInIndexOrSlash(path)
    ensures CanonicalPath(path) == if IsLocaleRootPath(path) then "/" else path
    ensures CanonicalPath(path + "/index.htm") == CanonicalPath(path)
  {
    EndsPlain(path);
    var p := path + "/index.htm";
    assert p[|p| - 10..] == "/index.htm" && p[..|p| - 10] == path && p[|p| - 1] == 'm';
    EndsShorter(p, "/index.html");
    assert TrimSlashes(p) == p;
  }

  /** A locale root is two small letters, and after a dash two capitals, with or without a slash in
      front. */
  lemma LocaleRootIff(path: string, segment: string)
    requires path == "/" + segment || (path == segment && !StartsWith(path, "/"))
    ensures IsLocaleRootPath(path) <==>
            && |segment| >= 2 && 'a' <= segment[0] <= 'z' && 'a' <= segment[1] <= 'z'
            && (|segment| == 2
                || (|segment| == 5 && segment[2] == '-' && 'A' <= segment[3] <= 'Z' && 'A' <= segment[4] <= 'Z'))
  {
    assert WithoutPrefix(path, "/") == segment;
    SplitJoins(segment, '-');
    var (a, b) := SplitOnce(segment, '-');
    if IsLocaleRootPath(path) {
      assert segment[..2] == a && (b.Some? ==> segment[3..] == b.value);
    }
    if |segment| >= 2 && AllIn(segment[..2], 'a', 'z') {
      if |segment| == 2 {
        assert segment[..2] == segment;
        SplitAtFirst(segment, '-', "");
      } else if segment[2] == '-' {
        assert segment == segment[..2] + ['-'] + segment[3..];
        SplitAtFirst(segment[..2], '-', segment[3..]);
      }
    }
  }

  // ----- whole URLs -----

  /** A host that canonicalises to nothing cannot be set and stays. */
  function HostKey(host: string): string { if CanonicalHost(host) == "" then host else CanonicalHost(host) }

  function HostKeyOf(host: Option<string>): Option<string> {
    if host.Some? then Some(HostKey(host.value)) else None
  }

  function Canonical(u: Url): Url {
    var v := u.(fragment := None);
    var w := if IsHttp(v) then v.(port := None, scheme := "https", query := StripTrackingParams(v.query)) else v;
    w.(host := HostKeyOf(w.host), path := CanonicalPath(w.path))
  }

  /** The same page, as far as the merge key can tell. */
  predicate SamePage(u: Url, v: Url) {
    && u.user == v.user && HostKeyOf(u.host) == HostKeyOf(v.host) && CanonicalPath(u.path) == CanonicalPath(v.path)
    && multiset(Kept(Pairs(u.query))) == multiset(Kept(Pairs(v.query)))
  }

  /** Two web addresses have one canonical form exactly when user, canonical host, canonical path and
      the multiset of parameters that do not track agree: scheme, port, fragment, tracking
      parameters and the order of parameters do not matter, and everything else does. */
  lemma SameFormIff(u: Url, v: Url)
    requires IsHttp(u) && IsHttp(v)
    ensures Canonical(u) == Canonical(v) <==> SamePage(u, v)
  {
    StripSameIff(u.query, v.query);
  }

  /** What the form of an address is made of: the fragment goes, host and path are put in form, and of
      a web address also the port goes, the scheme is fixed and tracking parameters are stripped;
      everything else stays. */
  lemma FormKeeps(u: Url)
    ensures var c := Canonical(u);
            && c.user == u.user && c.fragment == None && c.path == CanonicalPath(u.path)
            && (c.host.Some? <==> u.host.Some?)
            && (u.host.Some? && CanonicalHost(u.host.value) != "" ==> c.host == Some(CanonicalHost(u.host.value)))
            && (u.host.Some? && CanonicalHost(u.host.value) == "" ==> c.host == u.host)
            && (u.scheme in {"http", "https"} ==>
                  c.scheme == "https" && c.port == None && c.query == StripTrackingParams(u.query))
            && (u.scheme !in {"http", "https"} ==> c.scheme == u.scheme && c.port == u.port && c.query == u.query)
  {
  }

  // ----- raw addresses -----

  datatype Library = Library(parse: string -> Option<Url>, write: Url -> string)

  predicate IsWeb(s: string) { StartsWith(s, "http://") || StartsWith(s, "https://") }

  /** The value of the first pair whose key is one of `keys`. */
  function FirstValue(pairs: seq<Pair>, keys: set<string>): Option<string> {
    if pairs == [] then None
    else if pairs[0].key in keys then Some(pairs[0].value)
    else FirstValue(pairs[1..], keys)
  }

  /** The first value under one of `keys` that is a web address. */
  function FirstWebValue(pairs: seq<Pair>, keys: set<string>): Option<string> {
    if pairs == [] then None
    else if pairs[0].key in keys && IsWeb(pairs[0].value) then Some(pairs[0].value)
    else FirstWebValue(pairs[1..], keys)
  }

  /** Where a click wrapper leads. */
  function Target(u: Url): Option<string> {
    var host := Lower(if u.host.Some? then u.host.value else "");
    var uddg := FirstValue(Pairs(u.query), {"uddg"});
    if (host == "duckduckgo.com" || EndsWith(host, ".duckduckgo.com")) && StartsWith(u.path, "/l")
       && uddg.Some? && IsWeb(uddg.value)
    then uddg
    else if EndsWith(host, "google.com") && u.path == "/url" then FirstWebValue(Pairs(u.query), {"q", "url"})
    else None
  }

  function UnwrapEngineRedirect(lib: Library, raw: string): string {
    var u := lib.parse(if StartsWith(raw, "//") then "https:" + raw else raw);
    if u.Some? && Target(u.value).Some? then Target(u.value).value else raw
  }

  function CanonicalMergeKey(lib: Library, raw: string): string {
    var unwrapped := UnwrapEngineRedirect(lib, raw);
    var u := lib.parse(unwrapped);
    if u.None? then Lower(TrimSlashes(unwrapped)) else lib.write(Canonical(u.value))
  }

  lemma {:induction false} FirstWebValueIsWeb(pairs: seq<Pair>, keys: set<string>)
    ensures FirstWebValue(pairs, keys).Some? ==>
              IsWeb(FirstWebValue(pairs, keys).value)
              && exists p :: p in pairs && p.key in keys && p.value == FirstWebValue(pairs, keys).value
  {
    if pairs != [] {
      FirstWebValueIsWeb(pairs[1..], keys);
      assert pairs[0] in pairs;
    }
  }

  /** Unwrapping changes nothing, or yields a web address. */
  lemma UnwrapsToWeb(lib: Library, raw: string)
    ensures var target := UnwrapEngineRedirect(lib, raw);
            target == raw || "http://" <= target || "https://" <= target
  {
    var u := lib.parse(if StartsWith(raw, "//") then "https:" + raw else raw);
    if u.Some? { FirstWebValueIsWeb(Pairs(u.value.query), {"q", "url"}); }
  }

  lemma {:induction false} FirstValueOf(before: seq<Pair>, p: Pair, after: seq<Pair>, keys: set<string>)
    requires p.key in keys
    ensures (forall q :: q in before ==> q.key !in keys) ==>
              FirstValue(before + [p] + after, keys) == Some(p.value)
    ensures IsWeb(p.value) && (forall q :: q in before ==> q.key !in keys || !IsWeb(q.value)) ==>
              FirstWebValue(before + [p] + after, keys) == Some(p.value)
  {
    var pairs := before + [p] + after;
    if before != [] {
      FirstValueOf(before[1..], p, after, keys);
      assert pairs[1..] == before[1..] + [p] + after;
      assert pairs[0] == before[0] && before[0] in before;
    }
  }

  /** A click wrapper of DuckDuckGo leads to the first `uddg` parameter, if that is a web address. */
  lemma DuckDuckGoUnwraps(lib: Library, raw: string, u: Url, before: seq<Pair>, target: string, after: seq<Pair>)
    requires !StartsWith(raw, "//") && lib.parse(raw) == Some(u)
    requires u.query == Some(before + [Pair("uddg", target)] + after)
    requires u.host.Some?
    requires Lower(u.host.value) == "duckduckgo.com" || EndsWith(Lower(u.host.value), ".duckduckgo.com")
    requires StartsWith(u.path, "/l") && ("http://" <= target || "https://" <= target)
    requires forall q :: q in before ==> q.key != "uddg"
    ensures UnwrapEngineRedirect(lib, raw) == target
  {
    FirstValueOf(before, Pair("uddg", target), after, {"uddg"});
  }

  lemma GoogleIsNotDuck(host: string)
    requires EndsWith(host, "google.com")
    ensures host != "duckduckgo.com" && !EndsWith(host, ".duckduckgo.com")
  {
    EndsTwice(host, "google.com", ".duckduckgo.com");
    EndsTwice(host, "google.com", "duckduckgo.com");
    assert "duckduckgo.com"[4..][0] == 'd' && ".duckduckgo.com"[5..][0] == 'd';
  }

  /** A click wrapper of Google leads to the first `q` or `url` parameter that is a web address. */
  lemma GoogleUnwraps(lib: Library, raw: string, u: Url, before: seq<Pair>, p: Pair, after: seq<Pair>)
    requires !StartsWith(raw, "//") && lib.parse(raw) == Some(u) && u.query == Some(before + [p] + after)
    requires u.host.Some? && EndsWith(Lower(u.host.value), "google.com") && u.path == "/url"
    requires p.key in {"q", "url"} && ("http://" <= p.value || "https://" <= p.value)
    requires forall q :: q in before ==> q.key !in {"q", "url"} || !("http://" <= q.value || "https://" <= q.value)
    ensures UnwrapEngineRedirect(lib, raw) == p.value
  {
    GoogleIsNotDuck(Lower(u.host.value));
    FirstValueOf(before, p, after, {"q", "url"});
  }

  /** An address of any other host, or that does not parse, is taken as it is. */
  lemma OthersStay(lib: Library, raw: string)
    requires var u := lib.parse(if StartsWith(raw, "//") then "https:" + raw else raw);
             u.Some? && u.value.host.Some? ==>
               var host := Lower(u.value.host.value); !EndsWith(host, "duckduckgo.com") && !EndsWith(host, "google.com")
    ensures UnwrapEngineRedirect(lib, raw) == raw
  {
    var u := lib.parse(if StartsWith(raw, "//") then "https:" + raw else raw);
    if u.Some? { OtherHost(if u.value.host.Some? then Lower(u.value.host.value) else ""); }
  }

  lemma OtherHost(host: string)
    requires !EndsWith(host, "duckduckgo.com")
    ensures host != "duckduckgo.com" && !EndsWith(host, ".duckduckgo.com")
  {
    EndsShorter(host, ".duckduckgo.com");
    assert ".duckduckgo.com"[1..] == "duckduckgo.com";
    assert "duckduckgo.com"[0..] == "duckduckgo.com";
  }

  /** An address without a scheme leads where it would lead with one. */
  lemma SchemelessUnwraps(lib: Library, raw: string)
    requires StartsWith(raw, "//")
    ensures var (x, y) := (UnwrapEngineRedirect(lib, raw), UnwrapEngineRedirect(lib, "https:" + raw));
            x == y || (x == raw && y == "https:" + raw)
  {
    assert ("https:" + raw)[0] == 'h';
  }

  /** Texts that do not parse have one key exactly if they differ in case and trailing slashes only. */
  lemma UnparsedKeyIff(lib: Library, a: string, b: string)
    requires lib.parse(a).None? && lib.parse(b).None? && !StartsWith(a, "//") && !StartsWith(b, "//")
    ensures CanonicalMergeKey(lib, a) == CanonicalMergeKey(lib, b) <==> Lower(TrimSlashes(a)) == Lower(TrimSlashes(b))
    ensures CanonicalMergeKey(lib, a) == Lower(TrimSlashes(a))
  {
  }

  /** The web page an address stands for, behind a click wrapper if it is one. */
  ghost predicate LeadsTo(lib: Library, raw: string, u: Url) {
    lib.parse(UnwrapEngineRedirect(lib, raw)) == Some(u) && IsHttp(u)
  }

  /** Different canonical forms of addresses that parse are written differently. */
  ghost predicate WritesApart(lib: Library) {
    forall a, b ::
      lib.parse(a).Some? && lib.parse(b).Some?
      && lib.write(Canonical(lib.parse(a).value)) == lib.write(Canonical(lib.parse(b).value)) ==>
        Canonical(lib.parse(a).value) == Canonical(lib.parse(b).value)
  }

  /** Addresses, wrapped or not, have one merge key exactly when they lead to the same page; that
      different pages differ in their keys takes different URLs to be written differently. */
  lemma SameKeyIff(lib: Library, a: string, b: string, u: Url, v: Url)
    requires LeadsTo(lib, a, u) && LeadsTo(lib, b, v)
    ensures SamePage(u, v) ==> CanonicalMergeKey(lib, a) == CanonicalMergeKey(lib, b)
    ensures WritesApart(lib) && CanonicalMergeKey(lib, a) == CanonicalMergeKey(lib, b) ==> SamePage(u, v)
  {
    SameFormIff(u, v);
  }

  /** So two results merge exactly when the addresses they go by lead to the same page. */
  lemma PagesMergeIff(h: Heuristics, lib: Library, r: Result, s: Result, u: Url, v: Url)
    requires (forall raw :: h.canon(raw) == CanonicalMergeKey(lib, raw)) && WritesApart(lib)
    requires r.Page? && s.Page? && Address(r) != "" && Address(s) != ""
    requires LeadsTo(lib, Address(r), u) && LeadsTo(lib, Address(s), v)
    ensures KeyOf(h, r) == KeyOf(h, s) <==> SamePage(u, v)
  {
    SameKeyIff(lib, Address(r), Address(s), u, v);
  }

  /** A result goes by its normalized address if it has one. */
  function Address(r: Result): string
    requires r.Page?
  {
    if r.normalizedUrl != "" then r.normalizedUrl else r.url
  }
}
