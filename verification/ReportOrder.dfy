/** When the order of the outcomes in a report is irrelevant to the results of
    zoeken/zoeken-search/src/aggregation.rs, and when to the score of one page. */
module ReportOrder {
  import opened Ordering
  import opened Wrappers
  import opened Aggregation
  import opened Scoring
  import opened FinalOrder
  import opened ResultBuilder
  import opened ArrivalOrder

  // ----- what an entry can show -----

  /** The first result of the page in the answer of one engine, and its first good one. */
  function LeadOf(h: Heuristics, o: RunOutcome, key: string): Option<Listing> { FirstListing(h, AnswerOf(o), key) }

  function GoodOf(h: Heuristics, o: RunOutcome, key: string): Option<Listing> { FirstGood(h, AnswerOf(o), key) }

  /** `good` can be the first good listing when `o` is the first outcome to list the page: its own
      if it has one, or else that of any other, if any has one. */
  ghost predicate MayFollow(h: Heuristics, report: seq<RunOutcome>, key: string, o: RunOutcome, good: Option<Listing>) {
    if GoodOf(h, o, key).Some? then good == GoodOf(h, o, key)
    else if good.None? then forall o' :: o' in report ==> GoodOf(h, o', key).None?
    else exists o' :: o' in report && GoodOf(h, o', key) == good
  }

  /** An entry of the page can show `r`: the first result of one outcome, in the text that may follow. */
  ghost predicate CanShow(h: Heuristics, report: seq<RunOutcome>, key: string, r: Result) {
    exists o, good :: o in report && LeadOf(h, o, key).Some? && MayFollow(h, report, key, o, good)
                      && r == Dressed(LeadOf(h, o, key).value.result, good)
  }

  lemma FirstOfInit(p: Listing -> bool, report: seq<RunOutcome>)
    requires report != []
    ensures var f := FirstWhere(p, LogOf(report[..|report| - 1]));
            FirstWhere(p, LogOf(report)) == if f.Some? then f else FirstWhere(p, AnswerOf(report[|report| - 1]))
  {
    FirstOfConcat(p, LogOf(report[..|report| - 1]), AnswerOf(report[|report| - 1]));
  }

  lemma {:induction false} FirstOfReport(p: Listing -> bool, report: seq<RunOutcome>)
    ensures var f := FirstWhere(p, LogOf(report));
            && (f.Some? ==> exists o :: o in report && FirstWhere(p, AnswerOf(o)) == f)
            && (f.None? ==> forall o :: o in report ==> FirstWhere(p, AnswerOf(o)).None?)
  {
    if report != [] {
      FirstOfReport(p, report[..|report| - 1]);
      FirstOfInit(p, report);
      assert report[|report| - 1] in report;
      assert forall o :: o in report <==> o in report[..|report| - 1] || o == report[|report| - 1];
    }
  }

  lemma {:induction false} LeadOfReport(h: Heuristics, report: seq<RunOutcome>, key: string) returns (o: RunOutcome)
    requires FirstListing(h, LogOf(report), key).Some?
    ensures o in report && LeadOf(h, o, key) == FirstListing(h, LogOf(report), key)
    ensures GoodOf(h, o, key).Some? ==> GoodOf(h, o, key) == FirstGood(h, LogOf(report), key)
  {
    var init, last := report[..|report| - 1], report[|report| - 1];
    FirstOfInit(ListsPage(h, key), report);
    FirstOfInit(ShowsPage(h, key), report);
    if FirstListing(h, LogOf(init), key).Some? {
      o := LeadOfReport(h, init, key);
    } else {
      o := last;
      GoodIsListed(h, LogOf(init), key);
    }
  }

  lemma FaceCanShow(h: Heuristics, report: seq<RunOutcome>, key: string)
    requires FaceOf(h, LogOf(report), key).Some?
    ensures CanShow(h, report, key, FaceOf(h, LogOf(report), key).value)
  {
    var o := LeadOfReport(h, report, key);
    FirstOfReport(ShowsPage(h, key), report);
    assert MayFollow(h, report, key, o, FirstGood(h, LogOf(report), key));
  }

  /** Every order of the outcomes gives the page a face from the list. */
  lemma Shown(h: Heuristics, report: seq<RunOutcome>, b: seq<RunOutcome>, key: string)
    requires multiset(b) == multiset(report) && FaceOf(h, LogOf(b), key).Some?
    ensures CanShow(h, report, key, FaceOf(h, LogOf(b), key).value)
  {
    var r := FaceOf(h, LogOf(b), key).value;
    FaceCanShow(h, b, key);
    var o, good :| o in b && LeadOf(h, o, key).Some? && MayFollow(h, b, key, o, good)
                   && r == Dressed(LeadOf(h, o, key).value.result, good);
    forall o' ensures o' in b <==> o' in report { assert o' in multiset(b) <==> o' in multiset(report); }
    assert MayFollow(h, report, key, o, good);
  }

  lemma MovedFirst(p: Listing -> bool, o: RunOutcome, rest: seq<RunOutcome>)
    ensures var f := FirstWhere(p, AnswerOf(o));
            FirstWhere(p, LogOf([o] + rest)) == if f.Some? then f else FirstWhere(p, LogOf(rest))
  {
    LogConcat([o], rest);
    LogSnoc([], o);
    assert [] + [o] == [o] && [] + AnswerOf(o) == AnswerOf(o);
    FirstOfConcat(p, AnswerOf(o), LogOf(rest));
  }

  lemma MoveFirst(report: seq<RunOutcome>, o: RunOutcome) returns (rest: seq<RunOutcome>)
    requires o in report
    ensures multiset([o] + rest) == multiset(report) && multiset(rest) == multiset(report) - multiset{o}
  {
    var before, after := TakeOut(report, o);
    rest := before + after;
  }

  /** An order in which `o'` comes second, after `o`. */
  lemma TwoFirst(h: Heuristics, report: seq<RunOutcome>, key: string, o: RunOutcome, o': RunOutcome)
    returns (b: seq<RunOutcome>)
    requires o in report && o' in report && LeadOf(h, o, key).Some?
    requires GoodOf(h, o, key).None? && GoodOf(h, o', key).Some?
    ensures multiset(b) == multiset(report)
    ensures FirstListing(h, LogOf(b), key) == LeadOf(h, o, key) && FirstGood(h, LogOf(b), key) == GoodOf(h, o', key)
  {
    var s := MoveFirst(report, o);
    assert o' in multiset(report) && o' != o;
    assert o' in multiset(s);
    var rest := MoveFirst(s, o');
    b := [o] + ([o'] + rest);
    assert multiset(b) == multiset{o} + multiset([o'] + rest);
    MovedFirst(ListsPage(h, key), o, [o'] + rest);
    MovedFirst(ShowsPage(h, key), o, [o'] + rest);
    MovedFirst(ShowsPage(h, key), o', rest);
  }

  /** Every face from the list is the page's in some order of the outcomes. */
  lemma Realize(h: Heuristics, report: seq<RunOutcome>, key: string, r: Result) returns (b: seq<RunOutcome>)
    requires CanShow(h, report, key, r)
    ensures multiset(b) == multiset(report) && FaceOf(h, LogOf(b), key) == Some(r)
  {
    var o, good :| o in report && LeadOf(h, o, key).Some? && MayFollow(h, report, key, o, good)
                   && r == Dressed(LeadOf(h, o, key).value.result, good);
    if GoodOf(h, o, key).None? && good.Some? {
      var o' :| o' in report && GoodOf(h, o', key) == good;
      b := TwoFirst(h, report, key, o, o');
    } else {
      var rest := MoveFirst(report, o);
      b := [o] + rest;
      MovedFirst(ListsPage(h, key), o, rest);
      MovedFirst(ShowsPage(h, key), o, rest);
      FirstOfReport(ShowsPage(h, key), b);
      forall o' ensures o' in b <==> o' in report { assert o' in multiset(b) <==> o' in multiset(report); }
    }
  }

  // ----- when the order of the outcomes is irrelevant to the list -----

  ghost predicate OrderIrrelevant(h: Heuristics, report: seq<RunOutcome>, w: Weights, query: string) {
    forall b :: multiset(b) == multiset(report) ==>
      Ranks(FinalResults(h, Build(h, LogOf(b)), w, query)) == Ranks(FinalResults(h, Build(h, LogOf(report)), w, query))
  }

  /** All that an entry can show for a page ranks alike. */
  ghost predicate FacesAlike(h: Heuristics, report: seq<RunOutcome>, w: Weights, query: string) {
    forall key, r, s :: CanShow(h, report, key, r) && CanShow(h, report, key, s) ==>
      Alike(h, LogOf(report), w, query, key, r, s)
  }

  lemma PermutedArrivals(h: Heuristics, a: seq<RunOutcome>, b: seq<RunOutcome>)
    requires multiset(a) == multiset(b)
    ensures SameArrivals(h, LogOf(a), LogOf(b))
  {
    PermutedReport(a, b);
  }

  lemma AlikeWhenIrrelevant(h: Heuristics, report: seq<RunOutcome>, w: Weights, query: string, key: string,
                            r: Result, s: Result)
    requires UrlsNamePages(h, LogOf(report)) && OrderIrrelevant(h, report, w, query)
    requires CanShow(h, report, key, r) && CanShow(h, report, key, s)
    ensures Alike(h, LogOf(report), w, query, key, r, s)
  {
    var a := Realize(h, report, key, r);
    var b := Realize(h, report, key, s);
    PermutedArrivals(h, report, a);
    PermutedArrivals(h, a, b);
    NamesTransfer(h, LogOf(report), LogOf(a));
    SameOrderIff(h, LogOf(a), LogOf(b), w, query);
    AlikeTransfers(h, LogOf(report), LogOf(a), w, query, key, r, s);
  }

  /** For every query: the ranked list is the same for every order of the outcomes exactly when, for
      every page, all its entry can show ranks alike, that is, has one URL, score and engine count. */
  lemma OrderIrrelevantIff(h: Heuristics, report: seq<RunOutcome>, w: Weights, query: string)
    requires UrlsNamePages(h, LogOf(report))
    ensures OrderIrrelevant(h, report, w, query) <==> FacesAlike(h, report, w, query)
  {
    if FacesAlike(h, report, w, query) {
      forall b | multiset(b) == multiset(report)
        ensures Ranks(FinalResults(h, Build(h, LogOf(b)), w, query))
                == Ranks(FinalResults(h, Build(h, LogOf(report)), w, query))
      {
        FacesAreShown(h, report, b, w, query);
        PermutedArrivals(h, report, b);
        SameOrderIff(h, LogOf(report), LogOf(b), w, query);
      }
    }
    if OrderIrrelevant(h, report, w, query) {
      forall key, r, s | CanShow(h, report, key, r) && CanShow(h, report, key, s)
        ensures Alike(h, LogOf(report), w, query, key, r, s)
      {
        AlikeWhenIrrelevant(h, report, w, query, key, r, s);
      }
    }
  }

  lemma FacesAreShown(h: Heuristics, report: seq<RunOutcome>, b: seq<RunOutcome>, w: Weights, query: string)
    requires multiset(b) == multiset(report) && FacesAlike(h, report, w, query)
    ensures SameFaces(h, LogOf(report), LogOf(b), w, query)
  {
    forall key | FaceOf(h, LogOf(report), key).Some? && FaceOf(h, LogOf(b), key).Some?
      ensures Alike(h, LogOf(report), w, query, key,
                    FaceOf(h, LogOf(report), key).value, FaceOf(h, LogOf(b), key).value)
    {
      Shown(h, report, report, key);
      Shown(h, report, b, key);
    }
  }

  // ----- the score of one page -----

  /** The score of a page in the aggregated report; zero if it has none. */
  function PageScore(h: Heuristics, report: seq<RunOutcome>, w: Weights, query: string, key: string): real {
    if key in Build(h, LogOf(report)).byKey then ScoreOf(h, EntryFor(h, LogOf(report), key), w, query) else 0.0
  }

  /** The score is the one the page deserves under the face its listings give it. */
  lemma ScoreOfPage(h: Heuristics, report: seq<RunOutcome>, w: Weights, query: string, key: string)
    ensures var face := FaceOf(h, LogOf(report), key);
            PageScore(h, report, w, query, key)
            == if face.Some? && face.value.Page? then FaceScore(h, LogOf(report), w, query, key, face.value) else 0.0
  {
    var log := LogOf(report);
    BuildKeys(h, log, key);
    if key in Build(h, log).byKey {
      EntryForOk(h, log, key);
      EntryIsFirst(h, log, key);
      EntryScore(h, log, w, query, key, EntryFor(h, log, key));
    }
  }

  ghost predicate ScoreIrrelevant(h: Heuristics, report: seq<RunOutcome>, w: Weights, query: string, key: string) {
    forall b :: multiset(b) == multiset(report) ==>
      PageScore(h, b, w, query, key) == PageScore(h, report, w, query, key)
  }

  /** All that an entry can show for the page scores the same. */
  ghost predicate ScoresAgree(h: Heuristics, report: seq<RunOutcome>, w: Weights, query: string, key: string) {
    forall r, s :: CanShow(h, report, key, r) && CanShow(h, report, key, s) && r.Page? && s.Page? ==>
      FaceScore(h, LogOf(report), w, query, key, r) == FaceScore(h, LogOf(report), w, query, key, s)
  }

  lemma SameScore(h: Heuristics, report: seq<RunOutcome>, b: seq<RunOutcome>, w: Weights, query: string, key: string)
    requires multiset(b) == multiset(report) && ScoresAgree(h, report, w, query, key)
    ensures PageScore(h, b, w, query, key) == PageScore(h, report, w, query, key)
  {
    var face, face' := FaceOf(h, LogOf(report), key), FaceOf(h, LogOf(b), key);
    PermutedReport(report, b);
    FirstTransfers(h, LogOf(report), LogOf(b), key);
    ScoreOfPage(h, report, w, query, key);
    ScoreOfPage(h, b, w, query, key);
    FaceIsGood(h, LogOf(report), key);
    FaceIsGood(h, LogOf(b), key);
    if face.Some? {
      Shown(h, report, report, key);
      Shown(h, report, b, key);
      RankTransfers(h, LogOf(report), LogOf(b), w, query, key, face'.value);
    }
  }

  lemma FirstTransfers(h: Heuristics, a: seq<Listing>, b: seq<Listing>, key: string)
    requires SameListings(a, b)
    ensures FaceOf(h, a, key).Some? <==> FaceOf(h, b, key).Some?
  {
    FirstIsListed(h, a, key);
    FirstIsListed(h, b, key);
    if j :| 0 <= j < |a| && Lists(h, a[j], key) { assert a[j] in b; }
    if j :| 0 <= j < |b| && Lists(h, b[j], key) { assert b[j] in a; }
  }

  lemma ScoreWhenShown(h: Heuristics, report: seq<RunOutcome>, w: Weights, query: string, key: string, r: Result)
    requires CanShow(h, report, key, r) && r.Page? && ScoreIrrelevant(h, report, w, query, key)
    ensures PageScore(h, report, w, query, key) == FaceScore(h, LogOf(report), w, query, key, r)
  {
    var b := Realize(h, report, key, r);
    ScoreOfPage(h, b, w, query, key);
    PermutedReport(report, b);
    RankTransfers(h, LogOf(report), LogOf(b), w, query, key, r);
  }

  /** For every query: the score of a page is the same for every order of the outcomes exactly when
      all that its entry can show scores the same. */
  lemma ScoreIrrelevantIff(h: Heuristics, report: seq<RunOutcome>, w: Weights, query: string, key: string)
    ensures ScoreIrrelevant(h, report, w, query, key) <==> ScoresAgree(h, report, w, query, key)
  {
    if ScoresAgree(h, report, w, query, key) {
      forall b | multiset(b) == multiset(report)
        ensures PageScore(h, b, w, query, key) == PageScore(h, report, w, query, key)
      {
        SameScore(h, report, b, w, query, key);
      }
    }
    if ScoreIrrelevant(h, report, w, query, key) {
      forall r, s | CanShow(h, report, key, r) && CanShow(h, report, key, s) && r.Page? && s.Page?
        ensures FaceScore(h, LogOf(report), w, query, key, r) == FaceScore(h, LogOf(report), w, query, key, s)
      {
        ScoreWhenShown(h, report, w, query, key, r);
        ScoreWhenShown(h, report, w, query, key, s);
      }
    }
  }

  // ----- queries without a search term -----

  /** The answers that list a page agree on the rank their first result for it would give it. */
  ghost predicate LeadsAgree(h: Heuristics, report: seq<RunOutcome>, w: Weights, query: string) {
    forall o, o', key :: o in report && o' in report && LeadOf(h, o, key).Some? && LeadOf(h, o', key).Some? ==>
      Alike(h, LogOf(report), w, query, key, LeadOf(h, o, key).value.result, LeadOf(h, o', key).value.result)
  }

  /** The answers that list the page agree on the score that the priority of their first result for
      it would give it. */
  ghost predicate PrioritiesAgree(h: Heuristics, report: seq<RunOutcome>, w: Weights, key: string) {
    forall o, o' :: o in report && o' in report && LeadOf(h, o, key).Some? && LeadOf(h, o', key).Some? ==>
      LeadScore(h, report, w, key, o) == LeadScore(h, report, w, key, o')
  }

  ghost function LeadScore(h: Heuristics, report: seq<RunOutcome>, w: Weights, key: string, o: RunOutcome): real
    requires LeadOf(h, o, key).Some?
  {
    var r := LeadOf(h, o, key).value.result;
    if r.Page? then KeyScore(h, LogOf(report), w, r.priority, key) else 0.0
  }

  /** What an entry can show has the identity of a first result, and each of these can be shown. */
  lemma LeadShown(h: Heuristics, report: seq<RunOutcome>, key: string, o: RunOutcome) returns (r: Result)
    requires o in report && LeadOf(h, o, key).Some?
    ensures CanShow(h, report, key, r) && SameIdentity(r, LeadOf(h, o, key).value.result)
  {
    FirstIsListed(h, AnswerOf(o), key);
    var good := GoodOf(h, o, key);
    if good.None? && exists o' :: o' in report && GoodOf(h, o', key).Some? {
      var o' :| o' in report && GoodOf(h, o', key).Some?;
      good := GoodOf(h, o', key);
    }
    assert MayFollow(h, report, key, o, good);
    r := Dressed(LeadOf(h, o, key).value.result, good);
  }

  lemma ShownLead(h: Heuristics, report: seq<RunOutcome>, key: string, r: Result) returns (o: RunOutcome)
    requires CanShow(h, report, key, r)
    ensures o in report && LeadOf(h, o, key).Some? && SameIdentity(r, LeadOf(h, o, key).value.result)
  {
    ghost var good: Option<Listing>;
    o, good :| o in report && LeadOf(h, o, key).Some? && MayFollow(h, report, key, o, good)
               && r == Dressed(LeadOf(h, o, key).value.result, good);
    FirstIsListed(h, AnswerOf(o), key);
  }

  lemma BlankAlike(h: Heuristics, log: seq<Listing>, w: Weights, query: string, key: string,
                   r: Result, s: Result, r': Result, s': Result)
    requires Blank(h, query) && SameIdentity(r, r') && SameIdentity(s, s')
    ensures Alike(h, log, w, query, key, r, s) <==> Alike(h, log, w, query, key, r', s')
  {
    BlankScore(h, log, w, query, key, r);
    BlankScore(h, log, w, query, key, s);
    BlankScore(h, log, w, query, key, r');
    BlankScore(h, log, w, query, key, s');
  }

  /** Without a search term the texts do not count, and the first results of the answers decide. */
  lemma OrderIrrelevantWhenBlank(h: Heuristics, report: seq<RunOutcome>, w: Weights, query: string)
    requires UrlsNamePages(h, LogOf(report)) && Blank(h, query)
    ensures OrderIrrelevant(h, report, w, query) <==> LeadsAgree(h, report, w, query)
  {
    OrderIrrelevantIff(h, report, w, query);
    if LeadsAgree(h, report, w, query) {
      forall key, r, s | CanShow(h, report, key, r) && CanShow(h, report, key, s)
        ensures Alike(h, LogOf(report), w, query, key, r, s)
      {
        var o := ShownLead(h, report, key, r);
        var o' := ShownLead(h, report, key, s);
        BlankAlike(h, LogOf(report), w, query, key, r, s,
                   LeadOf(h, o, key).value.result, LeadOf(h, o', key).value.result);
      }
    }
    if FacesAlike(h, report, w, query) {
      forall o, o', key | o in report && o' in report && LeadOf(h, o, key).Some? && LeadOf(h, o', key).Some?
        ensures Alike(h, LogOf(report), w, query, key, LeadOf(h, o, key).value.result, LeadOf(h, o', key).value.result)
      {
        var r := LeadShown(h, report, key, o);
        var s := LeadShown(h, report, key, o');
        BlankAlike(h, LogOf(report), w, query, key, r, s,
                   LeadOf(h, o, key).value.result, LeadOf(h, o', key).value.result);
      }
    }
  }

  /** Without a search term the score of a page is the same for every order exactly when the answers
      that list it agree on it; if they disagree on the priority, the first one decides. */
  lemma ScoreIrrelevantWhenBlank(h: Heuristics, report: seq<RunOutcome>, w: Weights, query: string, key: string)
    requires Blank(h, query)
    ensures ScoreIrrelevant(h, report, w, query, key) <==> PrioritiesAgree(h, report, w, key)
  {
    ScoreIrrelevantIff(h, report, w, query, key);
    var log := LogOf(report);
    if PrioritiesAgree(h, report, w, key) {
      forall r, s | CanShow(h, report, key, r) && CanShow(h, report, key, s) && r.Page? && s.Page?
        ensures FaceScore(h, log, w, query, key, r) == FaceScore(h, log, w, query, key, s)
      {
        var o := ShownLead(h, report, key, r);
        var o' := ShownLead(h, report, key, s);
        BlankScore(h, log, w, query, key, r);
        BlankScore(h, log, w, query, key, s);
        assert LeadScore(h, report, w, key, o) == LeadScore(h, report, w, key, o');
      }
    }
    if ScoresAgree(h, report, w, query, key) {
      forall o, o' | o in report && o' in report && LeadOf(h, o, key).Some? && LeadOf(h, o', key).Some?
        ensures LeadScore(h, report, w, key, o) == LeadScore(h, report, w, key, o')
      {
        var r := LeadShown(h, report, key, o);
        var s := LeadShown(h, report, key, o');
        BlankScore(h, log, w, query, key, r);
        BlankScore(h, log, w, query, key, s);
      }
    }
  }
}
