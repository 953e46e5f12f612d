# Zoeken: a verified model of its cores

Zoeken is a metasearch server with a single-page client. This project models the parts of it that
carry state, loops or algorithms, and proves what they are for. It is written in Dafny 4.11;
`dafny verify dfyconfig.toml` checks it.

| File | Component |
|---|---|
| `Aggregation.dfy`, `Scoring.dfy`, `FinalOrder.dfy`, `ResultBuilder.dfy`, `ArrivalOrder.dfy`, `ReportOrder.dfy`, `ArrivalTies.dfy` | the result builder: many engines' lists become one deduplicated, scored, sorted list, and what of it the order of the lists decides |
| `MergeKey.dfy` | the canonical merge key that decides which results are one page |
| `SingleFlight.dfy`, `SplitFlight.dfy`, `LockEntry.dfy` | the favicon cache's check, lock, re-check, resolve, put, remove protocol as interleaved steps of any number of tasks, when it splits, and when it leaves a lock behind |
| `BangIndex.dfy`, `BangFlatten.dfy` | the bang trie, its precompiled twin, and the two flatteners that fill them |
| `EditDistance.dfy` | the bounded edit distance behind "did you mean" |
| `CalcGrammar.dfy`, `CalcParser.dfy`, `CalcLexer.dfy` | the calculator: grammar and printer, the evaluating parser, the tokenizer and the whole round trip |
| `TokenBucket.dfy` | the rate limiter, its bounds over whole runs, and idle eviction |
| `QueryWords.dfy`, `RawQuery.dfy` | the raw query parser |
| `RequestRetry.dfy`, `OriginLease.dfy` | the outbound retry loop and the origin lease protocol |
| `EngineHealth.dfy` | the persisted circuit breaker |
| `Execution.dfy` | the concurrent engine run |
| `Ordering.dfy`, `Wrappers.dfy` | stable sorting, text order, optional values, text helpers |

Floating-point numbers are real numbers (the calculator is generic in its arithmetic), strings are
sequences of characters, and times are natural numbers or reals. Storage, the resolver, the network,
the clock, Unicode tables and the `url` crate appear as parameters or as nondeterministic steps.

## What was found

Most promises of the code hold on every input. These do not, and the model says exactly when they do:

- The tie-breakers of `sort_results` do not make the results independent of the order in which the
  outcomes are ingested, although the comment at zoeken/zoeken-search/src/aggregation.rs:394-396
  says they are there for that: URL, variant and priority of an entry are those of its first listing,
  its title and content those of its first good listing. `ArrivalDecidesTies` gives two permuted
  reports with different top hits, `CanonicalKeysDecideTies` shows that the real merge key admits
  them, and `TitleDecidesScore` gives two with different scores for one page. For every query,
  `OrderIrrelevantIff` is the exact condition on a report (URLs name one page each), and
  `ScoreIrrelevantIff` that for the score of one page. The comment calls this order the finish order,
  but the only caller passes a report drained in selection order
  (zoeken/zoeken-search/src/execution.rs:127-137), so the order that decides is that of selection.
- Every failure inside the critical section of `get_storage`, also a `favicon_put` that accepts an
  icon without storing it, is enough for two flights of one authority at once
  (`EveryFailureSplits`); `SplitIff` says in which states that can happen.
- Even a run without failures can leave a lock in `in_flight` (`LockEntryLeaks`): exactly when a task
  asks for the lock after its removal (`EntryLeaksIff`). It stays until the row has expired and
  another flight has passed (`StrandedUntilExpiry`, `EntryAfterExpiry`).
- Idle eviction can be observed unless the idle timeout refills a whole bucket under each of the
  limits that calls choose from, or none of them can ever allow a call (`EvictionUnobservableIff`).
  Limits that are safe one by one need not be safe together (`SafeAloneNotTogether`).
- In the circuit breaker the half-open case of escalation never applies
  (`EscalatesOnlyFromOpen`), nothing reads the configured maximum
  (`MaxHasNoEffect`), and escalation shortens every suspension that is longer than a day
  (`EscalationLengthensIff`).
- A health record is lost when the request is cancelled between `complete` and the write
  (`Attempt`).
- When an engine name is selected twice, the second is always reported as cut off by the global
  deadline (`ReportByName`), and which outcome the first one shows depends on the join order
  unless both agree (`JoinOrderIrrelevantIff`).
- `www.` and `/index.html` are stripped once only (`WwwIrrelevantIff`, `IndexIrrelevantIff`), and so
  is the mobile label of a Wikipedia host (`MobileWikipediaIff`).

## Model

| member | source | states |
|---|---|---|
| `Aggregation.BuildOk` | zoeken/zoeken-search/src/aggregation.rs:153-240 | After any sequence of listings: the index is injective and in range, holds exactly the listed keys, every entry has distinct engines (exactly those that listed the page) with one position each, that position is the best rank of the engine, entries keep the identity of one of their listings, content is low quality only if all of it was, and entries are counted exactly |
| `Aggregation.EntryKeysDiffer` | zoeken/zoeken-search/src/aggregation.rs:218-233 | A keyed entry still has the key it is indexed under, so no two entries share a merge key |
| `ResultBuilder.ContainerBuilder.RecordEnginePosition` | zoeken/zoeken-search/src/aggregation.rs:326-334 | The entry at the index, and no other, records the engine and rank |
| `ResultBuilder.ContainerBuilder.PushNew` | zoeken/zoeken-search/src/aggregation.rs:235-240 | The list grows by one entry for the listing, at the end |
| `ResultBuilder.ContainerBuilder.MergeMain` | zoeken/zoeken-search/src/aggregation.rs:218-233 | One listing takes the builder from the table of the log to the table of the extended log |
| `ResultBuilder.ContainerBuilder.IngestResults` | zoeken/zoeken-search/src/aggregation.rs:164-168 | A result list extends the log by its results, ranked from one, in order |
| `ResultBuilder.ContainerBuilder.IngestSuggestions` | zoeken/zoeken-search/src/aggregation.rs:178-194 | A list of suggestions adds the engine weight and a count to every keyed suggestion |
| `ResultBuilder.ContainerBuilder.Ingest` | zoeken/zoeken-search/src/aggregation.rs:153-216 | One engine answer: results and suggestions together, keeping the invariant |
| `ResultBuilder.ContainerBuilder.Finish` | zoeken/zoeken-search/src/aggregation.rs:247-293 | The returned results are the scored entries of the table of the log, ranked; the suggestions are some enumeration of the map, ranked by weight times count and then by lower-case text |
| `ResultBuilder.AggregateQuery` | zoeken/zoeken-search/src/aggregation.rs:85-134 | The fold over a report yields the ranked final list of the table built from all its listings, its ranked suggestions and its unresponsive engines |
| `Scoring.ComputeScore` | zoeken/zoeken-search/src/aggregation.rs:298-324 | The score method equals the score function on every entry |
| `Scoring.ComputeRankScore` | zoeken/zoeken-search/src/aggregation.rs:298-324 | The accumulating loop sums weight over position, skipping low priority and not dividing for high priority |
| `Scoring.EntryScore` | zoeken/zoeken-search/src/aggregation.rs:298-334 | The score of an entry is the relevance applied to the sum, over the set of engines that listed its page, of weight over best rank |
| `Scoring.SoleListing` | zoeken/zoeken-search/src/aggregation.rs:298-317 | A page listed by one engine is worth nothing at low priority, the weight of the engine at high priority, and otherwise the weight divided by the rank; a weight that is not configured is one |
| `Scoring.NextEngine` | zoeken/zoeken-search/src/aggregation.rs:298-317 | Every further engine adds what its own listing is worth |
| `Scoring.KeyScoreIgnoresArrival` | zoeken/zoeken-search/src/aggregation.rs:298-334 | That sum is the same for every arrival order of the same listings |
| `Scoring.ScoreIgnoresArrival` | zoeken/zoeken-search/src/aggregation.rs:298-324 | For any query, two arrivals of the same listings give every page the same engines, the same priority if its listings agree on it, and then, where the shown texts are equally relevant, the same score |
| `ResultBuilder.PermutedReport` | zoeken/zoeken-search/src/aggregation.rs:85-134 | Permuting the outcomes of a report permutes its listings, each as often |
| `ResultBuilder.AggregateIgnoresOrder` | zoeken/zoeken-search/src/aggregation.rs:85-134 | Aggregating a permuted report gives every page the same engines and, with agreed priorities and a query without a search term, the same score |
| `FinalOrder.FinishSorts` | zoeken/zoeken-search/src/aggregation.rs:397-427 | The final list holds the scored entries, each once: scores do not rise, at one score engine counts do not, at one count the best position does not get better, at one position URLs do not go back, and full ties keep the order of first arrival |
| `FinalOrder.BareComesLast` | zoeken/zoeken-search/src/aggregation.rs:397-427 | A result without a page stands in front of one with a page only if that one has a negative score, or none, no engine and no position below the maximum |
| `ArrivalOrder.EntryIsFirst` | zoeken/zoeken-search/src/aggregation.rs:218-240 | The entry of a page has the URL, variant, priority and engine of the first listing of the page in the log, the content of the first listing whose content is not of low quality, and the title of that one if it has one |
| `ArrivalOrder.SameRankIff` | zoeken/zoeken-search/src/aggregation.rs:298-334 | For any query, two arrivals of the same listings rank a page alike exactly if what its entry shows in each has the same URL and, title, content and priority included, the same score and engine count |
| `ArrivalOrder.SameOrderIff` | zoeken/zoeken-search/src/aggregation.rs:397-427 | For any query, two arrivals of the same listings, those without a page as often in both, give the same ranked list exactly if they make every page's entry show alike (no URL names two pages) |
| `ReportOrder.OrderIrrelevantIff` | zoeken/zoeken-search/src/aggregation.rs:85-134 | For any query, the ranked list is the same for every order of the outcomes of a report exactly when, for every page, all that its entry can show (the first result of one answer, in the text of that answer's first good result if it has one, else of any other's) agrees on URL, score and engine count (no URL names two pages) |
| `ReportOrder.ScoreIrrelevantIff` | zoeken/zoeken-search/src/aggregation.rs:298-324 | For any query and report, the score of a page is the same for every order of the outcomes exactly when all that its entry can show gives it one score |
| `ReportOrder.Shown` | zoeken/zoeken-search/src/aggregation.rs:640-667 | Whatever the order of the outcomes, an entry shows the first result of one answer in the text of its own first good result, or of another answer's if it has none, or its own if nobody has one |
| `ReportOrder.Realize` | zoeken/zoeken-search/src/aggregation.rs:640-667 | Each of these is what the entry shows in some order of the outcomes |
| `ReportOrder.OrderIrrelevantWhenBlank` | zoeken/zoeken-search/src/aggregation.rs:368-390 | Without a search term texts do not count: the order is irrelevant exactly when the answers that list a page agree on URL, score and engine count under their first result for it |
| `ReportOrder.ScoreIrrelevantWhenBlank` | zoeken/zoeken-search/src/aggregation.rs:368-390 | Without a search term the score of a page is the same for every order exactly when the answers that list it agree on the score that the priority of their first result gives it |
| `ArrivalOrder.OrderIgnoresArrival` | zoeken/zoeken-search/src/aggregation.rs:393-427 | When URLs identify pages, and the query has no search term or listings of a page show one text, two arrivals of the same listings give the same ranked list |
| `ArrivalTies.ArrivalDecidesTies` | zoeken/zoeken-search/src/aggregation.rs:393-427 | Under any merge key that joins two spellings of a page, with the URL of another page between them, swapping the two outcomes that list the spellings changes the page of the top hit, although priorities and variants agree |
| `ArrivalTies.CanonicalKeysDecideTies` | zoeken/zoeken-search/src/aggregation.rs:461-491 | The canonical merge key is such a key: the texts n and N, which are no URLs, are one page, and m is another between them |
| `ArrivalTies.TitleDecidesScore` | zoeken/zoeken-search/src/aggregation.rs:368-390 | Two answers give one page one URL, variant, priority and good content, but titles that the query finds unequally relevant: the order of the two decides the score of the page |
| `ResultBuilder.SuggestionsIgnoreMapOrder` | zoeken/zoeken-search/src/aggregation.rs:262-276 | The suggestion list is the same for every order in which the map yields its values |
| `ResultBuilder.SuggestionsKeyed` | zoeken/zoeken-search/src/aggregation.rs:178-194 | After any report every suggestion is stored under its own lower-case text |
| `ResultBuilder.SuggestionsCount` | zoeken/zoeken-search/src/aggregation.rs:178-194 | After any report a key is stored exactly if some engine suggested a text with it, with the first such text, the sum of the weights of the engines that made them, and how many there were |
| `MergeKey.StripKeeps` | zoeken/zoeken-search/src/aggregation.rs:555-573 | Stripping keeps every pair exactly as often as it occurs, unless its key begins with utm_ or is on the list, and nothing else; it orders the pairs by key and then by value, and never leaves an empty query |
| `MergeKey.StripSameIff` | zoeken/zoeken-search/src/aggregation.rs:555-573 | Two queries strip alike exactly when the multisets of their pairs that do not track agree |
| `MergeKey.StripTwice` | zoeken/zoeken-search/src/aggregation.rs:555-573 | Stripping is idempotent |
| `MergeKey.WwwIrrelevantIff` | zoeken/zoeken-search/src/aggregation.rs:493-503 | A leading `www.` leaves the host key unchanged exactly when the host does not start with one already |
| `MergeKey.MobileWikipediaIff` | zoeken/zoeken-search/src/aggregation.rs:493-503 | For every label and every Wikipedia host behind it, the mobile and the desktop host have one key exactly when the desktop host has no label `m` |
| `MergeKey.PlainHost` | zoeken/zoeken-search/src/aggregation.rs:493-503 | Any other host keeps its small letters, except that a first label m is dropped |
| `MergeKey.TrailingSlashIrrelevant` | zoeken/zoeken-search/src/aggregation.rs:482-488 | A trailing slash never changes the path key |
| `MergeKey.IndexIrrelevantIff` | zoeken/zoeken-search/src/aggregation.rs:482-509 | A trailing `/index.html` leaves the path key unchanged exactly when the path is the root or ends in neither a slash nor an index file |
| `MergeKey.PathKept` | zoeken/zoeken-search/src/aggregation.rs:505-510 | Of a path that ends in no slash all is kept but an index file at its end, and a locale that is all of it |
| `MergeKey.LocaleRootIff` | zoeken/zoeken-search/src/aggregation.rs:575-600 | A locale root is exactly two small letters, and after a dash two capitals, with or without a slash in front |
| `MergeKey.SameFormIff` | zoeken/zoeken-search/src/aggregation.rs:461-491 | Two http or https URLs have one canonical form exactly when user, host key, path key and the multiset of kept parameters agree; scheme, port, fragment, tracking parameters and parameter order are irrelevant |
| `MergeKey.FormKeeps` | zoeken/zoeken-search/src/aggregation.rs:461-491 | The fragment goes, host and path are put in form, of a web address also the port goes, the scheme is fixed and tracking parameters are stripped; everything else stays |
| `MergeKey.UnwrapsToWeb` | zoeken/zoeken-search/src/aggregation.rs:512-547 | Unwrapping a click wrapper changes nothing or yields an http or https address |
| `MergeKey.DuckDuckGoUnwraps` | zoeken/zoeken-search/src/aggregation.rs:512-547 | A click wrapper of DuckDuckGo leads to its first uddg parameter, if that is a web address |
| `MergeKey.GoogleUnwraps` | zoeken/zoeken-search/src/aggregation.rs:512-547 | A click wrapper of Google leads to its first q or url parameter that is a web address |
| `MergeKey.OthersStay` | zoeken/zoeken-search/src/aggregation.rs:512-547 | An address of any other host, or that does not parse, is taken as it is |
| `MergeKey.SchemelessUnwraps` | zoeken/zoeken-search/src/aggregation.rs:512-547 | An address without a scheme leads where it would lead with one |
| `MergeKey.UnparsedKeyIff` | zoeken/zoeken-search/src/aggregation.rs:461-465 | Texts that do not parse have one key exactly if they differ in case and trailing slashes only |
| `MergeKey.SameKeyIff` | zoeken/zoeken-search/src/aggregation.rs:461-547 | Addresses, wrapped or not, have one merge key exactly when they lead to the same page |
| `MergeKey.PagesMergeIff` | zoeken/zoeken-search/src/aggregation.rs:448-459 | Two results have one merge key exactly when the addresses they go by lead to the same page |
| `SingleFlight.SingleFlightTheorem` | zoeken/zoeken-favicons/src/service.rs:175-241 | For each authority by itself: whatever happened before and whatever happens to others, once its tasks have returned, any run in which nothing of it fails but first lookups calls its resolver at most once, and not at all if there is a row; if no lookup fails either, all its new finished tasks return the same outcome and serve the stored row |
| `SingleFlight.FlightAlways` | zoeken/zoeken-favicons/src/service.rs:186-241 | The protocol invariant (while the row is absent, all live tasks share the registered lock and none is about to remove it) and the single call are kept by every run in which nothing of the authority fails but first lookups |
| `SingleFlight.OutcomesAlways` | zoeken/zoeken-favicons/src/service.rs:186-241 | In every run that is clean for the authority, a task of the flight that has an outcome serves an icon exactly if the stored row holds that icon, and the fallback exactly if the row says that there is none |
| `SingleFlight.OutcomeTaken` | zoeken/zoeken-favicons/src/service.rs:164-239 | Whatever fails: a task comes to serve an icon exactly by a lookup that found it or a put of it that storage accepted, and to the fallback exactly by the knowledge that there is none or by a failure |
| `SingleFlight.StoredRowIsServed` | zoeken/zoeken-favicons/src/service.rs:164-184 | A lookup that finds a row ends in a call that serves it, whatever happens afterwards |
| `SingleFlight.ResolvedRowIsServed` | zoeken/zoeken-favicons/src/service.rs:213-241 | A definite answer of the resolver is stored, if storage takes it, and served, whatever happens in between and afterwards |
| `SingleFlight.SharedStep` | zoeken/zoeken-favicons/src/service.rs:186-241 | Every step of any task keeps the shared lock, unless something of the authority fails that is not a first lookup |
| `SingleFlight.AloneWhileAbsent` | zoeken/zoeken-favicons/src/service.rs:194-239 | While an authority has no row, at most one of its tasks with work to do is inside the critical section |
| `SingleFlight.MutualExclusion` | zoeken/zoeken-favicons/src/service.rs:194-241 | Whatever fails, two tasks are never inside the critical section of one lock |
| `SingleFlight.NoDeadlock` | zoeken/zoeken-favicons/src/service.rs:175-241 | After any events, failures included, an unfinished task means that some task can take a clean step |
| `SingleFlight.ActionsPossible` | zoeken/zoeken-favicons/src/service.rs:175-241 | Every lookup, resolve and put may fail, a put may be refused only of an icon, and only a held lock makes a task wait |
| `SingleFlight.StepsAreBounded` | zoeken/zoeken-favicons/src/service.rs:175-241 | A task takes at most eight steps in every interleaving |
| `SplitFlight.SplitIff` | zoeken/zoeken-favicons/src/service.rs:186-239 | In every reachable state, whatever failed before, two flights of an authority can come to be under way at once without a further failure exactly if there is no row and one of its tasks is about to remove the lock or works under an unregistered one, or two already are |
| `SplitFlight.EveryFailureSplits` | zoeken/zoeken-favicons/src/service.rs:196-239 | Every failure inside the critical section that leaves no row (second lookup, resolver, put, or a put that is accepted and not stored) leads to such a state |
| `SplitFlight.FailedPutSplitsTheFlight` | zoeken/zoeken-favicons/src/service.rs:215-239 | Such a state is one failed put away from the empty service |
| `LockEntry.EntryLeaksIff` | zoeken/zoeken-favicons/src/service.rs:186-239 | After a run that is clean for an authority and ends with its tasks returned, an entry is left in `in_flight` exactly if a task had looked up and not yet asked for the lock when the entry was removed, or an entry was there before and no new task found the row missing |
| `LockEntry.EntryAfterExpiry` | zoeken/zoeken-favicons/src/service.rs:186-239 | Once the row of a left entry expires, the next clean flight removes the entry unless a task is late again |
| `LockEntry.StrandedUntilExpiry` | zoeken/zoeken-favicons/src/service.rs:186-239 | A left entry stays for as long as the events of its authority are clean, which the expiry of its row is not |
| `LockEntry.LockEntryLeaks` | zoeken/zoeken-favicons/src/service.rs:200-203 | A run without failures after which `in_flight` holds a lock although every task has finished |
| `BangIndex.FindAfterInsert` | zoeken/zoeken-data/src/lib.rs:163-187 | Inserting changes the answer for the inserted token and for no other |
| `BangIndex.BangTrie.Insert` | zoeken/zoeken-data/src/lib.rs:163-172 | The token map of a trie gains or replaces exactly one entry; an insertion into a precompiled index is counted but never found |
| `BangIndex.BangTrie.Resolve` | zoeken/zoeken-data/src/lib.rs:174-187 | Both representations resolve a token to its entry in the token map, or to nothing |
| `BangIndex.BangTrie.Len` | zoeken/zoeken-data/src/lib.rs:189-191 | The length is the number of distinct tokens, plus what was inserted into a precompiled index |
| `BangIndex.BangTrie.Suggest` | zoeken/zoeken-data/src/lib.rs:198-267 | Both representations return tokens that contain the query, the exact one first, then those that begin with it, then the others, each kind by falling rank and then by token; as many as the limit allows, and all that is left out ranks below all that is listed |
| `BangIndex.SuggestionListUnique` | zoeken/zoeken-data/src/lib.rs:249-265 | A token map, a query and a limit have exactly one such list, so both representations return the same one |
| `BangIndex.PartitionPoint` | zoeken/zoeken-data/src/lib.rs:209-211 | The binary search finds the first token that is not below the query |
| `BangIndex.PrefixContiguous` | zoeken/zoeken-data/src/lib.rs:211-215 | Tokens with a common prefix are contiguous in sorted order |
| `BangIndex.PrefixHits` | zoeken/zoeken-data/src/lib.rs:210-225 | Stopping at the first token without the prefix misses no prefix hit |
| `BangIndex.SubstringHits` | zoeken/zoeken-data/src/lib.rs:226-242 | The scan finds exactly the tokens that contain the query without starting with it |
| `BangIndex.CollectBangMatches` | zoeken/zoeken-data/src/lib.rs:269-286 | The trie walk finds every matching token below a node exactly once, with its entry |
| `BangFlatten.ReadingsAgree` | zoeken/zoeken-data/src/lib.rs:293-306 | The run-time and the build-time reading of a definition give the same URL and rank |
| `BangFlatten.ReadingMeans` | zoeken/zoeken-data/build.rs:34-64 | A definition is its URL up to the first separator, with the rank after it, or 0 if that is absent or no 32-bit number |
| `BangFlatten.ParseOfNumber` | zoeken/zoeken-data/build.rs:34-64 | A written number is itself, with either sign in front or none, if it fits 32 bits |
| `BangFlatten.ParseTakesDigits` | zoeken/zoeken-data/build.rs:34-64 | Only digits, with a sign in front or none, are a number, and it fits 32 bits |
| `BangFlatten.PathsSpell` | zoeken/zoeken-data/build.rs:34-64 | The flattened definitions are exactly those that some keys lead to from member to member, and the token of each is its keys in a row |
| `BangFlatten.StoreKeepsLast` | zoeken/zoeken-data/build.rs:34-64 | A token resolves exactly when some path spells it, to the definition of the last such path |
| `BangFlatten.FlattenAtRunTime` | zoeken/zoeken-data/src/lib.rs:308-329 | The run-time flattener adds exactly the paths of the node, in order, to the token map |
| `BangFlatten.FlattenAtBuildTime` | zoeken/zoeken-data/build.rs:34-64 | The build-time flattener adds exactly the same paths to its ordered map |
| `BangFlatten.SortedKeys` | zoeken/zoeken-data/build.rs:97-116 | The emitted token list is strictly ascending and holds exactly the keys |
| `BangFlatten.LoadBangs` | zoeken/zoeken-data/src/lib.rs:1322-1329 | Loading from disk yields the token map of all paths |
| `BangFlatten.PrecompileBangs` | zoeken/zoeken-data/build.rs:97-116 | Precompiling yields the same token map |
| `BangFlatten.IndexesAgree` | zoeken/zoeken-data/src/lib.rs:131-286 | For every JSON trie the loaded and the compiled index have the same size, resolve every token alike (to its last definition) and suggest the same list |
| `BangFlatten.StoredTokens` | zoeken/zoeken-data/src/lib.rs:163-191 | The stored tokens are exactly the tokens some path spells |
| `EditDistance.NoCheaperScript` | zoeken-client/src/lib/didYouMean.ts:8-23 | No sequence of insertions, deletions and replacements is cheaper than the recursive distance |
| `EditDistance.LevIsLeastCost` | zoeken-client/src/lib/didYouMean.ts:8-23 | The recursive distance is at most n exactly when some edit script costs at most n |
| `EditDistance.DNeighbours` | zoeken-client/src/lib/didYouMean.ts:9-20 | Neighbouring cells of the distance table differ by at most one |
| `EditDistance.DMatch` | zoeken-client/src/lib/didYouMean.ts:14-20 | On a character match the diagonal alone is the three-way minimum |
| `EditDistance.LevAtLeastGap` | zoeken-client/src/lib/didYouMean.ts:8-8 | The length gap bounds the distance from below, so the first early exit is sound |
| `EditDistance.NextRowAbove` | zoeken-client/src/lib/didYouMean.ts:19-21 | Row minima never decrease |
| `EditDistance.RowExit` | zoeken-client/src/lib/didYouMean.ts:21-21 | Once a row is above the bound so is the distance, so the second early exit is sound |
| `EditDistance.FillRow` | zoeken-client/src/lib/didYouMean.ts:10-20 | One pass over the single row turns row i - 1 of the distance table into row i and returns its minimum |
| `EditDistance.BoundedEditDistance` | zoeken-client/src/lib/didYouMean.ts:4-24 | For every bound the result is within it exactly when the distance is, and then they are equal |
| `EditDistance.PickDidYouMean` | zoeken-client/src/lib/didYouMean.ts:30-43 | The first suggestion that is not blank, not the query and at most two edits away; none exactly when there is no such suggestion |
| `CalcGrammar.PrintIsFaithful` | zoeken-client/src/lib/calcEval.ts:99-178 | The printer writes any operator tree as a sentence of the grammar that stands for exactly that tree |
| `CalcParser.SumSound` | zoeken-client/src/lib/calcEval.ts:100-139 | What the parser reads off the front is a well-formed expression followed by the rest |
| `CalcParser.SumComplete` | zoeken-client/src/lib/calcEval.ts:100-113 | A well-formed sum is read up to its own end, whatever follows |
| `CalcParser.ParseOfYield` | zoeken-client/src/lib/calcEval.ts:81-178 | Every well-formed expression parses back to itself |
| `CalcParser.ParserDecidesGrammar` | zoeken-client/src/lib/calcEval.ts:81-178 | The parser accepts exactly the sentences of the grammar, and no sentence has two readings |
| `CalcParser.PrintParseRoundTrip` | zoeken-client/src/lib/calcEval.ts:81-178 | Printing any tree and parsing it recovers the tree, with `^` right-associative and signs binding tighter |
| `CalcParser.SumKeepsError` | zoeken-client/src/lib/calcEval.ts:100-113 | Evaluating while parsing loses no error: a failed left operand fails the whole sum alike |
| `CalcParser.ProductKeepsError` | zoeken-client/src/lib/calcEval.ts:116-139 | The same for products |
| `CalcParser.Parser.ExpectOp` | zoeken-client/src/lib/calcEval.ts:72-79 | Succeeds exactly on the expected operator and then consumes it |
| `CalcParser.Parser.ParseExpr` | zoeken-client/src/lib/calcEval.ts:100-113 | Reads what the grammar reads and returns the value of the tree, or an error; always terminates |
| `CalcParser.Parser.ParseTerm` | zoeken-client/src/lib/calcEval.ts:116-139 | The same for products, with the zero checks |
| `CalcParser.Parser.ParsePower` | zoeken-client/src/lib/calcEval.ts:142-151 | The same for powers |
| `CalcParser.Parser.ParseUnary` | zoeken-client/src/lib/calcEval.ts:154-165 | The same for signs |
| `CalcParser.Parser.ParsePrimary` | zoeken-client/src/lib/calcEval.ts:168-178 | The same for numbers and parentheses |
| `CalcParser.Parser.Parse` | zoeken-client/src/lib/calcEval.ts:81-97 | Succeeds exactly when the tokens are one expression whose tree has a finite value, and then returns that value |
| `CalcLexer.LexIsLossless` | zoeken-client/src/lib/calcEval.ts:14-56 | The lexemes spell the source and are cut by maximal munch |
| `CalcLexer.LexOfConcat` | zoeken-client/src/lib/calcEval.ts:14-56 | Any maximal-munch cutting of a source is the one the tokenizer finds |
| `CalcLexer.LexDecidesLexings` | zoeken-client/src/lib/calcEval.ts:14-56 | The tokenizer is exactly maximal munch |
| `CalcLexer.NumeralIff` | zoeken-client/src/lib/calcEval.ts:25-38 | A text is one numeral exactly if it is made of digits and at most one dot |
| `CalcLexer.ScanNumeral` | zoeken-client/src/lib/calcEval.ts:25-38 | The inner loop stops at the end of the longest numeral with at most one dot |
| `CalcLexer.Tokenize` | zoeken-client/src/lib/calcEval.ts:14-56 | The loop yields the tokens of the lexemes of the preprocessed input |
| `CalcLexer.SignsMean` | zoeken-client/src/lib/calcEval.ts:14-20 | Typographic signs for multiplication, division and minus are read as the plain ones |
| `CalcLexer.PreprocessConcat` | zoeken-client/src/lib/calcEval.ts:14-20 | What stands apart, so that no two stars meet, is rewritten apart |
| `CalcLexer.StarsMean` | zoeken-client/src/lib/calcEval.ts:14-20 | Two stars are read as a power |
| `CalcLexer.CharMeans` | zoeken-client/src/lib/calcEval.ts:14-20 | A blank is dropped and any other character stands for itself or its plain sign |
| `CalcLexer.CalcEval` | zoeken-client/src/lib/calcEval.ts:182-188 | The calculator succeeds exactly when its input denotes an expression with a finite value, and returns it |
| `CalcLexer.CalcEvalOfShow` | zoeken-client/src/lib/calcEval.ts:14-188 | Writing out any tree of numerals and calling the calculator on the text gives the value of the tree, or its own error |
| `TokenBucket.Conservation` | zoeken/zoeken-botdetect/src/token_bucket.rs:26-52 | What a run lets through plus what it leaves is at most what it started with plus what the clock earned |
| `TokenBucket.TokensInRange` | zoeken/zoeken-botdetect/src/token_bucket.rs:26-52 | Tokens stay between zero and the capacity of the last call |
| `TokenBucket.RateBound` | zoeken/zoeken-botdetect/src/token_bucket.rs:26-52 | In every window of every run, with changing limits and a clock that may step back, allowed calls are at most the largest capacity plus what forward clock movement earns at the largest rate |
| `TokenBucket.EarnedIsForward` | zoeken/zoeken-botdetect/src/token_bucket.rs:33-34 | What the clock earns is the rate times its forward movement |
| `TokenBucket.PacedCallsPass` | zoeken/zoeken-botdetect/src/token_bucket.rs:26-52 | A caller that leaves one token's refill time between calls is never turned away |
| `TokenBucket.RateLimiter.CheckAt` | zoeken/zoeken-botdetect/src/token_bucket.rs:93-104 | One call serves the key's bucket, created full if missing, and changes no other bucket |
| `TokenBucket.IdleIsFull` | zoeken/zoeken-botdetect/src/token_bucket.rs:26-52 | A bucket idle long enough to refill serves a call exactly as a fresh one does |
| `TokenBucket.EvictionUnobservable` | zoeken/zoeken-botdetect/src/token_bucket.rs:75-104 | If the idle timeout refills every bucket, a limiter that drops idle buckets answers every call as one that never does, for any number of keys and with changing limits |
| `TokenBucket.EvictionUnobservableIff` | zoeken/zoeken-botdetect/src/token_bucket.rs:75-104 | Whatever set of limits the calls choose from, eviction cannot be observed exactly when the idle timeout refills a whole bucket under all of them, or all capacities are below one token |
| `QueryWords.SplitIsLossless` | zoeken/zoeken-query/src/lib.rs:283-290 | Splitting yields words without whitespace and loses nothing else |
| `QueryWords.SplitConcat` | zoeken/zoeken-query/src/lib.rs:283-290 | Whitespace between two texts keeps their words apart |
| `QueryWords.SplitJoin` | zoeken/zoeken-query/src/lib.rs:256-264 | Splitting undoes joining |
| `QueryWords.SplitBoth` | zoeken/zoeken-query/src/lib.rs:260-264 | The words of a full query are the words of its two lists |
| `RawQuery.RawTextQuery.ParseTimeoutToken` | zoeken/zoeken-query/src/lib.rs:321-335 | Sets the timeout exactly for a decimal number of 64 bits |
| `RawQuery.RawTextQuery.ParseLanguageToken` | zoeken/zoeken-query/src/lib.rs:337-349 | Adds the normalised tag exactly if it is valid and new |
| `RawQuery.RawTextQuery.ParseExternalBangToken` | zoeken/zoeken-query/src/lib.rs:351-364 | Sets a known bang, reports an unknown one, refuses an empty one |
| `RawQuery.RawTextQuery.ParseEngineOrCategoryToken` | zoeken/zoeken-query/src/lib.rs:366-393 | Adds an engine, or else a known category, and marks the query specific |
| `RawQuery.RawTextQuery.ParseQueryPart` | zoeken/zoeken-query/src/lib.rs:296-319 | One word has the effect of its meaning and is accepted exactly if that is recognised |
| `RawQuery.RawTextQuery.ResolveExternalBang` | zoeken/zoeken-query/src/lib.rs:395-403 | Sets the redirect for the bang that is set and nothing else |
| `RawQuery.ParseRaw` | zoeken/zoeken-query/src/lib.rs:267-294 | The loop arrives at the reading of the text, defined setting by setting: first occurrences, last timeout, last bang, all unknown bangs |
| `Wrappers.TrimMeans` | zoeken/zoeken-query/src/lib.rs:260-265 | Trimming takes whitespace away at both ends and nothing else, and leaves none there |
| `RawQuery.FieldsSnoc` | zoeken/zoeken-query/src/lib.rs:296-393 | The setting-by-setting reading grows by one word exactly as the parser changes its fields |
| `RawQuery.WordsAreDealtOut` | zoeken/zoeken-query/src/lib.rs:283-290 | Every word goes to exactly one of the two lists, in order: with the record of who was recognised the lists give the words back |
| `RawQuery.SettingsRegrouped` | zoeken/zoeken-query/src/lib.rs:255-319 | Putting the recognised words first changes no setting |
| `RawQuery.ReparseFixpoint` | zoeken/zoeken-query/src/lib.rs:255-294 | Reading the full query of a reading gives the same engines, categories, languages, timeout, flags, feedback, bang, redirect and words |
| `RawQuery.QueryReadsPlain` | zoeken/zoeken-query/src/lib.rs:255-294 | The user query read on its own sets nothing and reports the same unknown bangs |
| `RawQuery.ListMeans` | zoeken/zoeken-query/src/lib.rs:337-393 | A list setting holds exactly what some word names, each name once |
| `RawQuery.RedirectIffBang` | zoeken/zoeken-query/src/lib.rs:395-403 | There is a redirect exactly when there is an external bang, which is a known one |
| `RawQuery.RecognisedIffSets` | zoeken/zoeken-query/src/lib.rs:296-319 | A word is taken out of the user query exactly when the text sets something |
| `RawQuery.UnmarkedTextIsPlain` | zoeken/zoeken-query/src/lib.rs:267-319 | A text none of whose words begins with a marker sets nothing, reports nothing and is the user query word for word |
| `RawQuery.MarksAgreeIff` | zoeken/zoeken-query/src/lib.rs:309-317 | `!` and `?` select alike exactly when no second `!` follows |
| `RawQuery.BangMeans` | zoeken/zoeken-query/src/lib.rs:296-364 | Two marks ask for the first result, and before a text for the bang of that name, or report it unknown |
| `RawQuery.SelectorMeans` | zoeken/zoeken-query/src/lib.rs:366-393 | A single mark before a text selects the engine of that name, or else the category, dashes and underscores standing for blanks |
| `RawQuery.LanguageMeans` | zoeken/zoeken-query/src/lib.rs:337-349 | A colon before a language or auto adds that language |
| `RawQuery.RegionMeans` | zoeken/zoeken-query/src/lib.rs:64-72 | A region after a dash or an underscore is added to it in upper case |
| `RawQuery.ValidTagIff` | zoeken/zoeken-query/src/lib.rs:74-92 | A tag is valid exactly if it is auto, a language of two or three small letters, or one with a region of two letters |
| `RawQuery.TimeoutOfNumber` | zoeken/zoeken-query/src/lib.rs:321-335 | A written number is seconds below 100, milliseconds from there on, and no timeout beyond 64 bits |
| `RawQuery.TimeoutTakesDigits` | zoeken/zoeken-query/src/lib.rs:321-335 | Only digits make a timeout |
| `RequestRetry.BackoffIsPower` | zoeken/zoeken-network/src/lib.rs:431-437 | The cap on the shift never shows: the ceiling is the capped power of two for every attempt |
| `RequestRetry.BackoffDoubles` | zoeken/zoeken-network/src/lib.rs:431-437 | The ceiling doubles with every attempt until it reaches its maximum |
| `RequestRetry.BackoffRange` | zoeken/zoeken-network/src/lib.rs:431-437 | The ceiling starts at a tenth of a second and is two seconds from the sixth attempt on |
| `RequestRetry.BackoffDelay` | zoeken/zoeken-network/src/lib.rs:439-448 | A pause is taken exactly when time remains, and stays under the ceiling and the remaining time |
| `RequestRetry.LastIsUnique` | zoeken/zoeken-network/src/lib.rs:550-624 | At most one attempt can end a request |
| `RequestRetry.LastMeans` | zoeken/zoeken-network/src/lib.rs:550-624 | Every outcome before the last was a transport error or an answer to be raised whose status is configured for a retry and is neither 403 nor 429; and the last one is not, or no attempt or time was left |
| `RequestRetry.Request` | zoeken/zoeken-network/src/lib.rs:550-624 | The loop ends at the first attempt that is not worth repeating or has no time or attempt left, answers with its outcome, and every pause ends by the deadline |
| `OriginLease.WaitForLease` | zoeken/zoeken-network/src/lib.rs:923-961 | In every round the request asks, is told to wait before the deadline, and sleeps exactly as told or until the deadline, whichever is earlier; how the wait ends is what the last permit and the clock say; with a punctual clock and positive retry times it ends |
| `OriginLease.RunUnderLease` | zoeken/zoeken-network/src/lib.rs:964-1001 | A run under a lease renews in every round until the network answers or a renewal fails, and then does and replies exactly what that round says |
| `OriginLease.Finish` | zoeken/zoeken-network/src/lib.rs:989-1001 | The answer of the network is recorded, deferred exactly if it names a delay, the lease released once, last, and the answer returned exactly if storage did not fail |
| `OriginLease.AnswerIsTheNetworks` | zoeken/zoeken-network/src/lib.rs:964-1002 | A network answer is the one the network gave in the round that ended the request, every round before renewed the lease, and nothing else is recorded as an answer |
| `OriginLease.HoldKept` | zoeken/zoeken-network/src/lib.rs:964-1001 | A run under a lease sends first, defers exactly when told to, releases last, and reports unavailability exactly when storage failed |
| `OriginLease.WaitKept` | zoeken/zoeken-network/src/lib.rs:923-961 | While it waits a request only asks and sleeps, never past the deadline |
| `OriginLease.Compose` | zoeken/zoeken-network/src/lib.rs:921-1002 | A wait ended by a grant and a run under the lease together follow the lease protocol |
| `OriginLease.Request` | zoeken/zoeken-network/src/lib.rs:910-1002 | On every run: the network is touched only between the one grant and the release, exactly one release call follows a grant on a run that returns, a response is returned only if storage never failed, unavailability exactly when it did, and queue expiry only at the deadline; favicons and uncoordinated managers bypass storage |
| `EngineHealth.RowsAreConsistent` | zoeken/zoeken-server/src/engine_health.rs:145-187 | After every run from an empty table a stored cooldown end belongs to an open row and a half-open row has no error category |
| `EngineHealth.OpenWithoutEndIff` | zoeken/zoeken-server/src/engine_health.rs:75-82 | Over every run an open row lacks a cooldown end exactly if a sweep found it expired and nothing was recorded in it since |
| `EngineHealth.GateHolds` | zoeken/zoeken-server/src/engine_health.rs:75-82 | Until its cooldown ends an open circuit admits no request and does not change, over every run |
| `EngineHealth.GateIff` | zoeken/zoeken-server/src/engine_health.rs:75-82 | An open row with an end rejects requests before that end and no others, and the sweep takes the end away from then on |
| `EngineHealth.SuspensionHolds` | zoeken/zoeken-server/src/engine_health.rs:75-82 | A recorded failure that earns a cooldown keeps every request out until the cooldown is over, in every run |
| `EngineHealth.OpenToClosed` | zoeken/zoeken-server/src/engine_health.rs:156-176 | A run leaves open only through a half-open state or by a failure that earns no cooldown |
| `EngineHealth.CooldownIsBounded` | zoeken/zoeken-server/src/engine_health.rs:88-143 | In every state a cooldown is positive and at most the longest configured suspension or a day: escalation does not compound |
| `EngineHealth.FirstSuspension` | zoeken/zoeken-server/src/engine_health.rs:88-132 | What each failure costs an engine that did not just fail in the same way: walls and refusals their configured suspensions, of which captchas spare one engine, other failures the base suspension once they add up, an expired queue nothing |
| `EngineHealth.SaturatingMeans` | zoeken/zoeken-server/src/engine_health.rs:145-190 | The end of a cooldown is the sum, or the end of the 64-bit range that it passes |
| `EngineHealth.AsI64Means` | zoeken/zoeken-server/src/engine_health.rs:145-190 | A duration keeps its low 64 bits, as a signed number |
| `EngineHealth.NextSuspension` | zoeken/zoeken-server/src/engine_health.rs:133-142 | A failure like the one before doubles that, up to a day |
| `EngineHealth.KindsOfFailure` | zoeken/zoeken-server/src/engine_health.rs:133-136 | Failures are of one kind only if they are the same or both are refusals |
| `EngineHealth.StoredEndIsBounded` | zoeken/zoeken-server/src/engine_health.rs:145-187 | Over every run a stored cooldown ends at most the longest configured suspension, or a day, after some failed request was recorded |
| `EngineHealth.EscalationLengthensIff` | zoeken/zoeken-server/src/engine_health.rs:133-142 | Escalation lengthens a suspension exactly when it is below a day and shortens it exactly when it is above |
| `EngineHealth.EscalatesOnlyFromOpen` | zoeken/zoeken-server/src/engine_health.rs:133-136 | In runs from an empty table only an open row escalates: the half-open case never applies |
| `EngineHealth.CountsOfTheHour` | zoeken/zoeken-storage/src/shared.rs:96-97 | After any run the newest row counts the successes, failures and timeouts recorded in its hour |
| `EngineHealth.ThresholdCountsTheHour` | zoeken/zoeken-server/src/engine_health.rs:84-131 | Unparsed, unexpected and timed-out requests suspend exactly when the newest recorded hour, with this failure, reaches the threshold |
| `EngineHealth.HealthStore.RecordEngineHealth` | zoeken/zoeken-storage/src/shared.rs:96-96 | The row of the hour adds its counts and takes over status, cooldown and category |
| `EngineHealth.HealthStore.ClearExpiredCooldowns` | zoeken/zoeken-storage/src/shared.rs:100-100 | The sweep forgets an expired cooldown end and nothing else |
| `EngineHealth.RecordHealth` | zoeken/zoeken-server/src/engine_health.rs:145-187 | One write with the update the circuit rules prescribe |
| `EngineHealth.PendingHealth.Drop` | zoeken/zoeken-server/src/engine_health.rs:41-65 | Dropping an unfinished request records one timeout, dropping a finished one nothing |
| `EngineHealth.Attempt` | zoeken/zoeken-server/src/executor.rs:148-232 | A rejected request leaves storage alone; an admitted one is recorded exactly once, as a timeout if cancelled, unless the write of the record is itself cancelled |
| `Execution.RunOneInTime` | zoeken/zoeken-search/src/execution.rs:202-260 | An engine never outlives the global deadline and is blamed for a timeout exactly when its own timeout cut it off |
| `Execution.RunOneReports` | zoeken/zoeken-search/src/execution.rs:202-260 | An engine that answers within both limits is reported exactly as it answered; otherwise it is cut off at the tighter limit, and the global deadline is blamed exactly if it has passed already or is the tighter one |
| `Execution.JoinAll` | zoeken/zoeken-search/src/execution.rs:111-125 | The join loop stores, under every name, the last outcome that joined |
| `Execution.Drain` | zoeken/zoeken-search/src/execution.rs:127-137 | Every name takes its entry once; a name that finds none is lost |
| `Execution.RunEngines` | zoeken/zoeken-search/src/execution.rs:88-140 | One outcome per selected engine, in selection order, for every join order and any lost tasks |
| `Execution.ReportByName` | zoeken/zoeken-search/src/execution.rs:112-140 | An engine whose name no other position has gets its own outcome, or the global deadline if its task was lost; a later engine of a name always gets the deadline |
| `Execution.JoinOrderIrrelevantIff` | zoeken/zoeken-search/src/execution.rs:112-140 | The report is the same for every join order exactly when tasks that join under one name yield the same |

## Left out

- `SingleFlight`: task cancellation; a task that has arrived takes all its steps.
- `ResultBuilder`: answers, corrections, infoboxes and engine data, which are deduplicated by a set or copied; knowledge-panel coalescing; metrics.
- `Scoring`: what `relevance` computes; it is any function of query, title, content and URL.
- ReportOrder.OrderIrrelevantIff: reports in which one URL is that of two pages, which takes a normalised address that differs from it.
- ArrivalOrder.OrderIgnoresArrival: states a sufficient condition that is easy to check; the exact one is OrderIrrelevantIff.
- BangIndex.BangTrie.Insert: the trie owns its nodes, so a node is a value and insertion rebuilds the path from the root; sharing of nodes is not modelled.
- BangFlatten.PrecompileBangs: the generated source text and the perfect hash are not modelled, only the map and the token list they hold.
- CalcParser.Parser.Parse: the native call stack is unbounded here; the finite check is a predicate on values; number formatting and the wording of syntax errors are left out.
- EditDistance.BoundedEditDistance: case folding and trimming are functions; JavaScript's UTF-16 code units are characters.
- `TokenBucket`: eviction by capacity, the poisoned-lock branch that allows a request, and rounding of floating-point numbers.
- `RawQuery`: how a redirect URL is built from a template, which depends on the `url` crate, and the resolution of a parse outcome into a search.
- OriginLease.Request: the moments at which renewal ticks fall are chosen by the environment; lease expiry inside storage and the drop of a cancelled request are not modelled.
- RequestRetry.Request: headers, cookies, proxies and the mapping of a status to an error are not modelled.
- `EngineHealth`: concurrent requests of one engine, storage errors, pruning of old rows and latency sums; requests run one after the other.
- `Execution`: cancellation of the whole run; results and errors are opaque values.
- MergeKey.SameKeyIff: that different pages get different keys assumes that different canonical forms of addresses that parse are written differently.
- `MergeKey`: percent-encoding and host syntax, which the `url` crate normalises; idempotence of the whole key, which is not promised.
- HTTP clients, TLS emulation, handlers, user interface, locale alias tables, the engine registry, internationalisation and logging: input and output or tables.
