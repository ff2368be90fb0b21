# wpt.fyi, modelled and proved in Dafny

wpt.fyi ingests browser test reports, keeps a delta-encoded history of them,
searches and diffs runs, and triages failures. This project models the
algorithms under its HTTP and cloud plumbing and proves what they promise.
`dafny verify dfyconfig.toml` checks all of it.

Each part follows the form of its source: code that assigns and loops is a
method (with a class where an object's fields are updated), proved equal to a
function of its inputs or its old state; the theorems are lemmas about that
function or about a machine whose steps it is.

- **History** (`History`, `HistoryStore`, `HistoryJob`, `HistoryRestart`). The history job
  writes, run after run, only the statuses that changed. Reading its entries by
  their own fields gives back every run; two successive entries of a test differ; and killing
  the job anywhere outside the checkpoint and starting a fresh process ends
  with the entries of an uninterrupted pass. The job itself, with its cache,
  its batches of 500 and its checkpoint, is a class whose runs are shown to be
  steps of that machine.
- **Search** (`Query`, `QueryBinder`, `QueryBinding`, `QueryMeaning`, `QuerySize`,
  `QueryCost`).
  Binding an abstract query to runs drops constant branches and collapses
  singletons. For every tree that a request can build, the bound plan means what
  the query is bound to mean, and its size is linear in query and runs; and it is
  proved for which queries that is the documented meaning.
- **Products** (`Products`, `ProductParser`, `ProductSpelling`, `ProductRoundTrip`,
  `ProductLists`, `VersionRoundTrip`). The product-spec grammar: printed specs and
  versions parse back, and exactly when; no part of an accepted text is ignored; lists of specs are cut at the commas outside brackets.
- **Diffs** (`RunDiff`, `CollapsePaths`, with `FiniteSums`). Renames commute
  with diffing, filters are independent, totals are conserved, and collapsing a
  tree of paths loses no test and no subtest.
- **Report merging** (`Report`). The order of the chunks does not matter.
- **Metadata** (`Metadata`, `Triage`, `MetadataResponse`). Triage adds every
  result exactly once and disturbs nothing that was there, and it is proved when
  the results are then answered for every product they were triaged for.
- **Screenshots** (`Screenshots`). The label-relaxing search is greedy by
  specificity and, within a level, by age.
- **Receiver** (`Receiver`, `ReceiverProtocol`). Upload, process, retry and
  create as a state machine over Datastore, with or without the processors' lock
  and with or without requests that outlive the processor that sent them.
- **Manifest and test names** (`Manifest`, `TestNames`). Filtering keeps one
  subtree; generated test names give back their files.
- **Caches** (`CachedStore`, `RequestCache`). A cache that may fail or forget
  anything does not show, with or without the gzip layer over it; for the cache of
  whole responses, exactly when.

`Wrappers`, `Collections`, `Strings` and `StringOrder` hold what the others
share.

Where the code does not do what it is meant to do, the model keeps the code's
behaviour and a theorem says when it meets the promise; most have a concrete
input beside them.

- A lone `exists` or `none` is not tied to one run. `QueryMeaning.Means` is the
  documented meaning, each argument satisfied by some run as the comments in
  api/query/atoms.go:114-127 have it (api/query/README.md:211-215 says "the same
  run" of all arguments, which the code never asks). Plans have it on a single
  run, and on several for every query whose lone arguments one run decides
  (`QueryMeaning.BindMeansAsDocumented`); a conjunction of status atoms has it
  exactly when, whichever runs are picked for its atoms, one of the runs answers
  them all and what was picked for it implies them
  (`QueryMeaning.ConjunctionDocumentedIff`, `QueryMeaning.TwoStatusesDocumentedIff`),
  which two runs and two statuses never do (`QueryMeaning.LoneExistsMixesRuns`).
- `And` of nothing is false (`QueryBinding.AndKeepsMeaningIff`). No request leads
  there: the only atom that binds to True stands at the root
  (`QueryBinding.NeverTrue`).
- Not every spec prints back, for one not those with a stray "@"
  (`ProductRoundTrip.PrintsBackIff`, for all specs;
  `ProductRoundTrip.StrayAtDoesNotPrintBack`), and the placeholder that hides
  nested commas is not the only text it confuses (`ProductLists.UnmaskMaskIff`,
  `ProductLists.LiteralPlaceholderIsNotTheOnlyHazard`).
- A rename onto an existing test can make the diff depend on the order of a map
  (`RunDiff.EitherMayShow`, `RunDiff.OrderIndependentIff`), and the per-status
  difference leaves new subtests out of the total (`RunDiff.CountsNeverOverstate`).
- The folder of a one-segment path without a leading slash is not above it
  (`CollapsePaths.ParentIsPrefixIff`), so such keys may be left out of a collapsed
  summary; none is at least when some key has two slashes
  (`CollapsePaths.CollapseSummary`). The names of tests are never such keys.
- A summary or a decoded manifest that failed half-way is returned by the next
  call, as the contracts of `Report.WPTReport.Summarize` and
  `Manifest.Manifest.UnmarshalAll` say.
- A path like "//name" does not survive being split (`Metadata.SplitRebuildsIff`,
  `Metadata.DoubleSlashIsLost`).
- Triaging for a browser may land under a link for one of its versions, and then
  does not apply to the others: it applies to all of them exactly when no link
  takes it in or the first that does is for a product that matches the triaged
  one (`MetadataResponse.TriagedIsAnsweredIff`,
  `MetadataResponse.TriagedUnderNarrowerProduct`).
- "x.any.worker.js" comes back as "x.any.js" (`TestNames.ExplodedParsesBackIff`).
- A handler that sets its status twice may be cached with the wrong one
  (`RequestCache.InvisibleIff`, `RequestCache.SecondStatusMisleads`), and a client
  that breaks off may leave a part of a response in the cache for everybody
  (`RequestCache.InvisibleToBrokenIff`). Handlers that ignore failed writes and
  keep every 200 are safe exactly when they keep only empty 200s
  (`RequestCache.SteadyInvisibleIff`), because closing the gzip layer stores the
  body also when nothing of it was taken (`RequestCache.OnePieceIsEmptied`); over
  bare Redis a body in one piece would be safe too, and one in two pieces not
  (`RequestCache.TwoBodiesTruncate`). Handlers that answer a failed write with an
  error are safe (`RequestCache.ReactingInvisibleIff`), and so is search, which
  checks what it keeps (`RequestCache.SearchInvisibleIff`).
- A process that kept the statuses of another moment in memory may write entries
  that are not news, and lose others (`HistoryRestart.StaleMemoryIsHarmlessIff`,
  `HistoryRestart.StaleMemoryWritesSpuriousEntry`,
  `HistoryRestart.StaleMemoryLosesEntries`).
- Two runs may be created from the same results, exactly when the processors share
  no lock or a creation request can outlive its processor
  (`ReceiverProtocol.RunsAreUniqueIff`, `ReceiverProtocol.UnlockedRunsMayRepeat`,
  `ReceiverProtocol.LateRunsMayRepeat`). A pre-allocated id keeps a late request
  and its own retry apart (`ReceiverProtocol.AllocatedIdIsInsertedOnce`).

## Model

| member | source | states |
|---|---|---|
| History.AfterIsReported | scripts/process_test_history.py:158-191 | whatever a report repeats, the status kept for a test is one the report gives it, and a known test that is absent is MISSING |
| History.RunIsRecorded | scripts/process_test_history.py:216-289 | without repeated tests the statuses kept after a run are exactly the run's, MISSING for every other test known before |
| History.DeltaIsNews | scripts/process_test_history.py:174-188 | an entry is written only for a status that differs from the last known one |
| History.HistoryIsLossless | scripts/process_test_history.py:158-191 | replaying the entries up to run r gives each test its status in run r, MISSING if it was known but absent, nothing if it was never seen |
| History.SuccessiveEntriesDiffer | scripts/process_test_history.py:174-188 | two successive entries of a test never carry the same status |
| History.KeysAreDistinct | scripts/process_test_history.py:123-136 | a stored key names one test of one run |
| History.EntriesReadBack | scripts/process_test_history.py:139-155 | the stored entries of a run hold exactly the tests that changed, with their new statuses |
| History.CleanKeepsText | scripts/process_test_history.py:235-239 | cleaning a name changes nothing but whitespace, keeps its length, and is done once |
| History.ObservedIff | scripts/process_test_history.py:235-262 | a report is read as exactly the statuses of its tests, under an empty subtest name, and of their subtests, under their cleaned and cut names |
| HistoryStore.StoreTells | scripts/process_test_history.py:139-155 | in the store of any runs, an entry with a run's own id, date and browser, and a test's and subtest's names in their own fields, carries a status exactly when that run changed that test to it |
| HistoryStore.StoreIsLossless | scripts/process_test_history.py:139-191 | reading, run by run, the entries that carry a test's names gives its status in any run, MISSING if it was known but absent, nothing if it was never seen |
| HistoryJob.Job.CreateEntityIfNeeded | scripts/process_test_history.py:158-191 | creates an entity exactly for news, under the digest of test name, newline and subtest, each of its fields set from its own source, raises exactly when the key name is too long, and remembers key and status |
| HistoryJob.Job.PutMulti | scripts/process_test_history.py:224-232 | a batch writes all its entities in order, or a prefix when the process dies; either way only entries of the run |
| HistoryJob.Job.AddEntity | scripts/process_test_history.py:224-232 | up to 499 entities stay in the buffer and nothing is written; the 500th is written with them; buffered and written entities together are always the ones created so far |
| HistoryJob.Job.ReadTest | scripts/process_test_history.py:235-277 | one test and its subtests are compared, recorded and taken off the unseen tests |
| HistoryJob.Job.MarkMissing | scripts/process_test_history.py:279-289 | every test not seen becomes MISSING, once, unless it was already |
| HistoryJob.Job.PopulatePreviousStatuses | scripts/process_test_history.py:340-368 | memory first, then the flushed statuses, which are then remembered |
| HistoryJob.Job.ProcessSingleRun | scripts/process_test_history.py:194-297 | a finished run adds an entry for each change and no other, exactly its entries when test names are one-line: under the key of each changed test one with the run's id, date and browser, the test's names and its new status; it counts them, and remembers its statuses; one that died added only entries of its own |
| HistoryJob.Job.FlushPreviousStatuses | scripts/process_test_history.py:314-337 | the flushed file reads back as the statuses in memory |
| HistoryJob.Job.CommitCheckpoint | scripts/process_test_history.py:549-558 | the date is set, and for chrome, edge, firefox and safari the statuses in memory replace the flushed ones; no other browser's change |
| HistoryJob.CutShortIsAStep | scripts/process_test_history.py:194-297 | what a run that was cut short leaves behind is one step of the restart machine |
| HistoryJob.FinishedIsAStep | scripts/process_test_history.py:194-297 | what a finished run leaves behind is one step of the restart machine |
| HistoryRestart.EveryStateIsRight | scripts/process_test_history.py:372-395 | after any interleaving, crash or restart: everything behind the position is stored, nothing else is, and memory and flushed statuses are those of their dates |
| HistoryRestart.RestartsConverge | scripts/process_test_history.py:372-395 | two executions over the same runs, restarting as they please, end with the same entries and statuses |
| HistoryRestart.HistoryRestartsConverge | scripts/process_test_history.py:123-191 | restart safety of the history job itself |
| HistoryRestart.CommittedIsDurable | scripts/process_test_history.py:549-558 | at every moment the committed part of the history is complete and the flushed statuses are those of the committed date |
| HistoryRestart.StaleMemoryIsHarmlessIff | scripts/process_test_history.py:340-368 | reading a run against statuses that are not those before it writes the same entries exactly when the two agree on which reported statuses are known and which absent tests are to be marked |
| HistoryRestart.NothingSpuriousIff | scripts/process_test_history.py:340-368 | and no entry too many exactly when they know every reported status the right ones do, and no other absent test |
| HistoryRestart.StaleMemoryWritesSpuriousEntry | scripts/process_test_history.py:356-358 | statuses left in memory by a later run know less: re-reading the first run writes an entry that no uninterrupted pass writes |
| HistoryRestart.StaleMemoryLosesEntries | scripts/process_test_history.py:158-191 | statuses remembered before a batch that failed leave no news for the next attempt: its entries are never written |
| QueryBinder.BindToRuns | api/query/atoms.go:123-268 | binding computes the specified plan, node by node |
| QueryBinder.BindExists | api/query/atoms.go:123-147 | exists: a lone argument is bound to all runs, several each to some run, dropping False |
| QueryBinder.BindAll | api/query/atoms.go:158-176 | all: each argument bound to every run, dropping True |
| QueryBinder.BindSequential | api/query/atoms.go:202-216 | sequential: one conjunction for each window of consecutive runs |
| QueryBinder.BindStatus | api/query/atoms.go:434-479 | a status atom for each run its product matches, collapsed |
| QueryBinder.BindTriaged | api/query/atoms.go:305-336 | a triage atom for each matching run with metadata |
| QueryBinder.BindOr | api/query/atoms.go:499-521 | or: True wins, False is dropped, singletons collapse |
| QueryBinder.BindAnd | api/query/atoms.go:530-552 | and: False wins, True is dropped, nothing left is False |
| QueryBinding.BindKeepsMeaning | api/query/atoms.go:123-268 | for every tree a request can build, the bare True of an empty request included, every list of runs and every table of results, the plan holds of a test exactly when the query does |
| QueryBinding.NeverTrue | api/query/atoms.go:434-552 | no tree built from query atoms binds to True |
| QueryBinding.AndKeepsMeaningIff | api/query/atoms.go:530-552 | simplifying a conjunction keeps its meaning exactly when something other than True is left |
| QuerySize.PlanIsLinear | api/query/concrete_query.go:123-191 | for every tree, the size of the plan is at most the weight of the query times max(1, number of runs) |
| QuerySize.SumSizes | api/query/concrete_query.go:184-191 | the loop sums the sizes |
| QueryCost.SizeIsCost | api/query/concrete_query.go:123-191 | a size is one for each atom and each negation anywhere in the plan, and 48 for each subtest pattern |
| QueryBinder.SearchListsExactly | api/query/cache/query/query.go:18-43 | a search lists exactly the tests that match and have a result in some run |
| QueryBinder.StatusSearchListsExactly | api/query/atoms.go:434-479 | for a status atom with a product: exactly the tests known in some run for which some run of the product's browser, revision and version, with all its labels, has the status, or another one |
| QueryBinder.BoundToAskedRuns | api/query/atoms.go:434-479 | the ids bound are those of such runs and no others |
| QueryBinder.TriagedHoldsIff | api/query/atoms.go:305-336 | a triage atom holds exactly when the triage of some such run, or without a product that of the tests, has the test |
| QueryMeaning.BindMeansAsDocumented | api/query/atoms.go:114-190 | on one run always, and on several for every query whose lone arguments a single run decides, the plan has the documented meaning, in which each argument of exists holds of some run |
| QueryMeaning.OneRunMeansWhatHolds | api/query/atoms.go:114-190 | on a single run there is nothing to mix, whatever the query |
| QueryMeaning.TiedIsOfSome | api/query/atoms.go:123-147 | queries of which at most one conjunct looks at the runs hold of several runs exactly when they hold of one of them |
| QueryMeaning.ConjunctionDocumentedIff | api/query/atoms.go:123-190 | a lone exists, or none, of a conjunction of any status atoms has the documented meaning for every table of results exactly when, however runs are picked for the atoms without contradiction, some run answers all of them and the atoms picked for it imply the others |
| QueryMeaning.TwoStatusesDocumentedIff | api/query/atoms.go:123-190 | for two atoms, equal to a status or not: exactly when any two runs they ask about are one that answers both, or one of them answers both and its atom implies the other |
| QueryMeaning.LoneExistsMixesRuns | api/query/atoms.go:123-147 | for two runs and two statuses it never has: together they satisfy what neither does |
| Products.VersionMatchIsDotted | shared/product_spec.go:46-62 | a version matches exactly when it is the wanted one or continues it after a dot |
| Products.SpecMatchesIff | shared/product_spec.go:29-62 | a spec matches another exactly when that is of its browser, of its revision, short or the start of the full hash, unless it asks for the latest, of its version or one below it, and has all its labels |
| Products.RunMatchesIff | shared/product_spec.go:23-62 | the same for a run |
| Products.LabelsMatchOneByOne | shared/product_spec.go:36-43 | a spec with labels matches exactly when it does without them and with each alone, and no run that lacks one |
| Products.OwnSpecMatches | shared/product_spec.go:46-62 | a spec made of a run's own fields matches it, also with its version, revision and labels cut or left out |
| Products.SpecString | shared/product_spec.go:144-161 | printing lists the non-empty labels once, sorted, and drops the empty one from the caller's set |
| ProductParser.SplitAtNonMainAt | shared/params.go:84-108 | the pieces between the "@"s that open no "@main" |
| ProductParser.ParseVersion | shared/params.go:190-233 | up to four numbers with a channel or a nightly suffix, or the error |
| VersionRoundTrip.VersionPrintsBackIff | shared/models.go:54-69 | a version prints back exactly when no number follows a missing one, numbers fit 64 bits, and the channel is one word or a nightly suffix |
| VersionRoundTrip.ReparsingIsStable | shared/params.go:190-233 | parsing any text, printing and parsing again gives the same version |
| ProductParser.ParseProduct | shared/params.go:160-187 | the fields between the dashes, or the error |
| ProductParser.ParseProductSpec | shared/params.go:111-151 | product, labels and revision, or the first error |
| ProductRoundTrip.PrintThenParse | shared/params.go:111-151 | a well-formed spec, printed and parsed, is itself up to ""/"latest" and nil/empty labels |
| ProductRoundTrip.PrintsBackIff | shared/params.go:84-151 | a spec, any spec, prints back exactly when nothing in its fields and labels cuts them, its versions parse and none is skipped, its revision is a hash or "latest", and its "@"s open "@main"s, at most one of them without a revision |
| ProductRoundTrip.StrayAtDoesNotPrintBack | shared/params.go:84-108 | one with a stray "@" in its version does not |
| ProductRoundTrip.PrintIsInjective | shared/product_spec.go:144-161 | two well-formed specs that print alike are the same up to that normal form |
| ProductRoundTrip.ParsedHasNoFullHash | shared/params.go:111-151 | parsing never sets the full revision hash |
| ProductSpelling.ProductIsSpelledIff | shared/params.go:160-187 | a text is parsed to a product exactly when it spells it: one to four pieces between dashes, a known browser in any case, versions that parse |
| ProductSpelling.VersionIsSpelled | shared/params.go:190-233 | an accepted version is spelled from end to end by one to four integers, a nightly suffix or none, and a second word or none |
| ProductSpelling.SpecIsSpelled | shared/params.go:111-151 | an accepted spec is spelled from end to end by its product, its labels and its revision: nothing of the text is ignored |
| ProductLists.HideNestedCommas | shared/params.go:283-292 | the loop ends, and hides exactly the commas inside brackets |
| ProductLists.ParseRepeatedParamValues | shared/params.go:475-495 | the distinct non-empty values, in order |
| ProductLists.DistinctIsExact | shared/params.go:475-495 | they are the values other than "", none twice, in the order of their first occurrences |
| ProductLists.ParseProductSpecs | shared/params.go:68-78 | all the specs, or the first error |
| ProductLists.AllOkIsExact | shared/params.go:68-78 | a list of results is all of its values, or the error of the first that is one |
| ProductLists.ParseProductsParam | shared/params.go:283-301 | the parsed list |
| ProductLists.CutsAtOutsideCommas | shared/params.go:283-301 | splitting the masked text cuts exactly at the commas outside brackets |
| ProductLists.UnmaskMaskIff | shared/params.go:283-301 | hiding and restoring commas gives the text back exactly when no text in brackets completes the placeholder |
| ProductLists.LiteralPlaceholderIsNotTheOnlyHazard | shared/params.go:283-301 | a text without the placeholder that does not come back |
| ProductLists.ProductListPrintsBack | shared/params.go:283-301 | distinct well-formed specs, printed and joined with commas, parse back in order |
| RunDiff.GetResultsDiff | shared/run_diff.go:416-468 | for any order of the maps, reports exactly the tests and differences of the two loops |
| RunDiff.Append | shared/run_diff.go:172-200 | updates the three numbers in place |
| RunDiff.Add | shared/run_diff.go:165-169 | component-wise addition in place |
| RunDiff.NoDifferenceMeansEqual | shared/run_diff.go:204-246 | a test on both sides has an all-zero difference exactly when its counts are equal |
| RunDiff.CountsNeverOverstate | shared/run_diff.go:172-246 | folding the status pairs gives newly passing and failing counts at least those of the counts, and a total short by the new subtests |
| RunDiff.CountsAreTight | shared/run_diff.go:204-246 | and no less could be said: some statuses with these counts have exactly the counted newly passing and failing ones |
| RunDiff.AddedIsExact | shared/run_diff.go:172-246 | for a test that is new, folding and counting agree exactly, and all its subtests make up the total |
| RunDiff.DeletedIsExact | shared/run_diff.go:172-246 | for one that is gone, they are the same difference |
| RunDiff.OneSidedExists | shared/run_diff.go:204-246 | any counts are those of some new and of some deleted subtests, so the two hold of every test on one side |
| RunDiff.AppendAllFiltered | shared/run_diff.go:172-200 | for every filter, the fold counts exactly the pairs each flag lets through |
| RunDiff.DiffWithoutRenames | shared/run_diff.go:416-468 | without renames, exactly which tests are reported, under which paths and flags, and with which three numbers |
| RunDiff.AppendAllExplained | shared/run_diff.go:172-200 | by how much they differ: the subtests that stopped passing, stopped failing, and are new |
| RunDiff.RenamesCommute | shared/run_diff.go:416-468 | with clean renames, diffing is diffing the relabelled earlier summary, for every filter and path set |
| RunDiff.FiltersAreIndependent | shared/run_diff.go:416-468 | for Added, Deleted and Changed, the diff is the disjoint union of the single-filter diffs |
| RunDiff.DeltasConserveTotals | shared/run_diff.go:416-468 | with all three and no paths, the changes add up to the change of the grand total |
| RunDiff.RenamedDeltasConserveTotals | shared/run_diff.go:416-468 | the same with clean renames |
| RunDiff.EitherMayShow | shared/run_diff.go:425-441 | two different diffs of the same summaries when two earlier tests have one target |
| RunDiff.OrderIndependentIff | shared/run_diff.go:425-441 | whatever the counts, filters and paths, the order of the maps does not show exactly when no two earlier tests have the same target |
| CollapsePaths.SortByDepth | api/checks/update.go:339-345 | deepest first, a permutation in place |
| CollapsePaths.CollapseOnce | api/checks/update.go:376-396 | one pass: every path is kept or gives way to its folder, all the deepest give way, and those shallower by two segments stay; every key stays below some path, except that a one-segment key without a slash before it may be lost to "/" when no key has two slashes; there are no more paths than keys |
| CollapsePaths.CollapsePaths | api/checks/update.go:369-403 | whatever the ties and set orders, the result is reached by passes, at most ten, made for as long as there are too many paths; every key has a prefix in it, every result is the prefix of a key, and the result is no larger; only lone keys can be lost, and none when nothing is collapsed or some key has two slashes |
| CollapsePaths.CollapseSummary | api/checks/update.go:348-367 | the paths are those the passes lead to; every key is counted under exactly one path above it, and every path holds the sums of its keys; a key that is not counted is a lost one with no path above it |
| CollapsePaths.CollapsingGoesDeep | api/checks/update.go:369-403 | with few enough keys the result is the keys; with too many every path has fewer segments than the deepest key; and if there are still too many, the paths are shallow or the deepest has lost ten segments |
| CollapsePaths.TotalsConserved | api/checks/summaries/regressed.go:17-31 | each of the four columns has the same grand total over the paths as over the keys counted |
| CollapsePaths.SidesConserved | api/checks/summaries/regressed.go:17-31 | and that total is what the summary of its own side adds up to: all of it when no key is lost |
| CollapsePaths.ParentIsPrefixIff | api/checks/update.go:386-394 | the folder of a path is above it exactly when the path is rooted or has two segments |
| Report.WPTReport.UpdateField | results-processor/wptreport.py:192-216 | sets a field, or nulls it and reports the conflict, exactly when both have it and disagree |
| Report.WPTReport.MergeRunInfo | results-processor/wptreport.py:218-237 | all fields merged, those that disagree null, and exactly the conflicts outside the four ignored fields |
| Report.WPTReport.AddChunk | results-processor/wptreport.py:189-252 | the new state of the report, also when it raises: then the results are there and the times are not |
| Report.RaisesIff | results-processor/wptreport.py:218-237 | loading raises exactly when two chunks disagree on a field that is not ignored; otherwise agreed fields keep their value and the others are null |
| Report.TimesAreExtreme | results-processor/wptreport.py:239-252 | the minimum start and the maximum end |
| Report.LoadingIsOrderIndependent | results-processor/wptreport.py:189-252 | in any other order loading raises too, or gives the same fields and times and the same multiset of results |
| Report.WPTReport.Summarize | results-processor/wptreport.py:370-400 | raises exactly when two stripped names are equal; each name has its abbreviated status, the number of subtests that are PASS and the number of all; and even what a failed call left is cached |
| Report.StripIsExact | results-processor/wptreport.py:384-388 | a stripped name is the text without the white space around it, and only that |
| Screenshots.HashIsInjective | api/screenshot/model.go:57-59 | without a colon in the method, a hash tells method and digest |
| Screenshots.HashesClashIff | api/screenshot/model.go:57-73 | in general, different methods can give one hash exactly when one begins with the other and a colon, which none does beside "sha1" |
| Screenshots.Screenshot.Store | api/screenshot/model.go:93-110 | labels accumulate, uses are counted, the time is now, and hash and everything else stays |
| Screenshots.RecentScreenshotHashes | api/screenshot/model.go:117-165 | min(limit, number) distinct hashes; in terms of the four arguments: a screenshot of the browser is missing only from a full result of such screenshots, and so for browser and system, for those and the browser version, and for all four; within a level the recent ones win |
| Screenshots.PrefersByArguments | api/screenshot/model.go:117-165 | the levels are the arguments': the system version is given up first, then the browser version, then the system, and the browser last; an empty argument asks for nothing |
| Screenshots.SearchEnds | api/screenshot/model.go:140-162 | stopping early leaves every remaining level served |
| Metadata.SplitRebuildsIff | shared/metadata.go:203-224 | folder and name rebuild exactly the rooted paths other than "//name" |
| Metadata.SplitIsExact | shared/metadata.go:211-224 | the name is what follows the last slash, the folder what is before it |
| Metadata.DoubleSlashIsLost | shared/metadata.go:203-224 | of which "/name" is rebuilt |
| Triage.AppendTestName | shared/triage_metadata.go:258-273 | every result gets the name and keeps subtest and status, a link without results gets one, and links keep everything else |
| Triage.MergeLink | shared/triage_metadata.go:222-241 | the first link that takes it in gets the results, otherwise it goes last |
| Triage.MergedIsExact | shared/triage_metadata.go:222-241 | the first link with the same URL and label whose product the new one matches gets the results at its end, and only if there is none is there one more |
| Triage.MergedKeeps | shared/triage_metadata.go:222-241 | existing links and results stay in order |
| Triage.MergedLands | shared/triage_metadata.go:222-241 | the new results stand together under one link with the same URL and label, for a product the new link matches |
| Triage.MergedCounts | shared/triage_metadata.go:222-241 | every result is added exactly once |
| Triage.AddToFiles | shared/triage_metadata.go:211-256 | for any order of tests: links and results kept in order, every result added exactly once and under a matching link, no link added to a file that an earlier one could have taken in, other folders untouched, modified folders returned |
| MetadataResponse.ConstructMetadataResponse | shared/metadata.go:139-163 | for any order of files, each test is answered with a copy of each of its results for every reason to show it: once at test level, if asked for and the link names no browser, and once if its product matches one asked for; no more, and nothing else |
| MetadataResponse.AddResponseLink | shared/metadata.go:116-136 | appends one link under the test |
| MetadataResponse.FolderAnswerIsDue | shared/metadata.go:139-163 | so for one file, counted over its links and results |
| MetadataResponse.FolderAnswerSound | shared/metadata.go:139-163 | nothing is answered that no link says of the test asked for and a matching product |
| MetadataResponse.TriagedNamesItsTest | shared/triage_metadata.go:258-273 | a triaged result names its test again when its file is read |
| MetadataResponse.TriagedIsAnswered | shared/metadata.go:139-163 | a triaged result is answered for every product that the link it landed under matches |
| MetadataResponse.AnsweredForOne | shared/triage_metadata.go:222-241 | for one product, exactly when the link that takes it in, or the triaged one if none does, matches that product |
| MetadataResponse.TriagedIsAnsweredIff | shared/triage_metadata.go:222-241 | for every product it was triaged for, exactly when no existing link takes it in or the first that does is for a product that matches the triaged one |
| MetadataResponse.AnswerStays | shared/triage_metadata.go:222-241 | what was answered before is answered the same after links are merged in |
| MetadataResponse.TriagedUnderNarrowerProduct | shared/triage_metadata.go:226-233 | one that lands under a version of its browser is not answered for another version |
| Receiver.PendingTestRun.Transition | shared/models.go:270-276 | a stage is taken exactly when it is not zero and not lower |
| Receiver.PendingTestRun.Mutate | api/receiver/api.go:124-168 | only what the update sets changes, or nothing when the stage is refused |
| Receiver.UpdateTakesWhatIsSet | api/receiver/api.go:124-168 | each field is taken if the update sets it and left if it does not |
| Receiver.LastSetWins | api/receiver/api.go:120-170 | after any updates in turn, each field is what the last accepted one to set it said, or what it was |
| Receiver.StageIsHighest | shared/models.go:270-276 | and the stage is the highest of all that were sent, in whatever order they came |
| Receiver.UpdateFollows | api/receiver/api.go:120-170 | an accepted update keeps what is set, never lowers the stage, and keeps the short revision the start of the full one |
| Receiver.Api.UpdatePendingTestRun | api/receiver/api.go:120-170 | a transaction: everything or nothing |
| Receiver.Api.AddTestRun | api/receiver/api.go:84-97 | a pre-allocated id is inserted or refused, never overwritten |
| Receiver.Api.ScheduleResultsTask | api/receiver/api.go:204-239 | reserves an id, notes it as received with uploader and revision unless it is past that stage, and then queues the task |
| Receiver.Api.HandleResultsCreate | api/receiver/create_run.go:47-100 | refuses exactly the hashes that are not 40 long or do not begin with the short one, fails exactly when the id is taken, and otherwise creates the run with ten characters of its hash and makes the pending run valid |
| ReceiverProtocol.EveryStateIsSafe | results-processor/processor.py:365-444 | over every run of the protocol, with or without the lock and late requests: short revisions match, VALID runs are created for the same revision; with the lock and without late requests, raw results are unique |
| ReceiverProtocol.HistoryMovesForward | api/receiver/api.go:120-170 | from any moment on, stages never decrease, what is set stays set, and created runs never change |
| ReceiverProtocol.LockedRunsAreUnique | results-processor/main.py:48-62 | with the lock, and creation requests that end with their processor, no two created runs share their raw results |
| ReceiverProtocol.RunsAreUniqueIff | results-processor/processor.py:103-117 | runs never repeat in any execution exactly when there is the lock and no request outlives its processor |
| ReceiverProtocol.LateRunsMayRepeat | results-processor/processor.py:271-295 | a request that outlives its processor, and its retry, create two runs, lock or not |
| ReceiverProtocol.AllocatedIdIsInsertedOnce | api/receiver/api.go:84-97 | once the run of a pre-allocated id has been created, a late request for it and a retry change nothing, whatever happens |
| ReceiverProtocol.UnlockedRunsMayRepeat | results-processor/processor.py:103-117 | without the lock two processors may create two runs, late requests or not |
| ReceiverProtocol.CreateIsTwoSteps | api/receiver/create_run.go:74-101 | the receiver's creation is the machine's create and validate steps |
| Manifest.FindNodeIsAt | shared/manifest.go:74-85 | a lookup finds what stands at the path, nulls aside |
| Manifest.FilterFailsIff | shared/manifest.go:154-171 | filtering fails exactly when the path goes through a leaf |
| Manifest.FilterFindsIff | shared/manifest.go:154-171 | something is left exactly when something is at the path |
| Manifest.FilterKeepsSubtree | shared/manifest.go:74-85 | lookups at and below the path are unchanged |
| Manifest.FilterDropsTheRest | shared/manifest.go:74-85 | lookups off the path find nothing |
| Manifest.FilterTwice | shared/manifest.go:154-171 | filtering twice is filtering once |
| Manifest.FilteredTwice | shared/manifest.go:42-57 | and so for a whole manifest, which the second time cannot fail |
| Manifest.FilteredHasSameFiles | shared/manifest.go:88-105 | the filtered manifest has the same files at and below the path |
| Manifest.FilteredHasNoOthers | shared/manifest.go:88-105 | and no file off it |
| Manifest.Manifest.UnmarshalAll | shared/manifest.go:59-72 | all items decoded once; a failure leaves a part that later calls use |
| Manifest.Manifest.ContainsFile | shared/manifest.go:88-105 | whether some test type has the file |
| Manifest.Manifest.FilterOnePath | shared/manifest.go:42-57 | every test type filtered, the empty ones dropped |
| Manifest.PartsAreExact | shared/manifest.go:45-57 | the parts of a path are the names between its slashes, those at its ends left out |
| TestNames.ParseTestURL | shared/manifest.go:239-254 | the query is what begins with the first "?", and of the rest the first fitting suffix is replaced |
| TestNames.SuffixesExclude | shared/manifest.go:175-186 | no file name has two of the suffixes, so the order of the map does not matter |
| TestNames.ExplodesExactly | shared/manifest.go:219-237 | the tests that each of the three kinds of file generates, and that no other file does |
| TestNames.ImplodesExactly | shared/manifest.go:190-202 | the file each of the six kinds of test comes from, and that any other is its own |
| TestNames.ExplodedParsesBackIff | shared/manifest.go:219-254 | a generated name gives back its file exactly when the file has no "?" and does not end in ".any.worker.js" |
| CachedStore.WriteCloser.Close | shared/cache.go:205-216 | what was written reaches the cache at once, if anything was |
| CachedStore.GzipWriter.Close | shared/cache.go:96-101 | the zipped text of all that was written reaches the cache, also of nothing |
| CachedStore.ReadAll | shared/cache.go:107-126 | what is read is what was stored, unzipped |
| CachedStore.Get | shared/cache.go:237-307 | through the gzip layer or not: cache, then store, then back into the cache, with any failures |
| CachedStore.GetObject | shared/cache.go:392-417 | the same for encoded objects |
| CachedStore.CacheIsInvisible | shared/cache.go:237-307 | after any gets, failures and evictions a get answers what the store would, and at worst its error |
| CachedStore.ObjectCacheIsInvisible | shared/cache.go:392-417 | the same for objects that survive being written and read back |
| CachedStore.FoundIsKept | shared/cache.go:237-307 | what a get found with store and cache working is answered by every later get that reaches the cache, even if the store fails, until it is forgotten |
| CachedStore.FoundObjectIsKept | shared/cache.go:392-417 | and so for objects |
| RequestCache.CachingResponseWriter.Write | shared/request_caching.go:37-50 | records what the client received |
| RequestCache.ServeHTTP | shared/request_caching.go:90-155 | the response and the cache afterwards, through the gzip layer or not, for any choice of what to keep, any handler, and any failures of cache and client |
| RequestCache.KeptIsServed | shared/request_caching.go:90-155 | a body that is to be kept is stored, alone, and answers the next request with status 200, whatever the handler would reply to that one |
| RequestCache.OnlyGoodResponsesStored | shared/request_caching.go:128-155 | as long as no client left anything else behind, every stored body is that of a whole response with status 200 |
| RequestCache.InvisibleIff | shared/request_caching.go:90-155 | whatever requests came before, their clients taking all of it, the response is the uncached one exactly when a response that is kept was sent with status 200, an empty one included |
| RequestCache.DisciplinedRecords | shared/request_caching.go:37-55 | a handler that sets its status once, first, is recorded rightly |
| RequestCache.InvisibleToBrokenIff | shared/request_caching.go:37-155 | whatever requests came before, and wherever their clients broke off, the response is the uncached one exactly when no part of the reply that a client may have taken is kept but the whole of it |
| RequestCache.SteadyInvisibleIff | shared/request_caching.go:176-180 | for handlers that ignore failed writes and keep every 200: exactly when a response kept is a 200 with an empty body, or over bare Redis with a body in one piece |
| RequestCache.OnePieceIsEmptied | shared/cache.go:96-101 | a handler that writes its body at once, and a client that takes nothing, leave an empty 200 for everybody |
| RequestCache.ReactingInvisibleIff | api/query/search.go:218-226 | for handlers that answer a failed write with an error: exactly when they are honest |
| RequestCache.SearchInvisibleIff | api/query/search.go:297-317 | the search handler, which keeps only well-formed payloads with results: exactly when it is honest, if no part of a response is well-formed |
| RequestCache.StoredWholeIff | shared/request_caching.go:128-155 | what one request leaves in the cache is the whole response exactly when nothing is kept, or its status is 200 and the client missed no piece |
| RequestCache.TwoBodiesTruncate | shared/request_caching.go:37-50 | for every response in two pieces some client leaves a truncated body |
| RequestCache.DisciplinedIsHonest | shared/request_caching.go:37-55 | handlers that set their status once, first, are honest, and invisible exactly when their 200s are empty, or over bare Redis in one piece |
| RequestCache.SecondStatusMisleads | shared/request_caching.go:52-55 | one that sets it twice need not: an error is cached as a success |

## Left out

- HTTP routing, authentication, logging, GitHub, Taskcluster and Azure clients,
  and the transport to GCS and Redis: Datastore, GCS and Redis are maps, and
  what may fail is a parameter or a step.
- Clocks and the ids that Datastore hands out are parameters.
- JSON, YAML, gzip and text patterns: parsed values are datatypes, gzip is any
  codec that reads back what it wrote, and patterns are string predicates.
  `strings.ToLower` is modelled on ASCII. Go's
  `strconv.ParseInt` is modelled with its 64-bit range.
- SHA-256 is taken as injective: a digest is its text.
- Metadata-backed query atoms (links, triage, labels, features, qualities) and
  the evaluator: leaves are uninterpreted, and a concrete node means what its
  documentation says.
- `--generate-new-statuses-json`, the date windows that find runs, timeouts, and
  crashes inside `commit_checkpoint`. A process that raised in one thread is
  treated as one that died.
- HistoryJob.Job.ProcessSingleRun: where two earlier test names with newlines
  share an entry key, it says that the entry stored is one of theirs, not which,
  since that depends on the order of a set. The restart machine takes names to be
  one-line, which the job keeps true of all it writes.
- ReceiverProtocol.LockedRunsAreUnique: it needs creation requests that end with
  their processor, without which it fails; and queries see every run created
  before, which an index that lags behind would not grant.
- Slices that share memory: `addToFiles` and the diff functions work on values,
  so that two tests sharing a slice of links is not covered. In-place sorting
  of the caller's keys in `collapsePaths` is kept.
- Report.LoadingIsOrderIndependent: JSON values are equal when they are the
  same value; Python also equates 1, 1.0 and true.
- CachedStore.GetObject: a cached object that fails to decode half-way leaves
  nothing behind in the output object.
- RequestCache.ServeHTTP: response headers and informational statuses, writes that
  are taken in part, and responses that change while an older one is kept.
- Manifest.Manifest.FilterOnePath: several paths in one call, which the code
  does not treat as a union, and objects with repeated keys.
- Diffs with the Unchanged flag alone.
- Screenshots.RecentScreenshotHashes: Datastore queries that fail, after which the
  code returns the hashes found so far with the error.
- `ContainsTest` and `ExplodePossibleRenames` of the manifest, and the hooks and
  file copies of the processor: they would add only easy members.
- Charts, interop scores, pluralisation and the other user interface code.
