# Verification of github-state-mirror

The mirror answers GitHub API reads from its own database. It keeps its answers equal to what GitHub would say by
editing them from webhook payloads, while fetches, whose answers may be seconds old, race with those webhooks. This
project models the code that makes that safe and proves what it keeps.

`dafny verify dfyconfig.toml` checks everything. There is one file per component:

- **CommitCiDocs, CommitCiRefinement, CommitCiTable**: a commit's cached CI answers. A `status` or `check_run`
  delivery edits a stored page exactly when the edited page is what a fresh fetch would store. The upstream state is
  an append-only status history, or a set of check runs by id; a fetch is a function of it; every rewrite commutes
  with the event. The table results cover a whole delivery, rows visited in any order.
- **PullRows, PullTruth, PullStore, MergeMarker, OpenSet**: the open-PR truth. `PullRows` holds the SQL upsert with
  its three-valued stale guard, and the Go predicates. `PullStore` is the store that writes rows, closures and the
  completeness marker step by step. `OpenSet` is the protocol: per-PR histories at GitHub, deliveries in any order
  behind the watermark, any number of overlapping list fetches, org syncs and single-PR fetches. Their answers may be
  `lag` seconds stale and `flight` seconds under way, and a list may be stamped with a clock reading `hold` seconds
  old. With `lag + hold` within the two-minute grace and `lag + flight` within the day closures are kept, every run
  keeps the open set exact, from an empty store or from the rows a restarted mirror finds. `MergeMarker` is the
  test-merge-sha marker over every run of its writers.
- **CheckRollup**: the CI rollup on a PR row as a maintained view of the recorded checks.
- **PullsList**: serving the PR list from state: filter, sort, and the hit that equals GitHub's page.
- **Watermarks**: which deliveries may write, over whole histories of deliveries in any order.
- **WorkflowJobs**: the all-or-nothing rewrite of a workflow run's cached job answers.
- **Grants**: who may be shown a repo; a grant is live exactly while its last proof stands.
- **Freshness, Debounce**: two concurrency cores as step systems over any number of callers; `DebounceKey` is the
  debouncer's key encoding and its capture buffer.
- **Timeline**: the event ring with lazy eviction and deferred compaction, against a plain sequence.
- **Fingerprint**: the schema scrubber as the printer of a canonical token stream.
- **Rfc3339**: string order of the stored time keys is chronological order (section 5.6 of RFC 3339, with the UTC
  offset `Z`).

Conventions. JSON documents are datatypes; SQL tables are maps, and each query's contract is written out where the Go
method that calls it is modelled. Owner and repo are one canonical key. Where the source works step by step on fields,
the model is a class whose methods are proved to be a specification function of the old state, and the results are
proved of that function. Beside them, members named `...Reads` or `...Says...` state an operation in literal terms:
constants, characters, columns. Clock readings are nanoseconds and stored times whole seconds, except where a module
says otherwise.

## Where the code does less than it says

Each of these is a proved member with the exact condition.

- A single-PR answer saying *closed* is written without comparing it with anything. A reopen delivered while that
  answer was under way is lost (`OpenSet.StaleCloseLosesReopen`); checked against the watermark it would be safe
  (`OpenSet.GuardedCloseIsSafe`).
- The reconcile records no closure (`internal/ghdata/respcache_pulls.go:251`). When the delivery of a close is lost,
  an older open answer that lands after the list brings the row back exactly when no earlier closure refuses it
  (`OpenSet.RepairUndoneIff`). A list repairs a lost close exactly when the row was not touched within the grace
  window, and for good once every answer under way has seen the close (`OpenSet.ListRepairsLostClose`,
  `OpenSet.RepairHolds`).
- A first complete list after a restart sets the list marker, and leaves GitHub's open set exactly when every stored
  row of a PR that closed unwatched was last touched before its cutoff (`OpenSet.CompleteListExactIff`): a list fetched
  within two minutes of the stored rows need not. The old marker outlives the restart too, so what a fresh marker says
  is proved once the old one has run out and no list was fetched that early (`OpenSet.FreshMarkerMeansExact`).
- A view of a PR is refused exactly when its stamp is missing or not later than the recorded close, which includes a
  reopen within the close's own second (`OpenSet.ReopenRefusedIff`).
- `AbsorbPullsList` stamps rows with the handler's clock reading from before its fetch
  (`internal/api/respcache_pulls.go:198`, `:235`), so a slow handler can move `touched_at` backwards and out of a
  second fetch's grace window (`OpenSet.SlowHandlerBackdatesRow`). The comment at
  `internal/ghdata/respcache_pulls.go:199-201` has the window depend on the fetch start alone.
- The open set is exact, but a late list can put an older view of an open PR back (`OpenSet.LateListRewritesRow`).
- The stale guard of `UpsertPullRequest` is SQL: a missing branch or tip makes it NULL, and then the marked sha and
  its marker stand in one row, unlike what `pushProvenPostPush` decides. `MergeMarker.NullTipLeavesMarkedSha` says
  exactly on which answers, `MergeMarker.MarkerExcludesSha` over which runs. The gate's own last check refuses such a
  row.
- A row that names no commit -- an empty check-runs page, a stored not-found verdict -- is skipped by the rewrite, so
  under the commit's own sha it stays as it was and is then wrong (`CommitCiTable.LandedListsRunsIff`,
  `CommitCiTable.SettledShowsHistoryIff`). `docs/webhooks/invalidations.md:110` has the caller flush, and
  `internal/api/respcache_commitci.go:143` calls the verdict honest by the same flushes; but a check run's caller
  flushes only when nothing at all was rewritten, so such a row outlives the delivery exactly when some other page was
  and none of its ref's was refused (`CommitCiTable.NamelessSurvivesIff`, `CommitCiTable.EmptyPageOutlivesDelivery`),
  and a status flushes the combined kind never (`CommitCiTable.NotFoundOutlivesStatus`).
- A check run with an id the page already lists is written into it whatever commit the page is about
  (`CommitCiTable.ForeignPageRewritten`), although `internal/ghdata/respcache_commitci_apply.go:171` says a rewrite
  only succeeds on a page of the run's own commit. Deliveries about two runs then end differently in the two orders
  exactly when rewriting the listed one switches whether the page is about the other's commit, which takes a run that
  changed commit upstream, or when both are inserted into a page out of id order
  (`CommitCiRefinement.OrderMattersIff`, `CommitCiRefinement.SameCommitNeverSwitches`,
  `CommitCiRefinement.ListingsNeverCross`).
- A redelivered status is listed twice exactly when its entry has left the page and it ties with the newest one
  (`CommitCiRefinement.ListRedelivery`); in the combined status a tie with a later one reorders the page
  (`CommitCiRefinement.CombinedRedelivery`).
- `ClaimEventOrder` reads the watermark and claims it in two statements; a delivery can be let through although a
  newer one has won in between, exactly when all it had read was no newer than itself
  (`Watermarks.InterleavedOlderAppliesIff`).
- A workflow run of which only *other* jobs' own rows are cached is reported as not rewritten, and the caller flushes
  those rows, against the comment at `internal/ghdata/respcache_workflowjobs_apply.go:34`
  (`WorkflowJobs.JobsCache.SettleWorkflowJobs`).
- A probe's grant is meant to survive a listing that omits the repo; once any listing has included the repo it does
  not (`Grants.ProbeSurvivesOmissionIff`).
- An invalidation that lands while a fetch is under way is erased when that fetch returns, whether it succeeds or
  fails (`Freshness.InvalidationDuringCallIsErased`). An invalidation is kept, until a call begun after it has
  succeeded, exactly when no call was under way (`Freshness.InvalidationKeptIff`).
- The timeline's binary search takes the ring to be in end order (`internal/reqtimeline/reqtimeline.go:285`). An end
  is the start plus whole milliseconds, and two requests may take the lock in the other order, so it need not be.
  Range reads are exact precisely when it is (`Timeline.RangesExactIff`; a ring that is read wrongly is in
  `Timeline.CrossedRingMisread`), and an eviction precisely when no expired event sits behind an unexpired one
  (`Timeline.EvictionExactIff`). Otherwise both are off by no more than the slack in that order
  (`Timeline.Recorder.SnapshotRange`, `Timeline.EvictionIsExact`).
- The writers that upsert a PR without re-deriving its CI status keep the rollup view only under a condition
  (`CheckRollup.PlainUpsertMaintainsIff`).

## Model

| member | source | states |
|---|---|---|
| `CommitCiRefinement.CombinedRefinesFetch` | internal/ghdata/respcache_commitci_apply.go:305-351 | the rewritten combined status is what a fetch of the history with the new status stores, rollup included; it happens exactly when every context is on the page, the result fits and no listed status is newer |
| `CommitCiRefinement.CombinedSaysWhatHappened` | internal/ghdata/respcache_commitci_apply.go:295-351 | the rewritten state is failure if some context's latest status in the history failed or errored, else pending if one is pending, else success; the last entry is the delivery's own words and the others stand as stored |
| `CommitCiRefinement.NoStatusIsPending` | internal/ghdata/respcache_commitci_apply.go:389-392 | a commit without statuses is pending |
| `CommitCiRefinement.CombinedRefuses` | internal/ghdata/respcache_commitci_apply.go:305-333 | what is refused whatever the page holds: another page or commit, a truncated page, an overflow, an older delivery or an unreadable time |
| `CommitCiRefinement.LatestAppend` | internal/ghdata/respcache_commitci_apply.go:295-300 | posting a status drops its context's previous entry from latest-per-context and puts the new one last |
| `CommitCiRefinement.CombinedRedelivery` | internal/ghdata/respcache_commitci_apply.go:305-351 | a redelivered status leaves the document as it is, or drops it, exactly when it is the newest or something strictly newer is on record; a tie reorders the page |
| `CommitCiRefinement.ListRefinesFetch` | internal/ghdata/respcache_commitci_apply.go:353-383 | the rewritten raw list is the first page of the longer history, for a status new to the list |
| `CommitCiRefinement.ListSaysWhatHappened` | internal/ghdata/respcache_commitci_apply.go:353-383 | a rewritten list is the delivery's own words in front of the stored entries, cut to the page |
| `CommitCiRefinement.ListRefuses` | internal/ghdata/respcache_commitci_apply.go:353-376 | what the list rewrite refuses, and that a listed delivery changes nothing |
| `CommitCiRefinement.ListRedelivery` | internal/ghdata/respcache_commitci_apply.go:353-383 | exactly when redelivering a status of the history leaves the list as it is, drops it, or lists the status twice |
| `CommitCiRefinement.RunsRefineFetch` | internal/ghdata/respcache_commitci_apply.go:218-269 | the rewritten check-runs page is the id-descending listing of the runs with the delivered one added or replaced, its total is its length and fits the page; and when it is refused |
| `CommitCiRefinement.ListingUnique` | internal/ghdata/respcache_commitci_apply.go:250-265 | a set of runs has one id-descending listing |
| `CommitCiRefinement.SearchPartitions` | internal/ghdata/respcache_commitci_apply.go:265 | on a descending page the binary search lands where every earlier id is at least the run's and every later one smaller |
| `CommitCiRefinement.RunsCommute` | internal/ghdata/respcache_commitci_apply.go:218-269 | deliveries about two runs of one commit give the same document, or the same drop, in either order |
| `CommitCiRefinement.OrderMattersIff` | internal/ghdata/respcache_commitci_apply.go:218-269 | for every page: exactly when deliveries about two runs end differently in the two orders |
| `CommitCiRefinement.SameCommitNeverSwitches` | internal/ghdata/respcache_commitci_apply.go:230-242 | while the page has a run's commit right, rewriting that run never switches what the page is about |
| `CommitCiRefinement.ListingsNeverCross` | internal/ghdata/respcache_commitci_apply.go:250-265 | on an id-descending page two insertions never disagree about the places |
| `CommitCiRefinement.OrderCanMatter` | internal/ghdata/respcache_commitci_apply.go:230-265 | inputs on which each of the two conditions holds |
| `CommitCiDocs.CombinedStatusRollup` | internal/ghdata/respcache_commitci_apply.go:389-403 | the early-exit loop gives failure if any item failed or errored, else pending if none or any is pending, else success |
| `CommitCiDocs.PatchCombinedStatus` | internal/ghdata/respcache_commitci_apply.go:305-351 | refuses a later page, another sha, a truncated page, an older status or an overflow; else the other contexts in order, then the new entry |
| `CommitCiDocs.PatchStatusesList` | internal/ghdata/respcache_commitci_apply.go:353-383 | keeps a list that already holds the delivery, refuses an older one, else prepends it and truncates to the page |
| `CommitCiDocs.PatchCheckRunsPage` | internal/ghdata/respcache_commitci_apply.go:218-248 | replaces every entry with the id, or inserts, or refuses, as the specification function says |
| `CommitCiDocs.InsertCheckRun` | internal/ghdata/respcache_commitci_apply.go:255-269 | inserts at the searched place into a page that names the run's commit and has room |
| `CommitCiDocs.PageDescribesSHA` | internal/ghdata/respcache_commitci_apply.go:190-200 | a non-empty page whose every entry names the sha |
| `CommitCiTable.CommitCiCache.Land` | internal/ghdata/respcache_commitci_apply.go:158-177 | one pass in any order: a surviving row holds its rewrite or was not about the event, no page outlives a refused row of its ref unless it was rewritten after the drop, and nothing that should stay is lost |
| `CommitCiTable.CommitCiCache.SettleFromStatus` | internal/ghdata/respcache_commitci_apply.go:72-139 | on a status with a 40- or 64-digit sha, a context and a state: both passes and the branch flush; what survives, what it holds, what a refused page takes with it, and what must survive; any other status changes nothing |
| `CommitCiTable.CommitCiCache.ApplyCheckRun` | internal/ghdata/respcache_commitci_apply.go:146-178 | on a run with an id, a status and such a sha: the pass over the check-runs rows; reports applied exactly when some row was rewritten; any other run changes nothing |
| `CommitCiTable.IsFullHexSHA` | internal/ghdata/respcache_gitrefs.go:21-34 | accepts exactly 40 or 64 characters of 0-9a-f |
| `CommitCiTable.ActedOn` | internal/ghdata/respcache_commitci_apply.go:73-75 | which status and check-run deliveries are acted on, character by character |
| `CommitCiTable.NotAbout` | internal/ghdata/respcache_commitci_apply.go:84-113 | which rows a delivery skips: other commits, other refs, the kinds it does not appear in |
| `CommitCiTable.DroppedPages` | internal/ghdata/respcache_commitci_apply.go:158-167 | which rows it drops: later pages, undecodable lists, pages that do not hold every entry |
| `CommitCiTable.StoreReads` | internal/ghdata/respcache_commitci.go:66-81 | a store puts one row and takes exactly the expired ones |
| `CommitCiTable.FlushStep` | internal/ghdata/respcache_commitci_apply.go:281-285 | dropping one refused row drops every page of its ref and kind, and the pass's invariant survives that |
| `CommitCiTable.TwoPasses` | internal/ghdata/respcache_commitci_apply.go:72-139 | the combined pass followed by the list pass settles the table |
| `CommitCiTable.TwoPassesDrop` | internal/ghdata/respcache_commitci_apply.go:84-126 | no page about something else outlives an unexpired page of its ref and kind that refused the status |
| `CommitCiTable.SettledShowsHistory` | internal/ghdata/respcache_commitci_apply.go:72-139 | after a status delivery every surviving status document of the commit, and every surviving list under its sha, shows the history with the status in it; rows naming another commit are untouched |
| `CommitCiTable.SettledShowsHistoryIff` | internal/ghdata/respcache_commitci_apply.go:84-87 | a surviving combined row under the commit's own sha shows the longer history exactly when it held a status document; a not-found verdict stands unchanged |
| `CommitCiTable.NotFoundOutlivesStatus` | internal/api/respcache_commitci.go:143-149 | a stored not-found verdict goes only with a page of its own ref and kind that refuses the status |
| `CommitCiTable.LandedListsRuns` | internal/ghdata/respcache_commitci_apply.go:146-178 | after a check-run delivery every surviving page that names the run's commit is a first page listing the runs after it |
| `CommitCiTable.LandedListsRunsIff` | internal/ghdata/respcache_commitci_apply.go:158-172 | a surviving first page that listed the commit's runs lists them after the delivery exactly when it was not empty |
| `CommitCiTable.NamelessSurvivesIff` | internal/sync/webhook_apply.go:35-48 | an empty page or not-found verdict under a named ref outlives the delivery exactly when some page was rewritten and none of its ref's refused |
| `CommitCiTable.EmptyPageOutlivesDelivery` | internal/sync/webhook_apply.go:35-48 | two rows for which that happens |
| `CommitCiTable.CommitCiCache.SettleCheckRun` | internal/sync/webhook_apply.go:21-48 | the pass, and the flush of the named refs when nothing was rewritten |
| `CommitCiTable.ForeignPageRewritten` | internal/ghdata/respcache_commitci_apply.go:158-172 | a page that does not name the run's commit is rewritten exactly when it is a complete first page listing the id |
| `OpenSet.DrainedIsExact` | internal/ghdata/respcache_pulls.go:194-267 | over every run, from any stored rows: once a complete list later than they is absorbed, a PR whose newest version was delivered is stored exactly when GitHub has it open |
| `OpenSet.AllDrainedIsExact` | internal/ghdata/respcache_pulls.go:194-267 | with nothing pending, once a complete list is in, the stored numbers are GitHub's open set |
| `OpenSet.FreshMarkerMeansExact` | internal/ghdata/respcache_pulls.go:106-129 | while the list marker is fresh and nothing is pending, the stored rows are GitHub's open set, none missing and none to spare; after a restart once the kept marker has run out and no list was fetched within the grace of the stored rows |
| `OpenSet.StepKeepsInv` | internal/ghdata/respcache_pulls.go:205-267 | every step -- event, delivery, answer, list absorb, org sync, single absorb, close, tick -- keeps the protocol invariant |
| `OpenSet.RememberedBlocks` | internal/ghdata/pr_closures.go:17-36 | an answer still under way that shows a since-closed PR open is refused by the recorded closure |
| `OpenSet.TiedOpenIsRefused` | internal/ghdata/pr_closures.go:27-32 | a late open view of the very second in which the PR then closed passes the watermark and is refused by the closure |
| `OpenSet.DeliveryReads` | internal/ghdata/watermarks.go:27-60 | a delivery behind the watermark by a second changes nothing, any other is written; the newest version drains the PR |
| `OpenSet.OmittedKeepsSlot` | internal/ghdata/respcache_pulls.go:228-252 | a PR opened after the answer's view is inside the grace window, so the reconcile keeps it |
| `OpenSet.SyncKeepsSlot` | internal/ghdata/store.go:174-214 | an org sync of a repo keeps what a complete list absorb keeps |
| `OpenSet.CompleteListExactIff` | internal/ghdata/respcache_pulls.go:228-259 | with nothing pending a complete list leaves GitHub's open set exactly when every stored row of a PR that closed unwatched was last touched before the cutoff |
| `OpenSet.ListRepairsLostClose` | internal/ghdata/respcache_pulls.go:228-252 | once every answer under way has seen the close, or for a row stored before the restart, a complete list removes the row exactly when it was not touched within the grace window |
| `OpenSet.RepairHolds` | internal/ghdata/respcache_pulls.go:228-252 | after that a row that is gone stays gone over every run without a delivery or new version of the PR |
| `OpenSet.RepairUndoneIff` | internal/ghdata/respcache_pulls.go:228-252 | an older open view after the reconcile brings the row back exactly when no recorded closure refuses it |
| `OpenSet.StaleCloseLosesReopen` | internal/api/respcache_pulls.go:361-367 | writing a stale closed answer keeps the slot right exactly when the PR is not already known to be open again |
| `OpenSet.GuardedCloseIsSafe` | internal/api/respcache_pulls.go:361-367 | a closed answer not older than the PR's watermark is always right to write |
| `OpenSet.ReopenRefusedIff` | internal/ghdata/pr_closures.go:17-48 | after a close, a view is written exactly when it is stamped strictly later than the close and than the bar already on record; otherwise nothing changes |
| `OpenSet.SlowHandlerBackdatesRow` | internal/api/respcache_pulls.go:198-240 | after a slow handler a second answer keeps the row exactly when the first handler's reading is inside its grace window |
| `OpenSet.LateListRewritesRow` | internal/ghdata/respcache_pulls.go:213-227 | an older view no closure refuses replaces a newer row's contents |
| `PullTruth.AbsorbListListed` | internal/ghdata/respcache_pulls.go:213-227 | a listed PR is written from the answer and its closure cleared, unless the closure refuses the view |
| `PullTruth.AbsorbListOmitted` | internal/ghdata/respcache_pulls.go:228-252 | an omitted PR is removed only by a complete answer and only outside the grace window; closures are untouched |
| `PullTruth.ReconcileReads` | internal/ghdata/respcache_pulls.go:228-252 | only a complete answer removes rows, those last touched more than two minutes before its fetch began |
| `PullTruth.MarkerReads` | internal/ghdata/respcache_pulls.go:111-124 | when the list marker is set, cleared and believed |
| `PullTruth.ClosuresKeptADay` | internal/ghdata/store_prs.go:78-99 | a close drops its row and keeps exactly the closures of the last day |
| `PullStore.Store.ClosureBlocks` | internal/ghdata/pr_closures.go:17-36 | refuses a view without a later updated_at, and forgets a closure the view has outlived |
| `PullStore.Store.UpsertPRTx` | internal/ghdata/store.go:381-392 | the guarded upsert of rows and closures |
| `PullStore.Store.Reconcile` | internal/ghdata/respcache_pulls.go:228-252 | the deleting loop, in any order, removes exactly the omitted rows outside the grace window |
| `PullStore.Store.SyncRepo` | internal/ghdata/store.go:174-214 | the per-repo half of the org sync is the upserts followed by the reconcile |
| `PullStore.Store.AbsorbPullsList` | internal/ghdata/respcache_pulls.go:205-267 | the transaction is the specification function: upserts, reconcile, marker, expiry |
| `PullStore.Store.AbsorbSinglePull` | internal/ghdata/respcache_pulls.go:293-341 | upsert then force-set, storing unresolved an answer presumed pre-push; reports that presumption |
| `PullStore.Store.DeletePR` | internal/ghdata/store_prs.go:78-99 | the row goes, the closure keeps the later updated_at, old closures are pruned |
| `PullStore.Store.NullMergeableByBranch` | internal/ghdata/store_prs.go:106-122 | un-resolves every PR based on or headed by the branch and marks its sha |
| `PullStore.Store.NullMergeableOnTipMove` | internal/ghdata/store_prs.go:126-157 | un-resolves the PR when its head moved or it was retargeted, and says whether |
| `MergeMarker.MarkerExcludesSha` | internal/ghdata/respcache_pulls.go:46-50 | over every run of writers from the first sight on, a marker and the sha it names stay out of one row exactly while no answer is undecided; then the gate's last check never refuses |
| `MergeMarker.RunSoundIff` | internal/ghdata/store_prs.go:106-172 | the same for a run from any consistent row |
| `MergeMarker.TippedRunsAreDecided` | internal/database/queries/ghdata.sql:125-162 | runs whose answers name their branches and tips have no undecided answer |
| `MergeMarker.InsertIsSound` | internal/database/queries/ghdata.sql:125-162 | a first sight of a PR carries no marker |
| `MergeMarker.GuardAgrees` | internal/database/queries/ghdata.sql:125-162 | for answers that name their tips the SQL guard rejects exactly what the Go presumption rejects, seconds against nanoseconds included |
| `MergeMarker.ProofAgrees` | internal/ghdata/respcache_pulls.go:54-66 | for such answers SQL's push-tip proof is definite and equals the Go predicate |
| `MergeMarker.WriteKeepsSound` | internal/ghdata/store_prs.go:106-172 | every writer keeps marker, stamp and proof columns consistent |
| `MergeMarker.UpsertReads` | internal/database/queries/ghdata.sql:125-162 | which columns an upsert takes from the view, and which it keeps until a view knows them |
| `MergeMarker.UpsertWithoutSha` | internal/database/queries/ghdata.sql:133-162 | the merge columns under a view without a test-merge sha, REST or GraphQL |
| `MergeMarker.UpsertWithSha` | internal/database/queries/ghdata.sql:133-162 | a REST view with a sha is taken as it stands over a row without a marker |
| `MergeMarker.PushForgets` | internal/ghdata/store_prs.go:106-122 | what a push does to the rows on its branch and to no other |
| `MergeMarker.TipMoveForgets` | internal/ghdata/store_prs.go:126-157 | what a moved head or another base does to the row, the head's branch and tip first; any other view changes nothing |
| `MergeMarker.ProofReads` | internal/ghdata/respcache_pulls.go:54-66 | which answers prove that they come after the push |
| `MergeMarker.GateReads` | internal/api/respcache_pulls.go:320-329 | column by column, when a single PR is served from its row |
| `MergeMarker.SameShaAnswer` | internal/ghdata/respcache_pulls.go:269-341 | an answer re-offering the marked sha is accepted whole exactly on expiry, tip proof, or a conflict 30 s after the push; else stored unresolved, marker kept |
| `MergeMarker.NewShaAccepted` | internal/ghdata/respcache_pulls.go:280-285 | any other sha is accepted and clears the marker |
| `MergeMarker.ExpiredMarkerNeverWedges` | internal/ghdata/respcache_pulls.go:20-37 | an hour after the push the next resolved answer opens the hit gate |
| `MergeMarker.StaleAnswersNeverResolve` | internal/ghdata/respcache_pulls.go:293-341 | for an hour after a push no run of answers that predate it makes the gate pass |
| `MergeMarker.NullTipLeavesMarkedSha` | internal/database/queries/ghdata.sql:125-162 | the marked sha is left beside its marker exactly on an undecided answer, and which missing columns make the proof undecided |
| `CheckRollup.RollupState` | internal/ghdata/checks.go:135-157 | the flag loop depends only on the set of states: failure, then pending, then success, else none |
| `CheckRollup.RollupReads` | internal/ghdata/checks.go:133-157 | the verdict in terms of the state names |
| `CheckRollup.StatusMoves` | internal/ghdata/checks.go:40-49 | a status moves the rows whose head is its commit, and their CI status alone |
| `CheckRollup.UpsertLeaves` | internal/ghdata/store_prs.go:42-66 | a refused view changes nothing; a head without a verdict leaves the status to the upsert |
| `CheckRollup.ForceSticks` | internal/ghdata/checks.go:86-109 | forcing a verdict forgets the commit's recorded checks, and an empty commit forces nothing |
| `CheckRollup.RunMaintains` | internal/ghdata/checks.go:17-109 | over every interleaving of the four writers every row whose head has a verdict carries exactly it |
| `CheckRollup.OpMaintains` | internal/ghdata/store_prs.go:34-71 | each writer alone keeps the view |
| `CheckRollup.StatusAndPRCommute` | internal/ghdata/store_prs.go:28-33 | a status and the PR whose head it is end in the same state in either order |
| `CheckRollup.PlainUpsertMaintainsIff` | internal/ghdata/store.go:381-392 | exactly when an upsert that does not re-derive the status keeps the view |
| `PullStore.Store.ApplyCommitStatus` | internal/ghdata/checks.go:21-63 | records the check, recomputes the rollup over the commit's checks, writes it to the rows and the default branch |
| `PullStore.Store.UpsertPRWithChecks` | internal/ghdata/store_prs.go:34-71 | the upsert and the re-derived status |
| `PullStore.Store.ForceCheckRollup` | internal/ghdata/checks.go:86-109 | forgets the commit's checks and writes the fetched verdict |
| `PullStore.Store.ListCommitCheckStates` | internal/database/queries/ghdata.sql:475-476 | the states of the commit's checks, as a set |
| `PullsList.ServeFromState` | internal/api/respcache_pulls.go:198-213 | serves exactly when the marker is fresh, every row is complete and the result is shorter than a page; what it serves is the first page of the filtered, ordered open set |
| `PullsList.HitIsGitHubsPage` | internal/api/respcache_pulls.go:206-211 | the served list is the only first page of the filtered open set |
| `PullsList.SortedOrders` | internal/api/respcache_pulls.go:115-136 | the sort puts the rows in the asked order and keeps exactly them |
| `PullsList.SortedReads` | internal/api/respcache_pulls.go:108-136 | the four orders in terms of creation, update and number |
| `PullsList.OrderedUnique` | internal/api/respcache_pulls.go:122-135 | with distinct numbers there is one arrangement in order |
| `PullsList.SortIgnoresStoredOrder` | internal/api/respcache_pulls.go:115-136 | the answer does not depend on the order the rows were read in |
| `PullsList.DescendingReversesAscending` | internal/api/respcache_pulls.go:122-135 | descending is ascending backwards |
| `PullsList.FilterCommutesWithSort` | internal/api/respcache_pulls.go:206 | filtering and sorting may be exchanged |
| `PullsList.FilterPullRows` | internal/api/respcache_pulls.go:141-170 | keeps, in order, the rows whose head branch, head owner and base match |
| `PullsList.HeadMatchesIff` | internal/api/respcache_pulls.go:148-159 | a head filter matches the branch exactly and the part before the slash up to letter case |
| `PullsList.OtherMatches` | internal/api/respcache_pulls.go:152-166 | a deleted fork matches no owner, and the base is compared as it is |
| `Watermarks.WatermarkIsMaximum` | internal/ghdata/watermarks.go:27-55 | after any deliveries in any order a subject's watermark is the newest second named, credited to the first that named it |
| `Watermarks.SupersededIffOlder` | internal/ghdata/watermarks.go:51-59 | a delivery is turned away exactly when an earlier one about its subject named a newer second (or both name the zero second), and is then late |
| `Watermarks.AppliedNeverGoesBack` | internal/ghdata/watermarks.go:46-60 | deliveries that write do so in the order of their seconds |
| `Watermarks.LastAppliedIsNewest` | internal/ghdata/watermarks.go:27-28 | what wrote last is the newest delivery, the last to arrive of those in one second |
| `Watermarks.ArrivalOrderIrrelevant` | internal/ghdata/watermarks.go:27-28 | any order and repetition of deliveries with distinct seconds ends with the same one applied and the same watermark |
| `Watermarks.InterleavedOlderAppliesIff` | internal/ghdata/watermarks.go:34-55 | a delivery older than one handled before its claim is let through exactly when all it could read before that was no newer than itself, and there was something to read |
| `Watermarks.UnracedIsAtomic` | internal/ghdata/watermarks.go:34-55 | with nothing handled between read and claim the verdict is the atomic one |
| `Watermarks.Store.ClaimEventOrder` | internal/ghdata/watermarks.go:29-63 | the verdict and the new marks |
| `Watermarks.UnorderedApplies` | internal/ghdata/watermarks.go:30-32 | a delivery without subject or time applies and leaves no trace; a subject's first delivery applies and sets its mark |
| `Watermarks.RetentionIsAWeek` | internal/ghdata/watermarks.go:12-13 | a winning claim takes exactly the other marks untouched for seven days |
| `Watermarks.LateIsTold` | internal/ghdata/watermarks.go:15-25 | the verdict on a late delivery names the mark, its setter and the lateness |
| `WorkflowJobs.JobsCache.ApplyWorkflowJob` | internal/ghdata/respcache_workflowjobs_apply.go:21-55 | all or nothing, rows visited in any order: every row about the job is rewritten, or no row of the run is left, or nothing was about it and nothing changed |
| `WorkflowJobs.JobsCache.SettleWorkflowJobs` | internal/sync/webhook_apply.go:89-104 | after the delivery no answer about the run shows another version of the job; other jobs' rows stay only if something was rewritten |
| `WorkflowJobs.PageRefinesFetch` | internal/ghdata/respcache_workflowjobs_apply.go:76-101 | the rewritten page is the page a fetch returns once upstream's list holds the job, or it is refused because the page does not list this attempt of it |
| `WorkflowJobs.RewrittenIff` | internal/ghdata/respcache_workflowjobs_apply.go:60-104 | exactly which documents are rewritten, and what they then hold |
| `WorkflowJobs.SubjectIff` | internal/ghdata/respcache_workflowjobs_apply.go:21-37 | which rows a delivery is about, and which deliveries are taken |
| `WorkflowJobs.OtherJobsRowStands` | internal/ghdata/respcache_workflowjobs_apply.go:34-37 | another job's own row stands as it was |
| `WorkflowJobs.MovementReads` | internal/ghdata/workflowjobs_doc.go:130-169 | a completed status settles, an in-progress one runs, any other waits, in any letter case |
| `WorkflowJobs.DeliveriesCommute` | internal/ghdata/respcache_workflowjobs_apply.go:60-104 | deliveries about different jobs give the same document, or the same drop, in either order |
| `WorkflowJobs.PatchWorkflowJobsDoc` | internal/ghdata/respcache_workflowjobs_apply.go:60-104 | rewrites a job document or a page of jobs in place, or refuses, and reports the liveness of the result |
| `WorkflowJobs.ReplaceEntries` | internal/ghdata/respcache_workflowjobs_apply.go:81-96 | the in-place loop replaces every entry with the id and refuses on another attempt or none |
| `WorkflowJobs.Moving` | internal/ghdata/workflowjobs_doc.go:46-59 | the liveness is the greatest movement among the jobs |
| `WorkflowJobs.LivenessOf` | internal/ghdata/workflowjobs_doc.go:46-59 | the loop with its early return computes that maximum |
| `WorkflowJobs.MovingIgnoresOrder` | internal/ghdata/workflowjobs_doc.go:46-59 | order and repetition of the jobs do not matter |
| `WorkflowJobs.LivePagesExpireSoon` | internal/ghdata/workflowjobs_doc.go:9-44 | a rewritten page is served at most ten seconds with a job in progress, a minute with one not completed, and a day exactly when all have completed |
| `Grants.GrantedIffProofStands` | internal/ghdata/store.go:289-298 | over every run: access is live exactly while the last proof is under a day old and was neither revoked nor, if a listing gave it, omitted by a later listing |
| `Grants.ProbeSurvivesOmissionIff` | internal/database/queries/ghdata.sql:514-518 | a probe's grant survives an omitting listing exactly when no listing in between included the repo |
| `Grants.DenialIsLastWord` | internal/ghdata/store.go:259-285 | no stored denial is older than a proof that contradicts it |
| `Grants.DeniedIffLastWord` | internal/ghdata/store.go:319-343 | a denial is served exactly when it is under five minutes old, the last for its resource, and no later proof or listing clears it |
| `Grants.Store.SyncGrants` | internal/ghdata/store.go:216-241 | the replace-sync: the principal's listing grants for the owner become exactly the listed repos, others stay |
| `Grants.SyncReads` | internal/ghdata/store.go:216-241 | what a listing leaves a principal, grant by grant |
| `Grants.RecordReads` | internal/ghdata/store.go:262-286 | what a proof grants and which denials it clears |
| `Grants.PruneReads` | internal/ghdata/store.go:349-354 | a prune takes exactly what has expired, which no later reader can tell |
| `Grants.Store.RecordGrant` | internal/ghdata/store.go:262-286 | renews the grant and clears the principal's denials for the repo |
| `Grants.Store.HasGrant` | internal/ghdata/store.go:289-298 | live exactly before the expiry |
| `Grants.Store.MaybePrune` | internal/ghdata/store.go:362-373 | prunes at most once per interval, and only what has expired |
| `Freshness.AtMostOneFetchPerWindow` | internal/freshness/manager.go:84-125 | while nothing expires, is invalidated or forced, any number of lazy callers, however interleaved, make at most one fetch; the fetching caller reports Miss or Error and all others what the row then says, Hit or the backoff |
| `Freshness.OneFetchAtATime` | internal/freshness/manager.go:195-198 | at most one upstream call per resource at a time, in every interleaving |
| `Freshness.OutcomesAreHonest` | internal/freshness/manager.go:66-73 | Hit made no upstream call, Miss exactly one that succeeded, Error at most one and none that succeeded |
| `Freshness.InflightCountsBodies` | internal/freshness/manager.go:184-190 | the in-flight counter is the number of running doFetch bodies |
| `Freshness.SomeoneCanMove` | internal/freshness/manager.go:195-198 | while a caller is unfinished, it or the one whose lock it waits for can move |
| `Freshness.MovesLowerWork` | internal/freshness/manager.go:177-271 | every move lowers the work left over all callers, so without arrivals every caller finishes |
| `Freshness.SettledAnswersLazily` | internal/freshness/manager.go:203-213 | over a settled row a lazy caller answers Hit or the backoff without a call |
| `Freshness.HowLongSettled` | internal/freshness/manager.go:245-265 | how long a success and a failure hold lazy callers off: the policy's times, six hours and a minute unless set |
| `Freshness.StepKeepsInv` | internal/freshness/manager.go:177-271 | every step of every caller keeps lock, outcome and counter consistent |
| `Freshness.SoloIsDoFetch` | internal/freshness/manager.go:177-271 | the step system, run without interruption, does what the method's contract says |
| `Freshness.InvalidationKeptIff` | internal/freshness/manager.go:127-140 | from any reachable state, over all continuations: no new caller is told Hit before a call begun since has succeeded, exactly when no call was under way as the invalidation landed |
| `Freshness.HeldUntilRenewed` | internal/freshness/manager.go:127-140 | after an invalidation with no call under way the row stays unfresh until a call begun since succeeds |
| `Freshness.CallUnderWayLosesInvalidation` | internal/freshness/manager.go:243-270 | with a call under way there is a run on which a new caller is told Hit without one |
| `Freshness.InvalidationDuringCallIsErased` | internal/freshness/manager.go:243-270 | when the call under way returns, the row is as if there had been no invalidation, on success and on failure |
| `Freshness.Manager.DoFetch` | internal/freshness/manager.go:177-271 | outcome, row and call for every combination of policy, trigger, row and upstream answer |
| `Freshness.Manager.EnsureFreshOutcome` | internal/freshness/manager.go:84-105 | Hit and Miss tell whether a call was made; a settled row is never fetched |
| `Debounce.SharedAnswerIsFreshAndOwn` | internal/api/debounce.go:112-143 | a shared answer is for the caller's own key and from a call begun after the caller joined |
| `Debounce.OneOpenBatchPerKey` | internal/api/debounce.go:148-168 | at most one open batch per key and 1024 in all, in every run |
| `Debounce.JoinDecides` | internal/api/debounce.go:148-168 | over every run: who joins waits on its key's open batch, which counts it, or opens one; it goes upstream on its own exactly when stopped, or when 1024 batches are open and none is its key's |
| `Debounce.SavedCallsAddUp` | internal/api/debounce.go:236-241 | saved calls plus shared batches are the joins of the shared batches |
| `Debounce.BatchSizeCountsJoins` | internal/api/debounce.go:185-191 | the batch size a caller is told is the number of callers that joined |
| `Debounce.DrainedStaysDrained` | internal/api/debounce.go:206-229 | once draining with nothing in flight, every batch is done and none ever starts again |
| `Debounce.BatchesProgress` | internal/api/debounce.go:172-204 | until a batch is done its next step is enabled and takes it one phase on |
| `Debounce.WaitersAreAnswered` | internal/api/debounce.go:129-143 | whoever waits is answered once its batch is done |
| `Debounce.StepKeepsInv` | internal/api/debounce.go:112-229 | every step keeps map, phases, counters and waiters consistent |
| `Debounce.Debouncer.Join` | internal/api/debounce.go:148-168 | refuses when stopped or full, else joins or opens the key's batch |
| `Debounce.Debouncer.CloseWindow` | internal/api/debounce.go:185-191 | removes the batch from the map if it is still the key's, and fixes its size |
| `Debounce.Debouncer.Publish` | internal/api/debounce.go:197-204 | shares the answer unless it overflowed, and counts what was saved |
| `DebounceKey.DecodeEncode` | internal/api/debounce.go:261-273 | a decoder recovers the parts of any concatenation, whatever they hold |
| `DebounceKey.EncodeInjective` | internal/api/debounce.go:261-273 | no concatenation imitates another |
| `DebounceKey.SameTextSameRequest` | internal/api/debounce.go:262-268 | equal pre-images mean equal method, URI, credential, Accept and version |
| `DebounceKey.KeyText` | internal/api/debounce.go:245-274 | which requests are eligible, and the text that is hashed |
| `DebounceKey.BufferingWriter.Write` | internal/api/debounce.go:314-325 | the buffer is everything written until it would exceed the limit, then nothing |
| `Timeline.ExactlyOnce` | internal/reqtimeline/reqtimeline.go:302-323 | over every interleaving of records and polls a client is given each event once, in order, except those an eviction took before it asked; every event is given, lost to an eviction, or still live behind the cursor |
| `Timeline.EvictionIsExact` | internal/reqtimeline/reqtimeline.go:224-235 | below the cap no unexpired event goes, and none stays that expired by more than the slack in the order of ends |
| `Timeline.EndsDecide` | internal/reqtimeline/reqtimeline.go:88-90 | the end of an event, its start plus whole milliseconds, decides what is dropped and what a range holds |
| `Timeline.CapKeepsNewest` | internal/reqtimeline/reqtimeline.go:233-235 | over the cap the newest stay |
| `Timeline.EvictionExactIff` | internal/reqtimeline/reqtimeline.go:228-235 | below the cap exactly the expired events go precisely when none of them sits behind an unexpired one |
| `Timeline.EvictedIsSuffix` | internal/reqtimeline/reqtimeline.go:228-235 | what stays is a suffix, at most the cap |
| `Timeline.Recorder.Record` | internal/reqtimeline/reqtimeline.go:215-222 | appends under the next id and evicts; copies never exceed records, and the backing stays within its bound |
| `Timeline.Recorder.Evict` | internal/reqtimeline/reqtimeline.go:228-247 | live events are the evicted sequence whether or not compaction ran, and the backing is bounded |
| `Timeline.Recorder.Compact` | internal/reqtimeline/reqtimeline.go:236-246 | compaction changes no live event and copies less than it frees |
| `Timeline.Recorder.Snapshot` | internal/reqtimeline/reqtimeline.go:304-323 | exactly the live events behind the cursor |
| `Timeline.Recorder.SnapshotRange` | internal/reqtimeline/reqtimeline.go:270-300 | exactly the overlapping live events when they are in end order; with a slack in that order, off by at most the slack at the lower bound |
| `Timeline.RangesExactIff` | internal/reqtimeline/reqtimeline.go:285-294 | every range read is exact precisely for a ring in end order |
| `Timeline.CrossedPairMisread` | internal/reqtimeline/reqtimeline.go:285-294 | two events out of end order: every read from the end of the first on drops it or keeps the second |
| `Timeline.CrossedRingMisread` | internal/reqtimeline/reqtimeline.go:285-294 | a ring of two events that is read wrongly |
| `Timeline.SearchEnd` | internal/reqtimeline/reqtimeline.go:286 | on live events in any order the search ends where the test turns |
| `Timeline.SearchID` | internal/reqtimeline/reqtimeline.go:314 | the binary search splits the live events at the cursor |
| `Fingerprint.ScrubSQL` | internal/database/fingerprint.go:23-63 | the scanning loop prints the token stream of its input, and ends on every input |
| `Fingerprint.ParseOfScrubbed` | internal/database/fingerprint.go:19-63 | the scrubbed text parses to the token stream of the original |
| `Fingerprint.Rescan` | internal/database/fingerprint.go:23-107 | the scanner over printed tokens gives those tokens back, from any scanner state |
| `Fingerprint.ScrubIdempotent` | internal/database/fingerprint.go:19-63 | scrubbing twice is scrubbing once |
| `Fingerprint.ScrubEqualIffSameTokens` | internal/database/fingerprint.go:19-22 | two schemas scrub alike exactly when their token streams agree |
| `Fingerprint.GapsInterchange` | internal/database/fingerprint.go:28-44 | any run of comments and whitespace may replace any other |
| `Fingerprint.BlankIsOneSpace` | internal/database/fingerprint.go:27-44 | a whitespace character, a line comment before its newline, and a block comment each count as one space |
| `Fingerprint.WhitespaceIsGap` | internal/database/fingerprint.go:42-44 | space, tab, newline and carriage return are gaps |
| `Fingerprint.LineCommentIsGap` | internal/database/fingerprint.go:28-32 | a line comment is a gap up to its newline or the end |
| `Fingerprint.BlockCommentIsGap` | internal/database/fingerprint.go:34-40 | a block comment is a gap up to its first closer, or to the end without one |
| `Fingerprint.PlainIsKept` | internal/database/fingerprint.go:56-59 | text without whitespace, quotes, brackets and comments scrubs to itself |
| `Fingerprint.SpaceIsKeptIff` | internal/database/fingerprint.go:77-91 | a space between two such texts stays unless one of the four delimiters stands beside it |
| `Fingerprint.QuotedIsOneToken` | internal/database/fingerprint.go:46-54 | a quoted run with any contents, closers doubled, is one token |
| `Fingerprint.GapBesideDelimiter` | internal/database/fingerprint.go:77-91 | a gap beside a self-delimiting character, or at either end, may be dropped |
| `Fingerprint.QuotedRunSurvives` | internal/database/fingerprint.go:46-54 | a quoted run reaches the output byte for byte, doubled closers included |
| `Fingerprint.EndOfQuoted` | internal/database/fingerprint.go:95-107 | the loop finds the closer that is not doubled, or the end of the input |
| `Fingerprint.NextLexeme` | internal/database/fingerprint.go:27-59 | the switch recognises the next lexeme and always advances |
| `Rfc3339.KeyIsChronological` | internal/ghdata/respcache.go:20-23 | text order of two keys is the order of their whole seconds; equal text is the same second |
| `Rfc3339.KeyShape` | internal/ghdata/respcache.go:20-23 | the twenty characters of a key |
| `Rfc3339.NextYear` | internal/ghdata/respcache.go:20-23 | the length of every year |
| `Rfc3339.DaysOfMonths` | internal/ghdata/respcache.go:20-23 | the days before every month |
| `Rfc3339.DeadlineWithinASecond` | internal/ghdata/store.go:289-298 | a deadline kept as a key is never live at or after it and loses less than a second |
| `Rfc3339.TouchedAfterCutoffStays` | internal/ghdata/respcache_pulls.go:230-240 | a row touched at or after the cutoff is never reconciled away |

## Left out

- SQL errors and rolled-back transactions: a method here is a call whose statements succeed.
- Timeline.Recorder.Compact: the copy inside one backing array is a sequence assignment; the element moves are counted, aliasing of returned slices is not modelled.
- Debounce.Debouncer.Join, Debounce.Debouncer.CloseWindow: batches are named by position instead of by pointer; timers and contexts are nondeterministic steps, and response headers are not modelled.
- Freshness.Manager.DoFetch: the refresh log, etags, the five-minute fetch timeout and store errors are not modelled; a policy is read once per call.
- Watermarks.WatermarkIsMaximum: stated for deliveries handled within the seven-day retention; after it a subject's watermark is pruned by design.
- OpenSet.DrainedIsExact: a PR that reopens does so in a later second than its close (other changes may share a second), an open view of the second in which the PR then closed is delivered within the day the closure is kept, and watermarks are not pruned; ReopenRefusedIff, TiedOpenIsRefused and StaleCloseLosesReopen show what breaks otherwise.
- WorkflowJobs.JobsCache.ApplyWorkflowJob, CommitCiTable.CommitCiCache.Land: the LRU cap of one million rows is not modelled, expiry pruning is.
- Rfc3339.KeyIsChronological: years 0000 to 9999 in UTC, the range the fixed-width format covers.
- PullsList.FilterPullRows, WorkflowJobs.LivenessOf: `EqualFold` on ASCII (with U+017F for the job statuses), not on all of Unicode.
- DebounceKey.SameTextSameRequest: SHA-256 itself is not modelled; the token fingerprint is any injective function.
- PR labels, auto-merge, and the rest of the fields the modelled decisions never read.
- SyncOrgTruth's upserts of the repo rows themselves; its PR reconcile and its grants are modelled.
- The reorder window, the webhook dispatcher and signature checks: deliveries are an environment here.
- The other response caches, which share one expiry-and-LRU pattern, and the repo-wide workflow-runs listing, whose reconcile has no grace window.
- HTTP handlers, routing, the proxy, OAuth, JSON coding, hashing, the dashboard, notifiers, configuration: plumbing around the logic modelled here.
