// One pull_requests row and the SQL that writes it (internal/database/queries/ghdata.sql), with SQL's three-valued
// comparison spelled out. A nullable column is an Option; rows of this module are open PRs of one repo. Clock
// readings are nanoseconds; stored timestamps are the whole seconds rfc3339 keeps (section 5.6 of RFC 3339).
module PullRows {
  import opened Options

  const NS := 1_000_000_000
  /** MergeStaleTTL and the strftime '-1 hour' of the upsert. */
  const MergeStaleTTL := 3600
  /** MergeStaleConflictingWindow and the strftime '-30 seconds' of the upsert. */
  const ConflictingWindow := 30
  /** PRRowTTL. */
  const RowTTL := 24 * 3600
  /** PRClosureRetention. */
  const ClosureRetention := 24 * 3600
  /** reconcileGrace. */
  const Grace := 120

  function Sec(now: int): int { now / NS }

  datatype Row = Row(number: nat, created: int, updated: Option<int>, touched: int,
                     additions: Option<int>, deletions: Option<int>,
                     mergeable: Option<string>, mergeableState: Option<string>, mergeSha: Option<string>,
                     headRef: Option<string>, headOid: Option<string>, headRepo: Option<string>,
                     baseRef: Option<string>, baseOid: Option<string>,
                     nodeID: Option<string>, author: Option<string>, lastStatus: Option<string>,
                     staleSha: Option<string>, staleAt: Option<int>,
                     staleRef: Option<string>, staleAfter: Option<string>)

  // ---- Three-valued logic ----

  datatype Tri = Yes | No | Unknown

  function Known(b: bool): Tri { if b then Yes else No }

  function Eq(a: Option<string>, b: Option<string>): Tri {
    if a.None? || b.None? then Unknown else Known(a.value == b.value)
  }

  function And(a: Tri, b: Tri): Tri {
    if a == No || b == No then No else if a == Unknown || b == Unknown then Unknown else Yes
  }

  function Or(a: Tri, b: Tri): Tri { Not(And(Not(a), Not(b))) }

  function Not(a: Tri): Tri {
    match a case Yes => No case No => Yes case Unknown => Unknown
  }

  function Coalesce<T>(a: Option<T>, b: Option<T>): Option<T> { if a.Some? then a else b }

  // ---- UpsertPullRequest ----

  /** The push-tip proof: the answer reports the marking push's tip for the branch it moved. */
  function Proof(prior: Row, pr: Row): Tri {
    And(Known(prior.staleAfter.Some?),
        And(Not(Eq(prior.staleAfter, Some(""))),
            Or(And(Eq(prior.staleRef, pr.baseRef), Eq(prior.staleAfter, pr.baseOid)),
               And(Eq(prior.staleRef, pr.headRef), Eq(prior.staleAfter, pr.headOid)))))
  }

  /** The stale guard: the answer re-offers the sha a live marker names, without an exemption. */
  function Guard(prior: Row, pr: Row, touched: int): Tri {
    And(Eq(pr.mergeSha, prior.staleSha),
        And(if prior.staleAt.None? then No else Known(prior.staleAt.value > touched - MergeStaleTTL),
            And(Not(Proof(prior, pr)),
                Not(And(Known(pr.mergeable == Some("CONFLICTING")),
                        if prior.staleAt.None? then Unknown
                        else Known(prior.staleAt.value <= touched - ConflictingWindow))))))
  }

  /** The row after the upsert of one source's view. */
  function Upserted(prior: Option<Row>, pr: Row, touched: int): Row {
    if prior.None? then
      pr.(touched := touched, staleSha := None, staleAt := None, staleRef := None, staleAfter := None)
    else
      var o := prior.value;
      var rest := pr.nodeID.Some?;
      var g := Guard(o, pr, touched);
      var rejected := rest && pr.mergeSha.Some? && g == Yes;
      var clears := rest && pr.mergeSha.Some? && Not(g) == Yes;
      var keeps := !rest && o.nodeID.Some? && (o.mergeSha.None? || Eq(o.mergeSha, o.staleSha) == Yes);
      Row(o.number, pr.created, pr.updated, touched,
          Coalesce(pr.additions, o.additions), Coalesce(pr.deletions, o.deletions),
          if rejected then None else if keeps then o.mergeable else Coalesce(pr.mergeable, o.mergeable),
          if rejected then None else if keeps then o.mergeableState else Coalesce(pr.mergeableState, o.mergeableState),
          if !rest then o.mergeSha else if rejected then None else pr.mergeSha,
          pr.headRef, pr.headOid, Coalesce(pr.headRepo, o.headRepo),
          pr.baseRef, Coalesce(pr.baseOid, o.baseOid),
          Coalesce(pr.nodeID, o.nodeID), Coalesce(pr.author, o.author), Coalesce(pr.lastStatus, o.lastStatus),
          if clears then None else o.staleSha, if clears then None else o.staleAt,
          if clears then None else o.staleRef, if clears then None else o.staleAfter)
  }

  // ---- The un-resolving updates ----

  /** NullPRMergeableByBranch and NullPRMergeableForPR: forget the verdict, remember the sha it came with. */
  function Unresolved(row: Row, at: int, ref: Option<string>, after: Option<string>): Row {
    var sha := Coalesce(row.mergeSha, row.staleSha);
    row.(staleSha := sha,
         staleAt := if sha.Some? then Some(at) else None,
         staleRef := if sha.Some? then ref else None,
         staleAfter := if sha.Some? then after else None,
         mergeable := None, mergeableState := None, mergeSha := None)
  }

  /** NullPRMergeableByRepo leaves no marker. */
  function Forgotten(row: Row): Row {
    row.(mergeable := None, mergeableState := None, mergeSha := None)
  }

  const ZeroSha := "0000000000000000000000000000000000000000"

  /** NullPRMergeableByBranch on one row. */
  function Pushed(row: Row, branch: string, after: string, now: int): Row {
    if branch == "" || !(row.baseRef == Some(branch) || row.headRef == Some(branch)) then row
    else if after != "" && after != ZeroSha then Unresolved(row, Sec(now), Some(branch), Some(after))
    else Unresolved(row, Sec(now), None, None)
  }

  predicate NonEmpty(s: Option<string>) { s.Some? && s.value != "" }

  predicate HeadMoved(row: Row, pr: Row) {
    NonEmpty(pr.headOid) && NonEmpty(row.headOid) && pr.headOid != row.headOid
  }

  predicate Retargeted(row: Row, pr: Row) {
    NonEmpty(pr.baseRef) && NonEmpty(row.baseRef) && pr.baseRef != row.baseRef
  }

  /** NullPRMergeableOnTipMove: the incoming webhook reports a moved head, or another base branch. */
  function TipMoved(row: Row, pr: Row, now: int): Row {
    var head, base := HeadMoved(row, pr), Retargeted(row, pr);
    var ref, after := if head then pr.headRef else pr.baseRef, if head then pr.headOid else pr.baseOid;
    if !head && !base then row
    else if NonEmpty(ref) && NonEmpty(after) then Unresolved(row, Sec(now), ref, after)
    else Unresolved(row, Sec(now), None, None)
  }

  // ---- The predicates of internal/ghdata/respcache_pulls.go ----

  predicate MarkerLive(row: Row, now: int) {
    NonEmpty(row.staleSha) && row.staleAt.Some? && now - row.staleAt.value * NS < MergeStaleTTL * NS
  }

  predicate StaleShaOffered(row: Row, offered: Option<string>, now: int) {
    MarkerLive(row, now) && NonEmpty(offered) && offered == row.staleSha
  }

  /** PRMergeShaStale. */
  predicate MergeShaStale(row: Row, now: int) {
    StaleShaOffered(row, row.mergeSha, now)
  }

  predicate ProvenPostPush(row: Row, pr: Row) {
    NonEmpty(row.staleRef) && NonEmpty(row.staleAfter)
    && ((pr.baseRef == row.staleRef && pr.baseOid == row.staleAfter)
        || (pr.headRef == row.staleRef && pr.headOid == row.staleAfter))
  }

  predicate ConflictingPastLag(row: Row, pr: Row, now: int) {
    pr.mergeable == Some("CONFLICTING") && row.staleAt.Some? && now - row.staleAt.value * NS >= ConflictingWindow * NS
  }

  /** AbsorbSinglePull's verdict on the answer, before it is written. */
  predicate StaleRejected(prior: Option<Row>, pr: Row, now: int) {
    prior.Some? && StaleShaOffered(prior.value, pr.mergeSha, now)
    && !ProvenPostPush(prior.value, pr) && !ConflictingPastLag(prior.value, pr, now)
  }

  /** AbsorbSinglePull on a PR no closure blocks: the upsert, then the authoritative force-set. */
  function Absorbed(prior: Option<Row>, pr: Row, now: int): Row {
    var row := Upserted(prior, pr, Sec(now));
    if StaleRejected(prior, pr, now) then row.(mergeable := None, mergeableState := None)
    else row.(mergeable := pr.mergeable, mergeableState := pr.mergeableState)
  }

  predicate RestComplete(row: Row) {
    NonEmpty(row.nodeID) && NonEmpty(row.baseOid) && NonEmpty(row.author)
  }

  predicate RowFresh(row: Row, now: int) {
    now - row.touched * NS < RowTTL * NS
  }

  // ---- The hit gate of internal/api/respcache_pulls.go ----

  predicate MergeableKnown(row: Row) {
    (row.mergeable == Some("MERGEABLE") || row.mergeable == Some("CONFLICTING"))
    && NonEmpty(row.mergeableState) && row.mergeableState != Some("unknown")
  }

  predicate DiffStatsKnown(row: Row) { row.additions.Some? && row.deletions.Some? }

  predicate HitGate(row: Row, now: int) {
    RestComplete(row) && MergeableKnown(row) && DiffStatsKnown(row) && !MergeShaStale(row, now) && RowFresh(row, now)
  }
}
