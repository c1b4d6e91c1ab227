// The push-invalidated test-merge sha: internal/ghdata/respcache_pulls.go:28-82 and 293-341, store_prs.go:106-172
// and the stale guard of UpsertPullRequest. What the marker keeps over every run of writers of one PR row.
module MergeMarker {
  import opened Options
  import opened PullRows

  /** Everything that writes the merge fields of an open row. */
  datatype Write =
    | Upsert(pr: Row, now: int)                        // webhook, list absorb or org sync
    | AbsorbSingle(pr: Row, now: int)                  // a fetched single PR
    | Push(branch: string, after: string, now: int)
    | TipMove(pr: Row, now: int)
    | RepoReset                                        // NullPRMergeableByRepo
    | ChecksMoved                                      // NullPRMergeableStateByHeadSHA

  function Apply(row: Row, w: Write): Row {
    match w
    case Upsert(pr, now) => Upserted(Some(row), pr, Sec(now))
    case AbsorbSingle(pr, now) => Absorbed(Some(row), pr, now)
    case Push(branch, after, now) => Pushed(row, branch, after, now)
    case TipMove(pr, now) => TipMoved(row, pr, now)
    case RepoReset => Forgotten(row)
    case ChecksMoved => row.(mergeableState := None)
  }

  function Run(row: Row, ws: seq<Write>): Row
    decreases |ws|
  {
    if ws == [] then row else Run(Apply(row, ws[0]), ws[1..])
  }

  /** A marker only ever stands beside an empty test-merge sha, and its four columns are set together. */
  ghost predicate Sound(row: Row) {
    && (row.staleSha.Some? ==> row.mergeSha.None? && row.staleAt.Some?)
    && (row.staleSha.None? ==> row.staleAt.None? && row.staleRef.None? && row.staleAfter.None?)
    && (row.staleAfter.Some? <==> row.staleRef.Some?)
    && (row.staleAfter.Some? ==> NonEmpty(row.staleAfter) && NonEmpty(row.staleRef))
  }

  /** REST and webhook sources name both branches and both tips. */
  ghost predicate Tipped(pr: Row) {
    pr.nodeID.Some? ==> pr.baseRef.Some? && pr.baseOid.Some? && pr.headRef.Some? && pr.headOid.Some?
  }

  ghost predicate TippedWrite(w: Write) {
    w.Upsert? || w.AbsorbSingle? ==> Tipped(w.pr)
  }

  /** With tips named, the proof is a definite answer, and the one the Go predicate gives. */
  lemma ProofAgrees(row: Row, pr: Row)
    requires Sound(row) && Tipped(pr) && pr.nodeID.Some?
    ensures Proof(row, pr) == Known(ProvenPostPush(row, pr))
  {
  }

  /** The windows of the SQL, over whole seconds, are the windows of the Go code, over nanoseconds. */
  lemma WindowsAgree(at: int, now: int, w: int)
    ensures at > Sec(now) - w <==> now - at * NS < w * NS
    ensures at <= Sec(now) - w <==> now - at * NS >= w * NS
  {
    assert Sec(now) * NS <= now < (Sec(now) + 1) * NS;
  }

  /** Go's presumption and SQL's guard reject the same answers. */
  lemma GuardAgrees(row: Row, pr: Row, now: int)
    requires Sound(row) && Tipped(pr) && pr.nodeID.Some? && NonEmpty(pr.mergeSha)
    ensures Guard(row, pr, Sec(now)) == Yes <==> StaleRejected(Some(row), pr, now)
    ensures row.staleSha.Some? ==> Guard(row, pr, Sec(now)) != Unknown
  {
    ProofAgrees(row, pr);
    if row.staleAt.Some? {
      WindowsAgree(row.staleAt.value, now, MergeStaleTTL);
      WindowsAgree(row.staleAt.value, now, ConflictingWindow);
    }
  }

  lemma UpsertKeepsSound(row: Row, pr: Row, touched: int)
    requires Sound(row) && Tipped(pr)
    ensures Sound(Upserted(Some(row), pr, touched))
  {
    if pr.nodeID.Some? {
      ProofAgrees(row, pr);
    }
  }

  lemma WriteKeepsSound(row: Row, w: Write)
    requires Sound(row) && TippedWrite(w)
    ensures Sound(Apply(row, w))
  {
    match w
    case Upsert(pr, now) => UpsertKeepsSound(row, pr, Sec(now));
    case AbsorbSingle(pr, now) => UpsertKeepsSound(row, pr, Sec(now));
    case _ =>
  }

  /** When a single PR is served from its row: every column a response needs is known, the row was touched in the last
      day, and the sha is not the one a push named within the last hour. */
  lemma GateReads(row: Row, now: int)
    ensures HitGate(row, now) <==>
            && row.nodeID.Some? && row.nodeID.value != "" && row.baseOid.Some? && row.baseOid.value != ""
            && row.author.Some? && row.author.value != "" && row.additions.Some? && row.deletions.Some?
            && (row.mergeable == Some("MERGEABLE") || row.mergeable == Some("CONFLICTING"))
            && row.mergeableState.Some? && row.mergeableState.value != "" && row.mergeableState.value != "unknown"
            && now - row.touched * 1_000_000_000 < 86_400 * 1_000_000_000
            && !(row.staleSha.Some? && row.staleSha.value != "" && row.mergeSha == row.staleSha && row.staleAt.Some?
                 && now - row.staleAt.value * 1_000_000_000 < 3600 * 1_000_000_000)
  {
  }

  /** What proves an answer to come after the push: it states the pushed branch, as its base or its head, at the push's
      own tip; a push that named no tip is never proved. */
  lemma ProofReads(row: Row, pr: Row)
    ensures ProvenPostPush(row, pr) <==>
            && row.staleRef !in {None, Some("")} && row.staleAfter !in {None, Some("")}
            && ((pr.baseRef == row.staleRef && pr.baseOid == row.staleAfter)
                || (pr.headRef == row.staleRef && pr.headOid == row.staleAfter))
  {
  }

  /** What an upsert makes of the columns no marker touches: some are the view's, and those a view may not know stand
      until one does. */
  lemma UpsertReads(o: Row, pr: Row, touched: int)
    ensures var u := Upserted(Some(o), pr, touched);
            && u.number == o.number && u.created == pr.created && u.updated == pr.updated && u.touched == touched
            && u.headRef == pr.headRef && u.headOid == pr.headOid && u.baseRef == pr.baseRef
            && u.additions == (if pr.additions.Some? then pr.additions else o.additions)
            && u.deletions == (if pr.deletions.Some? then pr.deletions else o.deletions)
            && u.headRepo == (if pr.headRepo.Some? then pr.headRepo else o.headRepo)
            && u.baseOid == (if pr.baseOid.Some? then pr.baseOid else o.baseOid)
            && u.nodeID == (if pr.nodeID.Some? then pr.nodeID else o.nodeID)
            && u.author == (if pr.author.Some? then pr.author else o.author)
            && u.lastStatus == (if pr.lastStatus.Some? then pr.lastStatus else o.lastStatus)
    ensures Upserted(None, pr, touched)
         == pr.(touched := touched, staleSha := None, staleAt := None, staleRef := None, staleAfter := None)
  {
  }

  /** And of the merge columns, on a view that names no test-merge sha. A REST or webhook view empties the sha, leaves
      the marker, and states the verdict or lets it stand. A GraphQL view leaves sha and marker, and states a verdict
      only on a row that no REST view has left unresolved. */
  lemma UpsertWithoutSha(o: Row, pr: Row, touched: int)
    requires pr.mergeSha.None?
    ensures var u := Upserted(Some(o), pr, touched);
            var open := pr.nodeID.Some? || o.nodeID.None? || (o.mergeSha.Some? && o.mergeSha != o.staleSha);
            && u.staleSha == o.staleSha && u.staleAt == o.staleAt
            && u.staleRef == o.staleRef && u.staleAfter == o.staleAfter
            && u.mergeSha == (if pr.nodeID.Some? then None else o.mergeSha)
            && u.mergeable == (if open && pr.mergeable.Some? then pr.mergeable else o.mergeable)
            && u.mergeableState == (if open && pr.mergeableState.Some? then pr.mergeableState else o.mergeableState)
  {
  }

  /** And on a REST or webhook view that names one, over a row without a marker: it is taken as it stands. */
  lemma UpsertWithSha(o: Row, pr: Row, touched: int)
    requires pr.nodeID.Some? && pr.mergeSha.Some? && Sound(o) && o.staleSha.None?
    ensures var u := Upserted(Some(o), pr, touched);
            && u.mergeSha == pr.mergeSha
            && u.mergeable == (if pr.mergeable.Some? then pr.mergeable else o.mergeable)
            && u.mergeableState == (if pr.mergeableState.Some? then pr.mergeableState else o.mergeableState)
  {
  }

  /** What a push does to a row on its branch: the verdict goes, the sha it came with is remembered with the time, and
      with the branch and its new tip if the push names one. Rows on other branches are left alone. */
  lemma PushForgets(row: Row, branch: string, after: string, now: int)
    requires Sound(row)
    ensures var p := Pushed(row, branch, after, now);
            var on := branch != "" && (row.baseRef == Some(branch) || row.headRef == Some(branch));
            var tip := after != "" && after != "0000000000000000000000000000000000000000";
            && (!on ==> p == row)
            && (on ==> Unanswered(row, p, now)
                       && (p.staleSha.Some? ==> p.staleRef == (if tip then Some(branch) else None)
                                                && p.staleAfter == (if tip then Some(after) else None)))
  {
  }

  /** Merge verdict and sha gone; the sha remembered, or the one remembered before it; all else as it was. */
  ghost predicate Unanswered(row: Row, p: Row, now: int) {
    && p.mergeable.None? && p.mergeableState.None? && p.mergeSha.None?
    && p.staleSha == (if row.mergeSha.Some? then row.mergeSha else row.staleSha)
    && (p.staleSha.Some? ==> p.staleAt == Some(now / 1_000_000_000))
    && (p.staleSha.None? ==> p.staleAt.None? && p.staleRef.None? && p.staleAfter.None?)
    && p == row.(mergeable := None, mergeableState := None, mergeSha := None,
                 staleSha := p.staleSha, staleAt := p.staleAt, staleRef := p.staleRef, staleAfter := p.staleAfter)
  }

  /** What a webhook view with a moved head, or another base branch, does to the row: the same, with the branch and tip
      that moved when both are named, the head's first. Any other view changes nothing. */
  lemma TipMoveForgets(row: Row, pr: Row, now: int)
    ensures var t := TipMoved(row, pr, now);
            var head := pr.headOid.Some? && row.headOid.Some? && pr.headOid.value != "" && row.headOid.value != ""
                        && pr.headOid.value != row.headOid.value;
            var base := pr.baseRef.Some? && row.baseRef.Some? && pr.baseRef.value != "" && row.baseRef.value != ""
                        && pr.baseRef.value != row.baseRef.value;
            && (!head && !base ==> t == row)
            && (head || base ==> Unanswered(row, t, now))
            && (head && t.staleSha.Some? ==>
                  var named := pr.headRef.Some? && pr.headRef.value != "";
                  && t.staleRef == (if named then pr.headRef else None)
                  && t.staleAfter == (if named then pr.headOid else None))
            && (!head && base && t.staleSha.Some? ==>
                  var named := pr.baseOid.Some? && pr.baseOid.value != "";
                  && t.staleRef == (if named then pr.baseRef else None)
                  && t.staleAfter == (if named then pr.baseOid else None))
  {
  }

  /** A first sight of a PR carries no marker. */
  lemma InsertIsSound(pr: Row, touched: int)
    ensures Sound(Upserted(None, pr, touched))
  {
  }

  /** The answer re-offers the sha a live marker names, without naming the tips that would decide the proof, and no
      late conflict settles the guard. */
  ghost predicate Undecided(row: Row, pr: Row, touched: int) {
    && pr.nodeID.Some? && row.staleSha.Some? && pr.mergeSha == row.staleSha && Proof(row, pr) == Unknown
    && row.staleAt.Some? && row.staleAt.value > touched - MergeStaleTTL
    && !(pr.mergeable == Some("CONFLICTING") && row.staleAt.value <= touched - ConflictingWindow)
  }

  ghost predicate UndecidedWrite(row: Row, w: Write) {
    (w.Upsert? || w.AbsorbSingle?) && Undecided(row, w.pr, Sec(w.now))
  }

  /** Without tips the SQL comparison is NULL: the guard neither rejects the marked sha nor clears the marker, and the
      two stand in one row. This happens exactly on an undecided answer. */
  lemma NullTipLeavesMarkedSha(row: Row, pr: Row, touched: int)
    requires Sound(row)
    ensures !Sound(Upserted(Some(row), pr, touched)) <==> Undecided(row, pr, touched)
    ensures Proof(row, pr) == Unknown <==>
            row.staleAfter.Some? && !ProvenPostPush(row, pr)
            && ((pr.baseRef.None? && pr.baseOid in {None, row.staleAfter})
                || (pr.baseOid.None? && pr.baseRef in {None, row.staleRef})
                || (pr.headRef.None? && pr.headOid in {None, row.staleAfter})
                || (pr.headOid.None? && pr.headRef in {None, row.staleRef}))
  {
  }

  lemma WriteSoundIff(row: Row, w: Write)
    requires Sound(row)
    ensures Sound(Apply(row, w)) <==> !UndecidedWrite(row, w)
  {
    if w.Upsert? || w.AbsorbSingle? {
      NullTipLeavesMarkedSha(row, w.pr, Sec(w.now));
    }
  }

  /** Marker and marked sha are apart after every write of the run. */
  ghost predicate SoundThroughout(row: Row, ws: seq<Write>)
    decreases |ws|
  {
    Sound(row) && (ws != [] ==> SoundThroughout(Apply(row, ws[0]), ws[1..]))
  }

  /** No write of the run is undecided against the row it meets. */
  ghost predicate Decided(row: Row, ws: seq<Write>)
    decreases |ws|
  {
    ws != [] ==> !UndecidedWrite(row, ws[0]) && Decided(Apply(row, ws[0]), ws[1..])
  }

  lemma {:induction false} RunSoundIff(row: Row, ws: seq<Write>)
    requires Sound(row)
    ensures SoundThroughout(row, ws) <==> Decided(row, ws)
    ensures Decided(row, ws) ==> Sound(Run(row, ws))
    decreases |ws|
  {
    if ws != [] {
      WriteSoundIff(row, ws[0]);
      if !UndecidedWrite(row, ws[0]) {
        RunSoundIff(Apply(row, ws[0]), ws[1..]);
      }
    }
  }

  /** Over every run of writers after the first sight of a PR, the marker and the sha it names stay out of each other's
      row exactly while no answer is undecided; then the last check of the hit gate never has to refuse anything. */
  lemma MarkerExcludesSha(pr: Row, touched: int, ws: seq<Write>, now: int)
    ensures var row := Upserted(None, pr, touched);
            && (SoundThroughout(row, ws) <==> Decided(row, ws))
            && (Decided(row, ws) ==> !MergeShaStale(Run(row, ws), now))
  {
    InsertIsSound(pr, touched);
    RunSoundIff(Upserted(None, pr, touched), ws);
  }

  /** Answers that name their tips are never undecided. */
  lemma {:induction false} TippedRunsAreDecided(row: Row, ws: seq<Write>)
    requires Sound(row) && forall w :: w in ws ==> TippedWrite(w)
    ensures Decided(row, ws)
    decreases |ws|
  {
    if ws != [] {
      WriteKeepsSound(row, ws[0]);
      WriteSoundIff(row, ws[0]);
      TippedRunsAreDecided(Apply(row, ws[0]), ws[1..]);
    }
  }

  /** A remark on the row NullTipLeavesMarkedSha describes: the gate's own last check refuses it. */
  lemma MarkedShaStillMisses(row: Row, now: int)
    requires row.mergeSha == row.staleSha && MarkerLive(row, now)
    ensures !HitGate(row, now)
  {
  }

  /** A single-PR answer that re-offers the marked sha is accepted whole, marker cleared, exactly when the marker has
      expired, the answer shows the push's tip, or it is a conflict reported 30 seconds or more after the push.
      Otherwise it is stored unresolved and the marker stays. */
  lemma SameShaAnswer(row: Row, pr: Row, now: int)
    requires Sound(row) && Tipped(pr) && pr.nodeID.Some?
    requires NonEmpty(pr.mergeSha) && pr.mergeSha == row.staleSha
    ensures var r := Absorbed(Some(row), pr, now);
            if now - row.staleAt.value * 1_000_000_000 >= 3600 * 1_000_000_000 || ProvenPostPush(row, pr)
               || (pr.mergeable == Some("CONFLICTING") && now - row.staleAt.value * 1_000_000_000 >= 30 * 1_000_000_000)
            then r.mergeable == pr.mergeable && r.mergeableState == pr.mergeableState && r.mergeSha == pr.mergeSha
                 && r.staleSha.None? && !StaleRejected(Some(row), pr, now)
            else r.mergeable.None? && r.mergeableState.None? && r.mergeSha.None?
                 && r.staleSha == row.staleSha && r.staleAt == row.staleAt && StaleRejected(Some(row), pr, now)
  {
    GuardAgrees(row, pr, now);
  }

  /** An answer that carries any other sha is GitHub's recompute: it is taken and the marker cleared. */
  lemma NewShaAccepted(row: Row, pr: Row, now: int)
    requires Sound(row) && Tipped(pr) && pr.nodeID.Some?
    requires NonEmpty(pr.mergeSha) && row.staleSha.Some? && pr.mergeSha != row.staleSha
    ensures var r := Absorbed(Some(row), pr, now);
            r.mergeable == pr.mergeable && r.mergeSha == pr.mergeSha && r.staleSha.None?
  {
    GuardAgrees(row, pr, now);
  }

  /** The poll cannot wedge: an hour after the last push, whatever was marked, the next resolved answer opens the
      gate. */
  lemma ExpiredMarkerNeverWedges(row: Row, pr: Row, now: int)
    requires Sound(row) && Tipped(pr) && RestComplete(pr)
    requires MergeableKnown(pr) && DiffStatsKnown(pr) && NonEmpty(pr.mergeSha)
    requires row.staleAt.Some? ==> now - row.staleAt.value * 1_000_000_000 >= 3600 * 1_000_000_000
    ensures HitGate(Absorbed(Some(row), pr, now), now)
  {
    GuardAgrees(row, pr, now);
    assert now - Sec(now) * NS < NS;
  }

  /** An answer that cannot have seen the push: it offers the marked sha unproven, or states no verdict, or is a
      GraphQL view. */
  ghost predicate PrePush(w: Write, sha: string, at: int, ref: Option<string>, after: Option<string>) {
    match w
    case Upsert(pr, now) => PrePushAnswer(pr, now, sha, at, ref, after) || pr.nodeID.None?
    case AbsorbSingle(pr, now) => PrePushAnswer(pr, now, sha, at, ref, after)
    case Push(_, _, _) => false
    case TipMove(_, _) => false
    case RepoReset => true
    case ChecksMoved => true
  }

  ghost predicate PrePushAnswer(pr: Row, now: int, sha: string, at: int, ref: Option<string>, after: Option<string>) {
    && Tipped(pr) && pr.nodeID.Some?
    && now - at * NS < MergeStaleTTL * NS
    && (ref.Some? ==> !(pr.baseRef == ref && pr.baseOid == after) && !(pr.headRef == ref && pr.headOid == after))
    && if pr.mergeSha.None? then pr.mergeable.None? && pr.mergeableState.None?
       else pr.mergeSha == Some(sha) && (pr.mergeable != Some("CONFLICTING") || now - at * NS < ConflictingWindow * NS)
  }

  ghost predicate Waiting(row: Row, sha: string, at: int, ref: Option<string>, after: Option<string>) {
    && Sound(row) && row.nodeID.Some? && sha != ""
    && row.staleSha == Some(sha) && row.staleAt == Some(at) && row.staleRef == ref && row.staleAfter == after
    && row.mergeSha.None? && row.mergeable.None? && row.mergeableState.None?
  }

  lemma PrePushKeepsWaiting(row: Row, w: Write, sha: string, at: int, ref: Option<string>, after: Option<string>)
    requires Waiting(row, sha, at, ref, after) && PrePush(w, sha, at, ref, after)
    ensures Waiting(Apply(row, w), sha, at, ref, after)
  {
    if w.Upsert? || w.AbsorbSingle? {
      if w.pr.nodeID.Some? {
        if w.pr.mergeSha.Some? {
          GuardAgrees(row, w.pr, w.now);
        }
        UpsertKeepsSound(row, w.pr, Sec(w.now));
      }
    }
  }

  /** For an hour after a push, no run of answers that predate it resolves the PR: every read keeps missing. */
  lemma {:induction false} StaleAnswersNeverResolve(row: Row, branch: string, after: string, now: int, ws: seq<Write>)
    requires Sound(row) && row.nodeID.Some? && NonEmpty(row.mergeSha)
    requires branch != "" && (row.baseRef == Some(branch) || row.headRef == Some(branch))
    requires var p := Pushed(row, branch, after, now);
             forall w :: w in ws ==> PrePush(w, row.mergeSha.value, Sec(now), p.staleRef, p.staleAfter)
    ensures var r := Run(Pushed(row, branch, after, now), ws);
            r.mergeable.None? && r.staleSha == row.mergeSha && forall t :: !HitGate(r, t)
  {
    var p := Pushed(row, branch, after, now);
    WaitingThroughout(p, row.mergeSha.value, Sec(now), p.staleRef, p.staleAfter, ws);
  }

  lemma {:induction false} WaitingThroughout(row: Row, sha: string, at: int, ref: Option<string>, after: Option<string>,
                                             ws: seq<Write>)
    requires Waiting(row, sha, at, ref, after)
    requires forall w :: w in ws ==> PrePush(w, sha, at, ref, after)
    ensures Waiting(Run(row, ws), sha, at, ref, after)
    decreases |ws|
  {
    if ws != [] {
      PrePushKeepsWaiting(row, ws[0], sha, at, ref, after);
      WaitingThroughout(Apply(row, ws[0]), sha, at, ref, after, ws[1..]);
    }
  }
}
