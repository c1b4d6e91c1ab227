// The store of internal/ghdata that holds one repo's open PRs: the tables as mutable maps and the transactions as
// methods that write them in the source's order, each proved to be the function of PullTruth or CheckRollup that the
// protocol results are about. A transaction that rolls back leaves the fields as they were.
module PullStore {
  import opened Options
  import opened PullRows
  import opened PullTruth
  import opened CheckRollup

  class Store {
    var rows: map<nat, Row>
    var closures: map<nat, Closure>
    var marker: Option<int>
    var checks: Checks
    var defaultBranchStatus: Option<string>

    constructor ()
      ensures Truth() == Empty && checks == map[] && defaultBranchStatus == None
    {
      rows, closures, marker, checks, defaultBranchStatus := map[], map[], None, map[], None;
    }

    ghost function Truth(): Truth
      reads this
    {
      PullTruth.Truth.Truth(rows, closures, marker)
    }

    ghost function Mirror(): Mirror
      reads this
    {
      CheckRollup.Mirror.Mirror(Truth(), checks)
    }

    /** prClosureBlocks: refuses the view, or drops the closure it has outlived. */
    method ClosureBlocks(pr: Row) returns (blocked: bool)
      modifies `closures
      ensures blocked == Blocks(old(Truth()), pr)
      ensures closures == if blocked then old(closures)
                          else map n | n in old(closures) && n != pr.number :: old(closures)[n]
    {
      if pr.number !in closures {
        return false;
      }
      if pr.updated.None? || AtMost(pr.updated, closures[pr.number].updated) {
        return true;
      }
      closures := map n | n in closures && n != pr.number :: closures[n];
      return false;
    }

    /** upsertPRTx. */
    method UpsertPRTx(pr: Row, touched: int) returns (applied: bool)
      modifies `rows, `closures
      ensures Truth() == UpsertTx(old(Truth()), pr, touched)
      ensures applied == !Blocks(old(Truth()), pr)
    {
      var blocked := ClosureBlocks(pr);
      if blocked {
        return false;
      }
      var prior := if pr.number in rows then Some(rows[pr.number]) else None;
      rows := rows[pr.number := Upserted(prior, pr, touched)];
      return true;
    }

    /** The upsert loop of a fetched list. */
    method UpsertEach(prs: seq<Row>, touched: int) returns (fetched: set<nat>)
      modifies `rows, `closures
      ensures Truth() == UpsertAll(old(Truth()), prs, touched)
      ensures fetched == Numbers(prs)
    {
      fetched := {};
      for i := 0 to |prs|
        invariant Truth() == UpsertAll(old(Truth()), prs[..i], touched)
        invariant fetched == Numbers(prs[..i])
      {
        assert prs[..i + 1] == prs[..i] + [prs[i]];
        NumbersAppend(prs[..i], prs[i]);
        fetched := fetched + {prs[i].number};
        var _ := UpsertPRTx(prs[i], touched);
      }
      assert prs[..|prs|] == prs;
    }

    /** The reconcile of a complete answer: drop the open rows it omits, outside the grace window. */
    method Reconcile(fetched: set<nat>, cutoff: int)
      modifies `rows
      ensures Truth() == Reconciled(old(Truth()), fetched, cutoff)
    {
      ghost var before := rows;
      var existing := rows.Keys;
      while existing != {}
        invariant existing <= before.Keys
        invariant rows == map n | n in before && (n in existing || n in fetched || before[n].touched >= cutoff)
                            :: before[n]
        decreases existing
      {
        var n :| n in existing;
        existing := existing - {n};
        if n in fetched || rows[n].touched >= cutoff {
          continue;
        }
        rows := map x | x in rows && x != n :: rows[x];
      }
    }

    /** SyncOrgTruth on one fetched repo. */
    method SyncRepo(prs: seq<Row>, fetchStart: int, now: int)
      modifies `rows, `closures
      ensures Truth() == SyncedRepo(old(Truth()), prs, fetchStart, now)
    {
      var fetched := UpsertEach(prs, Sec(now));
      Reconcile(fetched, Sec(fetchStart - Grace * NS));
    }

    /** AbsorbPullsList. */
    method AbsorbPullsList(prs: seq<Row>, complete: bool, fetchStart: int, now: int, ttl: int)
      modifies `rows, `closures, `marker
      ensures Truth() == AbsorbList(old(Truth()), prs, complete, fetchStart, now, ttl)
    {
      var fetched := UpsertEach(prs, Sec(now));
      if complete {
        Reconcile(fetched, Sec(fetchStart - Grace * NS));
        marker := Some(Sec(now + ttl));
      }
      if marker.Some? && marker.value <= Sec(now) {
        marker := None;
      }
    }

    /** AbsorbSinglePull. */
    method AbsorbSinglePull(pr: Row, now: int) returns (staleRejected: bool)
      modifies `rows, `closures
      ensures Truth() == AbsorbOpen(old(Truth()), pr, now)
      ensures staleRejected == (!Blocks(old(Truth()), pr) && StaleRejected(Lookup(old(Truth()), pr.number), pr, now))
    {
      staleRejected := false;
      if pr.number in rows {
        var existing := rows[pr.number];
        staleRejected := StaleShaOffered(existing, pr.mergeSha, now)
                         && !ProvenPostPush(existing, pr) && !ConflictingPastLag(existing, pr, now);
      }
      var applied := UpsertPRTx(pr, Sec(now));
      if !applied {
        return false;
      }
      var mergeable, mergeableState := pr.mergeable, pr.mergeableState;
      if staleRejected {
        mergeable, mergeableState := None, None;
      }
      rows := rows[pr.number := rows[pr.number].(mergeable := mergeable, mergeableState := mergeableState)];
      assert Truth().rows == AbsorbOpen(old(Truth()), pr, now).rows;
    }

    /** DeletePR: the row goes, the closure stays, old closures are pruned. */
    method DeletePR(number: nat, closedUpdated: Option<int>, now: int)
      modifies `rows, `closures
      ensures Truth() == Closed(old(Truth()), number, closedUpdated, now)
    {
      rows := map n | n in rows && n != number :: rows[n];
      var updated := if number in closures then Later(closures[number].updated, closedUpdated) else closedUpdated;
      closures := closures[number := Closure(updated, Sec(now))];
      var cutoff := Sec(now - ClosureRetention * NS);
      closures := map n | n in closures && closures[n].recorded >= cutoff :: closures[n];
    }

    /** NullPRMergeableByBranch. */
    method NullMergeableByBranch(branch: string, after: string, now: int)
      modifies `rows
      ensures rows == map n | n in old(rows) :: Pushed(old(rows)[n], branch, after, now)
    {
      if branch == "" {
        return;
      }
      rows := map n | n in rows :: Pushed(rows[n], branch, after, now);
    }

    /** NullPRMergeableOnTipMove. */
    method NullMergeableOnTipMove(pr: Row, now: int) returns (moved: bool)
      modifies `rows
      ensures pr.number !in old(rows) ==> rows == old(rows) && !moved
      ensures pr.number in old(rows) ==>
                rows == old(rows)[pr.number := TipMoved(old(rows)[pr.number], pr, now)]
                && moved == (HeadMoved(old(rows)[pr.number], pr) || Retargeted(old(rows)[pr.number], pr))
    {
      if pr.number !in rows {
        return false;
      }
      var existing := rows[pr.number];
      var ref, after;
      if NonEmpty(pr.headOid) && NonEmpty(existing.headOid) && pr.headOid != existing.headOid {
        ref, after := pr.headRef, pr.headOid;
      } else if NonEmpty(pr.baseRef) && NonEmpty(existing.baseRef) && pr.baseRef != existing.baseRef {
        ref, after := pr.baseRef, pr.baseOid;
      } else {
        return false;
      }
      if !NonEmpty(ref) || !NonEmpty(after) {
        ref, after := None, None;
      }
      rows := rows[pr.number := Unresolved(existing, Sec(now), ref, after)];
      return true;
    }

    // ---- Checks ----

    method ListCommitCheckStates(sha: string) returns (states: seq<string>)
      ensures (set st | st in states) == States(checks, sha)
    {
      states := [];
      var keys := set k | k in checks && k.sha == sha;
      ghost var all := keys;
      ghost var visited: set<Check> := {};
      while keys != {}
        invariant keys + visited == all && visited !! keys
        invariant forall st :: st in states <==> exists k :: k in visited && checks[k] == st
        decreases keys
      {
        var k :| k in keys;
        states := states + [checks[k]];
        keys, visited := keys - {k}, visited + {k};
      }
    }

    method SetPRStatusByHeadSha(sha: string, status: Option<string>)
      modifies `rows
      ensures rows == WithStatus(old(rows), sha, status)
    {
      rows := map n | n in rows ::
        if sha != "" && rows[n].headOid == Some(sha) then rows[n].(lastStatus := status) else rows[n];
    }

    /** ApplyCommitStatus. */
    method ApplyCommitStatus(sha: string, context: string, state: string, onDefaultBranch: bool)
      returns (rollup: string)
      modifies `rows, `checks, `defaultBranchStatus
      ensures Mirror() == StatusApplied(old(Mirror()), sha, context, state)
      ensures rollup == RollupOf(checks, sha)
      ensures defaultBranchStatus == if onDefaultBranch then AsStatus(rollup) else old(defaultBranchStatus)
    {
      checks := checks[Check(sha, context) := state];
      var states := ListCommitCheckStates(sha);
      rollup := RollupState(states);
      SetPRStatusByHeadSha(sha, AsStatus(rollup));
      if onDefaultBranch {
        defaultBranchStatus := AsStatus(rollup);
      }
    }

    /** UpsertPRWithChecks. */
    method UpsertPRWithChecks(pr: Row, now: int)
      modifies `rows, `closures
      ensures Mirror() == PRApplied(old(Mirror()), pr, Sec(now))
    {
      var applied := UpsertPRTx(pr, Sec(now));
      if !applied {
        return;
      }
      if NonEmpty(pr.headOid) {
        var states := ListCommitCheckStates(pr.headOid.value);
        var rollup := RollupState(states);
        if rollup != "" {
          SetPRStatusByHeadSha(pr.headOid.value, Some(rollup));
        }
      }
    }

    /** ForceCheckRollup. */
    method ForceCheckRollup(sha: string, rollup: Option<string>)
      modifies `rows, `checks
      ensures Mirror() == Forced(old(Mirror()), sha, rollup)
    {
      if sha == "" {
        return;
      }
      checks := map k | k in checks && k.sha != sha :: checks[k];
      SetPRStatusByHeadSha(sha, rollup);
    }
  }

  lemma NumbersAppend(prs: seq<Row>, pr: Row)
    ensures Numbers(prs + [pr]) == Numbers(prs) + {pr.number}
  {
    var all := prs + [pr];
    assert all[|prs|] == pr;
    forall n | n in Numbers(prs) ensures n in Numbers(all) {
      var i :| 0 <= i < |prs| && prs[i].number == n;
      assert all[i].number == n;
    }
  }
}
