// The open-PR truth of one repo as a value: rows, closures and the list-complete marker, and what each writer of
// internal/ghdata/respcache_pulls.go, store.go, store_prs.go and pr_closures.go makes of it. A timestamp column that
// may be the empty string is an Option; clock readings are nanoseconds, stored times whole seconds.
module PullTruth {
  import opened Options
  import opened PullRows

  datatype Closure = Closure(updated: Option<int>, recorded: int)

  datatype Truth = Truth(rows: map<nat, Row>, closures: map<nat, Closure>, marker: Option<int>)

  const Empty := Truth(map[], map[], None)

  function Lookup(t: Truth, n: nat): Option<Row> {
    if n in t.rows then Some(t.rows[n]) else None
  }

  /** prClosureBlocks: a view that cannot show it postdates the recorded close is refused. */
  predicate Blocks(t: Truth, pr: Row) {
    pr.number in t.closures && (pr.updated.None? || AtMost(pr.updated, t.closures[pr.number].updated))
  }

  /** String order on updated_at, the empty string first. */
  predicate AtMost(a: Option<int>, b: Option<int>) {
    a.None? || (b.Some? && a.value <= b.value)
  }

  function Later(a: Option<int>, b: Option<int>): Option<int> {
    if AtMost(a, b) then b else a
  }

  /** upsertPRTx. */
  function UpsertTx(t: Truth, pr: Row, touched: int): Truth {
    if Blocks(t, pr) then t
    else t.(rows := t.rows[pr.number := Upserted(Lookup(t, pr.number), pr, touched)],
            closures := map n | n in t.closures && n != pr.number :: t.closures[n])
  }

  /** AbsorbSinglePull on an answer that says the PR is open. */
  function AbsorbOpen(t: Truth, pr: Row, now: int): Truth {
    if Blocks(t, pr) then t
    else UpsertTx(t, pr, Sec(now)).(rows := t.rows[pr.number := Absorbed(Lookup(t, pr.number), pr, now)])
  }

  /** DeletePR, with the retention prune it ends in. */
  function Closed(t: Truth, n: nat, updated: Option<int>, now: int): Truth {
    var later := if n in t.closures then Later(t.closures[n].updated, updated) else updated;
    var closures := t.closures[n := Closure(later, Sec(now))];
    t.(rows := map x | x in t.rows && x != n :: t.rows[x],
       closures := map x | x in closures && closures[x].recorded >= Sec(now - ClosureRetention * NS) :: closures[x])
  }

  function UpsertAll(t: Truth, prs: seq<Row>, touched: int): Truth
    decreases |prs|
  {
    if prs == [] then t else UpsertTx(UpsertAll(t, prs[..|prs| - 1], touched), prs[|prs| - 1], touched)
  }

  function Numbers(prs: seq<Row>): set<nat> { set i | 0 <= i < |prs| :: prs[i].number }

  /** The reconcile: open rows the complete answer omits go, unless touched inside the grace window. */
  function Reconciled(t: Truth, fetched: set<nat>, cutoff: int): Truth {
    t.(rows := map n | n in t.rows && (n in fetched || t.rows[n].touched >= cutoff) :: t.rows[n])
  }

  /** SyncOrgTruth on one fetched repo: the upserts, then the reconcile. */
  function SyncedRepo(t: Truth, prs: seq<Row>, fetchStart: int, now: int): Truth {
    Reconciled(UpsertAll(t, prs, Sec(now)), Numbers(prs), Sec(fetchStart - Grace * NS))
  }

  /** AbsorbPullsList; `now` is the handler's clock reading, taken before the fetch started. */
  function AbsorbList(t: Truth, prs: seq<Row>, complete: bool, fetchStart: int, now: int, ttl: int): Truth {
    var settled := if !complete then UpsertAll(t, prs, Sec(now))
                   else SyncedRepo(t, prs, fetchStart, now).(marker := Some(Sec(now + ttl)));
    if settled.marker.Some? && settled.marker.value <= Sec(now) then settled.(marker := None) else settled
  }

  /** PullsListFresh. */
  predicate ListFresh(t: Truth, now: int) {
    t.marker.Some? && t.marker.value * NS > now
  }

  // ---- What the list absorb does to one PR ----

  ghost predicate Distinct(prs: seq<Row>) {
    forall i, j :: 0 <= i < j < |prs| ==> prs[i].number != prs[j].number
  }

  lemma {:induction false} UpsertAllElsewhere(t: Truth, prs: seq<Row>, touched: int, n: nat)
    requires forall i :: 0 <= i < |prs| ==> prs[i].number != n
    ensures Lookup(UpsertAll(t, prs, touched), n) == Lookup(t, n)
    ensures n in UpsertAll(t, prs, touched).closures <==> n in t.closures
    ensures n in t.closures ==> UpsertAll(t, prs, touched).closures[n] == t.closures[n]
    decreases |prs|
  {
    if prs != [] {
      UpsertAllElsewhere(t, prs[..|prs| - 1], touched, n);
    }
  }

  lemma {:induction false} UpsertAllAt(t: Truth, prs: seq<Row>, touched: int, k: nat)
    requires k < |prs| && Distinct(prs)
    ensures var n := prs[k].number;
            var u := UpsertAll(t, prs, touched);
            if Blocks(t, prs[k]) then Lookup(u, n) == Lookup(t, n) && n in u.closures && u.closures[n] == t.closures[n]
            else Lookup(u, n) == Some(Upserted(Lookup(t, n), prs[k], touched)) && n !in u.closures
    decreases |prs|
  {
    var front, last := prs[..|prs| - 1], prs[|prs| - 1];
    if k == |prs| - 1 {
      UpsertAllElsewhere(t, front, touched, last.number);
    } else {
      UpsertAllAt(t, front, touched, k);
    }
  }

  lemma {:induction false} UpsertAllKeepsMarker(t: Truth, prs: seq<Row>, touched: int)
    ensures UpsertAll(t, prs, touched).marker == t.marker
    decreases |prs|
  {
    if prs != [] {
      UpsertAllKeepsMarker(t, prs[..|prs| - 1], touched);
    }
  }

  /** A PR the answer does not list is only removed by a complete answer, and only outside the grace window. */
  lemma AbsorbListOmitted(t: Truth, prs: seq<Row>, complete: bool, fetchStart: int, now: int, ttl: int, n: nat)
    requires forall i :: 0 <= i < |prs| ==> prs[i].number != n
    ensures var u := AbsorbList(t, prs, complete, fetchStart, now, ttl);
            && Lookup(u, n) == (if complete && n in t.rows && t.rows[n].touched < Sec(fetchStart - Grace * NS) then None
                                else Lookup(t, n))
            && (n in u.closures <==> n in t.closures)
            && (n in t.closures ==> u.closures[n] == t.closures[n])
  {
    UpsertAllElsewhere(t, prs, Sec(now), n);
  }

  /** A PR the answer lists is written from it, unless its recorded closure refuses the view. */
  lemma AbsorbListListed(t: Truth, prs: seq<Row>, complete: bool, fetchStart: int, now: int, ttl: int, k: nat)
    requires k < |prs| && Distinct(prs)
    ensures var n := prs[k].number;
            var u := AbsorbList(t, prs, complete, fetchStart, now, ttl);
            if Blocks(t, prs[k]) then Lookup(u, n) == Lookup(t, n) && n in u.closures && u.closures[n] == t.closures[n]
            else Lookup(u, n) == Some(Upserted(Lookup(t, n), prs[k], Sec(now))) && n !in u.closures
  {
    UpsertAllAt(t, prs, Sec(now), k);
    assert prs[k].number in Numbers(prs);
  }

  /** A close keeps the closures of the last day, its own among them, and drops the row; nothing else changes. */
  lemma ClosuresKeptADay(t: Truth, m: nat, updated: Option<int>, now: int, n: nat)
    ensures var u := Closed(t, m, updated, now);
            && (n in u.closures <==>
                  || n == m
                  || (n in t.closures && t.closures[n].recorded >= (now - 86_400 * 1_000_000_000) / 1_000_000_000))
            && (n != m && n in u.closures ==> u.closures[n] == t.closures[n])
            && (m in u.closures ==> u.closures[m].recorded == now / 1_000_000_000)
            && (n in u.rows <==> n != m && n in t.rows) && (n in u.rows ==> u.rows[n] == t.rows[n])
            && u.marker == t.marker
  {
    assert Sec(now - ClosureRetention * NS) <= Sec(now);
  }

  /** The list marker is set by a complete answer only, to run for the time given; an expired one is cleared; and it is
      believed until the second it names. */
  lemma MarkerReads(t: Truth, prs: seq<Row>, complete: bool, fetchStart: int, now: int, ttl: int, later: int)
    ensures var u := AbsorbList(t, prs, complete, fetchStart, now, ttl);
            var m := if complete then Some((now + ttl) / 1_000_000_000) else t.marker;
            && u.marker == (if m.Some? && m.value > now / 1_000_000_000 then m else None)
            && (ListFresh(u, later) <==> u.marker.Some? && later < u.marker.value * 1_000_000_000)
  {
    UpsertAllKeepsMarker(t, prs, Sec(now));
  }

  /** An answer that is not complete removes nothing, and neither does one whose cutoff -- two minutes before its fetch
      began -- no row is older than. */
  lemma ReconcileReads(t: Truth, prs: seq<Row>, complete: bool, fetchStart: int, now: int, ttl: int, n: nat)
    requires forall i :: 0 <= i < |prs| ==> prs[i].number != n
    ensures n in AbsorbList(t, prs, complete, fetchStart, now, ttl).rows <==>
            n in t.rows && (!complete || t.rows[n].touched >= (fetchStart - 120 * 1_000_000_000) / 1_000_000_000)
  {
    AbsorbListOmitted(t, prs, complete, fetchStart, now, ttl, n);
  }
}
