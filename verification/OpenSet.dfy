// The open-PR truth protocol as a step system over an upstream ghost state: GitHub's per-PR histories, deliveries in
// any order behind the watermark, any number of overlapping fetches with stale answers, and the store. Sources:
// internal/ghdata/respcache_pulls.go:205-341, pr_closures.go:17-48, store.go:381-392, store_prs.go:78-99.
module OpenSet {
  import opened Options
  import opened PullRows
  import opened PullTruth

  /** One upstream state of a PR: open or closed, the updated_at that stamps it, and when it happened. */
  datatype Version = Version(open: bool, updated: int, at: int)

  /** GitHub's stamps: seconds that never go back, and a PR that is open after it was closed is so in a later second.
      A close may fall in the second of the open version before it. */
  predicate Follows(a: Version, b: Version) {
    a.updated <= b.updated && a.at <= b.at && (!a.open && b.open ==> a.updated < b.updated)
  }

  ghost predicate InOrder(h: seq<Version>) {
    forall i, j :: 0 <= i < j < |h| ==> Follows(h[i], h[j])
  }

  /** An answer on its way: the handler's clock reading, when the fetch began, and how many versions of each PR it
      saw. */
  datatype Fetch = Fetch(began: int, start: int, seen: map<nat, nat>)

  /** `watch` is when deliveries began, or began again: earlier versions (the first `base` of a PR) are never delivered.
      Of what an earlier process stored, `stored` bounds when rows were touched and `kept` is the list marker. `mark`
      counts the versions at or behind the PR's watermark. `synced` is set by the first complete list absorb or org sync
      whose cutoff is later than the stored rows. */
  datatype World = World(clock: int, watch: int, stored: int, kept: Option<int>,
                         history: map<nat, seq<Version>>, base: map<nat, nat>, mark: map<nat, nat>,
                         truth: Truth, fetches: set<Fetch>, synced: bool)

  /** Seconds: how stale an answer may be (replica lag), how old the clock reading may be that a list is stamped with
      when it is written, and how long an answer may be under way. */
  datatype Timing = Timing(lag: nat, hold: nat, flight: nat)

  /** The stamp's age counts against the grace window, the flight only against what closures remember. */
  ghost predicate WithinGrace(p: Timing) { p.lag + p.hold <= Grace && p.lag + p.flight <= ClosureRetention }

  function Hist(w: World, n: nat): seq<Version> { if n in w.history then w.history[n] else [] }

  function Base(w: World, n: nat): nat { if n in w.base then w.base[n] else 0 }

  function Mark(w: World, n: nat): nat { if n in w.mark then w.mark[n] else 0 }

  function Seen(f: Fetch, n: nat): nat { if n in f.seen then f.seen[n] else 0 }

  predicate OpenAt(h: seq<Version>, v: nat)
    requires v <= |h|
  {
    v > 0 && h[v - 1].open
  }

  /** Everything GitHub has to say about the PR has reached the store. */
  predicate Drained(w: World, n: nat) {
    var k := if Mark(w, n) > Base(w, n) then Mark(w, n) else Base(w, n);
    k == |Hist(w, n)|
  }

  /** The fetch began within the grace window of the stored rows, so that its reconcile may spare one of them. */
  predicate Early(w: World, f: Fetch) { Sec(f.start - Grace * NS) <= w.stored }

  // ---- Steps ----

  datatype Step =
    | Tick(clock: int)
    | Happen(n: nat, v: Version)                     // upstream: the PR changes
    | Deliver(n: nat, i: nat, pr: Row)               // the delivery of version i arrives
    | Answer(f: Fetch)                               // GitHub answers a fetch
    | Absorb(f: Fetch, prs: seq<Row>, complete: bool, now: int, ttl: int)
    | SyncRepo(f: Fetch, prs: seq<Row>, now: int)    // an org sync's complete list of the repo
    | AbsorbOne(f: Fetch, pr: Row)                   // a single-PR answer saying open
    | CloseOne(f: Fetch, n: nat)                     // a single-PR answer saying closed

  /** The row states the version it was built from. */
  predicate Shows(pr: Row, n: nat, v: Version) { pr.number == n && pr.updated == Some(v.updated) }

  predicate Live(w: World, f: Fetch, p: Timing) { w.clock <= f.began + p.flight * NS }

  /** The listed PRs are open in the answer's view; a complete answer lists all of those. */
  ghost predicate Lists(w: World, f: Fetch, prs: seq<Row>, complete: bool) {
    && Distinct(prs)
    && (forall k :: 0 <= k < |prs| ==>
          var h, v := Hist(w, prs[k].number), Seen(f, prs[k].number);
          v <= |h| && OpenAt(h, v) && Shows(prs[k], prs[k].number, h[v - 1]))
    && (complete ==> forall n: nat :: Seen(f, n) <= |Hist(w, n)| && OpenAt(Hist(w, n), Seen(f, n))
                                 ==> exists k :: 0 <= k < |prs| && prs[k].number == n)
  }

  /** A list answer is written by a handler still live, stamped with a clock reading of its own. */
  ghost predicate Lands(w: World, f: Fetch, prs: seq<Row>, complete: bool, now: int, p: Timing) {
    f in w.fetches && Live(w, f, p) && f.began <= now <= w.clock <= now + p.hold * NS && Lists(w, f, prs, complete)
  }

  /** The one delivery whose delay is bounded: an open version, older than a delivered close of its own second, passes
      the watermark, so it has to come while the closure is kept. */
  predicate TieInTime(w: World, n: nat, i: nat) {
    var h, m := Hist(w, n), Mark(w, n);
    i < |h| && 0 < m <= |h| && h[i].open && !h[m - 1].open && h[i].updated == h[m - 1].updated
    ==> w.clock <= h[m - 1].at + ClosureRetention * NS
  }

  ghost predicate Enabled(w: World, s: Step, p: Timing) {
    match s
    case Tick(clock) => clock >= w.clock
    case Happen(n, v) =>
      v.at == w.clock && (Hist(w, n) != [] ==> Follows(Hist(w, n)[|Hist(w, n)| - 1], v))
    case Deliver(n, i, pr) => Base(w, n) <= i < |Hist(w, n)| && Shows(pr, n, Hist(w, n)[i]) && TieInTime(w, n, i)
    case Answer(f) =>
      && f.began <= f.start <= w.clock && f.start - p.lag * NS >= w.watch
      && forall n: nat :: Seen(f, n) <= |Hist(w, n)|
           && forall i :: Seen(f, n) <= i < |Hist(w, n)| ==> Hist(w, n)[i].at >= f.start - p.lag * NS
    case Absorb(f, prs, complete, now, _) => Lands(w, f, prs, complete, now, p)
    case SyncRepo(f, prs, now) => Lands(w, f, prs, true, now, p)
    case AbsorbOne(f, pr) =>
      var h, v := Hist(w, pr.number), Seen(f, pr.number);
      f in w.fetches && Live(w, f, p) && v <= |h| && OpenAt(h, v) && Shows(pr, pr.number, h[v - 1])
    case CloseOne(f, n) =>
      // DeletePR compares with nothing: the PR must not be known to be open again (StaleCloseLosesReopen).
      var h, v := Hist(w, n), Seen(f, n);
      f in w.fetches && Live(w, f, p) && 0 < v <= |h| && !OpenAt(h, v) && !(Drained(w, n) && OpenAt(h, |h|))
  }

  /** The watermark refuses a version of an earlier second than the newest delivered one; equal seconds apply. */
  predicate Behind(w: World, n: nat, i: nat)
    requires i < |Hist(w, n)|
  {
    0 < Mark(w, n) <= |Hist(w, n)| && Hist(w, n)[i].updated < Hist(w, n)[Mark(w, n) - 1].updated
  }

  /** The delivery of one version: refused behind the watermark, else written and the watermark advanced. */
  function Delivered(w: World, n: nat, i: nat, pr: Row): World
    requires i < |Hist(w, n)|
  {
    if Behind(w, n, i) then w
    else
      var v := Hist(w, n)[i];
      w.(mark := w.mark[n := if i + 1 > Mark(w, n) then i + 1 else Mark(w, n)],
         truth := if v.open then UpsertTx(w.truth, pr, Sec(w.clock)) else Closed(w.truth, n, Some(v.updated), w.clock))
  }

  ghost function Next(w: World, s: Step, p: Timing): World
    requires Enabled(w, s, p)
  {
    match s
    case Tick(clock) => w.(clock := clock)
    case Happen(n, v) => w.(history := w.history[n := Hist(w, n) + [v]])
    case Deliver(n, i, pr) => Delivered(w, n, i, pr)
    case Answer(f) => w.(fetches := w.fetches + {f})
    case Absorb(f, prs, complete, now, ttl) =>
      w.(truth := AbsorbList(w.truth, prs, complete, f.start, now, ttl),
         synced := w.synced || (complete && !Early(w, f)))
    case SyncRepo(f, prs, now) =>
      w.(truth := SyncedRepo(w.truth, prs, f.start, now), synced := w.synced || !Early(w, f))
    case AbsorbOne(f, pr) => w.(truth := AbsorbOpen(w.truth, pr, w.clock))
    case CloseOne(f, n) => w.(truth := Closed(w.truth, n, Some(Hist(w, n)[Seen(f, n) - 1].updated), w.clock))
  }

  // ---- The invariant ----

  ghost predicate HistoryOk(w: World, n: nat) {
    var h := Hist(w, n);
    && InOrder(h) && (forall i :: 0 <= i < |h| ==> h[i].at <= w.clock)
    && Base(w, n) <= |h| && (forall i :: 0 <= i < Base(w, n) ==> h[i].at < w.watch)
    && Mark(w, n) <= |h| && (Mark(w, n) > 0 ==> Mark(w, n) > Base(w, n))
  }

  /** A recorded closure carries the updated_at of some close of the PR. */
  ghost predicate ClosureOk(t: Truth, h: seq<Version>, n: nat) {
    n in t.closures ==> exists x :: 0 <= x < |h| && !h[x].open && t.closures[n].updated == Some(h[x].updated)
  }

  /** The newest close is on record, or so old that no answer still under way can contradict it. */
  ghost predicate CloseRemembered(t: Truth, h: seq<Version>, n: nat, clock: int)
    requires h != []
  {
    var last := h[|h| - 1];
    (n in t.closures && t.closures[n].updated == Some(last.updated) && t.closures[n].recorded >= Sec(last.at))
    || Sec(last.at) < Sec(clock - ClosureRetention * NS)
  }

  ghost predicate SlotOk(w: World, n: nat, p: Timing) {
    var h := Hist(w, n);
    && ClosureOk(w.truth, h, n)
    && (Drained(w, n) && OpenAt(h, |h|) ==>
          && (n in w.truth.rows || (!w.synced && Mark(w, n) == 0))
          && (n in w.truth.rows && Mark(w, n) > 0 ==> w.truth.rows[n].touched >= Sec(h[|h| - 1].at - p.hold * NS)))
    && (Drained(w, n) && !OpenAt(h, |h|) ==>
          && (n in w.truth.rows ==> !w.synced && Mark(w, n) == 0 && w.truth.rows[n].touched <= w.stored)
          && (Mark(w, n) > 0 ==> CloseRemembered(w.truth, h, n, w.clock)))
  }

  ghost predicate FetchOk(w: World, f: Fetch, p: Timing) {
    && f.began <= f.start <= w.clock && f.start - p.lag * NS >= w.watch
    && forall n: nat :: Seen(f, n) <= |Hist(w, n)|
         && forall i :: Seen(f, n) <= i < |Hist(w, n)| ==> Hist(w, n)[i].at >= f.start - p.lag * NS
  }

  ghost predicate Inv(w: World, p: Timing) {
    && (forall n: nat :: HistoryOk(w, n))
    && (forall n: nat :: SlotOk(w, n, p))
    && (forall f :: f in w.fetches ==> FetchOk(w, f, p))
    && Marked(w)
  }

  /** A marker other than the kept one was set by a complete answer. */
  ghost predicate Marked(w: World) {
    w.truth.marker.Some? && w.truth.marker != w.kept ==> w.synced || exists f :: f in w.fetches && Early(w, f)
  }

  /** A mirror that has just begun to watch, or resumed: whatever GitHub's past, any stored rows, closures that were
      some close of their PR, any marker, and nothing under way. */
  ghost predicate Init(w: World) {
    && w.fetches == {} && !w.synced && w.mark == map[] && w.base.Keys == w.history.Keys
    && w.clock >= w.watch && w.kept == w.truth.marker
    && (forall n :: n in w.truth.rows ==> w.truth.rows[n].touched <= w.stored)
    && (forall n: nat :: ClosureOk(w.truth, Hist(w, n), n))
    && forall n :: n in w.history ==>
         && w.base[n] == |w.history[n]|
         && InOrder(w.history[n])
         && (forall i :: 0 <= i < |w.history[n]| ==> w.history[n][i].at < w.watch)
  }

  lemma SecMonotone(a: int, b: int)
    requires a <= b
    ensures Sec(a) <= Sec(b)
  {
  }

  lemma SeesBase(w: World, f: Fetch, n: nat, p: Timing)
    requires HistoryOk(w, n) && FetchOk(w, f, p)
    ensures Base(w, n) <= Seen(f, n) <= |Hist(w, n)|
  {
    var h, v := Hist(w, n), Seen(f, n);
    assert v <= |h|;
    if v < |h| {
      assert h[v].at >= w.watch;
    }
  }

  /** The newest open view is never refused. */
  lemma NewestUnblocked(t: Truth, h: seq<Version>, n: nat, pr: Row)
    requires ClosureOk(t, h, n) && OpenAt(h, |h|) && pr.number == n && pr.updated == Some(h[|h| - 1].updated)
    requires InOrder(h)
    ensures !Blocks(t, pr)
  {
  }

  /** A live answer that still shows a since-closed PR as open is refused by the recorded close. */
  lemma RememberedBlocks(w: World, f: Fetch, n: nat, pr: Row, p: Timing)
    requires WithinGrace(p) && HistoryOk(w, n) && SlotOk(w, n, p) && FetchOk(w, f, p) && Live(w, f, p)
    requires Drained(w, n) && !OpenAt(Hist(w, n), |Hist(w, n)|)
    requires Seen(f, n) <= |Hist(w, n)| && OpenAt(Hist(w, n), Seen(f, n)) && Shows(pr, n, Hist(w, n)[Seen(f, n) - 1])
    ensures Blocks(w.truth, pr)
  {
    var h, v := Hist(w, n), Seen(f, n);
    SeesBase(w, f, n, p);
    var last := h[|h| - 1];
    assert last.at >= f.start - p.lag * NS;
    assert last.at >= w.clock - ClosureRetention * NS;
    SecMonotone(w.clock - ClosureRetention * NS, last.at);
    assert CloseRemembered(w.truth, h, n, w.clock);
  }

  /** A write at the present or at a live handler's reading is recent enough for the newest version. */
  lemma TouchedRecently(w: World, n: nat, began: int, p: Timing)
    requires HistoryOk(w, n) && Hist(w, n) != [] && w.clock <= began + p.hold * NS
    ensures Sec(began) >= Sec(Hist(w, n)[|Hist(w, n)| - 1].at - p.hold * NS)
  {
    SecMonotone(Hist(w, n)[|Hist(w, n)| - 1].at - p.hold * NS, began);
  }

  /** An open PR keeps its row and stays recently touched under a write of the list, refused or not. */
  lemma ListedOpenKeepsSlot(w: World, f: Fetch, prs: seq<Row>, complete: bool, now: int, ttl: int, k: nat, p: Timing)
    requires WithinGrace(p) && k < |prs| && Enabled(w, Absorb(f, prs, complete, now, ttl), p) && FetchOk(w, f, p)
    requires HistoryOk(w, prs[k].number) && SlotOk(w, prs[k].number, p)
    requires Drained(w, prs[k].number) && OpenAt(Hist(w, prs[k].number), |Hist(w, prs[k].number)|)
    ensures SlotOk(Next(w, Absorb(f, prs, complete, now, ttl), p), prs[k].number, p)
  {
    var n := prs[k].number;
    var h, u := Hist(w, n), Next(w, Absorb(f, prs, complete, now, ttl), p);
    AbsorbListListed(w.truth, prs, complete, f.start, now, ttl, k);
    TouchedRecently(w, n, now, p);
    assert Hist(u, n) == h && Base(u, n) == Base(w, n) && Mark(u, n) == Mark(w, n);
    if Seen(f, n) == |h| {
      NewestUnblocked(w.truth, h, n, prs[k]);
      assert n in u.truth.rows && u.truth.rows[n].touched == Sec(now) && n !in u.truth.closures;
    } else if !Blocks(w.truth, prs[k]) {
      assert n in u.truth.rows && u.truth.rows[n].touched == Sec(now) && n !in u.truth.closures;
    } else {
      assert n in w.truth.rows ==> n in u.truth.rows && u.truth.rows[n] == w.truth.rows[n];
      SeesBase(w, f, n, p);
    }
  }

  lemma ListedKeepsSlot(w: World, f: Fetch, prs: seq<Row>, complete: bool, now: int, ttl: int, k: nat, p: Timing)
    requires WithinGrace(p) && k < |prs| && Enabled(w, Absorb(f, prs, complete, now, ttl), p) && FetchOk(w, f, p)
    requires HistoryOk(w, prs[k].number) && SlotOk(w, prs[k].number, p)
    ensures SlotOk(Next(w, Absorb(f, prs, complete, now, ttl), p), prs[k].number, p)
  {
    var n := prs[k].number;
    AbsorbListListed(w.truth, prs, complete, f.start, now, ttl, k);
    if Drained(w, n) {
      if OpenAt(Hist(w, n), |Hist(w, n)|) {
        ListedOpenKeepsSlot(w, f, prs, complete, now, ttl, k, p);
      } else {
        RememberedBlocks(w, f, n, prs[k], p);
      }
    }
  }

  /** An omitted open PR that has been delivered opened after the answer's view, inside the grace window. */
  lemma OmittedIsRecent(w: World, f: Fetch, prs: seq<Row>, now: int, ttl: int, n: nat, p: Timing)
    requires WithinGrace(p) && Enabled(w, Absorb(f, prs, true, now, ttl), p) && FetchOk(w, f, p)
    requires HistoryOk(w, n) && SlotOk(w, n, p) && forall k :: 0 <= k < |prs| ==> prs[k].number != n
    requires Drained(w, n) && OpenAt(Hist(w, n), |Hist(w, n)|)
    ensures n in w.truth.rows && w.truth.rows[n].touched >= Sec(f.start - Grace * NS)
  {
    var h, v := Hist(w, n), Seen(f, n);
    SeesBase(w, f, n, p);
    assert v < |h| && h[|h| - 1].at >= f.start - p.lag * NS;
    SecMonotone(f.start - Grace * NS, h[|h| - 1].at - p.hold * NS);
  }

  lemma OmittedKeepsSlot(w: World, f: Fetch, prs: seq<Row>, complete: bool, now: int, ttl: int, n: nat, p: Timing)
    requires WithinGrace(p) && Enabled(w, Absorb(f, prs, complete, now, ttl), p) && FetchOk(w, f, p)
    requires HistoryOk(w, n) && SlotOk(w, n, p) && forall k :: 0 <= k < |prs| ==> prs[k].number != n
    ensures SlotOk(Next(w, Absorb(f, prs, complete, now, ttl), p), n, p)
  {
    AbsorbListOmitted(w.truth, prs, complete, f.start, now, ttl, n);
    if complete && Drained(w, n) && OpenAt(Hist(w, n), |Hist(w, n)|) {
      OmittedIsRecent(w, f, prs, now, ttl, n, p);
    }
  }

  lemma AbsorbKeepsSlot(w: World, f: Fetch, prs: seq<Row>, complete: bool, now: int, ttl: int, n: nat, p: Timing)
    requires WithinGrace(p) && Enabled(w, Absorb(f, prs, complete, now, ttl), p) && FetchOk(w, f, p)
    requires HistoryOk(w, n) && SlotOk(w, n, p)
    ensures SlotOk(Next(w, Absorb(f, prs, complete, now, ttl), p), n, p)
  {
    if k :| 0 <= k < |prs| && prs[k].number == n {
      ListedKeepsSlot(w, f, prs, complete, now, ttl, k, p);
    } else {
      OmittedKeepsSlot(w, f, prs, complete, now, ttl, n, p);
    }
  }

  lemma AbsorbOneKeepsSlot(w: World, f: Fetch, pr: Row, n: nat, p: Timing)
    requires WithinGrace(p) && HistoryOk(w, n) && SlotOk(w, n, p) && FetchOk(w, f, p)
    requires Enabled(w, AbsorbOne(f, pr), p)
    ensures SlotOk(Next(w, AbsorbOne(f, pr), p), n, p)
  {
    var h := Hist(w, n);
    if pr.number == n {
      SeesBase(w, f, n, p);
      TouchedRecently(w, n, w.clock, p);
      if Drained(w, n) && !OpenAt(h, |h|) {
        RememberedBlocks(w, f, n, pr, p);
      }
    }
  }

  lemma ClosedElsewhere(t: Truth, m: nat, updated: Option<int>, now: int, n: nat, h: seq<Version>)
    requires n != m && ClosureOk(t, h, n)
    ensures Lookup(Closed(t, m, updated, now), n) == Lookup(t, n)
    ensures ClosureOk(Closed(t, m, updated, now), h, n)
    ensures h != [] && CloseRemembered(t, h, n, now) ==> CloseRemembered(Closed(t, m, updated, now), h, n, now)
  {
  }

  /** Recording close number x of the PR, x the newest close recorded or not. */
  lemma ClosedHere(t: Truth, n: nat, x: nat, now: int, h: seq<Version>)
    requires x < |h| && !h[x].open && ClosureOk(t, h, n) && h[|h| - 1].at <= now
    requires InOrder(h)
    ensures var u := Closed(t, n, Some(h[x].updated), now);
            n !in u.rows && ClosureOk(u, h, n)
            && (h[x].updated == h[|h| - 1].updated ==> CloseRemembered(u, h, n, now))
  {
    var u := Closed(t, n, Some(h[x].updated), now);
    SecMonotone(h[|h| - 1].at, now);
    SecMonotone(now - ClosureRetention * NS, now);
    assert n in u.closures;
    if n in t.closures {
      var y :| 0 <= y < |h| && !h[y].open && t.closures[n].updated == Some(h[y].updated);
      assert (y < x ==> Follows(h[y], h[x])) && (x < y ==> Follows(h[x], h[y]));
      assert u.closures[n].updated == Some(h[if y <= x then x else y].updated);
      assert y < |h| - 1 ==> Follows(h[y], h[|h| - 1]);
    } else {
      assert u.closures[n].updated == Some(h[x].updated);
    }
  }

  /** Any write to the truth that only closes PR m leaves the other slots alone. */
  lemma CloseElsewhere(w: World, m: nat, updated: Option<int>, n: nat, p: Timing)
    requires SlotOk(w, n, p) && n != m
    ensures SlotOk(w.(truth := Closed(w.truth, m, updated, w.clock)), n, p)
  {
    ClosedElsewhere(w.truth, m, updated, w.clock, n, Hist(w, n));
    var w' := w.(truth := Closed(w.truth, m, updated, w.clock));
    assert Lookup(w'.truth, n) == Lookup(w.truth, n);
  }

  lemma CloseOneHere(w: World, f: Fetch, n: nat, p: Timing)
    requires HistoryOk(w, n) && SlotOk(w, n, p) && FetchOk(w, f, p) && Enabled(w, CloseOne(f, n), p)
    ensures SlotOk(Next(w, CloseOne(f, n), p), n, p)
  {
    var h, v := Hist(w, n), Seen(f, n);
    SeesBase(w, f, n, p);
    ClosedHere(w.truth, n, v - 1, w.clock, h);
    if Drained(w, n) && v < |h| && Mark(w, n) > 0 {
      ClosureMaxStays(w.truth, n, h, v - 1, w.clock);
    }
  }

  lemma CloseOneKeepsSlot(w: World, f: Fetch, m: nat, n: nat, p: Timing)
    requires HistoryOk(w, n) && SlotOk(w, n, p) && FetchOk(w, f, p) && Enabled(w, CloseOne(f, m), p)
    ensures SlotOk(Next(w, CloseOne(f, m), p), n, p)
  {
    if n == m {
      CloseOneHere(w, f, n, p);
    } else {
      CloseElsewhere(w, m, Some(Hist(w, m)[Seen(f, m) - 1].updated), n, p);
    }
  }

  ghost predicate SameSlot(w: World, u: World, n: nat) {
    && Hist(w, n) == Hist(u, n) && Base(w, n) == Base(u, n) && Mark(w, n) == Mark(u, n)
    && w.clock == u.clock && w.synced == u.synced && w.stored == u.stored
    && Lookup(w.truth, n) == Lookup(u.truth, n)
    && (n in w.truth.closures <==> n in u.truth.closures)
    && (n in w.truth.closures ==> w.truth.closures[n] == u.truth.closures[n])
  }

  lemma SlotFrame(w: World, u: World, n: nat, p: Timing)
    requires SlotOk(w, n, p) && SameSlot(w, u, n)
    ensures SlotOk(u, n, p)
  {
  }

  /** An org sync leaves every slot as a complete list absorb does. */
  lemma SyncKeepsSlot(w: World, f: Fetch, prs: seq<Row>, now: int, n: nat, p: Timing)
    requires WithinGrace(p) && Enabled(w, SyncRepo(f, prs, now), p) && FetchOk(w, f, p)
    requires HistoryOk(w, n) && SlotOk(w, n, p)
    ensures SlotOk(Next(w, SyncRepo(f, prs, now), p), n, p)
  {
    AbsorbKeepsSlot(w, f, prs, true, now, 0, n, p);
    SlotFrame(Next(w, Absorb(f, prs, true, now, 0), p), Next(w, SyncRepo(f, prs, now), p), n, p);
  }

  lemma DeliverElsewhere(w: World, m: nat, i: nat, pr: Row, n: nat, p: Timing)
    requires SlotOk(w, n, p) && n != m && Enabled(w, Deliver(m, i, pr), p)
    ensures SlotOk(Next(w, Deliver(m, i, pr), p), n, p)
  {
    var v, u := Hist(w, m)[i], Delivered(w, m, i, pr);
    if Behind(w, m, i) || v.open {
      SlotFrame(w, u, n, p);
    } else {
      CloseElsewhere(w, m, Some(v.updated), n, p);
      SlotFrame(w.(truth := Closed(w.truth, m, Some(v.updated), w.clock)), u, n, p);
    }
  }

  /** What passes the watermark below the newest delivered version is of its second; a close there is followed by
      closes only. */
  lemma SameSecondSameState(w: World, n: nat, i: nat)
    requires HistoryOk(w, n) && i < |Hist(w, n)| && !Behind(w, n, i)
    ensures var h, m := Hist(w, n), Mark(w, n);
            i + 1 < m ==> h[i].updated == h[m - 1].updated && (h[m - 1].open ==> h[i].open)
  {
    var h, m := Hist(w, n), Mark(w, n);
    assert i + 1 < m ==> Follows(h[i], h[m - 1]);
  }

  /** An open view of the second in which the PR then closed is refused by the recorded close. */
  lemma TiedOpenIsRefused(w: World, n: nat, i: nat, pr: Row, p: Timing)
    requires HistoryOk(w, n) && SlotOk(w, n, p) && Enabled(w, Deliver(n, i, pr), p)
    requires !Behind(w, n, i) && Hist(w, n)[i].open && Mark(w, n) == |Hist(w, n)| && !OpenAt(Hist(w, n), |Hist(w, n)|)
    ensures Blocks(w.truth, pr)
  {
    var h := Hist(w, n);
    SameSecondSameState(w, n, i);
    SecMonotone(w.clock - ClosureRetention * NS, h[|h| - 1].at);
    assert CloseRemembered(w.truth, h, n, w.clock);
  }

  lemma DeliverOpenHere(w: World, n: nat, i: nat, pr: Row, p: Timing)
    requires HistoryOk(w, n) && SlotOk(w, n, p) && Enabled(w, Deliver(n, i, pr), p)
    requires !Behind(w, n, i) && Hist(w, n)[i].open
    ensures SlotOk(Next(w, Deliver(n, i, pr), p), n, p)
  {
    var h := Hist(w, n);
    SameSecondSameState(w, n, i);
    TouchedRecently(w, n, w.clock, p);
    if h[|h| - 1].open {
      if h[i].updated == h[|h| - 1].updated {
        NewestUnblocked(w.truth, h, n, pr);
      }
    } else if Mark(w, n) == |h| {
      TiedOpenIsRefused(w, n, i, pr, p);
    }
  }

  lemma DeliverClosedHere(w: World, n: nat, i: nat, pr: Row, p: Timing)
    requires HistoryOk(w, n) && SlotOk(w, n, p) && Enabled(w, Deliver(n, i, pr), p)
    requires !Behind(w, n, i) && !Hist(w, n)[i].open
    ensures SlotOk(Next(w, Deliver(n, i, pr), p), n, p)
  {
    SameSecondSameState(w, n, i);
    ClosedHere(w.truth, n, i, w.clock, Hist(w, n));
  }

  lemma DeliverKeepsSlot(w: World, m: nat, i: nat, pr: Row, n: nat, p: Timing)
    requires HistoryOk(w, n) && SlotOk(w, n, p) && Enabled(w, Deliver(m, i, pr), p)
    ensures SlotOk(Next(w, Deliver(m, i, pr), p), n, p)
  {
    if n == m {
      if !Behind(w, n, i) {
        if Hist(w, n)[i].open {
          DeliverOpenHere(w, n, i, pr, p);
        } else {
          DeliverClosedHere(w, n, i, pr, p);
        }
      }
    } else {
      DeliverElsewhere(w, m, i, pr, n, p);
    }
  }

  lemma TickKeepsSlot(w: World, clock: int, n: nat, p: Timing)
    requires SlotOk(w, n, p) && clock >= w.clock
    ensures SlotOk(w.(clock := clock), n, p)
  {
    SecMonotone(w.clock - ClosureRetention * NS, clock - ClosureRetention * NS);
  }

  lemma HappenKeepsSlot(w: World, m: nat, v: Version, n: nat, p: Timing)
    requires HistoryOk(w, n) && SlotOk(w, n, p) && Enabled(w, Happen(m, v), p)
    ensures SlotOk(Next(w, Happen(m, v), p), n, p)
  {
    if n == m {
      var h := Hist(w, n);
      if n in w.truth.closures {
        var x :| 0 <= x < |h| && !h[x].open && w.truth.closures[n].updated == Some(h[x].updated);
        assert (h + [v])[x] == h[x];
      }
    }
  }

  lemma StepKeepsSlot(w: World, s: Step, n: nat, p: Timing)
    requires WithinGrace(p) && Inv(w, p) && Enabled(w, s, p)
    ensures SlotOk(Next(w, s, p), n, p)
  {
    assert HistoryOk(w, n) && SlotOk(w, n, p);
    match s
    case Tick(clock) => TickKeepsSlot(w, clock, n, p);
    case Happen(m, v) => HappenKeepsSlot(w, m, v, n, p);
    case Deliver(m, i, pr) => DeliverKeepsSlot(w, m, i, pr, n, p);
    case Answer(f) =>
    case Absorb(f, prs, complete, now, ttl) => AbsorbKeepsSlot(w, f, prs, complete, now, ttl, n, p);
    case SyncRepo(f, prs, now) => SyncKeepsSlot(w, f, prs, now, n, p);
    case AbsorbOne(f, pr) => AbsorbOneKeepsSlot(w, f, pr, n, p);
    case CloseOne(f, m) => CloseOneKeepsSlot(w, f, m, n, p);
  }

  lemma HappenKeepsHistory(w: World, m: nat, v: Version, n: nat, p: Timing)
    requires HistoryOk(w, n) && Enabled(w, Happen(m, v), p)
    ensures HistoryOk(Next(w, Happen(m, v), p), n)
  {
    var h, u := Hist(w, n), Next(w, Happen(m, v), p);
    assert Base(u, n) == Base(w, n) && Mark(u, n) == Mark(w, n) && u.clock == w.clock && u.watch == w.watch;
    if n == m {
      var g := h + [v];
      assert Hist(u, n) == g;
      forall i, j | 0 <= i < j < |g| ensures Follows(g[i], g[j]) {
        if j == |h| && i < |h| - 1 {
          assert Follows(h[i], h[|h| - 1]);
        }
      }
    } else {
      assert Hist(u, n) == h;
    }
  }

  lemma StepKeepsHistory(w: World, s: Step, n: nat, p: Timing)
    requires HistoryOk(w, n) && Enabled(w, s, p)
    ensures HistoryOk(Next(w, s, p), n)
  {
    if s.Happen? {
      HappenKeepsHistory(w, s.n, s.v, n, p);
    } else {
      var w' := Next(w, s, p);
      assert Hist(w', n) == Hist(w, n) && Base(w', n) == Base(w, n);
      assert Mark(w', n) == Mark(w, n) || (s.Deliver? && Mark(w', n) == s.i + 1);
    }
  }

  lemma StepKeepsFetches(w: World, s: Step, f: Fetch, p: Timing)
    requires (f in w.fetches ==> FetchOk(w, f, p)) && Enabled(w, s, p) && f in Next(w, s, p).fetches
    ensures FetchOk(Next(w, s, p), f, p)
  {
  }

  /** Only a complete answer sets the marker. */
  lemma StepKeepsMarked(w: World, s: Step, p: Timing)
    requires Enabled(w, s, p) && Marked(w)
    ensures Marked(Next(w, s, p))
  {
    match s
    case Absorb(f, prs, complete, now, ttl) => UpsertAllKeepsMarker(w.truth, prs, Sec(now));
    case _ =>
  }

  lemma StepKeepsInv(w: World, s: Step, p: Timing)
    requires WithinGrace(p) && Inv(w, p) && Enabled(w, s, p)
    ensures Inv(Next(w, s, p), p)
  {
    forall n: nat ensures HistoryOk(Next(w, s, p), n) { StepKeepsHistory(w, s, n, p); }
    forall n: nat ensures SlotOk(Next(w, s, p), n, p) { StepKeepsSlot(w, s, n, p); }
    forall f | f in Next(w, s, p).fetches ensures FetchOk(Next(w, s, p), f, p) { StepKeepsFetches(w, s, f, p); }
    StepKeepsMarked(w, s, p);
  }

  lemma InitInv(w: World, p: Timing)
    requires Init(w)
    ensures Inv(w, p)
  {
  }

  /** What a delivery does: behind the watermark by a second or more, nothing; otherwise it is written and the watermark
      is at the newest version delivered so far. The newest version of all is never behind, and drains the PR. */
  lemma DeliveryReads(w: World, n: nat, i: nat, pr: Row, p: Timing)
    requires HistoryOk(w, n) && Enabled(w, Deliver(n, i, pr), p)
    ensures var h, m, u := Hist(w, n), Mark(w, n), Next(w, Deliver(n, i, pr), p);
            var behind := m > 0 && h[i].updated < h[m - 1].updated;
            && (behind ==> u == w)
            && (!behind ==> && Mark(u, n) == (if i >= m then i + 1 else m)
                            && u.truth == (if h[i].open then UpsertTx(w.truth, pr, w.clock / 1_000_000_000)
                                           else Closed(w.truth, n, Some(h[i].updated), w.clock)))
            && (i == |h| - 1 ==> !behind && Drained(u, n))
  {
    var h, m := Hist(w, n), Mark(w, n);
    assert m > 0 && m < |h| ==> Follows(h[m - 1], h[|h| - 1]);
  }

  // ---- Every run ----

  /** The run follows the steps, each enabled where it is taken. */
  ghost predicate IsRun(ws: seq<World>, ss: seq<Step>, p: Timing) {
    && |ws| == |ss| + 1 && Init(ws[0])
    && forall i :: 0 <= i < |ss| ==> Enabled(ws[i], ss[i], p) && ws[i + 1] == Next(ws[i], ss[i], p)
  }

  lemma {:induction false} RunKeepsInv(ws: seq<World>, ss: seq<Step>, p: Timing, i: nat)
    requires WithinGrace(p) && IsRun(ws, ss, p) && i < |ws|
    ensures Inv(ws[i], p)
  {
    if i == 0 {
      InitInv(ws[0], p);
    } else {
      RunKeepsInv(ws, ss, p, i - 1);
      StepKeepsInv(ws[i - 1], ss[i - 1], p);
    }
  }

  /** GitHub's open set, among the PRs it knows. */
  ghost predicate OpenNow(w: World, n: nat) { OpenAt(Hist(w, n), |Hist(w, n)|) }

  /** After any run of events, deliveries in any order, and overlapping stale fetches: once a complete list has been
      absorbed, every PR whose newest version has been delivered is stored exactly when GitHub has it open. */
  lemma DrainedIsExact(ws: seq<World>, ss: seq<Step>, p: Timing, i: nat, n: nat)
    requires WithinGrace(p) && IsRun(ws, ss, p) && i < |ws|
    requires ws[i].synced && Drained(ws[i], n)
    ensures n in ws[i].truth.rows <==> OpenNow(ws[i], n)
  {
    RunKeepsInv(ws, ss, p, i);
    assert SlotOk(ws[i], n, p);
  }

  /** In particular, when nothing is pending the stored numbers are GitHub's open set. */
  lemma AllDrainedIsExact(ws: seq<World>, ss: seq<Step>, p: Timing, i: nat)
    requires WithinGrace(p) && IsRun(ws, ss, p) && i < |ws|
    requires ws[i].synced && forall n: nat :: Drained(ws[i], n)
    ensures forall n: nat :: n in ws[i].truth.rows <==> OpenNow(ws[i], n)
  {
    forall n: nat ensures n in ws[i].truth.rows <==> OpenNow(ws[i], n) {
      DrainedIsExact(ws, ss, p, i, n);
    }
  }

  /** What the list-complete marker promises its reader: while it is fresh and nothing is pending, the rows are the
      open set, with no row missing and none to spare. After a restart this takes that the kept marker has run out and
      that no list was fetched within the grace window of the stored rows; an empty store has neither. */
  lemma FreshMarkerMeansExact(ws: seq<World>, ss: seq<Step>, p: Timing, i: nat)
    requires WithinGrace(p) && IsRun(ws, ss, p) && i < |ws|
    requires ListFresh(ws[i].truth, ws[i].clock) && forall n: nat :: Drained(ws[i], n)
    requires ws[i].kept.Some? ==> ws[i].kept.value * NS <= ws[i].clock
    requires forall f :: f in ws[i].fetches ==> !Early(ws[i], f)
    ensures ws[i].truth.rows.Keys == set n | n in ws[i].history && OpenNow(ws[i], n)
  {
    RunKeepsInv(ws, ss, p, i);
    assert Marked(ws[i]);
    AllDrainedIsExact(ws, ss, p, i);
    assert forall n: nat :: n in ws[i].truth.rows <==> n in ws[i].history && OpenNow(ws[i], n);
  }

  // ---- A close whose delivery never arrives ----

  /** So long after the newest version that every answer still under way has seen it. */
  ghost predicate Settled(w: World, n: nat, p: Timing) {
    var h := Hist(w, n);
    h != [] && w.clock > h[|h| - 1].at + (p.lag + p.flight) * NS
  }

  lemma SettledSeen(w: World, f: Fetch, n: nat, p: Timing)
    requires Settled(w, n, p) && HistoryOk(w, n) && FetchOk(w, f, p) && Live(w, f, p)
    ensures Seen(f, n) == |Hist(w, n)|
  {
    var h := Hist(w, n);
    forall i | 0 <= i < |h| ensures h[i].at < f.start - p.lag * NS {
      assert i < |h| - 1 ==> Follows(h[i], h[|h| - 1]);
    }
  }

  /** The repair: once the close has settled, a complete list removes the row, delivered or not, exactly when the row
      was not touched within the grace window. The row a restarted mirror finds of a PR closed meanwhile is one case. */
  lemma ListRepairsLostClose(w: World, f: Fetch, prs: seq<Row>, now: int, ttl: int, n: nat, p: Timing)
    requires Inv(w, p) && Enabled(w, Absorb(f, prs, true, now, ttl), p)
    requires n in w.truth.rows && !OpenNow(w, n) && (Settled(w, n, p) || |Hist(w, n)| == Base(w, n))
    ensures n in Next(w, Absorb(f, prs, true, now, ttl), p).truth.rows
            <==> w.truth.rows[n].touched >= Sec(f.start - Grace * NS)
  {
    assert HistoryOk(w, n) && FetchOk(w, f, p);
    SeesBase(w, f, n, p);
    if Settled(w, n, p) {
      SettledSeen(w, f, n, p);
    }
    AbsorbListOmitted(w.truth, prs, true, f.start, now, ttl, n);
  }

  lemma ListedOpenIn(w: World, f: Fetch, prs: seq<Row>, now: int, ttl: int, n: nat, p: Timing)
    requires WithinGrace(p) && Inv(w, p) && Enabled(w, Absorb(f, prs, true, now, ttl), p)
    requires Drained(w, n) && OpenNow(w, n)
    ensures n in Next(w, Absorb(f, prs, true, now, ttl), p).truth.rows
  {
    assert HistoryOk(w, n) && SlotOk(w, n, p) && FetchOk(w, f, p);
    SeesBase(w, f, n, p);
    AbsorbKeepsSlot(w, f, prs, true, now, ttl, n, p);
    if Seen(f, n) == |Hist(w, n)| {
      var k :| 0 <= k < |prs| && prs[k].number == n;
      NewestUnblocked(w.truth, Hist(w, n), n, prs[k]);
      AbsorbListListed(w.truth, prs, true, f.start, now, ttl, k);
    }
  }

  lemma UnlistedClosedOut(w: World, f: Fetch, prs: seq<Row>, now: int, ttl: int, n: nat, p: Timing)
    requires WithinGrace(p) && Inv(w, p) && Enabled(w, Absorb(f, prs, true, now, ttl), p)
    requires Drained(w, n) && !OpenNow(w, n)
    ensures n in Next(w, Absorb(f, prs, true, now, ttl), p).truth.rows
            <==> n in w.truth.rows && w.truth.rows[n].touched >= Sec(f.start - Grace * NS)
  {
    assert HistoryOk(w, n) && SlotOk(w, n, p) && FetchOk(w, f, p);
    SeesBase(w, f, n, p);
    if n in w.truth.rows {
      ListRepairsLostClose(w, f, prs, now, ttl, n, p);
    } else {
      AbsorbKeepsSlot(w, f, prs, true, now, ttl, n, p);
      if Mark(w, n) == 0 {
        AbsorbListOmitted(w.truth, prs, true, f.start, now, ttl, n);
      }
    }
  }

  /** A complete list with nothing pending leaves GitHub's open set exactly when every stored row of a PR that closed
      unwatched was last touched before the list's cutoff. */
  lemma CompleteListExactIff(w: World, f: Fetch, prs: seq<Row>, now: int, ttl: int, p: Timing)
    requires WithinGrace(p) && Inv(w, p) && Enabled(w, Absorb(f, prs, true, now, ttl), p)
    requires forall n: nat :: Drained(w, n)
    ensures (forall n: nat :: n in Next(w, Absorb(f, prs, true, now, ttl), p).truth.rows <==> OpenNow(w, n))
            <==> forall n :: n in w.truth.rows && !OpenNow(w, n) ==> w.truth.rows[n].touched < Sec(f.start - Grace * NS)
  {
    forall n: nat | OpenNow(w, n) ensures n in Next(w, Absorb(f, prs, true, now, ttl), p).truth.rows {
      ListedOpenIn(w, f, prs, now, ttl, n, p);
    }
    forall n: nat | !OpenNow(w, n)
      ensures n in Next(w, Absorb(f, prs, true, now, ttl), p).truth.rows
              <==> n in w.truth.rows && w.truth.rows[n].touched >= Sec(f.start - Grace * NS)
    {
      UnlistedClosedOut(w, f, prs, now, ttl, n, p);
    }
  }

  lemma StepKeepsOut(w: World, s: Step, n: nat, p: Timing)
    requires Inv(w, p) && Enabled(w, s, p) && Settled(w, n, p) && !OpenNow(w, n) && n !in w.truth.rows
    requires !(s.Happen? && s.n == n) && !(s.Deliver? && s.n == n)
    ensures var u := Next(w, s, p); Hist(u, n) == Hist(w, n) && Settled(u, n, p) && n !in u.truth.rows
  {
    assert HistoryOk(w, n);
    match s
    case Absorb(f, prs, complete, now, ttl) =>
      SettledSeen(w, f, n, p);
      AbsorbListOmitted(w.truth, prs, complete, f.start, now, ttl, n);
    case SyncRepo(f, prs, now) =>
      SettledSeen(w, f, n, p);
      UpsertAllElsewhere(w.truth, prs, Sec(now), n);
    case AbsorbOne(f, pr) =>
      SettledSeen(w, f, n, p);
    case _ =>
  }

  /** The repair holds: after the close has settled, a row that is gone stays gone over every run that brings no
      delivery and no new version of the PR, whatever answers arrive. */
  lemma {:induction false} RepairHolds(ws: seq<World>, ss: seq<Step>, p: Timing, i: nat, j: nat, n: nat)
    requires WithinGrace(p) && IsRun(ws, ss, p) && i <= j < |ws|
    requires Settled(ws[i], n, p) && !OpenNow(ws[i], n) && n !in ws[i].truth.rows
    requires forall k :: i <= k < j ==> !(ss[k].Happen? && ss[k].n == n) && !(ss[k].Deliver? && ss[k].n == n)
    ensures Hist(ws[j], n) == Hist(ws[i], n) && Settled(ws[j], n, p) && n !in ws[j].truth.rows
    decreases j
  {
    if i < j {
      RepairHolds(ws, ss, p, i, j - 1, n);
      RunKeepsInv(ws, ss, p, j - 1);
      StepKeepsOut(ws[j - 1], ss[j - 1], n, p);
    }
  }

  /** The repair is undone: the reconcile records no closure, so an older open view that lands after it brings the row
      back exactly when no closure already on record refuses it. */
  lemma RepairUndoneIff(t: Truth, prs: seq<Row>, fetchStart: int, now: int, ttl: int, late: Row, touched: int)
    requires forall i :: 0 <= i < |prs| ==> prs[i].number != late.number
    requires late.number in t.rows && t.rows[late.number].touched < Sec(fetchStart - Grace * NS)
    ensures var repaired := AbsorbList(t, prs, true, fetchStart, now, ttl);
            && late.number !in repaired.rows
            && (late.number in UpsertTx(repaired, late, touched).rows <==>
                  late.number in t.closures ==>
                    late.updated.Some? && (t.closures[late.number].updated.Some? ==>
                      late.updated.value > t.closures[late.number].updated.value))
  {
    AbsorbListOmitted(t, prs, true, fetchStart, now, ttl, late.number);
  }

  // ---- Where the protocol gives way ----

  /** A single-PR answer saying closed is written unconditionally. It keeps the PR's slot right exactly when the PR is
      not already known to be open again: a reopen delivered while the answer was under way is lost. */
  lemma StaleCloseLosesReopen(w: World, f: Fetch, n: nat, p: Timing)
    requires Inv(w, p) && w.synced && f in w.fetches
    requires 0 < Seen(f, n) <= |Hist(w, n)| && !OpenAt(Hist(w, n), Seen(f, n))
    ensures var h := Hist(w, n);
            var after := w.(truth := Closed(w.truth, n, Some(h[Seen(f, n) - 1].updated), w.clock));
            SlotOk(after, n, p) <==> !(Drained(w, n) && OpenNow(w, n))
  {
    var h, v := Hist(w, n), Seen(f, n);
    assert HistoryOk(w, n) && SlotOk(w, n, p) && FetchOk(w, f, p);
    SeesBase(w, f, n, p);
    ClosedHere(w.truth, n, v - 1, w.clock, h);
    if Drained(w, n) && !OpenNow(w, n) && v < |h| && Mark(w, n) > 0 {
      ClosureMaxStays(w.truth, n, h, v - 1, w.clock);
    }
  }

  /** The guard a single-PR answer could be checked against before it deletes the row: no later second of the PR has
      been delivered. With it the close is always right. */
  lemma GuardedCloseIsSafe(w: World, f: Fetch, n: nat, p: Timing)
    requires Inv(w, p) && w.synced && f in w.fetches
    requires 0 < Seen(f, n) <= |Hist(w, n)| && !OpenAt(Hist(w, n), Seen(f, n))
    requires Mark(w, n) == 0
             || (Mark(w, n) <= |Hist(w, n)| && Hist(w, n)[Mark(w, n) - 1].updated <= Hist(w, n)[Seen(f, n) - 1].updated)
    ensures SlotOk(w.(truth := Closed(w.truth, n, Some(Hist(w, n)[Seen(f, n) - 1].updated), w.clock)), n, p)
  {
    var h, v := Hist(w, n), Seen(f, n);
    assert HistoryOk(w, n) && FetchOk(w, f, p);
    SeesBase(w, f, n, p);
    assert v < |h| ==> Follows(h[v - 1], h[|h| - 1]);
    StaleCloseLosesReopen(w, f, n, p);
  }

  /** A close older than the one on record leaves the record's bar where it was. */
  lemma ClosureMaxStays(t: Truth, n: nat, h: seq<Version>, x: nat, now: int)
    requires x < |h| && ClosureOk(t, h, n) && CloseRemembered(t, h, n, now)
    requires InOrder(h)
    requires forall i :: 0 <= i < |h| ==> h[i].at <= now
    ensures CloseRemembered(Closed(t, n, Some(h[x].updated), now), h, n, now)
  {
    SecMonotone(h[|h| - 1].at, now);
    SecMonotone(now - ClosureRetention * NS, now);
  }

  /** Which views are written after a close: those stamped strictly later than the close and than any bar already on
      record. A reopen within the close's own second is refused, and so is a view without a stamp. */
  lemma ReopenRefusedIff(t: Truth, pr: Row, updated: Option<int>, now: int, later: int)
    ensures var n := pr.number;
            var closed, prior := Closed(t, n, updated, now), if n in t.closures then t.closures[n].updated else None;
            var accepted := pr.updated.Some? && (updated.Some? ==> pr.updated.value > updated.value)
                            && (prior.Some? ==> pr.updated.value > prior.value);
            && (n in UpsertTx(closed, pr, later).rows <==> accepted)
            && (UpsertTx(closed, pr, later) == closed <==> !accepted)
  {
    SecMonotone(now - ClosureRetention * NS, now);
  }

  /** Why a handler's hold is bounded. A list absorb stamps rows with the handler's own reading, taken before its
      fetch: after a slow handler, a second answer that had not yet seen the PR keeps it exactly when that reading is
      inside the second answer's grace window, however recently the PR was delivered. */
  lemma SlowHandlerBackdatesRow(t: Truth, pr: Row, start1: int, began: int, start2: int, now2: int, ttl: int)
    requires !Blocks(t, pr)
    ensures var once := AbsorbList(t, [pr], true, start1, began, ttl);
            pr.number in AbsorbList(once, [], true, start2, now2, ttl).rows <==> Sec(began) >= Sec(start2 - Grace * NS)
  {
    AbsorbListListed(t, [pr], true, start1, began, ttl, 0);
    AbsorbListOmitted(AbsorbList(t, [pr], true, start1, began, ttl), [], true, start2, now2, ttl, pr.number);
  }

  /** The open set is exact, the contents need not be: an older view that no closure refuses rewrites a newer row. */
  lemma LateListRewritesRow(t: Truth, pr: Row, start: int, began: int, ttl: int)
    requires pr.number in t.rows
    ensures Lookup(AbsorbList(t, [pr], true, start, began, ttl), pr.number).Some?
    ensures AbsorbList(t, [pr], true, start, began, ttl).rows[pr.number].updated
         == if Blocks(t, pr) then t.rows[pr.number].updated else pr.updated
  {
    AbsorbListListed(t, [pr], true, start, began, ttl, 0);
  }
}
