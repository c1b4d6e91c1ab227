// internal/freshness/manager.go and store.go: coalesced fetches behind a per-resource lock and a stored metadata row.
// The manager's methods are written against one clock reading each; every interleaving of callers, fetches,
// invalidations and clock ticks is a run of the steps below. Clock readings are nanoseconds, stored times seconds.
module Freshness {
  import opened Options

  const NS := 1_000_000_000

  function Sec(now: int): int { now / NS }

  datatype State = Fresh | Stale | Fetching | Failed

  datatype Meta = Meta(state: State, expires: Option<int>, retryAfter: Option<int>)

  datatype Outcome = Hit | Miss | Error

  datatype Policy = Policy(ttl: int, errorRetryMin: int)

  /** Zero means the default of six hours, or of one minute. */
  function TTL(p: Policy): int { if p.ttl == 0 then 6 * 3600 * NS else p.ttl }

  function Retry(p: Policy): int { if p.errorRetryMin == 0 then 60 * NS else p.errorRetryMin }

  predicate Usable(m: Option<Meta>, now: int) {
    m.Some? && m.value.state == Fresh && m.value.expires.Some? && m.value.expires.value * NS > now
  }

  /** backoffError. */
  predicate InBackoff(m: Option<Meta>, now: int) {
    m.Some? && m.value.state == Failed && m.value.retryAfter.Some? && now < m.value.retryAfter.value * NS
  }

  /** The row forbids a lazy fetch. */
  predicate Settled(m: Option<Meta>, now: int) { Usable(m, now) || InBackoff(m, now) }

  /** What a lazy caller reports from a settled row. */
  function Verdict(m: Option<Meta>, now: int): Outcome { if Usable(m, now) then Hit else Error }

  /** Upsert of a first row, or MarkFetching. */
  function Begun(m: Option<Meta>): Meta {
    if m.None? then Meta(Fetching, None, None) else m.value.(state := Fetching)
  }

  /** MarkFresh or MarkError. */
  function Ended(m: Meta, ok: bool, p: Policy, now: int): Meta {
    if ok then Meta(Fresh, Some(Sec(now + TTL(p))), None)
    else m.(state := Failed, retryAfter := Some(Sec(now + Retry(p))))
  }

  function Row(rows: map<string, Meta>, r: string): Option<Meta> { if r in rows then Some(rows[r]) else None }

  /** How long a row holds a lazy caller off: after a success until the whole second the policy's time to live reaches
      (six hours unless set), after a failure likewise for its retry time (a minute unless set). */
  lemma HowLongSettled(m: Meta, p: Policy, now: int, later: int)
    ensures var ttl := if p.ttl == 0 then 21_600 * 1_000_000_000 else p.ttl;
            && (Usable(Some(Ended(m, true, p, now)), later) <==> later < (now + ttl) / 1_000_000_000 * 1_000_000_000)
            && !InBackoff(Some(Ended(m, true, p, now)), later)
    ensures var retry := if p.errorRetryMin == 0 then 60 * 1_000_000_000 else p.errorRetryMin;
            && (InBackoff(Some(Ended(m, false, p, now)), later)
                <==> later < (now + retry) / 1_000_000_000 * 1_000_000_000)
            && !Usable(Some(Ended(m, false, p, now)), later)
    ensures !Settled(None, later) && !Settled(Some(Begun(Some(m))), later) && !Settled(Some(m.(state := Stale)), later)
  {
  }

  // ---- One caller on its own ----

  class Manager {
    var policies: map<string, Policy>
    var rows: map<string, Meta>
    var inflight: nat
    ghost var calls: seq<string>

    constructor ()
      ensures policies == map[] && rows == map[] && inflight == 0 && calls == []
    {
      policies, rows, inflight, calls := map[], map[], 0, [];
    }

    /** doFetch; `ok` is what the upstream will answer. The count is back where it was on every path. */
    method DoFetch(r: string, lazy: bool, ok: bool, now: int) returns (out: Outcome)
      modifies `rows, `inflight, `calls
      ensures inflight == old(inflight)
      ensures r !in policies ==> out == Hit && rows == old(rows) && calls == old(calls)
      ensures r in policies && lazy && Settled(Row(old(rows), r), now) ==>
                out == Verdict(Row(old(rows), r), now) && rows == old(rows) && calls == old(calls)
      ensures r in policies && !(lazy && Settled(Row(old(rows), r), now)) ==>
                out == (if ok then Miss else Error) && calls == old(calls) + [r]
                && rows == old(rows)[r := Ended(Begun(Row(old(rows), r)), ok, policies[r], now)]
    {
      if r !in policies {
        return Hit;
      }
      inflight := inflight + 1;
      var meta := if r in rows then Some(rows[r]) else None;
      if lazy && Usable(meta, now) {
        inflight := inflight - 1;
        return Hit;
      }
      if lazy && InBackoff(meta, now) {
        inflight := inflight - 1;
        return Error;
      }
      rows := rows[r := Begun(meta)];
      calls := calls + [r];
      rows := rows[r := Ended(rows[r], ok, policies[r], now)];
      inflight := inflight - 1;
      return if ok then Miss else Error;
    }

    /** EnsureFreshOutcome. Hit means no upstream call (fresh, or no fetcher), Miss exactly one, which succeeded. */
    method EnsureFreshOutcome(r: string, ok: bool, now: int) returns (out: Outcome)
      modifies `rows, `inflight, `calls
      ensures inflight == old(inflight)
      ensures out == Hit ==> calls == old(calls) && rows == old(rows)
      ensures out == Miss ==> ok && r in policies && calls == old(calls) + [r]
      ensures out == Miss ==>
                r in policies && Row(rows, r) == Some(Meta(Fresh, Some(Sec(now + TTL(policies[r]))), None))
      ensures Settled(Row(old(rows), r), now) ==> out == Verdict(Row(old(rows), r), now) && calls == old(calls)
      ensures !Settled(Row(old(rows), r), now) && r in policies ==> calls == old(calls) + [r] && (out == Miss <==> ok)
    {
      var meta := if r in rows then Some(rows[r]) else None;
      if Usable(meta, now) {
        return Hit;
      }
      if InBackoff(meta, now) {
        return Error;
      }
      out := DoFetch(r, true, ok, now);
    }

    /** Invalidate. */
    method Invalidate(r: string)
      modifies `rows
      ensures rows == if r in old(rows) then old(rows)[r := old(rows)[r].(state := Stale)] else old(rows)
    {
      if r in rows {
        rows := rows[r := rows[r].(state := Stale)];
      }
    }
  }

  // ---- Every interleaving ----

  /** Where a caller is: reading the row, entering doFetch, behind the lock, reading again, marking, calling,
      leaving. */
  datatype PC =
    | Checking | Entering | Blocked | Rechecking | Marking | Ready | Calling
    | Leaving(out: Outcome)
    | Finished(result: Outcome)

  /** `calls` and `ok` record what the caller did upstream. */
  datatype Caller = Caller(r: string, lazy: bool, pc: PC, calls: nat, ok: bool)

  /** One resource: its row, its lock, the upstream calls made for it and whether one is under way. */
  datatype Slot = Slot(row: Option<Meta>, holder: Option<nat>, calls: nat, busy: bool)

  datatype World = World(clock: int, policies: map<string, Policy>, slots: map<string, Slot>,
                         callers: map<nat, Caller>, inflight: int)

  datatype Step =
    | Tick(clock: int)
    | Invalidate(r: string)
    | Arrive(x: nat, r: string, lazy: bool)
    | Advance(x: nat, ok: bool)                    // ok matters only when an upstream call returns

  predicate Answered(pc: PC) { pc.Leaving? || pc.Finished? }

  predicate InBody(c: Caller) { !c.pc.Checking? && !c.pc.Entering? && !c.pc.Finished? }

  predicate HoldsLock(c: Caller) { InBody(c) && !c.pc.Blocked? }

  function SlotOf(w: World, r: string): Slot { if r in w.slots then w.slots[r] else Slot(None, None, 0, false) }

  function PolicyOf(w: World, r: string): Option<Policy> { if r in w.policies then Some(w.policies[r]) else None }

  predicate Enabled(w: World, s: Step) {
    match s
    case Tick(clock) => clock >= w.clock
    case Invalidate(_) => true
    case Arrive(x, _, _) => x !in w.callers
    case Advance(x, _) => x in w.callers && CanMove(SlotOf(w, w.callers[x].r), w.callers[x])
  }

  predicate CanMove(s: Slot, c: Caller) { !c.pc.Finished? && (c.pc.Blocked? ==> s.holder.None?) }

  /** One caller moves on by one atomic stretch of code. */
  function Move(s: Slot, c: Caller, x: nat, p: Option<Policy>, clock: int, ok: bool): (Slot, Caller)
    requires CanMove(s, c)
  {
    match c.pc
    case Checking => (s, c.(pc := if Settled(s.row, clock) then Finished(Verdict(s.row, clock)) else Entering))
    case Entering => (s, c.(pc := if p.None? then Finished(Hit) else Blocked))
    case Blocked => (s.(holder := Some(x)), c.(pc := if c.lazy then Rechecking else Marking))
    case Rechecking => (s, c.(pc := if Settled(s.row, clock) then Leaving(Verdict(s.row, clock)) else Marking))
    case Marking => (s.(row := Some(Begun(s.row))), c.(pc := Ready))
    case Ready => (s.(calls := s.calls + 1, busy := true), c.(pc := Calling, calls := c.calls + 1))
    case Calling =>
      (s.(busy := false, row := Some(Ended(Begun(s.row), ok, if p.Some? then p.value else Policy(0, 0), clock))),
       c.(pc := Leaving(if ok then Miss else Error), ok := ok))
    case Leaving(out) => (s.(holder := None), c.(pc := Finished(out)))
    case Finished(_) => (s, c)
  }

  /** doFetch counts itself in when it starts and out when it leaves. */
  function Delta(c: Caller, p: Option<Policy>): int {
    if c.pc.Entering? && p.Some? then 1 else if c.pc.Leaving? then -1 else 0
  }

  function Next(w: World, s: Step): World
    requires Enabled(w, s)
  {
    match s
    case Tick(clock) => w.(clock := clock)
    case Invalidate(r) =>
      var slot := SlotOf(w, r);
      if slot.row.None? then w else w.(slots := w.slots[r := slot.(row := Some(slot.row.value.(state := Stale)))])
    case Arrive(x, r, lazy) =>
      w.(callers := w.callers[x := Caller(r, lazy, if lazy then Checking else Entering, 0, false)])
    case Advance(x, ok) =>
      var c := w.callers[x];
      var (slot, d) := Move(SlotOf(w, c.r), c, x, PolicyOf(w, c.r), w.clock, ok);
      w.(slots := w.slots[c.r := slot], callers := w.callers[x := d],
         inflight := w.inflight + Delta(c, PolicyOf(w, c.r)))
  }

  function Rank(pc: PC): nat {
    match pc
    case Checking => 8 case Entering => 7 case Blocked => 6 case Rechecking => 5 case Marking => 4
    case Ready => 3 case Calling => 2 case Leaving(_) => 1 case Finished(_) => 0
  }

  /** A caller nobody interrupts, moved to its end. */
  function Solo(s: Slot, c: Caller, x: nat, p: Option<Policy>, clock: int, ok: bool): (Slot, Caller)
    requires Rank(c.pc) >= 6 ==> s.holder.None?
    decreases Rank(c.pc)
  {
    if c.pc.Finished? then (s, c) else
      var (t, d) := Move(s, c, x, p, clock, ok);
      Solo(t, d, x, p, clock, ok)
  }

  /** The steps of one uninterrupted caller do what DoFetch's contract says. */
  lemma SoloIsDoFetch(s: Slot, x: nat, r: string, lazy: bool, p: Option<Policy>, clock: int, ok: bool)
    requires s.holder.None? && !s.busy
    ensures var (t, d) := Solo(s, Caller(r, lazy, Entering, 0, false), x, p, clock, ok);
            && d.pc.Finished? && t.holder.None? && !t.busy
            && (p.None? ==> t == s && d.pc.result == Hit)
            && (p.Some? && lazy && Settled(s.row, clock) ==> t == s && d.pc.result == Verdict(s.row, clock))
            && (p.Some? && !(lazy && Settled(s.row, clock)) ==>
                  && t.row == Some(Ended(Begun(s.row), ok, p.value, clock)) && t.calls == s.calls + 1
                  && d.pc.result == (if ok then Miss else Error))
  {
    var c := Caller(r, lazy, Entering, 0, false);
    var (s1, c1) := Move(s, c, x, p, clock, ok);
    assert Solo(s, c, x, p, clock, ok) == Solo(s1, c1, x, p, clock, ok);
    if c1.pc.Blocked? {
      var (s2, c2) := Move(s1, c1, x, p, clock, ok);
      var (s3, c3) := if lazy then Move(s2, c2, x, p, clock, ok) else (s2, c2);
      assert Solo(s1, c1, x, p, clock, ok) == Solo(s2, c2, x, p, clock, ok) == Solo(s3, c3, x, p, clock, ok);
      SoloFromLock(s3, c3, x, p, clock, ok);
    }
  }

  lemma SoloFromLock(s: Slot, c: Caller, x: nat, p: Option<Policy>, clock: int, ok: bool)
    requires c.pc.Marking? || c.pc.Leaving?
    ensures var (t, d) := Solo(s, c, x, p, clock, ok);
            && d.pc.Finished? && t.holder.None?
            && (c.pc.Leaving? ==> t == s.(holder := None) && d.pc.result == c.pc.out)
            && (c.pc.Marking? && p.Some? ==>
                  && t == Slot(Some(Ended(Begun(s.row), ok, p.value, clock)), None, s.calls + 1, false)
                  && d.pc.result == (if ok then Miss else Error))
    decreases Rank(c.pc)
  {
    var (s1, c1) := Move(s, c, x, p, clock, ok);
    assert Solo(s, c, x, p, clock, ok) == Solo(s1, c1, x, p, clock, ok);
    if c.pc.Marking? {
      var (s2, c2) := Move(s1, c1, x, p, clock, ok);
      var (s3, c3) := Move(s2, c2, x, p, clock, ok);
      assert Solo(s1, c1, x, p, clock, ok) == Solo(s2, c2, x, p, clock, ok) == Solo(s3, c3, x, p, clock, ok);
      SoloFromLock(s3, c3, x, p, clock, ok);
    }
  }

  /** The callers inside doFetch. */
  ghost function Bodies(w: World): set<nat> { set x | x in w.callers && InBody(w.callers[x]) }

  /** Hit: no call was made. Miss: exactly one, and it succeeded. Error: at most one, and none succeeded. */
  predicate OutcomeOk(c: Caller, out: Outcome) {
    match out
    case Hit => c.calls == 0
    case Miss => c.calls == 1 && c.ok
    case Error => c.calls == 0 || (c.calls == 1 && !c.ok)
  }

  predicate PastReading(c: Caller) { c.pc.Marking? || c.pc.Ready? || c.pc.Calling? }

  /** In particular a lazy caller is never past its second reading over a settled row. */
  ghost predicate CallerOk(s: Slot, c: Caller, x: nat, clock: int) {
    && (HoldsLock(c) <==> s.holder == Some(x))
    && (s.holder == Some(x) ==> (s.busy <==> c.pc.Calling?))
    && (c.pc.Leaving? ==> OutcomeOk(c, c.pc.out))
    && (c.pc.Finished? ==> OutcomeOk(c, c.pc.result))
    && (c.pc.Calling? ==> c.calls == 1)
    && (!c.pc.Calling? && !c.pc.Leaving? && !c.pc.Finished? ==> c.calls == 0)
    && (c.lazy && Settled(s.row, clock) ==> !PastReading(c))
    && (c.ok ==> Answered(c.pc))
  }

  ghost predicate Inv(w: World) {
    && (forall x :: x in w.callers ==> CallerOk(SlotOf(w, w.callers[x].r), w.callers[x], x, w.clock))
    && (forall r :: r in w.slots && w.slots[r].holder.Some? ==>
          w.slots[r].holder.value in w.callers && w.callers[w.slots[r].holder.value].r == r)
    && (forall r :: r in w.slots && w.slots[r].holder.None? ==> !w.slots[r].busy)
    && w.inflight == |Bodies(w)|
  }

  lemma MoveKeepsSelf(s: Slot, c: Caller, x: nat, p: Option<Policy>, clock: int, ok: bool)
    requires CanMove(s, c) && CallerOk(s, c, x, clock) && (s.holder.None? ==> !s.busy)
    ensures var (t, d) := Move(s, c, x, p, clock, ok);
            CallerOk(t, d, x, clock) && d.r == c.r && (t.holder.None? ==> !t.busy)
            && (t.holder == s.holder || t.holder in {None, Some(x)})
  {
  }

  lemma MoveKeepsOther(s: Slot, c: Caller, x: nat, p: Option<Policy>, clock: int, ok: bool, d: Caller, y: nat)
    requires CanMove(s, c) && CallerOk(s, c, x, clock) && CallerOk(s, d, y, clock) && x != y
    ensures CallerOk(Move(s, c, x, p, clock, ok).0, d, y, clock)
  {
  }

  lemma MoveCounts(s: Slot, c: Caller, x: nat, p: Option<Policy>, clock: int, ok: bool)
    requires CanMove(s, c)
    ensures Delta(c, p) == (if InBody(Move(s, c, x, p, clock, ok).1) then 1 else 0) - (if InBody(c) then 1 else 0)
  {
  }

  lemma BodiesAfter(w: World, x: nat, c: Caller)
    requires w.inflight == |Bodies(w)|
    ensures |Bodies(w.(callers := w.callers[x := c]))|
         == w.inflight + (if InBody(c) then 1 else 0) - (if x in w.callers && InBody(w.callers[x]) then 1 else 0)
  {
    var v := w.(callers := w.callers[x := c]);
    assert Bodies(v) == if InBody(c) then Bodies(w) + {x} else Bodies(w) - {x};
    assert x in Bodies(w) <==> x in w.callers && InBody(w.callers[x]);
  }

  lemma AdvanceKeepsInv(w: World, x: nat, ok: bool)
    requires Inv(w) && Enabled(w, Advance(x, ok))
    ensures Inv(Next(w, Advance(x, ok)))
  {
    var v := Next(w, Advance(x, ok));
    var c := w.callers[x];
    var s, p := SlotOf(w, c.r), PolicyOf(w, c.r);
    var d := Move(s, c, x, p, w.clock, ok).1;
    MoveKeepsSelf(s, c, x, p, w.clock, ok);
    MoveCounts(s, c, x, p, w.clock, ok);
    BodiesAfter(w, x, d);
    assert Bodies(v) == Bodies(w.(callers := w.callers[x := d]));
    forall y | y in v.callers ensures CallerOk(SlotOf(v, v.callers[y].r), v.callers[y], y, v.clock) {
      if y != x && w.callers[y].r == c.r {
        MoveKeepsOther(s, c, x, p, w.clock, ok, w.callers[y], y);
      }
    }
  }

  lemma StepKeepsInv(w: World, s: Step)
    requires Inv(w) && Enabled(w, s)
    ensures Inv(Next(w, s))
  {
    var v := Next(w, s);
    match s {
      case Advance(x, ok) => AdvanceKeepsInv(w, x, ok);
      case Arrive(x, r, lazy) =>
        BodiesAfter(w, x, v.callers[x]);
      case Tick(_) =>
        assert Bodies(v) == Bodies(w);
      case Invalidate(_) =>
        assert Bodies(v) == Bodies(w);
    }
  }

  ghost predicate Init(w: World) {
    w.callers == map[] && w.inflight == 0 && forall r :: r in w.slots ==> w.slots[r].holder.None? && !w.slots[r].busy
  }

  ghost predicate Taken(ws: seq<World>, ss: seq<Step>, i: nat)
    requires |ws| == |ss| + 1 && i < |ss|
  {
    Enabled(ws[i], ss[i]) && ws[i + 1] == Next(ws[i], ss[i])
  }

  ghost predicate Path(ws: seq<World>, ss: seq<Step>) {
    |ws| == |ss| + 1 && forall i :: 0 <= i < |ss| ==> Taken(ws, ss, i)
  }

  ghost predicate IsRun(ws: seq<World>, ss: seq<Step>) { Path(ws, ss) && Init(ws[0]) }

  lemma {:induction false} PathKeepsInv(ws: seq<World>, ss: seq<Step>, i: nat)
    requires Path(ws, ss) && Inv(ws[0]) && i < |ws|
    ensures Inv(ws[i])
  {
    if i > 0 {
      PathKeepsInv(ws, ss, i - 1);
      assert Taken(ws, ss, i - 1);
      StepKeepsInv(ws[i - 1], ss[i - 1]);
    }
  }

  lemma RunKeepsInv(ws: seq<World>, ss: seq<Step>, i: nat)
    requires IsRun(ws, ss) && i < |ws|
    ensures Inv(ws[i])
  {
    assert Bodies(ws[0]) == {};
    PathKeepsInv(ws, ss, i);
  }

  /** At most one upstream call per resource at a time. */
  lemma OneFetchAtATime(ws: seq<World>, ss: seq<Step>, i: nat, x: nat, y: nat)
    requires IsRun(ws, ss) && i < |ws| && x in ws[i].callers && y in ws[i].callers
    requires ws[i].callers[x].pc.Calling? && ws[i].callers[y].pc.Calling? && ws[i].callers[x].r == ws[i].callers[y].r
    ensures x == y
  {
    RunKeepsInv(ws, ss, i);
  }

  /** The outcome a caller reports tells what it did upstream. */
  lemma OutcomesAreHonest(ws: seq<World>, ss: seq<Step>, i: nat, x: nat)
    requires IsRun(ws, ss) && i < |ws| && x in ws[i].callers && ws[i].callers[x].pc.Finished?
    ensures OutcomeOk(ws[i].callers[x], ws[i].callers[x].pc.result)
  {
    RunKeepsInv(ws, ss, i);
  }

  /** Busy and Drain read the number of doFetch bodies that are running. */
  lemma InflightCountsBodies(ws: seq<World>, ss: seq<Step>, i: nat)
    requires IsRun(ws, ss) && i < |ws|
    ensures ws[i].inflight == |Bodies(ws[i])|
  {
    RunKeepsInv(ws, ss, i);
  }

  // ---- Progress ----

  predicate Unfinished(c: Caller) { !c.pc.Finished? }

  /** While a caller is unfinished some caller of its resource can move: itself, or the one it waits for. */
  lemma SomeoneCanMove(w: World, x: nat) returns (y: nat)
    requires Inv(w) && x in w.callers && Unfinished(w.callers[x])
    ensures y in w.callers && w.callers[y].r == w.callers[x].r && forall ok :: Enabled(w, Advance(y, ok))
  {
    var r := w.callers[x].r;
    y := x;
    if w.callers[x].pc.Blocked? && SlotOf(w, r).holder.Some? {
      y := SlotOf(w, r).holder.value;
      assert CallerOk(SlotOf(w, r), w.callers[y], y, w.clock);
    }
  }

  /** What is left to do, over all callers. */
  ghost function Work(callers: map<nat, Caller>): nat {
    if callers == map[] then 0 else
      var x :| x in callers;
      Rank(callers[x].pc) + Work(callers - {x})
  }

  lemma {:induction false} WorkWithout(callers: map<nat, Caller>, x: nat)
    requires x in callers
    ensures Work(callers) == Rank(callers[x].pc) + Work(callers - {x})
    decreases |callers|
  {
    var y :| y in callers && Work(callers) == Rank(callers[y].pc) + Work(callers - {y});
    if y != x {
      WorkWithout(callers - {y}, x);
      WorkWithout(callers - {x}, y);
      assert callers - {y} - {x} == callers - {x} - {y};
    }
  }

  lemma MoveLowersRank(s: Slot, c: Caller, x: nat, p: Option<Policy>, clock: int, ok: bool)
    requires CanMove(s, c)
    ensures Rank(Move(s, c, x, p, clock, ok).1.pc) < Rank(c.pc)
  {
  }

  /** Every move of a caller lowers the work left by at least one, so with no arrivals every caller finishes. */
  lemma MovesLowerWork(w: World, x: nat, ok: bool)
    requires Enabled(w, Advance(x, ok))
    ensures Work(Next(w, Advance(x, ok)).callers) < Work(w.callers)
  {
    var c, v := w.callers[x], Next(w, Advance(x, ok));
    MoveLowersRank(SlotOf(w, c.r), c, x, PolicyOf(w, c.r), w.clock, ok);
    WorkWithout(w.callers, x);
    WorkWithout(v.callers, x);
    assert v.callers - {x} == w.callers - {x};
  }

  // ---- A quiet window ----

  /** Nothing is forced or invalidated. */
  ghost predicate QuietStep(s: Step, r: string) {
    (s.Invalidate? ==> s.r != r) && (s.Arrive? && s.r == r ==> s.lazy)
  }

  /** The row has not run out. */
  ghost predicate Unexpired(row: Option<Meta>, clock: int) {
    row.Some? && (row.value.state == Fresh || row.value.state == Failed) ==> Settled(row, clock)
  }

  /** Whoever has not finished with the resource is lazy. */
  ghost predicate LazyOver(w: World, r: string) {
    forall x :: x in w.callers && w.callers[x].r == r ==> w.callers[x].lazy || w.callers[x].pc.Finished?
  }

  /** At most one call since the window opened; after it the row is settled, or it is still under way. */
  ghost predicate Coalesced(s: Slot, before: nat, clock: int) {
    before <= s.calls <= before + 1 && (s.calls == before + 1 ==> Settled(s.row, clock) || s.busy)
  }

  lemma MoveCoalesces(s: Slot, c: Caller, x: nat, p: Option<Policy>, clock: int, ok: bool, before: nat)
    requires CanMove(s, c) && CallerOk(s, c, x, clock) && c.lazy && Coalesced(s, before, clock)
    requires Unexpired(Move(s, c, x, p, clock, ok).0.row, clock)
    ensures var (t, d) := Move(s, c, x, p, clock, ok);
            Coalesced(t, before, clock) && d.lazy && d.r == c.r
  {
  }

  lemma AdvanceCoalesces(w: World, x: nat, ok: bool, r: string, before: nat)
    requires Inv(w) && Enabled(w, Advance(x, ok)) && LazyOver(w, r) && Coalesced(SlotOf(w, r), before, w.clock)
    requires Unexpired(SlotOf(Next(w, Advance(x, ok)), r).row, w.clock)
    ensures LazyOver(Next(w, Advance(x, ok)), r) && Coalesced(SlotOf(Next(w, Advance(x, ok)), r), before, w.clock)
  {
    var c := w.callers[x];
    MoveKeepsSelf(SlotOf(w, c.r), c, x, PolicyOf(w, c.r), w.clock, ok);
    if c.r == r {
      MoveCoalesces(SlotOf(w, r), c, x, PolicyOf(w, r), w.clock, ok, before);
    }
  }

  lemma QuietKeepsCoalesced(w: World, s: Step, r: string, before: nat)
    requires Inv(w) && Enabled(w, s) && QuietStep(s, r) && LazyOver(w, r) && Coalesced(SlotOf(w, r), before, w.clock)
    requires Unexpired(SlotOf(Next(w, s), r).row, Next(w, s).clock)
    ensures LazyOver(Next(w, s), r) && Coalesced(SlotOf(Next(w, s), r), before, Next(w, s).clock)
  {
    if s.Advance? {
      AdvanceCoalesces(w, s.x, s.ok, r, before);
    }
  }

  /** Step k - 1 of the run was quiet, and the row was live after it. */
  ghost predicate QuietAt(ws: seq<World>, ss: seq<Step>, r: string, k: nat)
    requires |ws| == |ss| + 1 && 0 < k <= |ss|
  {
    QuietStep(ss[k - 1], r) && Unexpired(SlotOf(ws[k], r).row, ws[k].clock)
  }

  /** QuietKeepsCoalesced at one step of a run. */
  lemma WindowStep(ws: seq<World>, ss: seq<Step>, r: string, before: nat, k: nat)
    requires IsRun(ws, ss) && 0 < k < |ws| && QuietAt(ws, ss, r, k)
    requires Inv(ws[k - 1]) && LazyOver(ws[k - 1], r) && Coalesced(SlotOf(ws[k - 1], r), before, ws[k - 1].clock)
    ensures LazyOver(ws[k], r) && Coalesced(SlotOf(ws[k], r), before, ws[k].clock)
  {
    var i := k - 1;
    assert Taken(ws, ss, i);
    QuietKeepsCoalesced(ws[i], ss[i], r, before);
  }

  lemma {:induction false} WindowCoalesced(ws: seq<World>, ss: seq<Step>, r: string, i: nat, j: nat)
    requires IsRun(ws, ss) && i <= j < |ws| && LazyOver(ws[i], r)
    requires forall k :: i < k <= j ==> QuietAt(ws, ss, r, k)
    ensures LazyOver(ws[j], r) && Coalesced(SlotOf(ws[j], r), SlotOf(ws[i], r).calls, ws[j].clock)
    decreases j
  {
    if i < j {
      WindowCoalesced(ws, ss, r, i, j - 1);
      RunKeepsInv(ws, ss, j - 1);
      WindowStep(ws, ss, r, SlotOf(ws[i], r).calls, j);
    }
  }

  function Answer(pc: PC): Outcome
    requires Answered(pc)
  {
    if pc.Leaving? then pc.out else pc.result
  }

  /** Whoever has its answer was told what the row says: without a call the row's own verdict, and after a call Miss
      exactly if the row now says Hit. */
  ghost predicate Told(s: Slot, c: Caller, clock: int) {
    Answered(c.pc) ==>
      Settled(s.row, clock)
      && if c.calls == 0 then Answer(c.pc) == Verdict(s.row, clock)
         else Answer(c.pc) == (if Verdict(s.row, clock) == Hit then Miss else Error)
  }

  /** The callers of the resource that are not among the earlier ones have been told. */
  ghost predicate AllTold(w: World, r: string, earlier: set<nat>) {
    forall x :: x in w.callers && x !in earlier && w.callers[x].r == r ==> Told(SlotOf(w, r), w.callers[x], w.clock)
  }

  lemma MoveTells(s: Slot, c: Caller, x: nat, p: Option<Policy>, clock: int, ok: bool)
    requires CanMove(s, c) && CallerOk(s, c, x, clock) && c.lazy && p.Some? && Told(s, c, clock)
    requires Unexpired(Move(s, c, x, p, clock, ok).0.row, clock)
    ensures var (t, d) := Move(s, c, x, p, clock, ok); Told(t, d, clock)
  {
  }

  /** Over a settled row a lazy caller changes nothing the others were told. */
  lemma MoveKeepsTold(s: Slot, c: Caller, x: nat, p: Option<Policy>, clock: int, ok: bool, d: Caller)
    requires CanMove(s, c) && CallerOk(s, c, x, clock) && c.lazy && Told(s, d, clock)
    ensures Told(Move(s, c, x, p, clock, ok).0, d, clock)
  {
  }

  lemma AdvanceKeepsTold(w: World, x: nat, ok: bool, r: string, earlier: set<nat>)
    requires Inv(w) && Enabled(w, Advance(x, ok)) && LazyOver(w, r) && r in w.policies && AllTold(w, r, earlier)
    requires Unexpired(SlotOf(Next(w, Advance(x, ok)), r).row, w.clock)
    ensures AllTold(Next(w, Advance(x, ok)), r, earlier)
  {
    var c, v := w.callers[x], Next(w, Advance(x, ok));
    var s, p := SlotOf(w, c.r), PolicyOf(w, c.r);
    MoveKeepsSelf(s, c, x, p, w.clock, ok);
    forall y | y in v.callers && y !in earlier && v.callers[y].r == r
      ensures Told(SlotOf(v, r), v.callers[y], v.clock)
    {
      if c.r == r {
        if x == y {
          MoveTells(s, c, x, p, w.clock, ok);
        } else {
          MoveKeepsTold(s, c, x, p, w.clock, ok, w.callers[y]);
        }
      }
    }
  }

  lemma QuietKeepsTold(w: World, s: Step, r: string, earlier: set<nat>)
    requires Inv(w) && Enabled(w, s) && QuietStep(s, r) && LazyOver(w, r) && r in w.policies && AllTold(w, r, earlier)
    requires Unexpired(SlotOf(Next(w, s), r).row, Next(w, s).clock)
    ensures AllTold(Next(w, s), r, earlier)
  {
    if s.Advance? {
      AdvanceKeepsTold(w, s.x, s.ok, r, earlier);
    }
  }

  lemma {:induction false} WindowTold(ws: seq<World>, ss: seq<Step>, r: string, i: nat, j: nat)
    requires IsRun(ws, ss) && i <= j < |ws| && LazyOver(ws[i], r) && r in ws[i].policies
    requires forall k :: i < k <= j ==> QuietAt(ws, ss, r, k)
    ensures AllTold(ws[j], r, ws[i].callers.Keys) && r in ws[j].policies
    decreases j
  {
    if i < j {
      WindowTold(ws, ss, r, i, j - 1);
      WindowCoalesced(ws, ss, r, i, j - 1);
      RunKeepsInv(ws, ss, j - 1);
      assert QuietAt(ws, ss, r, j) && Taken(ws, ss, j - 1);
      QuietKeepsTold(ws[j - 1], ss[j - 1], r, ws[i].callers.Keys);
    }
  }

  /** However many lazy callers arrive while nothing expires, is invalidated or forced, and however they interleave, the
      resource is fetched at most once. The one that fetches reports Miss or Error; all others report what that fetch
      left -- Hit after a success, Error in backoff after a failure -- or what was there before it. */
  lemma AtMostOneFetchPerWindow(ws: seq<World>, ss: seq<Step>, r: string, i: nat, j: nat)
    requires IsRun(ws, ss) && i <= j < |ws| && LazyOver(ws[i], r)
    requires forall k :: i < k <= j ==> QuietAt(ws, ss, r, k)
    ensures SlotOf(ws[j], r).calls <= SlotOf(ws[i], r).calls + 1
    ensures r in ws[i].policies ==>
              forall x :: x in ws[j].callers && x !in ws[i].callers && ws[j].callers[x].r == r ==>
                Told(SlotOf(ws[j], r), ws[j].callers[x], ws[j].clock)
  {
    WindowCoalesced(ws, ss, r, i, j);
    if r in ws[i].policies {
      WindowTold(ws, ss, r, i, j);
    }
  }

  /** Over a settled row a lazy caller's next reading is its answer -- Hit after a success, Error after a failure --
      and no call is made. */
  lemma SettledAnswersLazily(w: World, x: nat, ok: bool)
    requires Enabled(w, Advance(x, ok)) && (w.callers[x].pc.Checking? || w.callers[x].pc.Rechecking?)
    requires Settled(SlotOf(w, w.callers[x].r).row, w.clock)
    ensures var v, r := Next(w, Advance(x, ok)), w.callers[x].r;
            var verdict := Verdict(SlotOf(w, r).row, w.clock);
            (v.callers[x].pc == Finished(verdict) || v.callers[x].pc == Leaving(verdict))
            && SlotOf(v, r) == SlotOf(w, r)
  {
  }

  // ---- Invalidation ----

  /** An invalidation that lands while a call is under way is erased when the call returns, whether it succeeds or
      fails: the row ends the same with or without it. */
  lemma InvalidationDuringCallIsErased(w: World, x: nat, ok: bool)
    requires Enabled(w, Advance(x, ok)) && w.callers[x].pc.Calling?
    ensures var r := w.callers[x].r;
            var v := Next(w, Invalidate(r));
            Enabled(v, Advance(x, ok)) && SlotOf(Next(v, Advance(x, ok)), r) == SlotOf(Next(w, Advance(x, ok)), r)
  {
  }

  ghost predicate CallUnderWay(w: World, r: string) {
    exists x :: x in w.callers && w.callers[x].r == r && w.callers[x].pc.Calling?
  }

  /** The caller began no call before the world w. */
  predicate Later(w: World, x: nat) { x !in w.callers || w.callers[x].calls == 0 }

  /** A call for the resource begun after w has succeeded. */
  ghost predicate Renewed(w: World, v: World, r: string) {
    exists y :: y in v.callers && v.callers[y].r == r && v.callers[y].calls == 1 && v.callers[y].ok && Later(w, y)
  }

  /** A caller that arrived after w was answered Hit although no call begun since has succeeded. */
  ghost predicate StaleHit(w: World, v: World, r: string, x: nat) {
    && x in v.callers && x !in w.callers && v.callers[x].r == r
    && Answered(v.callers[x].pc) && Answer(v.callers[x].pc) == Hit && !Renewed(w, v, r)
  }

  /** Until a call begun since has succeeded the row is not fresh, nobody new was told Hit, and every call under way has
      begun since. */
  ghost predicate Held(w: World, v: World, r: string) {
    && SlotOf(v, r).row.Some? && SlotOf(v, r).row.value.state != Fresh
    && (forall x :: x in v.callers && v.callers[x].r == r ==>
          && (v.callers[x].pc.Calling? ==> Later(w, x))
          && (x !in w.callers && Answered(v.callers[x].pc) ==> Answer(v.callers[x].pc) != Hit))
  }

  /** Callers stay, for the same resource, and never undo a call. */
  ghost predicate Grown(w: World, v: World) {
    forall x :: x in w.callers ==>
      x in v.callers && v.callers[x].r == w.callers[x].r && v.callers[x].calls >= w.callers[x].calls
  }

  lemma MoveHolds(s: Slot, c: Caller, x: nat, p: Option<Policy>, clock: int, ok: bool)
    requires CanMove(s, c) && CallerOk(s, c, x, clock) && p.Some? && s.row.Some? && s.row.value.state != Fresh
    ensures var (t, d) := Move(s, c, x, p, clock, ok);
            && t.row.Some? && (t.row.value.state == Fresh <==> c.pc.Calling? && ok)
            && (c.pc.Calling? && ok ==> d.calls == 1 && d.ok)
            && (Answered(d.pc) ==> if Answered(c.pc) then Answer(d.pc) == Answer(c.pc) else Answer(d.pc) != Hit)
            && (d.pc.Calling? ==> c.calls == 0)
  {
  }

  lemma StepKeepsGrown(w: World, v: World, s: Step)
    requires Inv(v) && Enabled(v, s) && Grown(w, v)
    ensures Grown(w, Next(v, s))
  {
    if s.Advance? {
      var c := v.callers[s.x];
      MoveKeepsSelf(SlotOf(v, c.r), c, s.x, PolicyOf(v, c.r), v.clock, s.ok);
    }
  }

  lemma StepKeepsRenewed(w: World, v: World, s: Step, r: string)
    requires Inv(v) && Enabled(v, s) && Renewed(w, v, r)
    ensures Renewed(w, Next(v, s), r)
  {
    var y :| y in v.callers && v.callers[y].r == r && v.callers[y].calls == 1 && v.callers[y].ok && Later(w, y);
    assert CallerOk(SlotOf(v, v.callers[y].r), v.callers[y], y, v.clock);
    var u := Next(v, s);
    assert y in u.callers && u.callers[y].r == r && u.callers[y].calls == 1 && u.callers[y].ok;
  }

  lemma AdvanceKeepsHeld(w: World, v: World, x: nat, ok: bool, r: string)
    requires Inv(v) && Enabled(v, Advance(x, ok)) && Grown(w, v) && r in v.policies && Held(w, v, r)
    ensures Held(w, Next(v, Advance(x, ok)), r) || Renewed(w, Next(v, Advance(x, ok)), r)
  {
    var c, u := v.callers[x], Next(v, Advance(x, ok));
    var s, p := SlotOf(v, c.r), PolicyOf(v, c.r);
    MoveKeepsSelf(s, c, x, p, v.clock, ok);
    if c.r == r {
      MoveHolds(s, c, x, p, v.clock, ok);
      if c.pc.Calling? && ok {
        assert x in u.callers && u.callers[x].r == r && u.callers[x].calls == 1 && u.callers[x].ok && Later(w, x);
      }
    }
  }

  /** From the invalidation on: held, until renewed. */
  lemma {:induction false} HeldUntilRenewed(ws: seq<World>, ss: seq<Step>, r: string, j: nat)
    requires Path(ws, ss) && Inv(ws[0]) && 0 < j < |ws| && ss[0] == Invalidate(r)
    requires SlotOf(ws[0], r).row.Some? && r in ws[0].policies && !CallUnderWay(ws[0], r)
    ensures Inv(ws[j]) && Grown(ws[0], ws[j]) && r in ws[j].policies
    ensures Held(ws[0], ws[j], r) || Renewed(ws[0], ws[j], r)
  {
    PathKeepsInv(ws, ss, j);
    assert Taken(ws, ss, j - 1);
    if j > 1 {
      HeldUntilRenewed(ws, ss, r, j - 1);
      StepKeepsGrown(ws[0], ws[j - 1], ss[j - 1]);
      StepKeepsHeld(ws[0], ws[j - 1], ss[j - 1], r);
    }
  }

  lemma StepKeepsHeld(w: World, v: World, s: Step, r: string)
    requires Inv(v) && Enabled(v, s) && Grown(w, v) && r in v.policies
    requires Held(w, v, r) || Renewed(w, v, r)
    ensures Held(w, Next(v, s), r) || Renewed(w, Next(v, s), r)
  {
    if Renewed(w, v, r) {
      StepKeepsRenewed(w, v, s, r);
    } else if s.Advance? {
      AdvanceKeepsHeld(w, v, s.x, s.ok, r);
    }
  }

  lemma {:induction false} NatBeyond(s: set<nat>) returns (b: nat)
    ensures forall x :: x in s ==> x < b
  {
    b := 0;
    if s != {} {
      var y :| y in s;
      var c := NatBeyond(s - {y});
      b := if y < c then c else y + 1;
      assert forall x :: x in s ==> x == y || x in s - {y};
    }
  }

  function EndOfSecond(now: int): int { Sec(now) * NS + (NS - 1) }

  lemma UsableAcrossSecond(now: int, ttl: int)
    requires ttl > 0
    ensures now <= EndOfSecond(now) < Sec(EndOfSecond(now) + ttl) * NS
  {
  }

  /** The invalidation lands and the call succeeds at the end of a second: the row is usable, even for the shortest
      time to live, and nobody's count of calls has moved. */
  lemma CallReturnsFresh(w: World, r: string, y: nat)
    requires Inv(w) && r in w.policies && TTL(w.policies[r]) > 0
    requires y in w.callers && w.callers[y].r == r && w.callers[y].pc.Calling?
    ensures var v := Next(w, Invalidate(r)).(clock := EndOfSecond(w.clock));
            Enabled(v, Advance(y, true))
            && var u := Next(v, Advance(y, true));
               && Usable(SlotOf(u, r).row, u.clock) && u.callers.Keys == w.callers.Keys
               && forall z :: z in u.callers ==> u.callers[z].calls == w.callers[z].calls
  {
    UsableAcrossSecond(w.clock, TTL(w.policies[r]));
    assert CallerOk(SlotOf(w, r), w.callers[y], y, w.clock);
  }

  /** A new caller over a usable row is told Hit at its first reading. */
  lemma ArrivalHits(w: World, r: string, x: nat)
    requires x !in w.callers && Usable(SlotOf(w, r).row, w.clock)
    ensures var v := Next(w, Arrive(x, r, true));
            Enabled(v, Advance(x, true))
            && var u := Next(v, Advance(x, true));
               u.callers == w.callers[x := Caller(r, true, Finished(Hit), 0, false)]
  {
  }

  /** A Hit told to a new caller when nobody has called since is stale. */
  lemma HitWithoutCall(w: World, v: World, u: World, r: string, x: nat)
    requires v.callers.Keys == w.callers.Keys && x !in w.callers
    requires forall z :: z in v.callers ==> v.callers[z].calls == w.callers[z].calls
    requires u.callers == v.callers[x := Caller(r, true, Finished(Hit), 0, false)]
    ensures StaleHit(w, u, r, x)
  {
  }

  lemma FiveSteps(ws: seq<World>, ss: seq<Step>)
    requires |ws| == 6 && |ss| == 5
    requires Taken(ws, ss, 0) && Taken(ws, ss, 1) && Taken(ws, ss, 2) && Taken(ws, ss, 3) && Taken(ws, ss, 4)
    ensures Path(ws, ss)
  {
  }

  /** With the call of y under way: the invalidation, the call's success, and a new caller who is told Hit. */
  lemma CallUnderWayLosesInvalidation(w: World, r: string, y: nat) returns (ws: seq<World>, ss: seq<Step>, x: nat)
    requires Inv(w) && r in w.policies && TTL(w.policies[r]) > 0
    requires y in w.callers && w.callers[y].r == r && w.callers[y].pc.Calling?
    ensures Path(ws, ss) && ws[0] == w && |ss| == 5 && ss[0] == Invalidate(r) && StaleHit(w, ws[5], r, x)
  {
    x := NatBeyond(w.callers.Keys);
    UsableAcrossSecond(w.clock, 1);
    CallReturnsFresh(w, r, y);
    ss := [Invalidate(r), Tick(EndOfSecond(w.clock)), Advance(y, true), Arrive(x, r, true), Advance(x, true)];
    var w1 := Next(w, Invalidate(r));
    var w2 := Next(w1, Tick(EndOfSecond(w.clock)));
    var w3 := Next(w2, Advance(y, true));
    ArrivalHits(w3, r, x);
    var w4 := Next(w3, Arrive(x, r, true));
    var w5 := Next(w4, Advance(x, true));
    HitWithoutCall(w, w3, w5, r, x);
    ws := [w, w1, w2, w3, w4, w5];
    FiveSteps(ws, ss);
  }

  /** Whatever happens after the invalidation, no new caller is told Hit before a call begun since has succeeded. */
  ghost predicate KeepsInvalidation(w: World, r: string) {
    forall ws, ss, j: nat, x :: Path(ws, ss) && ws[0] == w && 0 < j < |ws| && ss[0] == Invalidate(r) ==>
      !StaleHit(w, ws[j], r, x)
  }

  /** From any reachable state, an invalidation of a known resource holds exactly when no call for it is under way as it
      lands. (With a time to live that is not positive nobody is ever told Hit.) */
  lemma InvalidationKeptIff(w: World, r: string)
    requires Inv(w) && SlotOf(w, r).row.Some? && r in w.policies && TTL(w.policies[r]) > 0
    ensures KeepsInvalidation(w, r) <==> !CallUnderWay(w, r)
  {
    if CallUnderWay(w, r) {
      var y :| y in w.callers && w.callers[y].r == r && w.callers[y].pc.Calling?;
      var ws, ss, x := CallUnderWayLosesInvalidation(w, r, y);
    } else {
      forall ws, ss, j: nat, x | Path(ws, ss) && ws[0] == w && 0 < j < |ws| && ss[0] == Invalidate(r)
        ensures !StaleHit(w, ws[j], r, x)
      {
        HeldUntilRenewed(ws, ss, r, j);
      }
    }
  }
}
