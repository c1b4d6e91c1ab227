// internal/api/debounce.go: coalescing identical in-flight passthrough reads. The mutex-guarded regions of join and
// run are the methods of a class; every interleaving of them with callers, hang-ups and a drain is a run of steps.
module Debounce {
  import opened Options

  /** debounceMaxBatches. */
  const MaxBatches := 1024

  datatype Phase = Open | Closed | Calling | Done

  /** A held request. `batchSz` and `res` are what the waiters read once the batch is done. */
  datatype Batch = Batch(key: string, joined: nat, batchSz: nat, phase: Phase, res: Option<string>)

  /** The debouncer's own state; batches are objects, here named by their place in the order of creation. */
  datatype Core = Core(open: map<string, nat>, all: seq<Batch>, stopped: bool, inflight: nat, saved: nat)

  const Idle := Core(map[], [], false, 0, 0)

  /** join: None sends the caller straight upstream. */
  function Joined(c: Core, key: string): (r: (Core, Option<nat>)) {
    if c.stopped then (c, None)
    else if key in c.open && c.open[key] < |c.all| then
      var id := c.open[key];
      (c.(all := c.all[id := c.all[id].(joined := c.all[id].joined + 1)]), Some(id))
    else if key in c.open || |c.open| >= MaxBatches then (c, None)
    else
      (c.(open := c.open[key := |c.all|], all := c.all + [Batch(key, 1, 0, Open, None)], inflight := c.inflight + 1),
       Some(|c.all|))
  }

  /** run, after its window: close the batch to new arrivals. */
  function WindowClosed(c: Core, id: nat): Core
    requires id < |c.all|
  {
    var b := c.all[id];
    c.(open := if b.key in c.open && c.open[b.key] == id then map k | k in c.open && k != b.key :: c.open[k]
               else c.open,
       all := c.all[id := b.(batchSz := b.joined, phase := Closed)])
  }

  function Called(c: Core, id: nat): Core
    requires id < |c.all|
  {
    c.(all := c.all[id := c.all[id].(phase := Calling)])
  }

  /** run, after the call: publish, count what was saved, and leave the wait group. */
  function Published(c: Core, id: nat, res: Option<string>): Core
    requires id < |c.all| && c.inflight > 0
  {
    var b := c.all[id];
    c.(all := c.all[id := b.(res := res, phase := Done)], inflight := c.inflight - 1,
       saved := c.saved + (if res.Some? && b.batchSz > 1 then b.batchSz - 1 else 0))
  }

  class Debouncer {
    var batches: map<string, nat>
    var all: seq<Batch>
    var stopped: bool
    var inflight: nat
    var saved: nat

    ghost function State(): Core
      reads this
    {
      Core(batches, all, stopped, inflight, saved)
    }

    constructor ()
      ensures State() == Idle
    {
      batches, all, stopped, inflight, saved := map[], [], false, 0, 0;
    }

    method Join(key: string) returns (b: Option<nat>)
      requires CoreOk(State())
      modifies `batches, `all, `inflight
      ensures (State(), b) == Joined(old(State()), key)
    {
      if stopped {
        return None;
      }
      var id;
      if key in batches {
        id := batches[key];
      } else {
        if |batches| >= MaxBatches {
          return None;
        }
        id := |all|;
        all := all + [Batch(key, 0, 0, Open, None)];
        batches := batches[key := id];
        inflight := inflight + 1;
        assert all[id := all[id].(joined := 1)] == old(all) + [Batch(key, 1, 0, Open, None)];
      }
      all := all[id := all[id].(joined := all[id].joined + 1)];
      return Some(id);
    }

    method CloseWindow(id: nat)
      requires id < |all|
      modifies `batches, `all
      ensures State() == WindowClosed(old(State()), id)
    {
      var b := all[id];
      if b.key in batches && batches[b.key] == id {
        batches := map k | k in batches && k != b.key :: batches[k];
      }
      all := all[id := b.(batchSz := b.joined, phase := Closed)];
    }

    method Publish(id: nat, res: Option<string>)
      requires id < |all| && inflight > 0
      modifies `all, `inflight, `saved
      ensures State() == Published(old(State()), id, res)
    {
      var b := all[id];
      if res.Some? {
        if b.batchSz > 1 {
          saved := saved + (b.batchSz - 1);
        }
      }
      all := all[id := b.(res := res, phase := Done)];
      inflight := inflight - 1;
    }

    method BeginDrain()
      modifies `stopped
      ensures State() == old(State()).(stopped := true)
    {
      stopped := true;
    }
  }

  // ---- Callers ----

  /** Where a request stands; `at` is the step it joined on. */
  datatype Caller =
    | Waiting(key: string, id: nat, at: nat)
    | Served(key: string, id: nat, at: nat, body: string, batchSz: nat)
    | Own(key: string)                              // forwarded upstream at once
    | FellBack(key: string, id: nat, at: nat)       // the shared body overflowed: fetched its own
    | Gone(key: string, id: nat, at: nat)           // hung up while waiting

  /** `called` records the step each batch's upstream call began on. */
  datatype World = World(core: Core, clock: nat, callers: map<nat, Caller>, called: map<nat, nat>)

  datatype Step =
    | Join(caller: nat, key: string)
    | CloseWindow(id: nat)
    | Call(id: nat)
    | Finish(id: nat, res: Option<string>)          // None: the body overflowed the buffer
    | Receive(caller: nat)
    | HangUp(caller: nat)
    | BeginDrain

  predicate Enabled(w: World, s: Step) {
    match s
    case Join(caller, _) => caller !in w.callers
    case CloseWindow(id) => id < |w.core.all| && w.core.all[id].phase == Open
    case Call(id) => id < |w.core.all| && w.core.all[id].phase == Closed
    case Finish(id, _) => id < |w.core.all| && w.core.all[id].phase == Calling && w.core.inflight > 0
    case Receive(caller) =>
      caller in w.callers && w.callers[caller].Waiting? && w.callers[caller].id < |w.core.all|
      && w.core.all[w.callers[caller].id].phase == Done
    case HangUp(caller) => caller in w.callers && w.callers[caller].Waiting?
    case BeginDrain => true
  }

  function Next(w: World, s: Step): World
    requires Enabled(w, s)
  {
    var v := w.(clock := w.clock + 1);
    match s
    case Join(caller, key) =>
      var (core, id) := Joined(w.core, key);
      v.(core := core, callers := w.callers[caller := if id.Some? then Waiting(key, id.value, w.clock) else Own(key)])
    case CloseWindow(id) => v.(core := WindowClosed(w.core, id))
    case Call(id) => v.(core := Called(w.core, id), called := w.called[id := w.clock])
    case Finish(id, res) => v.(core := Published(w.core, id, res))
    case Receive(caller) =>
      var c := w.callers[caller];
      var b := w.core.all[c.id];
      v.(callers := w.callers[caller := if b.res.Some? then Served(c.key, c.id, c.at, b.res.value, b.batchSz)
                                             else FellBack(c.key, c.id, c.at)])
    case HangUp(caller) =>
      var c := w.callers[caller];
      v.(callers := w.callers[caller := Gone(c.key, c.id, c.at)])
    case BeginDrain => v.(core := w.core.(stopped := true))
  }

  // ---- What every run keeps ----

  /** The batches still running their fetch. */
  function Running(all: seq<Batch>): nat {
    if all == [] then 0 else (if all[0].phase == Done then 0 else 1) + Running(all[1..])
  }

  predicate Shared(b: Batch) { b.phase == Done && b.res.Some? }

  function SharedBatches(all: seq<Batch>): nat {
    if all == [] then 0 else (if Shared(all[0]) then 1 else 0) + SharedBatches(all[1..])
  }

  function SharedJoins(all: seq<Batch>): nat {
    if all == [] then 0 else (if Shared(all[0]) then all[0].joined else 0) + SharedJoins(all[1..])
  }

  /** The map holds exactly the open batches, one per key, at most 1024; a closed batch's size is its joins. */
  ghost predicate CoreOk(c: Core) {
    && |c.open| <= MaxBatches
    && (forall k :: k in c.open ==> c.open[k] < |c.all| && c.all[c.open[k]].key == k && c.all[c.open[k]].phase == Open)
    && (forall id :: 0 <= id < |c.all| && c.all[id].phase == Open ==>
          c.all[id].key in c.open && c.open[c.all[id].key] == id)
    && (forall id :: 0 <= id < |c.all| ==>
          c.all[id].joined > 0
          && (c.all[id].phase != Open ==> c.all[id].batchSz == c.all[id].joined)
          && (c.all[id].phase != Done ==> c.all[id].res.None?))
    && c.inflight == Running(c.all)
    && c.saved + SharedBatches(c.all) == SharedJoins(c.all)
  }

  /** A waiter's batch is for its own key, and the batch's call, once begun, began after the waiter joined. */
  ghost predicate CallerOk(w: World, c: Caller) {
    c.Own? ||
    (&& c.id < |w.core.all| && w.core.all[c.id].key == c.key && c.at < w.clock
     && (c.id in w.called ==> c.at < w.called[c.id])
     && (c.Served? ==> Shared(w.core.all[c.id]) && w.core.all[c.id].res == Some(c.body)
                       && w.core.all[c.id].batchSz == c.batchSz && c.id in w.called))
  }

  /** The callers that joined a batch. */
  ghost function Members(w: World, id: nat): set<nat> {
    set x | x in w.callers && InBatch(w.callers[x], id)
  }

  predicate InBatch(c: Caller, id: nat) { !c.Own? && c.id == id }

  ghost predicate Inv(w: World) {
    && CoreOk(w.core)
    && (forall x :: x in w.callers ==> CallerOk(w, w.callers[x]))
    && (forall id :: id in w.called ==>
          id < |w.core.all| && (w.core.all[id].phase == Calling || w.core.all[id].phase == Done))
    && (forall id :: 0 <= id < |w.core.all| && (w.core.all[id].phase == Calling || w.core.all[id].phase == Done) ==>
          id in w.called)
  }

  lemma {:induction false} CountsUpdate(all: seq<Batch>, id: nat, b: Batch)
    requires id < |all|
    ensures Running(all[id := b])
         == Running(all) - (if all[id].phase == Done then 0 else 1) + (if b.phase == Done then 0 else 1)
    ensures SharedBatches(all[id := b])
         == SharedBatches(all) - (if Shared(all[id]) then 1 else 0) + (if Shared(b) then 1 else 0)
    ensures SharedJoins(all[id := b])
         == SharedJoins(all) - (if Shared(all[id]) then all[id].joined else 0) + (if Shared(b) then b.joined else 0)
  {
    if id > 0 {
      assert all[id := b][1..] == all[1..][id - 1 := b];
      CountsUpdate(all[1..], id - 1, b);
    } else {
      assert all[id := b][1..] == all[1..];
    }
  }

  lemma {:induction false} CountsAppend(all: seq<Batch>, b: Batch)
    ensures Running(all + [b]) == Running(all) + (if b.phase == Done then 0 else 1)
    ensures SharedBatches(all + [b]) == SharedBatches(all) + (if Shared(b) then 1 else 0)
    ensures SharedJoins(all + [b]) == SharedJoins(all) + (if Shared(b) then b.joined else 0)
  {
    if all != [] {
      assert (all + [b])[1..] == all[1..] + [b];
      CountsAppend(all[1..], b);
    } else {
      assert (all + [b])[1..] == [];
    }
  }

  lemma JoinOpenKeepsCore(c: Core, key: string)
    requires CoreOk(c) && !c.stopped && key in c.open
    ensures CoreOk(Joined(c, key).0)
  {
    var id := c.open[key];
    var b := c.all[id].(joined := c.all[id].joined + 1);
    CountsUpdate(c.all, id, b);
    assert Joined(c, key).0 == c.(all := c.all[id := b]);
  }

  lemma JoinNewKeepsCore(c: Core, key: string)
    requires CoreOk(c) && !c.stopped && key !in c.open && |c.open| < MaxBatches
    ensures CoreOk(Joined(c, key).0)
  {
    var d := Joined(c, key).0;
    CountsAppend(c.all, Batch(key, 1, 0, Open, None));
    assert d.open.Keys == c.open.Keys + {key};
    assert |d.open| == |d.open.Keys| && |c.open| == |c.open.Keys|;
  }

  lemma JoinKeepsCore(c: Core, key: string)
    requires CoreOk(c)
    ensures CoreOk(Joined(c, key).0)
  {
    if !c.stopped {
      if key in c.open {
        JoinOpenKeepsCore(c, key);
      } else if |c.open| < MaxBatches {
        JoinNewKeepsCore(c, key);
      }
    }
  }

  lemma OpenShrinks(open: map<string, nat>, key: string)
    ensures |map k | k in open && k != key :: open[k]| <= |open|
  {
    var less := map k | k in open && k != key :: open[k];
    assert less.Keys == open.Keys - {key};
    assert |less| == |less.Keys| && |open| == |open.Keys|;
  }

  lemma CloseKeepsCore(c: Core, id: nat)
    requires CoreOk(c) && id < |c.all| && c.all[id].phase == Open
    ensures CoreOk(WindowClosed(c, id))
  {
    var b := c.all[id];
    CountsUpdate(c.all, id, b.(batchSz := b.joined, phase := Closed));
    OpenShrinks(c.open, b.key);
  }

  lemma CallKeepsCore(c: Core, id: nat)
    requires CoreOk(c) && id < |c.all| && c.all[id].phase == Closed
    ensures CoreOk(Called(c, id))
  {
    CountsUpdate(c.all, id, c.all[id].(phase := Calling));
  }

  lemma PublishKeepsCore(c: Core, id: nat, res: Option<string>)
    requires CoreOk(c) && id < |c.all| && c.all[id].phase == Calling && c.inflight > 0
    ensures CoreOk(Published(c, id, res))
  {
    CountsUpdate(c.all, id, c.all[id].(res := res, phase := Done));
  }

  lemma StepKeepsCore(w: World, s: Step)
    requires Inv(w) && Enabled(w, s)
    ensures CoreOk(Next(w, s).core)
  {
    match s
    case Join(caller, key) => JoinKeepsCore(w.core, key);
    case CloseWindow(id) => CloseKeepsCore(w.core, id);
    case Call(id) => CallKeepsCore(w.core, id);
    case Finish(id, res) => PublishKeepsCore(w.core, id, res);
    case _ =>
  }

  /** A step leaves a batch its key, a finished batch everything, and a begun call its beginning. */
  lemma BatchPersists(w: World, s: Step, id: nat)
    requires Inv(w) && Enabled(w, s) && id < |w.core.all|
    ensures var v := Next(w, s);
            && id < |v.core.all| && v.core.all[id].key == w.core.all[id].key
            && (w.core.all[id].phase == Done ==> v.core.all[id] == w.core.all[id])
            && (id in w.called ==> id in v.called && v.called[id] == w.called[id])
            && (id !in w.called && id in v.called ==> v.called[id] == w.clock)
  {
    if s.Call? {
      assert s.id !in w.called;
    }
  }

  lemma StepKeepsCaller(w: World, s: Step, x: nat)
    requires Inv(w) && Enabled(w, s) && x in Next(w, s).callers
    ensures CallerOk(Next(w, s), Next(w, s).callers[x])
  {
    if x in w.callers {
      var c := w.callers[x];
      assert CallerOk(w, c);
      if !c.Own? {
        BatchPersists(w, s, c.id);
        assert w.core.all[c.id].phase == Done ==> c.id in w.called;
        assert w.core.all[c.id].phase == Done ==> w.core.all[c.id].batchSz == w.core.all[c.id].joined;
      }
    } else {
      NewCallerOk(w, s);
    }
  }

  lemma NewCallerOk(w: World, s: Step)
    requires Inv(w) && Enabled(w, s) && s.Join?
    ensures CallerOk(Next(w, s), Next(w, s).callers[s.caller])
  {
    var id := Joined(w.core, s.key).1;
    if id.Some? && id.value < |w.core.all| {
      assert w.core.all[id.value].phase == Open;
    }
  }

  lemma CalledAt(w: World, s: Step, id: nat)
    requires Inv(w) && Enabled(w, s) && id < |Next(w, s).core.all|
    ensures var v := Next(w, s);
            id in v.called <==> v.core.all[id].phase == Calling || v.core.all[id].phase == Done
  {
    if id < |w.core.all| {
      assert id in w.called <==> w.core.all[id].phase == Calling || w.core.all[id].phase == Done;
    }
  }

  lemma StepKeepsCalled(w: World, s: Step)
    requires Inv(w) && Enabled(w, s)
    ensures var v := Next(w, s);
            && (forall id :: id in v.called ==>
                  id < |v.core.all| && (v.core.all[id].phase == Calling || v.core.all[id].phase == Done))
            && (forall id :: 0 <= id < |v.core.all| && (v.core.all[id].phase == Calling || v.core.all[id].phase == Done)
                  ==> id in v.called)
  {
    var v := Next(w, s);
    assert |w.core.all| <= |v.core.all|;
    forall id: nat | id < |v.core.all|
      ensures id in v.called <==> v.core.all[id].phase == Calling || v.core.all[id].phase == Done
    {
      CalledAt(w, s, id);
    }
  }

  lemma StepKeepsInv(w: World, s: Step)
    requires Inv(w) && Enabled(w, s)
    ensures Inv(Next(w, s))
  {
    StepKeepsCore(w, s);
    StepKeepsCalled(w, s);
    forall x | x in Next(w, s).callers ensures CallerOk(Next(w, s), Next(w, s).callers[x]) {
      StepKeepsCaller(w, s, x);
    }
  }

  const Start := World(Idle, 0, map[], map[])

  ghost predicate IsRun(ws: seq<World>, ss: seq<Step>) {
    && |ws| == |ss| + 1 && ws[0] == Start
    && forall i :: 0 <= i < |ss| ==> Enabled(ws[i], ss[i]) && ws[i + 1] == Next(ws[i], ss[i])
  }

  lemma {:induction false} RunKeepsInv(ws: seq<World>, ss: seq<Step>, i: nat)
    requires IsRun(ws, ss) && i < |ws|
    ensures Inv(ws[i])
  {
    if i > 0 {
      RunKeepsInv(ws, ss, i - 1);
      StepKeepsInv(ws[i - 1], ss[i - 1]);
    }
  }

  /** At most one open batch per key and at most 1024 open, at every point of every run. */
  lemma OneOpenBatchPerKey(ws: seq<World>, ss: seq<Step>, i: nat, a: nat, b: nat)
    requires IsRun(ws, ss) && i < |ws|
    requires a < |ws[i].core.all| && b < |ws[i].core.all|
    requires ws[i].core.all[a].phase == Open && ws[i].core.all[b].phase == Open
    ensures ws[i].core.all[a].key == ws[i].core.all[b].key ==> a == b
    ensures |ws[i].core.open| <= MaxBatches
  {
    RunKeepsInv(ws, ss, i);
  }

  /** A shared answer belongs to the caller's own key -- its credential is part of that -- and comes from an upstream
      call begun after the caller joined. */
  lemma SharedAnswerIsFreshAndOwn(ws: seq<World>, ss: seq<Step>, i: nat, x: nat)
    requires IsRun(ws, ss) && i < |ws| && x in ws[i].callers && ws[i].callers[x].Served?
    ensures var c := ws[i].callers[x];
            && c.id < |ws[i].core.all| && ws[i].core.all[c.id].key == c.key && ws[i].core.all[c.id].res == Some(c.body)
            && c.id in ws[i].called && c.at < ws[i].called[c.id]
            && c.batchSz == ws[i].core.all[c.id].joined
  {
    RunKeepsInv(ws, ss, i);
    assert CallerOk(ws[i], ws[i].callers[x]);
  }

  /** What the counter says was saved is, over all shared batches, the joins less one call each. */
  lemma SavedCallsAddUp(ws: seq<World>, ss: seq<Step>, i: nat)
    requires IsRun(ws, ss) && i < |ws|
    ensures ws[i].core.saved + SharedBatches(ws[i].core.all) == SharedJoins(ws[i].core.all)
  {
    RunKeepsInv(ws, ss, i);
  }

  // ---- What a join does ----

  /** The open batches, by their place. */
  ghost function OpenIds(all: seq<Batch>): set<nat> {
    set id | 0 <= id < |all| && all[id].phase == Open
  }

  lemma {:induction false} SameSize(m: map<string, nat>)
    requires forall k, l :: k in m && l in m && m[k] == m[l] ==> k == l
    ensures |m| == |m.Values|
    decreases |m|
  {
    if k :| k in m {
      var rest := m - {k};
      SameSize(rest);
      assert m.Keys == rest.Keys + {k};
      forall v ensures v in m.Values <==> v in rest.Values + {m[k]} {
        if v in m.Values && v != m[k] {
          var l :| l in m && m[l] == v;
          assert l in rest && rest[l] == v;
        }
      }
      assert m.Values == rest.Values + {m[k]};
    }
  }

  lemma OpenCount(w: World)
    requires Inv(w)
    ensures |w.core.open| == |OpenIds(w.core.all)|
  {
    SameSize(w.core.open);
    forall id | id in OpenIds(w.core.all) ensures id in w.core.open.Values {
      assert w.core.open[w.core.all[id].key] == id;
    }
    assert w.core.open.Values == OpenIds(w.core.all);
  }

  /** Over every run: who joins while its key's batch is open waits on that batch, which counts it; who joins otherwise
      opens one; and a caller goes upstream on its own exactly when the debouncer is stopped, or 1024 batches are open
      and none of them is its key's. */
  lemma JoinDecides(ws: seq<World>, ss: seq<Step>, i: nat, x: nat, key: string)
    requires IsRun(ws, ss) && i < |ss| && ss[i] == Join(x, key)
    ensures x in ws[i + 1].callers
    ensures var all := ws[i].core.all;
            ws[i + 1].callers[x].Own? <==>
            ws[i].core.stopped
            || (|OpenIds(all)| >= 1024
                && forall id :: 0 <= id < |all| ==> !(all[id].phase == Open && all[id].key == key))
    ensures var all, after := ws[i].core.all, ws[i + 1].core.all;
            !ws[i].core.stopped ==>
              forall id :: 0 <= id < |all| && all[id].phase == Open && all[id].key == key ==>
                && ws[i + 1].callers[x] == Waiting(key, id, ws[i].clock)
                && |after| == |all| && after[id].joined == all[id].joined + 1
    ensures ws[i + 1].callers[x] == Waiting(key, |ws[i].core.all|, ws[i].clock) ==>
              && |ws[i + 1].core.all| == |ws[i].core.all| + 1
              && ws[i + 1].core.all[|ws[i].core.all|] == Batch(key, 1, 0, Open, None)
  {
    RunKeepsInv(ws, ss, i);
    OpenCount(ws[i]);
    assert Enabled(ws[i], ss[i]) && ws[i + 1] == Next(ws[i], ss[i]);
  }

  // ---- Joins are counted ----

  /** The joins of a batch are the callers that joined it, wherever they are now. */
  ghost predicate Counted(w: World, id: nat) {
    id < |w.core.all| ==> |Members(w, id)| == w.core.all[id].joined
  }

  lemma MembersAfterJoin(w: World, caller: nat, c: Caller, id: nat)
    requires caller !in w.callers
    ensures var v := w.(callers := w.callers[caller := c]);
            Members(v, id) == if InBatch(c, id) then Members(w, id) + {caller} else Members(w, id)
  {
  }

  lemma NobodyAhead(w: World)
    requires Inv(w)
    ensures Members(w, |w.core.all|) == {}
  {
    forall x | x in w.callers ensures !InBatch(w.callers[x], |w.core.all|) {
      assert CallerOk(w, w.callers[x]);
    }
  }

  lemma JoinKeepsCount(w: World, caller: nat, key: string, id: nat)
    requires Inv(w) && Enabled(w, Join(caller, key)) && Counted(w, id) && id < |Next(w, Join(caller, key)).core.all|
    ensures Counted(Next(w, Join(caller, key)), id)
  {
    var v := Next(w, Join(caller, key));
    MembersAfterJoin(w, caller, v.callers[caller], id);
    assert Members(v, id) == Members(w.(callers := v.callers), id);
    assert caller !in Members(w, id);
    if id == |w.core.all| {
      NobodyAhead(w);
    }
  }

  lemma StepKeepsCount(w: World, s: Step, id: nat)
    requires Inv(w) && Enabled(w, s) && Counted(w, id) && id < |Next(w, s).core.all|
    ensures Counted(Next(w, s), id)
  {
    if s.Join? {
      JoinKeepsCount(w, s.caller, s.key, id);
    } else {
      assert Members(Next(w, s), id) == Members(w, id);
    }
  }

  lemma {:induction false} RunCounts(ws: seq<World>, ss: seq<Step>, i: nat, id: nat)
    requires IsRun(ws, ss) && i < |ws|
    ensures Counted(ws[i], id)
  {
    if i > 0 {
      RunKeepsInv(ws, ss, i - 1);
      RunCounts(ws, ss, i - 1, id);
      if id < |ws[i].core.all| {
        StepKeepsCount(ws[i - 1], ss[i - 1], id);
      }
    }
  }

  /** The batch size every served caller is told is the number of callers that joined its batch. */
  lemma BatchSizeCountsJoins(ws: seq<World>, ss: seq<Step>, i: nat, x: nat)
    requires IsRun(ws, ss) && i < |ws| && x in ws[i].callers && ws[i].callers[x].Served?
    ensures ws[i].callers[x].batchSz == |Members(ws[i], ws[i].callers[x].id)|
  {
    SharedAnswerIsFreshAndOwn(ws, ss, i, x);
    RunCounts(ws, ss, i, ws[i].callers[x].id);
  }

  // ---- Progress ----

  lemma {:induction false} RunningCounts(all: seq<Batch>, id: nat)
    requires id < |all| && all[id].phase != Done
    ensures Running(all) > 0
  {
    if id > 0 {
      RunningCounts(all[1..], id - 1);
    }
  }

  /** The next step of a batch's own goroutine. */
  function NextOf(b: Batch, id: nat, res: Option<string>): Step
    requires b.phase != Done
  {
    match b.phase case Open => CloseWindow(id) case Closed => Call(id) case Calling => Finish(id, res)
  }

  predicate Earlier(a: Phase, b: Phase) {
    (a == Open && b == Closed) || (a == Closed && b == Calling) || (a == Calling && b == Done)
  }

  /** No batch is ever stuck: until it is done its next step is enabled and takes it one phase on. In particular the
      wait group is never empty while a batch is calling. */
  lemma BatchesProgress(ws: seq<World>, ss: seq<Step>, i: nat, id: nat, res: Option<string>)
    requires IsRun(ws, ss) && i < |ws| && id < |ws[i].core.all| && ws[i].core.all[id].phase != Done
    ensures var s := NextOf(ws[i].core.all[id], id, res);
            Enabled(ws[i], s) && Earlier(ws[i].core.all[id].phase, Next(ws[i], s).core.all[id].phase)
  {
    RunKeepsInv(ws, ss, i);
    RunningCounts(ws[i].core.all, id);
  }

  /** Whoever waits is answered once its batch is done: with the shared body and the number that joined, or, if the body
      overflowed, by a call of its own. */
  lemma WaitersAreAnswered(ws: seq<World>, ss: seq<Step>, i: nat, x: nat)
    requires IsRun(ws, ss) && i < |ws| && x in ws[i].callers && ws[i].callers[x].Waiting?
    ensures var c := ws[i].callers[x];
            && c.id < |ws[i].core.all|
            && (ws[i].core.all[c.id].phase == Done ==>
                  && Enabled(ws[i], Receive(x))
                  && var b, after := ws[i].core.all[c.id], Next(ws[i], Receive(x)).callers[x];
                     if b.res.Some? then after == Served(c.key, c.id, c.at, b.res.value, b.joined)
                     else after == FellBack(c.key, c.id, c.at))
  {
    RunKeepsInv(ws, ss, i);
    assert CallerOk(ws[i], ws[i].callers[x]);
  }

  // ---- Drain ----

  lemma {:induction false} NoneRunning(all: seq<Batch>, id: nat)
    requires Running(all) == 0 && id < |all|
    ensures all[id].phase == Done
  {
    if id > 0 {
      NoneRunning(all[1..], id - 1);
    }
  }

  lemma AllDone(w: World, id: nat)
    requires Inv(w) && w.core.inflight == 0 && id < |w.core.all|
    ensures w.core.all[id].phase == Done
  {
    NoneRunning(w.core.all, id);
  }

  lemma DrainedStep(w: World, s: Step)
    requires Inv(w) && Enabled(w, s) && w.core.stopped && w.core.inflight == 0
    ensures Next(w, s).core == w.core
  {
    if s.CloseWindow? || s.Call? {
      AllDone(w, s.id);
    }
  }

  lemma {:induction false} CoreFrozen(ws: seq<World>, ss: seq<Step>, i: nat, j: nat)
    requires IsRun(ws, ss) && i <= j < |ws|
    requires ws[i].core.stopped && ws[i].core.inflight == 0
    ensures ws[j].core == ws[i].core
    decreases j
  {
    if i < j {
      CoreFrozen(ws, ss, i, j - 1);
      RunKeepsInv(ws, ss, j - 1);
      DrainedStep(ws[j - 1], ss[j - 1]);
    }
  }

  /** Once draining has begun and the wait group is at zero, every batch is done, and none is ever started again. */
  lemma DrainedStaysDrained(ws: seq<World>, ss: seq<Step>, i: nat, j: nat)
    requires IsRun(ws, ss) && i <= j < |ws|
    requires ws[i].core.stopped && ws[i].core.inflight == 0
    ensures |ws[j].core.all| == |ws[i].core.all|
    ensures forall id :: 0 <= id < |ws[j].core.all| ==> ws[j].core.all[id].phase == Done
  {
    CoreFrozen(ws, ss, i, j);
    RunKeepsInv(ws, ss, i);
    forall id | 0 <= id < |ws[i].core.all| ensures ws[i].core.all[id].phase == Done {
      AllDone(ws[i], id);
    }
  }
}
