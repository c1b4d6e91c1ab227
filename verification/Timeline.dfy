// internal/reqtimeline/reqtimeline.go: the in-memory event ring. Clock readings are nanoseconds; the fields of an
// event that the ring never looks at are one string.
module Timeline {
  import opened Options

  datatype Event = Event(id: nat, start: int, durMs: int, rest: string)

  function End(e: Event): int { e.start + e.durMs * 1_000_000 }

  // ---- The ring as a sequence ----

  function DropExpired(s: seq<Event>, cutoff: int): seq<Event> {
    if s != [] && End(s[0]) < cutoff then DropExpired(s[1..], cutoff) else s
  }

  function Newest(s: seq<Event>, n: nat): seq<Event> {
    if |s| > n then s[|s| - n..] else s
  }

  /** What is live after an eviction: the unexpired suffix, capped to the newest. */
  function Evicted(live: seq<Event>, cutoff: int, maxEvents: nat): seq<Event> {
    Newest(DropExpired(live, cutoff), maxEvents)
  }

  /** The events behind the cursor, in order. */
  function After(s: seq<Event>, cursor: nat): seq<Event> {
    if s == [] then [] else (if s[0].id > cursor then [s[0]] else []) + After(s[1..], cursor)
  }

  /** The events that overlap [from, to). */
  function Overlapping(s: seq<Event>, from: int, to: int): seq<Event> {
    if s == [] then []
    else (if End(s[0]) >= from && s[0].start < to then [s[0]] else []) + Overlapping(s[1..], from, to)
  }

  ghost predicate Numbered(history: seq<Event>) {
    forall i :: 0 <= i < |history| ==> history[i].id == i + 1
  }

  /** The live events are the newest of everything recorded. */
  ghost predicate IsSuffix(live: seq<Event>, history: seq<Event>) {
    |live| <= |history| && live == history[|history| - |live|..]
  }

  /** In the order the events ended, up to a slack: an end is the start plus whole milliseconds, and two requests may
      take the lock in the other order. */
  ghost predicate EndOrdered(s: seq<Event>, slack: nat) {
    forall i, j :: 0 <= i < j < |s| ==> End(s[i]) <= End(s[j]) + slack
  }

  ghost predicate Increasing(s: seq<Event>) {
    forall i, j :: 0 <= i < j < |s| ==> s[i].id < s[j].id
  }

  lemma {:induction false} DropExpiredIsSuffix(s: seq<Event>, cutoff: int)
    ensures IsSuffix(DropExpired(s, cutoff), s)
    ensures DropExpired(s, cutoff) != [] ==> End(DropExpired(s, cutoff)[0]) >= cutoff
  {
    if s != [] && End(s[0]) < cutoff {
      DropExpiredIsSuffix(s[1..], cutoff);
    }
  }

  lemma EvictedIsSuffix(live: seq<Event>, cutoff: int, maxEvents: nat)
    ensures IsSuffix(Evicted(live, cutoff, maxEvents), live)
    ensures |Evicted(live, cutoff, maxEvents)| <= maxEvents
  {
    DropExpiredIsSuffix(live, cutoff);
  }

  /** Below the cap no unexpired event goes, and none stays that expired by more than the slack in the order of ends;
      without slack exactly the expired events go. */
  lemma EvictionIsExact(live: seq<Event>, cutoff: int, maxEvents: nat, e: Event, slack: nat)
    requires EndOrdered(live, slack) && |live| <= maxEvents
    ensures e in live && End(e) >= cutoff ==> e in Evicted(live, cutoff, maxEvents)
    ensures e in Evicted(live, cutoff, maxEvents) ==> e in live && End(e) >= cutoff - slack
  {
    var kept := DropExpired(live, cutoff);
    DropExpiredIsSuffix(live, cutoff);
    DroppedAreExpired(live, cutoff);
    assert live == live[..|live| - |kept|] + kept;
    if kept != [] && e in kept {
      var i :| 0 <= i < |kept| && kept[i] == e;
      assert kept[0] == live[|live| - |kept|] && kept[i] == live[|live| - |kept| + i];
    }
  }

  lemma {:induction false} DroppedAreExpired(s: seq<Event>, cutoff: int)
    ensures |DropExpired(s, cutoff)| <= |s|
    ensures forall i :: 0 <= i < |s| - |DropExpired(s, cutoff)| ==> End(s[i]) < cutoff
  {
    if s != [] && End(s[0]) < cutoff {
      DroppedAreExpired(s[1..], cutoff);
      assert forall i :: 0 < i < |s| ==> s[i] == s[1..][i - 1];
    }
  }

  // ---- Searches over a numbered suffix ----

  lemma {:induction false} AfterOfSplit(s: seq<Event>, i: nat, cursor: nat)
    requires i <= |s|
    requires forall k :: 0 <= k < i ==> s[k].id <= cursor
    requires forall k :: i <= k < |s| ==> s[k].id > cursor
    ensures After(s, cursor) == s[i..]
  {
    if s != [] {
      if i > 0 {
        AfterOfSplit(s[1..], i - 1, cursor);
        assert s[1..][i - 1..] == s[i..];
      } else {
        AfterOfSplit(s[1..], 0, cursor);
        assert s == [s[0]] + s[1..];
      }
    }
  }

  lemma {:induction false} OverlappingOfSplit(s: seq<Event>, i: nat, from: int, to: int)
    requires i <= |s| && forall k :: 0 <= k < i ==> End(s[k]) < from
    ensures Overlapping(s, from, to) == Overlapping(s[i..], from, to)
  {
    if i > 0 {
      OverlappingOfSplit(s[1..], i - 1, from, to);
      assert s[1..][i - 1..] == s[i..];
    } else {
      assert s[i..] == s;
    }
  }

  // ---- The recorder ----

  function Max(a: int, b: int): int { if a >= b then a else b }

  datatype Snap = Snap(events: seq<Event>, maxID: nat, retentionStart: int)

  class Recorder {
    const retention: int
    const maxEvents: nat
    var nextID: nat
    var events: seq<Event>
    var head: nat
    /** Everything ever recorded, and the elements compaction has moved. */
    ghost var history: seq<Event>
    ghost var copied: nat

    ghost predicate Valid()
      reads this
    {
      && Backed() && nextID == |history| && Numbered(history)
      && |events| - head <= maxEvents
      && |events| <= Max(1024 + maxEvents, 2 * maxEvents)
    }

    ghost function Live(): seq<Event>
      reads this
      requires head <= |events|
    {
      events[head..]
    }

    constructor (retention: int, maxEvents: nat)
      ensures Valid() && history == [] && this.retention == retention && this.maxEvents == maxEvents
    {
      this.retention, this.maxEvents := retention, maxEvents;
      nextID, events, head, history, copied := 0, [], 0, [], 0;
    }

    /** The backing sequence holds the newest recorded events, and compaction has copied less than it freed. */
    ghost predicate Backed()
      reads this
    {
      head <= |events| && IsSuffix(events, history) && copied <= |history| - |events|
    }

    /** Compaction, deferred until the dead prefix dominates: it moves fewer elements than it frees. */
    method Compact()
      requires Backed() && |events| - head <= maxEvents
      modifies `events, `head, `copied
      ensures Backed() && Live() == old(Live())
      ensures |events| <= Max(1024 + maxEvents, 2 * maxEvents)
    {
      if head > 1024 && head > |events| / 2 {
        ghost var at := |history| - |events|;
        copied := copied + (|events| - head);
        assert history[at..][head..] == history[at + head..];
        events := events[head..];
        head := 0;
        assert events[0..] == events;
      }
    }

    /** The first loop: past the expired front. */
    method SkipExpired(cutoff: int)
      requires head <= |events|
      modifies `head
      ensures old(head) <= head <= |events|
      ensures Live() == DropExpired(old(Live()), cutoff)
    {
      while head < |events| && End(events[head]) < cutoff
        invariant old(head) <= head <= |events|
        invariant DropExpired(events[head..], cutoff) == DropExpired(old(Live()), cutoff)
      {
        assert events[head..][1..] == events[head + 1..];
        head := head + 1;
      }
    }

    /** evictLocked. */
    method Evict(now: int)
      requires Backed()
      modifies `events, `head, `copied
      ensures Backed()
      ensures Live() == Evicted(old(Live()), now - retention, maxEvents)
      ensures |events| - head <= maxEvents && |events| <= Max(1024 + maxEvents, 2 * maxEvents)
    {
      SkipExpired(now - retention);
      ghost var kept := Live();
      var over := (|events| - head) - maxEvents;
      if over > 0 {
        assert kept[over..] == events[head + over..];
        head := head + over;
      }
      assert Live() == Newest(kept, maxEvents);
      Compact();
    }

    /** record. */
    method Record(e: Event, now: int)
      requires Valid()
      modifies `nextID, `events, `head, `history, `copied
      ensures Valid()
      ensures history == old(history) + [e.(id := old(nextID) + 1)]
      ensures Live() == Evicted(old(Live()) + [e.(id := old(nextID) + 1)], now - retention, maxEvents)
      ensures copied <= |history|
    {
      nextID := nextID + 1;
      var numbered := e.(id := nextID);
      ghost var live := Live();
      events := events + [numbered];
      history := history + [numbered];
      assert events[head..] == live + [numbered];
      assert IsSuffix(events, history);
      Evict(now);
    }

    /** Snapshot: exactly the live events behind the cursor, and the cursor to ask with next. */
    method Snapshot(since: nat, now: int) returns (snap: Snap)
      requires Valid()
      modifies `events, `head, `copied
      ensures Valid()
      ensures Live() == Evicted(old(Live()), now - retention, maxEvents)
      ensures snap == Snap(After(Live(), since), nextID, now - retention)
    {
      Evict(now);
      var live := events[head..];
      NumberedSuffix(live, history);
      var i := SearchID(live, since);
      AfterOfSplit(live, i, since);
      snap := Snap(live[i..], nextID, now - retention);
    }

    /** SnapshotRange; None stands for the zero bound. With the live events in end order it is exactly those that
        overlap the range; with a slack in that order an event may be missed, or kept, only within the slack of the
        lower bound. */
    method SnapshotRange(from: Option<int>, to: Option<int>, now: int) returns (snap: Snap)
      requires Valid()
      modifies `events, `head, `copied
      ensures Valid()
      ensures Live() == Evicted(old(Live()), now - retention, maxEvents)
      ensures snap.maxID == nextID && snap.retentionStart == now - retention
      ensures var f, t := if from.Some? then from.value else now - retention, if to.Some? then to.value else now;
              InRange(Live(), f, t, snap.events)
    {
      Evict(now);
      var live := events[head..];
      var f := if from.Some? then from.value else now - retention;
      var t := if to.Some? then to.value else now;
      var i := SearchEnd(live, f);
      var out := StartedBefore(live[i..], t);
      SearchedRange(live, i, f, t);
      snap := Snap(out, nextID, now - retention);
    }
  }

  /** sort.Search on the cursor. */
  method SearchID(live: seq<Event>, since: nat) returns (i: nat)
    requires Increasing(live)
    ensures i <= |live|
    ensures forall k :: 0 <= k < i ==> live[k].id <= since
    ensures forall k :: i <= k < |live| ==> live[k].id > since
  {
    var j := |live|;
    i := 0;
    while i < j
      invariant 0 <= i <= j <= |live|
      invariant forall k :: 0 <= k < i ==> live[k].id <= since
      invariant forall k :: j <= k < |live| ==> live[k].id > since
    {
      var h := (i + j) / 2;
      if !(live[h].id > since) {
        i := h + 1;
      } else {
        j := h;
      }
    }
  }

  /** The test "ended before from" holds just before i and fails at i. */
  predicate Turns(live: seq<Event>, i: nat, from: int) {
    i <= |live| && (i > 0 ==> End(live[i - 1]) < from) && (i < |live| ==> End(live[i]) >= from)
  }

  /** sort.Search on the end of the events: whatever their order, the answer is a place where the test turns. */
  method SearchEnd(live: seq<Event>, from: int) returns (i: nat)
    ensures Turns(live, i, from)
  {
    var j := |live|;
    i := 0;
    while i < j
      invariant 0 <= i <= j <= |live|
      invariant i > 0 ==> End(live[i - 1]) < from
      invariant j < |live| ==> End(live[j]) >= from
    {
      var h := (i + j) / 2;
      if End(live[h]) < from {
        i := h + 1;
      } else {
        j := h;
      }
    }
  }

  function Started(s: seq<Event>, to: int): seq<Event> {
    if s == [] then [] else (if s[0].start < to then [s[0]] else []) + Started(s[1..], to)
  }

  /** The collecting loop. */
  method StartedBefore(s: seq<Event>, to: int) returns (out: seq<Event>)
    ensures out == Started(s, to)
  {
    out := [];
    assert [] + Started(s, to) == Started(s, to) && s[0..] == s;
    for k := 0 to |s|
      invariant out + Started(s[k..], to) == Started(s, to)
    {
      assert s[k..][1..] == s[k + 1..];
      ghost var rest := Started(s[k + 1..], to);
      assert (out + [s[k]]) + rest == out + ([s[k]] + rest) && out + ([] + rest) == out + rest;
      if s[k].start < to {
        out := out + [s[k]];
      }
    }
    assert s[|s|..] == [] && out + [] == out;
  }

  lemma {:induction false} OverlappingOfLate(s: seq<Event>, from: int, to: int)
    requires forall k :: 0 <= k < |s| ==> End(s[k]) >= from
    ensures Overlapping(s, from, to) == Started(s, to)
  {
    if s != [] {
      OverlappingOfLate(s[1..], from, to);
    }
  }

  /** What a range read may answer. */
  ghost predicate InRange(live: seq<Event>, from: int, to: int, out: seq<Event>) {
    && (forall e :: e in out ==> e in live && e.start < to)
    && (forall slack: nat :: EndOrdered(live, slack) ==> Within(live, from, to, out, slack))
    && (EndOrdered(live, 0) ==> out == Overlapping(live, from, to))
  }

  ghost predicate Within(live: seq<Event>, from: int, to: int, out: seq<Event>, slack: nat) {
    && (forall e :: e in out ==> End(e) >= from - slack)
    && (forall e :: e in live && End(e) >= from + slack && e.start < to ==> e in out)
  }

  lemma {:induction false} StartedMembers(s: seq<Event>, to: int)
    ensures forall e :: e in Started(s, to) <==> e in s && e.start < to
  {
    if s != [] {
      StartedMembers(s[1..], to);
    }
  }

  lemma SearchedWithin(live: seq<Event>, i: nat, from: int, to: int, slack: nat)
    requires Turns(live, i, from) && EndOrdered(live, slack)
    ensures Within(live, from, to, Started(live[i..], to), slack)
  {
    StartedMembers(live[i..], to);
    forall k | 0 <= k < |live| && End(live[k]) >= from + slack ensures live[k] in live[i..] {
      assert k >= i;
      assert live[i..][k - i] == live[k];
    }
    forall e | e in live[i..] ensures End(e) >= from - slack {
      var k :| 0 <= k < |live[i..]| && live[i..][k] == e;
      assert e == live[i + k];
    }
  }

  lemma SearchedRange(live: seq<Event>, i: nat, from: int, to: int)
    requires Turns(live, i, from)
    ensures InRange(live, from, to, Started(live[i..], to))
  {
    StartedMembers(live[i..], to);
    forall slack: nat | EndOrdered(live, slack) ensures Within(live, from, to, Started(live[i..], to), slack) {
      SearchedWithin(live, i, from, to, slack);
    }
    if EndOrdered(live, 0) {
      OverlappingOfSplit(live, i, from, to);
      OverlappingOfLate(live[i..], from, to);
    }
  }

  // ---- Exactly when range reads and evictions are exact ----

  lemma {:induction false} OverlappingMembers(s: seq<Event>, from: int, to: int)
    ensures forall e :: e in Overlapping(s, from, to) <==> e in s && End(e) >= from && e.start < to
  {
    if s != [] {
      OverlappingMembers(s[1..], from, to);
    }
  }

  lemma {:induction false} LatestStart(s: seq<Event>) returns (to: int)
    ensures forall e :: e in s ==> e.start < to
  {
    to := 0;
    if s != [] {
      var t := LatestStart(s[1..]);
      to := Max(t, s[0].start + 1);
      assert s == [s[0]] + s[1..];
    }
  }

  lemma {:induction false} TurnExists(live: seq<Event>, from: int) returns (i: nat)
    ensures Turns(live, i, from)
  {
    i := 0;
    if live != [] && End(live[0]) < from {
      i := TurnExists(live[1..], from);
      assert i > 0 ==> live[1..][i - 1] == live[i];
      assert i < |live| - 1 ==> live[1..][i] == live[i + 1];
      i := i + 1;
    }
  }

  /** Two events out of end order: from the end of the first on, every range read is wrong, wherever it turns -- it
      drops the first or keeps the second. */
  lemma CrossedPairMisread(live: seq<Event>, x: nat, y: nat, to: int, i: nat)
    requires Increasing(live) && x < y < |live| && End(live[x]) > End(live[y])
    requires live[x].start < to && live[y].start < to && Turns(live, i, End(live[x]))
    ensures Started(live[i..], to) != Overlapping(live, End(live[x]), to)
  {
    StartedMembers(live[i..], to);
    OverlappingMembers(live, End(live[x]), to);
    if i <= y {
      assert live[i..][y - i] == live[y];
    } else {
      assert live[x] !in live[i..];
    }
  }

  /** The end of an event is its start and its whole milliseconds, in nanoseconds: what an eviction drops first, and
      what a range read keeps, is decided by it. */
  lemma EndsDecide(live: seq<Event>, cutoff: int, maxEvents: nat, from: int, to: int)
    requires 0 < |live| <= maxEvents
    ensures Evicted(live, cutoff, maxEvents) == live <==> live[0].start + live[0].durMs * 1_000_000 >= cutoff
    ensures forall e :: e in Overlapping(live, from, to)
                        <==> e in live && e.start + e.durMs * 1_000_000 >= from && e.start < to
  {
    OverlappingMembers(live, from, to);
    DroppedAreExpired(live[1..], cutoff);
  }

  /** Over the cap the newest stay. */
  lemma CapKeepsNewest(live: seq<Event>, cutoff: int, maxEvents: nat)
    requires forall e :: e in live ==> End(e) >= cutoff
    ensures Evicted(live, cutoff, maxEvents) == if |live| > maxEvents then live[|live| - maxEvents..] else live
  {
    assert live != [] ==> live[0] in live;
  }

  /** Every range read of the ring is exact. */
  ghost predicate RangesExact(live: seq<Event>) {
    forall from, to, i: nat :: Turns(live, i, from) ==> Started(live[i..], to) == Overlapping(live, from, to)
  }

  /** Range reads are exact precisely for a ring in end order. */
  lemma RangesExactIff(live: seq<Event>)
    requires Increasing(live)
    ensures RangesExact(live) <==> EndOrdered(live, 0)
  {
    if EndOrdered(live, 0) {
      forall from, to, i: nat | Turns(live, i, from) ensures Started(live[i..], to) == Overlapping(live, from, to) {
        SearchedRange(live, i, from, to);
      }
    } else {
      var x, y :| 0 <= x < y < |live| && End(live[x]) > End(live[y]);
      var to := LatestStart(live);
      var i := TurnExists(live, End(live[x]));
      CrossedPairMisread(live, x, y, to, i);
    }
  }

  /** It happens: of two events the first ended later; a read from its end on cannot be right. */
  lemma CrossedRingMisread(i: nat)
    ensures var live := [Event(1, 0, 5, ""), Event(2, 0, 3, "")];
            Turns(live, i, 5_000_000) ==>
              Started(live[i..], 1) != Overlapping(live, 5_000_000, 1) == [Event(1, 0, 5, "")]
  {
    var live := [Event(1, 0, 5, ""), Event(2, 0, 3, "")];
    assert live[1..] == [Event(2, 0, 3, "")] && live[1..][1..] == [];
    if Turns(live, i, 5_000_000) {
      CrossedPairMisread(live, 0, 1, 1, i);
    }
  }

  /** An expired event sits behind one that has not expired. */
  ghost predicate Shielded(live: seq<Event>, cutoff: int) {
    exists i, j :: 0 <= i < j < |live| && End(live[i]) >= cutoff && End(live[j]) < cutoff
  }

  /** The front an eviction drops has expired, and what it keeps starts with an event that has not. */
  lemma DropSplits(live: seq<Event>, cutoff: int) returns (n: nat)
    ensures n <= |live| && DropExpired(live, cutoff) == live[n..]
    ensures forall k :: 0 <= k < n ==> End(live[k]) < cutoff
    ensures n < |live| ==> End(live[n]) >= cutoff
  {
    DropExpiredIsSuffix(live, cutoff);
    DroppedAreExpired(live, cutoff);
    n := |live| - |DropExpired(live, cutoff)|;
  }

  lemma KeptAllLive(live: seq<Event>, cutoff: int, n: nat)
    requires n <= |live| && (forall k :: 0 <= k < n ==> End(live[k]) < cutoff)
    requires n < |live| ==> End(live[n]) >= cutoff
    ensures (forall e :: e in live[n..] ==> End(e) >= cutoff) <==> !Shielded(live, cutoff)
  {
    if i, j :| 0 <= i < j < |live| && End(live[i]) >= cutoff && End(live[j]) < cutoff {
      assert live[n..][j - n] == live[j];
    } else {
      forall k | n <= k < |live| ensures End(live[k]) >= cutoff {
        assert n < |live| && (n < k ==> End(live[n]) >= cutoff);
      }
    }
  }

  /** Below the cap an eviction leaves exactly the unexpired events precisely when none that expired sits behind one
      that did not. */
  lemma EvictionExactIff(live: seq<Event>, cutoff: int, maxEvents: nat)
    requires |live| <= maxEvents
    ensures (forall e :: e in Evicted(live, cutoff, maxEvents) <==> e in live && End(e) >= cutoff)
            <==> !Shielded(live, cutoff)
  {
    var n := DropSplits(live, cutoff);
    KeptAllLive(live, cutoff, n);
    assert Evicted(live, cutoff, maxEvents) == live[n..];
    assert live == live[..n] + live[n..];
    assert forall e :: e in live[..n] ==> End(e) < cutoff;
  }

  lemma NumberedSuffix(live: seq<Event>, history: seq<Event>)
    requires Numbered(history) && IsSuffix(live, history)
    ensures forall i :: 0 <= i < |live| ==> live[i].id == |history| - |live| + i + 1
  {
  }

  // ---- A polling client ----

  /** The ring and one client: its cursor, what it was given, and what eviction took before it asked. */
  datatype Polled = Polled(history: seq<Event>, live: seq<Event>, cursor: nat, given: seq<Event>, lost: seq<Event>)

  datatype Op = Recorded(e: Event, now: int) | Poll(now: int)

  function Appended(p: Polled, e: Event): Polled {
    var numbered := e.(id := |p.history| + 1);
    p.(history := p.history + [numbered], live := p.live + [numbered])
  }

  /** An eviction takes the front of the live events; those the client has not asked past are lost to it. */
  function Aged(p: Polled, cutoff: int, maxEvents: nat): Polled {
    var live := Evicted(p.live, cutoff, maxEvents);
    EvictedIsSuffix(p.live, cutoff, maxEvents);
    p.(live := live, lost := p.lost + After(p.live[..|p.live| - |live|], p.cursor))
  }

  /** The client is given the live events behind its cursor, and MaxID to ask with next. */
  function Asked(p: Polled): Polled {
    p.(cursor := |p.history|, given := p.given + After(p.live, p.cursor))
  }

  function Step(p: Polled, op: Op, retention: int, maxEvents: nat): Polled {
    match op
    case Recorded(e, now) => Aged(Appended(p, e), now - retention, maxEvents)
    case Poll(now) => Asked(Aged(p, now - retention, maxEvents))
  }

  function RunOps(p: Polled, ops: seq<Op>, retention: int, maxEvents: nat): Polled
    decreases |ops|
  {
    if ops == [] then p else RunOps(Step(p, ops[0], retention, maxEvents), ops[1..], retention, maxEvents)
  }

  /** The events are recorded ones, numbered up to hi. */
  ghost predicate FromHistory(s: seq<Event>, history: seq<Event>, hi: nat)
    requires hi <= |history|
  {
    forall k :: 0 <= k < |s| ==> 0 < s[k].id <= hi && s[k] == history[s[k].id - 1]
  }

  /** In order, without repeats, and recorded events numbered up to hi. */
  ghost predicate Drawn(s: seq<Event>, history: seq<Event>, hi: nat)
    requires hi <= |history|
  {
    Increasing(s) && FromHistory(s, history, hi)
  }

  /** Up to the cursor every event was either given or lost; behind it every event is either lost or still live. */
  ghost predicate Split(history: seq<Event>, start: nat, cursor: nat, given: seq<Event>, lost: seq<Event>) {
    && (forall i {:trigger history[i] in given} {:trigger history[i] in lost} ::
          0 <= i < |history| && i < cursor ==> (history[i] in given <==> history[i] !in lost))
    && (forall i {:trigger history[i] in lost} :: cursor <= i < |history| && i < start ==> history[i] in lost)
  }

  /** What was given is in order, once each, and so is what was lost, all of it evicted; together with what is live
      behind the cursor they are everything recorded. */
  ghost predicate Accounted(p: Polled) {
    && Numbered(p.history) && IsSuffix(p.live, p.history) && p.cursor <= |p.history|
    && Drawn(p.given, p.history, p.cursor)
    && Drawn(p.lost, p.history, |p.history| - |p.live|)
    && Split(p.history, |p.history| - |p.live|, p.cursor, p.given, p.lost)
  }

  lemma AfterOfSlice(history: seq<Event>, lo: nat, hi: nat, cursor: nat)
    requires Numbered(history) && lo <= hi <= |history|
    ensures After(history[lo..hi], cursor) == history[Clamp(cursor, lo, hi)..hi]
  {
    var s := history[lo..hi];
    var i := Clamp(cursor, lo, hi) - lo;
    forall k | 0 <= k < |s| ensures s[k].id == lo + k + 1 {
      assert s[k] == history[lo + k];
    }
    AfterOfSplit(s, i, cursor);
    assert s[i..] == history[lo + i..hi];
  }

  function Clamp(x: nat, lo: nat, hi: nat): (y: nat)
    requires lo <= hi
    ensures lo <= y <= hi
  {
    if x <= lo then lo else if x >= hi then hi else x
  }

  /** In the slice exactly the events of its positions, in order. */
  lemma SliceMembers(history: seq<Event>, lo: nat, hi: nat)
    requires Numbered(history) && lo <= hi <= |history|
    ensures Increasing(history[lo..hi])
    ensures forall k :: 0 <= k < hi - lo ==> history[lo..hi][k].id == lo + k + 1
    ensures forall i :: 0 <= i < |history| ==> (history[i] in history[lo..hi] <==> lo <= i < hi)
  {
    var s := history[lo..hi];
    forall k | 0 <= k < |s| ensures s[k] == history[lo + k] && s[k].id == lo + k + 1 {}
    forall i | 0 <= i < |history| ensures history[i] in s <==> lo <= i < hi {
      if lo <= i < hi {
        assert s[i - lo] == history[i];
      } else {
        assert forall k :: 0 <= k < |s| ==> s[k].id != history[i].id;
      }
    }
  }

  lemma NotBeyond(s: seq<Event>, history: seq<Event>, hi: nat)
    requires Numbered(history) && hi <= |history| && Drawn(s, history, hi)
    ensures forall i :: hi <= i < |history| ==> history[i] !in s
  {
  }

  /** Appending the slice [lo, hi) to events numbered up to lo. */
  lemma AppendSlice(s: seq<Event>, history: seq<Event>, mid: nat, lo: nat, hi: nat)
    requires Numbered(history) && mid <= lo <= hi <= |history| && Drawn(s, history, mid)
    ensures Drawn(s + history[lo..hi], history, hi)
    ensures forall i :: 0 <= i < |history| ==> (history[i] in s + history[lo..hi] <==> history[i] in s || lo <= i < hi)
  {
    SliceMembers(history, lo, hi);
  }

  lemma LostSplits(history: seq<Event>, n: nat, m: nat, cursor: nat, given: seq<Event>, lost: seq<Event>)
    requires Numbered(history) && n <= m <= |history| && Drawn(lost, history, n) && cursor <= |history|
    requires Split(history, n, cursor, given, lost)
    ensures var more := lost + history[Clamp(cursor, n, m)..m];
            Drawn(more, history, m) && Split(history, m, cursor, given, more)
  {
    AppendSlice(lost, history, n, Clamp(cursor, n, m), m);
  }

  lemma GivenSplits(history: seq<Event>, n: nat, cursor: nat, given: seq<Event>, lost: seq<Event>)
    requires Numbered(history) && n <= |history| && Drawn(lost, history, n) && cursor <= |history|
    requires Drawn(given, history, cursor) && Split(history, n, cursor, given, lost)
    ensures var more := given + history[Clamp(cursor, n, |history|)..|history|];
            Drawn(more, history, |history|) && Split(history, n, |history|, more, lost)
  {
    AppendSlice(given, history, cursor, Clamp(cursor, n, |history|), |history|);
    NotBeyond(given, history, cursor);
    NotBeyond(lost, history, n);
  }

  /** An eviction moves the first live event from n to m. */
  lemma AgedMoves(p: Polled, n: nat, cutoff: int, maxEvents: nat) returns (m: nat)
    requires Numbered(p.history) && n <= |p.history| && p.live == p.history[n..]
    ensures n <= m <= |p.history|
    ensures Aged(p, cutoff, maxEvents)
         == p.(live := p.history[m..], lost := p.lost + p.history[Clamp(p.cursor, n, m)..m])
  {
    var live := Evicted(p.live, cutoff, maxEvents);
    EvictedIsSuffix(p.live, cutoff, maxEvents);
    m := |p.history| - |live|;
    assert live == p.live[m - n..] == p.history[m..];
    assert p.live[..m - n] == p.history[n..m];
    AfterOfSlice(p.history, n, m, p.cursor);
  }

  lemma AgedAccounts(p: Polled, cutoff: int, maxEvents: nat)
    requires Accounted(p)
    ensures Accounted(Aged(p, cutoff, maxEvents))
  {
    var n := |p.history| - |p.live|;
    var m := AgedMoves(p, n, cutoff, maxEvents);
    LostSplits(p.history, n, m, p.cursor, p.given, p.lost);
  }

  lemma AskedAccounts(p: Polled)
    requires Accounted(p)
    ensures Accounted(Asked(p))
  {
    var n := |p.history| - |p.live|;
    assert p.live == p.history[n..|p.history|];
    AfterOfSlice(p.history, n, |p.history|, p.cursor);
    GivenSplits(p.history, n, p.cursor, p.given, p.lost);
  }

  lemma AppendedAccounts(p: Polled, e: Event)
    requires Accounted(p)
    ensures Accounted(Appended(p, e))
  {
    var q := Appended(p, e);
    assert forall i :: 0 <= i < |p.history| ==> q.history[i] == p.history[i];
  }

  lemma PollAccounts(p: Polled, cutoff: int, maxEvents: nat)
    requires Accounted(p)
    ensures Accounted(Asked(Aged(p, cutoff, maxEvents)))
  {
    AgedAccounts(p, cutoff, maxEvents);
    AskedAccounts(Aged(p, cutoff, maxEvents));
  }

  lemma RecordAccounts(p: Polled, e: Event, cutoff: int, maxEvents: nat)
    requires Accounted(p)
    ensures Accounted(Aged(Appended(p, e), cutoff, maxEvents))
  {
    AppendedAccounts(p, e);
    AgedAccounts(Appended(p, e), cutoff, maxEvents);
  }

  lemma StepAccounts(p: Polled, op: Op, retention: int, maxEvents: nat)
    requires Accounted(p)
    ensures Accounted(Step(p, op, retention, maxEvents))
  {
    match op
    case Poll(now) => PollAccounts(p, now - retention, maxEvents);
    case Recorded(e, now) => RecordAccounts(p, e, now - retention, maxEvents);
  }

  /** Over every interleaving of records and polls, a client that asks with its last MaxID is given each event once,
      in order, except those evicted before it asked. */
  lemma {:induction false} ExactlyOnce(p: Polled, ops: seq<Op>, retention: int, maxEvents: nat)
    requires Accounted(p)
    ensures Accounted(RunOps(p, ops, retention, maxEvents))
    decreases |ops|
  {
    if ops != [] {
      StepAccounts(p, ops[0], retention, maxEvents);
      ExactlyOnce(Step(p, ops[0], retention, maxEvents), ops[1..], retention, maxEvents);
    }
  }
}
