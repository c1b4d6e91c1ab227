// internal/ghdata/watermarks.go: which webhook deliveries may still write, decided per subject by the payload clock.
// Times are nanoseconds since the zero time (year one); stored times are whole seconds (see Rfc3339).
module Watermarks {
  import opened Options

  const NS := 1_000_000_000
  const Retention := 7 * 24 * 3600 * NS

  function Sec(at: int): int { at / NS }

  datatype Mark = Mark(sec: nat, delivery: string, updatedAt: int)

  /** `previous` is 0, the zero time, when no mark was read. */
  datatype Verdict = Verdict(superseded: bool, previous: nat, previousDelivery: string, lateness: int)

  datatype Delivery = Delivery(subject: string, at: nat, id: string, now: int)

  type Marks = map<string, Mark>

  function MarkOf(marks: Marks, subject: string): Option<Mark> {
    if subject in marks then Some(marks[subject]) else None
  }

  predicate Orderable(d: Delivery) { d.subject != "" && d.at != 0 }

  /** ClaimWebhookWatermark's WHERE: only forward. */
  predicate Wins(current: Option<Mark>, at: nat) { current.None? || Sec(at) > current.value.sec }

  /** PruneWebhookWatermarks. */
  function Pruned(marks: Marks, cutoff: int): Marks {
    map s | s in marks && marks[s].updatedAt >= cutoff :: marks[s]
  }

  function After(marks: Marks, d: Delivery): Marks {
    if Orderable(d) && Wins(MarkOf(marks, d.subject), d.at)
    then Pruned(marks[d.subject := Mark(Sec(d.at), d.id, Sec(d.now))], Sec(d.now - Retention))
    else marks
  }

  /** The verdict on a delivery that read one mark and then claimed against another. */
  function Judged(read: Option<Mark>, current: Option<Mark>, d: Delivery): Verdict {
    var previous := if read.Some? then read.value.sec else 0;
    var setter := if read.Some? then read.value.delivery else "";
    if !Orderable(d) then Verdict(false, 0, "", 0)
    else if Wins(current, d.at) || (previous != 0 && Sec(d.at) >= previous) then Verdict(false, previous, setter, 0)
    else Verdict(true, previous, setter, previous * NS - d.at)
  }

  predicate Superseded(marks: Marks, d: Delivery) {
    Judged(MarkOf(marks, d.subject), MarkOf(marks, d.subject), d).superseded
  }

  class Store {
    var marks: Marks

    constructor ()
      ensures marks == map[]
    {
      marks := map[];
    }

    /** The upsert with its WHERE; `won` is whether RETURNING yields a row. */
    method ClaimWebhookWatermark(subject: string, sec: nat, id: string, updatedAt: int) returns (won: bool)
      modifies this
      ensures won == (subject !in old(marks) || sec > old(marks)[subject].sec)
      ensures marks == if won then old(marks)[subject := Mark(sec, id, updatedAt)] else old(marks)
    {
      won := subject !in marks || sec > marks[subject].sec;
      if won {
        marks := marks[subject := Mark(sec, id, updatedAt)];
      }
    }

    method ClaimEventOrder(d: Delivery) returns (v: Verdict)
      modifies this
      ensures marks == After(old(marks), d)
      ensures v == Judged(MarkOf(old(marks), d.subject), MarkOf(old(marks), d.subject), d)
    {
      if d.subject == "" || d.at == 0 {
        return Verdict(false, 0, "", 0);
      }
      var previous: nat, previousDelivery := 0, "";
      if d.subject in marks {
        previous, previousDelivery := marks[d.subject].sec, marks[d.subject].delivery;
      }
      var won := ClaimWebhookWatermark(d.subject, Sec(d.at), d.id, Sec(d.now));
      if won {
        marks := Pruned(marks, Sec(d.now - Retention));
        return Verdict(false, previous, previousDelivery, 0);
      }
      if previous != 0 && Sec(d.at) >= previous {
        return Verdict(false, previous, previousDelivery, 0);
      }
      return Verdict(true, previous, previousDelivery, previous * NS - d.at);
    }
  }

  /** A delivery without a subject or a time applies and leaves no trace; the first one about a subject applies too. */
  lemma UnorderedApplies(marks: Marks, d: Delivery)
    ensures d.subject == "" || d.at == 0 ==>
              After(marks, d) == marks && forall read, current :: Judged(read, current, d) == Verdict(false, 0, "", 0)
    ensures d.subject != "" && d.at != 0 && d.subject !in marks ==>
              && d.subject in After(marks, d)
              && After(marks, d)[d.subject] == Mark(d.at / 1_000_000_000, d.id, d.now / 1_000_000_000)
              && Judged(None, None, d) == Verdict(false, 0, "", 0)
  {
  }

  /** A claim that wins takes with it exactly the other subjects' marks that nothing has touched for seven days. */
  lemma RetentionIsAWeek(marks: Marks, d: Delivery, s: string)
    requires d.subject != "" && d.at != 0 && s != d.subject
    requires d.subject in marks ==> d.at / 1_000_000_000 > marks[d.subject].sec
    ensures s in After(marks, d)
            <==> s in marks && marks[s].updatedAt >= (d.now - 604_800 * 1_000_000_000) / 1_000_000_000
    ensures s in After(marks, d) ==> After(marks, d)[s] == marks[s]
  {
  }

  /** A late delivery is told by whom it was overtaken, when, and by how much. */
  lemma LateIsTold(mark: Mark, d: Delivery)
    requires d.subject != "" && d.at != 0 && d.at / 1_000_000_000 < mark.sec
    ensures Judged(Some(mark), Some(mark), d)
         == Verdict(true, mark.sec, mark.delivery, mark.sec * 1_000_000_000 - d.at)
  {
  }

  // ---- Whole histories, from no marks ----

  function Run(ds: seq<Delivery>): Marks {
    if ds == [] then map[] else After(Run(ds[..|ds| - 1]), ds[|ds| - 1])
  }

  predicate About(d: Delivery, s: string) { d.subject == s && Orderable(d) }

  /** The newest delivery about a subject, the first of those in the same second. */
  function First(ds: seq<Delivery>, s: string): Option<Delivery> {
    if ds == [] then None else
      var d, best := ds[|ds| - 1], First(ds[..|ds| - 1], s);
      if About(d, s) && (best.None? || Sec(d.at) > Sec(best.value.at)) then Some(d) else best
  }

  /** The newest delivery about a subject, the last of those in the same second. */
  function Last(ds: seq<Delivery>, s: string): Option<Delivery> {
    if ds == [] then None else
      var d, best := ds[|ds| - 1], Last(ds[..|ds| - 1], s);
      if About(d, s) && (best.None? || Sec(d.at) >= Sec(best.value.at)) then Some(d) else best
  }

  /** The delivery about a subject that wrote last. */
  function LastApplied(ds: seq<Delivery>, s: string): Option<Delivery> {
    if ds == [] then None else
      var d, before := ds[|ds| - 1], ds[..|ds| - 1];
      if About(d, s) && !Superseded(Run(before), d) then Some(d) else LastApplied(before, s)
  }

  /** Nothing is handled more than the retention after anything else. */
  ghost predicate Within(ds: seq<Delivery>, lo: int) {
    forall d :: d in ds ==> lo <= d.now <= lo + Retention
  }

  ghost predicate Newest(ds: seq<Delivery>, s: string, best: Option<Delivery>) {
    && (best.None? ==> forall d :: d in ds ==> !About(d, s))
    && (best.Some? ==>
          && best.value in ds && About(best.value, s)
          && forall d :: d in ds && About(d, s) ==> Sec(d.at) <= Sec(best.value.at))
  }

  lemma {:induction false} FirstAndLastAreNewest(ds: seq<Delivery>, s: string)
    ensures Newest(ds, s, First(ds, s)) && Newest(ds, s, Last(ds, s))
  {
    if ds != [] {
      FirstAndLastAreNewest(ds[..|ds| - 1], s);
      assert ds == ds[..|ds| - 1] + [ds[|ds| - 1]];
    }
  }

  ghost predicate Holds(mark: Option<Mark>, best: Option<Delivery>, lo: int) {
    if best.None? then mark.None? else
      && mark.Some? && mark.value.sec == Sec(best.value.at) && mark.value.delivery == best.value.id
      && mark.value.updatedAt >= Sec(lo)
  }

  lemma PruneKeeps(lo: int, now: int)
    requires lo <= now <= lo + Retention
    ensures Sec(now - Retention) <= Sec(lo) <= Sec(now)
  {
  }

  /** Within the retention a subject's watermark is the newest second any delivery about it named, credited to the
      first delivery that named it; a subject nobody named has none. */
  lemma {:induction false} WatermarkIsMaximum(ds: seq<Delivery>, s: string, lo: int)
    requires Within(ds, lo)
    ensures Holds(MarkOf(Run(ds), s), First(ds, s), lo)
    ensures Newest(ds, s, First(ds, s))
  {
    FirstAndLastAreNewest(ds, s);
    if ds != [] {
      var d, before := ds[|ds| - 1], ds[..|ds| - 1];
      WatermarkIsMaximum(before, s, lo);
      PruneKeeps(lo, d.now);
    }
  }

  /** A delivery is turned away exactly when an earlier one about its subject named a strictly newer second -- or when
      both fall in the very first second of year one, whose stored form reads back as no time at all. It is then
      late. */
  lemma SupersededIffOlder(ds: seq<Delivery>, d: Delivery, lo: int)
    requires Within(ds, lo) && Orderable(d)
    ensures Superseded(Run(ds), d) <==>
            exists e :: e in ds && About(e, d.subject) && (Sec(e.at) > Sec(d.at) || Sec(e.at) == Sec(d.at) == 0)
    ensures var v := Judged(MarkOf(Run(ds), d.subject), MarkOf(Run(ds), d.subject), d);
            v.superseded ==> (v.lateness > 0 <==> v.previous > 0)
  {
    WatermarkIsMaximum(ds, d.subject, lo);
    var best := First(ds, d.subject);
    if best.Some? {
      assert best.value in ds && About(best.value, d.subject);
    }
  }

  /** Deliveries about one subject that write do so in the order of their seconds. */
  lemma AppliedNeverGoesBack(ds: seq<Delivery>, i: nat, j: nat, lo: int)
    requires Within(ds, lo) && i < j < |ds| && About(ds[j], ds[i].subject) && Orderable(ds[i])
    requires !Superseded(Run(ds[..j]), ds[j])
    ensures Sec(ds[i].at) <= Sec(ds[j].at)
  {
    SupersededIffOlder(ds[..j], ds[j], lo);
    assert ds[..j][i] == ds[i];
  }

  /** The first second of year one aside. */
  ghost predicate Dated(ds: seq<Delivery>, s: string) {
    forall d :: d in ds && About(d, s) ==> Sec(d.at) > 0
  }

  /** What a subject is left with is its newest delivery, the last to arrive of those in the same second. */
  lemma {:induction false} LastAppliedIsNewest(ds: seq<Delivery>, s: string, lo: int)
    requires Within(ds, lo) && Dated(ds, s)
    ensures LastApplied(ds, s) == Last(ds, s)
    ensures Newest(ds, s, LastApplied(ds, s))
  {
    FirstAndLastAreNewest(ds, s);
    if ds != [] {
      var d, before := ds[|ds| - 1], ds[..|ds| - 1];
      LastAppliedIsNewest(before, s, lo);
      WatermarkIsMaximum(before, s, lo);
      FirstAndLastAreNewest(before, s);
    }
  }

  /** Deliveries about a subject that name the same second are the same. */
  ghost predicate Distinct(ds: seq<Delivery>, s: string) {
    forall d, e :: d in ds && e in ds && About(d, s) && About(e, s) && Sec(d.at) == Sec(e.at) ==> d == e
  }

  /** The order of arrival, and how often each delivery arrives, do not decide what wrote last. */
  lemma ArrivalOrderIrrelevant(ds: seq<Delivery>, es: seq<Delivery>, s: string, lo: int)
    requires forall d :: d in ds <==> d in es
    requires Within(ds, lo) && Dated(ds, s) && Distinct(ds, s)
    ensures LastApplied(ds, s) == LastApplied(es, s)
    ensures MarkOf(Run(ds), s).None? <==> MarkOf(Run(es), s).None?
    ensures MarkOf(Run(ds), s).Some? ==> MarkOf(Run(ds), s).value.sec == MarkOf(Run(es), s).value.sec
  {
    LastAppliedIsNewest(ds, s, lo);
    LastAppliedIsNewest(es, s, lo);
    WatermarkIsMaximum(ds, s, lo);
    WatermarkIsMaximum(es, s, lo);
  }

  // ---- The read and the claim are two statements ----

  /** The verdict of a delivery that read the mark after `ds` and claimed after `es` had been handled too. */
  function Raced(ds: seq<Delivery>, es: seq<Delivery>, d: Delivery): Verdict {
    Judged(MarkOf(Run(ds), d.subject), MarkOf(Run(ds + es), d.subject), d)
  }

  /** The race: a delivery older than one already handled is let through exactly when that one came between its read and
      its claim, everything it could read was no newer than itself, and there was something to read. */
  lemma InterleavedOlderAppliesIff(ds: seq<Delivery>, es: seq<Delivery>, d: Delivery, lo: int)
    requires Within(ds + es, lo) && Orderable(d)
    requires exists e :: e in ds + es && About(e, d.subject) && Sec(e.at) > Sec(d.at)
    ensures !Raced(ds, es, d).superseded <==>
            && (forall e :: e in ds && About(e, d.subject) ==> Sec(e.at) <= Sec(d.at))
            && (exists e :: e in ds && About(e, d.subject) && Sec(e.at) > 0)
  {
    WatermarkIsMaximum(ds, d.subject, lo);
    WatermarkIsMaximum(ds + es, d.subject, lo);
    var read := First(ds, d.subject);
    if read.Some? {
      assert read.value in ds && About(read.value, d.subject);
    }
  }

  /** Nothing in between: the two statements judge as one. */
  lemma UnracedIsAtomic(ds: seq<Delivery>, d: Delivery)
    ensures Raced(ds, [], d).superseded == Superseded(Run(ds), d)
  {
    assert ds + [] == ds;
  }
}
