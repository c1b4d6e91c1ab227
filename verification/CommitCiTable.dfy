// internal/ghdata/respcache_commitci_apply.go and respcache_commitci.go: the commit_ci_cache table of one repo and
// the two deliveries that settle it. Queries: internal/database/queries/respcache.sql, UpsertCommitCICache,
// DeleteCommitCICacheForRefKind, ListCommitCICacheByRepoKind and DeleteExpiredCommitCICache. Times are whole seconds.
module CommitCiTable {
  import opened Options
  import opened CommitCiDocs
  import opened CommitCiRefinement

  datatype Kind = CombinedKind | ListKind | RunsKind

  datatype Key = Key(kind: Kind, ref: string, perPage: nat, page: int)

  /** A stored document; Tombstone stands for one that does not decode as its kind. */
  datatype Doc = Combined(status: CombinedDoc) | Listed(items: seq<ListItem>) | Page(page: RunsPage) | Tombstone

  datatype Row = Row(doc: Doc, expires: int)

  type Rows = map<Key, Row>

  datatype Event = Posted(up: Status) | Checked(run: Run)

  datatype Verdict = Skip | Flush | Rewrite(doc: Doc)

  type Verdicted = map<Key, Verdict>

  /** What a delivery does to one stored row, decided from the row alone. */
  ghost function Decide(k: Key, doc: Doc, e: Event): Verdict {
    match e
    case Posted(up) =>
      if k.kind == CombinedKind && doc.Combined? && doc.status.sha == up.sha then
        var r := CombinedAfter(doc.status, k.perPage, k.page, up);
        if r.Some? then Rewrite(Combined(r.value)) else Flush
      else if k.kind == ListKind && k.ref == up.sha then
        var r := if doc.Listed? then ListAfter(doc.items, k.perPage, k.page, up) else None;
        if r.Some? then Rewrite(Listed(r.value)) else Flush
      else Skip
    case Checked(run) =>
      if k.kind == RunsKind && doc.Page? then
        var r := RunsAfter(doc.page, k.perPage, k.page, run);
        if r.Some? then Rewrite(Page(r.value))
        else if Describes(doc.page, run.headSHA) then Flush
        else Skip
      else Skip
  }

  method DecideRow(k: Key, doc: Doc, e: Event) returns (v: Verdict)
    ensures v == Decide(k, doc, e)
  {
    v := Skip;
    match e {
      case Posted(up) =>
        if k.kind == CombinedKind && doc.Combined? && doc.status.sha == up.sha {
          var r := PatchCombinedStatus(doc.status, k.perPage, k.page, up);
          v := if r.Some? then Rewrite(Combined(r.value)) else Flush;
        } else if k.kind == ListKind && k.ref == up.sha {
          var r := None;
          if doc.Listed? {
            r := PatchStatusesList(doc.items, k.perPage, k.page, up);
          }
          v := if r.Some? then Rewrite(Listed(r.value)) else Flush;
        }
      case Checked(run) =>
        if k.kind == RunsKind && doc.Page? {
          var r := PatchCheckRunsPage(doc.page, k.perPage, k.page, run);
          if r.Some? {
            v := Rewrite(Page(r.value));
          } else {
            var describes := PageDescribesSHA(doc.page, run.headSHA);
            v := if describes then Flush else Skip;
          }
        }
    }
  }

  ghost function Verdicts(rows: Rows, kind: Kind, e: Event): Verdicted {
    map k | k in rows && k.kind == kind :: Decide(k, rows[k].doc, e)
  }

  /** Some page of this ref and kind has to be dropped, which takes every page of it. */
  ghost predicate Flushed(v: Verdicted, ref: string) {
    exists k :: k in v && k.ref == ref && v[k].Flush?
  }

  /** Some visited page of this ref had to be dropped. */
  ghost predicate Taken(v: Verdicted, ref: string, pending: set<Key>) {
    exists k :: k in v && k !in pending && k.ref == ref && v[k].Flush?
  }

  /** A page that outlives a drop of its ref has been rewritten since. */
  ghost predicate SweptAt(k: Key, after: Rows, v: Verdicted, pending: set<Key>) {
    k in after && k in v && Taken(v, k.ref, pending) ==> k !in pending && v[k].Rewrite?
  }

  /** A surviving row holds its rewrite, or was not about the event; nothing else appears. */
  ghost predicate SoundAt(k: Key, before: Rows, after: Rows, v: Verdicted, pending: set<Key>, expires: int) {
    k in after ==>
      k in before
      && (if k !in pending && k in v && !v[k].Skip? then v[k].Rewrite? && after[k] == Row(v[k].doc, expires)
          else after[k] == before[k])
  }

  /** A row that must still be there: a rewritten one, or an untouched one that has not expired, unless its ref is
      flushed. */
  ghost predicate KeptAt(k: Key, before: Rows, after: Rows, v: Verdicted, pending: set<Key>, now: int) {
    k in before && !(k in v && Flushed(v, k.ref))
    && ((k !in pending && k in v && v[k].Rewrite?) || before[k].expires > now)
    ==> k in after
  }

  /** The table after a pass that has visited every row of the kind except `pending`. */
  ghost predicate Landed(before: Rows, after: Rows, v: Verdicted, pending: set<Key>, now: int, expires: int) {
    && (forall k :: SoundAt(k, before, after, v, pending, expires))
    && (forall k :: SweptAt(k, after, v, pending))
    && (expires > now ==> forall k :: KeptAt(k, before, after, v, pending, now))
  }

  /** PutCachedCommitCI: store the document, then prune what has expired. */
  function Stored(rows: Rows, k: Key, row: Row, now: int): Rows {
    var more := rows[k := row];
    map x | x in more && more[x].expires > now :: more[x]
  }

  /** DeleteCommitCICacheForRefKind: every page of the ref's spelling. */
  function Without(rows: Rows, ref: string, kind: Kind): Rows {
    map x | x in rows && !(x.ref == ref && x.kind == kind) :: rows[x]
  }

  function WithoutBranches(rows: Rows, refs: set<string>, sha: string): Rows {
    map x | x in rows && !(x.kind == ListKind && x.ref in refs && x.ref != sha) :: rows[x]
  }

  lemma TakenStep(v: Verdicted, ref: string, pending: set<Key>, k: Key)
    requires k in pending && k in v
    ensures Taken(v, ref, pending - {k}) <==> Taken(v, ref, pending) || (k.ref == ref && v[k].Flush?)
  {
    if Taken(v, ref, pending) {
      var x :| x in v && x !in pending && x.ref == ref && v[x].Flush?;
      assert x !in pending - {k};
    }
  }

  lemma FlushStep(before: Rows, after: Rows, v: Verdicted, pending: set<Key>, now: int, expires: int, k: Key)
    requires Landed(before, after, v, pending, now, expires)
    requires k in pending && k in v && v[k].Flush?
    requires forall x :: x in v <==> x in before && x.kind == k.kind
    ensures Landed(before, Without(after, k.ref, k.kind), v, pending - {k}, now, expires)
  {
    var next := Without(after, k.ref, k.kind);
    assert Flushed(v, k.ref);
    forall x ensures SoundAt(x, before, next, v, pending - {k}, expires) {
      assert SoundAt(x, before, after, v, pending, expires);
    }
    forall x ensures SweptAt(x, next, v, pending - {k}) {
      assert SweptAt(x, after, v, pending);
      TakenStep(v, x.ref, pending, k);
    }
    if expires > now {
      forall x ensures KeptAt(x, before, next, v, pending - {k}, now) {
        assert KeptAt(x, before, after, v, pending, now);
      }
    }
  }

  lemma RewriteStep(before: Rows, after: Rows, v: Verdicted, pending: set<Key>, now: int, expires: int, k: Key)
    requires Landed(before, after, v, pending, now, expires)
    requires k in pending && k in v && k in before && v[k].Rewrite?
    ensures Landed(before, Stored(after, k, Row(v[k].doc, expires), now), v, pending - {k}, now, expires)
  {
    var next := Stored(after, k, Row(v[k].doc, expires), now);
    forall x ensures SoundAt(x, before, next, v, pending - {k}, expires) {
      assert SoundAt(x, before, after, v, pending, expires);
    }
    forall x ensures SweptAt(x, next, v, pending - {k}) {
      assert SweptAt(x, after, v, pending);
      TakenStep(v, x.ref, pending, k);
    }
    if expires > now {
      forall x ensures KeptAt(x, before, next, v, pending - {k}, now) {
        assert KeptAt(x, before, after, v, pending, now);
        assert SoundAt(x, before, after, v, pending, expires);
      }
    }
  }

  lemma SkipStep(before: Rows, after: Rows, v: Verdicted, pending: set<Key>, now: int, expires: int, k: Key)
    requires Landed(before, after, v, pending, now, expires)
    requires k in pending && k in v && v[k].Skip?
    ensures Landed(before, after, v, pending - {k}, now, expires)
  {
    forall x ensures SoundAt(x, before, after, v, pending - {k}, expires) {
      assert SoundAt(x, before, after, v, pending, expires);
    }
    forall x ensures SweptAt(x, after, v, pending - {k}) {
      assert SweptAt(x, after, v, pending);
      TakenStep(v, x.ref, pending, k);
    }
    if expires > now {
      forall x ensures KeptAt(x, before, after, v, pending - {k}, now) {
        assert KeptAt(x, before, after, v, pending, now);
      }
    }
  }

  predicate FullHexSHA(s: string) {
    (|s| == 40 || |s| == 64) && forall c :: c in s ==> '0' <= c <= '9' || 'a' <= c <= 'f'
  }

  /** IsFullHexSHA of internal/ghdata/respcache_gitrefs.go. */
  method IsFullHexSHA(s: string) returns (full: bool)
    ensures full <==> (|s| == 40 || |s| == 64) && forall c :: c in s ==> c in "0123456789abcdef"
    ensures full <==> FullHexSHA(s)
  {
    HexDigits();
    if |s| != 40 && |s| != 64 {
      return false;
    }
    for i := 0 to |s|
      invariant forall k :: 0 <= k < i ==> s[k] in "0123456789abcdef"
    {
      var c := s[i];
      if (c < '0' || c > '9') && (c < 'a' || c > 'f') {
        assert s[i] in s;
        return false;
      }
    }
    return true;
  }

  lemma HexDigits()
    ensures forall c: char :: c in "0123456789abcdef" <==> '0' <= c <= '9' || 'a' <= c <= 'f'
  {
    var d := "0123456789abcdef";
    assert forall i :: 0 <= i < |d| ==> d[i] == if i < 10 then '0' + i as char else 'a' + (i - 10) as char;
    forall c: char | '0' <= c <= '9' || 'a' <= c <= 'f' ensures c in d {
      var i := if c <= '9' then (c - '0') as int else (c - 'a') as int + 10;
      assert d[i] == c;
    }
  }

  /** Which deliveries are acted on, in the source's own terms. */
  lemma ActedOn(up: Status, run: Run)
    ensures ValidStatus(up) <==>
            (|up.sha| == 40 || |up.sha| == 64) && (forall c :: c in up.sha ==> c in "0123456789abcdef")
            && |up.context| > 0 && |up.state| > 0
    ensures ValidRun(run) <==>
            (|run.headSHA| == 40 || |run.headSHA| == 64) && (forall c :: c in run.headSHA ==> c in "0123456789abcdef")
            && run.id >= 1 && |run.status| > 0
  {
    HexDigits();
  }

  predicate ValidStatus(up: Status) {
    FullHexSHA(up.sha) && up.context != "" && up.state != ""
  }

  predicate ValidRun(run: Run) {
    run.id > 0 && run.status != "" && FullHexSHA(run.headSHA)
  }

  /** The table after a whole status delivery. */
  ghost predicate Settled(before: Rows, after: Rows, branchRefs: set<string>, up: Status, expires: int) {
    forall k :: k in after ==>
      && k in before
      && !(k.kind == ListKind && k.ref in branchRefs && k.ref != up.sha)
      && (var d := Decide(k, before[k].doc, Posted(up));
          if d.Skip? then after[k] == before[k] else d.Rewrite? && after[k] == Row(d.doc, expires))
  }

  /** Some stored page of the ref and kind refuses the status, which takes every page of that ref and kind. */
  ghost predicate Refused(before: Rows, k: Key, up: Status) {
    exists x :: x in before && Refuses(before, x, k, up)
  }

  ghost predicate RewritesCombined(before: Rows, k: Key, up: Status)
    requires k in before
  {
    k.kind == CombinedKind && Decide(k, before[k].doc, Posted(up)).Rewrite?
  }

  /** What a status delivery must leave: unexpired rows and rewritten combined ones, save the refused and the
      branch spellings of the raw list. */
  ghost predicate SettledKeeps(before: Rows, after: Rows, branchRefs: set<string>, up: Status, now: int) {
    forall k :: k in before && !Refused(before, k, up)
                && !(k.kind == ListKind && k.ref in branchRefs && k.ref != up.sha)
                && (RewritesCombined(before, k, up) || before[k].expires > now)
                ==> k in after
  }

  /** No page about something else outlives an unexpired page of its ref and kind that refuses the status. */
  ghost predicate SettledDrops(before: Rows, after: Rows, up: Status, now: int) {
    forall k, x :: k in after && k in before && x in before && Refuses(before, x, k, up) && before[x].expires > now
                   ==> Decide(k, before[k].doc, Posted(up)).Rewrite?
  }

  ghost predicate Refuses(before: Rows, x: Key, k: Key, up: Status)
    requires x in before
  {
    x.kind == k.kind && x.ref == k.ref && Decide(x, before[x].doc, Posted(up)).Flush?
  }

  class CommitCiCache {
    var rows: Rows

    constructor ()
      ensures rows == map[]
    {
      rows := map[];
    }

    method Put(k: Key, doc: Doc, now: int, ttl: int)
      modifies this
      ensures rows == Stored(old(rows), k, Row(doc, now + ttl), now)
    {
      rows := rows[k := Row(doc, now + ttl)];
      rows := map x | x in rows && rows[x].expires > now :: rows[x];
    }

    method DeleteRefKind(ref: string, kind: Kind)
      modifies this
      ensures rows == Without(old(rows), ref, kind)
    {
      rows := map x | x in rows && !(x.ref == ref && x.kind == kind) :: rows[x];
    }

    /** One pass over a snapshot of the kind's rows, in any order. */
    method Land(kind: Kind, e: Event, now: int, ttl: int) returns (applied: bool)
      modifies this
      ensures Landed(old(rows), rows, Verdicts(old(rows), kind, e), {}, now, now + ttl)
      ensures applied <==> exists k :: k in Verdicts(old(rows), kind, e) && Verdicts(old(rows), kind, e)[k].Rewrite?
    {
      var before := rows;
      ghost var v := Verdicts(before, kind, e);
      var pending := set k | k in before && k.kind == kind;
      applied := false;
      while pending != {}
        invariant pending <= v.Keys
        invariant Landed(before, rows, v, pending, now, now + ttl)
        invariant applied <==> exists k :: k in v && k !in pending && v[k].Rewrite?
        decreases pending
      {
        var k :| k in pending;
        var d := DecideRow(k, before[k].doc, e);
        assert d == v[k];
        if d.Flush? {
          FlushStep(before, rows, v, pending, now, now + ttl, k);
          DeleteRefKind(k.ref, kind);
        } else if d.Rewrite? {
          RewriteStep(before, rows, v, pending, now, now + ttl, k);
          Put(k, d.doc, now, ttl);
          applied := true;
        } else {
          SkipStep(before, rows, v, pending, now, now + ttl, k);
        }
        pending := pending - {k};
      }
    }

    method SettleFromStatus(branchRefs: set<string>, up: Status, now: int, ttl: int)
      modifies this
      ensures var acted := (|up.sha| == 40 || |up.sha| == 64) && (forall c :: c in up.sha ==> c in "0123456789abcdef")
                           && up.context != "" && up.state != "";
              && (!acted ==> rows == old(rows))
              && (acted ==> Settled(old(rows), rows, branchRefs, up, now + ttl))
              && (acted && ttl > 0 ==> SettledDrops(old(rows), rows, up, now))
      ensures ttl > 0 ==> SettledKeeps(old(rows), rows, branchRefs, up, now)
    {
      var full := IsFullHexSHA(up.sha);
      if !full || up.context == "" || up.state == "" {
        return;
      }
      ghost var before := rows;
      var _ := Land(CombinedKind, Posted(up), now, ttl);
      ghost var between := rows;
      var _ := Land(ListKind, Posted(up), now, ttl);
      ghost var landed := rows;
      FlushBranches(branchRefs, up.sha);
      DeliverySettles(before, between, landed, branchRefs, up, now, now + ttl);
    }

    /** The closing loop: the raw lists under the branch spellings the payload names. */
    method FlushBranches(branchRefs: set<string>, sha: string)
      modifies this
      ensures rows == WithoutBranches(old(rows), branchRefs, sha)
    {
      var refs := branchRefs;
      while refs != {}
        invariant refs <= branchRefs
        invariant rows == WithoutBranches(old(rows), branchRefs - refs, sha)
        decreases refs
      {
        var ref :| ref in refs;
        if ref != sha {
          DeleteRefKind(ref, ListKind);
        }
        refs := refs - {ref};
      }
    }

    method ApplyCheckRun(run: Run, now: int, ttl: int) returns (applied: bool)
      modifies this
      ensures var v := Verdicts(old(rows), RunsKind, Checked(run));
              var acted := run.id > 0 && run.status != "" && (|run.headSHA| == 40 || |run.headSHA| == 64)
                           && (forall c :: c in run.headSHA ==> c in "0123456789abcdef");
              && (!acted ==> rows == old(rows) && !applied)
              && (acted ==> Landed(old(rows), rows, v, {}, now, now + ttl))
              && (applied <==> acted && exists k :: k in v && v[k].Rewrite?)
    {
      var full := IsFullHexSHA(run.headSHA);
      if run.id <= 0 || run.status == "" || !full {
        return false;
      }
      applied := Land(RunsKind, Checked(run), now, ttl);
    }

    /** settleCommitCI of internal/sync/webhook_apply.go on a check run: flush the refs the payload names, unless some
        page was rewritten. */
    method SettleCheckRun(refs: set<string>, run: Run, now: int, ttl: int)
      modifies this
      ensures Handled(old(rows), rows, refs, run, now, now + ttl)
    {
      ghost var before := rows;
      HexDigits();
      var applied := ApplyCheckRun(run, now, ttl);
      if applied {
        return;
      }
      ghost var landed := rows;
      var left := refs;
      while left != {}
        invariant left <= refs
        invariant rows == map x | x in landed && !(x.kind == RunsKind && x.ref in refs - left) :: landed[x]
        decreases left
      {
        var ref :| ref in left;
        DeleteRefKind(ref, RunsKind);
        left := left - {ref};
      }
      forall k | k in rows ensures UntouchedAt(k, before, rows, refs) {
        assert ValidRun(run) ==> SoundAt(k, before, landed, Verdicts(before, RunsKind, Checked(run)), {}, now + ttl);
      }
    }
  }

  /** Some stored page takes the run. */
  ghost predicate Applies(before: Rows, run: Run) {
    var v := Verdicts(before, RunsKind, Checked(run));
    ValidRun(run) && exists k :: k in v && v[k].Rewrite?
  }

  ghost predicate UntouchedAt(k: Key, before: Rows, after: Rows, refs: set<string>) {
    k in after ==> k in before && after[k] == before[k] && !(k.kind == RunsKind && k.ref in refs)
  }

  /** The table after a whole check-run delivery. */
  ghost predicate Handled(before: Rows, after: Rows, refs: set<string>, run: Run, now: int, expires: int) {
    if Applies(before, run) then Landed(before, after, Verdicts(before, RunsKind, Checked(run)), {}, now, expires)
    else forall k :: UntouchedAt(k, before, after, refs)
  }

  lemma TwoPasses(before: Rows, between: Rows, after: Rows, up: Status, now: int, expires: int)
    requires Landed(before, between, Verdicts(before, CombinedKind, Posted(up)), {}, now, expires)
    requires Landed(between, after, Verdicts(between, ListKind, Posted(up)), {}, now, expires)
    ensures Settled(before, after, {}, up, expires)
    ensures expires > now ==> SettledKeeps(before, after, {}, up, now)
  {
    var v, w := Verdicts(before, CombinedKind, Posted(up)), Verdicts(between, ListKind, Posted(up));
    forall x | x in w && w[x].Flush? ensures x in before && Decide(x, before[x].doc, Posted(up)).Flush? {
      assert SoundAt(x, before, between, v, {}, expires);
    }
    if expires > now {
      forall k | k in before && !Refused(before, k, up)
                 && (RewritesCombined(before, k, up) || before[k].expires > now)
        ensures k in after
      {
        assert KeptAt(k, before, between, v, {}, now);
        assert SoundAt(k, before, between, v, {}, expires);
        assert k in between;
        assert k in w && Flushed(w, k.ref) ==> Refused(before, k, up);
        assert KeptAt(k, between, after, w, {}, now);
      }
    }
    forall k | k in after
      ensures k in before && var d := Decide(k, before[k].doc, Posted(up));
              if d.Skip? then after[k] == before[k] else d.Rewrite? && after[k] == Row(d.doc, expires)
    {
      assert SoundAt(k, between, after, Verdicts(between, ListKind, Posted(up)), {}, expires);
      assert k in between;
      assert SoundAt(k, before, between, Verdicts(before, CombinedKind, Posted(up)), {}, expires);
    }
  }

  lemma BranchesGone(before: Rows, landed: Rows, branchRefs: set<string>, up: Status, now: int, expires: int)
    requires Settled(before, landed, {}, up, expires)
    ensures var after := WithoutBranches(landed, branchRefs, up.sha);
            && Settled(before, after, branchRefs, up, expires)
            && (SettledKeeps(before, landed, {}, up, now) ==> SettledKeeps(before, after, branchRefs, up, now))
            && (SettledDrops(before, landed, up, now) ==> SettledDrops(before, after, up, now))
  {
  }

  lemma TwoPassesDrop(before: Rows, between: Rows, after: Rows, up: Status, now: int, expires: int)
    requires Landed(before, between, Verdicts(before, CombinedKind, Posted(up)), {}, now, expires)
    requires Landed(between, after, Verdicts(between, ListKind, Posted(up)), {}, now, expires)
    requires expires > now
    ensures SettledDrops(before, after, up, now)
  {
    var v, w := Verdicts(before, CombinedKind, Posted(up)), Verdicts(between, ListKind, Posted(up));
    forall k, x | k in after && k in before && x in before && Refuses(before, x, k, up) && before[x].expires > now
      ensures Decide(k, before[k].doc, Posted(up)).Rewrite?
    {
      assert SoundAt(k, between, after, w, {}, expires) && SoundAt(k, before, between, v, {}, expires);
      assert SoundAt(x, before, between, v, {}, expires) && KeptAt(x, before, between, v, {}, now);
      assert x in v ==> Taken(v, k.ref, {});
      assert x in w ==> Taken(w, k.ref, {});
      assert SweptAt(k, between, v, {}) && SweptAt(k, after, w, {});
    }
  }

  /** Both passes and the branch flush. */
  lemma DeliverySettles(before: Rows, between: Rows, landed: Rows, branchRefs: set<string>,
                        up: Status, now: int, expires: int)
    requires Landed(before, between, Verdicts(before, CombinedKind, Posted(up)), {}, now, expires)
    requires Landed(between, landed, Verdicts(between, ListKind, Posted(up)), {}, now, expires)
    ensures var after := WithoutBranches(landed, branchRefs, up.sha);
            && Settled(before, after, branchRefs, up, expires)
            && (expires > now ==>
                  SettledKeeps(before, after, branchRefs, up, now) && SettledDrops(before, after, up, now))
  {
    TwoPasses(before, between, landed, up, now, expires);
    if expires > now {
      TwoPassesDrop(before, between, landed, up, now, expires);
    }
    BranchesGone(before, landed, branchRefs, up, now, expires);
  }

  // ---- What the settled table says ----

  /** The document, for a reader: the stored combined page of a commit whose history is h. */
  ghost predicate ShowsHistory(k: Key, doc: Doc, sha: string, h: seq<Status>) {
    && (k.kind == CombinedKind && k.page == 1 && doc.Combined? && doc.status.sha == sha
        ==> doc.status == FetchCombined(h, sha, k.perPage))
    && (k.kind == ListKind && k.page == 1 && k.ref == sha && doc.Listed? ==> doc.items == FetchList(h, k.perPage))
  }

  /** A status new to every stored list arrives: whatever row about the commit survives, under any spelling and any
      page size, is a first page and shows the history with the new status in it. */
  lemma SettledShowsHistory(before: Rows, after: Rows, branchRefs: set<string>, up: Status, expires: int,
                            h: seq<Status>, k: Key)
    requires Settled(before, after, branchRefs, up, expires)
    requires forall x :: x in before ==> ShowsHistory(x, before[x].doc, up.sha, h)
    requires forall i :: 0 <= i < |h| ==> !(h[i].context == up.context && h[i].created.text == up.created.text)
    requires k in after
    ensures ShowsHistory(k, after[k].doc, up.sha, h + [up])
    ensures (k.kind == CombinedKind && before[k].doc.Combined? && before[k].doc.status.sha == up.sha)
            || (k.kind == ListKind && k.ref == up.sha)
            ==> k.page == 1 && after[k].expires == expires
    ensures k.kind == CombinedKind && after[k].doc.Combined? && after[k].doc.status.sha != up.sha
            ==> after[k] == before[k]
  {
    var doc := before[k].doc;
    assert ShowsHistory(k, doc, up.sha, h);
    if k.kind == CombinedKind && doc.Combined? && doc.status.sha == up.sha && k.page == 1 {
      CombinedRefinesFetch(h, k.perPage, up);
    } else if k.kind == ListKind && k.ref == up.sha && doc.Listed? && k.page == 1 && k.perPage >= 1 {
      assert !Absorbed(doc.items, up);
      ListRefinesFetch(h, k.perPage, up);
    }
  }

  /** The same for a check run: a surviving page of the run's commit is the first page and lists the runs after it. */
  lemma LandedListsRuns(before: Rows, after: Rows, run: Run, now: int, expires: int, all: map<int, Run>, k: Key)
    requires Landed(before, after, Verdicts(before, RunsKind, Checked(run)), {}, now, expires)
    requires k in after && k.kind == RunsKind && k in before && before[k].doc.Page?
    requires Describes(before[k].doc.page, run.headSHA) && RunsOf(all, run.headSHA)
    requires k.page == 1 ==> IsListing(before[k].doc.page.runs, all)
    ensures k.page == 1 && after[k].doc.Page? && IsListing(after[k].doc.page.runs, all[run.id := run])
    ensures after[k].doc.page.total == |after[k].doc.page.runs| <= k.perPage
  {
    var p := before[k].doc.page;
    assert SoundAt(k, before, after, Verdicts(before, RunsKind, Checked(run)), {}, expires);
    RunsRefineFetch(p, k.perPage, all, run);
  }

  /** Which rows a delivery is not about: combined rows of another commit or of none, lists under another ref, and for
      either delivery the kinds it does not appear in. */
  lemma NotAbout(k: Key, doc: Doc, up: Status, run: Run)
    ensures k.kind == CombinedKind && (!doc.Combined? || doc.status.sha != up.sha) ==> Decide(k, doc, Posted(up)).Skip?
    ensures k.kind == ListKind && k.ref != up.sha ==> Decide(k, doc, Posted(up)).Skip?
    ensures k.kind == RunsKind ==> Decide(k, doc, Posted(up)).Skip?
    ensures k.kind != RunsKind || !doc.Page? ==> Decide(k, doc, Checked(run)).Skip?
  {
  }

  /** And of those it is about, what is dropped: every combined or listed page but the first, a list that does not
      decode, and a page of the run's commit that is not the first or does not hold every run. */
  lemma DroppedPages(k: Key, doc: Doc, up: Status, run: Run)
    requires k.page != 1 || (doc.Combined? && doc.status.total != |doc.status.statuses|)
             || (doc.Page? && doc.page.total != |doc.page.runs|) || (k.kind == ListKind && !doc.Listed?)
    ensures k.kind == CombinedKind && doc.Combined? && doc.status.sha == up.sha ==> Decide(k, doc, Posted(up)).Flush?
    ensures k.kind == ListKind && k.ref == up.sha && (k.page != 1 || !doc.Listed?) ==> Decide(k, doc, Posted(up)).Flush?
    ensures k.kind == RunsKind && doc.Page? && doc.page.runs != [] ==>
              (forall x :: x in doc.page.runs ==> x.headSHA == run.headSHA) ==> Decide(k, doc, Checked(run)).Flush?
  {
    if doc.Page? {
      assert forall i :: 0 <= i < |doc.page.runs| ==> doc.page.runs[i] in doc.page.runs;
    }
  }

  /** A store puts one row, and takes with it exactly the rows that have expired. */
  lemma StoreReads(rows: Rows, k: Key, row: Row, now: int, x: Key)
    ensures x in Stored(rows, k, row, now) <==>
            if x == k then row.expires > now else x in rows && rows[x].expires > now
    ensures x in Stored(rows, k, row, now) ==> Stored(rows, k, row, now)[x] == if x == k then row else rows[x]
  {
  }

  // ---- The rows that name no commit ----

  /** Which surviving first page is right after the pass: the one that listed some run before it. The empty page of a
      commit names no commit, so the pass leaves it as it stands. */
  lemma LandedListsRunsIff(before: Rows, after: Rows, run: Run, now: int, expires: int, all: map<int, Run>, k: Key)
    requires Landed(before, after, Verdicts(before, RunsKind, Checked(run)), {}, now, expires)
    requires k in after && k.kind == RunsKind && k.page == 1 && k in before && before[k].doc.Page?
    requires RunsOf(all, run.headSHA) && IsListing(before[k].doc.page.runs, all)
    ensures after[k].doc.Page?
    ensures IsListing(after[k].doc.page.runs, all[run.id := run]) <==> before[k].doc.page.runs != []
    ensures before[k].doc.page.runs == [] ==> after[k] == before[k]
  {
    var p := before[k].doc.page;
    assert SoundAt(k, before, after, Verdicts(before, RunsKind, Checked(run)), {}, expires);
    if p.runs == [] {
      assert !Lists([], run.id) && !Describes(p, run.headSHA);
      assert run.id in all[run.id := run];
    } else {
      assert p.runs[0].id in all && forall i :: 0 <= i < |p.runs| ==> p.runs[i].headSHA == run.headSHA;
      LandedListsRuns(before, after, run, now, expires, all, k);
    }
  }

  /** An empty page, or a stored not-found verdict. */
  predicate Nameless(doc: Doc) { doc.Tombstone? || (doc.Page? && doc.page.runs == []) }

  /** A row that names no commit outlives the delivery, wrong as it now may be, exactly when some other page was
      rewritten and none of its own ref's was refused: a rewrite anywhere keeps the caller from flushing. */
  lemma NamelessSurvivesIff(before: Rows, after: Rows, refs: set<string>, run: Run, now: int, expires: int, k: Key)
    requires Handled(before, after, refs, run, now, expires) && expires > now
    requires k in before && before[k].expires > now && k.kind == RunsKind && k.ref in refs && Nameless(before[k].doc)
    ensures k in after <==> Applies(before, run) && !Flushed(Verdicts(before, RunsKind, Checked(run)), k.ref)
    ensures k in after ==> after[k] == before[k]
  {
    var v := Verdicts(before, RunsKind, Checked(run));
    if before[k].doc.Page? {
      assert !Lists(before[k].doc.page.runs, run.id);
    }
    assert v[k].Skip?;
    if Applies(before, run) {
      assert SoundAt(k, before, after, v, {}, expires) && KeptAt(k, before, after, v, {}, now);
      assert SweptAt(k, after, v, {});
      assert Flushed(v, k.ref) ==> Taken(v, k.ref, {});
    } else {
      assert UntouchedAt(k, before, after, refs);
    }
  }

  /** It happens: a page of another size, fetched once the run existed, is rewritten, and the empty page stays. */
  lemma EmptyPageOutlivesDelivery(run: Run, now: int, expires: int, after: Rows)
    requires ValidRun(run) && expires > now
    requires Handled(map[Key(RunsKind, run.headSHA, 30, 1) := Row(Page(RunsPage(0, [])), expires),
                         Key(RunsKind, run.headSHA, 100, 1) := Row(Page(RunsPage(1, [run])), expires)],
                     after, {run.headSHA}, run, now, expires)
    ensures var k := Key(RunsKind, run.headSHA, 30, 1); k in after && after[k].doc == Page(RunsPage(0, []))
  {
    var k, x := Key(RunsKind, run.headSHA, 30, 1), Key(RunsKind, run.headSHA, 100, 1);
    var before := map[k := Row(Page(RunsPage(0, [])), expires), x := Row(Page(RunsPage(1, [run])), expires)];
    var v := Verdicts(before, RunsKind, Checked(run));
    assert [run][0].id == run.id && Lists([run], run.id);
    assert v[x].Rewrite?;
    assert !Lists([], run.id) && v[k].Skip?;
    NamelessSurvivesIff(before, after, {run.headSHA}, run, now, expires, k);
  }

  /** Which surviving combined page of the commit's own sha is right after a status: the one that was a status document.
      A not-found verdict stored under that sha is left as it stands. */
  lemma SettledShowsHistoryIff(before: Rows, after: Rows, branchRefs: set<string>, up: Status, expires: int,
                               h: seq<Status>, k: Key)
    requires Settled(before, after, branchRefs, up, expires)
    requires k in after && k in before && k.kind == CombinedKind && k.ref == up.sha && k.page == 1
    requires before[k].doc.Combined? ==> before[k].doc.status == FetchCombined(h, up.sha, k.perPage)
    ensures after[k].doc == Combined(FetchCombined(h + [up], up.sha, k.perPage)) <==> before[k].doc.Combined?
    ensures before[k].doc.Tombstone? ==> after[k] == before[k]
  {
    if before[k].doc.Combined? {
      CombinedRefinesFetch(h, k.perPage, up);
    }
  }

  /** And a not-found verdict is never dropped for being wrong: unexpired, it goes only with a page of its own sha that
      refuses the status. */
  lemma NotFoundOutlivesStatus(before: Rows, after: Rows, branchRefs: set<string>, up: Status, now: int, expires: int,
                               k: Key)
    requires Settled(before, after, branchRefs, up, expires) && SettledKeeps(before, after, branchRefs, up, now)
    requires SettledDrops(before, after, up, now)
    requires k in before && k.kind == CombinedKind && before[k].doc.Tombstone? && before[k].expires > now
    requires forall x :: x in before ==> before[x].expires > now
    ensures k in after <==> !Refused(before, k, up)
    ensures k in after ==> after[k] == before[k]
  {
  }

  /** A page that does not name the run's commit is rewritten exactly when it is a complete first page that lists
      the run's id: only there can a delivery reach another commit's document. */
  lemma ForeignPageRewritten(k: Key, p: RunsPage, run: Run)
    requires k.kind == RunsKind && !Describes(p, run.headSHA)
    ensures Decide(k, Page(p), Checked(run)).Rewrite? <==>
            k.page == 1 && p.total == |p.runs| <= k.perPage && Lists(p.runs, run.id)
    ensures !Decide(k, Page(p), Checked(run)).Rewrite? ==> Decide(k, Page(p), Checked(run)).Skip?
  {
  }
}
