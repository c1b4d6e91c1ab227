// internal/ghdata/respcache_workflowjobs_apply.go, respcache_workflowjobs.go and workflowjobs_doc.go: cached answers
// about a workflow run's jobs, rewritten from a delivery that carries one job whole. Queries:
// internal/database/queries/respcache.sql, the workflow_jobs_cache section. Times are whole seconds.
module WorkflowJobs {
  import opened Options

  /** `detail` stands for the fields no decision reads. */
  datatype Job = Job(id: int, runAttempt: int, status: string, detail: string)

  datatype Liveness = Settled | Queued | Running

  datatype Kind = RunJobsKind | JobKind | OtherKind

  /** A stored document; Garbled stands for one that decodes as neither shape. */
  datatype Doc = Single(job: Job) | Listing(totalCount: int, jobs: seq<Job>) | Garbled

  datatype Key = Key(repo: string, kind: Kind, refID: int, perPage: int, page: int)

  datatype Row = Row(runID: int, doc: Doc, expires: int)

  type Rows = map<Key, Row>

  // ---- Liveness ----

  /** Simple case folding, as far as it reaches the letters of the two statuses. */
  function Fold(c: char): char {
    if 'A' <= c <= 'Z' then c - 'A' + 'a' else if c == '\U{17F}' then 's' else c
  }

  predicate EqualFold(s: string, t: string) {
    |s| == |t| && forall i :: 0 <= i < |s| ==> Fold(s[i]) == Fold(t[i])
  }

  function Movement(j: Job): Liveness {
    if EqualFold(j.status, "completed") then Settled
    else if EqualFold(j.status, "in_progress") then Running
    else Queued
  }

  /** A status in some spelling of its letters' case; the long s folds to s as well. */
  predicate Spells(s: string, lower: string) {
    |s| == |lower| && forall i :: 0 <= i < |s| ==>
      || s[i] == lower[i]
      || ('a' <= lower[i] <= 'z' && s[i] as int == lower[i] as int - 32)
      || (lower[i] == 's' && s[i] == '\U{17F}')
  }

  /** Completed jobs have stopped, in-progress ones run, every other status waits. */
  lemma MovementReads(j: Job)
    ensures Movement(j) == if Spells(j.status, "completed") then Settled
                           else if Spells(j.status, "in_progress") then Running else Queued
  {
    var c, p := "completed", "in_progress";
    assert forall i :: 0 <= i < |c| ==> 'a' <= c[i] <= 'z';
    assert forall i :: 0 <= i < |p| ==> 'a' <= p[i] <= 'z' || p[i] == '_';
    FoldsTo(j.status, c);
    FoldsTo(j.status, p);
  }

  lemma FoldsTo(s: string, lower: string)
    requires forall i :: 0 <= i < |lower| ==> 'a' <= lower[i] <= 'z' || lower[i] == '_'
    ensures EqualFold(s, lower) <==> Spells(s, lower)
  {
    if |s| == |lower| {
      forall i | 0 <= i < |s|
        ensures Fold(s[i]) == Fold(lower[i]) <==>
                || s[i] == lower[i]
                || ('a' <= lower[i] <= 'z' && s[i] as int == lower[i] as int - 32)
                || (lower[i] == 's' && s[i] == '\U{17F}')
      {
      }
    }
  }

  function Rank(l: Liveness): nat { match l case Settled => 0 case Queued => 1 case Running => 2 }

  function TTL(l: Liveness): (seconds: nat)
    ensures seconds > 0
  {
    match l case Running => 10 case Queued => 60 case Settled => 24 * 3600
  }

  /** The greatest movement among some jobs, none being settled. */
  ghost predicate Strongest(l: Liveness, jobs: seq<Job>) {
    && (forall j :: j in jobs ==> Rank(Movement(j)) <= Rank(l))
    && (l == Settled || exists j :: j in jobs && Movement(j) == l)
  }

  /** What LivenessOf returns, as a fold with no early exit. */
  function Moving(jobs: seq<Job>): (l: Liveness)
    ensures Strongest(l, jobs)
  {
    if jobs == [] then Settled else
      var l, m := Moving(jobs[1..]), Movement(jobs[0]);
      assert jobs == [jobs[0]] + jobs[1..];
      if Rank(m) > Rank(l) then m else l
  }

  method LivenessOf(jobs: seq<Job>) returns (out: Liveness)
    ensures out == Moving(jobs)
  {
    out := Settled;
    for i := 0 to |jobs|
      invariant out == Settled || out == Queued
      invariant Strongest(out, jobs[..i])
    {
      assert jobs[..i + 1] == jobs[..i] + [jobs[i]];
      if EqualFold(jobs[i].status, "completed") {
        assert Movement(jobs[i]) == Settled;
      } else if EqualFold(jobs[i].status, "in_progress") {
        assert jobs[i] in jobs && Movement(jobs[i]) == Running;
        return Running;
      } else {
        assert jobs[i] in jobs[..i + 1] && Movement(jobs[i]) == Queued;
        out := Queued;
      }
    }
    assert jobs[..|jobs|] == jobs;
  }

  /** The answer depends on which jobs there are, not on their order or repetition. */
  lemma MovingIgnoresOrder(jobs: seq<Job>, others: seq<Job>)
    requires forall j :: j in jobs <==> j in others
    ensures Moving(jobs) == Moving(others)
  {
    assert Strongest(Moving(jobs), jobs) && Strongest(Moving(others), others);
  }

  // ---- The rewrite of one document ----

  /** Every entry with the job's id becomes the job. */
  function Replaced(jobs: seq<Job>, job: Job): (r: seq<Job>)
    ensures |r| == |jobs| && forall i :: 0 <= i < |r| ==> r[i] == if jobs[i].id == job.id then job else jobs[i]
  {
    seq(|jobs|, i requires 0 <= i < |jobs| => if jobs[i].id == job.id then job else jobs[i])
  }

  /** The page lists the job, and lists it for this attempt only. */
  ghost predicate Editable(jobs: seq<Job>, job: Job) {
    && (exists j :: j in jobs && j.id == job.id)
    && (forall j :: j in jobs && j.id == job.id ==> j.runAttempt == job.runAttempt)
  }

  ghost function Patched(kind: Kind, doc: Doc, job: Job): Option<Doc> {
    if kind == JobKind && doc.Single? && doc.job.id == job.id && doc.job.runAttempt == job.runAttempt then
      Some(Single(job))
    else if kind == RunJobsKind && doc.Listing? && Editable(doc.jobs, job) then
      Some(doc.(jobs := Replaced(doc.jobs, job)))
    else None
  }

  function JobsOf(doc: Doc): seq<Job> {
    match doc case Single(job) => [job] case Listing(_, jobs) => jobs case Garbled => []
  }

  /** The loop over a page's entries. */
  method ReplaceEntries(before: seq<Job>, job: Job) returns (r: Option<seq<Job>>)
    ensures r == if Editable(before, job) then Some(Replaced(before, job)) else None
  {
    var jobs, found := before, false;
    for i := 0 to |jobs|
      invariant |jobs| == |before| && forall x :: i <= x < |jobs| ==> jobs[x] == before[x]
      invariant forall x :: 0 <= x < i ==> jobs[x] == Replaced(before, job)[x]
      invariant found ==> exists j :: j in before && j.id == job.id
      invariant forall x :: 0 <= x < i && before[x].id == job.id ==> found && before[x].runAttempt == job.runAttempt
    {
      if jobs[i].id == job.id {
        assert before[i] in before;
        if jobs[i].runAttempt != job.runAttempt {
          return None;
        }
        jobs, found := jobs[i := job], true;
      }
    }
    assert jobs == Replaced(before, job);
    return if found then Some(jobs) else None;
  }

  method PatchWorkflowJobsDoc(kind: Kind, doc: Doc, job: Job) returns (r: Option<Doc>, liveness: Liveness)
    ensures r == Patched(kind, doc, job)
    ensures r.Some? ==> liveness == Moving(JobsOf(r.value))
  {
    r, liveness := None, Settled;
    if kind == JobKind && doc.Single? && doc.job.id == job.id && doc.job.runAttempt == job.runAttempt {
      liveness := LivenessOf([job]);
      r := Some(Single(job));
    } else if kind == RunJobsKind && doc.Listing? {
      var jobs := ReplaceEntries(doc.jobs, job);
      if jobs.Some? {
        liveness := LivenessOf(jobs.value);
        r := Some(doc.(jobs := jobs.value));
      }
    }
  }

  /** What is rewritten: a job's own document of the same id and attempt, and a page that lists the job, for this
      attempt in every entry. Everything else -- another kind, a document that does not decode -- is refused. */
  lemma RewrittenIff(kind: Kind, doc: Doc, job: Job)
    ensures Patched(kind, doc, job).Some? <==>
            || (kind == JobKind && doc.Single? && doc.job.id == job.id && doc.job.runAttempt == job.runAttempt)
            || (kind == RunJobsKind && doc.Listing? && (exists i :: 0 <= i < |doc.jobs| && doc.jobs[i].id == job.id)
                && forall i :: 0 <= i < |doc.jobs| && doc.jobs[i].id == job.id ==>
                     doc.jobs[i].runAttempt == job.runAttempt)
    ensures Patched(kind, doc, job).Some? && doc.Single? ==> Patched(kind, doc, job).value == Single(job)
    ensures Patched(kind, doc, job).Some? && doc.Listing? ==>
              var p := Patched(kind, doc, job).value;
              && p.Listing? && p.totalCount == doc.totalCount && |p.jobs| == |doc.jobs|
              && forall i :: 0 <= i < |p.jobs| ==> p.jobs[i] == if doc.jobs[i].id == job.id then job else doc.jobs[i]
  {
  }

  /** Rewriting a stored page gives the page a fetch would return once upstream's list holds the delivered job. */
  lemma PageRefinesFetch(upstream: seq<Job>, total: int, lo: nat, hi: nat, job: Job)
    requires lo <= hi <= |upstream|
    ensures var stored, fetched := Listing(total, upstream[lo..hi]), Listing(total, Replaced(upstream, job)[lo..hi]);
            Patched(RunJobsKind, stored, job) == if Editable(stored.jobs, job) then Some(fetched) else None
  {
    assert Replaced(upstream[lo..hi], job) == Replaced(upstream, job)[lo..hi];
  }

  /** Deliveries about different jobs rewrite a document to the same result, or both orders drop it. */
  lemma DeliveriesCommute(kind: Kind, doc: Doc, a: Job, b: Job)
    requires a.id != b.id
    ensures var x, y := Patched(kind, doc, a), Patched(kind, doc, b);
            (if x.Some? then Patched(kind, x.value, b) else None)
            == (if y.Some? then Patched(kind, y.value, a) else None)
  {
    if kind == RunJobsKind && doc.Listing? {
      EditableBeside(doc.jobs, a, b);
      EditableBeside(doc.jobs, b, a);
      assert Replaced(Replaced(doc.jobs, a), b) == Replaced(Replaced(doc.jobs, b), a);
    }
  }

  lemma EditableBeside(jobs: seq<Job>, a: Job, b: Job)
    requires a.id != b.id
    ensures Editable(Replaced(jobs, a), b) <==> Editable(jobs, b)
  {
    var r := Replaced(jobs, a);
    forall j: Job | j.id == b.id ensures j in r <==> j in jobs {
      if j in r {
        var i :| 0 <= i < |r| && r[i] == j;
      }
      if j in jobs {
        var i :| 0 <= i < |jobs| && jobs[i] == j;
        assert r[i] == j;
      }
    }
  }

  // ---- The table ----

  /** A row the delivery is about: any of the run's but another job's own. */
  predicate About(k: Key, row: Row, repo: string, runID: int, job: Job) {
    k.repo == repo && row.runID == runID && (k.kind == JobKind ==> k.refID == job.id)
  }

  function Subject(rows: Rows, repo: string, runID: int, job: Job): set<Key> {
    set k | k in rows && About(k, rows[k], repo, runID, job)
  }

  predicate OfRun(k: Key, row: Row, repo: string, runID: int) { k.repo == repo && row.runID == runID }

  ghost function NewRow(row: Row, k: Key, job: Job, now: int): Row {
    var patched := Patched(k.kind, row.doc, job);
    var doc := if patched.Some? then patched.value else Garbled;
    Row(row.runID, doc, now + TTL(Moving(JobsOf(doc))))
  }

  /** The table once `visited` have been rewritten; every rewrite also prunes what has expired. */
  ghost function Mid(rows: Rows, visited: set<Key>, job: Job, now: int): Rows {
    map k | k in rows && (k in visited || visited == {} || rows[k].expires > now) ::
      if k in visited then NewRow(rows[k], k, job, now) else rows[k]
  }

  class JobsCache {
    var rows: Rows

    constructor ()
      ensures rows == map[]
    {
      rows := map[];
    }

    /** PutCachedWorkflowJobs. */
    method Put(k: Key, runID: int, doc: Doc, now: int, ttl: nat)
      modifies this
      ensures rows == Stored(old(rows), k, Row(runID, doc, now + ttl), now)
    {
      rows := rows[k := Row(runID, doc, now + ttl)];
      rows := map x | x in rows && rows[x].expires > now :: rows[x];
    }

    /** DeleteWorkflowJobsCacheForRun. */
    method DeleteForRun(repo: string, runID: int)
      modifies this
      ensures rows == WithoutRun(old(rows), repo, runID)
    {
      rows := WithoutRun(rows, repo, runID);
    }

    /** The loop's body: rewrite one listed row, or report that it cannot be. */
    method RewriteRow(k: Key, row: Row, job: Job, now: int) returns (ok: bool)
      modifies this
      ensures ok <==> Patched(k.kind, row.doc, job).Some?
      ensures rows == if ok then Stored(old(rows), k, NewRow(row, k, job, now), now) else old(rows)
    {
      var patched, liveness := PatchWorkflowJobsDoc(k.kind, row.doc, job);
      ok := patched.Some?;
      if ok {
        Put(k, row.runID, patched.value, now, TTL(liveness));
      }
    }

    /** All or nothing: either every row about the job is rewritten, or no row of the run is left. */
    method ApplyWorkflowJob(repo: string, runID: int, job: Job, now: int) returns (applied: bool)
      modifies this
      ensures applied <==> Appliable(old(rows), repo, runID, job)
      ensures applied ==> rows == Mid(old(rows), Subject(old(rows), repo, runID, job), job, now)
      ensures !applied ==>
                if Valid(runID, job) && Subject(old(rows), repo, runID, job) != {}
                then Dropped(old(rows), rows, repo, runID, now) else rows == old(rows)
    {
      if runID <= 0 || job.id <= 0 || job.status == "" {
        return false;
      }
      ghost var before, subject := rows, Subject(rows, repo, runID, job);
      ghost var visited: set<Key> := {};
      var listed := rows;
      var pending := set k | k in listed && OfRun(k, listed[k], repo, runID);
      applied := false;
      while pending != {}
        invariant pending <= listed.Keys && visited <= subject <= visited + pending && visited !! pending
        invariant applied <==> visited != {}
        invariant AllPatch(before, visited, job)
        invariant rows == Mid(before, visited, job, now)
        decreases pending
      {
        var k :| k in pending;
        pending := pending - {k};
        if k.kind == JobKind && k.refID != job.id {
          continue;
        }
        var ok := RewriteRow(k, listed[k], job, now);
        if !ok {
          MidDropped(before, visited, job, now, repo, runID);
          DeleteForRun(repo, runID);
          return false;
        }
        MidStep(before, visited, k, job, now);
        visited := visited + {k};
        applied := true;
      }
    }

    /** settleWorkflowJobs in internal/sync/webhook_apply.go: what could not be rewritten is flushed, and a delivery
        that names no run flushes the repo. No answer about the run that is left shows any other version of the
        delivered job, and other jobs' own rows outlive the delivery only when something was rewritten. */
    method SettleWorkflowJobs(repo: string, runID: int, job: Job, now: int)
      requires WellKeyed(rows)
      modifies this
      ensures WellKeyed(rows) && Shows(rows, repo, runID, job)
      ensures runID <= 0 ==> rows == map k | k in old(rows) && k.repo != repo :: old(rows)[k]
      ensures Appliable(old(rows), repo, runID, job) ==>
                rows == Mid(old(rows), Subject(old(rows), repo, runID, job), job, now)
      ensures runID > 0 && !Appliable(old(rows), repo, runID, job) ==> Dropped(old(rows), rows, repo, runID, now)
    {
      if runID <= 0 {
        rows := map k | k in rows && k.repo != repo :: rows[k];
        return;
      }
      var applied := ApplyWorkflowJob(repo, runID, job, now);
      if applied {
        MidShows(old(rows), repo, runID, job, now);
      } else {
        DeleteForRun(repo, runID);
      }
    }
  }

  function Stored(rows: Rows, k: Key, row: Row, now: int): Rows {
    var more := rows[k := row];
    map x | x in more && more[x].expires > now :: more[x]
  }

  function WithoutRun(rows: Rows, repo: string, runID: int): Rows {
    map k | k in rows && !OfRun(k, rows[k], repo, runID) :: rows[k]
  }

  predicate Valid(runID: int, job: Job) { runID > 0 && job.id > 0 && job.status != "" }

  ghost predicate AllPatch(rows: Rows, keys: set<Key>, job: Job) {
    forall k :: k in keys ==> k in rows && Patched(k.kind, rows[k].doc, job).Some?
  }

  ghost predicate Appliable(rows: Rows, repo: string, runID: int, job: Job) {
    && Valid(runID, job) && Subject(rows, repo, runID, job) != {}
    && AllPatch(rows, Subject(rows, repo, runID, job), job)
  }

  /** Nothing of the run is left, nothing is new, and no live row of another run is lost. */
  ghost predicate Dropped(before: Rows, after: Rows, repo: string, runID: int, now: int) {
    && (forall k :: k in after ==> k in before && after[k] == before[k] && !OfRun(k, after[k], repo, runID))
    && (forall k :: k in before && before[k].expires > now && !OfRun(k, before[k], repo, runID) ==> k in after)
  }

  /** A job's own row holds that job. */
  ghost predicate WellKeyed(rows: Rows) {
    forall k :: k in rows && k.kind == JobKind ==> forall j :: j in JobsOf(rows[k].doc) ==> j.id == k.refID
  }

  ghost predicate Shows(rows: Rows, repo: string, runID: int, job: Job) {
    forall k :: k in rows && OfRun(k, rows[k], repo, runID) ==>
      forall j :: j in JobsOf(rows[k].doc) && j.id == job.id ==> j == job
  }

  /** Which rows a delivery is about, and which deliveries are taken: every row of the run but another job's own, on a
      delivery with a run, a job and a status. */
  lemma SubjectIff(rows: Rows, repo: string, runID: int, job: Job, k: Key)
    ensures k in Subject(rows, repo, runID, job) <==>
            k in rows && k.repo == repo && rows[k].runID == runID && (k.kind != JobKind || k.refID == job.id)
    ensures Appliable(rows, repo, runID, job) ==> runID >= 1 && job.id >= 1 && |job.status| > 0
    ensures runID >= 1 && job.id >= 1 && |job.status| > 0 && k in Subject(rows, repo, runID, job)
            && (forall x :: x in Subject(rows, repo, runID, job) ==> Patched(x.kind, rows[x].doc, job).Some?)
            ==> Appliable(rows, repo, runID, job)
  {
  }

  /** Another job's own row of the run stands as it was, unless it has expired. */
  lemma OtherJobsRowStands(rows: Rows, repo: string, runID: int, job: Job, now: int, k: Key)
    requires Appliable(rows, repo, runID, job) && k in rows && k.kind == JobKind && k.refID != job.id
    requires rows[k].expires > now
    ensures var after := Mid(rows, Subject(rows, repo, runID, job), job, now); k in after && after[k] == rows[k]
  {
  }

  lemma MidStep(rows: Rows, visited: set<Key>, k: Key, job: Job, now: int)
    requires k in rows && k !in visited && Patched(k.kind, rows[k].doc, job).Some?
    ensures Mid(rows, visited + {k}, job, now)
         == Stored(Mid(rows, visited, job, now), k, NewRow(rows[k], k, job, now), now)
  {
  }

  lemma MidDropped(rows: Rows, visited: set<Key>, job: Job, now: int, repo: string, runID: int)
    requires visited <= Subject(rows, repo, runID, job)
    ensures Dropped(rows, WithoutRun(Mid(rows, visited, job, now), repo, runID), repo, runID, now)
  {
  }

  lemma PatchedShows(kind: Kind, doc: Doc, job: Job)
    requires Patched(kind, doc, job).Some?
    ensures forall j :: j in JobsOf(Patched(kind, doc, job).value) && j.id == job.id ==> j == job
    ensures job in JobsOf(Patched(kind, doc, job).value)
    ensures kind == JobKind ==> forall j :: j in JobsOf(Patched(kind, doc, job).value) ==> j == job
  {
    if kind == RunJobsKind {
      var i :| 0 <= i < |doc.jobs| && doc.jobs[i].id == job.id;
      assert Replaced(doc.jobs, job)[i] == job;
    }
  }

  lemma MidShows(rows: Rows, repo: string, runID: int, job: Job, now: int)
    requires WellKeyed(rows) && Appliable(rows, repo, runID, job)
    ensures var after := Mid(rows, Subject(rows, repo, runID, job), job, now);
            WellKeyed(after) && Shows(after, repo, runID, job)
  {
    var subject := Subject(rows, repo, runID, job);
    var after := Mid(rows, subject, job, now);
    forall k | k in after && k in subject
      ensures forall j :: j in JobsOf(after[k].doc) && j.id == job.id ==> j == job
      ensures k.kind == JobKind ==> forall j :: j in JobsOf(after[k].doc) ==> j == job
    {
      PatchedShows(k.kind, rows[k].doc, job);
    }
  }

  /** GetCachedWorkflowJobs serves a row until it expires. */
  predicate Served(rows: Rows, k: Key, now: int) { k in rows && rows[k].expires > now }

  /** How long a rewritten page is served: at most ten more seconds with a job in progress on it, at most a minute with
      one that has not completed, whatever order it lists them in; and a day exactly when all have completed. */
  lemma LivePagesExpireSoon(rows: Rows, repo: string, runID: int, job: Job, now: int, later: int, k: Key)
    requires Appliable(rows, repo, runID, job) && k in Subject(rows, repo, runID, job)
    ensures var after := Mid(rows, Subject(rows, repo, runID, job), job, now);
            var jobs := JobsOf(after[k].doc);
            && (Served(after, k, later) && (exists j :: j in jobs && Spells(j.status, "in_progress")) ==>
                  later < now + 10)
            && (Served(after, k, later) && (exists j :: j in jobs && !Spells(j.status, "completed")) ==>
                  later < now + 60)
            && ((forall j :: j in jobs ==> Spells(j.status, "completed")) <==> after[k].expires == now + 86_400)
  {
    var after := Mid(rows, Subject(rows, repo, runID, job), job, now);
    var jobs := JobsOf(after[k].doc);
    assert Strongest(Moving(jobs), jobs);
    forall j ensures Movement(j) == (if Spells(j.status, "completed") then Settled
                                     else if Spells(j.status, "in_progress") then Running else Queued) {
      MovementReads(j);
    }
    NotBoth();
  }

  lemma NotBoth()
    ensures forall s :: !(Spells(s, "completed") && Spells(s, "in_progress"))
  {
    assert |"completed"| != |"in_progress"|;
  }
}
