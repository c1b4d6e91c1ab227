// internal/ghdata/checks.go and UpsertPRWithChecks of store_prs.go: the CI rollup kept on every PR row as a view over
// the recorded checks of its head commit.
module CheckRollup {
  import opened Options
  import opened PullRows
  import opened PullTruth

  datatype Check = Check(sha: string, context: string)

  type Checks = map<Check, string>

  // ---- The rollup ----

  predicate IsFailure(st: string) { st == "FAILURE" || st == "ERROR" }

  predicate IsPending(st: string) { st == "PENDING" || st == "EXPECTED" }

  /** Any failure dominates, then pending, then success; a function of the set of states alone. */
  ghost function Rollup(states: set<string>): string {
    if exists st :: st in states && IsFailure(st) then "FAILURE"
    else if exists st :: st in states && IsPending(st) then "PENDING"
    else if "SUCCESS" in states then "SUCCESS"
    else ""
  }

  /** The documented order of the verdicts. */
  lemma RollupReads(states: set<string>)
    ensures Rollup(states) == if "FAILURE" in states || "ERROR" in states then "FAILURE"
                              else if "PENDING" in states || "EXPECTED" in states then "PENDING"
                              else if "SUCCESS" in states then "SUCCESS" else ""
  {
    assert forall st :: IsFailure(st) <==> st == "FAILURE" || st == "ERROR";
    assert forall st :: IsPending(st) <==> st == "PENDING" || st == "EXPECTED";
  }

  /** rollupState; the states come as rows, in any order and with repeats. */
  method RollupState(states: seq<string>) returns (rollup: string)
    ensures rollup == Rollup(set st | st in states)
    ensures rollup == if "FAILURE" in states || "ERROR" in states then "FAILURE"
                      else if "PENDING" in states || "EXPECTED" in states then "PENDING"
                      else if "SUCCESS" in states then "SUCCESS" else ""
  {
    var hasFailure, hasPending, hasSuccess := false, false, false;
    for i := 0 to |states|
      invariant hasFailure <==> exists k :: 0 <= k < i && IsFailure(states[k])
      invariant hasPending <==> exists k :: 0 <= k < i && IsPending(states[k])
      invariant hasSuccess <==> exists k :: 0 <= k < i && states[k] == "SUCCESS"
    {
      var st := states[i];
      if st == "FAILURE" || st == "ERROR" {
        assert IsFailure(states[i]);
        hasFailure := true;
      } else if st == "PENDING" || st == "EXPECTED" {
        assert IsPending(states[i]);
        hasPending := true;
      } else if st == "SUCCESS" {
        hasSuccess := true;
      }
    }
    ghost var all := set st | st in states;
    RollupReads(all);
    assert hasFailure ==> exists st :: st in all && IsFailure(st);
    assert hasPending ==> exists st :: st in all && IsPending(st);
    rollup := if hasFailure then "FAILURE" else if hasPending then "PENDING" else if hasSuccess then "SUCCESS" else "";
  }

  // ---- The writers ----

  /** ListCommitCheckStates. */
  ghost function States(checks: Checks, sha: string): set<string> {
    set k | k in checks && k.sha == sha :: checks[k]
  }

  ghost function RollupOf(checks: Checks, sha: string): string { Rollup(States(checks, sha)) }

  /** The NullString of a rollup. */
  function AsStatus(rollup: string): Option<string> { if rollup == "" then None else Some(rollup) }

  /** SetPRStatusByHeadSha; the empty sha is NULL there and matches nothing. */
  function WithStatus(rows: map<nat, Row>, sha: string, status: Option<string>): map<nat, Row> {
    map n | n in rows :: if sha != "" && rows[n].headOid == Some(sha) then rows[n].(lastStatus := status) else rows[n]
  }

  /** The truth together with the recorded checks. */
  datatype Mirror = Mirror(truth: Truth, checks: Checks)

  /** ApplyCommitStatus. */
  ghost function StatusApplied(m: Mirror, sha: string, context: string, state: string): Mirror {
    var checks := m.checks[Check(sha, context) := state];
    Mirror(m.truth.(rows := WithStatus(m.truth.rows, sha, AsStatus(RollupOf(checks, sha)))), checks)
  }

  /** UpsertPRWithChecks. */
  ghost function PRApplied(m: Mirror, pr: Row, touched: int): Mirror {
    var t := UpsertTx(m.truth, pr, touched);
    if Blocks(m.truth, pr) || !NonEmpty(pr.headOid) || RollupOf(m.checks, pr.headOid.value) == "" then m.(truth := t)
    else m.(truth := t.(rows := WithStatus(t.rows, pr.headOid.value, Some(RollupOf(m.checks, pr.headOid.value)))))
  }

  function WithoutChecks(checks: Checks, sha: string): Checks {
    map k | k in checks && k.sha != sha :: checks[k]
  }

  /** ForceCheckRollup. */
  function Forced(m: Mirror, sha: string, rollup: Option<string>): Mirror {
    if sha == "" then m
    else Mirror(m.truth.(rows := WithStatus(m.truth.rows, sha, rollup)), WithoutChecks(m.checks, sha))
  }

  // ---- The view ----

  /** Every row whose head has recorded checks with a verdict carries exactly that verdict. */
  ghost predicate InView(row: Row, checks: Checks) {
    NonEmpty(row.headOid) && RollupOf(checks, row.headOid.value) != "" ==>
      row.lastStatus == Some(RollupOf(checks, row.headOid.value))
  }

  ghost predicate Maintained(m: Mirror) {
    forall n :: n in m.truth.rows ==> InView(m.truth.rows[n], m.checks)
  }

  datatype Op =
    | ApplyStatus(sha: string, context: string, state: string)
    | UpsertPR(pr: Row, touched: int)
    | Force(sha: string, rollup: Option<string>)
    | Delete(n: nat, updated: Option<int>, now: int)

  ghost function Apply(m: Mirror, op: Op): Mirror {
    match op
    case ApplyStatus(sha, context, state) => StatusApplied(m, sha, context, state)
    case UpsertPR(pr, touched) => PRApplied(m, pr, touched)
    case Force(sha, rollup) => Forced(m, sha, rollup)
    case Delete(n, updated, now) => m.(truth := Closed(m.truth, n, updated, now))
  }

  lemma StatesElsewhere(checks: Checks, k: Check, state: string, sha: string)
    requires sha != k.sha
    ensures States(checks[k := state], sha) == States(checks, sha)
    ensures States(WithoutChecks(checks, k.sha), sha) == States(checks, sha)
  {
    var a, b, c := States(checks, sha), States(checks[k := state], sha), States(WithoutChecks(checks, k.sha), sha);
    forall st | st in a ensures st in b && st in c {
      var x :| x in checks && x.sha == sha && checks[x] == st;
      assert x in checks[k := state] && checks[k := state][x] == st;
      assert x in WithoutChecks(checks, k.sha) && WithoutChecks(checks, k.sha)[x] == st;
    }
  }

  lemma NoStatesLeft(checks: Checks, sha: string)
    ensures RollupOf(WithoutChecks(checks, sha), sha) == ""
  {
    assert States(WithoutChecks(checks, sha), sha) == {};
  }

  lemma OpMaintains(m: Mirror, op: Op)
    requires Maintained(m)
    ensures Maintained(Apply(m, op))
  {
    var m' := Apply(m, op);
    forall n | n in m'.truth.rows ensures InView(m'.truth.rows[n], m'.checks) {
      var row := m'.truth.rows[n];
      match op
      case ApplyStatus(sha, context, state) =>
        if NonEmpty(row.headOid) && row.headOid.value != sha {
          StatesElsewhere(m.checks, Check(sha, context), state, row.headOid.value);
        }
      case Force(sha, rollup) =>
        if sha != "" && NonEmpty(row.headOid) {
          NoStatesLeft(m.checks, sha);
          if row.headOid.value != sha {
            StatesElsewhere(m.checks, Check(sha, ""), "", row.headOid.value);
          }
        }
      case UpsertPR(pr, touched) =>
      case Delete(k, updated, now) =>
    }
  }

  ghost function Run(m: Mirror, ops: seq<Op>): Mirror
    decreases |ops|
  {
    if ops == [] then m else Run(Apply(m, ops[0]), ops[1..])
  }

  /** The view is maintained over every interleaving of the four writers. */
  lemma {:induction false} RunMaintains(m: Mirror, ops: seq<Op>)
    requires Maintained(m)
    ensures Maintained(Run(m, ops))
    decreases |ops|
  {
    if ops != [] {
      OpMaintains(m, ops[0]);
      RunMaintains(Apply(m, ops[0]), ops[1..]);
    }
  }

  lemma StatusOverwrites(rows: map<nat, Row>, sha: string, x: Option<string>, y: Option<string>)
    ensures WithStatus(WithStatus(rows, sha, x), sha, y) == WithStatus(rows, sha, y)
  {
  }

  lemma UpsertIgnoresStatus(prior: Row, x: Option<string>, y: Option<string>, pr: Row, touched: int)
    ensures Upserted(Some(prior.(lastStatus := x)), pr, touched).(lastStatus := y)
         == Upserted(Some(prior), pr, touched).(lastStatus := y)
  {
  }

  /** Whatever status stood on the head's rows, upserting a PR onto that head and then setting its status agree. */
  lemma UpsertUnderStatus(t: Truth, sha: string, x: Option<string>, y: Option<string>, pr: Row, touched: int)
    requires pr.headOid == Some(sha) && sha != "" && !Blocks(t, pr)
    ensures WithStatus(UpsertTx(t.(rows := WithStatus(t.rows, sha, x)), pr, touched).rows, sha, y)
         == WithStatus(UpsertTx(t, pr, touched).rows, sha, y)
  {
    var n := pr.number;
    var a, b := UpsertTx(t.(rows := WithStatus(t.rows, sha, x)), pr, touched).rows, UpsertTx(t, pr, touched).rows;
    assert a[n].headOid == Some(sha) && b[n].headOid == Some(sha);
    assert a[n].(lastStatus := y) == b[n].(lastStatus := y) by {
      if n in t.rows {
        UpsertIgnoresStatus(t.rows[n], x, y, pr, touched);
      }
    }
    assert a.Keys == b.Keys;
    forall k | k in a ensures WithStatus(a, sha, y)[k] == WithStatus(b, sha, y)[k] {
      if k != n {
        assert b[k] == t.rows[k] && a[k] == WithStatus(t.rows, sha, x)[k];
      }
    }
  }

  /** A status that gives its commit a verdict and the PR whose head it is may come in either order. */
  lemma StatusAndPRCommute(m: Mirror, sha: string, context: string, state: string, pr: Row, touched: int)
    requires pr.headOid == Some(sha) && sha != ""
    requires RollupOf(m.checks[Check(sha, context) := state], sha) != ""
    ensures PRApplied(StatusApplied(m, sha, context, state), pr, touched)
         == StatusApplied(PRApplied(m, pr, touched), sha, context, state)
  {
    var verdict := Some(RollupOf(m.checks[Check(sha, context) := state], sha));
    if !Blocks(m.truth, pr) {
      var t := UpsertTx(m.truth, pr, touched);
      UpsertUnderStatus(m.truth, sha, verdict, verdict, pr, touched);
      StatusOverwrites(t.rows, sha, Some(RollupOf(m.checks, sha)), verdict);
    }
  }

  /** The writers that upsert a PR without re-deriving its status -- the list absorb, the org sync, the single-PR
      absorb -- keep the view exactly when the row they leave already shows the new head's verdict. */
  lemma PlainUpsertMaintainsIff(m: Mirror, pr: Row, touched: int)
    requires Maintained(m) && !Blocks(m.truth, pr)
    ensures var prior := Lookup(m.truth, pr.number);
            var status := if prior.Some? then Coalesce(pr.lastStatus, prior.value.lastStatus) else pr.lastStatus;
            Maintained(m.(truth := UpsertTx(m.truth, pr, touched))) <==>
            (NonEmpty(pr.headOid) && RollupOf(m.checks, pr.headOid.value) != ""
             ==> status == Some(RollupOf(m.checks, pr.headOid.value)))
  {
    var t := UpsertTx(m.truth, pr, touched);
    assert InView(t.rows[pr.number], m.checks) <==>
           (NonEmpty(pr.headOid) && RollupOf(m.checks, pr.headOid.value) != ""
            ==> t.rows[pr.number].lastStatus == Some(RollupOf(m.checks, pr.headOid.value)));
  }

  /** What a status moves: the rows whose head is its commit, and their CI status alone. */
  lemma StatusMoves(m: Mirror, sha: string, context: string, state: string, n: nat)
    requires n in m.truth.rows
    ensures var row := m.truth.rows[n];
            var verdict := RollupOf(m.checks[Check(sha, context) := state], sha);
            var u := StatusApplied(m, sha, context, state);
            && u.truth.rows.Keys == m.truth.rows.Keys && u.truth.closures == m.truth.closures
            && (row.headOid != Some(sha) || sha == "" ==> u.truth.rows[n] == row)
            && (row.headOid == Some(sha) && sha != "" ==>
                  u.truth.rows[n] == row.(lastStatus := if verdict == "" then None else Some(verdict)))
  {
  }

  /** What a PR's upsert leaves: a refused view changes nothing; a head without checks or verdict leaves the status to
      the upsert. */
  lemma UpsertLeaves(m: Mirror, pr: Row, touched: int)
    ensures Blocks(m.truth, pr) ==> PRApplied(m, pr, touched) == m
    ensures pr.headOid.None? || pr.headOid.value == "" || RollupOf(m.checks, pr.headOid.value) == "" ==>
              PRApplied(m, pr, touched) == m.(truth := UpsertTx(m.truth, pr, touched))
  {
  }

  /** What forcing a verdict does: the commit's recorded checks go, so that only a new check can move the forced status;
      an empty commit forces nothing. */
  lemma ForceSticks(m: Mirror, sha: string, rollup: Option<string>, n: nat)
    requires n in m.truth.rows
    ensures sha == "" ==> Forced(m, sha, rollup) == m
    ensures sha != "" ==>
              var row, u := m.truth.rows[n], Forced(m, sha, rollup);
              && (forall k :: k in u.checks <==> k in m.checks && k.sha != sha)
              && n in u.truth.rows
              && u.truth.rows[n] == (if row.headOid == Some(sha) then row.(lastStatus := rollup) else row)
  {
  }
}
