// internal/ghdata/store.go: who may be shown a repo. Grants and deny verdicts with their expiries, the replace-sync
// of an org listing's grants and the throttled prune. Queries: internal/database/queries/ghdata.sql, access grants and
// deny verdicts. Times are whole seconds (see Rfc3339); owner and repo are already folded.
module Grants {
  import opened Options

  const GrantTTL := 24 * 3600
  const DenyTTL := 5 * 60
  const PruneInterval := 10 * 60

  datatype Source = ListSync | Probe

  datatype Key = Key(principal: string, owner: string, repo: string)

  datatype Grant = Grant(expires: int, source: Source)

  /** A probed resource of some principal. */
  datatype Resource = Resource(principal: string, kind: string, id: string)

  datatype Denial = Denial(owner: string, repo: string, status: int, expires: int)

  datatype State = State(grants: map<Key, Grant>, denials: map<Resource, Denial>)

  datatype Listing = Listing(owner: string, repo: string)

  datatype Op =
    | Record(k: Key, source: Source, now: int)
    | Sync(owner: string, repos: seq<Listing>, principal: string, now: int)
    | Revoke(k: Key)
    | Deny(r: Resource, owner: string, repo: string, status: int, now: int)
    | Prune(now: int)

  function KeyOf(principal: string, l: Listing): Key { Key(principal, l.owner, l.repo) }

  /** The denial is about the very repo. */
  predicate Against(r: Resource, d: Denial, k: Key) {
    r.principal == k.principal && d.owner == k.owner && d.repo == k.repo
  }

  /** DeleteListSyncGrants' WHERE. */
  predicate Listed(k: Key, g: Grant, principal: string, owner: string) {
    k.principal == principal && k.owner == owner && g.source == ListSync
  }

  ghost function Next(s: State, op: Op): State {
    match op
    case Record(k, source, now) =>
      State(s.grants[k := Grant(now + GrantTTL, source)],
            map r | r in s.denials && !Against(r, s.denials[r], k) :: s.denials[r])
    case Sync(owner, repos, principal, now) =>
      if principal == "" then s else
        State(Granting(map k | k in s.grants && !Listed(k, s.grants[k], principal, owner) :: s.grants[k],
                       KeysOf(principal, repos), Grant(now + GrantTTL, ListSync)),
              map r | r in s.denials && !(r.principal == principal && s.denials[r].owner == owner) :: s.denials[r])
    case Revoke(k) => s.(grants := s.grants - {k})
    case Deny(r, owner, repo, status, now) => s.(denials := s.denials[r := Denial(owner, repo, status, now + DenyTTL)])
    case Prune(now) => Pruned(s, now)
  }

  /** One grant for each of some keys, over what was there. */
  ghost function Granting(grants: map<Key, Grant>, keys: set<Key>, g: Grant): map<Key, Grant> {
    map k | k in grants.Keys + keys :: if k in keys then g else grants[k]
  }

  function Pruned(s: State, now: int): State {
    State(map k | k in s.grants && s.grants[k].expires > now :: s.grants[k],
          map r | r in s.denials && s.denials[r].expires > now :: s.denials[r])
  }

  class Store {
    var grants: map<Key, Grant>
    var denials: map<Resource, Denial>
    var lastPrune: int

    ghost function View(): State reads this { State(grants, denials) }

    constructor ()
      ensures View() == State(map[], map[]) && lastPrune == 0
    {
      grants, denials, lastPrune := map[], map[], 0;
    }

    /** maybePruneAccessControl. */
    method MaybePrune(now: int)
      modifies this
      ensures View() == if now - old(lastPrune) >= 600 then Pruned(old(View()), now) else old(View())
      ensures lastPrune == if now - old(lastPrune) >= 600 then now else old(lastPrune)
    {
      if now - lastPrune < PruneInterval {
        return;
      }
      lastPrune := now;
      grants := map k | k in grants && grants[k].expires > now :: grants[k];
      denials := map r | r in denials && denials[r].expires > now :: denials[r];
    }

    method RecordGrant(k: Key, source: Source, now: int)
      modifies this
      ensures var s := Next(old(View()), Record(k, source, now));
              View() == if now - old(lastPrune) >= 600 then Pruned(s, now) else s
    {
      grants := grants[k := Grant(now + GrantTTL, source)];
      denials := map r | r in denials && !Against(r, denials[r], k) :: denials[r];
      MaybePrune(now);
    }

    method HasGrant(k: Key, now: int) returns (live: bool)
      ensures live == Live(View(), k, now)
    {
      live := k in grants && grants[k].expires > now;
    }

    method RevokeGrant(k: Key)
      modifies this
      ensures View() == Next(old(View()), Revoke(k)) && lastPrune == old(lastPrune)
    {
      grants := grants - {k};
    }

    method RecordDenyVerdict(r: Resource, owner: string, repo: string, status: int, now: int)
      modifies this
      ensures View() == Next(old(View()), Deny(r, owner, repo, status, now)) && lastPrune == old(lastPrune)
    {
      denials := denials[r := Denial(owner, repo, status, now + DenyTTL)];
    }

    method GetDenyVerdict(r: Resource, now: int) returns (status: Option<int>)
      ensures status == if Denied(View(), r, now) then Some(denials[r].status) else None
    {
      if r !in denials || denials[r].expires <= now {
        return None;
      }
      return Some(denials[r].status);
    }

    /** One upsert for each listed repo. */
    method GrantListed(repos: seq<Listing>, principal: string, now: int)
      modifies `grants
      ensures grants == Granting(old(grants), KeysOf(principal, repos), Grant(now + GrantTTL, ListSync))
    {
      for i := 0 to |repos|
        invariant grants == Granting(old(grants), KeysOf(principal, repos[..i]), Grant(now + GrantTTL, ListSync))
      {
        assert repos[..i + 1] == repos[..i] + [repos[i]];
        assert KeysOf(principal, repos[..i + 1]) == KeysOf(principal, repos[..i]) + {KeyOf(principal, repos[i])};
        grants := grants[KeyOf(principal, repos[i]) := Grant(now + GrantTTL, ListSync)];
      }
      assert repos[..|repos|] == repos;
    }

    /** SyncOrgTruth's grant half: the old listing's grants go, every repo of the new one earns one. */
    method SyncGrants(owner: string, repos: seq<Listing>, principal: string, now: int)
      modifies this
      ensures var s := Next(old(View()), Sync(owner, repos, principal, now));
              View() == if now - old(lastPrune) >= 600 then Pruned(s, now) else s
    {
      if principal != "" {
        grants := map k | k in grants && !Listed(k, grants[k], principal, owner) :: grants[k];
        GrantListed(repos, principal, now);
        denials := map r | r in denials && !(r.principal == principal && denials[r].owner == owner) :: denials[r];
      }
      MaybePrune(now);
    }
  }

  ghost function KeysOf(principal: string, repos: seq<Listing>): set<Key> {
    set l | l in repos :: KeyOf(principal, l)
  }

  ghost predicate Live(s: State, k: Key, now: int) { k in s.grants && s.grants[k].expires > now }

  ghost predicate Denied(s: State, r: Resource, now: int) { r in s.denials && s.denials[r].expires > now }

  // ---- Whole histories, from an empty store ----

  ghost function Run(ops: seq<Op>): State {
    if ops == [] then State(map[], map[]) else Next(Run(ops[..|ops| - 1]), ops[|ops| - 1])
  }

  /** The keys an operation carries GitHub's proof of. */
  ghost function Proven(op: Op): set<Key> {
    match op
    case Record(k, _, _) => {k}
    case Sync(_, repos, principal, _) => if principal == "" then {} else KeysOf(principal, repos)
    case _ => {}
  }

  function SourceOf(op: Op): Source { if op.Record? then op.source else ListSync }

  /** The operation takes away a grant of this source: a revocation always, a listing that omits the repo only what an
      earlier listing gave. */
  ghost predicate Ends(op: Op, k: Key, source: Source) {
    || (op.Revoke? && op.k == k)
    || (op.Sync? && op.principal == k.principal != "" && op.owner == k.owner && k !in Proven(op) && source == ListSync)
  }

  /** Operation i is the last proof of k and nothing after it took the grant away. */
  ghost predicate Standing(ops: seq<Op>, k: Key, i: nat) {
    && i < |ops| && k in Proven(ops[i])
    && forall j :: i < j < |ops| ==> k !in Proven(ops[j]) && !Ends(ops[j], k, SourceOf(ops[i]))
  }

  /** The store has only been pruned at times up to t. */
  ghost predicate PrunedBy(ops: seq<Op>, t: int) {
    forall op :: op in ops && op.Prune? ==> op.now <= t
  }

  function ProofTime(op: Op): int { if op.Record? || op.Sync? then op.now else 0 }

  function Earned(op: Op): Grant { Grant(ProofTime(op) + GrantTTL, SourceOf(op)) }

  ghost predicate Backed(ops: seq<Op>, k: Key, i: nat) {
    Standing(ops, k, i) && k in Run(ops).grants && Run(ops).grants[k] == Earned(ops[i])
  }

  /** The grant a standing proof earned is there unless a prune had to take it; no other is. */
  ghost predicate Tracks(ops: seq<Op>, k: Key, t: int) {
    && (k in Run(ops).grants ==> exists i: nat :: Backed(ops, k, i))
    && (forall i: nat :: Standing(ops, k, i) && t < Earned(ops[i]).expires ==> Backed(ops, k, i))
  }

  lemma StandingExtends(ops: seq<Op>, op: Op, k: Key, i: nat)
    ensures Standing(ops + [op], k, i) <==>
            (i == |ops| && k in Proven(op))
            || (Standing(ops, k, i) && k !in Proven(op) && !Ends(op, k, SourceOf(ops[i])))
  {
    var more := ops + [op];
    if i < |ops| {
      assert more[i] == ops[i] && more[|ops|] == op;
      assert forall j :: i < j < |ops| ==> more[j] == ops[j];
    }
  }

  lemma {:induction false} HistoryTracks(ops: seq<Op>, k: Key, t: int)
    requires PrunedBy(ops, t)
    ensures Tracks(ops, k, t)
  {
    if ops != [] {
      var before, op := ops[..|ops| - 1], ops[|ops| - 1];
      assert ops == before + [op];
      HistoryTracks(before, k, t);
      TracksStep(before, op, k, t);
    }
  }

  lemma StandingUnique(ops: seq<Op>, k: Key, i: nat, j: nat)
    requires Standing(ops, k, i) && Standing(ops, k, j)
    ensures i == j
  {
  }

  lemma BackedStep(before: seq<Op>, op: Op, k: Key, i: nat)
    requires k !in Proven(op)
    ensures var ops := before + [op];
            k in Run(ops).grants && Backed(before, k, i) ==> Backed(ops, k, i)
    ensures var ops := before + [op];
            k in Run(ops).grants ==> k in Run(before).grants
    ensures var ops := before + [op];
            Backed(before, k, i) && Standing(ops, k, i) && (op.Prune? ==> op.now < Earned(before[i]).expires)
            ==> Backed(ops, k, i)
  {
    var ops := before + [op];
    assert ops[..|ops| - 1] == before;
    StandingExtends(before, op, k, i);
  }

  lemma TracksStep(before: seq<Op>, op: Op, k: Key, t: int)
    requires Tracks(before, k, t) && (op.Prune? ==> op.now <= t)
    ensures Tracks(before + [op], k, t)
  {
    var ops := before + [op];
    assert ops[..|ops| - 1] == before;
    if k in Proven(op) {
      StandingExtends(before, op, k, |before|);
      assert Backed(ops, k, |before|);
      forall i: nat | Standing(ops, k, i) ensures i == |before| {
        StandingUnique(ops, k, i, |before|);
      }
    } else {
      if k in Run(ops).grants {
        BackedStep(before, op, k, 0);
        var h: nat :| Backed(before, k, h);
        BackedStep(before, op, k, h);
      }
      forall i: nat | Standing(ops, k, i) && t < Earned(ops[i]).expires ensures Backed(ops, k, i) {
        StandingExtends(before, op, k, i);
        BackedStep(before, op, k, i);
      }
    }
  }

  /** A principal is let in at time t exactly when the last proof of the repo is under a day old and since then it was
      neither revoked nor -- if a listing gave it -- omitted from a later listing of that owner. Prunes never matter. */
  lemma GrantedIffProofStands(ops: seq<Op>, k: Key, t: int)
    requires PrunedBy(ops, t)
    ensures Live(Run(ops), k, t) <==> exists i: nat :: Standing(ops, k, i) && t < ProofTime(ops[i]) + 86_400
  {
    HistoryTracks(ops, k, t);
    if Live(Run(ops), k, t) {
      var i: nat :| Backed(ops, k, i);
      assert Standing(ops, k, i);
    } else {
      forall i: nat | Standing(ops, k, i) ensures t >= ProofTime(ops[i]) + GrantTTL {
        assert t < Earned(ops[i]).expires ==> Backed(ops, k, i);
      }
    }
  }

  /** A prune takes exactly what has expired, which no later reader can tell. */
  lemma PruneReads(s: State, now: int, later: int, k: Key, r: Resource)
    ensures k in Pruned(s, now).grants <==> k in s.grants && s.grants[k].expires > now
    ensures r in Pruned(s, now).denials <==> r in s.denials && s.denials[r].expires > now
    ensures later >= now ==> (Live(Pruned(s, now), k, later) <==> Live(s, k, later))
                             && (Denied(Pruned(s, now), r, later) <==> Denied(s, r, later))
  {
  }

  /** What a listing leaves a principal: a day's grant for every repo on it, the grants that no earlier listing of that
      owner gave, and nobody else's touched; without a principal, everything. */
  lemma SyncReads(s: State, owner: string, repos: seq<Listing>, principal: string, now: int, k: Key)
    ensures var after := Next(s, Sync(owner, repos, principal, now));
            var listed := k.principal == principal && Listing(k.owner, k.repo) in repos;
            && (principal == "" ==> after == s)
            && (principal != "" && listed ==> k in after.grants && after.grants[k] == Grant(now + 86_400, ListSync))
            && (principal != "" && !listed ==>
                  (k in after.grants <==> k in s.grants && !(k.principal == principal && k.owner == owner
                                                             && s.grants[k].source == ListSync))
                  && (k in after.grants ==> after.grants[k] == s.grants[k]))
  {
    assert k.principal == principal ==> k == KeyOf(principal, Listing(k.owner, k.repo));
    assert k in KeysOf(principal, repos) <==> k.principal == principal && Listing(k.owner, k.repo) in repos;
  }

  /** A recorded proof gives a day's grant, and clears that principal's denials for that repo and no others. */
  lemma RecordReads(s: State, k: Key, source: Source, now: int, x: Key, r: Resource)
    ensures var after := Next(s, Record(k, source, now));
            && k in after.grants && after.grants[k] == Grant(now + 86_400, source)
            && (x != k ==> (x in after.grants <==> x in s.grants) && (x in s.grants ==> after.grants[x] == s.grants[x]))
            && (r in after.denials <==>
                  r in s.denials && !(r.principal == k.principal && s.denials[r].owner == k.owner
                                      && s.denials[r].repo == k.repo))
  {
  }

  /** A probe's grant outlives a listing that omits the repo exactly when no listing in between included it: being
      listed turns it into a listing's grant. */
  lemma ProbeSurvivesOmissionIff(s: State, k: Key, listed: seq<Listing>, omitting: seq<Listing>,
                                 first: int, second: int, t: int)
    requires k.principal != "" && KeyOf(k.principal, Listing(k.owner, k.repo)) !in KeysOf(k.principal, omitting)
    requires Live(s, k, t) && s.grants[k].source == Probe
    ensures var between := Next(s, Sync(k.owner, listed, k.principal, first));
            var after := Next(between, Sync(k.owner, omitting, k.principal, second));
            Live(after, k, t) <==> k !in KeysOf(k.principal, listed)
  {
  }

  /** Operation i is the last denial of r, and no proof for its repo or listing of its owner has come since. */
  ghost predicate DenialStands(ops: seq<Op>, r: Resource, i: nat) {
    && i < |ops| && ops[i].Deny? && ops[i].r == r
    && forall j :: i < j < |ops| ==>
         !(ops[j].Deny? && ops[j].r == r) && !Clears(ops[j], r.principal, ops[i].owner, ops[i].repo)
  }

  ghost predicate Clears(op: Op, principal: string, owner: string, repo: string) {
    || (op.Record? && op.k == Key(principal, owner, repo))
    || (op.Sync? && op.principal == principal != "" && op.owner == owner)
  }

  function Verdict(op: Op): Denial
    requires op.Deny?
  {
    Denial(op.owner, op.repo, op.status, op.now + DenyTTL)
  }

  lemma DenialExtends(before: seq<Op>, op: Op, r: Resource, i: nat)
    requires DenialStands(before, r, i) && !(op.Deny? && op.r == r)
    requires r in Run(before).denials && Run(before).denials[r] == Verdict(before[i]) && r in Run(before + [op]).denials
    ensures DenialStands(before + [op], r, i)
    ensures Run(before + [op]).denials[r] == Verdict((before + [op])[i])
  {
    var ops := before + [op];
    assert ops[..|ops| - 1] == before;
    assert ops[i] == before[i] && forall j :: i < j < |before| ==> ops[j] == before[j];
  }

  /** No stored denial is older than a proof that contradicts it. */
  lemma {:induction false} DenialIsLastWord(ops: seq<Op>, r: Resource)
    requires r in Run(ops).denials
    ensures exists i: nat :: DenialStands(ops, r, i) && Run(ops).denials[r] == Verdict(ops[i])
  {
    var before, op := ops[..|ops| - 1], ops[|ops| - 1];
    if op.Deny? && op.r == r {
      assert DenialStands(ops, r, |before|);
    } else {
      DenialIsLastWord(before, r);
      var i: nat :| DenialStands(before, r, i) && Run(before).denials[r] == Verdict(before[i]);
      DenialExtends(before, op, r, i);
      assert ops == before + [op];
    }
  }

  /** A standing denial is kept until it runs out. */
  lemma {:induction false} StandingDenialKept(ops: seq<Op>, r: Resource, i: nat, t: int)
    requires PrunedBy(ops, t) && DenialStands(ops, r, i) && t < Verdict(ops[i]).expires
    ensures r in Run(ops).denials && Run(ops).denials[r] == Verdict(ops[i])
  {
    var before, op := ops[..|ops| - 1], ops[|ops| - 1];
    if i < |before| {
      assert before[i] == ops[i] && op == ops[|before|] && forall j :: i < j < |before| ==> before[j] == ops[j];
      StandingDenialKept(before, r, i, t);
    }
  }

  /** A denial is served at time t exactly when it is under five minutes old, the last for its resource, and no proof
      for the repo or listing of the owner has come since. */
  lemma DeniedIffLastWord(ops: seq<Op>, r: Resource, t: int)
    requires PrunedBy(ops, t)
    ensures Denied(Run(ops), r, t) <==> exists i: nat :: DenialStands(ops, r, i) && t < ops[i].now + 300
    ensures Denied(Run(ops), r, t) ==>
              exists i: nat :: DenialStands(ops, r, i)
                && Run(ops).denials[r] == Denial(ops[i].owner, ops[i].repo, ops[i].status, ops[i].now + 300)
  {
    if Denied(Run(ops), r, t) {
      DenialIsLastWord(ops, r);
    }
    forall i: nat | DenialStands(ops, r, i) && t < Verdict(ops[i]).expires ensures Denied(Run(ops), r, t) {
      StandingDenialKept(ops, r, i, t);
    }
  }
}
