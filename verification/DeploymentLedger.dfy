/** The durable deployment ledger: its records, the blockers they raise, and the
    only three ways in which the controller edits it. */
module DeploymentLedger {
  import opened Outcomes
  import opened Releases
  import opened DeploymentJournal

  /** What identifies a submission. `details` stands for the workflow run, its
      attempt, the release tag and the revision; digests are SHA-256 in hex. */
  datatype Identity = Identity(
    deploymentId: DeploymentId, intent: string, jti: string, nonce: string,
    environment: Environment, manifest: string, details: string)

  datatype MigrationState = NeverStarted | Started | Completed | Failed

  datatype LocalOutcome = InProgress | Success | Failure

  datatype Synchronization = Pending | InProgressSynced | Synced

  datatype Phase =
    | Accepted | ReleaseAuthenticated
    | ProductionCurrentVerified | ProductionBackupDeepVerified | PhaseC2Required | OffserverDurabilityConfirmed
    | BackupVerified | AuthorityChanging | AuthorityActive | ImagesPulled | DatabaseReady
    | MigrationStarting | MigrationCompleted | ApplicationDeployed | WorkersDeployed | ExporterDeployed
    | Verified | Complete | RolledBack | RollbackFailed | ManualReview
    | ManualReviewBlocked | ManualReconciliationBlocked | ReconciledPreMutation

  datatype Result =
    | NoResult | Deployed | DeployedNotPubliclyActivated | PhaseC2BackupRequired
    | DatabaseReviewRequired | DeploymentReconciliationRequired | PreMutationCrashReconciled
    | FailureMessage

  datatype Record = Record(
    identity: Identity,
    previousAuthority: Option<string>,
    currentFingerprint: Option<Fingerprint>,
    targetFingerprint: Option<Fingerprint>,
    migration: MigrationState,
    phase: Phase,
    outcome: LocalOutcome,
    result: Result,
    sync: Synchronization,
    backupId: Option<string>)

  /** `requires_manual_database_review`. */
  predicate DatabaseReview(r: Record) {
    r.migration.Started? || r.migration.Failed? || r.phase.ManualReview? || r.result.DatabaseReviewRequired?
  }

  /** `requires_manual_deployment_reconciliation`. */
  predicate Reconciliation(r: Record) {
    r.outcome.InProgress? || r.phase.RollbackFailed? || r.result.DeploymentReconciliationRequired?
  }

  predicate Blocks(r: Record) {
    DatabaseReview(r) || Reconciliation(r)
  }

  predicate InReview(records: seq<Record>, environment: Environment) {
    exists k :: 0 <= k < |records| && records[k].identity.environment == environment && DatabaseReview(records[k])
  }

  predicate InReconciliation(records: seq<Record>, environment: Environment) {
    exists k :: 0 <= k < |records| && records[k].identity.environment == environment && Reconciliation(records[k])
  }

  predicate StagingSuccess(records: seq<Record>, manifest: string) {
    exists k :: 0 <= k < |records| && SuccessFor(records[k], Staging, manifest)
  }

  predicate SuccessFor(r: Record, environment: Environment, manifest: string) {
    r.identity.environment == environment && r.identity.manifest == manifest && r.outcome.Success?
  }

  /** Two submissions agree in one of the four replay keys. */
  predicate Shares(a: Identity, b: Identity) {
    a.deploymentId == b.deploymentId || a.intent == b.intent || a.jti == b.jti || a.nonce == b.nonce
  }

  function FirstSharing(records: seq<Record>, identity: Identity): (k: nat)
    ensures k <= |records|
    ensures forall j :: 0 <= j < k ==> !Shares(records[j].identity, identity)
    ensures k < |records| ==> Shares(records[k].identity, identity)
  {
    if records == [] || Shares(records[0].identity, identity) then 0 else 1 + FirstSharing(records[1..], identity)
  }

  function FirstSuccess(records: seq<Record>, environment: Environment, manifest: string): (k: nat)
    ensures k <= |records|
    ensures forall j :: 0 <= j < k ==> !SuccessFor(records[j], environment, manifest)
    ensures k < |records| ==> SuccessFor(records[k], environment, manifest)
  {
    if records == [] || SuccessFor(records[0], environment, manifest) then 0
    else 1 + FirstSuccess(records[1..], environment, manifest)
  }

  datatype Decision =
    | Replay(index: nat) | Conflict | AlreadySuccessful(index: nat)
    | BlockedByReview | BlockedByReconciliation | New

  /** What `begin_record` answers to a submission. */
  function Decide(records: seq<Record>, identity: Identity): (d: Decision)
    ensures d.Replay? ==> d.index < |records| && records[d.index].identity == identity
    ensures d.AlreadySuccessful? ==>
      d.index < |records| && SuccessFor(records[d.index], identity.environment, identity.manifest)
    ensures !d.Replay? && !d.Conflict? ==> forall j :: 0 <= j < |records| ==> !Shares(records[j].identity, identity)
    ensures d.New? ==> !InReview(records, identity.environment) && !InReconciliation(records, identity.environment)
    ensures d.New? ==> forall j :: 0 <= j < |records| ==>
      !SuccessFor(records[j], identity.environment, identity.manifest)
  {
    var k := FirstSharing(records, identity);
    if k < |records| then
      if records[k].identity == identity then Replay(k) else Conflict
    else if InReview(records, identity.environment) then BlockedByReview
    else if InReconciliation(records, identity.environment) then BlockedByReconciliation
    else
      var s := FirstSuccess(records, identity.environment, identity.manifest);
      if s < |records| then AlreadySuccessful(s) else New
  }

  /** Record `k` is the first that shares a replay key with the submission. */
  predicate FirstShared(records: seq<Record>, identity: Identity, k: nat) {
    && k < |records|
    && (|| records[k].identity.deploymentId == identity.deploymentId || records[k].identity.intent == identity.intent
        || records[k].identity.jti == identity.jti || records[k].identity.nonce == identity.nonce)
    && forall j :: 0 <= j < k ==>
      && records[j].identity.deploymentId != identity.deploymentId && records[j].identity.intent != identity.intent
      && records[j].identity.jti != identity.jti && records[j].identity.nonce != identity.nonce
  }

  /** No record agrees with the submission in any of the four. */
  predicate Unshared(records: seq<Record>, identity: Identity) {
    forall j :: 0 <= j < |records| ==>
      && records[j].identity.deploymentId != identity.deploymentId && records[j].identity.intent != identity.intent
      && records[j].identity.jti != identity.jti && records[j].identity.nonce != identity.nonce
  }

  /** A record of the environment leaves the database to an operator. */
  predicate AsksForReview(records: seq<Record>, environment: Environment) {
    exists k :: 0 <= k < |records| && records[k].identity.environment == environment
      && (records[k].migration in {Started, Failed} || records[k].phase == ManualReview
          || records[k].result == DatabaseReviewRequired)
  }

  /** A record of the environment leaves the host to an operator. */
  predicate AsksForReconciliation(records: seq<Record>, environment: Environment) {
    exists k :: 0 <= k < |records| && records[k].identity.environment == environment
      && (records[k].outcome == InProgress || records[k].phase == RollbackFailed
          || records[k].result == DeploymentReconciliationRequired)
  }

  /** The manifest has succeeded in the environment. */
  predicate Succeeded(records: seq<Record>, identity: Identity) {
    exists k :: 0 <= k < |records| && records[k].identity.environment == identity.environment
      && records[k].identity.manifest == identity.manifest && records[k].outcome == Success
  }

  /** When each answer is given. */
  lemma DecideIff(records: seq<Record>, identity: Identity)
    ensures forall k: nat :: Decide(records, identity) == Replay(k) <==>
      FirstShared(records, identity, k) && records[k].identity == identity
    ensures Decide(records, identity).Conflict? <==>
      exists k: nat :: FirstShared(records, identity, k) && records[k].identity != identity
    ensures Decide(records, identity).BlockedByReview? <==>
      Unshared(records, identity) && AsksForReview(records, identity.environment)
    ensures Decide(records, identity).BlockedByReconciliation? <==>
      && Unshared(records, identity) && !AsksForReview(records, identity.environment)
      && AsksForReconciliation(records, identity.environment)
    ensures Decide(records, identity).AlreadySuccessful? <==>
      && Unshared(records, identity) && !AsksForReview(records, identity.environment)
      && !AsksForReconciliation(records, identity.environment) && Succeeded(records, identity)
    ensures Decide(records, identity).New? <==>
      && Unshared(records, identity) && !AsksForReview(records, identity.environment)
      && !AsksForReconciliation(records, identity.environment) && !Succeeded(records, identity)
  {
    var k := FirstSharing(records, identity);
    assert k < |records| ==> FirstShared(records, identity, k);
    forall j: nat | FirstShared(records, identity, j)
      ensures j == k
    {
      assert Shares(records[j].identity, identity);
      assert j <= k;
      assert !(j < k);
    }
    BlockersAsk(records, identity.environment);
    assert Succeeded(records, identity) <==>
      exists s :: 0 <= s < |records| && SuccessFor(records[s], identity.environment, identity.manifest);
  }

  lemma BlockersAsk(records: seq<Record>, environment: Environment)
    ensures InReview(records, environment) <==> AsksForReview(records, environment)
    ensures InReconciliation(records, environment) <==> AsksForReconciliation(records, environment)
  {
  }

  /** No two records agree in a replay key. */
  predicate Distinct(records: seq<Record>) {
    forall i, j {:trigger records[i], records[j]} :: 0 <= i < j < |records| ==>
      && records[i].identity.deploymentId != records[j].identity.deploymentId
      && records[i].identity.intent != records[j].identity.intent
      && records[i].identity.jti != records[j].identity.jti && records[i].identity.nonce != records[j].identity.nonce
  }

  /** The submission is on record. */
  predicate OnRecord(records: seq<Record>, identity: Identity) {
    exists k :: 0 <= k < |records| && records[k].identity == identity
  }

  /** Where no two records share a replay key, a submission that is on record is
      answered by its own record, and only one that clashes with a record and has
      none of its own is a conflict. */
  lemma ResubmissionIsReplay(records: seq<Record>, identity: Identity)
    requires Distinct(records)
    ensures forall k :: 0 <= k < |records| && records[k].identity == identity ==> Decide(records, identity) == Replay(k)
    ensures Decide(records, identity).Conflict? <==>
      !Unshared(records, identity) && !OnRecord(records, identity)
  {
    var k := FirstSharing(records, identity);
    forall j | 0 <= j < |records| && records[j].identity == identity
      ensures j == k
    {
      assert Shares(records[j].identity, identity);
    }
  }

  lemma RejectionIsConflict(records: seq<Record>, identity: Identity)
    requires Decide(records, identity).Conflict?
    ensures Distinct(records) ==> !OnRecord(records, identity)
  {
    if Distinct(records) { ResubmissionIsReplay(records, identity); }
  }

  /** What `begin_record` appends: a record that runs and has done nothing, or one
      that asks the operator for what the blocker of its environment asks. */
  lemma OpenedSays(identity: Identity, previous: Option<string>, current: Option<Fingerprint>)
    ensures var r := Opened(identity, previous, current, New);
      && r.identity == identity && r.previousAuthority == previous && r.currentFingerprint == current
      && r.outcome == InProgress && r.phase == Accepted && r.migration == NeverStarted && r.result == NoResult
    ensures var r := Opened(identity, previous, current, BlockedByReview);
      && r.identity == identity && r.outcome == Failure && r.result == DatabaseReviewRequired
      && AsksForReview([r], identity.environment) && !AsksForReconciliation([r], identity.environment)
    ensures var r := Opened(identity, previous, current, BlockedByReconciliation);
      && r.identity == identity && r.outcome == Failure && r.result == DeploymentReconciliationRequired
      && AsksForReconciliation([r], identity.environment) && !AsksForReview([r], identity.environment)
  {
    var a, b := Opened(identity, previous, current, BlockedByReview),
      Opened(identity, previous, current, BlockedByReconciliation);
    assert [a][0] == a && [b][0] == b;
  }

  /** The record that `begin_record` appends. */
  function Opened(identity: Identity, previous: Option<string>, current: Option<Fingerprint>, d: Decision): Record {
    var r := Record(identity, previous, current, None, NeverStarted, Accepted, InProgress, NoResult, Pending, None);
    match d
    case BlockedByReview => r.(phase := ManualReviewBlocked, outcome := Failure, result := DatabaseReviewRequired)
    case BlockedByReconciliation =>
      r.(phase := ManualReconciliationBlocked, outcome := Failure, result := DeploymentReconciliationRequired)
    case _ => r
  }

  /** A record whose transaction has persisted nothing but its acceptance. */
  predicate Reconcilable(r: Record) {
    r.identity.environment.Staging? && r.outcome.InProgress? && r.phase.Accepted? && r.migration.NeverStarted?
    && r.targetFingerprint.None? && r.result.NoResult?
  }

  function Reconciled(r: Record): Record {
    r.(phase := ReconciledPreMutation, outcome := Failure, migration := NeverStarted,
       result := PreMutationCrashReconciled)
  }

  /** A closed record is a failure that asks for nobody, and keeps everything else. */
  lemma ReconciledSays(r: Record)
    requires Reconcilable(r)
    ensures var c := Reconciled(r);
      && c.outcome == Failure && c.phase == ReconciledPreMutation && c.result == PreMutationCrashReconciled
      && !AsksForReview([c], c.identity.environment) && !AsksForReconciliation([c], c.identity.environment)
      && c.identity == r.identity && c.previousAuthority == r.previousAuthority
      && c.currentFingerprint == r.currentFingerprint && c.migration == NeverStarted && c.sync == r.sync
  {
  }

  /** Record `k` is the one record of its deployment, it is reconcilable, and no
      other Staging record raises a blocker. */
  predicate MayReconcile(records: seq<Record>, k: nat) {
    && k < |records|
    && Reconcilable(records[k])
    && forall j :: 0 <= j < |records| && j != k ==>
      && records[j].identity.deploymentId != records[k].identity.deploymentId
      && (records[j].identity.environment.Staging? ==> !Blocks(records[j]))
  }

  /** The ledger file and the copy of it that an invocation works on. */
  class Ledger {
    var disk: seq<Record>
    var memory: seq<Record>

    constructor ()
      ensures disk == [] && memory == []
    {
      disk, memory := [], [];
    }

    method Load() returns (o: Outcome)
      modifies `memory
      ensures o.Done? ==> memory == disk
    {
      o := *;
      if o.Done? { memory := disk; }
    }

    /** Atomic replacement of the file; a failure may follow the replacement. */
    method Persist() returns (o: Outcome)
      modifies `disk
      ensures disk == old(disk) || disk == memory
      ensures o.Done? ==> disk == memory
    {
      o := *;
      if o.IsFailure() { return; }
      disk := memory;
      o := *;
    }

    method Transition(k: nat, r: Record) returns (o: Outcome)
      requires k < |memory|
      modifies this
      ensures memory == old(memory)[k := r]
      ensures disk == old(disk) || disk == memory
      ensures o.Done? ==> disk == memory
    {
      memory := memory[k := r];
      o := Persist();
    }

    /** Answer a submission, appending its record unless it is a replay, a
        conflict or already successful. */
    method BeginRecord(identity: Identity, previous: Option<string>, current: Option<Fingerprint>)
      returns (o: Outcome, decision: Decision)
      modifies this
      ensures decision == Decide(old(memory), identity)
      ensures decision.Replay? || decision.Conflict? || decision.AlreadySuccessful? ==>
        memory == old(memory) && disk == old(disk)
      ensures !decision.Replay? && !decision.Conflict? && !decision.AlreadySuccessful? ==>
        memory == old(memory) + [Opened(identity, previous, current, decision)]
      ensures disk == old(disk) || disk == memory
      ensures o.Done? ==> !decision.Conflict?
      ensures o.Done? && (decision.New? || decision.BlockedByReview? || decision.BlockedByReconciliation?) ==>
        disk == memory
    {
      var k := 0;
      while k < |memory| && !Shares(memory[k].identity, identity)
        invariant k <= |memory|
        invariant FirstSharing(memory, identity) == k + FirstSharing(memory[k..], identity)
      {
        assert memory[k..][1..] == memory[k + 1..];
        k := k + 1;
      }
      if k < |memory| {
        if memory[k].identity == identity { return Done, Replay(k); }
        return Raised, Conflict;
      }
      if InReview(memory, identity.environment) {
        decision := BlockedByReview;
      } else if InReconciliation(memory, identity.environment) {
        decision := BlockedByReconciliation;
      } else {
        var s := 0;
        while s < |memory| && !SuccessFor(memory[s], identity.environment, identity.manifest)
          invariant s <= |memory|
          invariant FirstSuccess(memory, identity.environment, identity.manifest) ==
                    s + FirstSuccess(memory[s..], identity.environment, identity.manifest)
        {
          assert memory[s..][1..] == memory[s + 1..];
          s := s + 1;
        }
        if s < |memory| { return Done, AlreadySuccessful(s); }
        decision := New;
      }
      memory := memory + [Opened(identity, previous, current, decision)];
      o := Persist();
    }

    /** `reconcile_pre_mutation` below its argument checks: the durable ledger
        changes only by closing one record for which `MayReconcile` holds, whose
        recorded authority is still the current one and which has no journal. */
    method ReconcilePreMutation(id: DeploymentId, digest: string, fingerprint: Fingerprint, journalExists: bool)
      returns (o: Outcome, k: nat)
      requires memory == disk
      modifies this
      ensures disk == old(disk) || disk == memory
      ensures memory == old(memory) || (
        && MayReconcile(old(memory), k) && !journalExists
        && old(memory)[k].identity.deploymentId == id
        && old(memory)[k].previousAuthority == Some(digest)
        && old(memory)[k].currentFingerprint == Some(fingerprint)
        && memory == old(memory)[k := Reconciled(old(memory)[k])])
      ensures o.Done? ==> MayReconcile(old(memory), k) && memory == disk == old(memory)[k := Reconciled(old(memory)[k])]
    {
      k := 0;
      while k < |memory| && memory[k].identity.deploymentId != id
        invariant k <= |memory|
        invariant forall j :: 0 <= j < k ==> memory[j].identity.deploymentId != id
      {
        k := k + 1;
      }
      if k == |memory| || !MayReconcile(memory, k) { return Raised, k; }
      var r := memory[k];
      if r.previousAuthority != Some(digest) || r.currentFingerprint != Some(fingerprint) || journalExists {
        return Raised, k;
      }
      o := Transition(k, Reconciled(r));
    }
  }
}
