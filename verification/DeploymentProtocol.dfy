/** What one invocation of the release controller may do to the durable world:
    the script of a transaction, its rollback, and the relation `Step` between
    the world before and after an invocation that may stop at any point. */
module DeploymentProtocol {
  import opened Newlines
  import opened Outcomes
  import opened Releases
  import opened DeploymentJournal
  import opened DeploymentLedger
  import DurabilityEvidence

  /** The fixed operations that the controller asks the host to perform. */
  datatype Action =
    | Validate | CreateBackup | Pull | DeployDatabase | Migrate | DeployApp | DeployWorkers
    | DeployExporter | Health | IngressHealth | PublicSmoke

  /** The deployment that a durability evidence is bound to. */
  type DurabilityContext = DurabilityEvidence.Context

  datatype Event =
    | Begun(action: Action) | Finished(action: Action)
    | Wrote(phase: Phase)
    | StagingProven | Receipt(backupId: string) | Evidence(context: DurabilityContext)
    | Journaled | Activating | Activated | Restoring | Restored

  /** What a transaction sets out to do once it knows its release; `schema` is the
      migrations of the target. */
  datatype Plan = Plan(
    environment: Environment, changed: bool, target: Material, schema: Schema, context: DurabilityContext)

  /** How the deployment proper went, without its failure handler: it was not
      begun, or it ended so while the record in memory said `migration`. */
  datatype Deployed = NotBegun | Ended(outcome: Outcome, migration: MigrationState)

  /** One entry into `execute_transaction`: the events in order, of which the
      first `forward` belong to the deployment and the rest to the rollback. */
  datatype Attempt = Attempt(identity: Identity, plan: Plan, deployed: Deployed, forward: nat, events: seq<Event>)

  /** The deployment raised an exception that the handler catches, and no
      migration had been announced. */
  predicate Restores(a: Attempt) {
    a.deployed.Ended? && a.deployed.outcome.Raised? && a.deployed.migration.NeverStarted?
  }

  function Run(action: Action): seq<Event> {
    [Begun(action), Finished(action)]
  }

  function BackupChecks(p: Plan): seq<Event> {
    [Begun(Health), Finished(Health), Wrote(ProductionCurrentVerified),
     Begun(CreateBackup), Finished(CreateBackup), Receipt(p.context.backupId), Wrote(ProductionBackupDeepVerified)]
  }

  function DurabilityChecks(p: Plan): seq<Event> {
    [Evidence(p.context), Wrote(OffserverDurabilityConfirmed)]
  }

  function ProductionChecks(p: Plan): seq<Event> {
    [Begun(Validate), Finished(Validate), StagingProven]
    + (if p.changed then BackupChecks(p) + DurabilityChecks(p) else [])
  }

  function StagingChecks(p: Plan): seq<Event> {
    Run(Validate) + (if p.changed then Run(CreateBackup) + [Wrote(BackupVerified)] else [])
  }

  function Checks(p: Plan): seq<Event> {
    if p.environment.Production? then ProductionChecks(p) else StagingChecks(p)
  }

  function Preparation(p: Plan): seq<Event> {
    [Wrote(ReleaseAuthenticated)] + Checks(p) + [Journaled, Wrote(AuthorityChanging)]
  }

  function Activation(): seq<Event> {
    [Activating, Activated]
  }

  function Phased(action: Action, phase: Phase): seq<Event> {
    [Begun(action), Finished(action), Wrote(phase)]
  }

  function Database(): seq<Event> {
    [Wrote(AuthorityActive)] + Phased(Pull, ImagesPulled) + Phased(DeployDatabase, DatabaseReady)
  }

  function Migration(p: Plan): seq<Event> {
    if p.changed then [Wrote(MigrationStarting)] + Phased(Migrate, MigrationCompleted) else []
  }

  function Services(p: Plan): seq<Event> {
    Phased(DeployApp, ApplicationDeployed) + Phased(DeployWorkers, WorkersDeployed)
    + (if p.environment.Staging? then Phased(DeployExporter, ExporterDeployed) else [])
  }

  function Probes(p: Plan): seq<Event> {
    Run(Health) + Run(IngressHealth) + (if p.environment.Staging? then Run(PublicSmoke) else []) + [Wrote(Verified)]
  }

  function Rollout(p: Plan): seq<Event> {
    Services(p) + Probes(p)
  }

  /** What follows the preparation: all of it, and the part before a migration. */
  function Deployment(p: Plan): seq<Event> {
    Activation() + (Database() + Migration(p)) + Rollout(p)
  }

  function BeforeMigration(p: Plan): seq<Event> {
    Activation() + Database()
  }

  /** Everything that a successful transaction does, in order. */
  function Script(p: Plan): seq<Event> {
    Preparation(p) + Deployment(p)
  }

  function Redeployment(p: Plan): seq<Event> {
    Run(DeployApp) + Run(DeployWorkers) + (if p.environment.Staging? then Run(DeployExporter) else [])
  }

  function Rollback(p: Plan): seq<Event> {
    [Restoring, Restored] + Redeployment(p) + [Wrote(RolledBack)]
  }

  /** The deployment goes along the script; a rollback may follow once the
      authority may have changed and while no migration has started. */
  predicate Follows(p: Plan, events: seq<Event>, forward: nat) {
    forward <= |events| && events[..forward] <= Script(p) && events[forward..] <= Rollback(p)
    && (forward < |events| ==>
          Preparation(p) <= events[..forward] && (p.changed ==>
            events[..forward] <= Preparation(p) + BeforeMigration(p)))
  }

  /** The files and the database of one environment. */
  datatype HostState = HostState(active: Directory, runtimes: map<RuntimePath, Bytes>, database: Schema)

  datatype World = World(
    records: seq<Record>, staging: HostState, production: HostState,
    journals: map<DeploymentId, Journal>, evidence: DurabilityEvidence.Files, history: seq<Attempt>)
  {
    function At(environment: Environment): HostState {
      if environment.Staging? then staging else production
    }
  }

  /** The release pair and the runtime files of the environment are there. */
  predicate Provisioned(h: HostState, environment: Environment) {
    ManifestFile in h.active && ChecksumFile in h.active && OwnedPaths(environment) <= h.runtimes.Keys
  }

  /** What a rollback to `h` would install. */
  function Former(h: HostState, environment: Environment): Material
    requires Provisioned(h, environment)
  {
    Material(h.active[ManifestFile], Translate(h.active[ChecksumFile]),
             map k | k in OwnedPaths(environment) :: h.runtimes[k])
  }

  /** The schema of the database is the one that the active authority names. */
  predicate Consistent(policy: Policy, h: HostState) {
    ManifestFile in h.active && h.active[ManifestFile] in policy ==>
      policy[h.active[ManifestFile]].migrations == h.database
  }

  /** What a migrator that returned may have done: it only adds migrations, and it
      reaches a target that extends what it found. */
  predicate Migrated(before: Schema, target: Schema, after: Schema) {
    before <= after && (before <= target ==> after == target)
  }

  /** The target is reached exactly if it extends what was there. */
  lemma MigratedToTarget(before: Schema, target: Schema, after: Schema)
    requires Migrated(before, target, after)
    ensures after == target <==> before <= target
  {
  }

  /** The target of `p` is active, its runtime files are in place and a migrator
      for it has returned if its fingerprint differs. */
  predicate OnTarget(h: HostState, after: HostState, p: Plan) {
    && after.active == Pair(p.target.manifest, p.target.checksum)
    && after.runtimes == h.runtimes + p.target.runtimes
    && if p.changed then Migrated(h.database, p.schema, after.database) else after.database == h.database
  }

  /** The former release is active again and nothing else differs, except that
      the checksum file is the text that Python read from it. */
  predicate RestoredFrom(policy: Policy, h: HostState, after: HostState) {
    Authoritative(policy, h.active)
    && after.active == Pair(h.active[ManifestFile], Translate(h.active[ChecksumFile]))
    && after.runtimes == h.runtimes && after.database == h.database
  }

  predicate Preparing(phase: Phase) {
    phase.Accepted? || phase.ReleaseAuthenticated? || phase.ProductionCurrentVerified?
    || phase.ProductionBackupDeepVerified? || phase.PhaseC2Required? || phase.OffserverDurabilityConfirmed?
    || phase.BackupVerified? || phase.AuthorityChanging?
  }

  /** The two ways in which a handled failure before a migration ends, and those
      in which it ends from the announcement of a migration on. */
  predicate Handled(policy: Policy, h: HostState, after: HostState, a: Attempt, r: Record)
    requires a.deployed.Ended?
  {
    if a.deployed.migration.NeverStarted? then
      && r.migration.NeverStarted?
      && (r.phase.RollbackFailed?
          || (r.phase.RolledBack? && RestoredFrom(policy, h, after)
              && a.forward <= |a.events| && a.events[a.forward..] == Rollback(a.plan)))
    else if a.deployed.migration.Completed? && r.identity.environment.Staging? then
      && r.migration.Completed? && a.plan.changed && Ordinary(r)
      && Finished(Migrate) in a.events && OnTarget(h, after, a.plan)
    else
      r.phase.ManualReview? && r.migration == (if a.deployed.migration.Completed? then Completed else Failed)
  }

  /** The record is neither rolled back nor does it ask for an operator. */
  predicate Ordinary(r: Record) {
    && !r.phase.RolledBack? && !r.phase.RollbackFailed? && !r.phase.ManualReview?
    && (r.result.NoResult? || r.result.FailureMessage?)
  }

  /** A migration begins only after the record has announced it, and the record says
      completed only after one has returned. */
  predicate Announced(events: seq<Event>, migration: MigrationState) {
    && (Begun(Migrate) in events ==> !migration.NeverStarted?)
    && (migration.Completed? ==> Finished(Migrate) in events)
  }

  /** How a transaction can leave the durable record `r` and the host: before the
      deployment nothing has changed; after it the record is in progress, a
      success on the target, or that of a handled failure. */
  predicate Ending(policy: Policy, h: HostState, after: HostState, a: Attempt, r: Record) {
    if a.deployed.NotBegun? then
      && Activating !in a.events && after == h
      && (|| r.outcome.InProgress?
          || (r.outcome.Failure? && r.migration.NeverStarted? && Preparing(r.phase)
              && r.result == (if r.phase.PhaseC2Required? then PhaseC2BackupRequired else FailureMessage)))
    else
      && Activating in a.events
      && (|| r.outcome.InProgress?
          || (a.deployed.outcome.Done? && r.outcome.Success? && r.phase.Complete?
              && r.result == (if a.identity.environment.Production? then DeployedNotPubliclyActivated else Deployed)
              && r.migration == (if a.plan.changed then Completed else NeverStarted)
              && a.events == Script(a.plan) && OnTarget(h, after, a.plan))
          || (a.deployed.outcome.Raised? && r.outcome.Failure? && Handled(policy, h, after, a, r)))
  }

  /** The plan is about this submission and the authority it found. */
  predicate Planned(policy: Policy, h: HostState, id: Identity, p: Plan) {
    && p.environment == id.environment
    && ValidPair(policy, p.target.manifest, p.target.checksum)
    && policy[p.target.manifest].sha256 == id.manifest && p.schema == policy[p.target.manifest].migrations
    && ManifestFile in h.active && h.active[ManifestFile] in policy
    && p.context.deploymentId == id.deploymentId && p.context.targetManifestSha256 == id.manifest
    && p.context.current == policy[h.active[ManifestFile]].fingerprint
    && p.context.target == policy[p.target.manifest].fingerprint
    && (p.changed <==> p.context.current != p.context.target)
  }

  /** The active directory is the former one, the target pair or the restored
      pair, and each runtime file is the former one or that of the target. */
  predicate Intact(policy: Policy, h: HostState, active: Directory, runtimes: map<RuntimePath, Bytes>,
      target: Material) {
    && (|| active == h.active
        || (Authoritative(policy, h.active)
            && (|| active == Pair(target.manifest, target.checksum)
                || active == Pair(h.active[ManifestFile], Translate(h.active[ChecksumFile])))))
    && runtimes.Keys == h.runtimes.Keys
    && forall k :: k in runtimes ==>
      runtimes[k] == h.runtimes[k] || (k in target.runtimes && runtimes[k] == target.runtimes[k])
  }

  /** No runtime file was replaced before the authority. */
  predicate PairFirst(h: HostState, active: Directory, runtimes: map<RuntimePath, Bytes>, target: Material) {
    runtimes == h.runtimes || active == Pair(target.manifest, target.checksum)
  }

  /** These are the digest and the fingerprint of the authority that was found, if
      there was one. */
  predicate Names(policy: Policy, active: Directory, digest: Option<string>, fingerprint: Option<Fingerprint>) {
    if ManifestFile !in active && ChecksumFile !in active then digest.None? && fingerprint.None?
    else
      && ManifestFile in active && ChecksumFile in active
      && ValidPair(policy, active[ManifestFile], Translate(active[ChecksumFile]))
      && digest == Some(policy[active[ManifestFile]].sha256)
      && fingerprint == Some(policy[active[ManifestFile]].fingerprint)
  }

  /** A record names the target of the plan and, where one was made, its backup. */
  predicate Stamped(p: Plan, target: Option<Fingerprint>, backupId: Option<string>) {
    && target == Some(p.context.target)
    && (p.environment.Production? && p.changed ==> backupId == Some(p.context.backupId))
  }

  /** An accepted record is still as it was opened, or was closed as a failure. */
  predicate AsOpened(r: Record) {
    && r.phase.Accepted? && r.migration.NeverStarted? && r.targetFingerprint.None?
    && (r.outcome.InProgress? ==> r.result.NoResult?)
  }

  /** What holds of the attempt and the environment wherever a transaction ends. */
  predicate Bound(policy: Policy, records: seq<Record>, h: HostState, after: HostState, a: Attempt) {
    && Follows(a.plan, a.events, a.forward)
    && (a.events != [] ==> Planned(policy, h, a.identity, a.plan))
    && Intact(policy, h, after.active, after.runtimes, a.plan.target)
    && (Restoring in a.events || PairFirst(h, after.active, after.runtimes, a.plan.target))
    && (Activating !in a.events ==> after.active == h.active && after.runtimes == h.runtimes)
    && (Begun(Migrate) !in a.events ==> after.database == h.database)
    && (Restoring in a.events <==> Restores(a))
    && (a.identity.environment.Production? && StagingProven in a.events ==>
      StagingSuccess(records, a.identity.manifest))
  }

  /** Everything that one transaction does to its environment and its record. */
  predicate Transacted(policy: Policy, records: seq<Record>, h: HostState, after: HostState, a: Attempt, r: Record) {
    && a.identity == r.identity
    && Bound(policy, records, h, after, a)
    && Registered(policy, h, a, r)
    && (Activating in a.events ==> Stamped(a.plan, r.targetFingerprint, r.backupId))
    && Announced(a.events, r.migration)
    && Ending(policy, h, after, a, r)
  }

  /** What the record says about the authority and, from the first step on, about
      the plan. */
  predicate Registered(policy: Policy, h: HostState, a: Attempt, r: Record) {
    && Names(policy, h.active, r.previousAuthority, r.currentFingerprint)
    && (r.phase.Accepted? ==> a.events == [] && AsOpened(r))
    && (a.events != [] ==> r.targetFingerprint == Some(a.plan.context.target))
  }

  predicate SameButSync(a: Record, b: Record) {
    b == a.(sync := b.sync)
  }

  /** What an invocation turned out to be. */
  datatype Report =
    | Idle
    | Synchronized(index: nat)
    | Opening(identity: Identity)
    | Execution(identity: Identity)
    | Closing(index: nat)

  /** The record that a submission opens now, up to its publication state. */
  predicate Opens(policy: Policy, w: World, identity: Identity, r: Record) {
    var d := Decide(w.records, identity);
    && (d.New? || d.BlockedByReview? || d.BlockedByReconciliation?)
    && Names(policy, w.At(identity.environment).active, r.previousAuthority, r.currentFingerprint)
    && SameButSync(Opened(identity, r.previousAuthority, r.currentFingerprint, d), r)
  }

  /** The journal gives back what `h` held, for its own environment only, once it
      has its marker, and nothing before. */
  ghost predicate Returns(journal: Journal, h: HostState, environment: Environment) {
    && Provisioned(h, environment)
    && forall e :: PreviousMaterial(journal, e) == (if Marked(journal)
        && e == environment then Some(Former(h, environment)) else None)
  }

  /** At most the journal of this deployment was written, and in full before the
      attempt went on. */
  ghost predicate Journals(before: map<DeploymentId, Journal>, after: map<DeploymentId, Journal>, h: HostState,
      a: Attempt) {
    var id, environment := a.identity.deploymentId, a.identity.environment;
    && (|| after == before
        || (id !in before && id in after && after == before[id := after[id]] && Returns(after[id], h, environment)))
    && (a.events == [] ==> after == before)
    && (Journaled in a.events ==>
      id !in before && id in after && Marked(after[id]) && Usable(environment, a.plan.target))
  }

  /** No evidence file was overwritten, and before the authority was touched for
      another fingerprint one was written that attests this plan. */
  ghost predicate Evidenced(before: DurabilityEvidence.Files, after: DurabilityEvidence.Files, a: Attempt) {
    && DurabilityEvidence.Kept(before, after)
    && (a.plan.environment.Production? && a.plan.changed && Activating in a.events ==>
      DurabilityEvidence.Obtained(before, after, a.plan.context))
  }

  /** The reconciliation command closes record `k`: it is the only blocker, it has
      no journal, and the authority that it names is still the active one. */
  predicate Clearable(policy: Policy, w: World, k: nat) {
    && MayReconcile(w.records, k)
    && w.records[k].identity.deploymentId !in w.journals
    && w.records[k].previousAuthority.Some?
    && Names(policy, w.staging.active, w.records[k].previousAuthority, w.records[k].currentFingerprint)
  }

  /** One invocation: `apply` of a submission or `reconcile-pre-mutation`. */
  ghost predicate Step(policy: Policy, w: World, w': World, report: Report) {
    match report
    case Idle => w' == w
    case Synchronized(k) =>
      && k < |w.records| && !w.records[k].outcome.InProgress? && |w'.records| == |w.records|
      && SameButSync(w.records[k], w'.records[k])
      && w' == w.(records := w.records[k := w'.records[k]])
    case Opening(identity) =>
      && |w'.records| == |w.records| + 1
      && Opens(policy, w, identity, w'.records[|w.records|])
      && w' == w.(records := w.records + [w'.records[|w.records|]])
    case Execution(identity) =>
      && Decide(w.records, identity).New?
      && |w'.records| == |w.records| + 1 && |w'.history| == |w.history| + 1
      && w'.records == w.records + [w'.records[|w.records|]]
      && w'.history == w.history + [w'.history[|w.history|]]
      && w'.records[|w.records|].identity == identity
      && (identity.environment.Staging? ==> w'.production == w.production)
      && (identity.environment.Production? ==> w'.staging == w.staging)
      && Journals(w.journals, w'.journals, w.At(identity.environment), w'.history[|w.history|])
      && Evidenced(w.evidence, w'.evidence, w'.history[|w.history|])
      && Transacted(policy, w.records, w.At(identity.environment), w'.At(identity.environment),
                    w'.history[|w.history|], w'.records[|w.records|])
    case Closing(k) =>
      && Clearable(policy, w, k)
      && w' == w.(records := w.records[k := Reconciled(w.records[k])])
  }

  /** The events grew along `part`, and by all of it when `whole`. */
  predicate Along(before: seq<Event>, after: seq<Event>, part: seq<Event>, whole: bool) {
    before <= after <= before + part && (whole ==> after == before + part)
  }

  lemma AlongBoth(a: seq<Event>, b: seq<Event>, c: seq<Event>, first: seq<Event>, second: seq<Event>, whole: bool)
    requires Along(a, b, first, true) && Along(b, c, second, whole)
    ensures Along(a, c, first + second, whole)
  {
    assert a + (first + second) == b + second;
  }

  lemma AlongFirst(a: seq<Event>, b: seq<Event>, first: seq<Event>, second: seq<Event>, whole: bool)
    requires Along(a, b, first, whole)
    ensures Along(a, b, first + second, false)
  {
    assert a + (first + second) == (a + first) + second;
  }

  lemma Kept(before: seq<Event>, after: seq<Event>)
    requires before <= after
    ensures forall e :: e in before ==> e in after
  {
  }

  /** No event touches the authority, migrates or rolls back. */
  predicate Calm(events: seq<Event>) {
    Activating !in events && Begun(Migrate) !in events && Restoring !in events
  }

  lemma CalmBoth(a: seq<Event>, b: seq<Event>)
    requires Calm(a) && Calm(b)
    ensures Calm(a + b)
  {
  }

  lemma ChecksAreCalm(p: Plan)
    ensures Calm(Checks(p))
  {
    assert Calm(BackupChecks(p)) && Calm(DurabilityChecks(p));
    CalmBoth(BackupChecks(p), DurabilityChecks(p));
    assert Calm(Run(Validate)) && Calm(Run(CreateBackup) + [Wrote(BackupVerified)]);
  }

  /** A preparation neither touches the authority nor migrates, and that of
      Production looks for the Staging success. */
  lemma PreparationEvents(p: Plan)
    ensures Calm(Preparation(p))
    ensures p.environment.Production? ==> StagingProven in Preparation(p)
  {
    ChecksAreCalm(p);
    CalmBoth([Wrote(ReleaseAuthenticated)], Checks(p));
    CalmBoth([Wrote(ReleaseAuthenticated)] + Checks(p), [Journaled, Wrote(AuthorityChanging)]);
    assert p.environment.Production? ==> Preparation(p)[3] == StagingProven;
  }

  lemma PreparingIsCalm(p: Plan, events: seq<Event>)
    requires Along([], events, Preparation(p), false)
    ensures Calm(events)
  {
    PreparationEvents(p);
    Kept(events, [] + Preparation(p));
  }

  lemma DeploymentNeverRestores(p: Plan)
    ensures Restoring !in Deployment(p)
  {
    assert Restoring !in Activation() + (Database() + Migration(p));
    assert Restoring !in Services(p) && Restoring !in Probes(p);
  }

  lemma ChecksNeverJournal(p: Plan)
    ensures Journaled !in Checks(p)
  {
    assert Journaled !in BackupChecks(p) && Journaled !in DurabilityChecks(p);
    assert Journaled !in Run(Validate) && Journaled !in Run(CreateBackup) + [Wrote(BackupVerified)];
  }

  lemma NothingJournaled(p: Plan, before: seq<Event>, events: seq<Event>)
    requires Journaled !in before && Along(before, events, Checks(p), false)
    ensures Journaled !in events
  {
    ChecksNeverJournal(p);
    Kept(events, before + Checks(p));
  }

  lemma PreparationJournals(p: Plan)
    ensures Journaled in Preparation(p)
  {
    var head := [Wrote(ReleaseAuthenticated)] + Checks(p);
    assert Preparation(p)[|head|] == Journaled;
  }

  lemma PreparationStarts(p: Plan)
    ensures Preparation(p) != []
  {
  }

  /** Going along the script without a rollback. */
  lemma Forward(p: Plan, prepared: seq<Event>, events: seq<Event>, whole: bool)
    requires prepared == Preparation(p) && Along(prepared, events, Deployment(p), whole)
    ensures Follows(p, events, |events|) && (whole ==> events == Script(p))
  {
    assert events[..|events|] == events;
  }

  lemma NothingRestored(p: Plan, prepared: seq<Event>, events: seq<Event>)
    requires prepared == Preparation(p) && Along(prepared, events, Deployment(p), false)
    ensures Restoring !in events
  {
    PreparationEvents(p);
    DeploymentNeverRestores(p);
    Kept(events, prepared + Deployment(p));
  }

  /** A handled failure: a part of the script, then a part of the rollback. */
  lemma ForwardAndBack(p: Plan, prepared: seq<Event>, forward: seq<Event>, events: seq<Event>)
    requires prepared == Preparation(p) && Along(prepared, forward, Deployment(p), false)
    requires Along(forward, events, Rollback(p), false)
    requires events != forward && p.changed ==> forward <= prepared + BeforeMigration(p)
    ensures Follows(p, events, |forward|)
  {
    assert events[..|forward|] == forward;
    assert events[|forward|..] <= Rollback(p);
  }

  /** The record while a transaction prepares: running, or refused by Phase C2. */
  predicate PreparingRecord(r: Record) {
    && r.migration.NeverStarted? && Preparing(r.phase)
    && if r.phase.PhaseC2Required? then r.outcome.Failure? && r.result.PhaseC2BackupRequired?
       else r.outcome.InProgress? && r.result.NoResult?
  }

  /** The record that `main` writes after a deployment error. */
  function FailedRecord(r: Record): Record {
    if r.outcome.InProgress? then r.(outcome := Failure, result := FailureMessage) else r
  }

  /** The record that `main` writes after a success. */
  function SucceededRecord(r: Record): Record {
    r.(phase := Complete, outcome := Success,
       result := if r.identity.environment.Production? then DeployedNotPubliclyActivated else Deployed)
  }

  /** The durable record `saved` is in order wherever the transaction ends, and
      so is the record that `main` makes of `mine` when it goes on. */
  predicate InOrder(policy: Policy, records: seq<Record>, h: HostState, after: HostState, a: Attempt, mine: Record,
      saved: Record, o: Outcome) {
    && Transacted(policy, records, h, after, a, saved)
    && (o.Raised? ==> Transacted(policy, records, h, after, a, FailedRecord(mine)))
    && (o.Done? ==> Transacted(policy, records, h, after, a, SucceededRecord(mine)))
  }

  /** A transaction that ends while it prepares has changed nothing. */
  lemma PreparedEnding(policy: Policy, records: seq<Record>, h: HostState, a: Attempt, mine: Record, saved: Record,
      o: Outcome)
    requires Along([], a.events, Preparation(a.plan), false) && a.forward == |a.events| && !o.Done?
    requires a.deployed.NotBegun?
    requires mine.identity == saved.identity == a.identity && PreparingRecord(mine) && PreparingRecord(saved)
    requires Registered(policy, h, a, mine) && Registered(policy, h, a, saved)
    requires a.events != [] ==> Planned(policy, h, a.identity, a.plan)
    requires a.identity.environment.Production? && StagingProven in a.events ==>
      StagingSuccess(records, a.identity.manifest)
    ensures InOrder(policy, records, h, h, a, mine, saved, o)
  {
    hide Preparation, Deployment, Rollback, Planned, OnTarget, RestoredFrom, Names, Authoritative;
    PreparingIsCalm(a.plan, a.events);
    assert a.events[..|a.events|] == a.events;
    assert a.events <= Preparation(a.plan);
  }

  /** How a handled failure after the announcement leaves record and host. */
  predicate Recovered(policy: Policy, h: HostState, after: HostState, a: Attempt, mine: Record) {
    && a.deployed.Ended? && a.deployed.outcome.Raised?
    && mine.outcome.InProgress? && !mine.phase.Accepted?
    && Handled(policy, h, after, a, mine)
  }

  /** A transaction that ends later leaves a record in progress, a success on the
      target, or the record of a handled failure. */
  lemma CommittedEnding(policy: Policy, records: seq<Record>, h: HostState, after: HostState, a: Attempt,
      mine: Record, saved: Record, o: Outcome)
    requires Follows(a.plan, a.events, a.forward) && Planned(policy, h, a.identity, a.plan)
    requires Intact(policy, h, after.active, after.runtimes, a.plan.target)
    requires Restoring in a.events || PairFirst(h, after.active, after.runtimes, a.plan.target)
    requires Activating in a.events && (after.database == h.database || Begun(Migrate) in a.events)
    requires a.deployed.Ended? && (Restoring in a.events <==> Restores(a))
    requires a.identity.environment.Production? ==> StagingSuccess(records, a.identity.manifest)
    requires mine.identity == saved.identity == a.identity && saved.outcome.InProgress? && !saved.phase.Accepted?
    requires Names(policy, h.active, mine.previousAuthority, mine.currentFingerprint)
    requires Names(policy, h.active, saved.previousAuthority, saved.currentFingerprint)
    requires Announced(a.events, mine.migration) && Announced(a.events, saved.migration)
    requires Stamped(a.plan, mine.targetFingerprint, mine.backupId)
    requires Stamped(a.plan, saved.targetFingerprint, saved.backupId)
    requires o.Raised? ==> Recovered(policy, h, after, a, mine)
    requires o.Done? ==>
      && a.deployed.outcome.Done? && a.events == Script(a.plan) && OnTarget(h, after, a.plan)
      && mine.migration == if a.plan.changed then Completed else NeverStarted
    ensures InOrder(policy, records, h, after, a, mine, saved, o)
  {
    hide Follows, Planned, Intact, PairFirst, OnTarget, RestoredFrom, Script, StagingSuccess, Restores;
    assert a.events != [];
    assert Bound(policy, records, h, after, a);
  }

  lemma TransactedSync(policy: Policy, records: seq<Record>, h: HostState, after: HostState, a: Attempt, r: Record,
      r': Record)
    requires Transacted(policy, records, h, after, a, r) && SameButSync(r, r')
    ensures Transacted(policy, records, h, after, a, r')
  {
  }

  /** The ledger answers for this submission, and that was published: its own record
      is terminal, or its manifest has already succeeded in its environment. */
  predicate Answered(records: seq<Record>, identity: Identity) {
    exists k :: 0 <= k < |records| && Answers(records[k], identity) && records[k].sync == Synced
  }

  predicate Answers(r: Record, identity: Identity) {
    && !r.outcome.InProgress?
    && (|| r.identity == identity
        || (r.identity.environment == identity.environment && r.identity.manifest == identity.manifest
            && r.outcome == Success))
  }

  /** `x` occurs before every occurrence of `y`. */
  predicate Precedes(x: Event, y: Event, events: seq<Event>) {
    forall j :: 0 <= j < |events| && events[j] == y ==> x in events[..j]
  }
}
