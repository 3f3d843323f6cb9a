/** The release controller: `execute_transaction`, its failure handler and the
    dispatch of `main`, as methods over the ledger file, the journals and the
    hosts of both environments. Every effect may fail or end the process. */
module ReleaseController {
  import opened Newlines
  import opened Outcomes
  import opened Releases
  import opened ReleaseHost
  import opened DeploymentJournal
  import opened DeploymentLedger
  import opened DeploymentProtocol
  import DurabilityEvidence
  import FlatJson

  /** What `current_authority` returns. */
  datatype Authority = Authority(manifest: Bytes, checksum: Bytes)

  /** What the outside world offers to one transaction: the release assets, the
      rendered runtime files, and the identity in the backup receipt. */
  datatype Offer = Offer(material: Material, backupId: string)

  /** The exit status that the deployment agent sees: 0, terminal reject, or
      anything that makes it submit again. */
  datatype Exit = Handled | Rejected | Unfinished

  /** The state in which a transaction began. */
  datatype Ticket = Ticket(
    base: seq<Record>, past: seq<Attempt>, identity: Identity, host: HostState, journals: map<DeploymentId, Journal>)

  class Controller {
    const policy: Policy
    const ledger: Ledger
    const store: JournalStore
    const staging: EnvironmentHost
    const production: EnvironmentHost
    const evidence: DurabilityEvidence.EvidenceStore
    ghost var history: seq<Attempt>

    constructor (policy: Policy, ledger: Ledger, store: JournalStore, staging: EnvironmentHost,
        production: EnvironmentHost, evidence: DurabilityEvidence.EvidenceStore)
      ensures this.policy == policy && this.ledger == ledger && this.store == store
      ensures this.staging == staging && this.production == production && this.evidence == evidence && history == []
    {
      this.policy, this.ledger, this.store := policy, ledger, store;
      this.staging, this.production, this.evidence, history := staging, production, evidence, [];
    }

    ghost predicate Valid() {
      staging != production && staging.policy == policy && production.policy == policy
    }

    /** `digest` and `fingerprint` are those of the authority of `environment`. */
    ghost predicate NamesNow(environment: Environment, digest: Option<string>, fingerprint: Option<Fingerprint>)
      reads Host(environment)
    {
      Names(policy, Host(environment).active, digest, fingerprint)
    }

    function Host(environment: Environment): EnvironmentHost {
      if environment.Staging? then staging else production
    }

    ghost function HostNow(environment: Environment): HostState
      reads Host(environment)
    {
      var h := Host(environment);
      HostState(h.active, h.runtimes, h.database)
    }

    ghost function Now(): World
      reads this, ledger, store, staging, production, evidence
    {
      World(ledger.disk, HostNow(Staging), HostNow(Production), store.journals, evidence.files, history)
    }

    /** The record of the running transaction: in memory and on disk. */
    function Mine(): Record
      requires ledger.memory != []
      reads ledger
    {
      ledger.memory[|ledger.memory| - 1]
    }

    function Saved(): Record
      requires ledger.disk != []
      reads ledger
    {
      ledger.disk[|ledger.disk| - 1]
    }

    ghost function This(): Attempt
      requires history != []
      reads this
    {
      history[|history| - 1]
    }

    ghost function Events(): seq<Event>
      requires history != []
      reads this
    {
      This().events
    }

    /** Only the last record and the last attempt have changed since the ticket. */
    ghost predicate Framed(t: Ticket)
      reads this, ledger
    {
      && |ledger.memory| == |ledger.disk| == |t.base| + 1
      && ledger.memory[..|t.base|] == t.base && ledger.disk[..|t.base|] == t.base
      && Mine().identity == t.identity && Saved().identity == t.identity
      && |history| == |t.past| + 1 && history[..|t.past|] == t.past && This().identity == t.identity
      && Announced(Events(), Mine().migration) && Announced(Events(), Saved().migration)
    }

    ghost method Log(event: Event)
      requires history != []
      modifies this`history
      ensures |history| == |old(history)| && history[..|history| - 1] == old(history)[..|history| - 1]
      ensures This() == old(This()).(events := old(Events()) + [event])
    {
      history := history[|history| - 1 := This().(events := Events() + [event])];
    }

    ghost method Replan(plan: Plan)
      requires history != []
      modifies this`history
      ensures |history| == |old(history)| && history[..|history| - 1] == old(history)[..|history| - 1]
      ensures This() == old(This()).(plan := plan)
    {
      history := history[|history| - 1 := This().(plan := plan)];
    }

    /** `transition` of the running record. */
    method Advance(r: Record, ghost t: Ticket) returns (o: Outcome)
      requires Framed(t) && r.identity == t.identity && Announced(Events(), r.migration)
      modifies ledger, this`history
      ensures Framed(t)
      ensures Mine() == r && (Saved() == old(Saved()) || Saved() == r) && (o.Done? ==> Saved() == r)
      ensures This() == old(This()).(events := old(Events()) + if o.Done? then [Wrote(r.phase)] else [])
    {
      o := ledger.Transition(|ledger.memory| - 1, r);
      if o.Done? { Log(Wrote(r.phase)); }
    }

    /** A `transition` that is no step of the script. */
    method Settle(r: Record, ghost t: Ticket) returns (o: Outcome)
      requires Framed(t) && r.identity == t.identity && Announced(Events(), r.migration)
      modifies ledger
      ensures Framed(t)
      ensures Mine() == r && (Saved() == old(Saved()) || Saved() == r) && (o.Done? ==> Saved() == r)
    {
      o := ledger.Transition(|ledger.memory| - 1, r);
    }

    /** `internal`: only a migration touches the schema of the database, and one
        that returns has added migrations, up to the target if that extends it. */
    method Perform(host: EnvironmentHost, action: Action, ghost target: Schema, ghost t: Ticket)
      returns (o: Outcome)
      requires Framed(t)
      requires action.Migrate? ==> !Mine().migration.NeverStarted? && !Saved().migration.NeverStarted?
      modifies host`database, this`history
      ensures Framed(t)
      ensures This() == old(This()).(events := old(Events()) + if o.Done? then Run(action) else [Begun(action)])
      ensures !action.Migrate? ==> host.database == old(host.database)
      ensures action.Migrate? && o.Done? ==> Migrated(old(host.database), target, host.database)
    {
      Log(Begun(action));
      o := *;
      if action.Migrate? {
        ghost var found := host.database;
        assert Migrated(found, target, if found <= target then target else found);
        ghost var after: Schema :| o.Done? ==> Migrated(found, target, after);
        host.database := after;
      }
      if o.Done? { Log(Finished(action)); }
    }

    /** `run(action)` followed by `transition(phase)`. */
    method Stage(host: EnvironmentHost, action: Action, phase: Phase, ghost t: Ticket) returns (o: Outcome)
      requires Framed(t) && !action.Migrate?
      modifies ledger, host`database, this`history
      ensures Framed(t) && host.database == old(host.database)
      ensures Mine() == old(Mine()) || Mine() == old(Mine()).(phase := phase)
      ensures Saved() == old(Saved()) || Saved() == old(Mine()).(phase := phase) == Mine()
      ensures o.Done? ==> Saved() == Mine() == old(Mine()).(phase := phase)
      ensures This() == old(This()).(events := Events())
      ensures Along(old(Events()), Events(), [Begun(action), Finished(action), Wrote(phase)], o.Done?)
    {
      o := Perform(host, action, [], t);
      if o.IsFailure() { return; }
      o := Advance(Mine().(phase := phase), t);
    }

    method CurrentAuthority(host: EnvironmentHost) returns (o: Outcome, authority: Option<Authority>)
      requires host.policy == policy
      ensures o.Done? && authority.Some? ==>
        ManifestFile in host.active && ChecksumFile in host.active
        && authority.value == Authority(host.active[ManifestFile], Translate(host.active[ChecksumFile]))
        && ValidPair(policy, authority.value.manifest, authority.value.checksum)
      ensures o.Done? && authority.None? ==> ManifestFile !in host.active && ChecksumFile !in host.active
    {
      authority := None;
      if ManifestFile !in host.active && ChecksumFile !in host.active { return Done, None; }
      o := *;
      if o.IsFailure() { return; }
      if ManifestFile !in host.active || ChecksumFile !in host.active { return Raised, None; }
      var manifest, checksum := host.active[ManifestFile], Translate(host.active[ChecksumFile]);
      if !ValidPair(policy, manifest, checksum) { return Raised, None; }
      return Done, Some(Authority(manifest, checksum));
    }

    // ------------------------------------------------------------------
    // Before the authority changes.

    ghost predicate Prepares(t: Ticket)
      reads this, ledger
    {
      && Framed(t) && This().forward == 0 && This().deployed.NotBegun?
      && PreparingRecord(Mine()) && PreparingRecord(Saved())
      && Registered(policy, t.host, This(), Mine()) && Registered(policy, t.host, This(), Saved())
      && (Events() != [] ==> Planned(policy, t.host, t.identity, This().plan))
      && (t.identity.environment.Production? && StagingProven in Events() ==>
        StagingSuccess(t.base, t.identity.manifest))
    }

    /** Authority, release authentication and the first transition. */
    method Authenticate(identity: Identity, offer: Offer, ghost t: Ticket)
      returns (o: Outcome, current: Authority, context: DurabilityContext)
      requires Valid() && Prepares(t) && Events() == [] && Mine().outcome.InProgress?
      requires t.identity == identity && t.host == HostNow(identity.environment)
      modifies ledger, this`history
      ensures Prepares(t) && Mine().outcome.InProgress?
      ensures Events() == if o.Done? then [Wrote(ReleaseAuthenticated)] else []
      ensures o.Done? ==>
        && Saved() == Mine()
        && This().plan == Plan(identity.environment, context.current != context.target, offer.material,
                               This().plan.schema, context)
        && context.backupId == offer.backupId
        && ManifestFile in t.host.active && ChecksumFile in t.host.active
        && current == Authority(t.host.active[ManifestFile], Translate(t.host.active[ChecksumFile]))
    {
      var host := Host(identity.environment);
      current, context := Authority([], []), DurabilityEvidence.Context("", "", "", "", identity.manifest);
      o := *;  // loading the policy and the bootstrap module
      if o.IsFailure() { return; }
      var found;
      o, found := CurrentAuthority(host);
      if o.IsFailure() { return; }
      if found.None? { return Raised, current, context; }
      current := found.value;
      o := *;  // requests for the release and its assets
      if o.IsFailure() { return; }
      var target := offer.material;
      if !ValidPair(policy, target.manifest, target.checksum) || policy[target.manifest].sha256 != identity.manifest {
        return Raised, current, context;
      }
      var from, to := policy[current.manifest].fingerprint, policy[target.manifest].fingerprint;
      context := DurabilityEvidence.Context(identity.deploymentId, offer.backupId, from, to, identity.manifest);
      Replan(Plan(identity.environment, from != to, target, policy[target.manifest].migrations, context));
      o := Advance(Mine().(phase := ReleaseAuthenticated, currentFingerprint := Some(from),
                           targetFingerprint := Some(to)), t);
    }

    /** `prove_production_durability`: once the durability module is loaded, each of
        its exceptions is `refused`, that is, becomes one that the caller answers
        with the Phase C2 refusal. It returns only once the evidence file of the
        deployment, which was not there before, attests the context. */
    method ProveDurability(context: DurabilityContext) returns (o: Outcome, refused: bool)
      modifies evidence
      ensures DurabilityEvidence.Kept(old(evidence.files), evidence.files)
      ensures o.Done? ==> DurabilityEvidence.Obtained(old(evidence.files), evidence.files, context)
      ensures refused ==> o.Raised?
    {
      refused := *;  // whether loading ends in a control-plane error, if it ends in an exception
      o := *;  // loading the module
      if o.IsFailure() { return o, refused && o.Raised?; }
      o := Outcomes.Attempt();  // its configuration and the local backup pair
      if o.IsFailure() { return o, o.Raised?; }
      var pair: DurabilityEvidence.BackupPair, now: int := *, *;
      var copied: Option<DurabilityEvidence.Confirmation> := *;
      var summary;
      o, summary := evidence.PerformDurability(context, pair, now, copied);
      if o.Done? && summary.value.backupId != FlatJson.Str(context.backupId) { return Raised, true; }
      if o.Escaped? { o := Raised; }
      refused := o.Raised?;
    }

    /** Health, backup and receipt of the current Production. */
    method BackUpProduction(context: DurabilityContext, ghost t: Ticket) returns (o: Outcome)
      requires Valid() && Prepares(t) && Events() != [] && Mine().outcome.InProgress? && !Saved().phase.Accepted?
      requires This().plan.context == context
      modifies ledger, this`history, production`database
      ensures Prepares(t) && This().plan == old(This().plan) && production.database == old(production.database)
      ensures Along(old(Events()), Events(), BackupChecks(This().plan), o.Done?)
      ensures Mine().outcome.InProgress? && (o.Done? ==> Mine().backupId == Some(context.backupId))
    {
      hide Planned, StagingSuccess, Names, AsOpened;
      o := Stage(production, Health, ProductionCurrentVerified, t);
      if o.IsFailure() { return; }
      o := TakeBackup(context, t);
    }

    /** The deep-verified backup and its receipt. */
    method TakeBackup(context: DurabilityContext, ghost t: Ticket) returns (o: Outcome)
      requires Valid() && Prepares(t) && Events() != [] && Mine().outcome.InProgress? && !Saved().phase.Accepted?
      requires This().plan.context == context
      modifies ledger, this`history, production`database
      ensures Prepares(t) && This().plan == old(This().plan) && production.database == old(production.database)
      ensures Along(old(Events()), Events(), [Begun(CreateBackup), Finished(CreateBackup), Receipt(context.backupId),
                                              Wrote(ProductionBackupDeepVerified)], o.Done?)
      ensures Mine().outcome.InProgress? && (o.Done? ==> Mine().backupId == Some(context.backupId))
    {
      hide Planned, StagingSuccess, Names, AsOpened;
      o := Perform(production, CreateBackup, [], t);
      if o.IsFailure() { return; }
      o := *;  // the receipt
      if o.IsFailure() { return; }
      Log(Receipt(context.backupId));
      o := Advance(Mine().(phase := ProductionBackupDeepVerified, backupId := Some(context.backupId)), t);
    }

    /** What the record becomes when there is no evidence. */
    function RefusedRecord(r: Record): Record {
      r.(phase := PhaseC2Required, outcome := Failure, result := PhaseC2BackupRequired)
    }

    /** Off-server evidence for the backup, or the Phase C2 refusal. */
    method MakeDurable(context: DurabilityContext, ghost t: Ticket) returns (o: Outcome)
      requires Valid() && Prepares(t) && Events() != [] && Mine().outcome.InProgress? && !Saved().phase.Accepted?
      requires This().plan.context == context
      modifies ledger, this`history, evidence
      ensures Prepares(t) && This().plan == old(This().plan)
      ensures DurabilityEvidence.Kept(old(evidence.files), evidence.files)
      ensures o.Done? ==> DurabilityEvidence.Obtained(old(evidence.files), evidence.files, context)
      ensures Along(old(Events()), Events(), DurabilityChecks(This().plan), o.Done?)
      ensures o.Done? ==> Mine() == old(Mine()).(phase := OffserverDurabilityConfirmed)
      ensures Evidence(context) !in Events()[|old(Events())|..] ==>
        Mine() == old(Mine()) || (Mine() == RefusedRecord(old(Mine())) && !o.Done?)
    {
      hide DurabilityEvidence.Obtained, DurabilityEvidence.Kept, Planned, StagingSuccess, Names;
      var refused;
      o, refused := ProveDurability(context);
      if refused {
        :- Settle(RefusedRecord(Mine()), t);
        return Raised;
      }
      if o.IsFailure() { return; }
      Log(Evidence(context));
      assert Events()[|old(Events())|..] == [Evidence(context)];
      o := Advance(Mine().(phase := OffserverDurabilityConfirmed), t);
      assert Events()[|old(Events())|] == Evidence(context);
    }

    /** Validation of Production and the look for an exact Staging success. */
    method ProveStaging(identity: Identity, ghost t: Ticket) returns (o: Outcome)
      requires Valid() && Prepares(t) && Events() != [] && Mine().outcome.InProgress? && !Saved().phase.Accepted?
      requires t.identity == identity && identity.environment.Production?
      modifies this`history, production`database
      ensures Prepares(t) && This().plan == old(This().plan) && production.database == old(production.database)
      ensures Along(old(Events()), Events(), [Begun(Validate), Finished(Validate), StagingProven], o.Done?)
    {
      o := Perform(production, Validate, [], t);
      if o.IsFailure() { return; }
      if !StagingSuccess(ledger.memory, identity.manifest) { return Raised; }
      assert StagingSuccess(t.base, identity.manifest);
      Log(StagingProven);
      return Done;
    }

    /** For another fingerprint: a backup of the current Production with evidence. */
    method SecureProduction(context: DurabilityContext, ghost t: Ticket) returns (o: Outcome)
      requires Valid() && Prepares(t) && Events() != [] && Mine().outcome.InProgress? && !Saved().phase.Accepted?
      requires This().plan.context == context
      modifies ledger, this`history, production`database, evidence
      ensures Prepares(t) && This().plan == old(This().plan) && production.database == old(production.database)
      ensures Along(old(Events()), Events(), BackupChecks(This().plan) + DurabilityChecks(This().plan), o.Done?)
      ensures o.Done? ==> Mine().outcome.InProgress? && Mine().backupId == Some(context.backupId)
      ensures DurabilityEvidence.Kept(old(evidence.files), evidence.files)
      ensures o.Done? ==> DurabilityEvidence.Obtained(old(evidence.files), evidence.files, context)
    {
      hide DurabilityEvidence.Obtained, Planned, StagingSuccess, Names, AsOpened, BackupChecks, DurabilityChecks;
      ghost var e1, p := Events(), This().plan;
      o := BackUpProduction(context, t);
      ghost var e2 := Events();
      AlongFirst(e1, e2, BackupChecks(p), DurabilityChecks(p), o.Done?);
      if o.IsFailure() { return; }
      o := MakeDurable(context, t);
      AlongBoth(e1, e2, Events(), BackupChecks(p), DurabilityChecks(p), o.Done?);
    }

    method CheckProduction(identity: Identity, context: DurabilityContext, ghost t: Ticket) returns (o: Outcome)
      requires Valid() && Prepares(t) && Events() != [] && Mine().outcome.InProgress? && !Saved().phase.Accepted?
      requires t.identity == identity && identity.environment.Production?
      requires This().plan.context == context && (This().plan.changed <==> context.current != context.target)
      modifies ledger, this`history, production`database, evidence
      ensures Prepares(t) && This().plan == old(This().plan) && production.database == old(production.database)
      ensures Along(old(Events()), Events(), ProductionChecks(This().plan), o.Done?)
      ensures o.Done? ==> Mine().outcome.InProgress?
      ensures DurabilityEvidence.Kept(old(evidence.files), evidence.files)
      ensures o.Done? && This().plan.changed ==>
        DurabilityEvidence.Obtained(old(evidence.files), evidence.files, context)
      ensures o.Done? && This().plan.changed ==> Mine().backupId == Some(context.backupId)
    {
      hide DurabilityEvidence.Obtained, Planned, StagingSuccess, Names, AsOpened, BackupChecks, DurabilityChecks;
      :- ProveStaging(identity, t);
      if context.current != context.target {
        o := SecureProduction(context, t);
        return;
      }
      return Done;
    }

    method CheckStaging(identity: Identity, context: DurabilityContext, ghost t: Ticket) returns (o: Outcome)
      requires Valid() && Prepares(t) && Events() != [] && Mine().outcome.InProgress? && !Saved().phase.Accepted?
      requires This().plan.context == context && (This().plan.changed <==> context.current != context.target)
      modifies ledger, this`history, staging`database
      ensures Prepares(t) && This().plan == old(This().plan) && staging.database == old(staging.database)
      ensures Along(old(Events()), Events(), StagingChecks(This().plan), o.Done?)
      ensures o.Done? ==> Mine().outcome.InProgress?
    {
      o := Perform(staging, Validate, [], t);
      if o.IsFailure() { return; }
      if context.current != context.target {
        :- Stage(staging, CreateBackup, BackupVerified, t);
      }
      return Done;
    }

    /** `try` body up to the durable announcement of the change of authority. */
    method Prepare(identity: Identity, offer: Offer, ghost t: Ticket) returns (o: Outcome, context: DurabilityContext)
      requires Valid() && Prepares(t) && Events() == [] && Mine().outcome.InProgress?
      requires t.identity == identity && t.host == HostNow(identity.environment) && t.journals == store.journals
      modifies ledger, store, this`history, staging`database, production`database, evidence
      ensures Prepares(t) && staging.database == old(staging.database)
          && production.database == old(production.database)
      ensures Along([], Events(), Preparation(This().plan), o.Done?)
      ensures Journals(t.journals, store.journals, t.host, This())
      ensures o.Done? ==>
        && Mine().outcome.InProgress? && Saved() == Mine()
        && Stamped(This().plan, Mine().targetFingerprint, Mine().backupId)
        && This().plan.context == context && This().plan.target == offer.material
        && Captured(t) && Usable(identity.environment, offer.material)
      ensures DurabilityEvidence.Kept(old(evidence.files), evidence.files)
      ensures o.Done? && identity.environment.Production? && This().plan.changed ==>
        DurabilityEvidence.Obtained(old(evidence.files), evidence.files, This().plan.context)
    {
      hide DurabilityEvidence.Obtained, PreviousMaterial, Planned, StagingSuccess, Captured, Usable;
      hide Checks, Names, Stamped, Returns, AsOpened, PreparingRecord;
      var current;
      o, current, context := Authenticate(identity, offer, t);
      if o.IsFailure() { return; }
      ghost var p, e1 := This().plan, Events();
      o := Check(identity, context, t);
      ghost var e2 := Events();
      NothingJournaled(p, e1, e2);
      if o.IsFailure() { return; }
      o := Announce(identity, offer, current, t);
      AlongBoth(e1, e2, Events(), Checks(p), [Journaled, Wrote(AuthorityChanging)], o.Done?);
    }

    method Check(identity: Identity, context: DurabilityContext, ghost t: Ticket) returns (o: Outcome)
      requires Valid() && Prepares(t) && Events() != [] && Mine().outcome.InProgress? && !Saved().phase.Accepted?
      requires t.identity == identity && This().plan.environment == identity.environment
      requires This().plan.context == context && (This().plan.changed <==> context.current != context.target)
      modifies ledger, this`history, staging`database, production`database, evidence
      ensures Prepares(t) && This().plan == old(This().plan)
      ensures staging.database == old(staging.database) && production.database == old(production.database)
      ensures Along(old(Events()), Events(), Checks(This().plan), o.Done?)
      ensures o.Done? ==> Mine().outcome.InProgress?
      ensures DurabilityEvidence.Kept(old(evidence.files), evidence.files)
      ensures o.Done? && identity.environment.Production? && This().plan.changed ==>
        DurabilityEvidence.Obtained(old(evidence.files), evidence.files, This().plan.context)
      ensures o.Done? ==> Stamped(This().plan, Mine().targetFingerprint, Mine().backupId)
    {
      if identity.environment.Production? {
        o := CheckProduction(identity, context, t);
      } else {
        o := CheckStaging(identity, context, t);
      }
    }

    method Announce(identity: Identity, offer: Offer, current: Authority, ghost t: Ticket) returns (o: Outcome)
      requires Valid() && Prepares(t) && Events() != [] && Mine().outcome.InProgress? && !Saved().phase.Accepted?
      requires t.identity == identity && t.host == HostNow(identity.environment) && t.journals == store.journals
      requires ManifestFile in t.host.active && ChecksumFile in t.host.active
      requires current == Authority(t.host.active[ManifestFile], Translate(t.host.active[ChecksumFile]))
      requires Journaled !in Events() && This().plan.target == offer.material
      modifies ledger, store, this`history
      ensures Prepares(t) && This().plan == old(This().plan)
      ensures Along(old(Events()), Events(), [Journaled, Wrote(AuthorityChanging)], o.Done?)
      ensures Journals(t.journals, store.journals, t.host, This())
      ensures o.Done? ==> Saved() == Mine() == old(Mine()).(phase := AuthorityChanging)
      ensures o.Done? ==> Captured(t) && Usable(identity.environment, offer.material)
    {
      hide Planned, StagingSuccess, Names, Captured, Usable, Returns;
      o := TakeSnapshot(identity, offer, current, t);
      if o.IsFailure() { return; }
      o := Advance(Mine().(phase := AuthorityChanging), t);
    }

    /** The journal of this transaction returns what the ticket recorded. */
    ghost predicate Captured(t: Ticket)
      reads store
    {
      var id, environment := t.identity.deploymentId, t.identity.environment;
      && Provisioned(t.host, environment)
      && id in store.journals
      && PreviousMaterial(store.journals[id], environment) == Some(Former(t.host, environment))
    }

    /** Rendering, the previous runtime files and the journal. */
    method TakeSnapshot(identity: Identity, offer: Offer, current: Authority, ghost t: Ticket) returns (o: Outcome)
      requires Valid() && Prepares(t) && Events() != []
      requires t.identity == identity && t.host == HostNow(identity.environment) && t.journals == store.journals
      requires ManifestFile in t.host.active && ChecksumFile in t.host.active
      requires current == Authority(t.host.active[ManifestFile], Translate(t.host.active[ChecksumFile]))
      requires Journaled !in Events() && This().plan.target == offer.material
      modifies store, this`history
      ensures Prepares(t) && This().plan == old(This().plan)
      ensures unchanged(ledger)
      ensures Along(old(Events()), Events(), [Journaled], o.Done?)
      ensures Journals(t.journals, store.journals, t.host, This())
      ensures o.Done? ==> Captured(t) && Usable(identity.environment, offer.material)
    {
      hide Planned, StagingSuccess, Names, AsOpened, PreparingRecord;
      var host := Host(identity.environment);
      o := *;  // rendering of the target runtime files
      if o.IsFailure() { return; }
      if !(OwnedPaths(identity.environment) <= host.runtimes.Keys) { return Raised; }
      var runtimes := map k | k in OwnedPaths(identity.environment) :: host.runtimes[k];
      o := store.Snapshot(identity.deploymentId, identity.environment, offer.material,
                          Material(current.manifest, current.checksum, runtimes));
      if o.IsFailure() { return; }
      Log(Journaled);
    }

    // ------------------------------------------------------------------
    // After the durable announcement.

    ghost predicate Runs(t: Ticket)
      reads this, ledger
    {
      && Framed(t)
      && Mine().outcome.InProgress? && Saved().outcome.InProgress?
      && !Mine().phase.Accepted? && !Saved().phase.Accepted? && Ordinary(Mine()) && Mine().result.NoResult?
      && Planned(policy, t.host, t.identity, This().plan)
      && Labelled(t, Mine()) && Labelled(t, Saved())
      && (t.identity.environment.Production? ==> StagingSuccess(t.base, t.identity.manifest))
    }

    /** The record names the authority that was found and the plan. */
    ghost predicate Labelled(t: Ticket, r: Record)
      requires history != []
      reads this
    {
      && Names(policy, t.host.active, r.previousAuthority, r.currentFingerprint)
      && Stamped(This().plan, r.targetFingerprint, r.backupId)
    }

    /** The host between the former release and `target`: the active pair is the
        one or the other, each owned runtime file too, and the pair goes first. */
    ghost predicate Between(host: EnvironmentHost, t: Ticket, target: Material)
      reads host
    {
      && (host.active == t.host.active
          || (host.active == Pair(target.manifest, target.checksum) && Authoritative(policy, t.host.active)))
      && Intact(policy, t.host, host.active, host.runtimes, target)
      && PairFirst(t.host, host.active, host.runtimes, target)
      && forall k :: k in t.host.runtimes && k !in OwnedPaths(t.identity.environment) ==>
        host.runtimes[k] == t.host.runtimes[k]
    }

    ghost predicate Untouched(host: EnvironmentHost, t: Ticket)
      reads host
    {
      host.active == t.host.active && host.runtimes == t.host.runtimes
    }

    ghost predicate Installed(host: EnvironmentHost, t: Ticket, target: Material)
      reads host
    {
      host.active == Pair(target.manifest, target.checksum) && host.runtimes == t.host.runtimes + target.runtimes
    }

    method InstallTarget(host: EnvironmentHost, environment: Environment, target: Material, ghost t: Ticket)
      returns (o: Outcome)
      requires host.policy == policy && t.identity.environment == environment
      requires Untouched(host, t) && Provisioned(t.host, environment)
      requires target.runtimes.Keys == OwnedPaths(environment)
      modifies host`active, host`siblings, host`runtimes
      ensures Between(host, t, target)
      ensures o.Done? ==> Installed(host, t, target)
    {
      o := host.Install(environment, target.manifest, target.checksum, target.runtimes);
    }

    /** `activate`. */
    method Activate(host: EnvironmentHost, environment: Environment, target: Material, ghost t: Ticket)
      returns (o: Outcome)
      requires Runs(t) && t.identity.environment == environment && host.policy == policy
      requires Untouched(host, t) && Provisioned(t.host, environment) && target.runtimes.Keys == OwnedPaths(environment)
      modifies this`history, host`active, host`siblings, host`runtimes
      ensures Runs(t) && This() == old(This()).(events := Events())
      ensures Along(old(Events()), Events(), Activation(), o.Done?) && Activating in Events()
      ensures Between(host, t, target)
      ensures o.Done? ==> Installed(host, t, target)
    {
      Log(Activating);
      assert Events()[|Events()| - 1] == Activating;
      o := InstallTarget(host, environment, target, t);
      if o.Done? { Log(Activated); }
    }

    /** Registry authentication, the images and the database service. */
    method ReadyDatabase(host: EnvironmentHost, ghost t: Ticket) returns (o: Outcome)
      requires Runs(t)
      modifies ledger, this`history, host`database
      ensures Runs(t) && This() == old(This()).(events := Events()) && Mine().migration == old(Mine().migration)
      ensures host.database == old(host.database)
      ensures Along(old(Events()), Events(), Database(), o.Done?)
    {
      o := Advance(Mine().(phase := AuthorityActive), t);
      if o.IsFailure() { return; }
      o := *;  // registry authentication
      if o.IsFailure() { return; }
      :- Stage(host, Pull, ImagesPulled, t);
      o := Stage(host, DeployDatabase, DatabaseReady, t);
    }

    /** The migration of a release with another fingerprint. From the attempt to
        announce it on, the record in memory no longer says `never-started`. */
    method MigrateSchema(host: EnvironmentHost, changed: bool, ghost t: Ticket) returns (o: Outcome)
      requires Runs(t) && This().plan.changed == changed && Mine().migration.NeverStarted?
      modifies ledger, this`history, host`database
      ensures Runs(t) && This() == old(This()).(events := Events())
      ensures Along(old(Events()), Events(), Migration(This().plan), o.Done?)
      ensures host.database == old(host.database) || Begun(Migrate) in Events()
      ensures Mine().migration.NeverStarted? <==> !changed
      ensures Mine().migration.NeverStarted? || Mine().migration.Started? || Mine().migration.Completed?
      ensures !changed ==> host.database == old(host.database) && Events() == old(Events())
      ensures Mine().migration.Completed? ==>
        Finished(Migrate) in Events() && Migrated(old(host.database), This().plan.schema, host.database)
      ensures o.Done? && changed ==> Mine().migration.Completed?
    {
      if !changed { return Done; }
      :- Advance(Mine().(phase := MigrationStarting, migration := MigrationState.Started), t);
      o := Perform(host, Migrate, This().plan.schema, t);
      assert Begun(Migrate) in Events();
      if o.IsFailure() { return; }
      assert Finished(Migrate) in Events();
      o := Advance(Mine().(phase := MigrationCompleted, migration := Completed), t);
    }

    method DeployServices(host: EnvironmentHost, environment: Environment, ghost t: Ticket) returns (o: Outcome)
      requires Runs(t) && This().plan.environment == environment
      modifies ledger, this`history, host`database
      ensures Runs(t) && This() == old(This()).(events := Events()) && Mine().migration == old(Mine().migration)
      ensures host.database == old(host.database)
      ensures Along(old(Events()), Events(), Services(This().plan), o.Done?)
    {
      hide Planned, StagingSuccess, Names, Stamped;
      o := Stage(host, DeployApp, ApplicationDeployed, t);
      if o.IsFailure() { return; }
      :- Stage(host, DeployWorkers, WorkersDeployed, t);
      if environment.Staging? {
        :- Stage(host, DeployExporter, ExporterDeployed, t);
      }
      return Done;
    }

    method ProbeHealth(host: EnvironmentHost, ghost t: Ticket) returns (o: Outcome)
      requires Runs(t)
      modifies this`history, host`database
      ensures Runs(t) && This() == old(This()).(events := Events())
      ensures host.database == old(host.database)
      ensures Along(old(Events()), Events(), Run(Health) + Run(IngressHealth), o.Done?)
    {
      o := Perform(host, Health, [], t);
      if o.IsFailure() { return; }
      o := Perform(host, IngressHealth, [], t);
    }

    method Probe(host: EnvironmentHost, environment: Environment, ghost t: Ticket) returns (o: Outcome)
      requires Runs(t) && This().plan.environment == environment
      modifies ledger, this`history, host`database
      ensures Runs(t) && This() == old(This()).(events := Events()) && Mine().migration == old(Mine().migration)
      ensures host.database == old(host.database)
      ensures Along(old(Events()), Events(), Probes(This().plan), o.Done?)
    {
      hide Planned, StagingSuccess;
      o := ProbeHealth(host, t);
      if o.IsFailure() { return; }
      if environment.Staging? {
        :- Perform(host, PublicSmoke, [], t);
      }
      o := Advance(Mine().(phase := Verified), t);
    }

    /** The database part of the deployment, from the active authority on. */
    method DeployDatabases(host: EnvironmentHost, changed: bool, ghost t: Ticket) returns (o: Outcome)
      requires Runs(t) && This().plan.changed == changed && Mine().migration.NeverStarted?
      modifies ledger, this`history, host`database
      ensures Runs(t) && This() == old(This()).(events := Events())
      ensures Along(old(Events()), Events(), Database() + Migration(This().plan), o.Done?)
      ensures Mine().migration.NeverStarted? ==>
        host.database == old(host.database) && Along(old(Events()), Events(), Database(), false)
      ensures host.database == old(host.database) || Begun(Migrate) in Events()
      ensures Mine().migration.NeverStarted? || (changed && (Mine().migration.Started? || Mine().migration.Completed?))
      ensures Mine().migration.Completed? ==>
        Finished(Migrate) in Events() && Migrated(old(host.database), This().plan.schema, host.database) && changed
      ensures o.Done? ==> if changed then Mine().migration.Completed? else Mine().migration.NeverStarted?
    {
      o := ReadyDatabase(host, t);
      if o.IsFailure() { return; }
      o := MigrateSchema(host, changed, t);
    }

    method RollOut(host: EnvironmentHost, environment: Environment, ghost t: Ticket) returns (o: Outcome)
      requires Runs(t) && This().plan.environment == environment
      modifies ledger, this`history, host`database
      ensures Runs(t) && This() == old(This()).(events := Events()) && Mine().migration == old(Mine().migration)
      ensures host.database == old(host.database)
      ensures Along(old(Events()), Events(), Rollout(This().plan), o.Done?)
    {
      o := DeployServices(host, environment, t);
      if o.IsFailure() { return; }
      o := Probe(host, environment, t);
    }

    /** What the handler may rely on, however far the deployment came. */
    ghost predicate Progressed(host: EnvironmentHost, t: Ticket, before: seq<Event>)
      reads this, ledger, host
    {
      && Runs(t)
      && var p := This().plan;
      && Between(host, t, p.target)
      && before <= Events() && Activating in Events()
      && (Mine().migration.NeverStarted? ==>
            host.database == t.host.database
            && (p.changed ==> Events() <= before + BeforeMigration(p)))
      && (host.database == t.host.database || Begun(Migrate) in Events())
      && (Mine().migration.NeverStarted? || (p.changed && (Mine().migration.Started? || Mine().migration.Completed?)))
      && (Mine().migration.Completed? ==>
            p.changed && Finished(Migrate) in Events() && Migrated(t.host.database, p.schema, host.database)
                && Installed(host, t, p.target))
    }

    /** The database after a deployment without failure. */
    ghost predicate Advanced(host: EnvironmentHost, t: Ticket, changed: bool)
      requires history != []
      reads this, host
    {
      if changed then Migrated(t.host.database, This().plan.schema, host.database)
      else host.database == t.host.database
    }

    /** Activation, the database service and the migration. */
    method Establish(host: EnvironmentHost, environment: Environment, target: Material, changed: bool, ghost t: Ticket)
      returns (o: Outcome)
      requires Runs(t) && t.identity.environment == environment && host.policy == policy
      requires Untouched(host, t) && host.database == t.host.database
      requires Provisioned(t.host, environment) && target.runtimes.Keys == OwnedPaths(environment)
      requires This().plan.changed == changed && This().plan.target == target
      requires Mine().migration.NeverStarted?
      modifies ledger, this`history, host`active, host`siblings, host`runtimes, host`database
      ensures Progressed(host, t, old(Events())) && This() == old(This()).(events := Events())
      ensures Along(old(Events()), Events(), Activation() + (Database() + Migration(This().plan)), o.Done?)
      ensures o.Done? ==> Mine().migration == if changed then Completed else NeverStarted
      ensures o.Done? ==> Installed(host, t, target)
                          && Advanced(host, t, changed)
    {
      hide Planned, StagingSuccess, Names, Stamped, Intact, PairFirst, Provisioned, Activation, Database, Migration;
      ghost var p, e0 := This().plan, Events();
      o := Activate(host, environment, target, t);
      ghost var e1 := Events();
      assert Activating in e1;
      AlongFirst(e0, e1, Activation(), Database() + Migration(p), o.Done?);
      AlongFirst(e0, e1, Activation(), Database(), o.Done?);
      if o.IsFailure() { return; }
      o := DeployDatabases(host, changed, t);
      ghost var e2 := Events();
      assert e1 <= e2;
      AlongBoth(e0, e1, e2, Activation(), Database() + Migration(p), o.Done?);
      if Mine().migration.NeverStarted? { AlongBoth(e0, e1, e2, Activation(), Database(), false); }
    }

    /** `try` body after the announcement. */
    method Deploy(host: EnvironmentHost, environment: Environment, target: Material, changed: bool, ghost t: Ticket)
      returns (o: Outcome)
      requires Runs(t) && t.identity.environment == environment && host.policy == policy
      requires Untouched(host, t) && host.database == t.host.database
      requires Provisioned(t.host, environment) && target.runtimes.Keys == OwnedPaths(environment)
      requires This().plan.changed == changed && This().plan.target == target && This().plan.environment == environment
      requires Mine().migration.NeverStarted?
      modifies ledger, this`history, host`active, host`siblings, host`runtimes, host`database
      ensures Progressed(host, t, old(Events())) && This() == old(This()).(events := Events())
      ensures Along(old(Events()), Events(), Deployment(This().plan), o.Done?)
      ensures o.Done? ==> Mine().migration == if changed then Completed else NeverStarted
      ensures o.Done? ==> Installed(host, t, target)
                          && Advanced(host, t, changed)
    {
      hide Planned, StagingSuccess, Names, Stamped, Intact, PairFirst, Provisioned;
      ghost var p, e0 := This().plan, Events();
      o := Establish(host, environment, target, changed, t);
      ghost var e1 := Events();
      if o.IsFailure() { return; }
      o := RollOut(host, environment, t);
      assert e1 <= Events();
      AlongBoth(e0, e1, Events(), Activation() + (Database() + Migration(p)), Rollout(p), o.Done?);
    }

    // ------------------------------------------------------------------
    // The failure handler.

    /** `restore_previous`: only the journal's previous material is installed. */
    method RestorePrevious(host: EnvironmentHost, id: DeploymentId, environment: Environment, ghost target: Material,
        ghost t: Ticket)
      returns (o: Outcome)
      requires host.policy == policy && t.identity.environment == environment && t.identity.deploymentId == id
      requires Captured(t) && Between(host, t, target)
      modifies host`active, host`siblings, host`runtimes
      ensures Intact(policy, t.host, host.active, host.runtimes, target)
      ensures o.Done? ==> RestoredFrom(policy, t.host, HostState(host.active, host.runtimes, t.host.database))
    {
      var material := PreviousMaterial(store.journals[id], environment);
      if material.None? { return Raised; }
      var previous := material.value;
      o := host.Install(environment, previous.manifest, previous.checksum, previous.runtimes);
      assert o.Done? ==> host.runtimes == t.host.runtimes;
    }

    method Reinstate(host: EnvironmentHost, environment: Environment, id: DeploymentId, ghost target: Material,
        ghost t: Ticket)
      returns (o: Outcome)
      requires Framed(t) && host.policy == policy && t.identity.environment == environment
          && t.identity.deploymentId == id
      requires Captured(t) && Between(host, t, target)
      modifies this`history, host`active, host`siblings, host`runtimes
      ensures Intact(policy, t.host, host.active, host.runtimes, target)
      ensures Framed(t) && This() == old(This()).(events := Events())
      ensures Along(old(Events()), Events(), [Restoring, Restored], o.Done?) && Restoring in Events()
      ensures o.Done? ==> RestoredFrom(policy, t.host, HostState(host.active, host.runtimes, t.host.database))
    {
      hide PreviousMaterial, RestoredFrom, Intact, Captured, Between;
      Log(Restoring);
      o := RestorePrevious(host, id, environment, target, t);
      assert Events()[|old(Events())|] == Restoring;
      if o.Done? { Log(Restored); }
    }

    /** Redeployment of the restored release. */
    method Redeploy(host: EnvironmentHost, environment: Environment, ghost t: Ticket) returns (o: Outcome)
      requires Framed(t) && This().plan.environment == environment
      modifies this`history, host`database
      ensures Framed(t) && This() == old(This()).(events := Events()) && host.database == old(host.database)
      ensures Along(old(Events()), Events(), Redeployment(This().plan), o.Done?)
    {
      o := Perform(host, DeployApp, [], t);
      if o.IsFailure() { return; }
      :- Perform(host, DeployWorkers, [], t);
      if environment.Staging? {
        :- Perform(host, DeployExporter, [], t);
      }
      return Done;
    }

    /** The `try` body of the rollback. */
    method RollBack(host: EnvironmentHost, environment: Environment, id: DeploymentId, ghost target: Material,
        ghost t: Ticket)
      returns (o: Outcome)
      requires Framed(t) && host.policy == policy && t.identity.environment == environment
          && t.identity.deploymentId == id
      requires Captured(t) && Between(host, t, target) && This().plan.environment == environment
      modifies ledger, this`history, host`active, host`siblings, host`runtimes, host`database
      ensures Intact(policy, t.host, host.active, host.runtimes, target)
      ensures Framed(t) && This() == old(This()).(events := Events()) && host.database == old(host.database)
      ensures Along(old(Events()), Events(), Rollback(This().plan), o.Done?) && Restoring in Events()
      ensures Mine() == old(Mine()) || Mine() == old(Mine()).(phase := RolledBack)
      ensures Saved() == old(Saved()) || Saved() == Mine() == old(Mine()).(phase := RolledBack)
      ensures o.Done? ==> Mine().phase.RolledBack?
                          && RestoredFrom(policy, t.host, HostState(host.active, host.runtimes, t.host.database))
    {
      hide Redeployment, PreviousMaterial, RestoredFrom, Intact;
      ghost var e0, p := Events(), This().plan;
      :- Reinstate(host, environment, id, target, t);
      ghost var e1 := Events();
      o := Redeploy(host, environment, t);
      ghost var e2 := Events();
      AlongBoth(e0, e1, e2, [Restoring, Restored], Redeployment(p), o.Done?);
      if o.IsFailure() { return; }
      o := Advance(Mine().(phase := RolledBack), t);
      AlongBoth(e0, e2, Events(), [Restoring, Restored] + Redeployment(p), [Wrote(RolledBack)], o.Done?);
    }

    /** The `except` clause of `execute_transaction` once the authority may have
        changed. It never returns normally: `Raised` is the closed deployment
        error, anything else leaves the durable record in progress. */
    method Recover(host: EnvironmentHost, environment: Environment, id: DeploymentId, changed: bool,
        ghost before: seq<Event>, ghost t: Ticket)
      returns (o: Outcome)
      requires Progressed(host, t, before) && Captured(t) && host.policy == policy
      requires t.identity.environment == environment && t.identity.deploymentId == id
      requires This().plan.environment == environment && This().plan.changed == changed
      requires This().deployed == Ended(Raised, Mine().migration) && This().forward == |Events()|
      modifies ledger, this`history, host`active, host`siblings, host`runtimes, host`database
      ensures Framed(t) && Intact(policy, t.host, host.active, host.runtimes, This().plan.target)
      ensures This() == old(This()).(events := Events()) && host.database == old(host.database)
      ensures Along(old(Events()), Events(), Rollback(This().plan), false)
      ensures if old(Mine().migration).NeverStarted? then Restoring in Events() else Events() == old(Events())
      ensures Mine().outcome.InProgress? && Saved().outcome.InProgress? && !Saved().phase.Accepted?
      ensures Labelled(t, Mine()) && Labelled(t, Saved())
      ensures Restoring in Events() || PairFirst(t.host, host.active, host.runtimes, This().plan.target)
      ensures old(Mine().migration).Completed? && environment.Staging? ==> o.Raised? && Mine() == old(Mine())
      ensures o.Raised? && old(Mine().migration).Completed? && environment.Production? ==>
        Mine() == old(Mine()).(phase := ManualReview)
      ensures o.Raised? && old(Mine().migration).Started? ==>
        Mine() == old(Mine()).(phase := ManualReview, migration := MigrationState.Failed)
      ensures !o.Done?
      ensures o.Raised? ==>
        Recovered(policy, t.host, HostState(host.active, host.runtimes, host.database), This(), Mine())
    {
      hide Planned, StagingSuccess, PreviousMaterial, RestoredFrom, BeforeMigration, Rollback, Names, Stamped;
      ghost var target := This().plan.target;
      if changed && !Mine().migration.NeverStarted? {
        o := Done;
        if Mine().migration.Started? {
          o := Settle(Mine().(phase := ManualReview, migration := MigrationState.Failed), t);
        } else if environment.Production? {
          o := Settle(Mine().(phase := ManualReview), t);
        }
        return if o.Done? then Raised else if o.Stopped? then Stopped else Escaped;
      }
      o := RollBack(host, environment, id, target, t);
      if o.Done? { return Raised; }
      if o.Stopped? { return; }
      o := Settle(Mine().(phase := RollbackFailed, result := FailureMessage), t);
      return if o.Done? then Raised else if o.Stopped? then Stopped else Escaped;
    }

    // ------------------------------------------------------------------
    // `execute_transaction`.

    ghost predicate Fresh(r: Record, identity: Identity) {
      r.identity == identity && r.outcome.InProgress? && AsOpened(r)
    }

    /** Divide the events into the deployment, which ended so, and the rollback. */
    ghost method Divide(deployed: Deployed)
      requires history != []
      modifies this`history
      ensures |history| == |old(history)| && history[..|history| - 1] == old(history)[..|history| - 1]
      ensures This() == old(This()).(deployed := deployed, forward := |Events()|)
    {
      history := history[|history| - 1 := This().(deployed := deployed, forward := |Events()|)];
    }

    /** The deployment, without its failure handler. */
    method Undertake(host: EnvironmentHost, environment: Environment, target: Material, changed: bool, ghost t: Ticket)
      returns (o: Outcome)
      requires Runs(t) && t.identity.environment == environment && host.policy == policy
      requires Events() == Preparation(This().plan)
      requires Untouched(host, t) && host.database == t.host.database && Provisioned(t.host, environment)
      requires target.runtimes.Keys == OwnedPaths(environment)
      requires This().plan.changed == changed && This().plan.target == target && This().plan.environment == environment
      requires Mine().migration.NeverStarted?
      modifies ledger, this`history, host`active, host`siblings, host`runtimes, host`database
      ensures Progressed(host, t, old(Events()))
      ensures This() == old(This()).(deployed := Ended(o, Mine().migration), forward := |Events()|, events := Events())
      ensures Restoring !in Events()
      ensures Along(old(Events()), Events(), Deployment(This().plan), o.Done?)
      ensures Follows(This().plan, Events(), |Events()|)
      ensures o.Done? ==> Mine().migration == if changed then Completed else NeverStarted
      ensures o.Done? ==> Events() == Script(This().plan)
                          && OnTarget(t.host, HostState(host.active, host.runtimes, host.database), This().plan)
    {
      hide Preparation, Deployment, BeforeMigration, Script, Planned;
      ghost var p, e1 := This().plan, Events();
      o := Deploy(host, environment, target, changed, t);
      Divide(Ended(o, Mine().migration));
      Forward(p, e1, Events(), o.Done?);
      NothingRestored(p, e1, Events());
    }

    /** The deployment and its failure handler. */
    method Commit(host: EnvironmentHost, environment: Environment, id: DeploymentId, offer: Offer, changed: bool,
        ghost t: Ticket)
      returns (o: Outcome)
      requires Runs(t) && t.identity.environment == environment && t.identity.deploymentId == id
          && host.policy == policy
      requires Events() == Preparation(This().plan)
      requires Untouched(host, t) && host.database == t.host.database && Captured(t)
      requires offer.material.runtimes.Keys == OwnedPaths(environment)
      requires This().plan.changed == changed && This().plan.target == offer.material
          && This().plan.environment == environment
      requires Mine().migration.NeverStarted?
      modifies ledger, this`history, host`active, host`siblings, host`runtimes, host`database
      ensures Framed(t) && Intact(policy, t.host, host.active, host.runtimes, This().plan.target)
      ensures This() == old(This()).(deployed := This().deployed, forward := This().forward, events := Events())
      ensures This().deployed.Ended? && (Restoring in Events() <==> Restores(This()))
      ensures o.Done? <==> This().deployed.outcome.Done?
      ensures !This().deployed.outcome.Done? && !This().deployed.outcome.Raised? ==> o == This().deployed.outcome
      ensures Follows(This().plan, Events(), This().forward)
      ensures Activating in Events() && (host.database == t.host.database || Begun(Migrate) in Events())
      ensures Saved().outcome.InProgress? && !Saved().phase.Accepted?
      ensures Labelled(t, Mine()) && Labelled(t, Saved())
      ensures Restoring in Events() || PairFirst(t.host, host.active, host.runtimes, This().plan.target)
      ensures o.Raised? ==>
        Recovered(policy, t.host, HostState(host.active, host.runtimes, host.database), This(), Mine())
      ensures o.Done? ==> Mine().migration == if changed then Completed else NeverStarted
      ensures o.Done? ==> Events() == Script(This().plan)
                          && OnTarget(t.host, HostState(host.active, host.runtimes, host.database), This().plan)
    {
      hide Preparation, Deployment, Rollback, BeforeMigration, Script, Planned, Follows, OnTarget, RestoredFrom,
        Names, Stamped;
      ghost var p, e1 := This().plan, Events();
      o := Undertake(host, environment, offer.material, changed, t);
      ghost var e2 := Events();
      if !o.Raised? { return; }
      o := Recover(host, environment, id, changed, e1, t);
      ForwardAndBack(p, e1, e2, Events());
      Kept(e2, Events());
    }

    ghost predicate EndedNow(t: Ticket, host: EnvironmentHost, o: Outcome)
      reads this, ledger, host
    {
      && Framed(t)
      && InOrder(policy, t.base, t.host, HostState(host.active, host.runtimes, host.database), This(), Mine(),
                 Saved(), o)
    }

    /** Enter the transaction and prepare it. */
    method Start(host: EnvironmentHost, identity: Identity, offer: Offer, ghost t: Ticket)
      returns (o: Outcome, context: DurabilityContext)
      requires Valid() && host == Host(identity.environment)
      requires t.identity == identity && t.host == HostNow(identity.environment) && t.journals == store.journals
          && t.past == history
      requires |ledger.memory| == |ledger.disk| == |t.base| + 1
      requires ledger.memory[..|t.base|] == t.base && ledger.disk[..|t.base|] == t.base
      requires Fresh(Mine(), identity) && Fresh(Saved(), identity)
      requires Names(policy, t.host.active, Mine().previousAuthority, Mine().currentFingerprint)
      requires Names(policy, t.host.active, Saved().previousAuthority, Saved().currentFingerprint)
      modifies ledger, store, this`history, staging`database, production`database, evidence
      ensures staging.database == old(staging.database) && production.database == old(production.database)
      ensures Framed(t) && Journals(t.journals, store.journals, t.host, This())
      ensures !o.Done? ==> EndedNow(t, host, o) && Evidenced(old(evidence.files), evidence.files, This())
      ensures DurabilityEvidence.Kept(old(evidence.files), evidence.files)
      ensures o.Done? && identity.environment.Production? && This().plan.changed ==>
        DurabilityEvidence.Obtained(old(evidence.files), evidence.files, This().plan.context)
      ensures o.Done? ==>
        && Runs(t) && Mine().migration.NeverStarted?
        && Events() == Preparation(This().plan) && Captured(t) && Usable(identity.environment, offer.material)
        && This().plan.context == context && This().plan.target == offer.material
    {
      hide Preparation, Transacted, Captured, Names, Stamped, Returns, Usable, StagingSuccess;
      hide DurabilityEvidence.Obtained;
      history := history + [Attempt(identity,
        Plan(identity.environment, false, offer.material, [],
             DurabilityEvidence.Context("", "", "", "", identity.manifest)),
        NotBegun, 0, [])];
      assert history[..|t.past|] == t.past;
      o, context := Prepare(identity, offer, t);
      Divide(NotBegun);
      if o.IsFailure() {
        PreparingIsCalm(This().plan, Events());
        PreparedEnding(policy, t.base, t.host, This(), Mine(), Saved(), o);
      } else {
        PreparationEvents(This().plan);
        PreparationStarts(This().plan);
      }
    }

    /** Go through with a prepared transaction. */
    method Finish(host: EnvironmentHost, identity: Identity, offer: Offer, changed: bool, ghost t: Ticket)
      returns (o: Outcome)
      requires Runs(t) && t.identity == identity && host.policy == policy
      requires Events() == Preparation(This().plan)
      requires Untouched(host, t) && host.database == t.host.database && Captured(t)
      requires offer.material.runtimes.Keys == OwnedPaths(identity.environment)
      requires This().plan.changed == changed && This().plan.target == offer.material
          && This().plan.environment == identity.environment
      requires Mine().migration.NeverStarted?
      modifies ledger, this`history, host`active, host`siblings, host`runtimes, host`database
      ensures EndedNow(t, host, o) && Activating in Events() && This().plan == old(This().plan)
    {
      o := Commit(host, identity.environment, identity.deploymentId, offer, changed, t);
      CommittedEnding(policy, t.base, t.host, HostState(host.active, host.runtimes, host.database),
                      This(), Mine(), Saved(), o);
    }

    method ExecuteTransaction(identity: Identity, offer: Offer, ghost t: Ticket) returns (o: Outcome)
      requires Valid()
      requires t.identity == identity && t.host == HostNow(identity.environment) && t.journals == store.journals
          && t.past == history
      requires |ledger.memory| == |ledger.disk| == |t.base| + 1
      requires ledger.memory[..|t.base|] == t.base && ledger.disk[..|t.base|] == t.base
      requires Fresh(Mine(), identity) && Fresh(Saved(), identity)
      requires Names(policy, t.host.active, Mine().previousAuthority, Mine().currentFingerprint)
      requires Names(policy, t.host.active, Saved().previousAuthority, Saved().currentFingerprint)
      modifies ledger, store, this`history, staging, production, evidence
      ensures EndedNow(t, Host(identity.environment), o)
      ensures Evidenced(old(evidence.files), evidence.files, This())
      ensures Journals(t.journals, store.journals, t.host, This())
      ensures identity.environment.Staging? ==> HostNow(Production) == old(HostNow(Production))
      ensures identity.environment.Production? ==> HostNow(Staging) == old(HostNow(Staging))
    {
      hide InOrder, Preparation, Names, Stamped, Returns, DurabilityEvidence.Obtained;
      var host := Host(identity.environment);
      var context;
      o, context := Start(host, identity, offer, t);
      if o.IsFailure() { return; }
      PreparationJournals(This().plan);
      o := Finish(host, identity, offer, context.current != context.target, t);
      assert Events() != [];
    }

    // ------------------------------------------------------------------
    // `main`.

    /** Publish a status, then record whether that worked. */
    method Synchronize(k: nat, published: Synchronization) returns (o: Outcome)
      requires k < |ledger.memory|
      modifies ledger
      ensures |ledger.memory| == |old(ledger.memory)| && SameButSync(old(ledger.memory)[k], ledger.memory[k])
      ensures ledger.memory == old(ledger.memory)[k := ledger.memory[k]]
      ensures ledger.disk == old(ledger.disk) || ledger.disk == ledger.memory
      ensures o.Done? ==> ledger.disk == ledger.memory
      ensures o.Done? && published.Synced? ==> ledger.memory[k].sync == Synced
    {
      o := *;
      if o.Done? {
        o := ledger.Transition(k, ledger.memory[k].(sync := published));
      } else if o.Raised? {
        o := ledger.Transition(k, ledger.memory[k].(sync := Pending));
        if o.Done? && published.Synced? { o := Raised; }
      }
    }

    /** The transitions of `main` after the transaction. */
    method Conclude(host: EnvironmentHost, ended: Outcome, ghost t: Ticket) returns (exit: Exit)
      requires EndedNow(t, host, ended)
      modifies ledger
      ensures Framed(t)
      ensures Transacted(policy, t.base, t.host, HostState(host.active, host.runtimes, host.database), This(), Saved())
      ensures exit.Handled? ==> !Saved().outcome.InProgress? && Saved().sync == Synced
      ensures !exit.Rejected?
    {
      hide Transacted;
      if !ended.Done? && !ended.Raised? { return Unfinished; }
      var o := Settle(if ended.Done? then SucceededRecord(Mine()) else FailedRecord(Mine()), t);
      ghost var concluded, saved := Mine(), Saved();
      if o.IsFailure() { return Unfinished; }
      o := Synchronize(|ledger.memory| - 1, Synced);
      TransactedSync(policy, t.base, t.host, HostState(host.active, host.runtimes, host.database),
                     This(), concluded, Mine());
      return if o.Done? then Handled else Unfinished;
    }

    /** Digest and fingerprint of the current authority of an environment. */
    method Identify(environment: Environment)
      returns (o: Outcome, digest: Option<string>, fingerprint: Option<Fingerprint>)
      requires Valid()
      ensures o.Done? ==> NamesNow(environment, digest, fingerprint)
    {
      digest, fingerprint := None, None;
      var current;
      o, current := CurrentAuthority(Host(environment));
      if o.Done? && current.Some? {
        var facts := policy[current.value.manifest];
        digest, fingerprint := Some(facts.sha256), Some(facts.fingerprint);
      }
    }

    /** `apply` of a submission that passed authorization. */
    method Apply(identity: Identity, offer: Offer) returns (exit: Exit, ghost report: Report)
      requires Valid()
      modifies this`history, ledger, store, staging, production, evidence
      ensures Step(policy, old(Now()), Now(), report)
      ensures report.Execution? || report.Opening? ==> report.identity == identity
      ensures exit.Handled? ==> Answered(ledger.disk, identity)
      ensures exit.Rejected? ==> Decide(old(ledger.disk), identity).Conflict? && Now() == old(Now())
      ensures Distinct(old(ledger.disk)) && OnRecord(old(ledger.disk), identity) ==> !exit.Rejected?
    {
      hide Decide, Transacted, Journals, Evidenced, Clearable, Names, Distinct, OnRecord, Answered, Opens;
      exit, report := Unfinished, Idle;
      var o, digest, fingerprint := Identify(identity.environment);
      if o.IsFailure() { return; }
      o := ledger.Load();
      if o.IsFailure() { return; }
      exit, report := Submit(identity, offer, digest, fingerprint);
    }

    /** `apply` once the ledger is loaded and the authority is known. */
    method Submit(identity: Identity, offer: Offer, digest: Option<string>, fingerprint: Option<Fingerprint>)
      returns (exit: Exit, ghost report: Report)
      requires Valid() && ledger.memory == ledger.disk && NamesNow(identity.environment, digest, fingerprint)
      modifies this`history, ledger, store, staging, production, evidence
      ensures Step(policy, old(Now()), Now(), report)
      ensures report.Execution? || report.Opening? ==> report.identity == identity
      ensures exit.Handled? ==> Answered(ledger.disk, identity)
      ensures exit.Rejected? ==> Decide(old(ledger.disk), identity).Conflict? && Now() == old(Now())
      ensures Distinct(old(ledger.disk)) && OnRecord(old(ledger.disk), identity) ==> !exit.Rejected?
    {
      hide Decide, Transacted, Journals, Evidenced, Answers, Clearable, Names, Distinct, OnRecord;
      exit, report := Unfinished, Idle;
      ghost var base := ledger.memory;
      var o, decision;
      o, decision := ledger.BeginRecord(identity, digest, fingerprint);
      if decision.Conflict? {
        RejectionIsConflict(base, identity);
        return Rejected, report;
      }
      if decision.Replay? || decision.AlreadySuccessful? {
        if ledger.memory[decision.index].outcome.InProgress? { return; }
        exit, report := Republish(decision.index, identity);
        return;
      }
      report := if ledger.disk == base then Idle else Opening(identity);
      if o.IsFailure() { return; }
      if decision.New? {
        exit, report := Enter(identity, offer, base, digest, fingerprint);
      } else {
        exit := Refuse(identity);
      }
    }

    /** The blocked record is published. */
    method Refuse(identity: Identity) returns (exit: Exit)
      requires ledger.memory == ledger.disk != [] && Answers(Saved(), identity)
      modifies ledger
      ensures |ledger.disk| == |old(ledger.disk)|
          && ledger.disk[..|ledger.disk| - 1] == old(ledger.disk)[..|ledger.disk| - 1]
      ensures SameButSync(old(Saved()), Saved())
      ensures exit.Handled? ==> Answered(ledger.disk, identity)
      ensures !exit.Rejected?
    {
      var o := Synchronize(|ledger.memory| - 1, Synced);
      exit := if o.Done? then Handled else Unfinished;
      assert Answers(Saved(), identity);
    }

    /** A terminal record answers again. */
    method Republish(k: nat, identity: Identity) returns (exit: Exit, ghost report: Report)
      requires k < |ledger.memory| && ledger.memory == ledger.disk && !ledger.memory[k].outcome.InProgress?
      requires Answers(ledger.memory[k], identity)
      modifies ledger
      ensures Step(policy, old(Now()), Now(), report) && !report.Execution? && !report.Opening?
      ensures exit.Handled? ==> Answered(ledger.disk, identity)
      ensures !exit.Rejected?
    {
      ghost var before := ledger.disk;
      var o := Synchronize(k, Synced);
      report := if ledger.disk == before then Idle else Synchronized(k);
      exit := if o.Done? then Handled else Unfinished;
      assert Answers(ledger.memory[k], identity);
    }

    /** A new record: publication, the transaction and its conclusion. */
    method Enter(identity: Identity, offer: Offer, ghost base: seq<Record>, digest: Option<string>,
        fingerprint: Option<Fingerprint>)
      returns (exit: Exit, ghost report: Report)
      requires Valid() && Decide(base, identity).New?
      requires ledger.memory == ledger.disk == base + [Opened(identity, digest, fingerprint, New)]
      requires NamesNow(identity.environment, digest, fingerprint)
      modifies this`history, ledger, store, staging, production, evidence
      ensures Step(policy, old(Now()).(records := base), Now(), report)
      ensures report.Execution? || report.Opening? ==> report.identity == identity
      ensures exit.Handled? ==> Answered(ledger.disk, identity)
      ensures !exit.Rejected?
    {
      hide Names, Answers, Decide, DurabilityEvidence.Obtained;
      report := Opening(identity);
      var o := Synchronize(|ledger.memory| - 1, InProgressSynced);
      if o.IsFailure() { return Unfinished, report; }
      exit := Transact(identity, offer, base);
      report := Execution(identity);
    }

    method Transact(identity: Identity, offer: Offer, ghost base: seq<Record>) returns (exit: Exit)
      requires Valid() && Decide(base, identity).New?
      requires ledger.memory == ledger.disk && |ledger.disk| == |base| + 1 && ledger.disk[..|base|] == base
      requires Fresh(Saved(), identity)
      requires NamesNow(identity.environment, Saved().previousAuthority, Saved().currentFingerprint)
      modifies this`history, ledger, store, staging, production, evidence
      ensures Step(policy, old(Now()).(records := base), Now(), Execution(identity))
      ensures exit.Handled? ==> Answered(ledger.disk, identity)
      ensures !exit.Rejected?
    {
      hide InOrder, Transacted, Journals, Decide;
      ghost var t := Ticket(base, history, identity, HostNow(identity.environment), store.journals);
      var o := ExecuteTransaction(identity, offer, t);
      exit := Conclude(Host(identity.environment), o, t);
      assert exit.Handled? ==> Answers(Saved(), identity);
    }

    /** `reconcile-pre-mutation staging <id>`. */
    method ReconcilePreMutation(id: DeploymentId) returns (o: Outcome, ghost report: Report)
      requires Valid()
      modifies ledger
      ensures Step(policy, old(Now()), Now(), report) && (report.Idle? || report.Closing?)
      ensures o.Done? ==> report.Closing?
    {
      report := Idle;
      o := ledger.Load();
      if o.IsFailure() { return; }
      var digest, fingerprint;
      o, digest, fingerprint := Identify(Staging);
      if o.IsFailure() { return; }
      if digest.None? || fingerprint.None? { return Raised, report; }
      ghost var before := ledger.disk;
      var k;
      o, k := ledger.ReconcilePreMutation(
        id, digest.value, fingerprint.value, id in store.journals);
      if ledger.disk != before { report := Closing(k); }
    }
  }
}
