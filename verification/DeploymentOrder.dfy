/** What a transaction does, event by event, and in which order, whatever became
    of it. */
module DeploymentOrder {
  import opened Outcomes
  import opened Releases
  import opened DeploymentLedger
  import opened DeploymentProtocol
  import opened ControllerRuns

  // ------------------------------------------------------------------
  // Event by event: what comes before the authority is touched, ...

  lemma StagingPreparation(p: Plan)
    requires p.environment.Staging? && !p.changed
    ensures Preparation(p) == [
      Wrote(ReleaseAuthenticated), Begun(Validate), Finished(Validate),
      Journaled, Wrote(AuthorityChanging)]
  {
  }

  lemma StagingMigrationPreparation(p: Plan)
    requires p.environment.Staging? && p.changed
    ensures Preparation(p) == [
      Wrote(ReleaseAuthenticated), Begun(Validate), Finished(Validate),
      Begun(CreateBackup), Finished(CreateBackup), Wrote(BackupVerified),
      Journaled, Wrote(AuthorityChanging)]
  {
  }

  lemma ProductionPreparation(p: Plan)
    requires p.environment.Production? && !p.changed
    ensures Preparation(p) == [
      Wrote(ReleaseAuthenticated), Begun(Validate), Finished(Validate), StagingProven,
      Journaled, Wrote(AuthorityChanging)]
  {
  }

  lemma ProductionMigrationPreparation(p: Plan)
    requires p.environment.Production? && p.changed
    ensures Preparation(p) == [
      Wrote(ReleaseAuthenticated), Begun(Validate), Finished(Validate), StagingProven,
      Begun(Health), Finished(Health), Wrote(ProductionCurrentVerified),
      Begun(CreateBackup), Finished(CreateBackup), Receipt(p.context.backupId), Wrote(ProductionBackupDeepVerified),
      Evidence(p.context), Wrote(OffserverDurabilityConfirmed),
      Journaled, Wrote(AuthorityChanging)]
  {
  }

  // ------------------------------------------------------------------
  // ... what comes after it, and the rollback.

  lemma ActivationSteps(p: Plan)
    ensures BeforeMigration(p) == [
      Activating, Activated, Wrote(AuthorityActive),
      Begun(Pull), Finished(Pull), Wrote(ImagesPulled),
      Begun(DeployDatabase), Finished(DeployDatabase), Wrote(DatabaseReady)]
  {
  }

  lemma MigrationSteps(p: Plan)
    ensures Migration(p) ==
      if p.changed then [Wrote(MigrationStarting), Begun(Migrate), Finished(Migrate), Wrote(MigrationCompleted)] else []
  {
  }

  lemma StagingRollout(p: Plan)
    requires p.environment.Staging?
    ensures Rollout(p) == [
      Begun(DeployApp), Finished(DeployApp), Wrote(ApplicationDeployed),
      Begun(DeployWorkers), Finished(DeployWorkers), Wrote(WorkersDeployed),
      Begun(DeployExporter), Finished(DeployExporter), Wrote(ExporterDeployed),
      Begun(Health), Finished(Health), Begun(IngressHealth), Finished(IngressHealth),
      Begun(PublicSmoke), Finished(PublicSmoke), Wrote(Verified)]
  {
  }

  lemma ProductionRollout(p: Plan)
    requires p.environment.Production?
    ensures Rollout(p) == [
      Begun(DeployApp), Finished(DeployApp), Wrote(ApplicationDeployed),
      Begun(DeployWorkers), Finished(DeployWorkers), Wrote(WorkersDeployed),
      Begun(Health), Finished(Health), Begun(IngressHealth), Finished(IngressHealth), Wrote(Verified)]
  {
  }

  /** The whole script. */
  lemma ScriptSteps(p: Plan)
    ensures Script(p) == Preparation(p) + (BeforeMigration(p) + (Migration(p) + Rollout(p)))
  {
    hide Preparation, Activation, Database, Migration, Rollout;
    assert Activation() + (Database() + Migration(p)) + Rollout(p)
      == (Activation() + Database()) + (Migration(p) + Rollout(p));
  }

  lemma RollbackSteps(p: Plan)
    ensures Rollback(p) ==
      if p.environment.Staging? then
        [Restoring, Restored, Begun(DeployApp), Finished(DeployApp), Begun(DeployWorkers), Finished(DeployWorkers),
         Begun(DeployExporter), Finished(DeployExporter), Wrote(RolledBack)]
      else
        [Restoring, Restored, Begun(DeployApp), Finished(DeployApp), Begun(DeployWorkers), Finished(DeployWorkers),
         Wrote(RolledBack)]
  {
  }

  // ------------------------------------------------------------------
  // Order.

  /** These are positions of `xs` in `events`, one after the other. */
  predicate Places(xs: seq<Event>, events: seq<Event>, places: seq<nat>) {
    && |places| == |xs|
    && (forall k :: 0 <= k < |xs| ==> places[k] < |events| && events[places[k]] == xs[k])
    && forall k, l :: 0 <= k < l < |xs| ==> places[k] < places[l]
  }

  /** `xs` happened in this order. */
  ghost predicate InTurn(xs: seq<Event>, events: seq<Event>) {
    exists places :: Places(xs, events, places)
  }

  /** Before every `y`, `xs` happened in this order. */
  ghost predicate Heralded(xs: seq<Event>, y: Event, events: seq<Event>) {
    forall j :: 0 <= j < |events| && events[j] == y ==> InTurn(xs, events[..j])
  }

  /** After every `x` there is a `y`. */
  ghost predicate Followed(x: Event, y: Event, events: seq<Event>) {
    forall j :: 0 <= j < |events| && events[j] == x ==> y in events[j..]
  }

  lemma FollowedOnce(x: Event, y: Event, events: seq<Event>, i: nat, j: nat)
    requires i <= j < |events| && events[j] == y && forall k :: 0 <= k < |events| && events[k] == x ==> k == i
    ensures Followed(x, y, events)
  {
    assert events[i..][j - i] == y;
  }

  lemma FollowedAfter(x: Event, y: Event, before: seq<Event>, events: seq<Event>)
    requires Followed(x, y, events) && x !in before
    ensures Followed(x, y, before + events)
  {
    forall j | 0 <= j < |before + events| && (before + events)[j] == x
      ensures y in (before + events)[j..]
    {
      assert events[j - |before|] == x;
      assert (before + events)[j..] == events[j - |before|..];
    }
  }

  /** One list of positions in a sequence where `y` occurs once. */
  lemma HeraldedOnce(xs: seq<Event>, y: Event, events: seq<Event>, j: nat, places: seq<nat>)
    requires j < |events| && (forall i :: 0 <= i < |events| && events[i] == y ==> i == j)
    requires Places(xs, events, places) && forall k :: 0 <= k < |xs| ==> places[k] < j
    ensures Heralded(xs, y, events)
  {
    assert Places(xs, events[..j], places);
  }

  lemma HeraldedInPrefix(xs: seq<Event>, y: Event, events: seq<Event>, whole: seq<Event>)
    requires Heralded(xs, y, whole) && events <= whole
    ensures Heralded(xs, y, events)
  {
    forall j | 0 <= j < |events| && events[j] == y
      ensures InTurn(xs, events[..j])
    {
      assert whole[j] == y && events[..j] == whole[..j];
    }
  }

  lemma HeraldedBefore(xs: seq<Event>, y: Event, events: seq<Event>, rest: seq<Event>)
    requires Heralded(xs, y, events) && y !in rest
    ensures Heralded(xs, y, events + rest)
  {
    forall j | 0 <= j < |events + rest| && (events + rest)[j] == y
      ensures InTurn(xs, (events + rest)[..j])
    {
      assert j < |events|;
      assert (events + rest)[..j] == events[..j];
    }
  }

  lemma HeraldedAfter(xs: seq<Event>, y: Event, events: seq<Event>, rest: seq<Event>)
    requires Heralded(xs, y, rest) && y !in events
    ensures Heralded(xs, y, events + rest)
  {
    forall j | 0 <= j < |events + rest| && (events + rest)[j] == y
      ensures InTurn(xs, (events + rest)[..j])
    {
      var i := j - |events|;
      assert rest[i] == y;
      var places :| Places(xs, rest[..i], places);
      assert Places(xs, (events + rest)[..j], seq(|xs|, k requires 0 <= k < |xs| => |events| + places[k]));
    }
  }

  lemma HeraldedBoth(first: seq<Event>, second: seq<Event>, y: Event, before: seq<Event>, events: seq<Event>)
    requires InTurn(first, before) && Heralded(second, y, events) && y !in before
    ensures Heralded(first + second, y, before + events)
  {
    forall j | 0 <= j < |before + events| && (before + events)[j] == y
      ensures InTurn(first + second, (before + events)[..j])
    {
      var i := j - |before|;
      assert events[i] == y;
      var a :| Places(first, before, a);
      var b :| Places(second, events[..i], b);
      var places := seq(|first + second|, k requires 0 <= k < |first + second| =>
        if k < |first| then a[k] else |before| + b[k - |first|]);
      assert Places(first + second, (before + events)[..j], places);
    }
  }

  lemma HeraldedAlong(p: Plan, events: seq<Event>, forward: nat, xs: seq<Event>, y: Event)
    requires Follows(p, events, forward) && Heralded(xs, y, Script(p)) && y !in Rollback(p)
    ensures Heralded(xs, y, events)
  {
    hide Script, Rollback, Heralded, Preparation, BeforeMigration;
    var s, b := events[..forward], events[forward..];
    assert events == s + b;
    Kept(b, Rollback(p));
    HeraldedInPrefix(xs, y, s, Script(p));
    HeraldedBefore(xs, y, s, b);
  }

  lemma InTurnAt(xs: seq<Event>, events: seq<Event>, places: seq<nat>)
    requires Places(xs, events, places)
    ensures InTurn(xs, events)
  {
  }

  // ------------------------------------------------------------------
  // In every transaction, however far it came and however it ended.

  /** The services are deployed and then probed before `verified` is written. */
  lemma VerifiedAfterProbes(p: Plan, events: seq<Event>, forward: nat)
    requires Follows(p, events, forward)
    ensures p.environment.Staging? ==>
      Heralded([Finished(DeployApp), Finished(DeployWorkers), Finished(DeployExporter), Finished(Health),
                Finished(IngressHealth), Finished(PublicSmoke)], Wrote(Verified), events)
    ensures p.environment.Production? ==>
      Heralded([Finished(DeployApp), Finished(DeployWorkers), Finished(Health), Finished(IngressHealth)],
               Wrote(Verified), events)
  {
    hide Rollout, Follows, Heralded, OnlyInRollout;
    VerifiedOnlyInRollout(p);
    if p.environment.Staging? {
      StagingRollout(p);
      HeraldedOnce([Finished(DeployApp), Finished(DeployWorkers), Finished(DeployExporter), Finished(Health),
                    Finished(IngressHealth), Finished(PublicSmoke)], Wrote(Verified), Rollout(p), 15,
                   [1, 4, 7, 10, 12, 14]);
      HeraldedInRollout(p, events, forward, [Finished(DeployApp), Finished(DeployWorkers), Finished(DeployExporter),
        Finished(Health), Finished(IngressHealth), Finished(PublicSmoke)], Wrote(Verified));
    } else {
      ProductionRollout(p);
      HeraldedOnce([Finished(DeployApp), Finished(DeployWorkers), Finished(Health), Finished(IngressHealth)],
                   Wrote(Verified), Rollout(p), 10, [1, 4, 7, 9]);
      HeraldedInRollout(p, events, forward, [Finished(DeployApp), Finished(DeployWorkers), Finished(Health),
        Finished(IngressHealth)], Wrote(Verified));
    }
  }

  /** Nothing of the rollout that is not of the rollback happens earlier. */
  predicate OnlyInRollout(p: Plan, y: Event) {
    y !in Preparation(p) && y !in BeforeMigration(p) && y !in Migration(p) && y !in Rollback(p)
  }

  lemma VerifiedOnlyInRollout(p: Plan)
    ensures OnlyInRollout(p, Wrote(Verified)) && OnlyInRollout(p, Wrote(ApplicationDeployed))
  {
    hide Preparation, Rollback, Migration, BeforeMigration;
    ActivationSteps(p);
    MigrationSteps(p);
    RollbackSteps(p);
    if p.environment.Staging? {
      if p.changed { StagingMigrationPreparation(p); } else { StagingPreparation(p); }
    } else {
      if p.changed { ProductionMigrationPreparation(p); } else { ProductionPreparation(p); }
    }
  }

  lemma HeraldedInRollout(p: Plan, events: seq<Event>, forward: nat, xs: seq<Event>, y: Event)
    requires Follows(p, events, forward) && Heralded(xs, y, Rollout(p)) && OnlyInRollout(p, y)
    ensures Heralded(xs, y, events)
  {
    hide Preparation, BeforeMigration, Migration, Rollout, Rollback, Follows, Heralded, Script;
    HeraldedAfter(xs, y, Migration(p), Rollout(p));
    HeraldedAfter(xs, y, BeforeMigration(p), Migration(p) + Rollout(p));
    HeraldedAfter(xs, y, Preparation(p), BeforeMigration(p) + (Migration(p) + Rollout(p)));
    ScriptSteps(p);
    HeraldedAlong(p, events, forward, xs, y);
  }

  // ------------------------------------------------------------------
  // Each part by itself.

  /** The preparation knows none of these. */
  predicate Early(p: Plan, y: Event) {
    y !in Preparation(p)
  }

  lemma PreparationLacks(p: Plan)
    ensures Early(p, Begun(Migrate)) && Early(p, Activating)
    ensures Early(p, Begun(DeployApp)) && Early(p, Wrote(RolledBack))
  {
    hide Preparation;
    if p.environment.Staging? {
      if p.changed { StagingMigrationPreparation(p); } else { StagingPreparation(p); }
    } else {
      if p.changed { ProductionMigrationPreparation(p); } else { ProductionPreparation(p); }
    }
  }

  lemma PreparationJournalsLast(p: Plan)
    ensures InTurn([Finished(Validate), Journaled, Wrote(AuthorityChanging)], Preparation(p))
  {
    hide Preparation, InTurn;
    var xs := [Finished(Validate), Journaled, Wrote(AuthorityChanging)];
    if p.environment.Staging? {
      if p.changed {
        StagingMigrationPreparation(p);
        InTurnAt(xs, Preparation(p), [2, 6, 7]);
      } else {
        StagingPreparation(p);
        InTurnAt(xs, Preparation(p), [2, 3, 4]);
      }
    } else {
      if p.changed {
        ProductionMigrationPreparation(p);
        InTurnAt(xs, Preparation(p), [2, 13, 14]);
      } else {
        ProductionPreparation(p);
        InTurnAt(xs, Preparation(p), [2, 4, 5]);
      }
    }
  }

  lemma StagingBacksUp(p: Plan)
    requires p.environment.Staging? && p.changed
    ensures InTurn([Finished(CreateBackup), Wrote(BackupVerified), Journaled, Wrote(AuthorityChanging)], Preparation(p))
  {
    hide Preparation, InTurn;
    StagingMigrationPreparation(p);
    InTurnAt([Finished(CreateBackup), Wrote(BackupVerified), Journaled, Wrote(AuthorityChanging)], Preparation(p),
             [4, 5, 6, 7]);
  }

  lemma ProductionBacksUp(p: Plan)
    requires p.environment.Production? && p.changed
    ensures InTurn([StagingProven, Finished(Health), Finished(CreateBackup), Receipt(p.context.backupId),
                    Evidence(p.context), Journaled, Wrote(AuthorityChanging)], Preparation(p))
  {
    hide Preparation, InTurn;
    ProductionMigrationPreparation(p);
    InTurnAt([StagingProven, Finished(Health), Finished(CreateBackup), Receipt(p.context.backupId),
              Evidence(p.context), Journaled, Wrote(AuthorityChanging)], Preparation(p), [3, 5, 8, 9, 11, 13, 14]);
  }

  lemma ActivationHas(p: Plan)
    ensures Begun(Migrate) !in BeforeMigration(p) && Begun(DeployApp) !in BeforeMigration(p)
    ensures Wrote(RolledBack) !in BeforeMigration(p)
    ensures InTurn([Activated, Wrote(AuthorityActive), Finished(Pull), Finished(DeployDatabase)], BeforeMigration(p))
    ensures Heralded([], Activating, BeforeMigration(p))
  {
    hide Heralded, InTurn, BeforeMigration;
    ActivationSteps(p);
    InTurnAt([Activated, Wrote(AuthorityActive), Finished(Pull), Finished(DeployDatabase)], BeforeMigration(p),
             [1, 2, 4, 7]);
    HeraldedOnce([], Activating, BeforeMigration(p), 0, []);
  }

  lemma MigrationHas(p: Plan)
    ensures Activating !in Migration(p) && Begun(DeployApp) !in Migration(p) && Wrote(RolledBack) !in Migration(p)
    ensures Heralded([Wrote(MigrationStarting)], Begun(Migrate), Migration(p))
    ensures p.changed ==> InTurn([Wrote(MigrationStarting), Finished(Migrate), Wrote(MigrationCompleted)], Migration(p))
  {
    hide InTurn, Migration;
    MigrationSteps(p);
    if p.changed {
      HeraldedOnce([Wrote(MigrationStarting)], Begun(Migrate), Migration(p), 1, [0]);
      InTurnAt([Wrote(MigrationStarting), Finished(Migrate), Wrote(MigrationCompleted)], Migration(p), [0, 2, 3]);
    }
  }

  lemma RolloutLacks(p: Plan)
    ensures Begun(Migrate) !in Rollout(p) && Activating !in Rollout(p) && Wrote(RolledBack) !in Rollout(p)
  {
    hide Rollout;
    if p.environment.Staging? { StagingRollout(p); } else { ProductionRollout(p); }
  }

  lemma RolloutHas(p: Plan)
    ensures Heralded([Begun(DeployApp), Finished(DeployApp)], Wrote(ApplicationDeployed), Rollout(p))
    ensures Heralded([], Begun(DeployApp), Rollout(p))
  {
    hide Rollout, Heralded;
    if p.environment.Staging? { StagingRollout(p); } else { ProductionRollout(p); }
    HeraldedOnce([Begun(DeployApp), Finished(DeployApp)], Wrote(ApplicationDeployed), Rollout(p), 2, [0, 1]);
    HeraldedOnce([], Begun(DeployApp), Rollout(p), 0, []);
  }

  lemma RollbackLacks(p: Plan)
    ensures Begun(Migrate) !in Rollback(p) && Activating !in Rollback(p)
  {
    hide Rollback;
    RollbackSteps(p);
  }

  lemma RollbackHas(p: Plan)
    ensures p.environment.Production? ==>
      Heralded([Restoring, Restored, Finished(DeployApp), Finished(DeployWorkers)], Wrote(RolledBack), Rollback(p))
    ensures p.environment.Staging? ==>
      Heralded([Restoring, Restored, Finished(DeployApp), Finished(DeployWorkers), Finished(DeployExporter)],
               Wrote(RolledBack), Rollback(p))
    ensures Wrote(RolledBack) in Rollback(p)
  {
    hide Rollback, Heralded;
    RollbackSteps(p);
    if p.environment.Staging? {
      assert Rollback(p)[8] == Wrote(RolledBack);
      HeraldedOnce([Restoring, Restored, Finished(DeployApp), Finished(DeployWorkers), Finished(DeployExporter)],
                   Wrote(RolledBack), Rollback(p), 8, [0, 1, 3, 5, 7]);
    } else {
      assert Rollback(p)[6] == Wrote(RolledBack);
      HeraldedOnce([Restoring, Restored, Finished(DeployApp), Finished(DeployWorkers)], Wrote(RolledBack), Rollback(p),
                   6, [0, 1, 3, 5]);
    }
  }

  // ------------------------------------------------------------------
  // Over the whole script.

  /** What is heralded where the authority is touched, after what the preparation
      did before. */
  lemma HeraldedInScript(p: Plan, first: seq<Event>, xs: seq<Event>, y: Event)
    requires InTurn(first, Preparation(p)) && Early(p, y)
    requires Heralded(xs, y, BeforeMigration(p) + (Migration(p) + Rollout(p)))
    ensures Heralded(first + xs, y, Script(p))
  {
    hide Preparation, BeforeMigration, Migration, Rollout, Heralded, InTurn, Script;
    HeraldedBoth(first, xs, y, Preparation(p), BeforeMigration(p) + (Migration(p) + Rollout(p)));
    ScriptSteps(p);
  }

  lemma ActivatingInScript(p: Plan)
    ensures Heralded([Finished(Validate), Journaled, Wrote(AuthorityChanging)], Activating, Script(p))
  {
    hide Preparation, BeforeMigration, Migration, Rollout, Heralded, InTurn, Script;
    PreparationLacks(p);
    PreparationJournalsLast(p);
    ActivationHas(p);
    MigrationHas(p);
    RolloutLacks(p);
    HeraldedBefore([], Activating, BeforeMigration(p), Migration(p) + Rollout(p));
    var xs := [Finished(Validate), Journaled, Wrote(AuthorityChanging)];
    HeraldedInScript(p, xs, [], Activating);
    assert xs + [] == xs;
  }

  lemma MigratingInScript(p: Plan, first: seq<Event>)
    requires InTurn(first, Preparation(p))
    ensures Heralded(first + ([Activated, Wrote(AuthorityActive), Finished(Pull), Finished(DeployDatabase)]
                              + [Wrote(MigrationStarting)]), Begun(Migrate), Script(p))
  {
    hide Preparation, BeforeMigration, Migration, Rollout, Heralded, InTurn, Script;
    PreparationLacks(p);
    ActivationHas(p);
    MigrationHas(p);
    RolloutLacks(p);
    HeraldedBefore([Wrote(MigrationStarting)], Begun(Migrate), Migration(p), Rollout(p));
    var second := [Activated, Wrote(AuthorityActive), Finished(Pull), Finished(DeployDatabase)];
    HeraldedBoth(second, [Wrote(MigrationStarting)], Begun(Migrate), BeforeMigration(p), Migration(p) + Rollout(p));
    HeraldedInScript(p, first, second + [Wrote(MigrationStarting)], Begun(Migrate));
  }

  /** With another fingerprint: `y` of the rollout comes after the migration. */
  lemma ServicesInScript(p: Plan, xs: seq<Event>, y: Event)
    requires p.changed && Early(p, y) && y !in BeforeMigration(p) && y !in Migration(p) && Heralded(xs, y, Rollout(p))
    ensures Heralded([Wrote(MigrationStarting), Finished(Migrate), Wrote(MigrationCompleted)] + xs, y, Script(p))
  {
    hide Preparation, BeforeMigration, Migration, Rollout, Heralded, InTurn, Script;
    MigrationHas(p);
    var first := [Wrote(MigrationStarting), Finished(Migrate), Wrote(MigrationCompleted)];
    HeraldedBoth(first, xs, y, Migration(p), Rollout(p));
    HeraldedAfter(first + xs, y, BeforeMigration(p), Migration(p) + Rollout(p));
    HeraldedAfter(first + xs, y, Preparation(p), BeforeMigration(p) + (Migration(p) + Rollout(p)));
    ScriptSteps(p);
  }

  // ------------------------------------------------------------------
  // In every transaction, again.

  /** The authority is touched only once it was validated, journaled and announced. */
  lemma ActivatingAfterJournal(p: Plan, events: seq<Event>, forward: nat)
    requires Follows(p, events, forward)
    ensures Heralded([Finished(Validate), Journaled, Wrote(AuthorityChanging)], Activating, events)
  {
    hide Follows, Heralded, Script;
    ActivatingInScript(p);
    RollbackLacks(p);
    HeraldedAlong(p, events, forward, [Finished(Validate), Journaled, Wrote(AuthorityChanging)], Activating);
  }

  /** A migration begins only after the backup, the journal, the activation and its
      own announcement; on Production also after health, receipt and evidence. */
  lemma MigratingAfterBackup(p: Plan, events: seq<Event>, forward: nat)
    requires Follows(p, events, forward) && p.changed
    ensures p.environment.Staging? ==>
      Heralded([Finished(CreateBackup), Wrote(BackupVerified), Journaled, Wrote(AuthorityChanging), Activated,
                Wrote(AuthorityActive), Finished(Pull), Finished(DeployDatabase), Wrote(MigrationStarting)],
               Begun(Migrate), events)
    ensures p.environment.Production? ==>
      Heralded([StagingProven, Finished(Health), Finished(CreateBackup), Receipt(p.context.backupId),
                Evidence(p.context), Journaled, Wrote(AuthorityChanging), Activated, Wrote(AuthorityActive),
                Finished(Pull), Finished(DeployDatabase), Wrote(MigrationStarting)], Begun(Migrate), events)
  {
    hide Follows, Heralded, Script, InTurn, Preparation;
    RollbackLacks(p);
    var rest := [Activated, Wrote(AuthorityActive), Finished(Pull), Finished(DeployDatabase)]
      + [Wrote(MigrationStarting)];
    if p.environment.Staging? {
      var first := [Finished(CreateBackup), Wrote(BackupVerified), Journaled, Wrote(AuthorityChanging)];
      StagingBacksUp(p);
      MigratingInScript(p, first);
      HeraldedAlong(p, events, forward, first + rest, Begun(Migrate));
      assert first + rest ==
        [Finished(CreateBackup), Wrote(BackupVerified), Journaled, Wrote(AuthorityChanging), Activated,
         Wrote(AuthorityActive), Finished(Pull), Finished(DeployDatabase), Wrote(MigrationStarting)];
    } else {
      var first := [StagingProven, Finished(Health), Finished(CreateBackup), Receipt(p.context.backupId),
                    Evidence(p.context), Journaled, Wrote(AuthorityChanging)];
      ProductionBacksUp(p);
      MigratingInScript(p, first);
      HeraldedAlong(p, events, forward, first + rest, Begun(Migrate));
      assert first + rest ==
        [StagingProven, Finished(Health), Finished(CreateBackup), Receipt(p.context.backupId), Evidence(p.context),
         Journaled, Wrote(AuthorityChanging), Activated, Wrote(AuthorityActive), Finished(Pull),
         Finished(DeployDatabase), Wrote(MigrationStarting)];
    }
  }

  /** With another fingerprint the services are deployed only after the migration has
      returned and was recorded; before any rollback this holds of their beginning. */
  lemma ServicesAfterMigration(p: Plan, events: seq<Event>, forward: nat)
    requires Follows(p, events, forward) && p.changed
    ensures Heralded([Wrote(MigrationStarting), Finished(Migrate), Wrote(MigrationCompleted), Begun(DeployApp),
                      Finished(DeployApp)], Wrote(ApplicationDeployed), events)
    ensures Heralded([Wrote(MigrationStarting), Finished(Migrate), Wrote(MigrationCompleted)], Begun(DeployApp),
                     events[..forward])
  {
    hide Heralded, Script, InTurn, Preparation, Rollout, BeforeMigration, Migration, Rollback;
    var first := [Wrote(MigrationStarting), Finished(Migrate), Wrote(MigrationCompleted)];
    var deployed := [Begun(DeployApp), Finished(DeployApp)];
    RolloutHas(p);
    VerifiedOnlyInRollout(p);
    PreparationLacks(p);
    ServicesInScript(p, deployed, Wrote(ApplicationDeployed));
    HeraldedAlong(p, events, forward, first + deployed, Wrote(ApplicationDeployed));
    assert first + deployed == [Wrote(MigrationStarting), Finished(Migrate), Wrote(MigrationCompleted),
                                Begun(DeployApp), Finished(DeployApp)];
    ServicesAfterMigrationInScript(p);
    HeraldedInPrefix(first, Begun(DeployApp), events[..forward], Script(p));
  }

  /** A rollback is recorded only once the former release is back in place and its
      services are deployed again. */
  lemma RolledBackAfterRestore(p: Plan, events: seq<Event>, forward: nat)
    requires Follows(p, events, forward)
    ensures p.environment.Production? ==>
      Heralded([Restoring, Restored, Finished(DeployApp), Finished(DeployWorkers)], Wrote(RolledBack), events)
    ensures p.environment.Staging? ==>
      Heralded([Restoring, Restored, Finished(DeployApp), Finished(DeployWorkers), Finished(DeployExporter)],
               Wrote(RolledBack), events)
  {
    hide Heralded, Preparation, Rollout, BeforeMigration, Migration, Rollback, Script;
    var s, b := events[..forward], events[forward..];
    assert events == s + b;
    PreparationLacks(p);
    ActivationHas(p);
    MigrationHas(p);
    RolloutLacks(p);
    ScriptSteps(p);
    Kept(s, Script(p));
    RollbackHas(p);
    var xs := if p.environment.Production? then [Restoring, Restored, Finished(DeployApp), Finished(DeployWorkers)]
      else [Restoring, Restored, Finished(DeployApp), Finished(DeployWorkers), Finished(DeployExporter)];
    HeraldedInPrefix(xs, Wrote(RolledBack), b, Rollback(p));
    HeraldedAfter(xs, Wrote(RolledBack), s, b);
  }

  // ------------------------------------------------------------------
  // What a record stands for.

  /** A new success has done everything, and has probed what it deployed. */
  lemma SuccessIsVerified(policy: Policy, w: World, w': World, identity: Identity)
    requires Executes(policy, w, w', identity) && NewRecord(w, w').outcome.Success?
    ensures var events := NewAttempt(w, w').events;
      && Wrote(Verified) in events
      && Followed(Finished(DeployWorkers), Finished(Health), events)
      && Followed(Finished(DeployWorkers), Finished(IngressHealth), events)
      && (identity.environment.Staging? ==>
        Heralded([Finished(DeployApp), Finished(DeployWorkers), Finished(DeployExporter), Finished(Health),
                  Finished(IngressHealth), Finished(PublicSmoke)], Wrote(Verified), events))
      && (identity.environment.Production? ==>
        Heralded([Finished(DeployApp), Finished(DeployWorkers), Finished(Health), Finished(IngressHealth)],
                 Wrote(Verified), events))
      && (NewAttempt(w, w').plan.changed ==>
        && Heralded([Wrote(MigrationStarting), Finished(Migrate), Wrote(MigrationCompleted)], Begun(DeployApp), events)
        && Begun(Migrate) in events)
  {
    hide Heralded, Journals, Evidenced, Registered, Rollout, Preparation, BeforeMigration, Migration, Rollback;
    var a, environment := NewAttempt(w, w'), identity.environment;
    assert Transacted(policy, w.records, w.At(environment), w'.At(environment), a, NewRecord(w, w'));
    assert a.events == Script(a.plan) && Planned(policy, w.At(environment), identity, a.plan);
    VerifiedAfterProbes(a.plan, a.events, a.forward);
    ScriptEnds(a.plan);
    ProbesFollow(a.plan);
    if a.plan.changed {
      ServicesAfterMigrationInScript(a.plan);
    }
  }

  lemma ProbesFollow(p: Plan)
    ensures Followed(Finished(DeployWorkers), Finished(Health), Script(p))
    ensures Followed(Finished(DeployWorkers), Finished(IngressHealth), Script(p))
  {
    hide Preparation, BeforeMigration, Migration, Rollout, Script, Followed;
    var x := Finished(DeployWorkers);
    RolloutFollows(p);
    WorkersOnlyInRollout(p);
    ScriptSteps(p);
    forall y | y in {Finished(Health), Finished(IngressHealth)}
      ensures Followed(x, y, Script(p))
    {
      FollowedAfter(x, y, Migration(p), Rollout(p));
      FollowedAfter(x, y, BeforeMigration(p), Migration(p) + Rollout(p));
      FollowedAfter(x, y, Preparation(p), BeforeMigration(p) + (Migration(p) + Rollout(p)));
    }
  }

  lemma RolloutFollows(p: Plan)
    ensures Followed(Finished(DeployWorkers), Finished(Health), Rollout(p))
    ensures Followed(Finished(DeployWorkers), Finished(IngressHealth), Rollout(p))
  {
    hide Rollout, Followed;
    if p.environment.Staging? {
      StagingRollout(p);
      FollowedOnce(Finished(DeployWorkers), Finished(Health), Rollout(p), 4, 10);
      FollowedOnce(Finished(DeployWorkers), Finished(IngressHealth), Rollout(p), 4, 12);
    } else {
      ProductionRollout(p);
      FollowedOnce(Finished(DeployWorkers), Finished(Health), Rollout(p), 4, 7);
      FollowedOnce(Finished(DeployWorkers), Finished(IngressHealth), Rollout(p), 4, 9);
    }
  }

  lemma WorkersOnlyInRollout(p: Plan)
    ensures var x := Finished(DeployWorkers);
      x !in Preparation(p) && x !in BeforeMigration(p) && x !in Migration(p)
  {
    hide Preparation, BeforeMigration, Migration;
    ActivationSteps(p);
    MigrationSteps(p);
    if p.environment.Staging? {
      if p.changed { StagingMigrationPreparation(p); } else { StagingPreparation(p); }
    } else {
      if p.changed { ProductionMigrationPreparation(p); } else { ProductionPreparation(p); }
    }
  }

  lemma ScriptEnds(p: Plan)
    ensures Wrote(Verified) in Script(p) && (p.changed ==> Begun(Migrate) in Script(p)) && Script(p) != []
    ensures !p.changed ==> Begun(Migrate) !in Script(p)
  {
    hide Preparation, BeforeMigration, Migration, Rollout, Script;
    ScriptSteps(p);
    MigrationSteps(p);
    PreparationLacks(p);
    ActivationHas(p);
    RolloutLacks(p);
    if p.environment.Staging? {
      StagingRollout(p);
      assert Rollout(p)[15] == Wrote(Verified);
    } else {
      ProductionRollout(p);
      assert Rollout(p)[10] == Wrote(Verified);
    }
    assert p.changed ==> Migration(p)[1] == Begun(Migrate);
  }

  lemma ServicesAfterMigrationInScript(p: Plan)
    requires p.changed
    ensures Heralded([Wrote(MigrationStarting), Finished(Migrate), Wrote(MigrationCompleted)], Begun(DeployApp),
                     Script(p))
  {
    hide Heralded, Script, InTurn, Preparation, Rollout, BeforeMigration, Migration;
    var first := [Wrote(MigrationStarting), Finished(Migrate), Wrote(MigrationCompleted)];
    RolloutHas(p);
    PreparationLacks(p);
    ActivationHas(p);
    MigrationHas(p);
    ServicesInScript(p, [], Begun(DeployApp));
    assert first + [] == first;
  }

  /** A new record that says rolled-back stands for a restored and redeployed release. */
  lemma RolledBackIsRedeployed(policy: Policy, w: World, w': World, identity: Identity)
    requires Executes(policy, w, w', identity)
    requires NewRecord(w, w').outcome.Failure? && NewRecord(w, w').phase.RolledBack?
    ensures var events := NewAttempt(w, w').events;
      && Wrote(RolledBack) in events
      && (identity.environment.Production? ==>
        Heralded([Restoring, Restored, Finished(DeployApp), Finished(DeployWorkers)], Wrote(RolledBack), events))
      && (identity.environment.Staging? ==>
        Heralded([Restoring, Restored, Finished(DeployApp), Finished(DeployWorkers), Finished(DeployExporter)],
                 Wrote(RolledBack), events))
  {
    hide Heralded, Journals, Evidenced, Registered, Script, Preparation, BeforeMigration, Migration, Rollback;
    var a, environment := NewAttempt(w, w'), identity.environment;
    assert Transacted(policy, w.records, w.At(environment), w'.At(environment), a, NewRecord(w, w'));
    assert a.events != [];
    assert a.events[a.forward..] == Rollback(a.plan);
    RolledBackAfterRestore(a.plan, a.events, a.forward);
    RollbackHas(a.plan);
    assert a.events == a.events[..a.forward] + a.events[a.forward..];
  }
}
