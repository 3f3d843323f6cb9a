/** What can happen: steps from any ready submission, each with the journal, the
    record and the evidence that the controller leaves, and what they imply. */
module ControllerExamples {
  import opened Newlines
  import opened Outcomes
  import opened Releases
  import opened DeploymentJournal
  import opened DeploymentLedger
  import opened DeploymentProtocol
  import opened ControllerRuns
  import opened DeploymentOrder
  import DurabilityEvidence

  lemma InOneOf(a: seq<Event>, b: seq<Event>, e: Event)
    requires e in a || e in b
    ensures e in a + b
  {
  }

  lemma ScriptMigratesIfChanged(p: Plan)
    ensures Script(p) != [] && Activating in Script(p)
    ensures p.changed <==> Begun(Migrate) in Script(p)
    ensures p.changed ==> Finished(Migrate) in Script(p)
  {
    hide Preparation, BeforeMigration, Migration, Rollout, Script;
    ScriptEnds(p);
    ScriptSteps(p);
    MigrationSteps(p);
    ActivationSteps(p);
    assert BeforeMigration(p)[0] == Activating;
    assert p.changed ==> Migration(p)[2] == Finished(Migrate);
  }

  /** The ledger opens a record for the submission, the plan fits the authority
      that is found, that authority and the target are complete, nothing stands
      where the journal goes, and Production has its Staging success. */
  predicate Ready(policy: Policy, w: World, identity: Identity, p: Plan) {
    var h, environment := w.At(identity.environment), identity.environment;
    && Decide(w.records, identity).New?
    && Planned(policy, h, identity, p)
    && Authoritative(policy, h.active) && Provisioned(h, environment)
    && Usable(environment, Former(h, environment)) && Usable(environment, p.target)
    && identity.deploymentId !in w.journals
    && (environment.Production? ==> StagingSuccess(w.records, identity.manifest))
  }

  /** The evidence that there is when the authority is touched. */
  ghost predicate Proven(w: World, p: Plan, evidence: DurabilityEvidence.Files) {
    && DurabilityEvidence.Kept(w.evidence, evidence)
    && (p.environment.Production? && p.changed ==> DurabilityEvidence.Obtained(w.evidence, evidence, p.context))
  }

  /** The record of the submission once it is prepared. */
  function Filed(policy: Policy, w: World, identity: Identity, p: Plan): Record
    requires Ready(policy, w, identity, p)
  {
    var facts := policy[w.At(identity.environment).active[ManifestFile]];
    Opened(identity, Some(facts.sha256), Some(facts.fingerprint), New).(
      phase := AuthorityChanging, targetFingerprint := Some(p.context.target),
      backupId := if p.environment.Production? && p.changed then Some(p.context.backupId) else None)
  }

  /** What the journal of the submission holds. */
  function Kept(w: World, identity: Identity, p: Plan): Journal
    requires var h, environment := w.At(identity.environment), identity.environment;
      Provisioned(h, environment) && Usable(environment, Former(h, environment)) && Usable(environment, p.target)
  {
    CompleteJournal(identity.environment, p.target, Former(w.At(identity.environment), identity.environment))
  }

  /** The world after the attempt `a` with the record `r`. */
  function Entered(w: World, after: HostState, a: Attempt, r: Record, journal: Journal,
      evidence: DurabilityEvidence.Files): World {
    var next := w.(records := w.records + [r], history := w.history + [a], evidence := evidence,
                   journals := w.journals[r.identity.deploymentId := journal]);
    if r.identity.environment.Staging? then next.(staging := after) else next.(production := after)
  }

  /** The journal of the submission is complete and returns what was there. */
  ghost predicate JournalWritten(w: World, w': World, identity: Identity) {
    && identity.deploymentId in w'.journals && Marked(w'.journals[identity.deploymentId])
    && Returns(w'.journals[identity.deploymentId], w.At(identity.environment), identity.environment)
  }

  lemma EnteredIsStep(policy: Policy, w: World, after: HostState, a: Attempt, r: Record,
      evidence: DurabilityEvidence.Files) returns (w': World)
    requires Ready(policy, w, r.identity, a.plan) && Proven(w, a.plan, evidence) && a.events != []
    requires a.identity == r.identity && Transacted(policy, w.records, w.At(r.identity.environment), after, a, r)
    ensures w' == Entered(w, after, a, r, Kept(w, r.identity, a.plan), evidence)
    ensures Step(policy, w, w', Execution(r.identity)) && JournalWritten(w, w', r.identity)
  {
    hide Transacted, DurabilityEvidence.Obtained, DurabilityEvidence.Kept, Decide, Planned;
    hide Usable, Authoritative, CompleteJournal, PreviousMaterial, Former;
    var h, environment := w.At(r.identity.environment), r.identity.environment;
    w' := Entered(w, after, a, r, Kept(w, r.identity, a.plan), evidence);
    CompleteJournalReturns(environment, a.plan.target, Former(h, environment));
    assert Returns(w'.journals[r.identity.deploymentId], h, environment);
  }

  /** A transaction that went past its preparation, in terms of what differs from
      one such transaction to another. */
  lemma ReadyTransacts(policy: Policy, w: World, after: HostState, a: Attempt, r: Record)
    requires Ready(policy, w, a.identity, a.plan) && Follows(a.plan, a.events, a.forward) && Activating in a.events
    requires var filed := Filed(policy, w, a.identity, a.plan);
      !r.phase.Accepted? && r == filed.(phase := r.phase, migration := r.migration, outcome := r.outcome,
                                        result := r.result)
    requires Intact(policy, w.At(a.identity.environment), after.active, after.runtimes, a.plan.target)
    requires Restoring in a.events <==> Restores(a)
    requires PairFirst(w.At(a.identity.environment), after.active, after.runtimes, a.plan.target)
    requires after.database == w.At(a.identity.environment).database || Begun(Migrate) in a.events
    requires Ending(policy, w.At(a.identity.environment), after, a, r) && Announced(a.events, r.migration)
    ensures Transacted(policy, w.records, w.At(a.identity.environment), after, a, r)
  {
    hide Follows, Intact, PairFirst, Ending, Decide, Former, Usable, Restores, StagingSuccess, Announced;
    assert Authoritative(policy, w.At(a.identity.environment).active);
    assert a.events != [];
  }

  /** The target in place. */
  function OnceInstalled(h: HostState, p: Plan, database: Schema): HostState {
    HostState(Pair(p.target.manifest, p.target.checksum), h.runtimes + p.target.runtimes, database)
  }

  lemma OnceInstalledIsIntact(policy: Policy, h: HostState, environment: Environment, p: Plan, database: Schema)
    requires Authoritative(policy, h.active) && Provisioned(h, environment)
    requires p.target.runtimes.Keys == OwnedPaths(environment)
    ensures var after := OnceInstalled(h, p, database);
      && Intact(policy, h, after.active, after.runtimes, p.target)
      && PairFirst(h, after.active, after.runtimes, p.target)
  {
  }

  /** A migration is completed, and so is the transaction. */
  function Successful(identity: Identity, p: Plan): Attempt {
    Attempt(identity, p, Ended(Done, if p.changed then Completed else NeverStarted), |Script(p)|, Script(p))
  }

  function Closed(filed: Record, p: Plan): Record {
    SucceededRecord(filed.(migration := if p.changed then Completed else NeverStarted))
  }

  lemma SuccessTransacts(policy: Policy, w: World, identity: Identity, p: Plan, database: Schema)
    requires Ready(policy, w, identity, p)
    requires var found := w.At(identity.environment).database;
      if p.changed then Migrated(found, p.schema, database) else database == found
    ensures var h, r := w.At(identity.environment), Closed(Filed(policy, w, identity, p), p);
      Transacted(policy, w.records, h, OnceInstalled(h, p, database), Successful(identity, p), r)
  {
    hide Decide, Script, Former, Follows, Authoritative, Intact, PairFirst, Planned, Transacted;
    var h := w.At(identity.environment);
    OnceInstalledIsIntact(policy, h, identity.environment, p, database);
    ScriptMigratesIfChanged(p);
    ScriptFollows(p);
    ReadyTransacts(policy, w, OnceInstalled(h, p, database), Successful(identity, p),
                   Closed(Filed(policy, w, identity, p), p));
  }

  /** Whatever happened before: where a submission is ready, a step leads to the
      target in place and a success in the ledger. The database is what a migrator
      may leave; for Production there is evidence of the plan. */
  lemma SuccessIsPossible(policy: Policy, w: World, identity: Identity, p: Plan, database: Schema,
      evidence: DurabilityEvidence.Files) returns (w': World)
    requires Ready(policy, w, identity, p)
    requires var found := w.At(identity.environment).database;
      if p.changed then Migrated(found, p.schema, database) else database == found
    requires Proven(w, p, evidence)
    ensures Step(policy, w, w', Execution(identity))
    ensures |w'.records| == |w.records| + 1 && NewRecord(w, w').outcome.Success?
    ensures NewRecord(w, w').identity == identity
    ensures |w'.history| == |w.history| + 1 && NewAttempt(w, w').plan == p && NewAttempt(w, w').events == Script(p)
    ensures JournalWritten(w, w', identity)
    ensures w'.At(identity.environment).active == Pair(p.target.manifest, p.target.checksum)
    ensures w'.At(identity.environment).database == database
    ensures !Blocks(NewRecord(w, w')) && forall k :: 0 <= k < |w.records| ==> w'.records[k] == w.records[k]
  {
    hide Ready, Proven, Script, Step, Transacted, JournalWritten;
    var h, r := w.At(identity.environment), Closed(Filed(policy, w, identity, p), p);
    SuccessTransacts(policy, w, identity, p, database);
    ScriptMigratesIfChanged(p);
    w' := EnteredIsStep(policy, w, OnceInstalled(h, p, database), Successful(identity, p), r, evidence);
  }

  lemma ScriptFollows(p: Plan)
    ensures Follows(p, Script(p), |Script(p)|) && Restoring !in Script(p)
  {
    assert Script(p)[..|Script(p)|] == Script(p) && Script(p)[|Script(p)|..] == [];
    PreparationEvents(p);
    DeploymentNeverRestores(p);
  }

  /** A step in which the failure is not caught, such as a refused runtime file
      after the exchange of directories: the target stays active without a
      rollback, its record in progress. */
  lemma EscapeLeavesTarget(policy: Policy, w: World, identity: Identity, p: Plan, evidence: DurabilityEvidence.Files)
    returns (w': World)
    requires Ready(policy, w, identity, p)
    requires Proven(w, p, evidence)
    ensures Step(policy, w, w', Execution(identity))
    ensures |w'.records| == |w.records| + 1 && |w'.history| == |w.history| + 1
    ensures NewAttempt(w, w').deployed == Ended(Escaped, NeverStarted) && Restoring !in NewAttempt(w, w').events
    ensures NewRecord(w, w').outcome.InProgress? && NewRecord(w, w').migration.NeverStarted?
    ensures JournalWritten(w, w', identity)
    ensures w'.At(identity.environment) ==
      w.At(identity.environment).(active := Pair(p.target.manifest, p.target.checksum))
  {
    hide Proven, Decide, Preparation, Former, Usable, Follows, Step, Transacted, JournalWritten, Planned;
    var h := w.At(identity.environment);
    var after := h.(active := Pair(p.target.manifest, p.target.checksum));
    var events := Preparation(p) + [Activating];
    var a := Attempt(identity, p, Ended(Escaped, NeverStarted), |events|, events);
    var r := Filed(policy, w, identity, p);
    PreparationEvents(p);
    PreparationStarts(p);
    ActivatingFollows(p);
    ReadyTransacts(policy, w, after, a, r);
    w' := EnteredIsStep(policy, w, after, a, r, evidence);
  }

  lemma RollbackRestores(p: Plan)
    ensures Restoring in Rollback(p)
  {
    assert Rollback(p)[0] == Restoring;
  }

  lemma ActivatingFollows(p: Plan)
    ensures var events := Preparation(p) + [Activating];
      && Follows(p, events, |events|)
      && Follows(p, events + Rollback(p), |events|)
      && Activating in events
  {
    var events := Preparation(p) + [Activating];
    assert events[..|events|] == events && events[|events|..] == [];
    assert (events + Rollback(p))[..|events|] == events && (events + Rollback(p))[|events|..] == Rollback(p);
    assert events[|Preparation(p)|] == Activating;
    assert Script(p) == Preparation(p) + Deployment(p) && Deployment(p)[0] == Activating;
    assert BeforeMigration(p)[0] == Activating;
  }

  /** A step that is rolled back to the release `h` it found. The checksum file is
      then the text that was read from it, so it differs if it had a carriage
      return. */
  lemma RollbackCanDiffer(policy: Policy, w: World, identity: Identity, p: Plan, evidence: DurabilityEvidence.Files)
    returns (w': World)
    requires Ready(policy, w, identity, p)
    requires Proven(w, p, evidence)
    ensures Step(policy, w, w', Execution(identity))
    ensures |w'.records| == |w.records| + 1
    ensures NewRecord(w, w').outcome.Failure? && NewRecord(w, w').phase.RolledBack?
    ensures JournalWritten(w, w', identity)
    ensures w'.At(identity.environment) == w.At(identity.environment)
      <==> CR !in w.At(identity.environment).active[ChecksumFile]
  {
    hide Proven, Decide, Preparation, Rollback, Former, Usable, Follows, Step, Transacted, JournalWritten, Planned;
    var h := w.At(identity.environment);
    var after := h.(active := Pair(h.active[ManifestFile], Translate(h.active[ChecksumFile])));
    var events := Preparation(p) + [Activating];
    var a := Attempt(identity, p, Ended(Raised, NeverStarted), |events|, events + Rollback(p));
    var r := Filed(policy, w, identity, p).(phase := RolledBack, outcome := Failure, result := FailureMessage);
    ActivatingFollows(p);
    RollbackRestores(p);
    PreparationStarts(p);
    PreparationEvents(p);
    RollbackLacks(p);
    InOneOf(events, Rollback(p), Restoring);
    InOneOf(events, Rollback(p), Activating);
    ReadyTransacts(policy, w, after, a, r);
    w' := EnteredIsStep(policy, w, after, a, r, evidence);
    RollbackIsExact(policy, h, after);
  }

  /** One invocation executes this plan and leaves no blocker. */
  ghost predicate Settles(policy: Policy, w: World, w': World, identity: Identity, p: Plan) {
    && Executes(policy, w, w', identity)
    && NewAttempt(w, w').plan == p && NewAttempt(w, w').events != [] && !Blocks(NewRecord(w, w'))
  }

  lemma SettlesConsistently(policy: Policy, w: World, w': World, identity: Identity, p: Plan)
    requires CollisionFree(policy) && Ready(policy, w, identity, p) && Consistent(policy, w.At(identity.environment))
    requires Settles(policy, w, w', identity, p)
    requires p.changed ==> policy[w.At(identity.environment).active[ManifestFile]].migrations <= p.schema
    ensures Consistent(policy, w'.At(identity.environment))
  {
    hide Evidenced, Journals, Decide, Usable, Former, Registered, Bound;
    EndsConsistentIff(policy, w.records, w.At(identity.environment), w'.At(identity.environment),
                      NewAttempt(w, w'), NewRecord(w, w'));
  }

  /** From a database that fits, every way to execute the plan that leaves no blocker
      leaves one that fits, exactly if the target has the fingerprint of the active
      release or extends it: the two releases tell this before the submission. */
  lemma FitsIffTargetExtends(policy: Policy, w: World, identity: Identity, p: Plan,
      evidence: DurabilityEvidence.Files)
    requires CollisionFree(policy) && Ready(policy, w, identity, p) && Proven(w, p, evidence)
    requires Consistent(policy, w.At(identity.environment))
    ensures (forall w' :: Settles(policy, w, w', identity, p) ==> Consistent(policy, w'.At(identity.environment)))
      <==> (p.changed ==> policy[w.At(identity.environment).active[ManifestFile]].migrations <= p.schema)
  {
    hide Step, Proven, Decide, Usable, Former, Script;
    var h := w.At(identity.environment);
    if p.changed ==> policy[h.active[ManifestFile]].migrations <= p.schema {
      forall w' | Settles(policy, w, w', identity, p)
        ensures Consistent(policy, w'.At(identity.environment))
      {
        SettlesConsistently(policy, w, w', identity, p);
      }
    } else {
      ScriptMigratesIfChanged(p);
      var w' := SuccessIsPossible(policy, w, identity, p, h.database, evidence);
      assert Settles(policy, w, w', identity, p);
      assert w'.At(identity.environment).active[ManifestFile] == p.target.manifest;
    }
  }

  lemma PairIsAuthoritative(policy: Policy, h: HostState, environment: Environment)
    requires h.active.Keys == {ManifestFile, ChecksumFile} && h.active[ManifestFile] in policy
    requires h.active[ChecksumFile] == policy[h.active[ManifestFile]].checksumLine
    requires h.runtimes.Keys == OwnedPaths(environment)
    ensures Authoritative(policy, h.active) && Provisioned(h, environment)
    ensures Former(h, environment) == Material(h.active[ManifestFile], h.active[ChecksumFile], h.runtimes)
  {
    TranslateFixes(h.active[ChecksumFile]);
    assert Former(h, environment).runtimes == h.runtimes;
  }

  /** Staging holds the newer release and nothing was deployed yet. */
  function Upgraded(policy: Policy, newer: Bytes, runtimes: map<RuntimePath, Bytes>): World
    requires newer in policy
  {
    var h := HostState(Pair(newer, policy[newer].checksumLine), runtimes, policy[newer].migrations);
    World([], h, HostState(map[], map[], []), map[], map[], [])
  }

  function Downgrade(policy: Policy, older: Bytes, newer: Bytes, identity: Identity, target: Material): Plan
    requires older in policy && newer in policy
  {
    Plan(Staging, true, target, policy[older].migrations,
         DurabilityEvidence.Context(identity.deploymentId, "", policy[newer].fingerprint, policy[older].fingerprint,
                                    identity.manifest))
  }

  lemma DowngradeIsReady(policy: Policy, older: Bytes, newer: Bytes, identity: Identity, target: Material,
      runtimes: map<RuntimePath, Bytes>)
    requires CollisionFree(policy) && older in policy && newer in policy
    requires policy[older].migrations < policy[newer].migrations
    requires Usable(Staging, Material(newer, policy[newer].checksumLine, runtimes))
    requires identity.environment.Staging? && identity.manifest == policy[older].sha256
    requires target.manifest == older && ValidPair(policy, older, target.checksum) && Usable(Staging, target)
    ensures Ready(policy, Upgraded(policy, newer, runtimes), identity,
                  Downgrade(policy, older, newer, identity, target))
  {
    PairIsAuthoritative(policy, Upgraded(policy, newer, runtimes).staging, Staging);
  }

  lemma OneStepIsRun(policy: Policy, w: World, w': World, report: Report)
    requires Start(policy, w) && Step(policy, w, w', report)
    ensures IsRun(policy, [w, w'], [report])
  {
    hide Step, Start;
  }

  lemma DowngradeSucceeds(policy: Policy, w: World, identity: Identity, p: Plan) returns (w': World)
    requires Ready(policy, w, identity, p) && p.changed && w.records == []
    requires p.environment.Staging? && identity.environment.Staging?
    requires !(w.staging.database <= p.schema)
    ensures Step(policy, w, w', Execution(identity)) && JournalWritten(w, w', identity)
    ensures |w'.records| == 1 && SuccessFor(w'.records[0], Staging, identity.manifest)
    ensures Unblocked(w'.records, Staging)
    ensures w'.staging.active == Pair(p.target.manifest, p.target.checksum)
    ensures w'.staging.database == w.staging.database
  {
    hide Ready, Script, Step, JournalWritten, Decide, DurabilityEvidence.Obtained;
    w' := SuccessIsPossible(policy, w, identity, p, w.staging.database, w.evidence);
    assert w'.records[0] == NewRecord(w, w');
  }

  /** A run that does not go forward: Staging holds a release, one with fewer
      migrations is submitted, its migrator returns without a change, and the
      success leaves an unblocked environment whose database does not fit. */
  lemma DowngradeLeavesMismatch(policy: Policy, older: Bytes, newer: Bytes, identity: Identity, target: Material,
      runtimes: map<RuntimePath, Bytes>) returns (ws: seq<World>, rs: seq<Report>)
    requires CollisionFree(policy) && older in policy && newer in policy
    requires policy[older].migrations < policy[newer].migrations
    requires Usable(Staging, Material(newer, policy[newer].checksumLine, runtimes))
    requires identity.environment.Staging? && identity.manifest == policy[older].sha256
    requires target.manifest == older && ValidPair(policy, older, target.checksum) && Usable(Staging, target)
    ensures IsRun(policy, ws, rs) && rs == [Execution(identity)]
    ensures |ws[1].records| == 1 && SuccessFor(ws[1].records[0], Staging, policy[older].sha256)
    ensures JournalWritten(ws[0], ws[1], identity)
    ensures Unblocked(ws[1].records, Staging) && !Consistent(policy, ws[1].staging)
    ensures ws[1].staging.active == Pair(older, target.checksum)
    ensures ws[1].staging.database == policy[newer].migrations
  {
    var w, p := Upgraded(policy, newer, runtimes), Downgrade(policy, older, newer, identity, target);
    DowngradeIsReady(policy, older, newer, identity, target, runtimes);
    assert Start(policy, w);
    hide Ready, Step, JournalWritten, Usable, Start, CollisionFree;
    var w' := DowngradeSucceeds(policy, w, identity, p);
    ws, rs := [w, w'], [Execution(identity)];
    OneStepIsRun(policy, w, w', Execution(identity));
    assert w'.staging.active[ManifestFile] == older;
  }
}
