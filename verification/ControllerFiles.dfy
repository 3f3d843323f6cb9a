/** What the journals and the runtime files hold in every world of a run of the
    release controller. */
module ControllerFiles {
  import opened Newlines
  import opened Outcomes
  import opened Releases
  import opened DeploymentJournal
  import opened DeploymentProtocol
  import opened DeploymentLedger
  import opened ControllerRuns
  import opened DeploymentOrder

  /** Invocation `i` was a transaction with this deployment id, and the journal
      gives back what its environment held before. */
  ghost predicate JournalOf(ws: seq<World>, rs: seq<Report>, i: nat, id: DeploymentId, journal: Journal) {
    && i < |rs| && i < |ws| && rs[i].Execution? && rs[i].identity.deploymentId == id
    && Returns(journal, ws[i].At(rs[i].identity.environment), rs[i].identity.environment)
  }

  /** Every journal there is, complete or torn, whenever it is read and for
      whichever environment: it gives back what the environment of its one
      transaction held before that, or nothing. */
  lemma {:induction false} EveryJournalReturns(policy: Policy, ws: seq<World>, rs: seq<Report>, j: nat,
      id: DeploymentId)
    requires IsRun(policy, ws, rs) && j < |ws| && id in ws[j].journals
    ensures exists i :: 0 <= i < j && JournalOf(ws, rs, i, id, ws[j].journals[id])
  {
    assert j > 0;
    hide Transacted, Evidenced, Returns, Clearable, Opens;
    var w, w', report := ws[j - 1], ws[j], rs[j - 1];
    assert Step(policy, w, w', report);
    StepKeeps(policy, w, w', report);
    if id in w.journals {
      EveryJournalReturns(policy, ws, rs, j - 1, id);
    } else {
      assert JournalOf(ws, rs, j - 1, id, w'.journals[id]);
    }
  }

  lemma {:induction false} JournalsStay(policy: Policy, ws: seq<World>, rs: seq<Report>, i: nat, j: nat)
    requires IsRun(policy, ws, rs) && i <= j < |ws|
    ensures forall id :: id in ws[i].journals ==> id in ws[j].journals && ws[j].journals[id] == ws[i].journals[id]
  {
    if i < j {
      hide Step;
      JournalsStay(policy, ws, rs, i, j - 1);
      StepKeeps(policy, ws[j - 1], ws[j], rs[j - 1]);
    }
  }

  /** Once a transaction has gone on from its journal, so in particular before the
      authority is touched, the journal returns the release that was found, in
      every later world. */
  lemma JournalReturnsFormer(policy: Policy, ws: seq<World>, rs: seq<Report>, i: nat, j: nat)
    requires IsRun(policy, ws, rs) && i < j < |ws| && rs[i].Execution?
    ensures |ws[i + 1].history| == |ws[i].history| + 1
    ensures Activating in NewAttempt(ws[i], ws[i + 1]).events ==> Journaled in NewAttempt(ws[i], ws[i + 1]).events
    ensures var identity, h := rs[i].identity, ws[i].At(rs[i].identity.environment);
      Journaled in NewAttempt(ws[i], ws[i + 1]).events ==>
        && identity.deploymentId in ws[j].journals && Provisioned(h, identity.environment)
        && forall e :: PreviousMaterial(ws[j].journals[identity.deploymentId], e) == (if e == identity.environment
            then Some(Former(h, identity.environment)) else None)
  {
    hide Step, PreviousMaterial, Former, Provisioned, Returns, Marked;
    assert Step(policy, ws[i], ws[i + 1], rs[i]);
    JournalsStay(policy, ws, rs, i + 1, j);
    StepJournals(policy, ws[i], ws[i + 1], rs[i].identity);
    var identity := rs[i].identity;
    if Journaled in NewAttempt(ws[i], ws[i + 1]).events {
      ReturnsOnceMarked(ws[j].journals[identity.deploymentId], ws[i].At(identity.environment), identity.environment);
    }
  }

  lemma ReturnsOnceMarked(journal: Journal, h: HostState, environment: Environment)
    requires Returns(journal, h, environment) && Marked(journal)
    ensures Provisioned(h, environment)
    ensures forall e ::
      PreviousMaterial(journal, e) == if e == environment then Some(Former(h, environment)) else None
  {
  }

  lemma StepJournals(policy: Policy, w: World, w': World, identity: Identity)
    requires Executes(policy, w, w', identity)
    ensures |w'.history| == |w.history| + 1
    ensures Activating in NewAttempt(w, w').events ==> Journaled in NewAttempt(w, w').events
    ensures Journaled in NewAttempt(w, w').events ==>
      && identity.deploymentId in w'.journals && Marked(w'.journals[identity.deploymentId])
      && Returns(w'.journals[identity.deploymentId], w.At(identity.environment), identity.environment)
  {
    hide Ending, Evidenced, Registered, PairFirst, Clearable, Intact, Planned, Returns, Preparation, Script, Rollback;
    var a := NewAttempt(w, w');
    assert Bound(policy, w.records, w.At(identity.environment), w'.At(identity.environment), a);
    if Activating in a.events {
      ActivationFollowsPreparation(a.plan, a.events, a.forward);
      PreparationJournals(a.plan);
      Kept(Preparation(a.plan), a.events);
    }
  }

  /** In every step, however it ends, each runtime file is the former one or that of
      the target, and none is replaced while the former authority is active, unless
      a rollback has begun. */
  lemma RuntimesFollowAuthority(policy: Policy, w: World, w': World, report: Report, environment: Environment)
    requires Step(policy, w, w', report)
    ensures w'.At(environment).runtimes != w.At(environment).runtimes ==>
      && report.Execution? && report.identity.environment == environment && |w'.history| == |w.history| + 1
      && var a := NewAttempt(w, w');
        && Activating in a.events && a.identity == report.identity
        && Intact(policy, w.At(environment), w'.At(environment).active, w'.At(environment).runtimes, a.plan.target)
        && (w'.At(environment).active == Pair(a.plan.target.manifest, a.plan.target.checksum)
            || Restoring in a.events)
  {
    if report.Execution? {
      assert Bound(policy, w.records, w.At(report.identity.environment), w'.At(report.identity.environment),
                   NewAttempt(w, w'));
    }
  }

  /** The runtime file was there at the start or came with the target of an attempt
      that began its activation. */
  ghost predicate Sourced(start: World, w: World, environment: Environment, k: RuntimePath) {
    var runtimes, found := w.At(environment).runtimes, start.At(environment).runtimes;
    k in runtimes && k in found && (runtimes[k] == found[k] || exists n :: Supplies(w, n, environment, k))
  }

  ghost predicate Supplies(w: World, n: nat, environment: Environment, k: RuntimePath) {
    && n < |w.history| && w.history[n].identity.environment == environment && Activating in w.history[n].events
    && k in w.history[n].plan.target.runtimes && k in w.At(environment).runtimes
    && w.At(environment).runtimes[k] == w.history[n].plan.target.runtimes[k]
  }

  /** In every world of a run each runtime file is one of those, so none is torn. */
  lemma {:induction false} RuntimesAreSourced(policy: Policy, ws: seq<World>, rs: seq<Report>, i: nat,
      environment: Environment, k: RuntimePath)
    requires IsRun(policy, ws, rs) && i < |ws| && k in ws[0].At(environment).runtimes
    ensures Sourced(ws[0], ws[i], environment, k)
  {
    if i > 0 {
      RuntimesAreSourced(policy, ws, rs, i - 1, environment, k);
      SourcedStays(policy, ws[0], ws[i - 1], ws[i], rs[i - 1], environment, k);
    }
  }

  lemma SourcedStays(policy: Policy, start: World, w: World, w': World, report: Report, environment: Environment,
      k: RuntimePath)
    requires Step(policy, w, w', report) && Sourced(start, w, environment, k)
    ensures Sourced(start, w', environment, k)
  {
    RuntimesFollowAuthority(policy, w, w', report, environment);
    StepKeeps(policy, w, w', report);
    hide Step;
    if w'.At(environment).runtimes[k] == w.At(environment).runtimes[k] {
      if n :| Supplies(w, n, environment, k) { assert Supplies(w', n, environment, k); }
    } else {
      assert Supplies(w', |w.history|, environment, k);
    }
  }

  // ------------------------------------------------------------------
  // What is active, and what a record says of it.

  /** Whenever the active directory of an environment changes, it then holds exactly
      the manifest that was submitted with its checksum line, or, after a rollback was
      begun, the former manifest with the text of its checksum. */
  lemma ActiveIsAuthentic(policy: Policy, w: World, w': World, report: Report, environment: Environment)
    requires Step(policy, w, w', report)
    ensures w'.At(environment).active != w.At(environment).active ==>
      && report.Execution? && report.identity.environment == environment && |w'.history| == |w.history| + 1
      && var a, h, active := NewAttempt(w, w'), w.At(environment), w'.At(environment).active;
        && BoundTo(policy, h, report.identity, a.plan)
        && active.Keys == {ManifestFile, ChecksumFile}
        && ((active[ManifestFile] == a.plan.target.manifest && active[ChecksumFile] == a.plan.target.checksum)
            || (active[ManifestFile] == h.active[ManifestFile] && ChecksumFile in h.active
                && active[ChecksumFile] == Translate(h.active[ChecksumFile])))
  {
    hide Ending, Evidenced, Journals, Follows, Registered, PairFirst, Clearable;
    if report.Execution? {
      assert Bound(policy, w.records, w.At(report.identity.environment), w'.At(report.identity.environment),
                   NewAttempt(w, w'));
    }
  }

  /** A new success: the submitted release with its runtime files in place, and a
      record that names the authority that was found, the target and the backup. */
  lemma SuccessInstalls(policy: Policy, w: World, w': World, identity: Identity)
    requires Executes(policy, w, w', identity) && NewRecord(w, w').outcome.Success?
    ensures var h, after, p := w.At(identity.environment), w'.At(identity.environment), NewAttempt(w, w').plan;
      && BoundTo(policy, h, identity, p)
      && after.active == map[ManifestFile := p.target.manifest, ChecksumFile := p.target.checksum]
      && OwnRuntime in p.target.runtimes && OwnRuntime in after.runtimes
      && after.runtimes[OwnRuntime] == p.target.runtimes[OwnRuntime]
      && (identity.environment.Staging? ==>
        MonitoringRuntime in p.target.runtimes && MonitoringRuntime in after.runtimes
        && after.runtimes[MonitoringRuntime] == p.target.runtimes[MonitoringRuntime])
      && (identity.environment.Production? && MonitoringRuntime in h.runtimes ==>
        MonitoringRuntime in after.runtimes && after.runtimes[MonitoringRuntime] == h.runtimes[MonitoringRuntime])
      && after.runtimes.Keys == h.runtimes.Keys
  {
    hide Bound, Evidenced, Follows, Registered, Clearable, Returns, Script;
    var a := NewAttempt(w, w');
    assert Transacted(policy, w.records, w.At(identity.environment), w'.At(identity.environment), a, NewRecord(w, w'));
    assert a.events == Script(a.plan);
    ScriptEnds(a.plan);
    ScriptJournals(a.plan);
    SuccessIsPlanned(policy, w, w', identity);
  }

  lemma ScriptJournals(p: Plan)
    ensures Journaled in Script(p)
  {
    hide Preparation, Deployment;
    PreparationJournals(p);
  }

  lemma SuccessIsPlanned(policy: Policy, w: World, w': World, identity: Identity)
    requires Executes(policy, w, w', identity) && NewAttempt(w, w').events != []
    ensures Planned(policy, w.At(identity.environment), identity, NewAttempt(w, w').plan)
    ensures var h, after, a := w.At(identity.environment), w'.At(identity.environment), NewAttempt(w, w');
      Intact(policy, h, after.active, after.runtimes, a.plan.target)
  {
    hide Ending, Evidenced, Journals, Follows, Registered, PairFirst, Clearable, Intact, Planned;
    assert Bound(policy, w.records, w.At(identity.environment), w'.At(identity.environment), NewAttempt(w, w'));
  }

  /** A new record of a transaction names the digest and the fingerprint of the
      authority that was found, if there was one, and from its first step on those of
      the plan; once the authority was touched also the backup, where one was made. */
  lemma RecordNames(policy: Policy, w: World, w': World, identity: Identity)
    requires Executes(policy, w, w', identity)
    ensures var r, a, h := NewRecord(w, w'), NewAttempt(w, w'), w.At(identity.environment);
      && (ManifestFile in h.active && ChecksumFile in h.active ==>
        && h.active[ManifestFile] in policy
        && r.previousAuthority == Some(policy[h.active[ManifestFile]].sha256)
        && r.currentFingerprint == Some(policy[h.active[ManifestFile]].fingerprint))
      && (ManifestFile !in h.active && ChecksumFile !in h.active ==>
        r.previousAuthority == None && r.currentFingerprint == None)
      && (a.events != [] ==>
        && a.plan.target.manifest in policy
        && r.targetFingerprint == Some(policy[a.plan.target.manifest].fingerprint))
      && (Activating in a.events && a.plan.changed && identity.environment.Production? ==>
        r.backupId == Some(a.plan.context.backupId))
  {
    hide Ending, Evidenced, Journals, Follows, PairFirst, Clearable, Intact;
    var a := NewAttempt(w, w');
    assert Transacted(policy, w.records, w.At(identity.environment), w'.At(identity.environment), a, NewRecord(w, w'));
    if a.events != [] { SuccessIsPlanned(policy, w, w', identity); }
  }

  /** What a new record says at its end: the results, and what a refusal before the
      authority is touched leaves behind. */
  lemma RecordEnds(policy: Policy, w: World, w': World, identity: Identity)
    requires Executes(policy, w, w', identity)
    ensures var r, a, h, after := NewRecord(w, w'), NewAttempt(w, w'), w.At(identity.environment),
                                  w'.At(identity.environment);
      && (r.outcome == Success ==>
        && r.phase == Complete
        && r.result == (if identity.environment == Production then DeployedNotPubliclyActivated else Deployed))
      && (Activating !in a.events ==> after == h && r.outcome != Success)
      && (Activating !in a.events && r.outcome == Failure ==>
        && r.migration == NeverStarted && !Blocks(r)
        && r.result == (if r.phase == PhaseC2Required then PhaseC2BackupRequired else FailureMessage))
  {
    hide Evidenced, Journals, Follows, PairFirst, Clearable, Intact, Registered, Bound, Handled, OnTarget;
    assert Transacted(policy, w.records, w.At(identity.environment), w'.At(identity.environment),
                      NewAttempt(w, w'), NewRecord(w, w'));
  }
}
