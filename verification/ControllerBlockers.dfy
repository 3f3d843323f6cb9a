/** How long an environment stays blocked, and what unblocks it. */
module ControllerBlockers {
  import opened Outcomes
  import opened Releases
  import opened DeploymentLedger
  import opened DeploymentProtocol
  import opened ControllerRuns

  lemma BothBlockersStay(policy: Policy, w: World, w': World, report: Report, k: nat, l: nat)
    requires Step(policy, w, w', report) && k < l < |w.records|
    requires w.records[k].identity.environment == w.records[l].identity.environment
    requires Blocks(w.records[k]) && Blocks(w.records[l])
    ensures |w'.records| >= |w.records|
    ensures Blocks(w'.records[k]) && Blocks(w'.records[l])
    ensures w'.records[k].identity == w.records[k].identity && w'.records[l].identity == w.records[l].identity
  {
    hide Step, Names;
    StepKeeps(policy, w, w', report);
  }

  lemma {:induction false} BlockersStay(policy: Policy, ws: seq<World>, rs: seq<Report>, i: nat, j: nat, k: nat,
      l: nat)
    requires IsRun(policy, ws, rs) && i <= j < |ws| && k < l < |ws[i].records|
    requires ws[i].records[k].identity.environment == ws[i].records[l].identity.environment
    requires Blocks(ws[i].records[k]) && Blocks(ws[i].records[l])
    ensures |ws[j].records| >= |ws[i].records|
    ensures Blocks(ws[j].records[k]) && Blocks(ws[j].records[l])
    ensures ws[j].records[k].identity == ws[i].records[k].identity
    ensures ws[j].records[l].identity == ws[i].records[l].identity
  {
    if i < j {
      hide Step, Blocks;
      BlockersStay(policy, ws, rs, i, j - 1, k, l);
      BothBlockersStay(policy, ws[j - 1], ws[j], rs[j - 1], k, l);
    }
  }

  predicate BlocksIn(r: Record, environment: Environment) {
    r.identity.environment == environment && Blocks(r)
  }

  ghost predicate TwiceBlocked(records: seq<Record>, environment: Environment) {
    exists k, l :: 0 <= k < l < |records| && BlocksIn(records[k], environment) && BlocksIn(records[l], environment)
  }

  /** An environment with two blocking records stays blocked, whatever follows: the
      reconciliation command refuses while another record blocks. */
  lemma TwiceBlockedForever(policy: Policy, ws: seq<World>, rs: seq<Report>, i: nat, j: nat, environment: Environment)
    requires IsRun(policy, ws, rs) && i <= j < |ws| && TwiceBlocked(ws[i].records, environment)
    ensures TwiceBlocked(ws[j].records, environment) && !Unblocked(ws[j].records, environment)
  {
    var k, l :| 0 <= k < l < |ws[i].records|
      && BlocksIn(ws[i].records[k], environment) && BlocksIn(ws[i].records[l], environment);
    BlockersStay(policy, ws, rs, i, j, k, l);
    assert BlocksIn(ws[j].records[k], environment) && BlocksIn(ws[j].records[l], environment);
  }

  /** A submission that is refused because of a blocker adds another one, so a
      blocker that was not reconciled before it stays for good. */
  lemma RefusalBlocksForever(policy: Policy, ws: seq<World>, rs: seq<Report>, i: nat, j: nat)
    requires IsRun(policy, ws, rs) && i < j < |ws|
    requires rs[i].Opening? && !Unblocked(ws[i].records, rs[i].identity.environment)
    ensures !Unblocked(ws[j].records, rs[i].identity.environment)
  {
    var w, w', environment := ws[i], ws[i + 1], rs[i].identity.environment;
    assert Step(policy, w, w', rs[i]);
    var k :| 0 <= k < |w.records| && BlocksIn(w.records[k], environment);
    assert BlocksIn(w'.records[k], environment) && BlocksIn(w'.records[|w.records|], environment);
    TwiceBlockedForever(policy, ws, rs, i + 1, j, environment);
  }

  // ------------------------------------------------------------------
  // When a blocked environment can be unblocked.

  /** The environment is blocked and the reconciliation command refuses. */
  ghost predicate Stuck(policy: Policy, w: World, environment: Environment) {
    && !Unblocked(w.records, environment)
    && (environment.Staging? ==> forall k :: 0 <= k < |w.records| ==> !Clearable(policy, w, k))
  }

  lemma BlockedStays(policy: Policy, w: World, w': World, report: Report, environment: Environment)
    requires Step(policy, w, w', report) && Stuck(policy, w, environment)
    ensures !Unblocked(w'.records, environment)
  {
    var k: nat :| k < |w.records| && BlocksIn(w.records[k], environment);
    assert BlocksIn(w.records[k], environment);
    assert w.records[k].identity.environment == environment;
    hide Step, Names;
    StepKeeps(policy, w, w', report);
    assert BlocksIn(w'.records[k], environment);
  }

  /** Nothing happens to the files of a blocked environment, and what is added to
      its records is terminal. */
  lemma BlockedIsIdle(policy: Policy, w: World, w': World, report: Report, environment: Environment)
    requires Step(policy, w, w', report) && !Unblocked(w.records, environment)
    ensures w'.At(environment) == w.At(environment)
    ensures |w.records| < |w'.records| && NewRecord(w, w').identity.environment == environment ==>
      !NewRecord(w, w').outcome.InProgress?
  {
    hide Transacted, Evidenced, Journals, Names;
  }

  lemma ClearableBefore(policy: Policy, w: World, w': World, report: Report, k: nat)
    requires Step(policy, w, w', report) && !Unblocked(w.records, Staging)
    requires Clearable(policy, w', k) && !report.Closing?
    ensures k < |w.records| && Clearable(policy, w, k)
  {
    hide Step, Names;
    StepKeeps(policy, w, w', report);
    StepAdds(policy, w, w', report);
    BlockedIsIdle(policy, w, w', report, Staging);
    if k < |w.records| {
      forall j | 0 <= j < |w.records|
        ensures SameButSync(w.records[j], w'.records[j])
      {
      }
    }
  }

  lemma StuckStays(policy: Policy, w: World, w': World, report: Report, environment: Environment)
    requires Step(policy, w, w', report) && Stuck(policy, w, environment)
    ensures Stuck(policy, w', environment)
  {
    BlockedStays(policy, w, w', report, environment);
    if environment.Staging? {
      hide Clearable;
      forall k | 0 <= k < |w'.records|
        ensures !Clearable(policy, w', k)
      {
        if Clearable(policy, w', k) { ClearableBefore(policy, w, w', report, k); }
      }
    }
  }

  lemma {:induction false} PathStaysStuck(policy: Policy, ws: seq<World>, rs: seq<Report>, i: nat,
      environment: Environment)
    requires Path(policy, ws, rs) && i < |ws| && Stuck(policy, ws[0], environment)
    ensures Stuck(policy, ws[i], environment)
  {
    if i > 0 {
      hide Step, Stuck;
      PathStaysStuck(policy, ws, rs, i - 1, environment);
      StuckStays(policy, ws[i - 1], ws[i], rs[i - 1], environment);
    }
  }

  /** The step that the reconciliation command makes, after which Staging is free. */
  lemma ClosingUnblocks(policy: Policy, w: World, k: nat) returns (w': World)
    requires Clearable(policy, w, k)
    ensures Step(policy, w, w', Closing(k)) && Unblocked(w'.records, Staging)
  {
    w' := w.(records := w.records[k := Reconciled(w.records[k])]);
    forall j | 0 <= j < |w'.records| && w'.records[j].identity.environment.Staging?
      ensures !Blocks(w'.records[j])
    {
      assert j != k ==> w'.records[j] == w.records[j];
    }
  }

  /** From any world on: a blocked environment is blocked after every sequence of
      invocations exactly if none of its records can be closed now. */
  lemma BlockedForGoodIff(policy: Policy, w: World, environment: Environment)
    requires !Unblocked(w.records, environment)
    ensures Stuck(policy, w, environment) <==>
      forall ws: seq<World>, rs: seq<Report> :: Path(policy, ws, rs) && ws[0] == w ==>
        !Unblocked(ws[|rs|].records, environment)
  {
    hide Step, Clearable;
    if Stuck(policy, w, environment) {
      forall ws: seq<World>, rs: seq<Report> | Path(policy, ws, rs) && ws[0] == w
        ensures !Unblocked(ws[|rs|].records, environment)
      {
        PathStaysStuck(policy, ws, rs, |rs|, environment);
      }
    } else {
      var k :| 0 <= k < |w.records| && Clearable(policy, w, k);
      var w' := ClosingUnblocks(policy, w, k);
      var ws, rs := [w, w'], [Closing(k)];
      assert Path(policy, ws, rs);
    }
  }

  // ------------------------------------------------------------------
  // What a crash before the first step leaves.

  /** A record that is accepted and runs is as it was opened, and the authority that
      it names is still the active one. */
  ghost predicate Anchored(policy: Policy, w: World) {
    forall k :: 0 <= k < |w.records| && Waits(w.records[k]) ==> AnchoredAt(policy, w, w.records[k])
  }

  predicate Waits(r: Record) {
    r.outcome.InProgress? && r.phase.Accepted?
  }

  ghost predicate AnchoredAt(policy: Policy, w: World, r: Record) {
    && AsOpened(r)
    && Names(policy, w.At(r.identity.environment).active, r.previousAuthority, r.currentFingerprint)
  }

  lemma NewIsAnchored(policy: Policy, w: World, w': World, report: Report)
    requires Step(policy, w, w', report) && |w'.records| == |w.records| + 1 && Waits(NewRecord(w, w'))
    ensures AnchoredAt(policy, w', NewRecord(w, w'))
  {
    hide Names, Journals, Evidenced, Ending, Follows;
  }

  lemma KeepsAnchored(policy: Policy, w: World, w': World, report: Report)
    requires Step(policy, w, w', report) && Anchored(policy, w)
    ensures Anchored(policy, w')
  {
    hide Step, Names, Clearable;
    StepKeeps(policy, w, w', report);
    StepAdds(policy, w, w', report);
    forall k | 0 <= k < |w'.records| && Waits(w'.records[k])
      ensures AnchoredAt(policy, w', w'.records[k])
    {
      if k == |w.records| {
        NewIsAnchored(policy, w, w', report);
      } else {
        assert AnchoredAt(policy, w, w.records[k]);
        assert Reconciliation(w.records[k]);
        BlockedIsIdle(policy, w, w', report, w.records[k].identity.environment);
      }
    }
  }

  lemma {:induction false} RunKeepsAnchored(policy: Policy, ws: seq<World>, rs: seq<Report>, i: nat)
    requires IsRun(policy, ws, rs) && i < |ws|
    ensures Anchored(policy, ws[i])
  {
    if i > 0 {
      hide Step, Anchored;
      RunKeepsAnchored(policy, ws, rs, i - 1);
      KeepsAnchored(policy, ws[i - 1], ws[i], rs[i - 1]);
    } else {
      assert ws[0].records == [];
    }
  }

  /** Staging is blocked by this record and by no other. */
  ghost predicate OnlyBlocker(records: seq<Record>, k: nat) {
    forall j :: 0 <= j < |records| && j != k && records[j].identity.environment.Staging? ==> !Blocks(records[j])
  }

  /** In every world of a run, what a crash between the acceptance of a Staging
      submission and its first step leaves can be closed by the command, exactly if
      nothing else blocks Staging and an authority was active at the time. */
  lemma CrashIsClearableIff(policy: Policy, ws: seq<World>, rs: seq<Report>, i: nat, k: nat)
    requires IsRun(policy, ws, rs) && i < |ws| && k < |ws[i].records|
    requires Waits(ws[i].records[k]) && ws[i].records[k].identity.environment.Staging?
    ensures Clearable(policy, ws[i], k) <==>
      OnlyBlocker(ws[i].records, k) && ws[i].records[k].previousAuthority.Some?
  {
    hide Step, Names;
    RunKeepsAnchored(policy, ws, rs, i);
    RunKeepsInv(policy, ws, rs, i);
    var w := ws[i];
    assert AnchoredAt(policy, w, w.records[k]) && IdlesAt(w, w.records[k].identity);
    forall j | 0 <= j < |w.records| && j != k
      ensures w.records[j].identity.deploymentId != w.records[k].identity.deploymentId
    {
      assert !Shares(w.records[if j < k then j else k].identity, w.records[if j < k then k else j].identity);
    }
  }

  // ------------------------------------------------------------------
  // Which failures leave an environment usable.

  /** A deployment on Staging that fails after its migration was completed leaves a
      record that asks for nobody, on a host where nothing else does: the same manifest
      can be submitted again under a fresh identity and gets a record of its own. */
  lemma StagingStaysUsable(policy: Policy, w: World, w': World, identity: Identity, next: Identity)
    requires Executes(policy, w, w', identity) && identity.environment.Staging?
    requires NewAttempt(w, w').deployed == Ended(Raised, Completed) && !NewRecord(w, w').outcome.InProgress?
    requires next.environment.Staging? && next.manifest == identity.manifest && Unshared(w'.records, next)
    ensures NewRecord(w, w').outcome.Failure? && NewRecord(w, w').migration.Completed?
    ensures !Blocks(NewRecord(w, w')) && Unblocked(w'.records, Staging)
    ensures Decide(w'.records, next).New?
  {
    FailureLeavesUsable(policy, w, w', identity);
    DecideIff(w.records, identity);
    DecideIff(w'.records, next);
    BlockersAsk(w'.records, Staging);
    assert w'.records == w.records + [NewRecord(w, w')] by { StepAppends(policy, w, w', identity); }
    assert !Succeeded(w'.records, next);
  }

  lemma StepAppends(policy: Policy, w: World, w': World, identity: Identity)
    requires Executes(policy, w, w', identity)
    ensures w'.records == w.records + [NewRecord(w, w')] && NewRecord(w, w').identity == identity
    ensures Decide(w.records, identity).New?
  {
    hide Transacted, Evidenced, Journals, Decide;
  }

  lemma FailureLeavesUsable(policy: Policy, w: World, w': World, identity: Identity)
    requires Executes(policy, w, w', identity) && identity.environment.Staging?
    requires NewAttempt(w, w').deployed == Ended(Raised, Completed) && !NewRecord(w, w').outcome.InProgress?
    ensures NewRecord(w, w').outcome.Failure? && NewRecord(w, w').migration.Completed?
    ensures !Blocks(NewRecord(w, w')) && Unblocked(w'.records, Staging)
  {
    hide Evidenced, Journals, Bound, Registered;
    assert Ending(policy, w.staging, w'.staging, NewAttempt(w, w'), NewRecord(w, w'));
    UnblockedAfter(policy, w, w', Execution(identity));
  }

  /** Once a migration began and it is not known to have returned, no later
      invocation ever enters a transaction of its environment. */
  lemma UnknownMigrationIsFinal(policy: Policy, ws: seq<World>, rs: seq<Report>, i: nat, j: nat)
    requires IsRun(policy, ws, rs) && i < j < |ws| && rs[i].Execution?
    ensures |ws[i + 1].history| == |ws[i].history| + 1 && |ws[i + 1].history| <= |ws[j].history|
    ensures var events := NewAttempt(ws[i], ws[i + 1]).events;
      Begun(Migrate) in events && Finished(Migrate) !in events ==>
        forall n :: |ws[i + 1].history| <= n < |ws[j].history| ==>
          ws[j].history[n].identity.environment != rs[i].identity.environment
  {
    var w, w', identity := ws[i], ws[i + 1], rs[i].identity;
    assert Step(policy, w, w', rs[i]);
    RunHistoryGrows(policy, ws, rs, i + 1, j);
    var a, r := NewAttempt(w, w'), NewRecord(w, w');
    if Begun(Migrate) in a.events && Finished(Migrate) !in a.events {
      assert Announced(a.events, r.migration);
      assert DatabaseReview(r);
      ReviewLatch(policy, ws, rs, i + 1, j, identity.environment);
    }
  }

  /** On Production that is so after every caught failure from the announcement of a
      migration on, once its record is terminal. */
  lemma ProductionReviewIsFinal(policy: Policy, ws: seq<World>, rs: seq<Report>, i: nat, j: nat)
    requires IsRun(policy, ws, rs) && i < j < |ws| && rs[i].Execution? && rs[i].identity.environment.Production?
    ensures |ws[i + 1].history| == |ws[i].history| + 1 && |ws[i + 1].history| <= |ws[j].history|
    ensures |ws[i + 1].records| == |ws[i].records| + 1
    ensures var a, r := NewAttempt(ws[i], ws[i + 1]), NewRecord(ws[i], ws[i + 1]);
      a.deployed.Ended? && a.deployed.outcome.Raised? && !a.deployed.migration.NeverStarted?
      && !r.outcome.InProgress? ==>
        forall n :: |ws[i + 1].history| <= n < |ws[j].history| ==>
          ws[j].history[n].identity.environment != Production
  {
    var w, w', identity := ws[i], ws[i + 1], rs[i].identity;
    assert Step(policy, w, w', rs[i]);
    RunHistoryGrows(policy, ws, rs, i + 1, j);
    var a, r := NewAttempt(w, w'), NewRecord(w, w');
    assert Ending(policy, w.production, w'.production, a, r);
    if a.deployed.Ended? && a.deployed.outcome.Raised? && !a.deployed.migration.NeverStarted?
       && !r.outcome.InProgress? {
      assert DatabaseReview(r);
      ReviewLatch(policy, ws, rs, i + 1, j, Production);
    }
  }

  lemma {:induction false} RunHistoryGrows(policy: Policy, ws: seq<World>, rs: seq<Report>, i: nat, j: nat)
    requires IsRun(policy, ws, rs) && i <= j < |ws|
    ensures ws[i].history <= ws[j].history
  {
    if i < j {
      hide Step;
      RunHistoryGrows(policy, ws, rs, i, j - 1);
      StepKeeps(policy, ws[j - 1], ws[j], rs[j - 1]);
    }
  }

  // ------------------------------------------------------------------
  // What a submission that is repeated is told.

  /** In every world of a run, a submission that is on record is answered by its own
      record, and never as a conflict. */
  lemma RepeatedIsReplayed(policy: Policy, ws: seq<World>, rs: seq<Report>, i: nat, identity: Identity)
    requires IsRun(policy, ws, rs) && i < |ws|
    ensures Distinct(ws[i].records)
    ensures forall k :: 0 <= k < |ws[i].records| && ws[i].records[k].identity == identity ==>
      Decide(ws[i].records, identity) == Replay(k)
  {
    hide Step, Decide;
    RunKeepsInv(policy, ws, rs, i);
    assert Distinct(ws[i].records);
    ResubmissionIsReplay(ws[i].records, identity);
  }
}
