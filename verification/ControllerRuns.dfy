/** What holds over whole runs of the release controller: any number of
    submissions, agent retries and reconciliation commands, each of which may
    fail or stop anywhere. */
module ControllerRuns {
  import opened Newlines
  import opened Releases
  import opened DeploymentJournal
  import opened DeploymentLedger
  import opened DeploymentProtocol
  import DurabilityEvidence

  ghost predicate Start(policy: Policy, w: World) {
    CollisionFree(policy) && w.records == [] && w.history == [] && w.journals == map[]
    && Consistent(policy, w.staging) && Consistent(policy, w.production)
  }

  /** The worlds between the invocations, and what each invocation was. */
  ghost predicate Path(policy: Policy, ws: seq<World>, rs: seq<Report>) {
    |ws| == |rs| + 1 && forall i :: 0 <= i < |rs| ==> Step(policy, ws[i], ws[i + 1], rs[i])
  }

  ghost predicate IsRun(policy: Policy, ws: seq<World>, rs: seq<Report>) {
    Path(policy, ws, rs) && Start(policy, ws[0])
  }

  // ------------------------------------------------------------------
  // The invariant.

  /** No two records agree in a replay key, no two run in one environment, and no
      two are successes of one manifest in one environment. */
  ghost predicate Exclusive(records: seq<Record>) {
    forall i, j {:trigger records[i], records[j]} :: 0 <= i < j < |records| ==>
      && !Shares(records[i].identity, records[j].identity)
      && (records[i].identity.environment == records[j].identity.environment ==>
            && !(records[i].outcome.InProgress? && records[j].outcome.InProgress?)
            && (records[i].identity.manifest == records[j].identity.manifest ==>
                  !(records[i].outcome.Success? && records[j].outcome.Success?)))
  }

  /** A running record whose transaction has not persisted a first step. */
  predicate Pristine(r: Record) {
    r.outcome.InProgress? && r.phase.Accepted? && r.migration.NeverStarted? && r.result.NoResult?
  }

  /** Some record of the environment blocks it and is not merely pristine. */
  ghost predicate Dirty(records: seq<Record>, environment: Environment) {
    exists k :: 0 <= k < |records| && records[k].identity.environment == environment && Blocks(records[k])
        && !Pristine(records[k])
  }

  /** Every attempt has its record, and no two attempts agree in a replay key. */
  ghost predicate Recorded(w: World) {
    && (forall n :: 0 <= n < |w.history| ==> Known(w.records, w.history[n].identity))
    && (forall m, n {:trigger w.history[m], w.history[n]} :: 0 <= m < n < |w.history| ==>
          !Shares(w.history[m].identity, w.history[n].identity))
    && (forall id :: id in w.journals ==> KnownId(w.records, id))
  }

  ghost predicate Known(records: seq<Record>, identity: Identity) {
    exists k :: 0 <= k < |records| && records[k].identity == identity
  }

  ghost predicate KnownId(records: seq<Record>, id: DeploymentId) {
    exists k :: 0 <= k < |records| && records[k].identity.deploymentId == id
  }

  /** An accepted record has no journal and no attempt of it has done anything. */
  ghost predicate Idling(w: World) {
    forall k :: 0 <= k < |w.records| && w.records[k].phase.Accepted? ==> IdlesAt(w, w.records[k].identity)
  }

  ghost predicate IdlesAt(w: World, identity: Identity) {
    && identity.deploymentId !in w.journals
    && forall n :: 0 <= n < |w.history| && w.history[n].identity == identity ==> w.history[n].events == []
  }

  ghost predicate Inv(w: World) {
    Exclusive(w.records) && Recorded(w) && Idling(w)
  }

  // ------------------------------------------------------------------
  // Every invocation keeps it.

  lemma KeepsExclusive(policy: Policy, w: World, w': World, report: Report)
    requires Inv(w) && Step(policy, w, w', report)
    ensures Exclusive(w'.records)
  {
    hide Transacted, Evidenced, Journals, Recorded, Idling;
    if report.Opening? || report.Execution? {
      var n := |w.records|;
      var d := Decide(w.records, report.identity);
      forall i | 0 <= i < n
        ensures !Shares(w'.records[i].identity, w'.records[n].identity)
        ensures w'.records[i].identity.environment == w'.records[n].identity.environment ==>
          !(w'.records[i].outcome.InProgress? && w'.records[n].outcome.InProgress?)
      {
        assert w'.records[i] == w.records[i];
        if d.New? && w.records[i].outcome.InProgress? { assert Reconciliation(w.records[i]); }
      }
    }
  }

  /** What every invocation keeps of the records, the journals and the history. */
  lemma StepKeeps(policy: Policy, w: World, w': World, report: Report)
    requires Step(policy, w, w', report)
    ensures |w.records| <= |w'.records|
    ensures forall k :: 0 <= k < |w.records| ==>
      || SameButSync(w.records[k], w'.records[k])
      || (report == Closing(k) && Clearable(policy, w, k) && w'.records[k] == Reconciled(w.records[k]))
    ensures forall id :: id in w.journals ==> id in w'.journals && w'.journals[id] == w.journals[id]
    ensures w.history <= w'.history
  {
    hide Transacted, Evidenced, Names, Returns, Opens;
  }

  /** What an invocation adds: a record of a new submission, its attempt, and the
      journal of that attempt. */
  lemma StepAdds(policy: Policy, w: World, w': World, report: Report)
    requires Step(policy, w, w', report)
    ensures |w'.records| <= |w.records| + 1
    ensures |w'.records| == |w.records| + 1 ==>
      forall k :: 0 <= k < |w.records| ==> !Shares(w.records[k].identity, NewRecord(w, w').identity)
    ensures !report.Execution? ==> w'.history == w.history && w'.journals == w.journals
    ensures report.Execution? ==>
      && |w'.records| == |w.records| + 1 && w'.history[..|w.history|] == w.history
      && |w'.history| == |w.history| + 1 && NewAttempt(w, w').identity == NewRecord(w, w').identity
      && (forall id :: id in w'.journals ==> id in w.journals || id == NewRecord(w, w').identity.deploymentId)
      && (NewRecord(w, w').phase.Accepted? ==> NewAttempt(w, w').events == [] && w'.journals == w.journals)
  {
    hide Bound, Ending, Evidenced, Returns, Names, Stamped;
  }

  /** The records keep the identities and, until they are closed, the phase. */
  lemma IdentitiesStay(policy: Policy, w: World, w': World, report: Report)
    requires Step(policy, w, w', report)
    ensures |w.records| <= |w'.records|
    ensures forall k :: 0 <= k < |w.records| ==> w'.records[k].identity == w.records[k].identity
    ensures forall k :: 0 <= k < |w.records| && w'.records[k].phase.Accepted? ==> w.records[k].phase.Accepted?
  {
    hide Step, Clearable;
    StepKeeps(policy, w, w', report);
  }

  lemma KeepsKnown(policy: Policy, w: World, w': World, report: Report)
    requires Step(policy, w, w', report)
    ensures forall identity :: Known(w.records, identity) ==> Known(w'.records, identity)
    ensures forall id :: KnownId(w.records, id) ==> KnownId(w'.records, id)
  {
    hide Step;
    IdentitiesStay(policy, w, w', report);
    forall identity | Known(w.records, identity)
      ensures Known(w'.records, identity)
    {
      var k :| 0 <= k < |w.records| && w.records[k].identity == identity;
      assert w'.records[k].identity == identity;
    }
    forall id | KnownId(w.records, id)
      ensures KnownId(w'.records, id)
    {
      var k :| 0 <= k < |w.records| && w.records[k].identity.deploymentId == id;
      assert w'.records[k].identity.deploymentId == id;
    }
  }

  lemma KeepsRecorded(policy: Policy, w: World, w': World, report: Report)
    requires Inv(w) && Step(policy, w, w', report)
    ensures Recorded(w')
  {
    hide Step, Exclusive, Idling;
    KeepsKnown(policy, w, w', report);
    StepAdds(policy, w, w', report);
    if report.Execution? {
      var r := NewRecord(w, w');
      assert w'.records[|w.records|].identity == r.identity;
      assert Known(w'.records, r.identity) && KnownId(w'.records, r.identity.deploymentId);
      forall m | 0 <= m < |w.history|
        ensures !Shares(w.history[m].identity, r.identity) && w'.history[m] == w.history[m]
      {
        assert Known(w.records, w.history[m].identity);
      }
    }
  }

  lemma KeepsIdling(policy: Policy, w: World, w': World, report: Report)
    requires Inv(w) && Step(policy, w, w', report)
    ensures Idling(w')
  {
    hide Step, Exclusive;
    IdentitiesStay(policy, w, w', report);
    StepAdds(policy, w, w', report);
    forall k | 0 <= k < |w'.records| && w'.records[k].phase.Accepted?
      ensures IdlesAt(w', w'.records[k].identity)
    {
      if k == |w.records| {
        NewIdles(policy, w, w', report);
      } else {
        assert IdlesAt(w, w.records[k].identity);
        if report.Execution? { assert !Shares(w.records[k].identity, NewRecord(w, w').identity); }
      }
    }
  }

  lemma NewIdles(policy: Policy, w: World, w': World, report: Report)
    requires Recorded(w) && Step(policy, w, w', report)
    requires |w'.records| == |w.records| + 1 && NewRecord(w, w').phase.Accepted?
    ensures IdlesAt(w', NewRecord(w, w').identity)
  {
    hide Step;
    StepAdds(policy, w, w', report);
    var identity := NewRecord(w, w').identity;
    assert identity.deploymentId in w.journals ==> KnownId(w.records, identity.deploymentId);
    forall n | 0 <= n < |w.history|
      ensures w.history[n].identity != identity
    {
      assert Known(w.records, w.history[n].identity);
    }
  }

  /** The invariant holds in every world of every run. */
  lemma {:induction false} RunKeepsInv(policy: Policy, ws: seq<World>, rs: seq<Report>, i: nat)
    requires IsRun(policy, ws, rs) && i < |ws|
    ensures Inv(ws[i])
  {
    if i > 0 {
      RunKeepsInv(policy, ws, rs, i - 1);
      var w, w', report := ws[i - 1], ws[i], rs[i - 1];
      assert Step(policy, w, w', report);
      KeepsExclusive(policy, w, w', report);
      KeepsRecorded(policy, w, w', report);
      KeepsIdling(policy, w, w', report);
    }
  }

  // ------------------------------------------------------------------
  // Databases and authorities.

  ghost predicate Sound(policy: Policy, w: World) {
    forall environment :: !Dirty(w.records, environment) ==> Consistent(policy, w.At(environment))
  }

  predicate Unblocked(records: seq<Record>, environment: Environment) {
    !InReview(records, environment) && !InReconciliation(records, environment)
  }

  /** If the transaction completed a migration and left no blocker, its target
      extends the schema that it found. */
  predicate Extends(w: World, w': World, report: Report)
    requires report.Execution? ==> |w'.records| == |w.records| + 1 && |w'.history| == |w.history| + 1
  {
    report.Execution? ==>
      var r, a := w'.records[|w.records|], w'.history[|w.history|];
      r.migration.Completed? && !Blocks(r) ==> w.At(r.identity.environment).database <= a.plan.schema
  }

  /** A transaction from a consistent host that leaves no blocker, or has not
      passed its first step, leaves a consistent host exactly if it did not
      complete a migration to a target that does not extend the schema found. */
  lemma EndsConsistentIff(policy: Policy, records: seq<Record>, h: HostState, after: HostState, a: Attempt, r: Record)
    requires Transacted(policy, records, h, after, a, r) && Consistent(policy, h) && CollisionFree(policy)
    requires !Blocks(r) || Pristine(r)
    ensures Consistent(policy, after) <==> (r.migration.Completed? ==> h.database <= a.plan.schema)
  {
    if a.deployed.Ended? {
      assert a.events != [];
      assert Planned(policy, h, a.identity, a.plan);
      if OnTarget(h, after, a.plan) && a.plan.changed {
        MigratedToTarget(h.database, a.plan.schema, after.database);
      }
    }
  }

  lemma KeepsSound(policy: Policy, w: World, w': World, report: Report)
    requires Sound(policy, w) && CollisionFree(policy) && Step(policy, w, w', report) && Extends(w, w', report)
    ensures Sound(policy, w')
  {
    forall environment | !Dirty(w'.records, environment)
      ensures Consistent(policy, w'.At(environment))
    {
      if report.Closing? || report.Synchronized? {
        ChangedKeepsSound(policy, w, w', report, environment);
      } else if report.Opening? || report.Execution? {
        AppendedKeepsSound(policy, w, w', report, environment);
      }
    }
  }

  lemma ChangedKeepsSound(policy: Policy, w: World, w': World, report: Report, environment: Environment)
    requires Sound(policy, w) && Step(policy, w, w', report) && (report.Closing? || report.Synchronized?)
    requires !Dirty(w'.records, environment)
    ensures Consistent(policy, w'.At(environment))
  {
    forall k | 0 <= k < |w.records| && w.records[k].identity.environment == environment
      ensures !(Blocks(w.records[k]) && !Pristine(w.records[k]))
    {
      assert w'.records[k].identity.environment == environment;
    }
    assert !Dirty(w.records, environment);
  }

  lemma AppendedKeepsSound(policy: Policy, w: World, w': World, report: Report, environment: Environment)
    requires Sound(policy, w) && CollisionFree(policy) && Step(policy, w, w', report) && Extends(w, w', report)
    requires report.Opening? || report.Execution?
    requires !Dirty(w'.records, environment)
    ensures Consistent(policy, w'.At(environment))
  {
    forall k | 0 <= k < |w.records| && w.records[k].identity.environment == environment
      ensures !(Blocks(w.records[k]) && !Pristine(w.records[k]))
    {
      assert w'.records[k] == w.records[k];
    }
    assert !Dirty(w.records, environment);
    var r := w'.records[|w.records|];
    if report.Execution? && r.identity.environment == environment {
      assert !Blocks(r) || Pristine(r);
      EndsConsistentIff(policy, w.records, w.At(environment), w'.At(environment), w'.history[|w.history|], r);
    }
  }

  /** Every migration of the first `n` invocations that was completed without
      leaving a blocker went to a target that extends the schema it found. */
  ghost predicate Forward(policy: Policy, ws: seq<World>, rs: seq<Report>, n: nat)
    requires IsRun(policy, ws, rs) && n <= |rs|
  {
    forall i :: 0 <= i < n ==> Step(policy, ws[i], ws[i + 1], rs[i]) && Extends(ws[i], ws[i + 1], rs[i])
  }

  /** No world of the run has an environment that is not blocked with a database
      its authority does not fit. */
  ghost predicate FreeOfMismatch(policy: Policy, ws: seq<World>) {
    forall i, environment :: 0 <= i < |ws| && Unblocked(ws[i].records, environment) ==>
      Consistent(policy, ws[i].At(environment))
  }

  lemma {:induction false} RunKeepsSound(policy: Policy, ws: seq<World>, rs: seq<Report>, i: nat)
    requires IsRun(policy, ws, rs) && i <= |rs| && Forward(policy, ws, rs, i)
    ensures Sound(policy, ws[i])
  {
    if i > 0 {
      RunKeepsSound(policy, ws, rs, i - 1);
      KeepsSound(policy, ws[i - 1], ws[i], rs[i - 1]);
    }
  }

  /** As long as migrations go forward, no failure, crash, rollback, retry or
      reconciliation leaves an unblocked mismatch. */
  lemma NoUnblockedMismatch(policy: Policy, ws: seq<World>, rs: seq<Report>, i: nat, environment: Environment)
    requires IsRun(policy, ws, rs) && i <= |rs| && Forward(policy, ws, rs, i)
    ensures Unblocked(ws[i].records, environment) ==> Consistent(policy, ws[i].At(environment))
  {
    RunKeepsSound(policy, ws, rs, i);
    assert Unblocked(ws[i].records, environment) ==> !Dirty(ws[i].records, environment);
  }

  lemma UnblockedAfter(policy: Policy, w: World, w': World, report: Report)
    requires Step(policy, w, w', report) && report.Execution? && !Blocks(w'.records[|w.records|])
    ensures Unblocked(w.records, report.identity.environment) && Unblocked(w'.records, report.identity.environment)
  {
    hide Transacted, Evidenced, Journals;
    assert forall k :: 0 <= k < |w.records| ==> w'.records[k] == w.records[k];
  }

  /** A run is free of unblocked mismatches exactly if its migrations go forward:
      every target of a completed migration extends the schema it found. */
  lemma FreeOfMismatchIffForward(policy: Policy, ws: seq<World>, rs: seq<Report>)
    requires IsRun(policy, ws, rs)
    ensures FreeOfMismatch(policy, ws) <==> Forward(policy, ws, rs, |rs|)
  {
    if Forward(policy, ws, rs, |rs|) {
      forall i, environment | 0 <= i < |ws| && Unblocked(ws[i].records, environment)
        ensures Consistent(policy, ws[i].At(environment))
      {
        NoUnblockedMismatch(policy, ws, rs, i, environment);
      }
    }
    if FreeOfMismatch(policy, ws) {
      forall i | 0 <= i < |rs|
        ensures Step(policy, ws[i], ws[i + 1], rs[i]) && Extends(ws[i], ws[i + 1], rs[i])
      {
        ConsistentExtends(policy, ws[i], ws[i + 1], rs[i]);
      }
    }
  }

  lemma ConsistentExtends(policy: Policy, w: World, w': World, report: Report)
    requires Step(policy, w, w', report) && CollisionFree(policy)
    requires forall e :: Unblocked(w.records, e) ==> Consistent(policy, w.At(e))
    requires forall e :: Unblocked(w'.records, e) ==> Consistent(policy, w'.At(e))
    ensures Extends(w, w', report)
  {
    if report.Execution? && !Blocks(w'.records[|w.records|]) {
      var environment := report.identity.environment;
      UnblockedAfter(policy, w, w', report);
      EndsConsistentIff(policy, w.records, w.At(environment), w'.At(environment),
                        w'.history[|w.history|], w'.records[|w.records|]);
    }
  }

  /** If the release of each transaction with another fingerprint extends the one
      that is active when it starts, the run is free of unblocked mismatches. A
      caller can compare the two releases before it submits one. */
  lemma ExtendingReleasesFit(policy: Policy, ws: seq<World>, rs: seq<Report>)
    requires IsRun(policy, ws, rs)
    requires forall i :: 0 <= i < |rs| ==> ReleaseExtends(policy, ws[i], ws[i + 1], rs[i])
    ensures FreeOfMismatch(policy, ws)
  {
    ExtendingGoesForward(policy, ws, rs, |rs|);
    FreeOfMismatchIffForward(policy, ws, rs);
  }

  ghost predicate ReleaseExtends(policy: Policy, w: World, w': World, report: Report) {
    Step(policy, w, w', report) && report.Execution? && NewAttempt(w, w').events != [] ==>
      var a := NewAttempt(w, w');
      a.plan.changed ==>
        policy[w.At(report.identity.environment).active[ManifestFile]].migrations <= a.plan.schema
  }

  lemma {:induction false} ExtendingGoesForward(policy: Policy, ws: seq<World>, rs: seq<Report>, n: nat)
    requires IsRun(policy, ws, rs) && n <= |rs|
    requires forall i :: 0 <= i < |rs| ==> ReleaseExtends(policy, ws[i], ws[i + 1], rs[i])
    ensures Forward(policy, ws, rs, n)
  {
    if n > 0 {
      hide Step, Consistent, ReleaseExtends, Unblocked, Extends, Forward;
      ExtendingGoesForward(policy, ws, rs, n - 1);
      var w, w', report := ws[n - 1], ws[n], rs[n - 1];
      assert Step(policy, w, w', report) && ReleaseExtends(policy, w, w', report);
      forall environment
        ensures Unblocked(w.records, environment) ==> Consistent(policy, w.At(environment))
      {
        NoUnblockedMismatch(policy, ws, rs, n - 1, environment);
      }
      ReadyAndExtending(policy, w, w', report);
      OneMoreForward(policy, ws, rs, n);
    }
  }

  lemma OneMoreForward(policy: Policy, ws: seq<World>, rs: seq<Report>, n: nat)
    requires IsRun(policy, ws, rs) && 0 < n <= |rs| && Forward(policy, ws, rs, n - 1)
    requires Step(policy, ws[n - 1], ws[n], rs[n - 1]) && Extends(ws[n - 1], ws[n], rs[n - 1])
    ensures Forward(policy, ws, rs, n)
  {
    hide Step, Extends;
  }

  lemma ReadyAndExtending(policy: Policy, w: World, w': World, report: Report)
    requires Step(policy, w, w', report) && ReleaseExtends(policy, w, w', report)
    requires forall e :: Unblocked(w.records, e) ==> Consistent(policy, w.At(e))
    ensures Extends(w, w', report)
  {
    hide Journals, Evidenced, Registered, Intact, Follows;
    if report.Execution? {
      var r, a, environment := NewRecord(w, w'), NewAttempt(w, w'), report.identity.environment;
      assert Unblocked(w.records, environment);
      assert Transacted(policy, w.records, w.At(environment), w'.At(environment), a, r);
      if r.migration.Completed? && !Blocks(r) {
        assert a.deployed.Ended?;
        assert a.events != [];
      }
    }
  }

  // ------------------------------------------------------------------
  // The theorems.

  /** Identities, running records, successes and attempts exclude each other. */
  lemma AtMostOnce(policy: Policy, ws: seq<World>, rs: seq<Report>, i: nat)
    requires IsRun(policy, ws, rs) && i < |ws|
    ensures Exclusive(ws[i].records) && Distinct(ws[i].records)
    ensures forall m, n {:trigger ws[i].history[m], ws[i].history[n]} :: 0 <= m < n < |ws[i].history| ==>
      && ws[i].history[m].identity.deploymentId != ws[i].history[n].identity.deploymentId
      && ws[i].history[m].identity.intent != ws[i].history[n].identity.intent
      && ws[i].history[m].identity.jti != ws[i].history[n].identity.jti
      && ws[i].history[m].identity.nonce != ws[i].history[n].identity.nonce
    ensures forall n :: 0 <= n < |ws[i].history| ==> Known(ws[i].records, ws[i].history[n].identity)
  {
    RunKeepsInv(policy, ws, rs, i);
  }

  lemma StepKeepsReview(policy: Policy, w: World, w': World, report: Report, environment: Environment)
    requires Step(policy, w, w', report) && InReview(w.records, environment)
    ensures InReview(w'.records, environment) && w.history <= w'.history
    ensures forall n :: |w.history| <= n < |w'.history| ==> w'.history[n].identity.environment != environment
  {
    hide Evidenced, Journals, Bound, Ending;
    var k :| 0 <= k < |w.records| && w.records[k].identity.environment == environment && DatabaseReview(w.records[k]);
    assert DatabaseReview(w'.records[k]) && w'.records[k].identity.environment == environment;
  }

  /** Once an environment is in database review it stays there, and no later
      invocation enters a transaction in it. */
  lemma {:induction false} ReviewLatch(policy: Policy, ws: seq<World>, rs: seq<Report>, i: nat, j: nat,
      environment: Environment)
    requires IsRun(policy, ws, rs) && i <= j < |ws| && InReview(ws[i].records, environment)
    ensures InReview(ws[j].records, environment)
    ensures ws[i].history <= ws[j].history
    ensures forall n :: |ws[i].history| <= n < |ws[j].history| ==> ws[j].history[n].identity.environment != environment
  {
    if i < j {
      hide Step;
      ReviewLatch(policy, ws, rs, i, j - 1, environment);
      StepKeepsReview(policy, ws[j - 1], ws[j], rs[j - 1], environment);
    }
  }

  /** A reconciliation blocker disappears between two invocations only through
      the reconciliation command, and then its record is a Staging record whose
      transaction performed no step, has no journal and changed no file. */
  lemma OnlyReconciliationClears(policy: Policy, ws: seq<World>, rs: seq<Report>, i: nat, k: nat)
    requires IsRun(policy, ws, rs) && i < |rs| && k < |ws[i].records|
    requires Reconciliation(ws[i].records[k]) && !(k < |ws[i + 1].records| && Reconciliation(ws[i + 1].records[k]))
    ensures rs[i] == Closing(k) && ws[i].records[k].identity.environment.Staging?
    ensures ws[i].records[k].identity.deploymentId !in ws[i].journals
    ensures forall n :: 0 <= n < |ws[i].history| && ws[i].history[n].identity == ws[i].records[k].identity ==>
      ws[i].history[n].events == []
    ensures ws[i + 1].staging == ws[i].staging
    ensures Forward(policy, ws, rs, i) ==> Consistent(policy, ws[i].staging)
  {
    RunKeepsInv(policy, ws, rs, i);
    RunKeepsInv(policy, ws, rs, i + 1);
    var w, w' := ws[i], ws[i + 1];
    assert Step(policy, w, w', rs[i]);
    if rs[i].Closing? {
      assert MayReconcile(w.records, rs[i].index);
      assert forall j :: 0 <= j < |w.records| && j != k && w.records[j].identity.environment.Staging? ==>
        !Blocks(w.records[j]);
      assert !Dirty(w.records, Staging);
      if Forward(policy, ws, rs, i) { RunKeepsSound(policy, ws, rs, i); }
    }
  }

  /** A success is never undone. */
  lemma {:induction false} SuccessStays(policy: Policy, ws: seq<World>, rs: seq<Report>, i: nat, j: nat,
      manifest: string)
    requires IsRun(policy, ws, rs) && i <= j < |ws| && StagingSuccess(ws[i].records, manifest)
    ensures StagingSuccess(ws[j].records, manifest)
  {
    if i < j {
      hide Step, Clearable;
      SuccessStays(policy, ws, rs, i, j - 1, manifest);
      StepKeeps(policy, ws[j - 1], ws[j], rs[j - 1]);
      var k :| 0 <= k < |ws[j - 1].records| && SuccessFor(ws[j - 1].records[k], Staging, manifest);
      assert SuccessFor(ws[j].records[k], Staging, manifest);
    }
  }

  /** Whenever the active Production authority changes, the invocation entered a
      transaction whose manifest had already succeeded on Staging; if the
      migration fingerprint changes too, its events hold in this order the
      health of Production, the deep-verified backup, the receipt, and the
      evidence for that backup, deployment, fingerprints and manifest, all
      before the authority was touched. */
  lemma ProductionIsGated(policy: Policy, ws: seq<World>, rs: seq<Report>, i: nat)
    requires IsRun(policy, ws, rs) && i < |rs|
    ensures ws[i].production.active != ws[i + 1].production.active ==>
      && rs[i].Execution? && rs[i].identity.environment.Production?
      && |ws[i + 1].history| == |ws[i].history| + 1
      && var a := ws[i + 1].history[|ws[i].history|];
        && a.identity == rs[i].identity && Activating in a.events
        && (exists k :: 0 <= k < |ws[i].records| && ws[i].records[k].identity.environment == Staging
              && ws[i].records[k].identity.manifest == a.identity.manifest && ws[i].records[k].outcome == Success)
        && BoundTo(policy, ws[i].production, a.identity, a.plan)
        && (a.plan.changed ==>
          && Gated(a.plan, a.events)
          && a.plan.context.deploymentId !in ws[i].evidence
          && AttestedOnly(ws[i + 1].evidence, a.plan.context))
  {
    assert Step(policy, ws[i], ws[i + 1], rs[i]);
    if ws[i].production.active != ws[i + 1].production.active {
      var a := ws[i + 1].history[|ws[i].history|];
      assert Bound(policy, ws[i].records, ws[i].production, ws[i + 1].production, a);
      assert a.events != [];
      assert Planned(policy, ws[i].production, a.identity, a.plan);
      ActivationFollowsPreparation(a.plan, a.events, a.forward);
      assert StagingSuccess(ws[i].records, a.identity.manifest);
      if a.plan.changed {
        ScriptIsGated(a.plan, a.events, a.forward);
        AttestedIsOnly(ws[i + 1].evidence, a.plan.context);
      }
    }
  }

  /** The plan is about the release that was submitted and the one that is active:
      manifest, deployment and fingerprints. */
  ghost predicate BoundTo(policy: Policy, h: HostState, identity: Identity, p: Plan) {
    && ManifestFile in h.active && h.active[ManifestFile] in policy && p.target.manifest in policy
    && var former, target := policy[h.active[ManifestFile]], policy[p.target.manifest];
      && target.sha256 == identity.manifest
      && (p.target.checksum == target.checksumLine || p.target.checksum == target.checksumLine + [10])
      && p.context.deploymentId == identity.deploymentId && p.context.targetManifestSha256 == identity.manifest
      && p.context.current == former.fingerprint && p.context.target == target.fingerprint
      && p.schema == target.migrations && p.environment == identity.environment
      && (p.changed <==> former.fingerprint != target.fingerprint)
  }

  /** The evidence file of the deployment validates for this context and no other. */
  ghost predicate AttestedOnly(files: DurabilityEvidence.Files, context: DurabilityContext) {
    && DurabilityEvidence.Attested(files, context)
    && forall other: DurabilityContext ::
      other.deploymentId == context.deploymentId && DurabilityEvidence.Attested(files, other) ==> other == context
  }

  lemma AttestedIsOnly(files: DurabilityEvidence.Files, context: DurabilityContext)
    requires DurabilityEvidence.Attested(files, context)
    ensures AttestedOnly(files, context)
  {
    forall other: DurabilityContext
      | other.deploymentId == context.deploymentId && DurabilityEvidence.Attested(files, other)
      ensures other == context
    {
      DurabilityEvidence.AttestedOnce(files, other, context);
    }
  }

  /** Evidence stays in place over the rest of the run. */
  lemma {:induction false} EvidenceStays(policy: Policy, ws: seq<World>, rs: seq<Report>, i: nat, j: nat)
    requires IsRun(policy, ws, rs) && i <= j < |ws|
    ensures DurabilityEvidence.Kept(ws[i].evidence, ws[j].evidence)
  {
    if i < j {
      hide Transacted;
      EvidenceStays(policy, ws, rs, i, j - 1);
      assert Step(policy, ws[j - 1], ws[j], rs[j - 1]);
    }
  }

  ghost predicate Gated(p: Plan, events: seq<Event>) {
    && Precedes(Finished(Health), Begun(CreateBackup), events)
    && Precedes(Finished(CreateBackup), Receipt(p.context.backupId), events)
    && Precedes(Receipt(p.context.backupId), Evidence(p.context), events)
    && Precedes(Evidence(p.context), Activating, events)
  }

  /** A transaction that did not complete its preparation touched no authority. */
  lemma UnpreparedIsInactive(p: Plan, events: seq<Event>, forward: nat)
    requires Follows(p, events, forward)
    ensures |events[..forward]| < |Preparation(p)| ==> Activating !in events
  {
    hide Preparation, Deployment, Rollback;
    PreparationEvents(p);
    var s := events[..forward];
    assert events == s + events[forward..];
    if |s| < |Preparation(p)| {
      assert s <= Preparation(p);
      Kept(s, Preparation(p));
    }
  }

  lemma ActivationFollowsPreparation(p: Plan, events: seq<Event>, forward: nat)
    requires Follows(p, events, forward) && Activating in events
    ensures Preparation(p) <= events
    ensures p.environment.Production? ==> StagingProven in events
  {
    UnpreparedIsInactive(p, events, forward);
    PreparationEvents(p);
    assert Preparation(p) <= events[..forward];
    Kept(Preparation(p), events);
  }

  /** The preparation of a changed Production release up to its backup receipt. */
  function UpToReceipt(p: Plan): seq<Event> {
    [Wrote(ReleaseAuthenticated), Begun(Validate), Finished(Validate), StagingProven] + BackupChecks(p)
  }

  lemma ReceiptStarts(p: Plan)
    requires p.environment.Production? && p.changed
    ensures UpToReceipt(p) <= Preparation(p) && Evidence(p.context) in Preparation(p)
    ensures Finished(Health) in UpToReceipt(p)[..7] && Finished(CreateBackup) in UpToReceipt(p)[..9]
    ensures Receipt(p.context.backupId) in UpToReceipt(p)
  {
    assert Preparation(p) == UpToReceipt(p) + DurabilityChecks(p) + [Journaled, Wrote(AuthorityChanging)];
    assert Preparation(p)[11] == Evidence(p.context) && UpToReceipt(p)[9] == Receipt(p.context.backupId);
    assert UpToReceipt(p)[..7][5] == Finished(Health) && UpToReceipt(p)[..9][8] == Finished(CreateBackup);
  }

  lemma ReceiptStops(p: Plan)
    ensures Begun(CreateBackup) !in UpToReceipt(p)[..7] && Receipt(p.context.backupId) !in UpToReceipt(p)[..9]
    ensures Evidence(p.context) !in UpToReceipt(p)
  {
  }

  /** In every transaction of a Production release with another fingerprint,
      finished or not. */
  lemma ScriptIsGated(p: Plan, events: seq<Event>, forward: nat)
    requires Follows(p, events, forward) && p.environment.Production? && p.changed
    ensures Gated(p, events)
  {
    ReceiptStarts(p);
    ReceiptStops(p);
    PreparationEvents(p);
    ReceiptHeads(p, events, forward, UpToReceipt(p)[..7], Finished(Health), Begun(CreateBackup));
    ReceiptHeads(p, events, forward, UpToReceipt(p)[..9], Finished(CreateBackup), Receipt(p.context.backupId));
    ReceiptHeads(p, events, forward, UpToReceipt(p), Receipt(p.context.backupId), Evidence(p.context));
    Heads(p, events, forward, Preparation(p), Evidence(p.context), Activating);
  }

  lemma ReceiptHeads(p: Plan, events: seq<Event>, forward: nat, head: seq<Event>, x: Event, y: Event)
    requires Follows(p, events, forward) && head <= UpToReceipt(p) <= Preparation(p) && x in head && y !in head
    ensures Precedes(x, y, events)
  {
    Heads(p, events, forward, head, x, y);
  }

  /** What comes within a head of the preparation precedes what does not. */
  lemma Heads(p: Plan, events: seq<Event>, forward: nat, head: seq<Event>, x: Event, y: Event)
    requires Follows(p, events, forward) && head <= Preparation(p) && x in head && y !in head
    ensures Precedes(x, y, events)
  {
    var s := events[..forward];
    assert events == s + events[forward..];
    if |s| < |head| {
      assert events == s;
      assert s <= head;
    } else {
      assert head <= events;
      forall j | 0 <= j < |events| && events[j] == y
        ensures x in events[..j]
      {
        assert head <= events[..j];
      }
    }
  }

  lemma MigrationEvents(p: Plan)
    ensures Restoring !in Deployment(p)
    ensures !p.changed ==> Begun(Migrate) !in Deployment(p)
    ensures Begun(Migrate) !in BeforeMigration(p) && Begun(Migrate) !in Rollback(p)
  {
    DeploymentNeverRestores(p);
    assert Begun(Migrate) !in Activation() && Begun(Migrate) !in Database();
    assert Begun(Migrate) !in Services(p) && Begun(Migrate) !in Probes(p);
    assert Begun(Migrate) !in Redeployment(p);
  }

  /** A transaction that restores the former release never began a migration. */
  lemma RestoreNeverFollowsMigration(p: Plan, events: seq<Event>, forward: nat)
    ensures Follows(p, events, forward) && Restoring in events ==> Begun(Migrate) !in events
  {
    if Follows(p, events, forward) && Restoring in events {
      var s, b := events[..forward], events[forward..];
      assert events == s + b;
      PreparationEvents(p);
      MigrationEvents(p);
      Kept(s, Script(p));
      Kept(b, Rollback(p));
      assert Restoring in b;
      if p.changed { Kept(s, Preparation(p) + BeforeMigration(p)); }
    }
  }

  // ------------------------------------------------------------------
  // How exact a rollback is.

  /** The rolled-back environment equals the one before the transaction, byte by
      byte, exactly if its checksum file had no carriage return. */
  lemma RollbackIsExact(policy: Policy, h: HostState, after: HostState)
    requires RestoredFrom(policy, h, after)
    ensures after == h <==> CR !in h.active[ChecksumFile]
  {
    TranslateFixes(h.active[ChecksumFile]);
    assert after.active[ChecksumFile] == Translate(h.active[ChecksumFile]);
    if CR !in h.active[ChecksumFile] {
      assert after.active == h.active;
    }
  }

  predicate Clean(h: HostState) {
    ChecksumFile in h.active ==> CR !in h.active[ChecksumFile]
  }

  lemma StepStaysClean(policy: Policy, w: World, w': World, report: Report)
    requires Step(policy, w, w', report) && Clean(w.staging) && Clean(w.production)
    ensures Clean(w'.staging) && Clean(w'.production)
  {
    hide Ending, Evidenced, Journals, Follows, Registered, Stamped, PairFirst, Clearable;
    if report.Execution? {
      var environment := report.identity.environment;
      var h, a := w.At(environment), NewAttempt(w, w');
      assert Bound(policy, w.records, h, w'.At(environment), a);
      if a.events != [] { assert ValidPair(policy, a.plan.target.manifest, a.plan.target.checksum); }
    }
  }

  /** From clean checksum files on, every deployment keeps them clean, so every
      rollback of the run is exact. */
  lemma {:induction false} RunStaysClean(policy: Policy, ws: seq<World>, rs: seq<Report>, i: nat)
    requires IsRun(policy, ws, rs) && i < |ws| && Clean(ws[0].staging) && Clean(ws[0].production)
    ensures Clean(ws[i].staging) && Clean(ws[i].production)
  {
    if i > 0 {
      hide Step, Clean;
      RunStaysClean(policy, ws, rs, i - 1);
      StepStaysClean(policy, ws[i - 1], ws[i], rs[i - 1]);
    }
  }

  /** A transaction that ends rolled back leaves its environment as it was. */
  lemma RolledBackIsUnchanged(policy: Policy, ws: seq<World>, rs: seq<Report>, i: nat)
    requires IsRun(policy, ws, rs) && i < |rs| && Clean(ws[0].staging) && Clean(ws[0].production)
    requires rs[i].Execution?
    requires var r := ws[i + 1].records[|ws[i].records|]; r.outcome.Failure? && r.phase.RolledBack?
    ensures ws[i + 1].At(rs[i].identity.environment) == ws[i].At(rs[i].identity.environment)
  {
    RunStaysClean(policy, ws, rs, i);
    assert Step(policy, ws[i], ws[i + 1], rs[i]);
    var environment := rs[i].identity.environment;
    var h, after := ws[i].At(environment), ws[i + 1].At(environment);
    if RestoredFrom(policy, h, after) { RollbackIsExact(policy, h, after); }
  }

  // ------------------------------------------------------------------
  // How a failure ends.

  /** The record and the attempt that an execution added. */
  function NewRecord(w: World, w': World): Record
    requires |w.records| < |w'.records|
  {
    w'.records[|w.records|]
  }

  function NewAttempt(w: World, w': World): Attempt
    requires |w.history| < |w'.history|
  {
    w'.history[|w.history|]
  }

  ghost predicate Executes(policy: Policy, w: World, w': World, identity: Identity) {
    Step(policy, w, w', Execution(identity))
  }

  /** A terminal failure after the activation began and with no migration started
      ends in one of two ways: rolled back, with the former release active and
      nothing else changed, or rollback-failed, which blocks the environment. */
  lemma FailureEndsInTwoWays(policy: Policy, w: World, w': World, identity: Identity)
    requires Executes(policy, w, w', identity)
    requires NewRecord(w, w').outcome.Failure? && NewRecord(w, w').migration.NeverStarted?
    requires Activating in NewAttempt(w, w').events
    ensures Restores(NewAttempt(w, w'))
    ensures
      || (NewRecord(w, w').phase.RolledBack?
          && RestoredFrom(policy, w.At(identity.environment), w'.At(identity.environment)))
      || (NewRecord(w, w').phase.RollbackFailed? && InReconciliation(w'.records, identity.environment))
  {
    var environment := identity.environment;
    assert Ending(policy, w.At(environment), w'.At(environment), NewAttempt(w, w'), NewRecord(w, w'));
    assert NewRecord(w, w').phase.RollbackFailed? ==> Reconciliation(NewRecord(w, w'));
  }

  /** A rollback is begun exactly if the deployment raised an exception that the
      handler catches, while no migration had been announced. Such a failure ends
      in these two ways, unless its handler stops too; one that is not caught is
      not rolled back. What does not end stays in progress and blocks. */
  lemma CaughtOrNot(policy: Policy, w: World, w': World, identity: Identity)
    requires Executes(policy, w, w', identity)
    ensures var r, a := NewRecord(w, w'), NewAttempt(w, w');
      && (Restoring in a.events <==> Restores(a))
      && (Restores(a) && !r.outcome.InProgress? ==>
        r.outcome.Failure? && r.migration.NeverStarted? && Activating in a.events)
      && (a.deployed.Ended? && (a.deployed.outcome.Escaped? || a.deployed.outcome.Stopped?) ==>
        r.outcome.InProgress? && Restoring !in a.events)
      && (r.outcome.InProgress? ==> InReconciliation(w'.records, identity.environment))
  {
    var environment := identity.environment;
    assert Ending(policy, w.At(environment), w'.At(environment), NewAttempt(w, w'), NewRecord(w, w'));
    assert Bound(policy, w.records, w.At(environment), w'.At(environment), NewAttempt(w, w'));
    assert NewRecord(w, w').outcome.InProgress? ==> Reconciliation(NewRecord(w, w'));
  }

  /** A transaction that began its activation and neither succeeded nor completed
      a migration, whether it failed or stopped, either is rolled back to the
      former release or has left a blocker for its environment. */
  lemma FailureRestoresOrBlocks(policy: Policy, ws: seq<World>, rs: seq<Report>, i: nat)
    requires IsRun(policy, ws, rs) && i < |rs| && rs[i].Execution?
    ensures |ws[i + 1].records| == |ws[i].records| + 1 && |ws[i + 1].history| == |ws[i].history| + 1
    ensures var environment := rs[i].identity.environment;
      var r, a := ws[i + 1].records[|ws[i].records|], ws[i + 1].history[|ws[i].history|];
      !r.outcome.Success? && Activating in a.events && Finished(Migrate) !in a.events ==>
        || InReview(ws[i + 1].records, environment)
        || InReconciliation(ws[i + 1].records, environment)
        || (r.phase.RolledBack? && RestoredFrom(policy, ws[i].At(environment), ws[i + 1].At(environment)))
  {
    assert Step(policy, ws[i], ws[i + 1], rs[i]);
    var environment := rs[i].identity.environment;
    var r, a := ws[i + 1].records[|ws[i].records|], ws[i + 1].history[|ws[i].history|];
    assert Ending(policy, ws[i].At(environment), ws[i + 1].At(environment), a, r);
    if r.outcome.InProgress? || r.phase.RollbackFailed? {
      assert Reconciliation(r);
    } else if r.phase.ManualReview? {
      assert DatabaseReview(r);
    }
  }
}
