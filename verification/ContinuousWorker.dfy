/** The loop of the continuous workers under shutdown signals. A run is the log of
    what it did and what happened to it. */
module ContinuousWorker {
  const MINIMUM_FAILURE_DELAY := 5000
  const MAXIMUM_POLL := 60000

  function Power2(n: nat): (r: nat)
    ensures r >= 1
  {
    if n == 0 then 1 else 2 * Power2(n - 1)
  }

  function Min(a: int, b: int): int { if a < b then a else b }

  function Max(a: int, b: int): int { if a < b then b else a }

  /** `workerFailureDelayMilliseconds`. */
  function FailureDelay(poll: int, failures: int): int {
    Min(MAXIMUM_POLL, Max(MINIMUM_FAILURE_DELAY, poll) * Power2(Min(Max(0, failures - 1), 4)))
  }

  lemma {:induction false} PowerGrows(a: nat, b: nat)
    requires a <= b
    ensures Power2(a) <= Power2(b)
  {
    if a < b {
      PowerGrows(a, b - 1);
    }
  }

  /** A failure delay is at least five seconds and at most a minute, and more
      consecutive failures never make it shorter. */
  lemma FailureDelayIsBounded(poll: int, fewer: int, more: int)
    requires fewer <= more
    ensures MINIMUM_FAILURE_DELAY <= FailureDelay(poll, fewer) <= FailureDelay(poll, more) <= MAXIMUM_POLL
  {
    var a, b := Min(Max(0, fewer - 1), 4), Min(Max(0, more - 1), 4);
    var base := Max(MINIMUM_FAILURE_DELAY, poll);
    PowerGrows(a, b);
    Scaled(base, 1, Power2(a));
    Scaled(base, Power2(a), Power2(b));
  }

  /** The delays, one after the other: the poll interval but at least five seconds,
      doubled with each further failure up to the fifth, never more than a minute. */
  lemma FailureDelayIs(poll: int, failures: int)
    ensures failures <= 1 ==>
      FailureDelay(poll, failures) == if poll <= 5000 then 5000 else if poll <= 60000 then poll else 60000
    ensures 1 <= failures <= 4 ==>
      FailureDelay(poll, failures + 1) == Min(60000, 2 * FailureDelay(poll, failures))
    ensures failures >= 5 ==> FailureDelay(poll, failures) == FailureDelay(poll, 5)
    ensures FailureDelay(5000, 2) == 10000 && FailureDelay(5000, 4) == 40000 && FailureDelay(5000, 5) == 60000
  {
    assert Power2(0) == 1 && Power2(1) == 2 && Power2(2) == 4 && Power2(3) == 8 && Power2(4) == 16;
    var n := Min(Max(0, failures - 1), 4);
    var base := Max(MINIMUM_FAILURE_DELAY, poll);
    if 1 <= failures <= 4 {
      assert n == failures - 1 && Power2(n + 1) == 2 * Power2(n);
      Scaled(base, 1, Power2(n));
      assert base * Power2(n + 1) == 2 * (base * Power2(n));
    }
  }

  /** After an execution that succeeded the worker waits for the poll interval. */
  lemma WaitAfterSuccess(log: Log, poll: int, i: nat)
    requires WellPaced(log, poll) && 0 < i < |log| && log[i].Waited? && log[i - 1].Executed?
    ensures log[i].milliseconds == poll
  {
    assert log[..i][..i - 1] == log[..i - 1] && log[..i][i - 1] == log[i - 1];
  }

  lemma Scaled(base: nat, a: nat, b: nat)
    requires a <= b
    ensures base * a <= base * b
  {
  }

  // ------------------------------------------------------------------
  // Runs.

  datatype Signal = Interrupt | Terminate

  datatype Event =
    | Registered(signal: Signal)
    | Signalled(signal: Signal)
    | Execute
    | Executed
    | IterationFailed
    | Waited(milliseconds: int)
    | RuntimeFailed
    | Removed(signal: Signal)
    | RemovalThrew(signal: Signal)
    | Close
    | CloseThrew

  type Log = seq<Event>

  /** How the call ends; `Killed` stands for a process that is killed while the
      loop goes on. */
  datatype Exit = Returned(code: int) | Rejected | Killed

  /** The number of failures since the last execution that succeeded. */
  function Failures(log: Log): nat {
    if log == [] then 0
    else
      var rest := log[..|log| - 1];
      match log[|log| - 1]
      case Executed => 0
      case IterationFailed => 1 + Failures(rest)
      case _ => Failures(rest)
  }

  /** The number of waits that have begun. */
  function Waits(log: Log): nat {
    if log == [] then 0 else Waits(log[..|log| - 1]) + if log[|log| - 1].Waited? then 1 else 0
  }

  function Wait(poll: int, failures: nat): int {
    if failures == 0 then poll else FailureDelay(poll, failures)
  }

  predicate NoExecuteAfterSignal(log: Log) {
    forall i, j :: 0 <= i < j < |log| && log[i].Signalled? ==> !log[j].Execute?
  }

  /** Each wait is as long as the failures before it demand. */
  predicate WellPaced(log: Log, poll: int) {
    forall i :: 0 <= i < |log| && log[i].Waited? ==> log[i].milliseconds == Wait(poll, Failures(log[..i]))
  }

  function Count(log: Log, e: Event): nat {
    if log == [] then 0 else Count(log[..|log| - 1], e) + if log[|log| - 1] == e then 1 else 0
  }

  predicate Safe(log: Log, poll: int) {
    NoExecuteAfterSignal(log) && WellPaced(log, poll)
  }

  predicate Stopping(log: Log) {
    exists i :: 0 <= i < |log| && log[i].Signalled?
  }

  lemma SafeStep(log: Log, e: Event, poll: int)
    requires Safe(log, poll)
    requires e.Execute? ==> !Stopping(log)
    requires e.Waited? ==> e.milliseconds == Wait(poll, Failures(log))
    ensures Safe(log + [e], poll)
    ensures Stopping(log + [e]) == (Stopping(log) || e.Signalled?)
    ensures Failures(log + [e]) ==
      if e.Executed? then 0 else if e.IterationFailed? then 1 + Failures(log) else Failures(log)
    ensures forall f :: Count(log + [e], f) == Count(log, f) + if f == e then 1 else 0
    ensures Waits(log + [e]) == Waits(log) + if e.Waited? then 1 else 0
  {
    var next := log + [e];
    assert next[..|log|] == log;
    forall i | 0 <= i < |next| && next[i].Waited?
      ensures next[i].milliseconds == Wait(poll, Failures(next[..i]))
    {
      if i < |log| {
        assert next[..i] == log[..i];
      }
    }
    if Stopping(log) {
      var i :| 0 <= i < |log| && log[i].Signalled?;
      assert next[i].Signalled?;
    }
    if e.Signalled? {
      assert next[|log|].Signalled?;
    }
  }

  /** Between two waits without a success in between, the later is not shorter. */
  lemma WaitsGrowUntilSuccess(log: Log, poll: int, i: nat, j: nat)
    requires WellPaced(log, poll) && i < j < |log| && log[i].Waited? && log[j].Waited?
    requires Failures(log[..i]) > 0 && forall k :: i <= k < j ==> !log[k].Executed?
    ensures MINIMUM_FAILURE_DELAY <= log[i].milliseconds <= log[j].milliseconds <= MAXIMUM_POLL
  {
    FailuresGrow(log, i, j);
    FailureDelayIsBounded(poll, Failures(log[..i]), Failures(log[..j]));
  }

  lemma {:induction false} FailuresGrow(log: Log, i: nat, j: nat)
    requires i <= j <= |log| && forall k :: i <= k < j ==> !log[k].Executed?
    ensures Failures(log[..i]) <= Failures(log[..j])
  {
    if i < j {
      FailuresGrow(log, i, j - 1);
      assert log[..j][..j - 1] == log[..j - 1];
    }
  }

  // ------------------------------------------------------------------
  // Waiting.

  /** One call of `waitForWorkerPoll`. The timer and the abort listener exist
      exactly until the promise is resolved, which happens once, at the first of
      the two events. */
  class PollWait {
    var timer: bool
    var listening: bool
    var resolutions: nat

    predicate Valid()
      reads this
    {
      timer == listening && resolutions == if timer then 0 else 1
    }

    constructor (aborted: bool)
      ensures Valid() && timer == !aborted
    {
      if aborted {
        timer, listening, resolutions := false, false, 1;
      } else {
        timer, listening, resolutions := true, true, 0;
      }
    }

    /** `finish`. */
    method Finish()
      requires Valid() && timer
      modifies this
      ensures Valid() && !timer && resolutions == old(resolutions) + 1
    {
      timer := false;
      listening := false;
      resolutions := resolutions + 1;
    }

    /** Time passes or the signal is aborted; only what is still there can fire. */
    method Happens(elapsed: bool, aborted: bool)
      requires Valid()
      modifies this
      ensures Valid() && resolutions == if old(timer) && (elapsed || aborted) then 1 else old(resolutions)
    {
      if elapsed && timer {
        Finish();
      }
      if aborted && listening {
        Finish();
      }
    }
  }

  // ------------------------------------------------------------------
  // The worker.

  /** Listeners of exactly these signals were added, and nothing has been torn down. */
  predicate Running(log: Log, registered: seq<Signal>) {
    && (forall s :: Count(log, Registered(s)) == if s in registered then 1 else 0)
    && (forall s :: Count(log, Removed(s)) == 0 && Count(log, RemovalThrew(s)) == 0)
    && Count(log, Close) == 0 && Count(log, CloseThrew) == 0
  }

  predicate Distinct(signals: seq<Signal>) {
    forall i, j :: 0 <= i < j < |signals| ==> signals[i] != signals[j]
  }

  /** The run has not ended in between. */
  predicate Unended(before: Log, after: Log) {
    Count(after, RuntimeFailed) == Count(before, RuntimeFailed)
  }

  predicate RemovalFailed(log: Log) {
    exists s :: Count(log, RemovalThrew(s)) > 0
  }

  /** A run that ended by itself after the runtime was created. */
  predicate Closed(log: Log, exit: Exit) {
    && Count(log, Close) == (if RemovalFailed(log) then 0 else 1)
    && (exit.Rejected? <==> RemovalFailed(log))
    && (!RemovalFailed(log) ==> forall s :: Count(log, Removed(s)) == Count(log, Registered(s)) <= 1)
    && (forall s :: Count(log, Removed(s)) <= Count(log, Registered(s)))
    && (exit.Returned? ==>
      exit.code == if Count(log, RuntimeFailed) + Count(log, CloseThrew) == 0 then 0 else 1)
  }

  /** The variables of one call of `runContinuousWorker` and of its listeners. */
  class Worker {
    const poll: int
    var log: Log
    var registered: seq<Signal>
    var shutdownRequested: bool
    var consecutiveFailures: nat

    constructor (poll: int)
      ensures Valid() && log == [] && registered == [] && this.poll == poll && Running(log, registered)
    {
      this.poll := poll;
      log, registered, shutdownRequested, consecutiveFailures := [], [], false, 0;
    }

    predicate Valid()
      reads this
    {
      && Safe(log, poll)
      && shutdownRequested == Stopping(log)
      && consecutiveFailures == Failures(log)
    }

    method Note(e: Event)
      requires Valid() && (e.Execute? ==> !shutdownRequested) && (e.Waited? ==>
        e.milliseconds == Wait(poll, consecutiveFailures))
      modifies this`log, this`shutdownRequested, this`consecutiveFailures
      ensures Valid()
      ensures forall f :: Count(log, f) == Count(old(log), f) + if f == e then 1 else 0
      ensures Waits(log) == Waits(old(log)) + if e.Waited? then 1 else 0
      ensures shutdownRequested == (old(shutdownRequested) || e.Signalled?)
      ensures consecutiveFailures ==
        if e.Executed? then 0 else if e.IterationFailed? then old(consecutiveFailures) + 1 else old(consecutiveFailures)
    {
      SafeStep(log, e, poll);
      log := log + [e];
      if e.Signalled? {
        shutdownRequested := true;
      } else if e.Executed? {
        consecutiveFailures := 0;
      } else if e.IterationFailed? {
        consecutiveFailures := consecutiveFailures + 1;
      }
    }

    /** A signal with a listener can arrive here; after the first one the
        listeners do nothing. */
    method MayBeSignalled()
      requires Valid() && Running(log, registered)
      modifies this`log, this`shutdownRequested, this`consecutiveFailures
      ensures Valid() && Running(log, registered)
      ensures Unended(old(log), log) && Count(log, Execute) == Count(old(log), Execute) && Waits(log) == Waits(old(log))
      ensures consecutiveFailures == old(consecutiveFailures)
    {
      var arrives: bool, signal: Signal := *, *;
      if arrives && signal in registered {
        Note(Signalled(signal));
      }
    }

    /** Add the listeners; `threw` tells that the source raised. */
    method Register() returns (threw: bool)
      requires Valid() && Running(log, registered) && registered == []
      modifies this
      ensures Valid() && Running(log, registered) && Distinct(registered)
      ensures Unended(old(log), log) && Count(log, Execute) == Count(old(log), Execute) && Waits(log) == Waits(old(log))
    {
      threw := false;
      var signals := [Interrupt, Terminate];
      for i := 0 to 2
        invariant Valid() && Running(log, registered) && registered == signals[..i]
        invariant Unended(old(log), log) && Count(log, Execute) == Count(old(log), Execute)
            && Waits(log) == Waits(old(log))
      {
        threw := *;
        if threw {
          return;
        }
        Note(Registered(signals[i]));
        registered := registered + [signals[i]];
        MayBeSignalled();
      }
    }

    /** One pass of the loop. */
    method Iterate() returns (threw: bool)
      requires Valid() && Running(log, registered) && !shutdownRequested
      modifies this`log, this`shutdownRequested, this`consecutiveFailures
      ensures Valid() && Running(log, registered)
      ensures Unended(old(log), log) && Count(log, Execute) == Count(old(log), Execute) + 1
      ensures !shutdownRequested ==> Waits(log) == Waits(old(log)) + 1
    {
      Note(Execute);
      MayBeSignalled();
      var waitMilliseconds := poll;
      var executed: bool, summarized: bool := *, *;
      if executed {
        Note(Executed);
      }
      if !executed || !summarized {
        Note(IterationFailed);
        waitMilliseconds := FailureDelay(poll, consecutiveFailures);
      }
      threw := Pause(waitMilliseconds);
    }

    /** The wait that ends an iteration, unless a signal has come. */
    method Pause(milliseconds: int) returns (threw: bool)
      requires Valid() && Running(log, registered) && milliseconds == Wait(poll, consecutiveFailures)
      modifies this`log, this`shutdownRequested, this`consecutiveFailures
      ensures Valid() && Running(log, registered)
      ensures Unended(old(log), log) && Count(log, Execute) == Count(old(log), Execute)
      ensures !shutdownRequested ==> Waits(log) == Waits(old(log)) + 1
    {
      threw := false;
      if !shutdownRequested {
        Note(Waited(milliseconds));
        MayBeSignalled();
        threw := *;
      }
    }

    /** Remove the listeners in order; the first removal that raises ends it. */
    method RemoveListeners() returns (threw: bool)
      requires Valid() && Running(log, registered) && Distinct(registered)
      modifies this`log, this`shutdownRequested, this`consecutiveFailures
      ensures Valid() && threw == RemovalFailed(log) && shutdownRequested == old(shutdownRequested)
      ensures Count(log, Close) == 0 && Count(log, CloseThrew) == 0
      ensures Count(log, RuntimeFailed) == Count(old(log), RuntimeFailed)
      ensures forall s :: Count(log, Removed(s)) <= Count(log, Registered(s)) <= 1
      ensures !threw ==> forall s :: Count(log, Removed(s)) == Count(log, Registered(s))
    {
      for i := 0 to |registered|
        invariant Valid() && shutdownRequested == old(shutdownRequested)
        invariant !RemovalFailed(log) && Count(log, Close) == 0 && Count(log, CloseThrew) == 0
        invariant Count(log, RuntimeFailed) == Count(old(log), RuntimeFailed)
        invariant forall s :: Count(log, Removed(s)) == if s in registered[..i] then 1 else 0
        invariant forall s :: Count(log, Registered(s)) == if s in registered then 1 else 0
      {
        threw := *;
        if threw {
          Note(RemovalThrew(registered[i]));
          assert Count(log, RemovalThrew(registered[i])) > 0;
          return;
        }
        Note(Removed(registered[i]));
      }
      assert registered[..|registered|] == registered;
      threw := false;
    }

    /** The `finally` block. */
    method TearDown() returns (exit: Exit)
      requires Valid() && Running(log, registered) && Distinct(registered)
      modifies this`log, this`shutdownRequested, this`consecutiveFailures
      ensures Valid() && Closed(log, exit) && !exit.Killed?
      ensures shutdownRequested == old(shutdownRequested) && Unended(old(log), log)
    {
      var threw := RemoveListeners();
      if threw {
        return Rejected;
      }
      Note(Close);
      threw := *;
      if threw {
        Note(CloseThrew);
      }
      exit := Returned(if threw || Count(log, RuntimeFailed) > 0 then 1 else 0);
    }
  }

  /** `runContinuousWorker`, for a process that is killed from outside after
      `lifetime` passes of the loop if it has not ended by then. After the first
      signal nothing is executed; every wait follows the failures before it; and a
      run that ends has closed its runtime once and removed each listener once,
      exactly if no removal raised. */
  method RunContinuousWorker(poll: int, lifetime: nat) returns (exit: Exit, log: Log)
    ensures Safe(log, poll)
    ensures log == [] || exit.Killed? || Closed(log, exit)
    ensures log == [] ==> exit == Returned(1) || exit.Killed?
    ensures exit.Killed? ==> Count(log, Close) == 0 && Count(log, Execute) == Waits(log) == lifetime && !Stopping(log)
    ensures log != [] && !exit.Killed? && Count(log, RuntimeFailed) == 0 ==> Stopping(log)
  {
    var created: bool := *;
    if !created {
      return Returned(1), [];
    }
    var worker := new Worker(poll);
    var threw := worker.Register();
    var passes := lifetime;
    while !threw && !worker.shutdownRequested && passes > 0
      invariant worker.Valid() && Running(worker.log, worker.registered) && Distinct(worker.registered)
      invariant Count(worker.log, RuntimeFailed) == 0
      invariant !threw && !worker.shutdownRequested ==>
        Count(worker.log, Execute) == Waits(worker.log) == lifetime - passes
    {
      threw := worker.Iterate();
      passes := passes - 1;
    }
    if !threw && !worker.shutdownRequested {
      return Killed, worker.log;
    }
    if threw {
      worker.Note(RuntimeFailed);
    }
    exit := worker.TearDown();
    log := worker.log;
  }

  /** What `RunContinuousWorker` says of a log that ends by itself. */
  predicate IsEndedRun(log: Log, exit: Exit, poll: int) {
    Safe(log, poll) && Closed(log, exit) && (Count(log, RuntimeFailed) == 0 ==> Stopping(log))
  }

  lemma EmptyLog(poll: int)
    ensures Safe([], poll) && !Stopping([]) && forall e :: Count([], e) == 0
  {
  }

  lemma BothSignals(s: Signal)
    ensures s in [Interrupt, Terminate]
  {
    assert [Interrupt, Terminate][0] == Interrupt && [Interrupt, Terminate][1] == Terminate;
  }

  /** A run that a signal stops during its first execution. */
  lemma StoppedRun(poll: int) returns (log: Log)
    ensures Safe(log, poll) && Stopping(log) && Running(log, [Interrupt, Terminate]) && Count(log, RuntimeFailed) == 0
  {
    hide Safe, Stopping, Count, Failures, Waits;
    EmptyLog(poll);
    SafeStep([], Registered(Interrupt), poll);
    log := [] + [Registered(Interrupt)];
    SafeStep(log, Registered(Terminate), poll);
    log := log + [Registered(Terminate)];
    SafeStep(log, Execute, poll);
    log := log + [Execute];
    SafeStep(log, Signalled(Terminate), poll);
    log := log + [Signalled(Terminate)];
    forall s: Signal ensures s in [Interrupt, Terminate] { BothSignals(s); }
  }

  /** A run whose first removal throws: it rejects, never closes its runtime and
      keeps both listeners. */
  lemma RemovalCanSkipClose(poll: int) returns (log: Log)
    ensures IsEndedRun(log, Rejected, poll)
    ensures Count(log, RemovalThrew(Interrupt)) == 1 && Count(log, Close) == 0
    ensures forall s :: Count(log, Registered(s)) == 1 && Count(log, Removed(s)) == 0
  {
    hide Safe, Stopping, Count, Failures, Waits;
    var stopped := StoppedRun(poll);
    SafeStep(stopped, RemovalThrew(Interrupt), poll);
    log := stopped + [RemovalThrew(Interrupt)];
    assert Count(log, RemovalThrew(Interrupt)) == 1;
    forall s: Signal ensures s in [Interrupt, Terminate] { BothSignals(s); }
  }
}
