/** Readiness of the audit sink and of the schema shadow: the degraded latch under concurrent callers. */
module RuntimeStatus {
  import opened Counting

  datatype Status = Disabled | Healthy | Degraded

  // ---------------------------------------------------------------- snapshots

  datatype SinkSnapshot = SinkSnapshot(
    started: bool,
    accepting: bool,
    closed: bool,
    workerAlive: bool,
    droppedEvents: int,
    downstreamFailures: int,
    flushFailures: int,
    sinkFailures: int,
    pendingEvents: int,
    noProgressAge: Option<real>,
    stallTimeout: real)

  predicate SinkHealthy(s: SinkSnapshot) {
    && s.started && s.accepting && !s.closed && s.workerAlive
    && s.droppedEvents <= 0 && s.downstreamFailures <= 0 && s.flushFailures <= 0 && s.sinkFailures <= 0
    && !(s.pendingEvents > 0 && s.noProgressAge.Some? && s.noProgressAge.value >= s.stallTimeout)
  }

  datatype ShadowSnapshot = ShadowSnapshot(
    enabled: bool,
    queueDrops: int,
    operationalFailures: int,
    correlationFailures: int,
    emitFailures: int,
    emitSuccesses: int,
    emitAttempts: int,
    stalled: bool,
    started: bool,
    accepting: bool,
    workerAlive: bool,
    shutdownStarted: bool,
    shutdownCompleted: bool,
    shutdownSucceeded: Option<bool>,
    accepted: int,
    completed: int,
    pending: int)

  predicate ShadowHealthy(s: ShadowSnapshot) {
    && s.enabled && s.queueDrops <= 0 && s.operationalFailures <= 0 && s.correlationFailures <= 0
    && s.emitFailures <= 0 && !s.stalled && s.shutdownSucceeded != Some(false) && !s.shutdownStarted
    && (s.started && !s.workerAlive ==> s.shutdownCompleted)
    && s.accepting && s.completed <= s.accepted && s.pending == s.accepted - s.completed
    && s.emitAttempts == s.emitSuccesses + s.emitFailures
  }

  // ---------------------------------------------------------------- one runtime

  /** `enabled` and `needsStart` never change: the audit runtime needs a start, the shadow does not. */
  datatype Runtime = Runtime(enabled: bool, needsStart: bool, started: bool, startFailed: bool,
                             drained: Option<bool>, degraded: bool)

  function FreshRuntime(enabled: bool, needsStart: bool): Runtime {
    Runtime(enabled, needsStart, false, false, None, false)
  }

  function AfterStart(r: Runtime, fails: bool): Runtime {
    if !r.enabled then r else if fails then r.(startFailed := true, degraded := true) else r.(started := true)
  }

  function AfterClose(r: Runtime, drained: bool): Runtime {
    r.(drained := Some(drained), degraded := r.degraded || !drained)
  }

  /** The check a status call makes under the lock, before it takes a snapshot. */
  predicate Passes(r: Runtime) {
    r.enabled && !r.startFailed && (r.needsStart ==> r.started) && r.drained != Some(false) && !r.degraded
  }

  function AfterSnapshot(r: Runtime, healthy: bool): Runtime { if healthy then r else r.(degraded := true) }

  /** The reply of one status call that nobody interleaves with. */
  function StatusOf(r: Runtime, healthy: bool): Status {
    if !r.enabled then Disabled else if Passes(r) && healthy then Healthy else Degraded
  }

  function AfterStatus(r: Runtime, healthy: bool): Runtime { if Passes(r) then AfterSnapshot(r, healthy) else r }

  class AuditRuntimeState {
    const enabled: bool
    var started: bool
    var startFailed: bool
    var shutdownDrained: Option<bool>
    var degradedLatched: bool

    ghost function View(): Runtime
      reads this
    {
      Runtime(enabled, true, started, startFailed, shutdownDrained, degradedLatched)
    }

    constructor (enabled: bool)
      ensures View() == FreshRuntime(enabled, true)
    {
      this.enabled := enabled;
      started, startFailed, shutdownDrained, degradedLatched := false, false, None, false;
    }

    /** `fails` says that the sink's start raises; the exception is passed on. */
    method Start(fails: bool) returns (raised: bool)
      modifies this
      ensures View() == AfterStart(old(View()), fails) && raised == (enabled && fails)
    {
      if !enabled {
        return false;
      }
      if fails {
        startFailed, degradedLatched := true, true;
        return true;
      }
      started := true;
      raised := false;
    }

    /** `sink` is what the sink's close reports, None when it raises. */
    method Close(sink: Option<bool>, upstreamDrained: bool) returns (drained: bool)
      modifies this
      ensures drained == (upstreamDrained && (enabled ==> sink == Some(true)))
      ensures View() == AfterClose(old(View()), drained)
    {
      if !enabled {
        shutdownDrained := Some(upstreamDrained);
        if !upstreamDrained {
          degradedLatched := true;
        }
        return upstreamDrained;
      }
      var sinkDrained := sink.GetOr(false);
      drained := upstreamDrained && sinkDrained;
      shutdownDrained := Some(drained);
      if !drained {
        degradedLatched := true;
      }
    }

    /** `snapshot` is None when taking it raises. */
    method Status(snapshot: Option<SinkSnapshot>) returns (status: Status)
      modifies this
      ensures status == StatusOf(old(View()), snapshot.Some? && SinkHealthy(snapshot.value))
      ensures View() == AfterStatus(old(View()), snapshot.Some? && SinkHealthy(snapshot.value))
      ensures status == Disabled <==> !enabled
      ensures status == Healthy <==>
        && enabled && old(started) && !old(startFailed) && old(shutdownDrained) != Some(false)
        && !old(degradedLatched) && snapshot.Some? && SinkHealthy(snapshot.value)
      ensures status == Healthy ==> !degradedLatched
    {
      if !enabled {
        return Disabled;
      }
      if startFailed || !started || shutdownDrained == Some(false) || degradedLatched {
        return Degraded;
      }
      if snapshot.None? {
        degradedLatched := true;
        return Degraded;
      }
      if !SinkHealthy(snapshot.value) {
        degradedLatched := true;
        return Degraded;
      }
      status := Healthy;
    }
  }

  class ShadowRuntimeState {
    const present: bool
    const enabled: bool
    var shutdownDrained: Option<bool>
    var degradedLatched: bool

    ghost function View(): Runtime
      reads this
    {
      Runtime(enabled, false, false, false, shutdownDrained, degradedLatched)
    }

    /** `present` says that there is an observer, `enabled` that it is switched on. */
    constructor (present: bool, enabled: bool)
      ensures View() == FreshRuntime(present && enabled, false) && this.present == present
    {
      this.present, this.enabled := present, present && enabled;
      shutdownDrained, degradedLatched := None, false;
    }

    method Close(timeout: real, observer: Option<bool>, upstreamDrained: bool) returns (r: Result<bool, string>)
      modifies this
      ensures timeout < 0.0 ==> r.Failure? && View() == old(View())
      ensures timeout >= 0.0 ==>
        && r == Success(upstreamDrained && (present ==> observer == Some(true)))
        && View() == AfterClose(old(View()), r.value)
    {
      if timeout < 0.0 {
        return Failure("shadow shutdown timeout cannot be negative");
      }
      var observerDrained := true;
      if present {
        observerDrained := observer.GetOr(false);
      }
      var drained := upstreamDrained && observerDrained;
      shutdownDrained := Some(drained);
      if !drained {
        degradedLatched := true;
      }
      r := Success(drained);
    }

    method Status(snapshot: Option<ShadowSnapshot>) returns (status: Status)
      modifies this
      ensures status == StatusOf(old(View()), snapshot.Some? && ShadowHealthy(snapshot.value))
      ensures View() == AfterStatus(old(View()), snapshot.Some? && ShadowHealthy(snapshot.value))
      ensures status == Disabled <==> !enabled
      ensures status == Healthy <==>
        && enabled && old(shutdownDrained) != Some(false) && !old(degradedLatched)
        && snapshot.Some? && ShadowHealthy(snapshot.value)
      ensures status == Healthy ==> !degradedLatched
    {
      if !enabled {
        return Disabled;
      }
      if shutdownDrained == Some(false) || degradedLatched {
        return Degraded;
      }
      if snapshot.None? || !ShadowHealthy(snapshot.value) {
        degradedLatched := true;
        return Degraded;
      }
      status := Healthy;
    }
  }

  // ---------------------------------------------------------------- concurrent callers

  /**
   A status call is two steps, `Check` under the lock and `Conclude` with the snapshot; calls of other
   threads may fall in between.
   */
  datatype Call =
    | Start(fails: bool)
    | Close(drained: bool)
    | Check(caller: nat)
    | Conclude(caller: nat, healthy: bool)

  datatype World = World(runtime: Runtime, passed: set<nat>)

  function Apply(w: World, call: Call): World {
    match call
    case Start(fails) => w.(runtime := AfterStart(w.runtime, fails))
    case Close(drained) => w.(runtime := AfterClose(w.runtime, drained))
    case Check(caller) => if Passes(w.runtime) then w.(passed := w.passed + {caller}) else w
    case Conclude(caller, healthy) =>
      if caller in w.passed then World(AfterSnapshot(w.runtime, healthy), w.passed - {caller}) else w
  }

  function Reply(w: World, call: Call): Option<Status> {
    match call
    case Start(_) => None
    case Close(_) => None
    case Check(_) => if !w.runtime.enabled then Some(Disabled) else if Passes(w.runtime) then None else Some(Degraded)
    case Conclude(caller, healthy) =>
      if caller !in w.passed then None else Some(if healthy then Healthy else Degraded)
  }

  /** A status call that nobody interleaves with is its two steps in a row. */
  lemma StatusIsTwoSteps(w: World, caller: nat, healthy: bool)
    requires caller !in w.passed
    ensures var checked := Apply(w, Check(caller));
      && Apply(checked, Conclude(caller, healthy)) == World(AfterStatus(w.runtime, healthy), w.passed)
      && Some(StatusOf(w.runtime, healthy)) ==
           if Reply(w, Check(caller)).Some? then Reply(w, Check(caller)) else Reply(checked, Conclude(caller, healthy))
  {
    assert w.passed + {caller} - {caller} == w.passed;
  }

  function After(start: World, calls: seq<Call>): World {
    if calls == [] then start else Apply(After(start, calls[..|calls| - 1]), calls[|calls| - 1])
  }

  /** The call makes the process lose audit or shadow coverage. */
  predicate Loses(w: World, call: Call) {
    match call
    case Start(fails) => fails
    case Close(drained) => !drained
    case Check(_) => false
    case Conclude(caller, healthy) => caller in w.passed && !healthy
  }

  ghost predicate LosesAt(start: World, calls: seq<Call>, i: nat) {
    i < |calls| && Loses(After(start, calls[..i]), calls[i])
  }

  ghost predicate EverLost(start: World, calls: seq<Call>) {
    exists i :: LosesAt(start, calls, i)
  }

  lemma AfterPrefix(start: World, calls: seq<Call>, i: nat)
    requires i < |calls|
    ensures After(start, calls[..i + 1]) == Apply(After(start, calls[..i]), calls[i])
  {
    assert calls[..i + 1][..i] == calls[..i];
  }

  lemma EverLostStep(start: World, calls: seq<Call>)
    requires calls != []
    ensures EverLost(start, calls) <==>
      EverLost(start, calls[..|calls| - 1]) || LosesAt(start, calls, |calls| - 1)
  {
    var n := |calls| - 1;
    forall i | 0 <= i < n ensures LosesAt(start, calls, i) <==> LosesAt(start, calls[..n], i) {
      assert calls[..n][..i] == calls[..i];
    }
  }

  ghost predicate Remembers(r: Runtime, needsStart: bool, lost: bool, started: bool) {
    && r.enabled && r.needsStart == needsStart && r.degraded == lost && r.started == started
    && (r.startFailed || r.drained == Some(false) ==> r.degraded)
  }

  lemma CallRemembers(w: World, call: Call, needsStart: bool, lost: bool, started: bool)
    requires Remembers(w.runtime, needsStart, lost, started)
    ensures Remembers(Apply(w, call).runtime, needsStart, lost || Loses(w, call), started || call == Start(false))
  {
  }

  /** The latch is exactly the memory of a loss. */
  lemma {:induction false} LatchIsLoss(needsStart: bool, calls: seq<Call>)
    ensures var start := World(FreshRuntime(true, needsStart), {});
      Remembers(After(start, calls).runtime, needsStart, EverLost(start, calls), Start(false) in calls)
  {
    var start := World(FreshRuntime(true, needsStart), {});
    if calls == [] {
      assert !LosesAt(start, calls, 0);
    } else {
      var n := |calls| - 1;
      LatchIsLoss(needsStart, calls[..n]);
      EverLostStep(start, calls);
      hide Apply, Loses, Remembers, EverLost;
      var w := After(start, calls[..n]);
      CallRemembers(w, calls[n], needsStart, EverLost(start, calls[..n]), Start(false) in calls[..n]);
      assert calls == calls[..n] + [calls[n]];
    }
  }

  /** A status call passes its check exactly when the runtime was started, if it has to be, and nothing was lost. */
  lemma PassesIffNothingLost(needsStart: bool, calls: seq<Call>)
    ensures var start := World(FreshRuntime(true, needsStart), {});
      Passes(After(start, calls).runtime) <==> (needsStart ==> Start(false) in calls) && !EverLost(start, calls)
  {
    LatchIsLoss(needsStart, calls);
  }

  /** After a loss, only a status call that had passed its check before the loss can still report healthy. */
  lemma {:induction false} HealthyAfterLossWasChecked(needsStart: bool, calls: seq<Call>, i: nat, j: nat)
    requires i < j < |calls|
    requires var start := World(FreshRuntime(true, needsStart), {});
      LosesAt(start, calls, i) && Reply(After(start, calls[..j]), calls[j]) == Some(Healthy)
    ensures var start := World(FreshRuntime(true, needsStart), {});
      calls[j].Conclude? && calls[j].caller in After(start, calls[..i + 1]).passed
  {
    var start := World(FreshRuntime(true, needsStart), {});
    PassedAfterLoss(needsStart, calls, i, j, calls[j].caller);
  }

  lemma {:induction false} PassedAfterLoss(needsStart: bool, calls: seq<Call>, i: nat, j: nat, caller: nat)
    requires i < j <= |calls|
    requires var start := World(FreshRuntime(true, needsStart), {});
      LosesAt(start, calls, i) && caller in After(start, calls[..j]).passed
    ensures caller in After(World(FreshRuntime(true, needsStart), {}), calls[..i + 1]).passed
    decreases j
  {
    var start := World(FreshRuntime(true, needsStart), {});
    if j > i + 1 {
      AfterPrefix(start, calls, j - 1);
      LatchIsLoss(needsStart, calls[..j - 1]);
      assert calls[..j - 1][..i] == calls[..i];
      assert LosesAt(start, calls[..j - 1], i);
      PassedAfterLoss(needsStart, calls, i, j - 1, caller);
    }
  }

  /** A disabled runtime never says anything but disabled. */
  lemma {:induction false} DisabledStaysDisabled(needsStart: bool, calls: seq<Call>, caller: nat)
    ensures var w := After(World(FreshRuntime(false, needsStart), {}), calls);
      w.passed == {} && Reply(w, Check(caller)) == Some(Disabled)
  {
    if calls != [] {
      DisabledStaysDisabled(needsStart, calls[..|calls| - 1], caller);
    }
  }

  // ---------------------------------------------------------------- what makes a snapshot bad

  /** The faults that degrade the audit runtime, one by one. */
  lemma SinkFaults(s: SinkSnapshot)
    ensures !SinkHealthy(s) <==>
      || !s.started || !s.accepting || s.closed || !s.workerAlive
      || s.droppedEvents > 0 || s.downstreamFailures > 0 || s.flushFailures > 0 || s.sinkFailures > 0
      || (s.pendingEvents > 0 && s.noProgressAge.Some? && s.noProgressAge.value >= s.stallTimeout)
  {
  }

  /** The faults that degrade the shadow runtime, one by one. */
  lemma ShadowFaults(s: ShadowSnapshot)
    ensures !ShadowHealthy(s) <==>
      || !s.enabled || s.queueDrops > 0 || s.operationalFailures > 0 || s.correlationFailures > 0
      || s.emitFailures > 0 || s.stalled || s.shutdownSucceeded == Some(false) || s.shutdownStarted
      || (s.started && !s.workerAlive && !s.shutdownCompleted) || !s.accepting
      || s.completed > s.accepted || s.pending != s.accepted - s.completed
      || s.emitAttempts != s.emitSuccesses + s.emitFailures
  {
  }
}
