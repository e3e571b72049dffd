/** What the request-execution layer guarantees over whole runs. */
module RequestTheorems {
  import opened Counting
  import opened RequestModel
  import opened RequestInvariants
  import opened RegistryInvariants
  import opened LogInvariants

  // ---------------------------------------------------------------- single flight

  /** In every reachable state a key has at most one unfinished future, and it is the registry's entry. */
  lemma SingleFlight(trace: seq<State>, actions: seq<Action>, i: nat, f: nat, g: nat, key: Key)
    requires IsRun(trace, actions) && i < |trace|
    requires HasKey(trace[i], f, key) && !IsDone(trace[i], f)
    ensures key in trace[i].entries && trace[i].entries[key].future == f
    ensures HasKey(trace[i], g, key) && !IsDone(trace[i], g) ==> g == f
  {
    RunInv(trace, actions, i);
    var s := trace[i];
    assert FuturesOk(s) && RegistryOk(s);
    assert Registered(s, f);
    if HasKey(s, g, key) && !IsDone(s, g) {
      assert Registered(s, g);
    }
  }

  /** No step of anybody drops or replaces the entry of an unfinished future. */
  lemma RunningEntrySurvives(s: State, a: Action, t: State, f: nat)
    requires Inv(s) && Enabled(s, a) && t == Next(s, a)
    requires f < |s.submissions| && s.submissions[f].job.Some? && !IsDone(s, f)
    ensures Registered(s, f) && Registered(t, f)
  {
    InvStep(s, a, t);
    StepGrows(s, a);
    assert Registered(s, f);
    UnfinishedIsDue(s, a, t, f);
    assert RegistryOk(t);
  }

  lemma UnfinishedIsDue(s: State, a: Action, t: State, f: nat)
    requires Enabled(s, a) && t == Next(s, a) && f < |s.submissions| && s.submissions[f].completeDue && !IsDone(s, f)
    ensures f < |t.submissions| && t.submissions[f].completeDue
  {
    hide PruneOutcome, Dropped;
  }

  /** The identity guard of a completion never fires: its own entry is still in place. */
  lemma CompletionFindsItsEntry(trace: seq<State>, actions: seq<Action>, i: nat)
    requires IsRun(trace, actions) && i < |actions| && actions[i].Complete?
    ensures Registered(trace[i], actions[i].f)
    ensures !Settled(trace[i].entries[trace[i].submissions[actions[i].f].job.value.key])
  {
    RunInv(trace, actions, i);
    var s := trace[i];
    assert FuturesOk(s) && RegistryOk(s);
    assert Registered(s, actions[i].f);
  }

  // ---------------------------------------------------------------- futures and time

  /** A future runs, finishes with what its worker did, or is cancelled while queued; nothing else touches it. */
  lemma FutureLifecycle(s: State, a: Action, f: nat)
    requires Enabled(s, a) && f < |s.submissions|
    ensures f < |Next(s, a).submissions|
    ensures Next(s, a).submissions[f].status ==
      if a == StartWorker(f) then Running
      else if a.FinishWorker? && a.f == f then Done(a.outcome)
      else if a == CancelQueued(f) then Done(Cancelled)
      else s.submissions[f].status
  {
    hide PruneOutcome, Resolve, Dropped, Stamped, CompletesCacheable, Acquire, Release, Reject, Admits;
  }

  /** Only time moves the clock, and a look-up goes by the clock at which it began. */
  lemma ClockMoves(s: State, a: Action)
    requires Enabled(s, a)
    ensures Next(s, a).clock == if a.Tick? then s.clock + a.elapsed else s.clock
    ensures a.BeginLookUp? ==>
      a.q < |Next(s, a).requests| && Next(s, a).requests[a.q].phase == Looking(s.clock, a.job, a.limit)
  {
    hide PruneOutcome, Resolve, Dropped, Stamped, CompletesCacheable, Acquire, Release, Reject, Admits;
  }

  /** A look-up whose clock is a TTL or more past an entry's completion does not find it. */
  lemma AgedIsNotFound(s: State, q: nat, kept: map<Key, Entry>, key: Key)
    requires Enabled(s, LookUp(q, kept)) && key in s.entries && s.entries[key].completedAt.Some?
    requires s.requests[q].phase.now - s.entries[key].completedAt.value >= s.config.replayTtl
    ensures key !in kept
  {
    PruneByAge(s.config, s.entries, s.requests[q].phase.now, kept);
  }

  // ---------------------------------------------------------------- admission

  /** Active is what was accepted and not yet given back; it never exceeds the process cap. */
  lemma AdmissionConserved(trace: seq<State>, actions: seq<Action>, i: nat)
    requires IsRun(trace, actions) && i < |trace|
    ensures var s := trace[i];
            && s.admission.active == Count(s.submissions, ReleaseDue) + Count(s.requests, HoldsSlot)
            && s.admission.accepted == |s.submissions| + Count(s.requests, HoldsSlot) + s.failed
            && s.admission.active <= MAX_PROCESS_REQUEST_WORKERS
            && (s.admission.idle <==> s.admission.active == 0)
  {
    RunInv(trace, actions, i);
    assert AdmissionOk(trace[i]);
  }

  lemma NoUnderflowAt(s: State, a: Action)
    requires AdmissionOk(s) && TerminalsOk(s) && Enabled(s, a)
    ensures a.ReleaseAdmission? || a.SubmitFailed? ==> Release(s.admission).Some?
    ensures a.ReleaseDrain? ==> ReleaseTerminal(s.terminals).Some?
  {
    hide PruneOutcome, Stamped, CompletesCacheable;
    match a
    case ReleaseAdmission(f) => CountPositive(s.submissions, f, ReleaseDue);
    case SubmitFailed(q) => CountPositive(s.requests, q, HoldsSlot);
    case ReleaseDrain(q) => CountPositive(s.requests, q, ReleasingDrain);
    case _ =>
  }

  /** Slots in use: unreleased submissions and admissions that have not submitted yet. */
  ghost function SlotsInUse(s: State): nat {
    Count(s.submissions, ReleaseDue) + Count(s.requests, HoldsSlot)
  }

  /** An attempt that asked for work holds a slot, or only the rejected count has grown. */
  ghost predicate Decided(s: State, t: State, q: nat, work: Option<Job>, admitted: bool) {
    && q < |t.requests| && t.submissions == s.submissions
    && (t.requests[q].phase == Submitting(work) <==> admitted)
    && (admitted ==> t.admission.rejected == s.admission.rejected)
    && (!admitted ==>
          && t.requests[q].phase == Idle
          && t.admission == s.admission.(rejected := s.admission.rejected + 1))
  }

  lemma BoundedDecided(s: State, q: nat, limit: nat)
    requires AdmissionOk(s) && Enabled(s, BeginBounded(q, limit))
    ensures Decided(s, Next(s, BeginBounded(q, limit)), q, None, SlotsInUse(s) < limit)
  {
  }

  lemma MissDecided(s: State, q: nat, kept: map<Key, Entry>)
    requires AdmissionOk(s) && q < |s.requests| && s.requests[q].phase.Looking?
    requires s.requests[q].phase.job.key !in kept
    ensures var phase := s.requests[q].phase;
      Decided(s, NextLookUp(s, q, kept), q, Some(phase.job), SlotsInUse(s) < phase.limit)
  {
    hide Dropped;
  }

  /** Work is admitted exactly while fewer slots are in use than the caller's limit; a refusal is only counted. */
  lemma AdmittedBelowLimit(trace: seq<State>, actions: seq<Action>, i: nat)
    requires IsRun(trace, actions) && i < |actions|
    ensures match actions[i]
      case BeginBounded(q, limit) =>
        Decided(trace[i], trace[i + 1], q, None, SlotsInUse(trace[i]) < limit)
      case LookUp(q, kept) =>
        && q < |trace[i].requests| && trace[i].requests[q].phase.Looking?
        && var phase := trace[i].requests[q].phase;
        phase.job.key !in kept ==>
          Decided(trace[i], trace[i + 1], q, Some(phase.job), SlotsInUse(trace[i]) < phase.limit)
      case _ => true
  {
    RunInv(trace, actions, i);
    assert Enabled(trace[i], actions[i]) && trace[i + 1] == Next(trace[i], actions[i]);
    CountersOk(trace[i]);
    hide Inv, PruneOutcome, AdmissionOk, Decided, NextLookUp;
    match actions[i]
    case BeginBounded(q, limit) => BoundedDecided(trace[i], q, limit);
    case LookUp(q, kept) =>
      if trace[i].requests[q].phase.job.key !in kept {
        MissDecided(trace[i], q, kept);
      }
    case _ =>
  }

  lemma CountersOk(s: State)
    requires Inv(s)
    ensures AdmissionOk(s) && TerminalsOk(s)
  {
  }

  /** Neither counter can underflow. */
  lemma NoUnderflow(trace: seq<State>, actions: seq<Action>, i: nat)
    requires IsRun(trace, actions) && i < |actions|
    ensures actions[i].ReleaseAdmission? || actions[i].SubmitFailed? ==> Release(trace[i].admission).Some?
    ensures actions[i].ReleaseDrain? ==> ReleaseTerminal(trace[i].terminals).Some?
  {
    hide Enabled, Next, Initial, AdmissionOk, TerminalsOk, FuturesOk, CacheOk, LogOk, LockOk, BarriersOk, WorkersOk;
    RunInv(trace, actions, i);
    NoUnderflowAt(trace[i], actions[i]);
  }

  lemma {:induction false} PaidStaysPaid(trace: seq<State>, actions: seq<Action>, i: nat, j: nat, f: nat)
    requires IsRun(trace, actions) && i <= j < |trace| && f < |trace[i].submissions|
    ensures f < |trace[j].submissions| && SubmissionGrows(trace[i].submissions[f], trace[j].submissions[f])
  {
    hide Next, Enabled, Initial;
    if i < j {
      PaidStaysPaid(trace, actions, i, j - 1, f);
      StepGrows(trace[j - 1], actions[j - 1]);
    }
  }

  /** A submission gives its slot back at most once. */
  lemma ReleasedOnce(trace: seq<State>, actions: seq<Action>, i: nat, j: nat, f: nat)
    requires IsRun(trace, actions) && i < j < |actions| && actions[i] == ReleaseAdmission(f)
    ensures actions[j] != ReleaseAdmission(f)
  {
    assert Enabled(trace[i], actions[i]) && trace[i + 1] == Next(trace[i], actions[i]);
    PaidStaysPaid(trace, actions, i + 1, j, f);
    assert Enabled(trace[j], actions[j]);
  }

  /** A submission whose slot is back was released by some step of the run, after it was done. */
  lemma {:induction false} ReleasedByAStep(trace: seq<State>, actions: seq<Action>, j: nat, f: nat) returns (i: nat)
    requires IsRun(trace, actions) && j < |trace| && f < |trace[j].submissions| && !trace[j].submissions[f].releaseDue
    ensures i < j && actions[i] == ReleaseAdmission(f) && IsDone(trace[i], f)
  {
    assert j > 0;
    hide Next, Enabled, Initial;
    var s, a := trace[j - 1], actions[j - 1];
    if f < |s.submissions| && !s.submissions[f].releaseDue {
      i := ReleasedByAStep(trace, actions, j - 1, f);
    } else {
      OnlyReleasePays(s, a, f);
      i := j - 1;
    }
  }

  lemma OnlyReleasePays(s: State, a: Action, f: nat)
    requires Enabled(s, a) && f < |Next(s, a).submissions| && !Next(s, a).submissions[f].releaseDue
    requires f < |s.submissions| ==> s.submissions[f].releaseDue
    ensures a == ReleaseAdmission(f) && IsDone(s, f)
  {
    hide PruneOutcome, Dropped, Stamped, CompletesCacheable;
  }

  lemma PeakStep(s: State, a: Action)
    requires Enabled(s, a) && s.admission.active <= s.admission.peak
    ensures var b := Next(s, a).admission;
            b.active <= b.peak && (b.peak == s.admission.peak || b.peak == b.active) && s.admission.peak <= b.peak
  {
    hide PruneOutcome, Dropped;
  }

  /** The recorded peak is the maximum of the active count over the run. */
  lemma {:induction false} PeakIsMaximum(trace: seq<State>, actions: seq<Action>, j: nat)
    requires IsRun(trace, actions) && j < |trace|
    ensures forall i :: 0 <= i <= j ==> trace[i].admission.active <= trace[j].admission.peak
    ensures exists i :: 0 <= i <= j && trace[i].admission.active == trace[j].admission.peak
  {
    if j == 0 {
      assert trace[0].admission.active == trace[0].admission.peak;
    } else {
      PeakIsMaximum(trace, actions, j - 1);
      PeakStep(trace[j - 1], actions[j - 1]);
    }
  }

  // ---------------------------------------------------------------- the replay cache

  /** The last completion logged for a key. */
  ghost function LastFor(completions: seq<Completion>, key: Key): Option<Completion> {
    if completions == [] then None
    else if completions[|completions| - 1].key == key then Some(completions[|completions| - 1])
    else LastFor(completions[..|completions| - 1], key)
  }

  lemma {:induction false} LastForIs(completions: seq<Completion>, key: Key, i: nat)
    requires i < |completions| && completions[i].key == key
    requires forall j :: i < j < |completions| ==> completions[j].key != key
    ensures LastFor(completions, key) == Some(completions[i])
  {
    if i < |completions| - 1 {
      LastForIs(completions[..|completions| - 1], key, i);
    }
  }

  /**
   A hit on a settled entry reads the last logged completion of the key, which is also the last
   submission of the key: same input, a returned value its policy accepted, younger than the TTL at
   the caller's clock reading.
   */
  lemma ReplayRefinesLog(trace: seq<State>, actions: seq<Action>, i: nat, q: nat, kept: map<Key, Entry>)
    requires IsRun(trace, actions) && i < |actions| && actions[i] == LookUp(q, kept)
    requires trace[i].requests[q].phase.job.key in kept && Settled(kept[trace[i].requests[q].phase.job.key])
    ensures var s := trace[i];
            var phase := s.requests[q].phase;
            var last := LastFor(s.completions, phase.job.key);
            && last.Some? && last.value.accepted && last.value.outcome.Returned?
            && last.value.future == kept[phase.job.key].future
            && last.value.future < |s.submissions| && s.submissions[last.value.future].job.Some?
            && s.submissions[last.value.future].status == Done(last.value.outcome)
            && s.submissions[last.value.future].job.value.cacheResult(last.value.outcome.value)
            && (forall f: nat :: HasKey(s, f, phase.job.key) ==> f <= last.value.future)
            && phase.now - last.value.at < s.config.replayTtl
            && (last.value.input == phase.job.input ==>
                  trace[i + 1].requests[q].phase == Tracking(last.value.future, Replayed))
            && (last.value.input != phase.job.input ==> trace[i + 1].requests[q].phase == Idle)
  {
    RunInv(trace, actions, i);
    var s := trace[i];
    assert Enabled(s, actions[i]) && trace[i + 1] == NextLookUp(s, q, kept);
    var phase := s.requests[q].phase;
    assert CacheOk(s);
    hide Inv, CacheOk, Enabled, Next, IsRun;
    PruneKeeps(s.config, s.entries, phase.now, kept);
    hide PruneOutcome;
    var c := SettledIsLast(s, phase.job.key);
    SettledResolution(s, q, kept);
  }

  /** The settled entry of a key is its last completion and its last submission. */
  lemma SettledIsLast(s: State, key: Key) returns (c: Completion)
    requires CacheOk(s) && key in s.entries && Settled(s.entries[key])
    ensures LastFor(s.completions, key) == Some(c) && CompletionOk(s, c) && Cached(s, c) && c.key == key && c.accepted
    ensures c.input == s.entries[key].input
    ensures forall f: nat :: HasKey(s, f, key) ==> f <= c.future
  {
    var i := SettledAt(s, key);
    c := s.completions[i];
    forall j | i < j < |s.completions| ensures s.completions[j].key != key {
      assert CompletionOk(s, s.completions[j]);
      if s.completions[j].key == key {
        assert HasKey(s, s.completions[j].future, key);
      }
    }
    LastForIs(s.completions, key, i);
    assert CompletionOk(s, c);
  }

  /** A look-up of a kept key hands out its future to the same input and is refused to another. */
  lemma SettledResolution(s: State, q: nat, kept: map<Key, Entry>)
    requires q < |s.requests| && s.requests[q].phase.Looking? && s.requests[q].phase.job.key in kept
    ensures var job, t := s.requests[q].phase.job, NextLookUp(s, q, kept);
      var e := kept[job.key];
      && q < |t.requests| && t.submissions == s.submissions && t.admission == s.admission && t.log == s.log
      && t.requests[q].phase ==
           if e.input != job.input then Idle
           else Tracking(e.future, if IsDone(s, e.future) then Replayed else Joined)
  {
    hide PruneOutcome, Dropped;
  }

  /**
   Any hit, settled or not, is the latest submission of its key and was made for the same input.  Its entry is
   settled exactly when the completion callback has run, and then its value is one the cache policy accepted.
   */
  lemma HitIsLatest(trace: seq<State>, actions: seq<Action>, i: nat, q: nat, kept: map<Key, Entry>)
    requires IsRun(trace, actions) && i < |actions| && actions[i] == LookUp(q, kept)
    requires trace[i + 1].requests[q].phase.Tracking?
    ensures var s := trace[i];
            var job := s.requests[q].phase.job;
            var f := trace[i + 1].requests[q].phase.future;
            && HasKey(s, f, job.key) && s.submissions[f].job.value.input == job.input
            && (forall g: nat :: HasKey(s, g, job.key) ==> g <= f)
            && (trace[i + 1].requests[q].phase.disposition.Replayed? <==> IsDone(s, f))
            && job.key in kept && kept[job.key].future == f
            && (Settled(kept[job.key]) <==> !s.submissions[f].completeDue)
            && (!s.submissions[f].completeDue ==>
                  && s.submissions[f].status.Done? && s.submissions[f].status.outcome.Returned?
                  && s.submissions[f].job.value.cacheResult(s.submissions[f].status.outcome.value))
  {
    RunInv(trace, actions, i);
    var s := trace[i];
    assert Enabled(s, actions[i]) && trace[i + 1] == NextLookUp(s, q, kept);
    PruneKeeps(s.config, s.entries, s.requests[q].phase.now, kept);
    assert RegistryOk(s) && CacheOk(s);
    hide Inv, Enabled, Next, PruneOutcome, CacheOk;
    HitStep(s, q, kept);
    var key := s.requests[q].phase.job.key;
    if Settled(s.entries[key]) {
      var c := SettledIsLast(s, key);
    }
  }

  lemma HitStep(s: State, q: nat, kept: map<Key, Entry>)
    requires RegistryOk(s) && q < |s.requests| && s.requests[q].phase.Looking?
    requires forall k :: k in kept ==> k in s.entries && kept[k] == s.entries[k]
    requires NextLookUp(s, q, kept).requests[q].phase.Tracking?
    ensures var job := s.requests[q].phase.job;
            var phase := NextLookUp(s, q, kept).requests[q].phase;
            && HasKey(s, phase.future, job.key) && s.submissions[phase.future].job.value.input == job.input
            && (forall g: nat :: HasKey(s, g, job.key) ==> g <= phase.future)
            && (phase.disposition.Replayed? <==> IsDone(s, phase.future))
            && job.key in kept && kept[job.key].future == phase.future
            && (Settled(kept[job.key]) <==> !s.submissions[phase.future].completeDue)
  {
  }

  lemma ExtendRun(trace: seq<State>, actions: seq<Action>, a: Action)
    requires IsRun(trace, actions) && Enabled(trace[|actions|], a)
    ensures IsRun(trace + [Next(trace[|actions|], a)], actions + [a])
  {
    hide Next, Enabled, Initial;
  }

  const WitnessStart := State(Config(300.0, 2048), 0.0, Admission(0, 0, 0, 0, true), PendingTerminals(0, true),
                              map[], None, [], [], [], [], {}, 0)

  const WitnessJob := Job("k", "in", (v: Value) => false)

  lemma QueuedRun() returns (trace: seq<State>, actions: seq<Action>)
    ensures IsRun(trace, actions)
    ensures var s := trace[|actions|];
            && s.config == WitnessStart.config && s.clock == 0.0 && s.holder == None
            && s.entries == map["k" := Entry("in", 0, WitnessJob.cacheResult, None)]
            && s.submissions == [Submission(0, Some(WitnessJob), Queued, true, true)]
            && |s.requests| == 1
  {
    var s1 := Next(WitnessStart, Arrive);
    var s2 := Next(s1, BeginLookUp(0, WitnessJob, 8));
    var s3 := Next(s2, LookUp(0, map[]));
    var s4 := Next(s3, SubmitOk(0));
    trace := [WitnessStart, s1, s2, s3, s4];
    actions := [Arrive, BeginLookUp(0, WitnessJob, 8), LookUp(0, map[]), SubmitOk(0)];
  }

  /** A worker of a job nobody may cache has returned 7, and its completion callback has not run. */
  lemma UnsettledRun() returns (trace: seq<State>, actions: seq<Action>)
    ensures IsRun(trace, actions)
    ensures var s := trace[|actions|];
            && s.config == WitnessStart.config && s.clock == 0.0 && s.holder == None
            && s.entries == map["k" := Entry("in", 0, WitnessJob.cacheResult, None)]
            && s.submissions == [Submission(0, Some(WitnessJob), Done(Returned(7)), true, true)]
            && |s.requests| == 1
  {
    trace, actions := QueuedRun();
    var s5 := Next(trace[|actions|], StartWorker(0));
    ExtendRun(trace, actions, StartWorker(0));
    trace, actions := trace + [s5], actions + [StartWorker(0)];
    ExtendRun(trace, actions, FinishWorker(0, Returned(7)));
    trace, actions := trace + [Next(s5, FinishWorker(0, Returned(7)))], actions + [FinishWorker(0, Returned(7))];
  }

  /**
   Acceptance by the cache policy is promised for settled entries only: this run replays a value the
   policy refuses, because the look-up falls between the worker's end and its completion callback.
   */
  lemma UnsettledReplayIsUnchecked() returns (trace: seq<State>, actions: seq<Action>)
    ensures IsRun(trace, actions)
    ensures var s := trace[|actions|];
            && |s.requests| == 2 && s.requests[1].phase == Tracking(0, Replayed)
            && |s.submissions| == 1 && s.submissions[0].status == Done(Returned(7))
            && s.submissions[0].job.Some? && !s.submissions[0].job.value.cacheResult(7)
            && "k" in s.entries && !Settled(s.entries["k"])
  {
    trace, actions := UnsettledRun();
    var s6 := trace[|actions|];
    var s7 := Next(s6, Arrive);
    var s8 := Next(s7, BeginLookUp(1, WitnessJob, 8));
    assert Unexpired(s8.config, s8.entries, 0.0) == s8.entries;
    assert |s8.entries| == 1;
    ExtendRun(trace, actions, Arrive);
    trace, actions := trace + [s7], actions + [Arrive];
    ExtendRun(trace, actions, BeginLookUp(1, WitnessJob, 8));
    trace, actions := trace + [s8], actions + [BeginLookUp(1, WitnessJob, 8)];
    ExtendRun(trace, actions, LookUp(1, s8.entries));
    trace, actions := trace + [Next(s8, LookUp(1, s8.entries))], actions + [LookUp(1, s8.entries)];
  }

  /** The other direction: an accepted completion that no prune dropped is what a look-up finds. */
  lemma UnevictedIsFound(trace: seq<State>, actions: seq<Action>, i: nat, q: nat, kept: map<Key, Entry>, c: Completion)
    requires IsRun(trace, actions) && i < |actions| && actions[i] == LookUp(q, kept)
    requires c in trace[i].completions && c.accepted && c.key == trace[i].requests[q].phase.job.key
    requires c.future !in trace[i + 1].evicted
    ensures c.key in kept && kept[c.key].future == c.future && kept[c.key].completedAt == Some(c.at)
  {
    RunInv(trace, actions, i);
    var s := trace[i];
    assert Enabled(s, actions[i]) && trace[i + 1] == NextLookUp(s, q, kept);
    assert AcceptedOk(s);
    hide Inv, Enabled, Next, IsRun;
    PruneKeeps(s.config, s.entries, s.requests[q].phase.now, kept);
    hide PruneOutcome;
    LookUpEvicts(s, q, kept);
    var j :| 0 <= j < |s.completions| && s.completions[j] == c;
    assert Cached(s, c);
    assert c.key !in kept ==> c.future in Dropped(s.entries, kept);
  }

  lemma LookUpEvicts(s: State, q: nat, kept: map<Key, Entry>)
    requires q < |s.requests| && s.requests[q].phase.Looking?
    ensures NextLookUp(s, q, kept).evicted == s.evicted + Dropped(s.entries, kept)
  {
  }

  predicate CompletesInto(s: State, a: Action) {
    a.Complete? && IsDone(s, a.f) && Registered(s, a.f) && CompletesCacheable(s, a.f)
  }

  /** The step prunes; `PruneInput` is the registry it prunes and `PruneClock` the clock it goes by. */
  predicate Prunes(s: State, a: Action) {
    (a.LookUp? && a.q < |s.requests| && s.requests[a.q].phase.Looking?) || CompletesInto(s, a)
  }

  function PruneInput(s: State, a: Action): map<Key, Entry>
    requires Prunes(s, a)
  {
    if a.LookUp? then s.entries else Stamped(s, a.f)
  }

  function PruneClock(s: State, a: Action): real
    requires Prunes(s, a)
  {
    if a.LookUp? then s.requests[a.q].phase.now else s.clock
  }

  /** The step prunes a registry that holds the completion's entry, and puts it at risk. */
  ghost predicate AtRisk(s: State, a: Action, c: Completion) {
    && Prunes(s, a)
    && var entries := PruneInput(s, a);
    && c.key in entries && entries[c.key].future == c.future && entries[c.key].completedAt == Some(c.at)
    && MayDrop(s.config, entries, PruneClock(s, a), c.key)
  }

  lemma NoEvictionElsewhere(s: State, a: Action)
    requires Enabled(s, a) && !Prunes(s, a)
    ensures Next(s, a).evicted == s.evicted
  {
    hide PruneOutcome, Resolve, Stamped, Dropped, CompletesCacheable;
  }

  lemma LookUpDrops(s: State, q: nat, kept: map<Key, Entry>, c: Completion)
    requires CacheOk(s) && Enabled(s, LookUp(q, kept)) && c in s.completions
    requires c.future in Dropped(s.entries, kept)
    ensures AtRisk(s, LookUp(q, kept), c) && c.key !in kept
  {
    var key :| key in s.entries && key !in kept && Settled(s.entries[key]) && s.entries[key].future == c.future;
    var i :| 0 <= i < |s.completions| && s.completions[i] == c;
    assert CompletionOk(s, s.completions[i]);
    var j := SettledAt(s, key);
    SameCompletion(s, i, j);
    DroppedIsAtRisk(s.config, s.entries, s.requests[q].phase.now, kept, key);
  }

  lemma CompleteDrops(s: State, f: nat, kept: map<Key, Entry>, c: Completion)
    requires CacheOk(s) && Enabled(s, Complete(f, kept)) && CompletesInto(s, Complete(f, kept))
    requires c in NextComplete(s, f, kept).completions && c.future in Dropped(Stamped(s, f), kept)
    ensures AtRisk(s, Complete(f, kept), c) && c.key !in kept
  {
    var entries := Stamped(s, f);
    var key :| key in entries && key !in kept && Settled(entries[key]) && entries[key].future == c.future;
    var own := s.submissions[f].job.value.key;
    assert c in s.completions || (c.future == f && c.key == own && c.at == s.clock);
    if c in s.completions {
      var i :| 0 <= i < |s.completions| && s.completions[i] == c;
      assert CompletionOk(s, s.completions[i]);
      assert c.future != f && key != own;
      var j := SettledAt(s, key);
      SameCompletion(s, i, j);
    }
    DroppedIsAtRisk(s.config, entries, s.clock, kept, key);
  }

  /** A completion evicted by a step was at risk in that step's prune. */
  lemma EvictionStep(s: State, a: Action, c: Completion)
    requires Inv(s) && Enabled(s, a) && c in Next(s, a).completions
    requires c.future in Next(s, a).evicted && c.future !in s.evicted
    ensures AtRisk(s, a, c)
  {
    assert CacheOk(s);
    hide Inv, CacheOk, AtRisk, PruneOutcome;
    if !Prunes(s, a) {
      NoEvictionElsewhere(s, a);
    } else if a.LookUp? {
      LookUpEvicts(s, a.q, a.kept);
      LookUpLogsNothing(s, a.q, a.kept);
      LookUpDrops(s, a.q, a.kept, c);
    } else {
      CompleteDrops(s, a.f, a.kept, c);
    }
  }

  lemma LookUpLogsNothing(s: State, q: nat, kept: map<Key, Entry>)
    requires q < |s.requests| && s.requests[q].phase.Looking?
    ensures NextLookUp(s, q, kept).completions == s.completions
  {
  }

  lemma LogsOwedCompletion(s: State, a: Action, c: Completion)
    requires Enabled(s, a) && c in Next(s, a).completions && c !in s.completions
    ensures c.future < |s.submissions| && s.submissions[c.future].completeDue
  {
    hide PruneOutcome, Resolve, Stamped, Dropped, CompletesCacheable;
  }

  /** What is evicted was logged before: a step logs only a completion that is still owed. */
  lemma EvictedWasLogged(s: State, a: Action, c: Completion)
    requires Inv(s) && Enabled(s, a) && c in Next(s, a).completions && c.future in s.evicted
    ensures c in s.completions
  {
    assert EvictedOk(s);
    hide Inv, Enabled, Next;
    if c !in s.completions {
      LogsOwedCompletion(s, a, c);
    }
  }

  lemma EvictionOrigin(s: State, a: Action, c: Completion)
    requires Inv(s) && Enabled(s, a) && c in Next(s, a).completions && c.future in Next(s, a).evicted
    ensures AtRisk(s, a, c) || (c in s.completions && c.future in s.evicted)
  {
    hide Next, Enabled, Inv, AtRisk;
    if c.future in s.evicted {
      EvictedWasLogged(s, a, c);
    } else {
      EvictionStep(s, a, c);
    }
  }

  /** An evicted completion was at risk in some earlier prune of the run. */
  lemma {:induction false} EvictedByAPrune(trace: seq<State>, actions: seq<Action>, n: nat, c: Completion)
      returns (m: nat)
    requires IsRun(trace, actions) && n < |trace| && c in trace[n].completions && c.future in trace[n].evicted
    ensures m < n && AtRisk(trace[m], actions[m], c)
    decreases n
  {
    RunInv(trace, actions, if n == 0 then 0 else n - 1);
    assert n > 0;
    m := n - 1;
    hide Next, Enabled, Initial, Inv, AtRisk;
    EvictionOrigin(trace[m], actions[m], c);
    if !AtRisk(trace[m], actions[m], c) {
      m := EvictedByAPrune(trace, actions, m, c);
    }
  }

  /**
   An accepted completion that was at risk in no prune up to a look-up of its key is what the look-up finds: it
   was never expired at a prune's clock, and never among the entries that the bound could push out.
   */
  lemma AcceptedIsFound(trace: seq<State>, actions: seq<Action>, i: nat, q: nat, kept: map<Key, Entry>, c: Completion)
    requires IsRun(trace, actions) && i < |actions| && actions[i] == LookUp(q, kept)
    requires c in trace[i].completions && c.accepted && c.key == trace[i].requests[q].phase.job.key
    requires forall m :: 0 <= m <= i ==> !AtRisk(trace[m], actions[m], c)
    ensures c.key in kept && kept[c.key].future == c.future && kept[c.key].completedAt == Some(c.at)
  {
    assert Enabled(trace[i], actions[i]) && trace[i + 1] == NextLookUp(trace[i], q, kept);
    LookUpLogsNothing(trace[i], q, kept);
    hide Next, Enabled, Initial, AtRisk, Inv;
    if c.future in trace[i + 1].evicted {
      var m := EvictedByAPrune(trace, actions, i + 1, c);
    }
    UnevictedIsFound(trace, actions, i, q, kept, c);
  }

  /** If the step prunes a registry that holds the completion's entry, the prune spares it. */
  ghost predicate SparedBy(s: State, a: Action, c: Completion) {
    match a
    case LookUp(q, _) =>
      q < |s.requests| && s.requests[q].phase.Looking? && Cached(s, c) ==>
        Spares(s.config, s.entries, s.requests[q].phase.now, c.at)
    case Complete(f, _) =>
      Registered(s, f) && (Cached(s, c) || c.future == f) ==> Spares(s.config, Stamped(s, f), s.clock, c.at)
    case _ => true
  }

  lemma SparedIsNotAtRisk(s: State, a: Action, c: Completion)
    requires SparedBy(s, a, c)
    ensures !AtRisk(s, a, c)
  {
    if AtRisk(s, a, c) {
      RiskIsNotSpared(s.config, PruneInput(s, a), PruneClock(s, a), c.key);
    }
  }

  /**
   An accepted completion that every prune up to a look-up spared is replayed to the same input without starting
   any work, and refused to another input.
   */
  lemma SparedIsReplayed(trace: seq<State>, actions: seq<Action>, i: nat, q: nat, kept: map<Key, Entry>, c: Completion)
    requires IsRun(trace, actions) && i < |actions| && actions[i] == LookUp(q, kept)
    requires c in trace[i].completions && c.accepted && c.key == trace[i].requests[q].phase.job.key
    requires forall m :: 0 <= m <= i ==> SparedBy(trace[m], actions[m], c)
    ensures var s, t := trace[i], trace[i + 1];
      && q < |t.requests| && t.submissions == s.submissions && t.admission == s.admission && t.log == s.log
      && t.requests[q].phase ==
           if c.input == s.requests[q].phase.job.input then Tracking(c.future, Replayed) else Idle
  {
    forall m | 0 <= m <= i ensures !AtRisk(trace[m], actions[m], c) {
      SparedIsNotAtRisk(trace[m], actions[m], c);
    }
    AcceptedIsFound(trace, actions, i, q, kept, c);
    var s := trace[i];
    RunInv(trace, actions, i);
    assert Enabled(s, actions[i]) && trace[i + 1] == NextLookUp(s, q, kept);
    FoundIsReplayed(s, q, kept, c);
  }

  lemma FoundIsReplayed(s: State, q: nat, kept: map<Key, Entry>, c: Completion)
    requires Inv(s) && Enabled(s, LookUp(q, kept)) && c in s.completions && c.key == s.requests[q].phase.job.key
    requires c.key in kept && kept[c.key].future == c.future
    ensures var t := NextLookUp(s, q, kept);
      && q < |t.requests| && t.submissions == s.submissions && t.admission == s.admission && t.log == s.log
      && t.requests[q].phase ==
           if c.input == s.requests[q].phase.job.input then Tracking(c.future, Replayed) else Idle
  {
    assert RegistryOk(s) && CompletionsOk(s);
    var i :| 0 <= i < |s.completions| && s.completions[i] == c;
    assert CompletionOk(s, c);
    PruneKeeps(s.config, s.entries, s.requests[q].phase.now, kept);
    hide Inv, PruneOutcome;
    SettledResolution(s, q, kept);
  }

  /**
   In plain terms: an accepted completion is replayed if every prune up to the look-up that met its entry met it
   before the TTL was over and with no more entries registered than the maximum.
   */
  lemma FreshIsReplayed(trace: seq<State>, actions: seq<Action>, i: nat, q: nat, kept: map<Key, Entry>, c: Completion)
    requires IsRun(trace, actions) && i < |actions| && actions[i] == LookUp(q, kept)
    requires c in trace[i].completions && c.accepted && c.key == trace[i].requests[q].phase.job.key
    requires c.input == trace[i].requests[q].phase.job.input
    requires forall m: nat, p: nat, k ::
      (&& m <= i && actions[m] == LookUp(p, k)
       && p < |trace[m].requests| && trace[m].requests[p].phase.Looking? && Cached(trace[m], c)) ==>
        trace[m].requests[p].phase.now - c.at < trace[m].config.replayTtl
    requires forall m: nat, f: nat, k ::
      m <= i && actions[m] == Complete(f, k) && (Cached(trace[m], c) || c.future == f) ==>
        trace[m].clock - c.at < trace[m].config.replayTtl
    requires forall m :: 0 <= m <= i ==> |trace[m].entries| <= trace[m].config.maxReplayEntries
    ensures var s, t := trace[i], trace[i + 1];
      && q < |t.requests| && t.requests[q].phase == Tracking(c.future, Replayed)
      && t.submissions == s.submissions && t.admission == s.admission
  {
    hide Enabled, Next, Initial;
    forall m | 0 <= m <= i ensures SparedBy(trace[m], actions[m], c) {
      FewAreSpared(trace[m], actions[m], c);
    }
    SparedIsReplayed(trace, actions, i, q, kept, c);
  }

  lemma FewAreSpared(s: State, a: Action, c: Completion)
    requires |s.entries| <= s.config.maxReplayEntries
    requires a.LookUp? && a.q < |s.requests| && s.requests[a.q].phase.Looking? && Cached(s, c) ==>
               s.requests[a.q].phase.now - c.at < s.config.replayTtl
    requires a.Complete? && (Cached(s, c) || c.future == a.f) ==> s.clock - c.at < s.config.replayTtl
    ensures SparedBy(s, a, c)
  {
    if a.LookUp? && a.q < |s.requests| && s.requests[a.q].phase.Looking? {
      HeldFits(s.config, s.entries, s.requests[a.q].phase.now);
    } else if a.Complete? && Registered(s, a.f) {
      assert Stamped(s, a.f).Keys == s.entries.Keys;
      KeyCount(s.entries);
      KeyCount(Stamped(s, a.f));
      HeldFits(s.config, Stamped(s, a.f), s.clock);
    }
  }

  /** A look-up of a key with an unfinished future joins it, or is refused for another input; nothing is started. */
  lemma RunningIsJoined(trace: seq<State>, actions: seq<Action>, i: nat, q: nat, kept: map<Key, Entry>, f: nat)
    requires IsRun(trace, actions) && i < |actions| && actions[i] == LookUp(q, kept)
    requires HasKey(trace[i], f, trace[i].requests[q].phase.job.key) && !IsDone(trace[i], f)
    ensures var s, t := trace[i], trace[i + 1];
      && q < |t.requests| && t.submissions == s.submissions && t.admission == s.admission
      && t.requests[q].phase ==
           if s.submissions[f].job.value.input == s.requests[q].phase.job.input then Tracking(f, Joined) else Idle
  {
    RunInv(trace, actions, i);
    var s := trace[i];
    assert Enabled(s, actions[i]) && trace[i + 1] == NextLookUp(s, q, kept);
    assert FuturesOk(s) && RegistryOk(s);
    assert Registered(s, f);
    PruneKeeps(s.config, s.entries, s.requests[q].phase.now, kept);
    hide Inv, PruneOutcome;
    SettledResolution(s, q, kept);
  }

  /** A live key with another input starts no work and hands out no future. */
  lemma ConflictTouchesNothing(s: State, q: nat, kept: map<Key, Entry>)
    requires Inv(s) && Enabled(s, LookUp(q, kept))
    requires var job := s.requests[q].phase.job; job.key in kept && kept[job.key].input != job.input
    ensures var t := Next(s, LookUp(q, kept));
            && t.submissions == s.submissions && t.admission == s.admission && t.log == s.log
            && t.requests[q] == s.requests[q].(phase := Idle)
            && forall f: nat :: HasKey(s, f, s.requests[q].phase.job.key) && !IsDone(s, f) ==> Registered(t, f)
  {
    var key := s.requests[q].phase.job.key;
    var t := Next(s, LookUp(q, kept));
    forall f: nat | HasKey(s, f, key) && !IsDone(s, f) ensures Registered(t, f) {
      RunningEntrySurvives(s, LookUp(q, kept), t, f);
    }
  }

  // ---------------------------------------------------------------- eviction

  /** Settled entries fit the bound in every state, and nothing evicted ever completed after a survivor. */
  lemma EvictionIsOldestFirst(trace: seq<State>, actions: seq<Action>, i: nat, c: Completion, k: Key)
    requires IsRun(trace, actions) && i < |trace|
    ensures |SettledKeys(trace[i].entries)| <= trace[i].config.maxReplayEntries
    ensures var s := trace[i];
      c in s.completions && c.future in s.evicted && k in s.entries && Settled(s.entries[k]) ==>
        c.at <= s.entries[k].completedAt.value
  {
    RunInv(trace, actions, i);
    assert BoundOk(trace[i]) && EvictionOrderOk(trace[i]);
  }

  // ---------------------------------------------------------------- the audit protocol

  /**
   Every attempt starts once, with its first event, and ends at most once.  When its terminal is in the
   log every worker it tracked is done; if its handler did nothing after asking for the terminal, the
   terminal is its last event.
   */
  lemma AuditProtocol(trace: seq<State>, actions: seq<Action>, n: nat, q: nat)
    requires IsRun(trace, actions) && n < |trace| && q < |trace[n].requests|
    ensures var s := trace[n];
            && (exists i :: StartedAt(s.log, q, i))
            && (forall i, j ::
                  0 <= i < |s.log| && 0 <= j < |s.log| && s.log[i] == s.log[j] == Event(q, RequestTerminal) ==> i == j)
            && (forall i :: 0 <= i < |s.log| && s.log[i] == Event(q, RequestTerminal) ==>
                  && (forall f :: f in s.requests[q].tracked ==> IsDone(s, f))
                  && (!s.requests[q].late ==> LastOf(s.log, q, i)))
  {
    RunInv(trace, actions, n);
    var s := trace[n];
    assert LogOkFor(s, q) && BarrierOk(s, s.requests[q]);
  }

  /** A handler that acts after its request may put an event behind its own terminal. */
  lemma LateHandlerFollowsTerminal() returns (trace: seq<State>, actions: seq<Action>)
    ensures IsRun(trace, actions)
    ensures var s := trace[|actions|];
      && |s.requests| == 1 && s.requests[0].late && |s.log| == 3
      && s.log[1] == Event(0, RequestTerminal) && s.log[2] == Event(0, HandlerEvent)
  {
    var s1 := Next(WitnessStart, Arrive);
    var s2 := Next(s1, RequestTerminalNow(0));
    var s3 := Next(s2, EmitTerminal(0));
    var s4 := Next(s3, Emit(0));
    trace := [WitnessStart, s1, s2, s3, s4];
    actions := [Arrive, RequestTerminalNow(0), EmitTerminal(0), Emit(0)];
  }

  // ---------------------------------------------------------------- the terminal always comes

  /** Consecutive enabled steps from one state to another. */
  ghost predicate Path(s: State, actions: seq<Action>, t: State)
    decreases |actions|
  {
    if actions == [] then s == t else Enabled(s, actions[0]) && Path(Next(s, actions[0]), actions[1..], t)
  }

  predicate DispatchOf(a: Action, q: nat) {
    a == EmitTerminal(q) || a == UnregisterDrain(q) || a == ReleaseDrain(q) || (a.Settle? && a.q == q)
  }

  /** Steps still owed before an attempt that asked for its terminal is finished. */
  function DispatchWork(r: Request): nat {
    |r.barrier.pending| + match r.dispatch
                          case NotStarted => 4
                          case AtCallback => 3
                          case AtUnregister => 2
                          case AtRelease => 1
                          case Finished => 0
  }

  /** Each dispatch step of an attempt leaves it strictly less to do. */
  lemma DispatchShrinks(s: State, a: Action, q: nat)
    requires q < |s.requests| && BarrierOk(s, s.requests[q]) && Enabled(s, a) && DispatchOf(a, q)
    ensures q < |Next(s, a).requests| && DispatchWork(Next(s, a).requests[q]) < DispatchWork(s.requests[q])
  {
    hide PruneOutcome, Dropped;
    if a.Settle? {
      var pending := s.requests[q].barrier.pending;
      assert pending == (pending - {a.f}) + {a.f};
    }
  }

  /** While work is owed and the tracked workers are done, some dispatch step is enabled. */
  lemma DispatchNotStuck(s: State, q: nat) returns (a: Action)
    requires Inv(s) && q < |s.requests| && s.requests[q].exited && !s.requests[q].dispatch.Finished?
    requires forall f :: f in s.requests[q].tracked ==> IsDone(s, f)
    ensures DispatchOf(a, q) && Enabled(s, a)
  {
    var r := s.requests[q];
    assert BarriersOk(s);
    assert BarrierOk(s, r);
    match r.dispatch
    case NotStarted =>
      var f :| f in r.barrier.pending;
      a := Settle(q, f);
    case AtCallback => a := EmitTerminal(q);
    case AtUnregister => a := UnregisterDrain(q);
    case AtRelease => a := ReleaseDrain(q);
  }

  lemma DispatchKeepsAttempt(s: State, a: Action, q: nat)
    requires q < |s.requests| && Enabled(s, a) && DispatchOf(a, q)
    ensures var t := Next(s, a);
            && q < |t.requests| && t.requests[q].exited == s.requests[q].exited
            && t.requests[q].tracked == s.requests[q].tracked && t.submissions == s.submissions
  {
    hide PruneOutcome, Dropped;
  }

  /** Nothing but its own dispatch steps touches an attempt whose handler has left. */
  lemma OthersKeepAttempt(s: State, a: Action, q: nat)
    requires BarriersOk(s) && Enabled(s, a) && q < |s.requests| && s.requests[q].exited && !DispatchOf(a, q)
    ensures q < |Next(s, a).requests| && Next(s, a).requests[q] == s.requests[q]
  {
    assert BarrierOk(s, s.requests[q]);
    OnlySubjectChanges(s, a);
    hide PruneOutcome, Next, BarrierOk;
  }

  /** Dispatch steps of attempt `q` among the steps from `i` up to `j`. */
  ghost function DispatchSteps(actions: seq<Action>, q: nat, i: nat, j: nat): nat
    requires i <= j <= |actions|
    decreases j
  {
    if i == j then 0 else DispatchSteps(actions, q, i, j - 1) + (if DispatchOf(actions[j - 1], q) then 1 else 0)
  }

  lemma LeftAttemptStep(s: State, a: Action, q: nat)
    requires Inv(s) && Enabled(s, a) && q < |s.requests| && s.requests[q].exited
    ensures q < |Next(s, a).requests|
    ensures var r, r' := s.requests[q], Next(s, a).requests[q];
      r'.exited && r'.tracked == r.tracked
      && DispatchWork(r') + (if DispatchOf(a, q) then 1 else 0) <= DispatchWork(r)
  {
    assert BarriersOk(s);
    assert BarrierOk(s, s.requests[q]);
    hide Next, Enabled, Inv, BarriersOk, BarrierOk;
    if DispatchOf(a, q) {
      DispatchKeepsAttempt(s, a, q);
      DispatchShrinks(s, a, q);
    } else {
      OthersKeepAttempt(s, a, q);
    }
  }

  /** In every run an attempt whose handler left takes no more dispatch steps than it had work when it left. */
  lemma {:induction false} DispatchIsBounded(trace: seq<State>, actions: seq<Action>, i: nat, j: nat, q: nat)
    requires IsRun(trace, actions) && i <= j < |trace| && q < |trace[i].requests| && trace[i].requests[q].exited
    ensures q < |trace[j].requests| && trace[j].requests[q].exited
    ensures trace[j].requests[q].tracked == trace[i].requests[q].tracked
    ensures DispatchSteps(actions, q, i, j) + DispatchWork(trace[j].requests[q]) <= DispatchWork(trace[i].requests[q])
  {
    hide Next, Enabled, Initial, Inv;
    if i < j {
      DispatchIsBounded(trace, actions, i, j - 1, q);
      RunInv(trace, actions, j - 1);
      LeftAttemptStep(trace[j - 1], actions[j - 1], q);
    }
  }

  ghost predicate DispatchPending(s: State, q: nat) {
    exists a :: DispatchOf(a, q) && Enabled(s, a)
  }

  /** The terminal of the attempt is out and its drain, if it had one, is given back. */
  ghost predicate TerminalOut(s: State, q: nat) {
    && q < |s.requests| && s.requests[q].dispatch.Finished? && !s.requests[q].barrier.drainRegistered
    && exists i :: 0 <= i < |s.log| && s.log[i] == Event(q, RequestTerminal)
  }

  lemma FinishedIsOut(s: State, q: nat)
    requires Inv(s) && q < |s.requests| && s.requests[q].dispatch.Finished?
    ensures TerminalOut(s, q)
  {
    assert BarrierOk(s, s.requests[q]) && LogOkFor(s, q);
  }

  /**
   Under every schedule: take any state of a run after the handler left in which the tracked workers are done.
   At most the initial work's worth of dispatch steps has been taken, and if none is left to take, the terminal
   is in the log and the drain is given back.
   */
  lemma TerminalIsEmitted(trace: seq<State>, actions: seq<Action>, i: nat, j: nat, q: nat)
    requires IsRun(trace, actions) && i <= j < |trace| && q < |trace[i].requests| && trace[i].requests[q].exited
    requires forall f :: f in trace[i].requests[q].tracked ==> IsDone(trace[j], f)
    ensures q < |trace[j].requests|
    ensures DispatchSteps(actions, q, i, j) + DispatchWork(trace[j].requests[q]) <= DispatchWork(trace[i].requests[q])
    ensures TerminalOut(trace[j], q) <==> !DispatchPending(trace[j], q)
  {
    hide Next, Initial, Inv;
    DispatchIsBounded(trace, actions, i, j, q);
    RunInv(trace, actions, j);
    if trace[j].requests[q].dispatch.Finished? {
      FinishedIsOut(trace[j], q);
      FinishedNeedsNoDispatch(trace[j], q);
    } else {
      var a := DispatchNotStuck(trace[j], q);
    }
  }

  lemma FinishedNeedsNoDispatch(s: State, q: nat)
    requires Inv(s) && q < |s.requests| && s.requests[q].dispatch.Finished?
    ensures !DispatchPending(s, q)
  {
    assert BarriersOk(s);
    assert BarrierOk(s, s.requests[q]);
    hide Inv, BarrierOk, BarriersOk, PruneOutcome;
  }

  /**
   One such schedule: once the handler left and its workers are done, callbacks that are already owed emit the
   terminal and give the drain back, in at most four steps more than there are workers left to settle.
   */
  lemma {:induction false} TerminalComes(s: State, q: nat) returns (actions: seq<Action>, t: State)
    requires Inv(s) && q < |s.requests| && s.requests[q].exited
    requires forall f :: f in s.requests[q].tracked ==> IsDone(s, f)
    ensures Path(s, actions, t) && |actions| <= DispatchWork(s.requests[q])
    ensures forall i :: 0 <= i < |actions| ==> DispatchOf(actions[i], q)
    ensures TerminalOut(t, q)
    decreases DispatchWork(s.requests[q])
  {
    if s.requests[q].dispatch.Finished? {
      actions, t := [], s;
      FinishedIsOut(s, q);
    } else {
      var a := DispatchNotStuck(s, q);
      hide Next, Enabled, Inv;
      InvStep(s, a, Next(s, a));
      LeftAttemptStep(s, a, q);
      DispatchKeepsAttempt(s, a, q);
      var rest, u := TerminalComes(Next(s, a), q);
      actions, t := [a] + rest, u;
      assert actions[1..] == rest;
    }
  }

  // ---------------------------------------------------------------- what may follow a terminal

  /** Some continuation logs a further event of the attempt. */
  ghost predicate MayLogMore(s: State, q: nat) {
    exists actions, t :: Path(s, actions, t) && LogsAfter(s, t, q)
  }

  ghost predicate LogsAfter(s: State, t: State, q: nat) {
    exists n :: |s.log| <= n < |t.log| && t.log[n].request == q
  }

  /** A worker that the attempt started is not done. */
  ghost predicate OwnsUnfinished(s: State, q: nat) {
    exists f :: 0 <= f < |s.submissions| && s.submissions[f].owner == q && !s.submissions[f].status.Done?
  }

  /** The handler left, the terminal is out and every worker the attempt started is done. */
  ghost predicate Sealed(s: State, q: nat) {
    q < |s.requests| && s.requests[q].exited && TerminalEmitted(s.requests[q]) && !OwnsUnfinished(s, q)
  }

  lemma SealedStep(s: State, a: Action, q: nat)
    requires Inv(s) && Enabled(s, a) && Sealed(s, q)
    ensures Sealed(Next(s, a), q)
    ensures var log := Next(s, a).log;
      |s.log| <= |log| && forall n :: |s.log| <= n < |log| ==> log[n].request != q
  {
    assert BarriersOk(s) && BarrierOk(s, s.requests[q]);
    LeftAttemptStep(s, a, q);
    StepGrows(s, a);
    SealedLog(s, a, q);
    SealedWork(s, a, q);
    SealedDispatch(s, a, q);
  }

  lemma SealedDispatch(s: State, a: Action, q: nat)
    requires BarriersOk(s) && Enabled(s, a) && Sealed(s, q)
    ensures q < |Next(s, a).requests| && TerminalEmitted(Next(s, a).requests[q])
  {
    assert BarrierOk(s, s.requests[q]);
    if DispatchOf(a, q) {
      hide PruneOutcome, Dropped;
    } else {
      OthersKeepAttempt(s, a, q);
    }
  }

  lemma SealedLog(s: State, a: Action, q: nat)
    requires Enabled(s, a) && Sealed(s, q) && BarrierOk(s, s.requests[q])
    ensures var log := Next(s, a).log;
      |s.log| <= |log| && forall n :: |s.log| <= n < |log| ==> log[n].request != q
  {
    hide PruneOutcome, Dropped, BarrierOk, Resolve, Stamped, CompletesCacheable;
    if a.EmitFromWorker? {
      assert s.submissions[a.f].owner != q;
    }
  }

  lemma SealedWork(s: State, a: Action, q: nat)
    requires Enabled(s, a) && Sealed(s, q) && BarrierOk(s, s.requests[q]) && Grows(s, Next(s, a))
    ensures !OwnsUnfinished(Next(s, a), q)
  {
    var t := Next(s, a);
    NewWorkIsOwned(s, a);
    hide Next, Enabled;
    forall f | 0 <= f < |t.submissions| && t.submissions[f].owner == q ensures t.submissions[f].status.Done? {
      if f < |s.submissions| {
        assert SubmissionGrows(s.submissions[f], t.submissions[f]);
      }
    }
  }

  lemma NewWorkIsOwned(s: State, a: Action)
    requires Enabled(s, a)
    ensures var t := Next(s, a);
      forall f :: |s.submissions| <= f < |t.submissions| ==>
        a.SubmitOk? && t.submissions[f].owner == a.q && s.requests[a.q].phase.Submitting?
  {
    hide PruneOutcome, Dropped, Resolve, Stamped, CompletesCacheable;
  }

  lemma {:induction false} SealedPath(s: State, actions: seq<Action>, t: State, q: nat)
    requires Inv(s) && Sealed(s, q) && Path(s, actions, t)
    ensures |s.log| <= |t.log| && !LogsAfter(s, t, q)
    decreases |actions|
  {
    if actions != [] {
      var u := Next(s, actions[0]);
      SealedStep(s, actions[0], q);
      InvStep(s, actions[0], u);
      hide Next, Enabled, Inv, Sealed;
      SealedPath(u, actions[1..], t, q);
      PathKeepsLog(u, actions[1..], t);
      forall n | |s.log| <= n < |t.log| ensures t.log[n].request != q {
        assert n < |u.log| ==> t.log[n] == u.log[n];
      }
    }
  }

  lemma LogGrows(s: State, a: Action)
    requires Enabled(s, a)
    ensures s.log <= Next(s, a).log
  {
    hide PruneOutcome, Dropped, Resolve, Stamped, CompletesCacheable;
  }

  lemma {:induction false} PathKeepsLog(s: State, actions: seq<Action>, t: State)
    requires Path(s, actions, t)
    ensures s.log <= t.log
    decreases |actions|
  {
    if actions != [] {
      LogGrows(s, actions[0]);
      hide Next, Enabled;
      PathKeepsLog(Next(s, actions[0]), actions[1..], t);
    }
  }

  lemma PrependStep(s: State, a: Action, q: nat)
    requires Enabled(s, a) && MayLogMore(Next(s, a), q)
    ensures MayLogMore(s, q)
  {
    var actions, t :| Path(Next(s, a), actions, t) && LogsAfter(Next(s, a), t, q);
    LogGrows(s, a);
    hide Next, Enabled;
    assert ([a] + actions)[1..] == actions;
    assert Path(s, [a] + actions, t);
    var n :| |Next(s, a).log| <= n < |t.log| && t.log[n].request == q;
    assert LogsAfter(s, t, q);
  }

  lemma LogsNow(s: State, a: Action, q: nat)
    requires Enabled(s, a) && |Next(s, a).log| > |s.log| && Next(s, a).log[|s.log|].request == q
    ensures MayLogMore(s, q)
  {
    hide Next, Enabled;
    assert Path(Next(s, a), [], Next(s, a));
    assert [a][1..] == [];
    assert Path(s, [a], Next(s, a));
    assert LogsAfter(s, Next(s, a), q);
  }

  lemma UnfinishedMayLog(s: State, q: nat)
    requires OwnsUnfinished(s, q)
    ensures MayLogMore(s, q)
  {
    var f :| 0 <= f < |s.submissions| && s.submissions[f].owner == q && !s.submissions[f].status.Done?;
    if s.submissions[f].status.Running? {
      LogsNow(s, EmitFromWorker(f), q);
    } else {
      LogsNow(Next(s, StartWorker(f)), EmitFromWorker(f), q);
      PrependStep(s, StartWorker(f), q);
    }
  }

  lemma IdleMayLog(s: State, q: nat)
    requires q < |s.requests| && !s.requests[q].exited && s.requests[q].phase.Idle?
    ensures MayLogMore(s, q)
  {
    LogsNow(s, Emit(q), q);
  }

  lemma SubmittingMayLog(s: State, q: nat)
    requires q < |s.requests| && !s.requests[q].exited && s.requests[q].phase.Submitting?
    ensures MayLogMore(s, q)
  {
    IdleMayLog(Next(s, SubmitFailed(q)), q);
    PrependStep(s, SubmitFailed(q), q);
  }

  lemma TrackingMayLog(s: State, q: nat)
    requires q < |s.requests| && !s.requests[q].exited && s.requests[q].phase.Tracking?
    ensures MayLogMore(s, q)
  {
    IdleMayLog(NextTrack(s, q), q);
    PrependStep(s, Track(q), q);
  }

  lemma LookingMayLog(s: State, q: nat)
    requires q < |s.requests| && !s.requests[q].exited && s.requests[q].phase.Looking? && s.holder.None?
    ensures MayLogMore(s, q)
  {
    var kept := PruneExists(s.config, s.entries, s.requests[q].phase.now);
    hide PruneOutcome, Unexpired;
    LookUpLeads(s, q, kept);
    var t := NextLookUp(s, q, kept);
    match t.requests[q].phase {
      case Idle => IdleMayLog(t, q);
      case Tracking(_, _) => TrackingMayLog(t, q);
      case Submitting(_) => SubmittingMayLog(t, q);
    }
    PrependStep(s, LookUp(q, kept), q);
  }

  lemma LookUpLeads(s: State, q: nat, kept: map<Key, Entry>)
    requires q < |s.requests| && s.requests[q].phase.Looking?
    ensures q < |NextLookUp(s, q, kept).requests|
    ensures NextLookUp(s, q, kept).requests[q].exited == s.requests[q].exited
    ensures !NextLookUp(s, q, kept).requests[q].phase.Looking?
  {
  }

  lemma HandlerMayLog(s: State, q: nat)
    requires Inv(s) && q < |s.requests| && !s.requests[q].exited
    ensures MayLogMore(s, q)
  {
    assert LockOk(s);
    hide Inv, MayLogMore;
    match s.requests[q].phase
    case Idle => IdleMayLog(s, q);
    case Submitting(_) => SubmittingMayLog(s, q);
    case Tracking(_, _) => TrackingMayLog(s, q);
    case Looking(_, _, _) =>
      if s.holder.None? {
        LookingMayLog(s, q);
      } else {
        var t := Next(s, SubmitFailed(s.holder.value));
        LookingMayLog(t, q);
        PrependStep(s, SubmitFailed(s.holder.value), q);
      }
  }

  /**
   Exactly when a terminal that is out is the last event of its attempt for good: nothing of the attempt can
   follow it if and only if its handler has left and every worker it started is done.
   */
  lemma TerminalIsFinal(s: State, q: nat)
    requires Inv(s) && q < |s.requests| && TerminalEmitted(s.requests[q])
    ensures MayLogMore(s, q) <==> !s.requests[q].exited || OwnsUnfinished(s, q)
  {
    if !s.requests[q].exited {
      HandlerMayLog(s, q);
    } else if OwnsUnfinished(s, q) {
      UnfinishedMayLog(s, q);
    } else if MayLogMore(s, q) {
      var actions, t :| Path(s, actions, t) && LogsAfter(s, t, q);
      SealedPath(s, actions, t, q);
    }
  }

  /** If the handler left and never acted after its request, the terminal is final. */
  lemma TimelyTerminalIsFinal(s: State, q: nat)
    requires Inv(s) && q < |s.requests| && TerminalEmitted(s.requests[q])
    requires s.requests[q].exited && !s.requests[q].late
    ensures !MayLogMore(s, q)
  {
    assert BarrierOk(s, s.requests[q]) && WorkersOk(s);
    forall f | 0 <= f < |s.submissions| && s.submissions[f].owner == q ensures s.submissions[f].status.Done? {
      assert WorkerTracked(s, f);
    }
    TerminalIsFinal(s, q);
  }

  // ---------------------------------------------------------------- draining at shutdown

  /** Handler activity: what stops once the server has finished its traffic. */
  predicate IsTraffic(a: Action) {
    || a.Arrive? || a.Emit? || a.BeginBounded? || a.BeginLookUp? || a.LookUp?
    || a.SubmitOk? || a.SubmitFailed? || a.Track?
  }

  lemma {:induction false} CountZero<T(!new)>(s: seq<T>, i: nat, p: T -> bool)
    requires i < |s| && Count(s, p) == 0
    ensures !p(s[i])
  {
    if p(s[i]) { CountPositive(s, i, p); }
  }

  ghost predicate NoTraffic(actions: seq<Action>, i: nat, j: nat)
    requires j <= |actions|
  {
    forall n :: i <= n < j ==> !IsTraffic(actions[n])
  }

  /** Every accepted future has given its slot back, so none is still running. */
  ghost predicate AllReleased(s: State) {
    forall f :: 0 <= f < |s.submissions| ==> s.submissions[f].status.Done? && !s.submissions[f].releaseDue
  }

  /** Every attempt that ever tracked a worker has emitted its terminal and given its drain back. */
  ghost predicate AllTerminalsOut(s: State) {
    forall q :: 0 <= q < |s.requests| && s.requests[q].tracked != {} ==> s.requests[q].dispatch.Finished?
  }

  lemma IdleMeansReleased(s: State)
    requires Inv(s) && s.admission.active == 0
    ensures AllReleased(s)
  {
    forall f | 0 <= f < |s.submissions| ensures s.submissions[f].status.Done? && !s.submissions[f].releaseDue {
      CountZero(s.submissions, f, ReleaseDue);
    }
  }

  lemma NoTerminalsPending(s: State)
    requires Inv(s) && s.terminals.active == 0
    ensures AllTerminalsOut(s)
  {
    forall q | 0 <= q < |s.requests| && s.requests[q].tracked != {} ensures s.requests[q].dispatch.Finished? {
      CountZero(s.requests, q, DrainRegistered);
      CountZero(s.requests, q, ReleasingDrain);
      assert BarrierOk(s, s.requests[q]);
    }
  }

  lemma QuietTrafficStep(s: State, a: Action)
    requires Enabled(s, a) && !IsTraffic(a) && AllReleased(s)
    ensures AllReleased(Next(s, a)) && |Next(s, a).requests| == |s.requests|
    ensures forall q :: 0 <= q < |s.requests| ==> Next(s, a).requests[q].tracked == s.requests[q].tracked
  {
    hide PruneOutcome, Dropped;
  }

  lemma QuietLogStep(s: State, a: Action)
    requires Inv(s) && Enabled(s, a) && !IsTraffic(a) && AllReleased(s) && AllTerminalsOut(s)
    ensures var t := Next(s, a);
            && AllTerminalsOut(t)
            && (|| t.log == s.log
                || exists q :: 0 <= q < |s.requests| && s.requests[q].tracked == {}
                               && t.log == s.log + [Event(q, RequestTerminal)])
  {
    hide PruneOutcome, Dropped;
    if Subject(s, a).Some? {
      var q := Subject(s, a).value;
      OnlySubjectChanges(s, a);
      assert BarrierOk(s, s.requests[q]);
    }
  }

  lemma {:induction false} ReleasedStays(trace: seq<State>, actions: seq<Action>, i: nat, j: nat)
    requires IsRun(trace, actions) && i <= j < |trace| && NoTraffic(actions, i, j) && AllReleased(trace[i])
    ensures AllReleased(trace[j]) && |trace[j].requests| == |trace[i].requests|
    ensures forall q :: 0 <= q < |trace[i].requests| ==> trace[j].requests[q].tracked == trace[i].requests[q].tracked
  {
    hide Next, Enabled, Initial;
    if i < j {
      ReleasedStays(trace, actions, i, j - 1);
      QuietTrafficStep(trace[j - 1], actions[j - 1]);
    }
  }

  /**
   The two waits of the shutdown drain.  If the admission counter was seen at zero and later the
   terminal counter was seen at zero, with no handler activity since the first, then every accepted
   worker has released and every attempt that tracked a worker has its terminal out; and whatever is
   logged after that is the terminal of an attempt that never tracked one.
   */
  lemma {:induction false} DrainedIsSilent(trace: seq<State>, actions: seq<Action>, i: nat, j: nat, k: nat)
    requires IsRun(trace, actions) && i <= j <= k < |trace| && NoTraffic(actions, i, k)
    requires trace[i].admission.active == 0 && trace[j].terminals.active == 0
    ensures AllReleased(trace[j]) && AllTerminalsOut(trace[j])
    ensures AllReleased(trace[k]) && AllTerminalsOut(trace[k])
    ensures |trace[j].log| <= |trace[k].log| && trace[k].log[..|trace[j].log|] == trace[j].log
    ensures forall n :: |trace[j].log| <= n < |trace[k].log| ==>
              && trace[k].log[n].kind.RequestTerminal?
              && trace[k].log[n].request < |trace[j].requests|
                && trace[j].requests[trace[k].log[n].request].tracked == {}
  {
    hide Next, Enabled, Inv, Initial;
    RunInv(trace, actions, i);
    RunInv(trace, actions, j);
    IdleMeansReleased(trace[i]);
    ReleasedStays(trace, actions, i, j);
    NoTerminalsPending(trace[j]);
    if j < k {
      DrainedIsSilent(trace, actions, i, j, k - 1);
      RunInv(trace, actions, k - 1);
      ReleasedStays(trace, actions, j, k - 1);
      QuietTrafficStep(trace[k - 1], actions[k - 1]);
      QuietLogStep(trace[k - 1], actions[k - 1]);
    }
  }
}
