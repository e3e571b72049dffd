/** The inductive invariant of the request-execution layer, one conjunct per concern. */
module RequestInvariants {
  import opened Counting
  import opened RequestModel

  // ---------------------------------------------------------------- the invariant

  /** A callback is owed until it ran, and runs only after the future is done. */
  ghost predicate FuturesOk(s: State) {
    forall f :: 0 <= f < |s.submissions| ==>
      var u := s.submissions[f];
      && u.owner < |s.requests|
      && (!u.releaseDue ==> u.status.Done?)
      && (u.completeDue ==> u.job.Some?)
      && (u.job.Some? && !u.completeDue ==> u.status.Done?)
  }

  /** Active slots are the submissions not yet released plus the admissions not yet submitted. */
  ghost predicate AdmissionOk(s: State) {
    && s.admission.active == Count(s.submissions, ReleaseDue) + Count(s.requests, HoldsSlot)
    && s.admission.active <= s.admission.peak <= MAX_PROCESS_REQUEST_WORKERS
    && (s.admission.idle <==> s.admission.active == 0)
    && s.admission.accepted == |s.submissions| + Count(s.requests, HoldsSlot) + s.failed
  }

  /** The registry's lock is held exactly by the request between admission and submission of its key. */
  ghost predicate LockOk(s: State) {
    && (forall q :: 0 <= q < |s.requests| ==>
          (s.holder == Some(q) <==> s.requests[q].phase.Submitting? && s.requests[q].phase.work.Some?))
    && (s.holder.Some? ==>
          && s.holder.value < |s.requests|
          && s.requests[s.holder.value].phase.Submitting? && s.requests[s.holder.value].phase.work.Some?
          && s.requests[s.holder.value].phase.work.value.key !in s.entries)
  }

  /** The clock a look-up read before taking the lock is never ahead of the clock. */
  ghost predicate LookingOk(s: State, r: Request) {
    r.phase.Looking? ==> r.phase.limit <= MAX_PROCESS_REQUEST_WORKERS && r.phase.now <= s.clock
  }

  ghost predicate LookingsOk(s: State) {
    forall q :: 0 <= q < |s.requests| ==> LookingOk(s, s.requests[q])
  }

  ghost predicate HasKey(s: State, f: nat, key: Key) {
    f < |s.submissions| && s.submissions[f].job.Some? && s.submissions[f].job.value.key == key
  }

  /** Each entry is the latest submission of its key, and every uncompleted keyed submission is an entry. */
  ghost predicate RegistryOk(s: State) {
    && (forall k :: k in s.entries ==>
          var e := s.entries[k];
          && e.future < |s.submissions|
          && s.submissions[e.future].job == Some(Job(k, e.input, e.cacheResult))
          && (Settled(e) <==> !s.submissions[e.future].completeDue)
          && (forall f: nat :: HasKey(s, f, k) ==> f <= e.future))
    && (forall f :: 0 <= f < |s.submissions| && s.submissions[f].completeDue && s.submissions[f].job.Some? ==>
          Registered(s, f))
  }

  ghost predicate CompletionOk(s: State, c: Completion) {
    && c.future < |s.submissions|
    && s.submissions[c.future].job.Some?
    && s.submissions[c.future].job.value.key == c.key
    && s.submissions[c.future].job.value.input == c.input
    && !s.submissions[c.future].completeDue
    && s.submissions[c.future].status == Done(c.outcome)
    && c.accepted == (c.outcome.Returned? && s.submissions[c.future].job.value.cacheResult(c.outcome.value))
    && c.at <= s.clock
  }

  /** The registry is the accepted part of the completion log minus the evicted futures. */
  ghost predicate Cached(s: State, c: Completion) {
    c.key in s.entries && s.entries[c.key].future == c.future && s.entries[c.key].completedAt == Some(c.at)
  }

  ghost predicate CompletionsOk(s: State) {
    forall i :: 0 <= i < |s.completions| ==> CompletionOk(s, s.completions[i])
  }

  /** Executions of one key complete in submission order. */
  ghost predicate CompletionOrderOk(s: State) {
    forall i, j :: 0 <= i < j < |s.completions| && s.completions[i].key == s.completions[j].key ==>
      s.completions[i].future < s.completions[j].future
  }

  ghost predicate AcceptedOk(s: State) {
    forall i :: 0 <= i < |s.completions| && s.completions[i].accepted ==>
      s.completions[i].future in s.evicted || Cached(s, s.completions[i])
  }

  ghost predicate SettledOk(s: State) {
    forall k :: k in s.entries && Settled(s.entries[k]) ==> SettledFromLog(s, k)
  }

  ghost predicate SettledFromLog(s: State, k: Key)
    requires k in s.entries
  {
    exists i ::
      0 <= i < |s.completions| && s.completions[i].accepted && s.completions[i].key == k && Cached(s, s.completions[i])
  }

  ghost predicate EvictedOk(s: State) {
    forall f :: f in s.evicted ==> f < |s.submissions| && s.submissions[f].job.Some? && !s.submissions[f].completeDue
  }

  /** Whatever a prune dropped completed no later than anything settled that it or later prunes left. */
  ghost predicate EvictionOrderOk(s: State) {
    forall i, k ::
      0 <= i < |s.completions| && s.completions[i].future in s.evicted && k in s.entries && Settled(s.entries[k]) ==>
      s.completions[i].at <= s.entries[k].completedAt.value
  }

  ghost predicate CacheOk(s: State) {
    && RegistryOk(s) && CompletionsOk(s) && CompletionOrderOk(s) && AcceptedOk(s) && SettledOk(s)
    && EvictedOk(s) && EvictionOrderOk(s)
  }

  ghost predicate BoundOk(s: State) {
    |SettledKeys(s.entries)| <= s.config.maxReplayEntries
  }

  ghost function SettledKeys(entries: map<Key, Entry>): set<Key> {
    set k | k in entries && Settled(entries[k])
  }

  ghost predicate BarrierOk(s: State, r: Request) {
    && (r.barrier.dispatched <==> !r.dispatch.NotStarted?)
    && (r.barrier.waiting ==> !r.barrier.dispatched && r.barrier.pending != {})
    && (r.barrier.dispatched ==> r.barrier.pending == {})
    && r.barrier.pending <= r.tracked
    && (forall f :: f in r.tracked ==> f < |s.submissions|)
    && (forall f :: f in r.tracked && f !in r.barrier.pending ==> IsDone(s, f))
    && (r.barrier.drainRegistered <==>
          r.tracked != {} && (r.dispatch.NotStarted? || r.dispatch.AtCallback? || r.dispatch.AtUnregister?))
    && (r.exited ==> r.phase.Idle? && TerminalRequested(r.barrier))
    && (r.late ==> TerminalRequested(r.barrier))
    && (TerminalRequested(r.barrier) && !r.phase.Idle? ==> r.late)
    && (r.phase.Tracking? ==> r.phase.future < |s.submissions|)
  }

  ghost predicate BarriersOk(s: State) {
    forall q :: 0 <= q < |s.requests| ==> BarrierOk(s, s.requests[q])
  }

  /** A worker that may still emit into an attempt is tracked by it, unless the attempt is late. */
  ghost predicate WorkerTracked(s: State, f: nat)
    requires f < |s.submissions| && s.submissions[f].owner < |s.requests|
  {
    var r := s.requests[s.submissions[f].owner];
    s.submissions[f].status.Done? || f in r.tracked || (r.phase.Tracking? && r.phase.future == f) || r.late
  }

  ghost predicate WorkersOk(s: State)
    requires FuturesOk(s)
  {
    forall f :: 0 <= f < |s.submissions| ==> WorkerTracked(s, f)
  }

  ghost predicate TerminalsOk(s: State) {
    && s.terminals.active == Count(s.requests, DrainRegistered) + Count(s.requests, ReleasingDrain)
    && (s.terminals.idle <==> s.terminals.active == 0)
  }

  // ---------------------------------------------------------------- the audit log

  ghost predicate StartedAt(log: seq<Event>, q: nat, i: nat) {
    && i < |log| && log[i] == Event(q, RequestStarted)
    && (forall j :: 0 <= j < |log| && log[j].request == q ==> i <= j)
    && (forall j :: 0 <= j < |log| && log[j] == Event(q, RequestStarted) ==> j == i)
  }

  ghost predicate TerminalAt(log: seq<Event>, q: nat, i: nat) {
    && i < |log| && log[i] == Event(q, RequestTerminal)
    && (forall j :: 0 <= j < |log| && log[j] == Event(q, RequestTerminal) ==> j == i)
  }

  ghost predicate LastOf(log: seq<Event>, q: nat, i: nat) {
    forall j :: i < j < |log| ==> log[j].request != q
  }

  ghost predicate LogOkFor(s: State, q: nat)
    requires q < |s.requests|
  {
    && (exists i :: StartedAt(s.log, q, i))
    && (if TerminalEmitted(s.requests[q])
        then exists i :: TerminalAt(s.log, q, i) && (!s.requests[q].late ==> LastOf(s.log, q, i))
        else forall j :: 0 <= j < |s.log| ==> s.log[j] != Event(q, RequestTerminal))
  }

  ghost predicate LogOk(s: State) {
    && (forall j :: 0 <= j < |s.log| ==> s.log[j].request < |s.requests|)
    && (forall q :: 0 <= q < |s.requests| ==> LogOkFor(s, q))
  }

  ghost predicate Inv(s: State) {
    && FuturesOk(s) && LookingsOk(s) && AdmissionOk(s) && LockOk(s) && CacheOk(s) && BoundOk(s)
    && BarriersOk(s) && WorkersOk(s) && TerminalsOk(s) && LogOk(s)
  }

  // ---------------------------------------------------------------- preservation, concern by concern

  lemma InitialInv(s: State)
    requires Initial(s)
    ensures Inv(s)
  {
  }

  /** Submissions are only appended; owner and job are fixed, a done future stays done, a paid callback stays paid. */
  ghost predicate Grows(s: State, t: State) {
    && |s.submissions| <= |t.submissions| && |s.requests| <= |t.requests|
    && forall f :: 0 <= f < |s.submissions| ==> SubmissionGrows(s.submissions[f], t.submissions[f])
  }

  ghost predicate SubmissionGrows(u: Submission, v: Submission) {
    && u.owner == v.owner && u.job == v.job
    && (u.status.Done? ==> v.status == u.status)
    && (v.releaseDue ==> u.releaseDue) && (v.completeDue ==> u.completeDue)
  }

  lemma StepGrows(s: State, a: Action)
    requires Enabled(s, a)
    ensures Grows(s, Next(s, a))
  {
    hide PruneOutcome, Dropped, Resolve, DeferTerminal, TrackFuture, SettleFuture, Admits, Acquire, Release, Reject;
  }

  lemma FuturesStep(s: State, a: Action)
    requires FuturesOk(s) && BarriersOk(s) && Enabled(s, a)
    ensures FuturesOk(Next(s, a))
  {
    hide PruneOutcome, Dropped, Resolve, DeferTerminal, SettleFuture, Admits, Acquire, Release, Reject;
  }

  /** The one attempt an action may change. */
  function Subject(s: State, a: Action): Option<nat> {
    match a
    case Arrive => Some(|s.requests|)
    case Emit(q) => Some(q)
    case BeginBounded(q, _) => Some(q)
    case BeginLookUp(q, _, _) => Some(q)
    case LookUp(q, _) => Some(q)
    case SubmitOk(q) => Some(q)
    case SubmitFailed(q) => Some(q)
    case Track(q) => Some(q)
    case RequestTerminalNow(q) => Some(q)
    case Exit(q) => Some(q)
    case Settle(q, _) => Some(q)
    case EmitTerminal(q) => Some(q)
    case UnregisterDrain(q) => Some(q)
    case ReleaseDrain(q) => Some(q)
    case _ => None
  }

  lemma OnlySubjectChanges(s: State, a: Action)
    requires Enabled(s, a)
    ensures match Subject(s, a)
            case None => Next(s, a).requests == s.requests
            case Some(q) =>
              && q < |Next(s, a).requests|
              && (a.Arrive? ==>
                    Next(s, a).requests == s.requests + [Request(Idle, FreshBarrier, NotStarted, false, {}, false)])
              && (!a.Arrive? ==> q < |s.requests| && Next(s, a).requests == s.requests[q := Next(s, a).requests[q]])
  {
    hide PruneOutcome, Dropped, DeferTerminal, TrackFuture, SettleFuture, Admits, Acquire, Release, Reject;
  }

  lemma BarrierFrame(s: State, t: State, r: Request)
    requires Grows(s, t) && BarrierOk(s, r)
    ensures BarrierOk(t, r)
  {
  }

  predicate IsWork(a: Action) { a.LookUp? || a.SubmitOk? || a.SubmitFailed? || a.Track? }

  predicate IsDispatch(a: Action) { a.Settle? || a.EmitTerminal? || a.UnregisterDrain? || a.ReleaseDrain? }

  lemma HandlerBarrier(s: State, a: Action, t: State, q: nat)
    requires BarriersOk(s) && Enabled(s, a) && t == Next(s, a)
    requires Subject(s, a) == Some(q) && q < |t.requests| && Grows(s, t)
    requires !IsWork(a) && !IsDispatch(a)
    ensures BarrierOk(t, t.requests[q])
  {
    hide PruneOutcome, Dropped;
  }

  lemma WorkBarrier(s: State, a: Action, t: State, q: nat)
    requires BarriersOk(s) && RegistryOk(s) && Enabled(s, a) && t == Next(s, a)
    requires Subject(s, a) == Some(q) && IsWork(a)
    ensures q < |t.requests| && BarrierOk(t, t.requests[q])
  {
    hide PruneOutcome, Dropped;
    assert BarrierOk(s, s.requests[q]);
    hide BarrierOk, RegistryOk, NextLookUp, NextSubmitOk, NextTrack, NextComplete, Release;
    match a
    case LookUp(_, kept) =>
      KeptFutures(s, s.requests[q].phase.now, kept);
      LookUpBarrier(s, q, kept);
    case SubmitOk(_) => SubmitBarrier(s, q);
    case SubmitFailed(_) => SubmitFailedBarrier(s, q);
    case Track(_) => TrackBarrier(s, q);
  }

  lemma KeptFutures(s: State, now: real, kept: map<Key, Entry>)
    requires RegistryOk(s) && PruneOutcome(s.config, s.entries, now, kept)
    ensures forall k :: k in kept ==> kept[k].future < |s.submissions|
  {
    forall k | k in kept ensures kept[k].future < |s.submissions| {
      assert k in Unexpired(s.config, s.entries, now);
    }
  }

  lemma SubmitFailedBarrier(s: State, q: nat)
    requires Enabled(s, SubmitFailed(q)) && BarrierOk(s, s.requests[q])
    ensures BarrierOk(Next(s, SubmitFailed(q)), Next(s, SubmitFailed(q)).requests[q])
  {
  }

  lemma LookUpBarrier(s: State, q: nat, kept: map<Key, Entry>)
    requires q < |s.requests| && s.requests[q].phase.Looking? && BarrierOk(s, s.requests[q])
    requires forall k :: k in kept ==> kept[k].future < |s.submissions|
    ensures BarrierOk(NextLookUp(s, q, kept), NextLookUp(s, q, kept).requests[q])
  {
    hide Dropped, Admits, Acquire, Reject;
    var job := s.requests[q].phase.job;
    assert job.key in kept ==> kept[job.key].future < |s.submissions|;
  }

  lemma SubmitBarrier(s: State, q: nat)
    requires Enabled(s, SubmitOk(q)) && BarrierOk(s, s.requests[q])
    ensures BarrierOk(NextSubmitOk(s, q), NextSubmitOk(s, q).requests[q])
  {
  }

  lemma TrackBarrier(s: State, q: nat)
    requires Enabled(s, Track(q)) && BarrierOk(s, s.requests[q])
    ensures BarrierOk(NextTrack(s, q), NextTrack(s, q).requests[q])
  {
  }

  lemma DispatchBarrier(s: State, a: Action, t: State, q: nat)
    requires BarriersOk(s) && Enabled(s, a) && t == Next(s, a)
    requires Subject(s, a) == Some(q) && q < |t.requests| && Grows(s, t)
    requires IsDispatch(a)
    ensures BarrierOk(t, t.requests[q])
  {
  }

  lemma BarriersStep(s: State, a: Action)
    requires BarriersOk(s) && RegistryOk(s) && Enabled(s, a)
    ensures BarriersOk(Next(s, a))
  {
    StepGrows(s, a);
    OnlySubjectChanges(s, a);
    var t := Next(s, a);
    forall q | 0 <= q < |t.requests| ensures BarrierOk(t, t.requests[q]) {
      if Subject(s, a) == Some(q) {
        if IsDispatch(a) {
          DispatchBarrier(s, a, t, q);
        } else if IsWork(a) {
          WorkBarrier(s, a, t, q);
        } else {
          HandlerBarrier(s, a, t, q);
        }
      } else {
        BarrierFrame(s, t, s.requests[q]);
      }
    }
  }

  lemma LockStep(s: State, a: Action, t: State)
    requires LockOk(s) && Enabled(s, a) && t == Next(s, a)
    ensures LockOk(t)
  {
    hide PruneOutcome, Dropped, Resolve, Acquire, Release, Reject, Admits;
    OnlySubjectChanges(s, a);
    if IsWork(a) || a.BeginBounded? || a.BeginLookUp? {
      LockWork(s, a, t);
    }
  }

  lemma LockWork(s: State, a: Action, t: State)
    requires LockOk(s) && Enabled(s, a) && t == Next(s, a)
    requires IsWork(a) || a.BeginBounded? || a.BeginLookUp?
    ensures LockOk(t)
  {
    hide PruneOutcome, Dropped, Resolve, Acquire, Release, Reject, Admits, TrackFuture, AcquireTerminal;
    hide NextLookUp, NextSubmitOk, NextComplete;
    match a
    case LookUp(q, kept) => LockLookUp(s, q, kept);
    case SubmitOk(q) => LockSubmit(s, q);
    case SubmitFailed(q) => LockSubmitFailed(s, q);
    case Track(_) =>
    case BeginBounded(_, _) =>
    case BeginLookUp(_, _, _) =>
  }

  lemma LockLookUp(s: State, q: nat, kept: map<Key, Entry>)
    requires LockOk(s) && q < |s.requests| && s.requests[q].phase.Looking? && s.holder.None?
    ensures LockOk(NextLookUp(s, q, kept))
  {
  }

  lemma LockSubmitFailed(s: State, q: nat)
    requires LockOk(s) && Enabled(s, SubmitFailed(q))
    ensures LockOk(Next(s, SubmitFailed(q)))
  {
  }

  lemma LockSubmit(s: State, q: nat)
    requires LockOk(s) && q < |s.requests| && s.requests[q].phase.Submitting?
    ensures LockOk(NextSubmitOk(s, q))
  {
  }

  lemma WorkersStep(s: State, a: Action, t: State)
    requires FuturesOk(s) && BarriersOk(s) && WorkersOk(s) && Enabled(s, a) && t == Next(s, a) && FuturesOk(t)
    ensures WorkersOk(t)
  {
    StepGrows(s, a);
    OnlySubjectChanges(s, a);
    NewWorkerTracked(s, a, t);
    hide Next, Enabled, Subject, PruneOutcome;
    forall f | 0 <= f < |t.submissions| ensures WorkerTracked(t, f) {
      if f < |s.submissions| {
        assert WorkerTracked(s, f) && BarrierOk(s, s.requests[s.submissions[f].owner]);
        assert SubmissionGrows(s.submissions[f], t.submissions[f]);
        hide BarrierOk;
        if Subject(s, a) == Some(s.submissions[f].owner) {
          SubjectEvolves(s, a, s.submissions[f].owner);
        }
      }
    }
  }

  /** A new submission is being tracked by the attempt that made it. */
  lemma NewWorkerTracked(s: State, a: Action, t: State)
    requires FuturesOk(t) && Enabled(s, a) && t == Next(s, a)
    ensures forall f :: |s.submissions| <= f < |t.submissions| ==> WorkerTracked(t, f)
  {
    hide PruneOutcome, Dropped, Admits, Acquire, Release, Reject, Resolve, AcquireTerminal, ReleaseTerminal;
    hide SettleFuture, DeferTerminal, TrackFuture;
  }

  /** An attempt forgets neither a tracked future nor its lateness, and leaves Tracking by tracking or late. */
  ghost predicate RequestEvolves(r: Request, r': Request) {
    && r.tracked <= r'.tracked && (r.late ==> r'.late)
    && (r.phase.Tracking? ==> r'.phase == r.phase || r.phase.future in r'.tracked || r'.late)
  }

  lemma SubjectEvolves(s: State, a: Action, q: nat)
    requires Enabled(s, a) && Subject(s, a) == Some(q) && q < |s.requests| && BarrierOk(s, s.requests[q])
    ensures q < |Next(s, a).requests| && RequestEvolves(s.requests[q], Next(s, a).requests[q])
  {
    hide PruneOutcome, Dropped, Admits, Acquire, Release, Reject;
    if a.Track? {
      TrackEvolves(s, q);
    }
  }

  lemma TrackEvolves(s: State, q: nat)
    requires q < |s.requests| && s.requests[q].phase.Tracking? && BarrierOk(s, s.requests[q])
    ensures q < |NextTrack(s, q).requests| && RequestEvolves(s.requests[q], NextTrack(s, q).requests[q])
  {
  }

  // ---------------------------------------------------------------- counters

  /** How one changed attempt moves a count over all attempts. */
  lemma CountOne(s: State, t: State, q: nat, p: Request -> bool)
    requires q < |s.requests| && q < |t.requests| && t.requests == s.requests[q := t.requests[q]]
    ensures Count(t.requests, p) + (if p(s.requests[q]) then 1 else 0) ==
        Count(s.requests, p) + (if p(t.requests[q]) then 1 else 0)
  {
    CountUpdate(s.requests, q, t.requests[q], p);
  }

  lemma SubjectLooking(s: State, a: Action, t: State, q: nat)
    requires Enabled(s, a) && t == Next(s, a) && Subject(s, a) == Some(q) && q < |t.requests|
    requires q < |s.requests| ==> LookingOk(s, s.requests[q])
    ensures LookingOk(t, t.requests[q])
  {
    hide PruneOutcome, Dropped, Admits, Acquire, Release, Reject, Resolve, AcquireTerminal, ReleaseTerminal;
    hide SettleFuture, DeferTerminal, TrackFuture;
  }

  lemma ClockGrows(s: State, a: Action, t: State)
    requires Enabled(s, a) && t == Next(s, a)
    ensures s.clock <= t.clock
  {
    hide PruneOutcome, Dropped, Admits, Acquire, Release, Reject, Resolve, AcquireTerminal, ReleaseTerminal;
    hide SettleFuture, DeferTerminal, TrackFuture;
  }

  lemma LookingsStep(s: State, a: Action, t: State)
    requires LookingsOk(s) && Enabled(s, a) && t == Next(s, a)
    ensures LookingsOk(t)
  {
    OnlySubjectChanges(s, a);
    ClockGrows(s, a, t);
    hide Next, Enabled, Subject;
    forall q | 0 <= q < |t.requests| ensures LookingOk(t, t.requests[q]) {
      if q < |s.requests| {
        assert LookingOk(s, s.requests[q]);
      }
      if Subject(s, a) == Some(q) {
        SubjectLooking(s, a, t, q);
      }
    }
  }

  predicate IsFutureAction(a: Action) {
    a.StartWorker? || a.FinishWorker? || a.CancelQueued? || a.ReleaseAdmission? || a.Complete?
  }

  lemma AdmissionStep(s: State, a: Action, t: State)
    requires AdmissionOk(s) && LookingsOk(s) && Enabled(s, a) && t == Next(s, a)
    ensures AdmissionOk(t)
  {
    if IsWork(a) || a.BeginBounded? {
      AdmissionWork(s, a, t);
    } else if IsFutureAction(a) {
      AdmissionFuture(s, a, t);
    } else {
      AdmissionOther(s, a, t);
    }
  }

  lemma AdmissionWork(s: State, a: Action, t: State)
    requires AdmissionOk(s) && LookingsOk(s) && Enabled(s, a) && t == Next(s, a) && (IsWork(a) || a.BeginBounded?)
    ensures AdmissionOk(t)
  {
    hide PruneOutcome, Dropped, AdmissionOk, LookingOk, NextLookUp, NextSubmitOk, NextTrack, NextComplete;
    match a
    case LookUp(q, kept) =>
      LookingLimit(s, q);
      AdmissionLookUp(s, q, kept);
    case SubmitOk(q) => AdmissionSubmit(s, q);
    case SubmitFailed(q) => AdmissionSubmitFailed(s, q);
    case Track(q) => AdmissionTrack(s, q);
    case BeginBounded(q, limit) => AdmissionBeginBounded(s, q, limit);
  }

  lemma LookingLimit(s: State, q: nat)
    requires LookingsOk(s) && q < |s.requests| && s.requests[q].phase.Looking?
    ensures s.requests[q].phase.limit <= MAX_PROCESS_REQUEST_WORKERS
  {
    assert LookingOk(s, s.requests[q]);
  }

  lemma AdmissionSubmitFailed(s: State, q: nat)
    requires AdmissionOk(s) && Enabled(s, SubmitFailed(q))
    ensures AdmissionOk(Next(s, SubmitFailed(q)))
  {
    CountOne(s, Next(s, SubmitFailed(q)), q, HoldsSlot);
    CountPositive(s.requests, q, HoldsSlot);
  }

  lemma AdmissionTrack(s: State, q: nat)
    requires AdmissionOk(s) && Enabled(s, Track(q))
    ensures AdmissionOk(NextTrack(s, q))
  {
    CountOne(s, NextTrack(s, q), q, HoldsSlot);
  }

  lemma AdmissionBeginBounded(s: State, q: nat, limit: nat)
    requires AdmissionOk(s) && Enabled(s, BeginBounded(q, limit))
    ensures AdmissionOk(Next(s, BeginBounded(q, limit)))
  {
    CountOne(s, Next(s, BeginBounded(q, limit)), q, HoldsSlot);
  }

  lemma AdmissionFuture(s: State, a: Action, t: State)
    requires AdmissionOk(s) && Enabled(s, a) && t == Next(s, a) && IsFutureAction(a)
    ensures AdmissionOk(t)
  {
    var f := a.f;
    CountUpdate(s.submissions, f, t.submissions[f], ReleaseDue);
    if a.ReleaseAdmission? {
      CountPositive(s.submissions, f, ReleaseDue);
    }
  }

  lemma AdmissionOther(s: State, a: Action, t: State)
    requires AdmissionOk(s) && Enabled(s, a) && t == Next(s, a) && !IsWork(a) && !a.BeginBounded? && !IsFutureAction(a)
    ensures AdmissionOk(t)
  {
    OnlySubjectChanges(s, a);
    match Subject(s, a)
    case None =>
    case Some(q) =>
      if a.Arrive? {
        CountAppend(s.requests, t.requests[q], HoldsSlot);
      } else {
        CountOne(s, t, q, HoldsSlot);
      }
  }

  lemma AdmissionLookUp(s: State, q: nat, kept: map<Key, Entry>)
    requires AdmissionOk(s) && q < |s.requests| && s.requests[q].phase.Looking?
        && s.requests[q].phase.limit <= MAX_PROCESS_REQUEST_WORKERS
    ensures AdmissionOk(NextLookUp(s, q, kept))
  {
    var t := NextLookUp(s, q, kept);
    CountOne(s, t, q, HoldsSlot);
  }

  lemma AdmissionSubmit(s: State, q: nat)
    requires AdmissionOk(s) && q < |s.requests| && s.requests[q].phase.Submitting?
    ensures AdmissionOk(NextSubmitOk(s, q))
  {
    var t := NextSubmitOk(s, q);
    CountOne(s, t, q, HoldsSlot);
    CountAppend(s.submissions, t.submissions[|s.submissions|], ReleaseDue);
  }

  lemma NoSubjectTerminals(s: State, a: Action, t: State)
    requires Enabled(s, a) && t == Next(s, a) && (Subject(s, a).None? || a.Arrive?)
    ensures t.terminals == s.terminals
  {
    hide PruneOutcome, Dropped, Stamped, CompletesCacheable;
  }

  lemma TerminalsStep(s: State, a: Action, t: State)
    requires TerminalsOk(s) && BarriersOk(s) && Enabled(s, a) && t == Next(s, a)
    ensures TerminalsOk(t)
  {
    OnlySubjectChanges(s, a);
    match Subject(s, a)
    case None => NoSubjectTerminals(s, a, t);
    case Some(q) =>
      if a.Arrive? {
        NoSubjectTerminals(s, a, t);
        CountAppend(s.requests, t.requests[q], DrainRegistered);
        CountAppend(s.requests, t.requests[q], ReleasingDrain);
      } else {
        CountOne(s, t, q, DrainRegistered);
        CountOne(s, t, q, ReleasingDrain);
        assert BarrierOk(s, s.requests[q]);
        if a.ReleaseDrain? {
          CountPositive(s.requests, q, ReleasingDrain);
        }
        hide Next, Enabled, BarrierOk, Subject;
        TerminalsMove(s, a, t, q);
      }
  }

  ghost function DrainWeight(r: Request): nat {
    (if DrainRegistered(r) then 1 else 0) + (if ReleasingDrain(r) then 1 else 0)
  }

  /** The counter moves exactly as the subject's drain flag and release step do. */
  lemma TerminalsMove(s: State, a: Action, t: State, q: nat)
    requires Enabled(s, a) && t == Next(s, a) && !a.Arrive? && Subject(s, a) == Some(q)
    requires q < |t.requests| && BarrierOk(s, s.requests[q])
    requires a.ReleaseDrain? ==> s.terminals.active > 0
    requires s.terminals.idle <==> s.terminals.active == 0
    ensures t.terminals.active + DrainWeight(s.requests[q]) == s.terminals.active + DrainWeight(t.requests[q])
    ensures t.terminals.idle <==> t.terminals.active == 0
  {
    hide PruneOutcome, Dropped;
    if a.Track? {
      TerminalsTrack(s, q);
    } else if IsDispatch(a) {
      assert s.requests[q].barrier.dispatched <==> !s.requests[q].dispatch.NotStarted?;
      hide BarrierOk;
    } else {
      assert s.requests[q].barrier.dispatched <==> !s.requests[q].dispatch.NotStarted?;
      hide BarrierOk;
      TerminalsHold(s, a, t, q);
    }
  }

  lemma TerminalsHold(s: State, a: Action, t: State, q: nat)
    requires Enabled(s, a) && t == Next(s, a) && Subject(s, a) == Some(q)
    requires !a.Arrive? && !a.Track? && !IsDispatch(a)
    requires s.requests[q].barrier.dispatched <==> !s.requests[q].dispatch.NotStarted?
    ensures t.terminals == s.terminals && q < |t.requests| && DrainWeight(t.requests[q]) == DrainWeight(s.requests[q])
  {
    if IsWork(a) {
      TerminalsHoldWork(s, a, t, q);
    }
  }

  lemma TerminalsHoldWork(s: State, a: Action, t: State, q: nat)
    requires Enabled(s, a) && t == Next(s, a) && Subject(s, a) == Some(q) && IsWork(a) && !a.Track?
    ensures t.terminals == s.terminals && q < |t.requests| && DrainWeight(t.requests[q]) == DrainWeight(s.requests[q])
  {
    hide PruneOutcome, Dropped, Resolve, Admits, Acquire, Release, Reject;
  }

  lemma TerminalsTrack(s: State, q: nat)
    requires q < |s.requests| && s.requests[q].phase.Tracking? && BarrierOk(s, s.requests[q])
    requires s.terminals.idle <==> s.terminals.active == 0
    ensures var t := NextTrack(s, q);
            && t.terminals.active + DrainWeight(s.requests[q]) == s.terminals.active + DrainWeight(t.requests[q])
            && (t.terminals.idle <==> t.terminals.active == 0)
  {
  }
}
