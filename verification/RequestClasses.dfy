/**
 The mutable objects of the request-execution layer.  Each method of the counters and the barrier performs
 the effect that the transition system gives its critical section; the coordinator's look-up and completion
 are related to the system's steps by EntryForRefines and CompleteRefines.
 */
module RequestClasses {
  import opened Counting
  import opened RequestModel
  import opened RegistryInvariants
  import opened Sorting

  class ProcessAdmission {
    var active: nat
    var peakActive: nat
    var accepted: nat
    var rejected: nat
    var idle: bool

    ghost function View(): Admission
      reads this
    {
      Admission(active, peakActive, accepted, rejected, idle)
    }

    constructor ()
      ensures View() == Admission(0, 0, 0, 0, true)
    {
      active, peakActive, accepted, rejected, idle := 0, 0, 0, 0, true;
    }

    method TryAcquire(limit: nat) returns (ok: bool)
      modifies this
      ensures ok <==> old(active) < limit
      ensures ok ==> active == old(active) + 1 && accepted == old(accepted) + 1 && rejected == old(rejected)
      ensures ok ==> peakActive == (if old(peakActive) < active then active else old(peakActive))
      ensures ok ==> idle == (old(idle) && old(active) > 0)
      ensures !ok ==> rejected == old(rejected) + 1 && active == old(active) && accepted == old(accepted)
      ensures ok == Admits(old(View()), limit)
      ensures View() == if ok then Acquire(old(View())) else Reject(old(View()))
    {
      if active >= limit {
        rejected := rejected + 1;
        return false;
      }
      if active == 0 {
        idle := false;
      }
      active := active + 1;
      if peakActive < active {
        peakActive := active;
      }
      accepted := accepted + 1;
      return true;
    }

    /** False is the underflow error, which leaves the counters alone. */
    method ReleaseSlot() returns (ok: bool)
      modifies this
      ensures ok <==> old(active) > 0
      ensures ok ==> active == old(active) - 1 && idle == (old(idle) || active == 0)
      ensures ok == Release(old(View())).Some?
      ensures View() == Release(old(View())).GetOr(old(View()))
    {
      if active <= 0 {
        return false;
      }
      active := active - 1;
      if active == 0 {
        idle := true;
      }
      return true;
    }
  }

  class PendingAuditTerminals {
    var active: nat
    var idle: bool

    ghost function View(): PendingTerminals
      reads this
    {
      PendingTerminals(active, idle)
    }

    constructor ()
      ensures View() == PendingTerminals(0, true)
    {
      active, idle := 0, true;
    }

    method AcquireOne()
      modifies this
      ensures View() == AcquireTerminal(old(View()))
    {
      if active == 0 {
        idle := false;
      }
      active := active + 1;
    }

    method ReleaseOne() returns (ok: bool)
      modifies this
      ensures ok == ReleaseTerminal(old(View())).Some?
      ensures View() == ReleaseTerminal(old(View())).GetOr(old(View()))
    {
      if active <= 0 {
        return false;
      }
      active := active - 1;
      if active == 0 {
        idle := true;
      }
      return true;
    }
  }

  /** A callback is named by a number; `ran` lists the callbacks that were run, in order. */
  class RequestAuditWorkerBarrier {
    const terminals: PendingAuditTerminals
    var pending: set<nat>
    var callback: Option<nat>
    var dispatched: bool
    var drainRegistered: bool
    var ran: seq<nat>

    ghost function View(): Barrier
      reads this
    {
      Barrier(pending, callback.Some?, dispatched, drainRegistered)
    }

    constructor (terminals: PendingAuditTerminals)
      ensures View() == FreshBarrier && ran == [] && this.terminals == terminals
    {
      this.terminals := terminals;
      pending, callback, dispatched, drainRegistered, ran := {}, None, false, false, [];
    }

    /** False is the error for work that arrives after the terminal was requested. */
    method Track(future: nat) returns (ok: bool)
      modifies this, terminals
      ensures ran == old(ran) && callback == old(callback)
      ensures match TrackFuture(old(View()), future)
              case AlreadyPending => ok && View() == old(View()) && terminals.View() == old(terminals.View())
              case Refused => !ok && View() == old(View()) && terminals.View() == old(terminals.View())
              case Accepted(barrier, registersDrain) =>
                && ok && View() == barrier
                && terminals.View() == if registersDrain then AcquireTerminal(old(terminals.View()))
                  else old(terminals.View())
    {
      if future in pending {
        return true;
      }
      if dispatched || callback.Some? {
        return false;
      }
      if !drainRegistered {
        terminals.AcquireOne();
        drainRegistered := true;
      }
      pending := pending + {future};
      return true;
    }

    method DeferTerminalCallback(c: nat)
      requires drainRegistered ==> terminals.active > 0
      modifies this, terminals
      ensures var (barrier, runNow) := DeferTerminal(old(View()));
              if runNow then Dispatched(old(View()), barrier, old(terminals.View())) && ran == old(ran) + [c]
              else View() == barrier && ran == old(ran) && terminals.View() == old(terminals.View())
                   && callback == if TerminalRequested(old(View())) then old(callback) else Some(c)
    {
      if dispatched || callback.Some? {
        return;
      }
      if pending != {} {
        callback := Some(c);
      } else {
        dispatched := true;
        DispatchTerminal(c);
      }
    }

    method WorkerSettled(future: nat)
      requires drainRegistered ==> terminals.active > 0
      modifies this, terminals
      ensures var (barrier, runNow) := SettleFuture(old(View()), future);
              if runNow then
                Dispatched(old(View()), barrier, old(terminals.View())) && ran == old(ran) + [old(callback).value]
              else
                && View() == barrier && ran == old(ran)
                && terminals.View() == old(terminals.View()) && callback == old(callback)
    {
      pending := pending - {future};
      if pending == {} && callback.Some? {
        var c := callback.value;
        callback := None;
        dispatched := true;
        DispatchTerminal(c);
      }
    }

    /** The state after a dispatch: the drain flag is down and the counter gave back what it held. */
    ghost predicate Dispatched(before: Barrier, barrier: Barrier, pendingTerminals: PendingTerminals)
      reads this, terminals
    {
      && View() == barrier.(drainRegistered := false)
      && terminals.View() == if before.drainRegistered
        then ReleaseTerminal(pendingTerminals).GetOr(pendingTerminals) else pendingTerminals
    }

    method DispatchTerminal(c: nat)
      requires dispatched && callback.None?
      requires drainRegistered ==> terminals.active > 0
      modifies this, terminals
      ensures ran == old(ran) + [c] && View() == old(View()).(drainRegistered := false)
      ensures terminals.View() == if old(drainRegistered) then ReleaseTerminal(old(terminals.View())).value
          else old(terminals.View())
    {
      ran := ran + [c];
      var releaseDrain := false;
      if drainRegistered {
        drainRegistered := false;
        releaseDrain := true;
      }
      if releaseDrain {
        var ok := terminals.ReleaseOne();
        assert ok;
      }
    }
  }

  datatype ExecutionError = InvalidLimit | IdentityConflict | Overloaded | SubmissionFailed

  datatype Registry = Registry(entries: map<Key, Entry>, admission: Admission)

  /** What one look-up and its possible submission may return and leave; `kept` is what the prune left. */
  ghost predicate EntryForOutcome(c: Config, job: Job, limit: nat, now: real, done: nat -> bool, submitted: Option<nat>,
                                  before: Registry, kept: map<Key, Entry>,
                                  r: Result<(nat, Disposition), ExecutionError>, after: Registry)
  {
    if !(1 <= limit <= MAX_PROCESS_REQUEST_WORKERS) then r == Failure(InvalidLimit) && after == before
    else
      && PruneOutcome(c, before.entries, now, kept)
      && match Resolve(kept, job, done)
         case Conflict => r == Failure(IdentityConflict) && after == Registry(kept, before.admission)
         case Hit(future, disposition) =>
           r == Success((future, disposition)) && after == Registry(kept, before.admission)
         case Miss =>
           if !Admits(before.admission, limit) then
             r == Failure(Overloaded) && after == Registry(kept, Reject(before.admission))
           else if submitted.None? then
             r == Failure(SubmissionFailed) && after == Registry(kept, Release(Acquire(before.admission)).value)
           else
             && r == Success((submitted.value, Executed))
             && after == Registry(kept[job.key := Entry(job.input, submitted.value, job.cacheResult, None)],
                                  Acquire(before.admission))
  }

  /** What the completion callback of `entry` may leave of the registry. */
  ghost predicate CompleteOutcome(c: Config, before: map<Key, Entry>, key: Key, entry: Entry, outcome: Outcome,
                                  now: real, after: map<Key, Entry>)
  {
    if key !in before || before[key].future != entry.future then after == before
    else if Cacheable(entry, outcome)
      then PruneOutcome(c, before[key := before[key].(completedAt := Some(now))], now, after)
    else after == before - {key}
  }

  class IdempotentRequestCoordinator {
    const config: Config
    const admission: ProcessAdmission
    var entries: map<Key, Entry>

    constructor (config: Config, admission: ProcessAdmission)
      requires ValidConfig(config)
      ensures entries == map[] && this.config == config && this.admission == admission
    {
      this.config := config;
      this.admission := admission;
      entries := map[];
    }

    /** The settled keys in order of completion. */
    method SortedByCompletion() returns (completed: seq<Key>)
      ensures Distinct(completed) && forall k :: k in completed <==> k in entries && Settled(entries[k])
      ensures Ordered(completed, CompletedAt(entries))
    {
      var settled: seq<Key> := [];
      var todo := set k | k in entries && Settled(entries[k]);
      while todo != {}
        invariant forall k :: k in settled <==> k in entries && Settled(entries[k]) && k !in todo
        invariant forall k :: k in todo ==> k in entries && Settled(entries[k])
        invariant Distinct(settled)
      {
        var key :| key in todo;
        settled := settled + [key];
        todo := todo - {key};
      }
      completed := SortBy(settled, CompletedAt(entries));
      SortBySorts(settled, CompletedAt(entries));
      SameElements(completed, settled);
      DistinctRearranged(settled, completed);
    }

    method DropExpired(now: real)
      modifies this`entries
      ensures forall k :: k in entries <==>
        && k in old(entries)
        && (old(entries)[k].completedAt.None? || now - old(entries)[k].completedAt.value < config.replayTtl)
      ensures forall k :: k in entries ==> entries[k] == old(entries)[k]
      ensures entries == Unexpired(config, old(entries), now)
    {
      var expired := set k | k in entries && Expired(config, entries[k], now);
      ghost var initial := entries;
      while expired != {}
        invariant entries.Keys <= initial.Keys && forall k :: k in entries ==> entries[k] == initial[k]
        invariant forall k :: k in expired ==> k in entries && Expired(config, initial[k], now)
        invariant forall k :: k in initial && k !in entries ==> Expired(config, initial[k], now)
        invariant forall k :: k in entries && Expired(config, initial[k], now) ==> k in expired
      {
        var key :| key in expired;
        entries := entries - {key};
        expired := expired - {key};
      }
      assert entries == Unexpired(config, initial, now);
    }

    method Prune(now: real)
      modifies this`entries
      ensures PruneOutcome(config, old(entries), now, entries)
      ensures entries.Keys <= Held(config, old(entries), now)
      ensures forall k :: k in entries ==> entries[k] == old(entries)[k]
      ensures forall k :: k in old(entries) && old(entries)[k].completedAt.None? ==> k in entries
      ensures |Held(config, old(entries), now)| <= config.maxReplayEntries ==>
        entries.Keys == Held(config, old(entries), now)
      ensures |Held(config, old(entries), now)| > config.maxReplayEntries ==>
        |entries| == config.maxReplayEntries
        || (|entries| > config.maxReplayEntries && forall k :: k in entries ==> entries[k].completedAt.None?)
    {
      ghost var initial := entries;
      DropExpired(now);
      ghost var live := entries;
      var overflow := |entries| - config.maxReplayEntries;
      if overflow <= 0 {
        FitsIsOutcome(config, initial, now);
        PruneByAge(config, initial, now, entries);
        return;
      }
      var completed := SortedByCompletion();
      assert CompletionOrder(live, completed) && FirstDropped(live, entries, completed, 0);
      hide PruneOutcome, FirstDropped, CompletionOrder, Unexpired, Distinct, Ordered;
      var i := 0;
      while i < |completed| && i < overflow
        invariant 0 <= i <= |completed| && i <= overflow
        invariant FirstDropped(live, entries, completed, i)
      {
        DropNext(live, entries, completed, i);
        entries := entries - {completed[i]};
        i := i + 1;
      }
      DroppedIsOutcome(config, initial, now, entries, completed, i);
      PruneByAge(config, initial, now, entries);
    }

    method Complete(key: Key, entry: Entry, outcome: Outcome, now: real)
      modifies this`entries
      ensures CompleteOutcome(config, old(entries), key, entry, outcome, now, entries)
    {
      var cacheable := false;
      if !outcome.Cancelled? && outcome.Returned? {
        cacheable := entry.cacheResult(outcome.value);
      }
      if key !in entries || entries[key].future != entry.future {
        return;
      }
      if cacheable {
        entries := entries[key := entries[key].(completedAt := Some(now))];
        Prune(now);
      } else {
        entries := entries - {key};
      }
    }

    /**
     One look-up and, on a miss, one submission: `now` is the clock read before the lock, `done` tells
     which futures are finished and `submitted` is what the executor answers (None when it refuses).
     `kept` is the registry the prune left.
     */
    method EntryFor(job: Job, limit: nat, now: real, done: nat -> bool, submitted: Option<nat>)
        returns (r: Result<(nat, Disposition), ExecutionError>, ghost kept: map<Key, Entry>)
      modifies this`entries, admission
      ensures EntryForOutcome(config, job, limit, now, done, submitted, Registry(old(entries), old(admission.View())),
                              kept, r, Registry(entries, admission.View()))
      ensures 1 <= limit <= MAX_PROCESS_REQUEST_WORKERS ==>
        && (job.key !in old(entries) ==> (r == Failure(Overloaded) <==> old(admission.active) >= limit))
        && (old(admission.active) >= limit ==> r != Failure(SubmissionFailed) && (r.Success? ==> !r.value.1.Executed?))
        && (r == Failure(Overloaded) ==> old(admission.active) >= limit)
      ensures 1 <= limit <= MAX_PROCESS_REQUEST_WORKERS && |old(entries)| <= config.maxReplayEntries ==>
        job.key in Held(config, old(entries), now) ==>
          var e := old(entries)[job.key];
          r == if e.input == job.input then Success((e.future, if done(e.future) then Replayed else Joined))
               else Failure(IdentityConflict)
    {
      kept := entries;
      if !(1 <= limit <= MAX_PROCESS_REQUEST_WORKERS) {
        return Failure(InvalidLimit), kept;
      }
      HeldFits(config, entries, now);
      Prune(now);
      kept := entries;
      if job.key in entries {
        var existing := entries[job.key];
        if existing.input != job.input {
          return Failure(IdentityConflict), kept;
        }
        return Success((existing.future, if done(existing.future) then Replayed else Joined)), kept;
      }
      var admitted := admission.TryAcquire(limit);
      if !admitted {
        return Failure(Overloaded), kept;
      }
      if submitted.None? {
        var ok := admission.ReleaseSlot();
        return Failure(SubmissionFailed), kept;
      }
      entries := entries[job.key := Entry(job.input, submitted.value, job.cacheResult, None)];
      return Success((submitted.value, Executed)), kept;
    }
  }

  // ---------------------------------------------------------------- refinement of the steps

  ghost predicate RegistryOf(s: State, r: Registry) { s.entries == r.entries && s.admission == r.admission }

  /** The steps the transition system takes for one call: the look-up, and after a miss the submission. */
  ghost function EntryForSteps(s: State, q: nat, kept: map<Key, Entry>, submitted: Option<nat>): State
    requires Enabled(s, LookUp(q, kept))
  {
    var t := Next(s, LookUp(q, kept));
    if q >= |t.requests| || !t.requests[q].phase.Submitting? then t
    else if submitted.None? then Next(t, SubmitFailed(q))
    else Next(t, SubmitOk(q))
  }

  /** The coordinator's look-up and submission are those steps, with the same registry, counter and result. */
  lemma EntryForRefines(s: State, q: nat, done: nat -> bool, submitted: Option<nat>, kept: map<Key, Entry>,
                        r: Result<(nat, Disposition), ExecutionError>, after: Registry)
    requires q < |s.requests| && s.requests[q].phase.Looking? && s.holder.None?
    requires 1 <= s.requests[q].phase.limit <= MAX_PROCESS_REQUEST_WORKERS
    requires forall f: nat :: done(f) <==> IsDone(s, f)
    requires submitted.Some? ==> submitted.value == |s.submissions|
    requires var phase := s.requests[q].phase;
      EntryForOutcome(s.config, phase.job, phase.limit, phase.now, done, submitted, Registry(s.entries, s.admission),
                      kept, r, after)
    ensures Enabled(s, LookUp(q, kept))
    ensures var t := EntryForSteps(s, q, kept, submitted);
      && RegistryOf(t, after) && q < |t.requests| && t.holder.None?
      && t.requests[q].phase == if r.Success? then Tracking(r.value.0, r.value.1) else Idle
  {
    assert Release(Acquire(s.admission)).Some?;
    LookUpStep(s, q, done, kept);
    var t := NextLookUp(s, q, kept);
    hide NextLookUp, PruneOutcome, Resolve, Acquire, Release, Reject, Admits;
    if t.requests[q].phase.Submitting? {
      SubmissionStep(t, q, s.requests[q].phase.job);
    }
  }

  lemma LookUpStep(s: State, q: nat, done: nat -> bool, kept: map<Key, Entry>)
    requires q < |s.requests| && s.requests[q].phase.Looking? && s.holder.None?
    requires forall f: nat :: done(f) <==> IsDone(s, f)
    ensures var phase, t := s.requests[q].phase, NextLookUp(s, q, kept);
      && q < |t.requests| && t.entries == kept && t.submissions == s.submissions
      && match Resolve(kept, phase.job, done)
         case Conflict => t.admission == s.admission && t.requests[q].phase == Idle && t.holder.None?
         case Hit(f, disposition) =>
           t.admission == s.admission && t.requests[q].phase == Tracking(f, disposition) && t.holder.None?
         case Miss =>
           if Admits(s.admission, phase.limit) then
             t.admission == Acquire(s.admission) && t.requests[q].phase == Submitting(Some(phase.job))
           else t.admission == Reject(s.admission) && t.requests[q].phase == Idle && t.holder.None?
  {
    hide Dropped, Acquire, Reject, Admits;
  }

  lemma SubmissionStep(s: State, q: nat, job: Job)
    requires q < |s.requests| && s.requests[q].phase == Submitting(Some(job)) && Release(s.admission).Some?
    ensures Enabled(s, SubmitFailed(q)) && Enabled(s, SubmitOk(q))
    ensures var t := Next(s, SubmitFailed(q));
      && t.entries == s.entries && t.admission == Release(s.admission).value
      && q < |t.requests| && t.requests[q].phase == Idle && t.holder.None?
    ensures var t := Next(s, SubmitOk(q));
      && t.entries == s.entries[job.key := Entry(job.input, |s.submissions|, job.cacheResult, None)]
      && t.admission == s.admission
      && q < |t.requests| && t.requests[q].phase == Tracking(|s.submissions|, Executed) && t.holder.None?
  {
    hide Release;
  }

  /** A completion callback leaves the registry as the completion step does. */
  lemma CompleteRefines(s: State, f: nat, entry: Entry, after: map<Key, Entry>)
    requires IsDone(s, f) && s.submissions[f].completeDue && s.submissions[f].job.Some? && s.holder.None?
    requires var key := s.submissions[f].job.value.key;
      && entry.future == f && (Registered(s, f) ==> entry.cacheResult == s.entries[key].cacheResult)
      && CompleteOutcome(s.config, s.entries, key, entry, s.submissions[f].status.outcome, s.clock, after)
    ensures Enabled(s, Complete(f, after)) && Next(s, Complete(f, after)).entries == after
  {
    hide PruneOutcome, Dropped;
  }

  function CompletedAt(entries: map<Key, Entry>): Key -> real {
    (k: Key) => if k in entries then entries[k].completedAt.GetOr(0.0) else 0.0
  }

  /** The settled keys of the registry, oldest completion first. */
  ghost predicate CompletionOrder(live: map<Key, Entry>, completed: seq<Key>) {
    && Distinct(completed) && Ordered(completed, CompletedAt(live))
    && forall k :: k in completed <==> k in live && Settled(live[k])
  }

  /** Exactly the first `i` keys in completion order are gone. */
  ghost predicate FirstDropped(live: map<Key, Entry>, kept: map<Key, Entry>, completed: seq<Key>, i: nat) {
    && i <= |completed| && |kept| == |live| - i
    && kept.Keys <= live.Keys && (forall k :: k in kept ==> kept[k] == live[k])
    && (forall k :: k in live && k !in completed ==> k in kept)
    && (forall j :: 0 <= j < i ==> completed[j] !in kept)
    && (forall j :: i <= j < |completed| ==> completed[j] in kept)
  }

  lemma DropNext(live: map<Key, Entry>, kept: map<Key, Entry>, completed: seq<Key>, i: nat)
    requires CompletionOrder(live, completed) && i < |completed| && FirstDropped(live, kept, completed, i)
    ensures FirstDropped(live, kept - {completed[i]}, completed, i + 1)
  {
    RemoveOne(kept, completed[i]);
    assert Distinct(completed);
    hide CompletionOrder, Ordered;
  }

  lemma GoneBeforeKept(live: map<Key, Entry>, kept: map<Key, Entry>, completed: seq<Key>, i: nat, gone: Key, k: Key)
    requires CompletionOrder(live, completed) && FirstDropped(live, kept, completed, i)
    requires gone in live && gone !in kept && k in kept && Settled(kept[k])
    ensures Settled(live[gone]) && live[gone].completedAt.value <= kept[k].completedAt.value
  {
    assert gone in completed && k in completed;
    var m :| 0 <= m < |completed| && completed[m] == gone;
    var n :| 0 <= n < |completed| && completed[n] == k;
    assert m < i <= n;
    assert CompletedAt(live)(completed[m]) <= CompletedAt(live)(completed[n]);
  }

  lemma DroppedIsOutcome(c: Config, initial: map<Key, Entry>, now: real, kept: map<Key, Entry>, completed: seq<Key>,
                         i: nat)
    requires var live := Unexpired(c, initial, now);
      && CompletionOrder(live, completed) && FirstDropped(live, kept, completed, i) && |live| > c.maxReplayEntries
      && i <= |live| - c.maxReplayEntries && (i == |completed| || i == |live| - c.maxReplayEntries)
    ensures PruneOutcome(c, initial, now, kept)
  {
    var live := Unexpired(c, initial, now);
    forall gone, k | gone in live && gone !in kept && k in kept && Settled(live[gone]) && Settled(kept[k])
      ensures live[gone].completedAt.value <= kept[k].completedAt.value
    {
      GoneBeforeKept(live, kept, completed, i, gone, k);
    }
    forall k | k in live && !Settled(live[k]) ensures k in kept {
      assert k !in completed;
    }
    if i == |completed| {
      AllSettledGone(live, kept, completed);
    }
    hide Unexpired, CompletionOrder, FirstDropped, Settled;
  }

  lemma AllSettledGone(live: map<Key, Entry>, kept: map<Key, Entry>, completed: seq<Key>)
    requires CompletionOrder(live, completed) && FirstDropped(live, kept, completed, |completed|)
    ensures forall k :: k in kept ==> !Settled(kept[k])
  {
    assert forall k :: k in completed ==> k !in kept;
  }

  lemma FitsIsOutcome(c: Config, initial: map<Key, Entry>, now: real)
    requires |Unexpired(c, initial, now)| <= c.maxReplayEntries
    ensures PruneOutcome(c, initial, now, Unexpired(c, initial, now))
  {
  }

  lemma RemoveOne(m: map<Key, Entry>, k: Key)
    requires k in m
    ensures |m - {k}| == |m| - 1
  {
    var rest := m - {k};
    assert m.Keys == rest.Keys + {k};
    assert |m.Keys| == |m| && |rest.Keys| == |rest|;
  }
}
