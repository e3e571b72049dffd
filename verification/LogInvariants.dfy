/** Preservation of the audit-log invariant, and of the whole invariant over runs. */
module LogInvariants {
  import opened Counting
  import opened RequestModel
  import opened RequestInvariants
  import opened RegistryInvariants

  /** No attempt's terminal status changes, and lateness is not forgotten. */
  ghost predicate SameTerminals(s: State, t: State) {
    && |t.requests| == |s.requests|
    && forall q :: 0 <= q < |s.requests| ==>
         TerminalEmitted(t.requests[q]) == TerminalEmitted(s.requests[q]) && (s.requests[q].late ==> t.requests[q].late)
  }

  lemma LogFrame(s: State, t: State)
    requires LogOk(s) && SameTerminals(s, t) && t.log == s.log
    ensures LogOk(t)
  {
    forall q | 0 <= q < |t.requests| ensures LogOkFor(t, q) {
      assert LogOkFor(s, q);
    }
  }

  /** An event that is neither a start nor a terminal may be added unless it would follow a timely terminal. */
  lemma LogPlainEvent(s: State, t: State, q: nat, kind: EventKind)
    requires LogOk(s) && SameTerminals(s, t) && q < |s.requests|
    requires (kind.HandlerEvent? || kind.WorkerEvent?) && t.log == s.log + [Event(q, kind)]
    requires TerminalEmitted(s.requests[q]) ==> t.requests[q].late
    ensures LogOk(t)
  {
    forall p | 0 <= p < |t.requests| ensures LogOkFor(t, p) {
      assert LogOkFor(s, p);
      var i :| StartedAt(s.log, p, i);
      assert StartedAt(t.log, p, i);
      if TerminalEmitted(s.requests[p]) {
        var j :| TerminalAt(s.log, p, j) && (!s.requests[p].late ==> LastOf(s.log, p, j));
        assert TerminalAt(t.log, p, j) && (!t.requests[p].late ==> LastOf(t.log, p, j));
      }
    }
  }

  lemma LogTerminal(s: State, t: State, q: nat)
    requires LogOk(s) && q < |s.requests| && !TerminalEmitted(s.requests[q])
    requires t.log == s.log + [Event(q, RequestTerminal)]
    requires |t.requests| == |s.requests| && t.requests == s.requests[q := t.requests[q]]
    requires TerminalEmitted(t.requests[q])
    ensures LogOk(t)
  {
    forall p | 0 <= p < |t.requests| ensures LogOkFor(t, p) {
      assert LogOkFor(s, p);
      var i :| StartedAt(s.log, p, i);
      assert StartedAt(t.log, p, i);
      if p == q {
        assert TerminalAt(t.log, q, |s.log|) && LastOf(t.log, q, |s.log|);
      } else if TerminalEmitted(s.requests[p]) {
        var j :| TerminalAt(s.log, p, j) && (!s.requests[p].late ==> LastOf(s.log, p, j));
        assert TerminalAt(t.log, p, j) && (!t.requests[p].late ==> LastOf(t.log, p, j));
      }
    }
  }

  lemma LogArrive(s: State, t: State)
    requires LogOk(s) && t.log == s.log + [Event(|s.requests|, RequestStarted)]
    requires |t.requests| == |s.requests| + 1 && t.requests[..|s.requests|] == s.requests
    requires !TerminalEmitted(t.requests[|s.requests|])
    ensures LogOk(t)
  {
    forall p | 0 <= p < |t.requests| ensures LogOkFor(t, p) {
      if p < |s.requests| {
        assert t.requests[p] == t.requests[..|s.requests|][p];
        assert LogOkFor(s, p);
        var i :| StartedAt(s.log, p, i);
        assert StartedAt(t.log, p, i);
        if TerminalEmitted(s.requests[p]) {
          var j :| TerminalAt(s.log, p, j) && (!s.requests[p].late ==> LastOf(s.log, p, j));
          assert TerminalAt(t.log, p, j) && (!t.requests[p].late ==> LastOf(t.log, p, j));
        }
      } else {
        assert StartedAt(t.log, p, |s.log|);
      }
    }
  }

  predicate WritesLog(a: Action) { a.Arrive? || a.Emit? || a.EmitFromWorker? || a.EmitTerminal? }

  lemma SilentStep(s: State, a: Action, t: State)
    requires BarriersOk(s) && Enabled(s, a) && t == Next(s, a) && !WritesLog(a)
    ensures t.log == s.log && SameTerminals(s, t)
  {
    OnlySubjectChanges(s, a);
    if Subject(s, a).Some? {
      var q := Subject(s, a).value;
      assert BarrierOk(s, s.requests[q]);
      SilentSubject(s, a, t, q);
    }
  }

  lemma SilentSubject(s: State, a: Action, t: State, q: nat)
    requires Enabled(s, a) && t == Next(s, a) && !WritesLog(a) && Subject(s, a) == Some(q)
    requires BarrierOk(s, s.requests[q]) && q < |t.requests|
    ensures t.log == s.log
    ensures TerminalEmitted(t.requests[q]) == TerminalEmitted(s.requests[q])
    ensures s.requests[q].late ==> t.requests[q].late
  {
    assert s.requests[q].barrier.dispatched <==> !s.requests[q].dispatch.NotStarted?;
    assert s.requests[q].barrier.waiting ==> !s.requests[q].barrier.dispatched;
    hide BarrierOk;
    if IsWork(a) {
      SilentWork(s, a, t, q);
    }
  }

  lemma SilentWork(s: State, a: Action, t: State, q: nat)
    requires Enabled(s, a) && t == Next(s, a) && IsWork(a) && Subject(s, a) == Some(q) && q < |t.requests|
    ensures t.log == s.log
    ensures t.requests[q].dispatch == s.requests[q].dispatch && t.requests[q].late == s.requests[q].late
  {
    if a.LookUp? {
      SilentLookUp(s, q, a.kept);
    }
  }

  lemma SilentLookUp(s: State, q: nat, kept: map<Key, Entry>)
    requires q < |s.requests| && s.requests[q].phase.Looking?
    ensures var t := NextLookUp(s, q, kept);
            && t.log == s.log && q < |t.requests|
            && t.requests[q].dispatch == s.requests[q].dispatch && t.requests[q].late == s.requests[q].late
  {
  }

  lemma WorkerCannotFollowTerminal(s: State, f: nat)
    requires FuturesOk(s) && BarriersOk(s) && WorkersOk(s) && f < |s.submissions| && s.submissions[f].status.Running?
    requires TerminalEmitted(s.requests[s.submissions[f].owner])
    ensures s.requests[s.submissions[f].owner].late
  {
    var q := s.submissions[f].owner;
    assert WorkerTracked(s, f) && BarrierOk(s, s.requests[q]);
  }

  lemma LogStep(s: State, a: Action, t: State)
    requires LogOk(s) && FuturesOk(s) && BarriersOk(s) && WorkersOk(s) && Enabled(s, a) && t == Next(s, a)
    ensures LogOk(t)
  {
    if !WritesLog(a) {
      SilentStep(s, a, t);
      LogFrame(s, t);
    } else {
      hide LogOk;
      match a
      case Arrive => LogArrive(s, t);
      case Emit(q) =>
        assert BarrierOk(s, s.requests[q]);
        LogPlainEvent(s, t, q, HandlerEvent);
      case EmitFromWorker(f) =>
        if TerminalEmitted(s.requests[s.submissions[f].owner]) {
          WorkerCannotFollowTerminal(s, f);
        }
        LogPlainEvent(s, t, s.submissions[f].owner, WorkerEvent(f));
      case EmitTerminal(q) => LogTerminal(s, t, q);
    }
  }

  // ---------------------------------------------------------------- the whole invariant

  lemma InvStep(s: State, a: Action, t: State)
    requires Inv(s) && Enabled(s, a) && t == Next(s, a)
    ensures Inv(t)
  {
    hide Enabled, Next, FuturesOk, LookingsOk, AdmissionOk, LockOk, RegistryOk, BoundOk;
    hide BarriersOk, WorkersOk, TerminalsOk, LogOk;
    FuturesStep(s, a);
    LookingsStep(s, a, t);
    AdmissionStep(s, a, t);
    LockStep(s, a, t);
    CacheStep(s, a, t);
    BarriersStep(s, a);
    WorkersStep(s, a, t);
    TerminalsStep(s, a, t);
    LogStep(s, a, t);
  }

  /** Every state of every run satisfies the invariant. */
  lemma {:induction false} RunInv(trace: seq<State>, actions: seq<Action>, i: nat)
    requires IsRun(trace, actions) && i < |trace|
    ensures Inv(trace[i])
  {
    if i == 0 {
      InitialInv(trace[0]);
    } else {
      RunInv(trace, actions, i - 1);
      InvStep(trace[i - 1], actions[i - 1], trace[i]);
    }
  }
}
