/**
 Single use of the sealed suite: any number of initializers, sealers and runners work on one
 chronology, fail at any step and die at any moment.  Appends are atomic, because the log is locked;
 files are created exclusively; nobody deletes anything.
 */
module SingleUse {
  import opened Counting
  import opened ReceiptChain

  const A: Option<string> := Some("authoring_started")
  const S: Option<string> := Some("sealed")
  const R: Option<string> := Some("run_started")
  const C: Option<string> := Some("run_completed")
  const F: Option<string> := Some("run_failed")

  /** The sealed-suite artifacts, in the order in which a sealer creates them. */
  const ARTIFACTS: nat := 4

  datatype Pc =
    | InitStart
    | InitDirectory           // created the private directory, not yet the log
    | SealStart
    | SealChecked             // saw exactly the authoring event
    | SealWriting(files: nat) // found no artifact and created the first `files` of them
    | RunStart
    | RunExecuting            // recorded its start; cases are running
    | RunFailing              // an exception is on its way to the failure receipt
    | Ended

  /** `executed` lists the processes that began to execute cases. */
  datatype State = State(directory: bool, log: Option<seq<Entry>>, artifacts: set<nat>, processes: seq<Pc>,
                         executed: seq<nat>)

  predicate Initial(s: State) {
    && !s.directory && s.log == None && s.artifacts == {} && s.executed == []
    && forall p :: 0 <= p < |s.processes| ==> s.processes[p] in {InitStart, SealStart, RunStart}
  }

  /** How an append attempt may go wrong: before writing, or after writing but before returning. */
  datatype Append = FailsBefore | Writes | WritesThenRaises

  datatype Action =
    | MakeDirectory(p: nat)
    | CreateLog(p: nat, how: Append, rest: map<string, string>)
    | CheckSealable(p: nat)
    | CheckNoArtifacts(p: nat)
    | WriteArtifact(p: nat)
    | AppendSealed(p: nat, how: Append, rest: map<string, string>)
    | AppendStarted(p: nat, how: Append, rest: map<string, string>)
    | AppendCompleted(p: nat, how: Append, rest: map<string, string>)
    | Raise(p: nat)
    | AppendFailed(p: nat, how: Append, rest: map<string, string>)
    | Die(p: nat)

  ghost predicate Enabled(s: State, a: Action) {
    && a.p < |s.processes|
    && match a
       case MakeDirectory(p) => s.processes[p].InitStart?
       case CreateLog(p, _, _) => s.processes[p].InitDirectory?
       case CheckSealable(p) => s.processes[p].SealStart?
       case CheckNoArtifacts(p) => s.processes[p].SealChecked?
       case WriteArtifact(p) => s.processes[p].SealWriting? && s.processes[p].files < ARTIFACTS
       case AppendSealed(p, _, _) => s.processes[p] == SealWriting(ARTIFACTS)
       case AppendStarted(p, _, _) => s.processes[p].RunStart?
       case AppendCompleted(p, _, _) => s.processes[p].RunExecuting?
       case Raise(p) => s.processes[p].RunExecuting?
       case AppendFailed(p, _, _) => s.processes[p].RunFailing?
       case Die(p) => true
  }

  function Move(s: State, p: nat, pc: Pc): State
    requires p < |s.processes|
  {
    s.(processes := s.processes[p := pc])
  }

  predicate HasEvents(s: State, expected: seq<Option<string>>) {
    s.log.Some? && Events(s.log.value) == expected
  }

  /** One guarded append: written only when the log's events are the expected ones (None: any log). */
  function AppendTo(s: State, event: string, rest: map<string, string>, expected: Option<seq<Option<string>>>,
                    how: Append): State
  {
    if how.FailsBefore? || s.log.None? || (expected.Some? && Events(s.log.value) != expected.value) then s
    else s.(log := Some(s.log.value + [NextEntry(s.log.value, event, rest)]))
  }

  /** The append returned normally. */
  predicate Appended(s: State, expected: Option<seq<Option<string>>>, how: Append) {
    how.Writes? && s.log.Some? && (expected.Some? ==> Events(s.log.value) == expected.value)
  }

  ghost function Next(s: State, a: Action): State
    requires Enabled(s, a)
  {
    match a
    case MakeDirectory(p) =>
      if s.directory then Move(s, p, Ended) else Move(s.(directory := true), p, InitDirectory)
    case CreateLog(p, how, rest) =>
      if s.log.Some? || how.FailsBefore? then Move(s, p, Ended)
      else Move(s.(log := Some([NextEntry([], "authoring_started", rest)])), p, Ended)
    case CheckSealable(p) => Move(s, p, if HasEvents(s, [A]) then SealChecked else Ended)
    case CheckNoArtifacts(p) => Move(s, p, if s.artifacts == {} then SealWriting(0) else Ended)
    case WriteArtifact(p) =>
      var n := s.processes[p].files;
      if n in s.artifacts then Move(s, p, Ended)
      else Move(s.(artifacts := s.artifacts + {n}), p, SealWriting(n + 1))
    case AppendSealed(p, how, rest) => Move(AppendTo(s, "sealed", rest, None, how), p, Ended)
    case AppendStarted(p, how, rest) =>
      var t := AppendTo(s, "run_started", rest, Some([A, S]), how);
      if Appended(s, Some([A, S]), how) then Move(t, p, RunExecuting).(executed := s.executed + [p])
      else Move(t, p, Ended)
    case AppendCompleted(p, how, rest) =>
      var t := AppendTo(s, "run_completed", rest, Some([A, S, R]), how);
      Move(t, p, if Appended(s, Some([A, S, R]), how) then Ended else RunFailing)
    case Raise(p) => Move(s, p, RunFailing)
    case AppendFailed(p, how, rest) => Move(AppendTo(s, "run_failed", rest, Some([A, S, R]), how), p, Ended)
    case Die(p) => Move(s, p, Ended)
  }

  ghost predicate IsRun(trace: seq<State>, actions: seq<Action>) {
    && |trace| == |actions| + 1 && Initial(trace[0])
    && forall i :: 0 <= i < |actions| ==> Enabled(trace[i], actions[i]) && trace[i + 1] == Next(trace[i], actions[i])
  }

  // ---------------------------------------------------------------- invariant

  predicate InLanguage(events: seq<Option<string>>) {
    events == [A] || events == [A, S] || events == [A, S, R] || events == [A, S, R, C] || events == [A, S, R, F]
  }

  predicate OwnsDirectory(pc: Pc) { pc.InitDirectory? }

  predicate OwnsSeal(pc: Pc) { pc.SealWriting? && pc.files > 0 }

  predicate OwnsRun(pc: Pc) { pc.RunExecuting? || pc.RunFailing? }

  ghost predicate Unique(s: State, owns: Pc -> bool) {
    forall p, q ::
      0 <= p < |s.processes| && 0 <= q < |s.processes| && owns(s.processes[p]) && owns(s.processes[q]) ==> p == q
  }

  ghost predicate LogOk(s: State) {
    match s.log
    case None => 0 !in s.artifacts && s.executed == []
    case Some(log) =>
      && s.directory && Chained(log) && InLanguage(Events(log))
      && (Events(log) != [A] ==> 0 in s.artifacts)
      && (|log| < 3 ==> s.executed == []) && |s.executed| <= 1
  }

  ghost predicate ProcessOk(s: State, p: nat)
    requires p < |s.processes|
  {
    match s.processes[p]
    case InitDirectory => s.directory && s.log == None
    case SealChecked => s.log.Some?
    case SealWriting(n) => s.log.Some? && n <= ARTIFACTS && (n > 0 ==> 0 in s.artifacts && HasEvents(s, [A]))
    case RunExecuting => HasEvents(s, [A, S, R]) && s.executed == [p]
    case RunFailing => (HasEvents(s, [A, S, R]) || HasEvents(s, [A, S, R, C])) && s.executed == [p]
    case _ => true
  }

  ghost predicate Inv(s: State) {
    && LogOk(s) && (forall p :: 0 <= p < |s.processes| ==> ProcessOk(s, p))
    && Unique(s, OwnsDirectory) && Unique(s, OwnsSeal) && Unique(s, OwnsRun)
  }

  lemma AppendEvents(s: State, event: string, rest: map<string, string>, expected: Option<seq<Option<string>>>,
                     how: Append)
    requires s.log.Some? ==> Chained(s.log.value)
    ensures var t := AppendTo(s, event, rest, expected, how);
            && (t.log == s.log || (s.log.Some? && t.log.Some? && Chained(t.log.value)
                                   && |t.log.value| == |s.log.value| + 1
                                   && t.log.value[..|s.log.value|] == s.log.value
                                   && Events(t.log.value) == Events(s.log.value) + [Some(event)]
                                   && (expected.Some? ==> Events(s.log.value) == expected.value)))
            && t == s.(log := t.log)
            && (Appended(s, expected, how) ==> t.log != s.log)
  {
    if s.log.Some? {
      AppendKeepsChain(s.log.value, event, rest);
    }
  }

  /** Two owners after a step were two owners before it, unless the step made one. */
  lemma UniqueStep(s: State, a: Action, t: State, owns: Pc -> bool)
    requires Inv(s) && Enabled(s, a) && t == Next(s, a) && Unique(s, owns)
    requires owns(t.processes[a.p]) && !owns(s.processes[a.p]) ==>
               forall q :: 0 <= q < |s.processes| && q != a.p ==> !owns(s.processes[q])
    requires |t.processes| == |s.processes| && t.processes == s.processes[a.p := t.processes[a.p]]
    ensures Unique(t, owns)
  {
    hide Inv, Enabled, Next;
  }

  /** What ownership of each role says about the shared state. */
  lemma OwnerFacts(s: State)
    requires Inv(s)
    ensures forall q :: 0 <= q < |s.processes| ==>
              && (OwnsDirectory(s.processes[q]) ==> s.directory)
              && (OwnsSeal(s.processes[q]) ==> 0 in s.artifacts)
              && (OwnsRun(s.processes[q]) ==> !HasEvents(s, [A, S]))
  {
    forall q | 0 <= q < |s.processes|
      ensures && (OwnsDirectory(s.processes[q]) ==> s.directory)
              && (OwnsSeal(s.processes[q]) ==> 0 in s.artifacts)
              && (OwnsRun(s.processes[q]) ==> !HasEvents(s, [A, S]))
    {
      assert ProcessOk(s, q);
    }
  }

  lemma OneMoves(s: State, a: Action, t: State)
    requires Enabled(s, a) && t == Next(s, a)
    ensures |t.processes| == |s.processes| && t.processes == s.processes[a.p := t.processes[a.p]]
  {
  }

  lemma SetupStep(s: State, a: Action, t: State)
    requires Inv(s) && Enabled(s, a) && t == Next(s, a)
    requires || a.MakeDirectory? || a.CreateLog? || a.CheckSealable? || a.CheckNoArtifacts? || a.WriteArtifact?
             || a.Die? || a.Raise?
    ensures Inv(t)
  {
    assert ProcessOk(s, a.p);
    if a.CreateLog? {
      AppendKeepsChain([], "authoring_started", a.rest);
    }
    forall p | 0 <= p < |t.processes| ensures ProcessOk(t, p) {
      assert ProcessOk(s, p);
    }
    OneMoves(s, a, t);
    OwnerFacts(s);
    UniqueStep(s, a, t, OwnsDirectory);
    UniqueStep(s, a, t, OwnsSeal);
    UniqueStep(s, a, t, OwnsRun);
  }

  lemma SealedStep(s: State, a: Action, t: State)
    requires Inv(s) && Enabled(s, a) && t == Next(s, a) && a.AppendSealed?
    ensures Inv(t)
  {
    assert ProcessOk(s, a.p);
    AppendEvents(s, "sealed", a.rest, None, a.how);
    forall p | 0 <= p < |t.processes| ensures ProcessOk(t, p) {
      assert ProcessOk(s, p);
    }
    OneMoves(s, a, t);
    OwnerFacts(s);
    UniqueStep(s, a, t, OwnsDirectory);
    UniqueStep(s, a, t, OwnsSeal);
    UniqueStep(s, a, t, OwnsRun);
  }

  lemma RunnerStep(s: State, a: Action, t: State)
    requires Inv(s) && Enabled(s, a) && t == Next(s, a)
    requires a.AppendStarted? || a.AppendCompleted? || a.AppendFailed?
    ensures Inv(t)
  {
    assert ProcessOk(s, a.p);
    if a.AppendStarted? {
      AppendEvents(s, "run_started", a.rest, Some([A, S]), a.how);
    } else if a.AppendCompleted? {
      AppendEvents(s, "run_completed", a.rest, Some([A, S, R]), a.how);
    } else {
      AppendEvents(s, "run_failed", a.rest, Some([A, S, R]), a.how);
    }
    forall p | 0 <= p < |t.processes| ensures ProcessOk(t, p) {
      assert ProcessOk(s, p);
    }
    OneMoves(s, a, t);
    OwnerFacts(s);
    UniqueStep(s, a, t, OwnsDirectory);
    UniqueStep(s, a, t, OwnsSeal);
    UniqueStep(s, a, t, OwnsRun);
  }

  lemma {:induction false} RunInv(trace: seq<State>, actions: seq<Action>, i: nat)
    requires IsRun(trace, actions) && i < |trace|
    ensures Inv(trace[i])
  {
    if i > 0 {
      RunInv(trace, actions, i - 1);
      var s, a := trace[i - 1], actions[i - 1];
      assert Enabled(s, a) && trace[i] == Next(s, a);
      hide Inv, Enabled, Next, Initial;
      if a.AppendSealed? {
        SealedStep(s, a, trace[i]);
      } else if a.AppendStarted? || a.AppendCompleted? || a.AppendFailed? {
        RunnerStep(s, a, trace[i]);
      } else {
        SetupStep(s, a, trace[i]);
      }
    }
  }

  // ---------------------------------------------------------------- theorems

  /**
   For any number of sealers and runners, every chronology that exists is a valid chain whose events are
   a non-empty prefix of authoring, sealed, started and then one ending; cases are executed at most once.
   */
  lemma ChronologyIsSingleUse(trace: seq<State>, actions: seq<Action>, i: nat)
    requires IsRun(trace, actions) && i < |trace|
    ensures trace[i].log.Some? ==> ValidLog(trace[i].log.value) && InLanguage(Events(trace[i].log.value))
    ensures |trace[i].executed| <= 1
  {
    RunInv(trace, actions, i);
    assert LogOk(trace[i]);
  }

  ghost predicate KeepsLog(s: State, t: State) {
    s.log.Some? ==> t.log.Some? && s.log.value <= t.log.value
  }

  lemma LogOnlyGrows(s: State, a: Action)
    requires Inv(s) && Enabled(s, a)
    ensures KeepsLog(s, Next(s, a))
  {
    assert LogOk(s);
    match a
    case AppendSealed(_, how, rest) => AppendEvents(s, "sealed", rest, None, how);
    case AppendStarted(_, how, rest) => AppendEvents(s, "run_started", rest, Some([A, S]), how);
    case AppendCompleted(_, how, rest) => AppendEvents(s, "run_completed", rest, Some([A, S, R]), how);
    case AppendFailed(_, how, rest) => AppendEvents(s, "run_failed", rest, Some([A, S, R]), how);
    case _ =>
  }

  lemma KeepsTransitive(s: State, t: State, u: State)
    requires KeepsLog(s, t) && KeepsLog(t, u)
    ensures KeepsLog(s, u)
  {
  }

  lemma StepKeepsLog(trace: seq<State>, actions: seq<Action>, i: nat)
    requires IsRun(trace, actions) && i < |actions|
    ensures KeepsLog(trace[i], trace[i + 1])
  {
    RunInv(trace, actions, i);
    assert Enabled(trace[i], actions[i]) && trace[i + 1] == Next(trace[i], actions[i]);
    hide Inv, Enabled, Next, Initial, KeepsLog;
    LogOnlyGrows(trace[i], actions[i]);
  }

  /** What was ever in the chronology stays in it: the old log is a prefix of every later one. */
  lemma {:induction false} HistoryIsKept(trace: seq<State>, actions: seq<Action>, i: nat, j: nat)
    requires IsRun(trace, actions) && i <= j < |trace|
    ensures KeepsLog(trace[i], trace[j])
  {
    if i < j {
      hide IsRun, KeepsLog;
      HistoryIsKept(trace, actions, i, j - 1);
      StepKeepsLog(trace, actions, j - 1);
      KeepsTransitive(trace[i], trace[j - 1], trace[j]);
    }
  }

  /**
   The seal receipt is appended without naming the events it expects; what makes it safe is the exclusive
   creation of the first artifact: whoever appends it finds the log at exactly the authoring event.
   */
  lemma SealAppendsAfterAuthoring(trace: seq<State>, actions: seq<Action>, i: nat)
    requires IsRun(trace, actions) && i < |actions| && actions[i].AppendSealed?
    ensures HasEvents(trace[i], [A])
  {
    RunInv(trace, actions, i);
    assert Enabled(trace[i], actions[i]);
    assert ProcessOk(trace[i], actions[i].p);
  }

  // ---------------------------------------------------------------- who wrote what

  ghost function Length(s: State): nat { if s.log.None? then 0 else |s.log.value| }

  /** The step is the one that may write such an entry, by a process that is at that point. */
  ghost predicate MayWrite(s: State, a: Action, e: Entry) {
    && a.p < |s.processes|
    && match a
       case CreateLog(p, _, rest) =>
         s.processes[p].InitDirectory? && e.body.event == Some("authoring_started") && e.body.rest == rest
       case AppendSealed(p, _, rest) =>
         s.processes[p] == SealWriting(4) && e.body.event == Some("sealed") && e.body.rest == rest
       case AppendStarted(p, _, rest) =>
         s.processes[p].RunStart? && e.body.event == Some("run_started") && e.body.rest == rest
       case AppendCompleted(p, _, rest) =>
         s.processes[p].RunExecuting? && e.body.event == Some("run_completed") && e.body.rest == rest
       case AppendFailed(p, _, rest) =>
         s.processes[p].RunFailing? && e.body.event == Some("run_failed") && e.body.rest == rest
       case _ => false
  }

  lemma StepWrites(s: State, a: Action)
    requires Inv(s) && Enabled(s, a)
    ensures var t := Next(s, a);
      || t.log == s.log
      || (t.log.Some? && Length(t) == Length(s) + 1 && MayWrite(s, a, t.log.value[Length(s)]))
  {
  }

  /** Each entry of the chronology was written by one step of the run, the one whose event and payload it carries. */
  lemma {:induction false} EntryWrittenBy(trace: seq<State>, actions: seq<Action>, n: nat, i: nat) returns (m: nat)
    requires IsRun(trace, actions) && n < |trace| && trace[n].log.Some? && i < |trace[n].log.value|
    ensures m < n && Length(trace[m]) == i && Length(trace[m + 1]) == i + 1
    ensures MayWrite(trace[m], actions[m], trace[n].log.value[i])
  {
    assert n > 0;
    var s, a := trace[n - 1], actions[n - 1];
    RunInv(trace, actions, n - 1);
    assert Enabled(s, a) && trace[n] == Next(s, a);
    LogOnlyGrows(s, a);
    StepWrites(s, a);
    hide Next, Enabled, Inv, Initial, MayWrite;
    if i < Length(s) {
      m := EntryWrittenBy(trace, actions, n - 1, i);
    } else {
      m := n - 1;
    }
  }

  lemma EventAt(log: seq<Entry>, event: Option<string>) returns (i: nat)
    requires event in Events(log)
    ensures i < |log| && log[i].body.event == event
  {
    i :| 0 <= i < |log| && Events(log)[i] == event;
  }

  /** A completion in the chronology was written by the completing step of a process that was executing. */
  lemma CompletionWasExecuted(trace: seq<State>, actions: seq<Action>, n: nat) returns (m: nat)
    requires IsRun(trace, actions) && n < |trace| && trace[n].log.Some?
    requires Some("run_completed") in Events(trace[n].log.value)
    ensures m < n && actions[m].AppendCompleted? && actions[m].p < |trace[m].processes|
    ensures trace[m].processes[actions[m].p].RunExecuting? && trace[m].executed == [actions[m].p]
    ensures Length(trace[m]) == 3 && Length(trace[m + 1]) == 4
  {
    var i := EventAt(trace[n].log.value, Some("run_completed"));
    m := EntryWrittenBy(trace, actions, n, i);
    RunInv(trace, actions, m);
    RunInv(trace, actions, n);
    assert ProcessOk(trace[m], actions[m].p) && LogOk(trace[n]);
    assert |Events(trace[m].log.value)| == 3;
  }

  /** A failure in the chronology was written by the failure handler of a process that had raised. */
  lemma FailureWasRaised(trace: seq<State>, actions: seq<Action>, n: nat) returns (m: nat)
    requires IsRun(trace, actions) && n < |trace| && trace[n].log.Some?
    requires Some("run_failed") in Events(trace[n].log.value)
    ensures m < n && actions[m].AppendFailed? && actions[m].p < |trace[m].processes|
    ensures trace[m].processes[actions[m].p].RunFailing? && trace[m].executed == [actions[m].p]
    ensures Length(trace[m + 1]) == Length(trace[m]) + 1
  {
    var i := EventAt(trace[n].log.value, Some("run_failed"));
    m := EntryWrittenBy(trace, actions, n, i);
    RunInv(trace, actions, m);
    assert ProcessOk(trace[m], actions[m].p);
  }

  lemma RaisedStep(s: State, a: Action, p: nat)
    requires Inv(s) && Enabled(s, a) && p < |s.processes|
    requires a == Raise(p) || s.processes[p].RunFailing? || s.processes[p].Ended?
    ensures var t := Next(s, a);
      p < |t.processes| && (t.processes[p].RunFailing? || t.processes[p].Ended?) && s.executed <= t.executed
  {
  }

  lemma {:induction false} RaisedStays(trace: seq<State>, actions: seq<Action>, r: nat, m: nat, p: nat)
    requires IsRun(trace, actions) && r < m < |trace| && actions[r] == Raise(p)
    ensures p < |trace[m].processes| && !trace[m].processes[p].RunExecuting?
    ensures trace[m].processes[p].RunFailing? || trace[m].processes[p].Ended?
    ensures trace[r].executed <= trace[m].executed
  {
    var s, a := trace[m - 1], actions[m - 1];
    RunInv(trace, actions, m - 1);
    assert Enabled(s, a) && trace[m] == Next(s, a);
    if r < m - 1 {
      RaisedStays(trace, actions, r, m - 1, p);
    }
    RaisedStep(s, a, p);
  }

  lemma OneExecutor(p: nat, q: nat)
    requires [p] <= [q]
    ensures p == q
  {
    assert [p][0] == [q][0];
  }

  /** A run in which the executing process raised never has a completion in its chronology. */
  lemma RaisedNeverCompletes(trace: seq<State>, actions: seq<Action>, r: nat, p: nat, n: nat)
    requires IsRun(trace, actions) && r < |actions| && actions[r] == Raise(p) && n < |trace|
    ensures trace[n].log.Some? ==> Some("run_completed") !in Events(trace[n].log.value)
  {
    RunInv(trace, actions, r);
    assert Enabled(trace[r], actions[r]) && ProcessOk(trace[r], p);
    if trace[n].log.Some? && Some("run_completed") in Events(trace[n].log.value) {
      hide Inv, Next, Initial;
      var m := CompletionWasExecuted(trace, actions, n);
      assert |Events(trace[r].log.value)| == 3;
      if m < r {
        HistoryIsKept(trace, actions, m + 1, r);
      } else if m > r {
        RaisedStays(trace, actions, r, m, p);
        OneExecutor(p, actions[m].p);
      }
    }
  }

  // ---------------------------------------------------------------- every chronology of the language is possible

  lemma ExtendRun(trace: seq<State>, actions: seq<Action>, a: Action)
      returns (longer: seq<State>, steps: seq<Action>)
    requires IsRun(trace, actions) && Enabled(trace[|actions|], a)
    ensures IsRun(longer, steps) && longer[|steps|] == Next(trace[|actions|], a)
  {
    hide Next, Enabled, Initial;
    longer, steps := trace + [Next(trace[|actions|], a)], actions + [a];
  }

  /** An initializer, a sealer and a runner, after the initializer wrote the authoring event. */
  lemma AuthoredRun() returns (trace: seq<State>, actions: seq<Action>)
    ensures IsRun(trace, actions)
    ensures var s := trace[|actions|];
      && s.directory && HasEvents(s, [A]) && s.artifacts == {} && s.executed == []
      && s.processes == [Ended, SealStart, RunStart]
  {
    trace, actions := [State(false, None, {}, [InitStart, SealStart, RunStart], [])], [];
    trace, actions := ExtendRun(trace, actions, MakeDirectory(0));
    trace, actions := ExtendRun(trace, actions, CreateLog(0, Writes, map[]));
  }

  lemma WritingRun() returns (trace: seq<State>, actions: seq<Action>)
    ensures IsRun(trace, actions)
    ensures var s := trace[|actions|];
      && HasEvents(s, [A]) && s.artifacts == {0, 1} && s.executed == []
      && s.processes == [Ended, SealWriting(2), RunStart]
  {
    trace, actions := AuthoredRun();
    trace, actions := ExtendRun(trace, actions, CheckSealable(1));
    trace, actions := ExtendRun(trace, actions, CheckNoArtifacts(1));
    trace, actions := ExtendRun(trace, actions, WriteArtifact(1));
    trace, actions := ExtendRun(trace, actions, WriteArtifact(1));
  }

  lemma SealedRun() returns (trace: seq<State>, actions: seq<Action>)
    ensures IsRun(trace, actions)
    ensures var s := trace[|actions|];
      HasEvents(s, [A, S]) && s.executed == [] && s.processes == [Ended, Ended, RunStart]
  {
    trace, actions := WritingRun();
    trace, actions := ExtendRun(trace, actions, WriteArtifact(1));
    trace, actions := ExtendRun(trace, actions, WriteArtifact(1));
    trace, actions := ExtendRun(trace, actions, AppendSealed(1, Writes, map[]));
  }

  lemma StartedRun() returns (trace: seq<State>, actions: seq<Action>)
    ensures IsRun(trace, actions)
    ensures var s := trace[|actions|];
      HasEvents(s, [A, S, R]) && s.executed == [2] && s.processes == [Ended, Ended, RunExecuting]
  {
    trace, actions := SealedRun();
    trace, actions := ExtendRun(trace, actions, AppendStarted(2, Writes, map[]));
  }

  /** Every word of the language is the chronology of some run. */
  lemma EveryWordIsReached(events: seq<Option<string>>) returns (trace: seq<State>, actions: seq<Action>)
    requires
      || events == [A] || events == [A, S] || events == [A, S, R]
      || events == [A, S, R, C] || events == [A, S, R, F]
    ensures IsRun(trace, actions) && HasEvents(trace[|actions|], events)
  {
    if |events| == 1 {
      trace, actions := AuthoredRun();
    } else if |events| == 2 {
      trace, actions := SealedRun();
    } else {
      trace, actions := StartedRun();
      if events == [A, S, R, C] {
        trace, actions := ExtendRun(trace, actions, AppendCompleted(2, Writes, map[]));
      } else if events == [A, S, R, F] {
        trace, actions := ExtendRun(trace, actions, Raise(2));
        trace, actions := ExtendRun(trace, actions, AppendFailed(2, Writes, map[]));
      }
    }
  }

  /** A sealer goes on only if its check saw exactly the authoring event, and writes only if it saw no artifact. */
  lemma SealerChecks(s: State, p: nat)
    ensures Enabled(s, CheckSealable(p)) ==>
      (Next(s, CheckSealable(p)).processes[p].SealChecked? <==> HasEvents(s, [Some("authoring_started")]))
    ensures Enabled(s, CheckNoArtifacts(p)) ==>
      (Next(s, CheckNoArtifacts(p)).processes[p].SealWriting? <==> s.artifacts == {})
  {
  }
}
