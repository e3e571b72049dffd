/**
 The host's release activation as a transition system: any number of activators contend for one file
 lock, and each, while it holds the lock, verifies trust, loads its candidate, checks it against the
 recorded state, brings it up with Compose and replaces the recorded state.  Every external step may
 fail, any activator may crash, and any environment file may be edited at any time.  Compose runs as a
 child process and the lock is not inherited: an activator killed while its child runs drops the lock
 and leaves an orphan, which takes effect later without it.
 */
module ReleaseActivation {
  import opened Counting

  datatype Record = Record(bindingSha256: string, releaseId: string, manifestSha256: string, imageReference: string,
                           environment: string, platform: string, generation: int)

  datatype Rollback = Rollback(mode: string, releaseId: Option<string>, manifestSha256: Option<string>,
                               bindingSha256: Option<string>, imageReference: Option<string>, generation: Option<int>,
                               environment: Option<string>, platform: Option<string>)

  const InitialBootstrap := Rollback("initial_bootstrap", None, None, None, None, None, None, None)

  function Pin(active: Record): Rollback {
    Rollback("pinned_previous_release", Some(active.releaseId), Some(active.manifestSha256), Some(active.bindingSha256),
             Some(active.imageReference), Some(active.generation), Some(active.environment), Some(active.platform))
  }

  datatype Decision = Bootstrap | Advance | Idempotent

  datatype TransitionError = FirstGeneration | FirstBootstrap | InconsistentIdentity | GenerationGap | WrongPin

  function ValidateTransition(candidate: Record, rollback: Rollback, active: Option<Record>)
    : Result<Decision, TransitionError>
  {
    match active
    case None =>
      if candidate.generation != 1 then Failure(FirstGeneration)
      else if rollback != InitialBootstrap then Failure(FirstBootstrap)
      else Success(Bootstrap)
    case Some(record) =>
      if candidate.bindingSha256 == record.bindingSha256 then
        if candidate != record then Failure(InconsistentIdentity) else Success(Idempotent)
      else if candidate.generation != record.generation + 1 then Failure(GenerationGap)
      else if rollback != Pin(record) then Failure(WrongPin)
      else Success(Advance)
  }

  /** What an environment file names: the candidate record and the rollback its binding declares. */
  datatype Release = Release(record: Record, rollback: Rollback)

  datatype Pc =
    | Waiting
    | Locked
    | Trusted
    | Loaded(candidate: Release)
    | Decided(candidate: Release, decision: Decision)
    | Composed(candidate: Release, decision: Decision)
    | TakingDown
    | Returned(decision: Decision)
    | Failed

  predicate Holds(pc: Pc) { !pc.Waiting? && !pc.Returned? && !pc.Failed? }

  datatype Serving = Down | Up(record: Record) | Unknown

  /** A Compose child: it starts the release its environment file named, or takes the stack down. */
  datatype Child = BringUp(record: Record) | BringDown

  datatype Write = Write(release: Release, decision: Decision)

  /** `history` lists every replacement of the state file, in order. */
  datatype State = State(recorded: Option<Record>, serving: Serving, holder: Option<nat>, activators: seq<Pc>,
                         files: seq<Release>, orphans: seq<Child>, history: seq<Write>)

  predicate Initial(s: State) {
    && s.recorded == None && s.holder == None && s.history == [] && s.orphans == [] && |s.files| == |s.activators|
    && forall p :: 0 <= p < |s.activators| ==> s.activators[p] == Waiting
  }

  datatype ComposeOutcome = NotStarted | Unhealthy | Healthy

  datatype WriteOutcome = FailedBeforeReplace | FailedAfterReplace | Written

  /** `Crash` is a death with no child running, `Kill` one that orphans the running child. */
  datatype Action =
    | Edit(p: nat, release: Release)
    | Lock(p: nat)
    | VerifyTrust(p: nat, ok: bool)
    | Load(p: nat, ok: bool)
    | Decide(p: nat)
    | Compose(p: nat, outcome: ComposeOutcome)
    | WriteState(p: nat, written: WriteOutcome)
    | TakeDown(p: nat, ok: bool)
    | Crash(p: nat)
    | Kill(p: nat)
    | OrphanEnds(n: nat, outcome: ComposeOutcome)

  predicate Enabled(s: State, a: Action) {
    if a.OrphanEnds? then a.n < |s.orphans|
    else
      && a.p < |s.activators| && a.p < |s.files|
      && match a
         case Edit(_, _) => true
         case Lock(p) => s.activators[p].Waiting? && s.holder == None
         case VerifyTrust(p, _) => s.activators[p].Locked?
         case Load(p, _) => s.activators[p].Trusted?
         case Decide(p) => s.activators[p].Loaded?
         case Compose(p, _) => s.activators[p].Decided?
         case WriteState(p, _) => s.activators[p].Composed?
         case TakeDown(p, _) => s.activators[p].TakingDown?
         case Crash(p) => Holds(s.activators[p])
         case Kill(p) => s.activators[p].Decided? || s.activators[p].TakingDown?
  }

  function Move(s: State, p: nat, pc: Pc): State
    requires p < |s.activators|
  {
    s.(activators := s.activators[p := pc], holder := if Holds(pc) then Some(p) else None)
  }

  function NextWrite(s: State, p: nat, outcome: WriteOutcome): State
    requires p < |s.activators| && s.activators[p].Composed?
  {
    var pc := s.activators[p];
    var write := Write(pc.candidate, pc.decision);
    var replaced := s.(recorded := Some(pc.candidate.record), history := s.history + [write]);
    match outcome
    case FailedBeforeReplace => Move(s, p, TakingDown)
    case FailedAfterReplace => Move(replaced, p, TakingDown)
    case Written => Move(replaced, p, Returned(pc.decision))
  }

  /** What is served once a child has ended. */
  function ChildEffect(child: Child, outcome: ComposeOutcome): Option<Serving> {
    match outcome
    case NotStarted => None
    case Unhealthy => Some(Unknown)
    case Healthy => Some(if child.BringUp? then Up(child.record) else Down)
  }

  /** What a step makes of the stack; None when it leaves it alone. */
  function Effect(s: State, a: Action): Option<Serving>
    requires Enabled(s, a)
  {
    match a
    case Compose(p, outcome) => ChildEffect(BringUp(s.files[p].record), outcome)
    case TakeDown(_, ok) => Some(if ok then Down else Unknown)
    case OrphanEnds(n, outcome) => ChildEffect(s.orphans[n], outcome)
    case _ => None
  }

  function Next(s: State, a: Action): State
    requires Enabled(s, a)
  {
    var t := s.(serving := Effect(s, a).GetOr(s.serving));
    match a
    case Edit(p, release) => t.(files := s.files[p := release])
    case Lock(p) => Move(t, p, Locked)
    case VerifyTrust(p, ok) => Move(t, p, if ok then Trusted else Failed)
    case Load(p, ok) => Move(t, p, if ok then Loaded(s.files[p]) else Failed)
    case Decide(p) =>
      var pc := s.activators[p];
      (match ValidateTransition(pc.candidate.record, pc.candidate.rollback, s.recorded)
       case Success(decision) => Move(t, p, Decided(pc.candidate, decision))
       case Failure(_) => Move(t, p, Failed))
    case Compose(p, outcome) =>
      var pc := s.activators[p];
      Move(t, p, if outcome.Healthy? then Composed(pc.candidate, pc.decision) else Failed)
    case WriteState(p, outcome) => NextWrite(t, p, outcome)
    case TakeDown(p, _) => Move(t, p, Failed)
    case Crash(p) => Move(t, p, Failed)
    case Kill(p) =>
      var child := if s.activators[p].Decided? then BringUp(s.files[p].record) else BringDown;
      Move(t, p, Failed).(orphans := s.orphans + [child])
    case OrphanEnds(n, _) => t.(orphans := s.orphans[..n] + s.orphans[n + 1..])
  }

  ghost predicate IsRun(trace: seq<State>, actions: seq<Action>) {
    && |trace| == |actions| + 1 && Initial(trace[0])
    && forall i :: 0 <= i < |actions| ==> Enabled(trace[i], actions[i]) && trace[i + 1] == Next(trace[i], actions[i])
  }

  // ---------------------------------------------------------------- invariant

  function Before(history: seq<Write>, i: nat): Option<Record>
    requires i <= |history|
  {
    if i == 0 then None else Some(history[i - 1].release.record)
  }

  ghost predicate WriteOk(history: seq<Write>, i: int) {
    && 0 <= i < |history|
    && var release := history[i].release;
    ValidateTransition(release.record, release.rollback, Before(history, i)) == Success(history[i].decision)
  }

  /** Each replacement was validated against exactly the record it replaced. */
  ghost predicate HistoryOk(history: seq<Write>) {
    forall i {:trigger WriteOk(history, i)} :: 0 <= i < |history| ==> WriteOk(history, i)
  }

  lemma HistoryPrefix(history: seq<Write>)
    requires HistoryOk(history) && history != []
    ensures HistoryOk(history[..|history| - 1]) && WriteOk(history, |history| - 1)
  {
    var front := history[..|history| - 1];
    forall i | 0 <= i < |front| ensures WriteOk(front, i) {
      assert WriteOk(history, i) && Before(front, i) == Before(history, i);
    }
  }

  ghost predicate ActivatorOk(s: State, p: nat)
    requires p < |s.activators|
  {
    var pc := s.activators[p];
    && (s.holder == Some(p) <==> Holds(pc))
    && (pc.Decided? || pc.Composed? ==>
          ValidateTransition(pc.candidate.record, pc.candidate.rollback, s.recorded) == Success(pc.decision))
  }

  ghost predicate Inv(s: State) {
    && |s.files| == |s.activators|
    && (forall p :: 0 <= p < |s.activators| ==> ActivatorOk(s, p))
    && HistoryOk(s.history) && s.recorded == Before(s.history, |s.history|)
  }

  lemma HistoryGrows(history: seq<Write>, w: Write)
    requires HistoryOk(history)
    requires ValidateTransition(w.release.record, w.release.rollback, Before(history, |history|)) == Success(w.decision)
    ensures HistoryOk(history + [w])
  {
    var longer := history + [w];
    forall i | 0 <= i < |longer| ensures WriteOk(longer, i) {
      assert Before(longer, i) == Before(history, i);
      assert i < |history| ==> WriteOk(history, i);
    }
  }

  lemma InvStep(s: State, a: Action)
    requires Inv(s) && Enabled(s, a)
    ensures Inv(Next(s, a))
  {
    if !a.OrphanEnds? {
      assert ActivatorOk(s, a.p);
    }
    if a.WriteState? && !a.written.FailedBeforeReplace? {
      HistoryGrows(s.history, Write(s.activators[a.p].candidate, s.activators[a.p].decision));
    }
    var t := Next(s, a);
    forall p | 0 <= p < |t.activators| ensures ActivatorOk(t, p) {
      assert ActivatorOk(s, p);
    }
  }

  lemma {:induction false} RunInv(trace: seq<State>, actions: seq<Action>, i: nat)
    requires IsRun(trace, actions) && i < |trace|
    ensures Inv(trace[i])
  {
    if i > 0 {
      RunInv(trace, actions, i - 1);
      InvStep(trace[i - 1], actions[i - 1]);
    }
  }

  // ---------------------------------------------------------------- generations

  /** Generations never go back, and a generation has one record. */
  lemma {:induction false} GenerationsGrow(history: seq<Write>, i: nat, j: nat)
    requires HistoryOk(history) && i <= j < |history|
    ensures history[i].release.record.generation <= history[j].release.record.generation
    ensures history[i].release.record.generation == history[j].release.record.generation ==>
              history[i].release.record == history[j].release.record
  {
    if i < j {
      GenerationsGrow(history, i, j - 1);
      assert WriteOk(history, j);
    }
  }

  /** The recorded states with immediate repetitions (idempotent restarts) removed. */
  ghost function Distinct(history: seq<Write>): seq<Release> {
    if history == [] then []
    else
      var front := Distinct(history[..|history| - 1]);
      if history[|history| - 1].decision.Idempotent? then front else front + [history[|history| - 1].release]
  }

  lemma {:induction false} DistinctEndsWithLast(history: seq<Write>)
    requires HistoryOk(history) && history != []
    ensures Distinct(history) != []
    ensures Distinct(history)[|Distinct(history)| - 1].record == history[|history| - 1].release.record
  {
    var n := |history| - 1;
    HistoryPrefix(history);
    if n > 0 {
      DistinctEndsWithLast(history[..n]);
    }
  }

  /** The release has another binding than the active record and pins it field by field. */
  predicate Follows(next: Release, active: Record) {
    && next.record.bindingSha256 != active.bindingSha256
    && next.record.generation == active.generation + 1
    && next.rollback == Rollback(
         "pinned_previous_release", Some(active.releaseId), Some(active.manifestSha256), Some(active.bindingSha256),
         Some(active.imageReference), Some(active.generation), Some(active.environment), Some(active.platform))
  }

  predicate IsFirst(release: Release) {
    && release.record.generation == 1
    && release.rollback == Rollback("initial_bootstrap", None, None, None, None, None, None, None)
  }

  /** Generations 1, 2, 3, ..., each release pinning exactly its predecessor. */
  ghost predicate Succession(releases: seq<Release>) {
    && (releases != [] ==> IsFirst(releases[0]))
    && forall i :: 0 < i < |releases| ==> Follows(releases[i], releases[i - 1].record)
  }

  lemma {:induction false} SuccessionCounts(releases: seq<Release>, i: nat)
    requires Succession(releases) && i < |releases|
    ensures releases[i].record.generation == i + 1
  {
    if i > 0 {
      SuccessionCounts(releases, i - 1);
      assert Follows(releases[i], releases[i - 1].record);
    }
  }

  lemma {:induction false} DistinctIsChain(history: seq<Write>)
    requires HistoryOk(history)
    ensures Succession(Distinct(history))
  {
    if history != [] {
      var n := |history| - 1;
      HistoryPrefix(history);
      DistinctIsChain(history[..n]);
      if n > 0 {
        DistinctEndsWithLast(history[..n]);
      }
    }
  }

  /**
   Over every run, for any number of contending activators and any failures, the recorded states are
   generations 1, 2, 3, ... and each one pins exactly the record it replaced.
   */
  lemma RecordedStatesFormAChain(trace: seq<State>, actions: seq<Action>, n: nat)
    requires IsRun(trace, actions) && n < |trace|
    ensures Succession(Distinct(trace[n].history))
    ensures forall i :: 0 <= i < |Distinct(trace[n].history)| ==>
      Distinct(trace[n].history)[i].record.generation == i + 1
    ensures var states := Distinct(trace[n].history);
            trace[n].recorded == if states == [] then None else Some(states[|states| - 1].record)
  {
    RunInv(trace, actions, n);
    DistinctIsChain(trace[n].history);
    forall i | 0 <= i < |Distinct(trace[n].history)|
      ensures Distinct(trace[n].history)[i].record.generation == i + 1
    {
      SuccessionCounts(Distinct(trace[n].history), i);
    }
    if trace[n].history != [] {
      DistinctEndsWithLast(trace[n].history);
    }
  }

  /** A record that was superseded is never recorded again. */
  lemma SupersededNeverReturns(trace: seq<State>, actions: seq<Action>, n: nat, i: nat, j: nat, k: nat)
    requires IsRun(trace, actions) && n < |trace| && i < j < k < |trace[n].history|
    requires trace[n].history[i].release.record != trace[n].history[j].release.record
    ensures trace[n].history[k].release.record != trace[n].history[i].release.record
  {
    RunInv(trace, actions, n);
    GenerationsGrow(trace[n].history, i, j);
    GenerationsGrow(trace[n].history, j, k);
  }

  /** The decision, field by field: what each kind of candidate gets against each recorded state. */
  lemma DecisionIsExact(s: State, p: nat)
    requires Enabled(s, Decide(p))
    ensures var candidate, pc := s.activators[p].candidate, Next(s, Decide(p)).activators[p];
      && (pc == Decided(candidate, Bootstrap) <==> s.recorded == None && IsFirst(candidate))
      && (pc == Decided(candidate, Idempotent) <==> s.recorded == Some(candidate.record))
      && (pc == Decided(candidate, Advance) <==> s.recorded.Some? && Follows(candidate, s.recorded.value))
      && (pc.Decided? || pc == Failed)
  {
  }

  // ---------------------------------------------------------------- every succession is possible

  /** An activator that takes the free lock loads what its file names. */
  lemma LoadOnce(trace: seq<State>, actions: seq<Action>, p: nat) returns (longer: seq<State>, steps: seq<Action>)
    requires IsRun(trace, actions)
    requires var s := trace[|actions|];
      p < |s.activators| && p < |s.files| && s.activators[p] == Waiting && s.holder == None
    ensures IsRun(longer, steps)
    ensures var s := trace[|actions|];
      longer[|steps|] == s.(activators := s.activators[p := Loaded(s.files[p])], holder := Some(p))
  {
    var s := trace[|actions|];
    var s1 := Next(s, Lock(p));
    ExtendRun(trace, actions, Lock(p));
    longer, steps := trace + [s1], actions + [Lock(p)];
    var s2 := Next(s1, VerifyTrust(p, true));
    ExtendRun(longer, steps, VerifyTrust(p, true));
    longer, steps := longer + [s2], steps + [VerifyTrust(p, true)];
    ExtendRun(longer, steps, Load(p, true));
    longer, steps := longer + [Next(s2, Load(p, true))], steps + [Load(p, true)];
    assert s.activators[p := Locked][p := Trusted][p := Loaded(s.files[p])] == s.activators[p := Loaded(s.files[p])];
  }

  /** One undisturbed activation: what the file names is recorded and served. */
  lemma ActivateOnce(trace: seq<State>, actions: seq<Action>, p: nat, decision: Decision)
      returns (longer: seq<State>, steps: seq<Action>)
    requires IsRun(trace, actions)
    requires var s := trace[|actions|];
      && p < |s.activators| && p < |s.files| && s.activators[p] == Waiting && s.holder == None
      && ValidateTransition(s.files[p].record, s.files[p].rollback, s.recorded) == Success(decision)
    ensures IsRun(longer, steps)
    ensures var s := trace[|actions|];
      longer[|steps|] == s.(recorded := Some(s.files[p].record), serving := Up(s.files[p].record),
                            activators := s.activators[p := Returned(decision)],
                            history := s.history + [Write(s.files[p], decision)])
  {
    var s := trace[|actions|];
    longer, steps := LoadOnce(trace, actions, p);
    var s1 := Next(longer[|steps|], Decide(p));
    ExtendRun(longer, steps, Decide(p));
    longer, steps := longer + [s1], steps + [Decide(p)];
    var s2 := Next(s1, Compose(p, Healthy));
    ExtendRun(longer, steps, Compose(p, Healthy));
    longer, steps := longer + [s2], steps + [Compose(p, Healthy)];
    ExtendRun(longer, steps, WriteState(p, Written));
    longer, steps := longer + [Next(s2, WriteState(p, Written))], steps + [WriteState(p, Written)];
  }

  /** The first `n` activators have returned, the others still wait, and nobody holds the lock. */
  ghost predicate AfterActivations(s: State, files: seq<Release>, n: nat) {
    && n <= |files| == |s.activators| && s.files == files && s.holder == None
    && (forall p :: n <= p < |files| ==> s.activators[p] == Waiting)
    && s.recorded == (if n == 0 then None else Some(files[n - 1].record))
    && (n > 0 ==> s.serving == Up(files[n - 1].record))
  }

  lemma NextDecision(s: State, releases: seq<Release>, files: seq<Release>, n: nat)
    requires Succession(releases) && n < |releases| && releases <= files && AfterActivations(s, files, n)
    ensures ValidateTransition(releases[n].record, releases[n].rollback, s.recorded) ==
      Success(if n == 0 then Bootstrap else Advance)
  {
    if n > 0 {
      assert Follows(releases[n], releases[n - 1].record);
    }
  }

  lemma {:induction false} ChainRun(releases: seq<Release>, files: seq<Release>, n: nat)
      returns (trace: seq<State>, actions: seq<Action>)
    requires Succession(releases) && n <= |releases| && releases <= files
    ensures IsRun(trace, actions) && AfterActivations(trace[|actions|], files, n)
    ensures Distinct(trace[|actions|].history) == releases[..n]
  {
    if n == 0 {
      trace, actions := [State(None, Down, None, Waiters(files), files, [], [])], [];
    } else {
      trace, actions := ChainRun(releases, files, n - 1);
      var s := trace[|actions|];
      NextDecision(s, releases, files, n - 1);
      hide Distinct, Succession, IsRun, ValidateTransition;
      var decision := if n == 1 then Bootstrap else Advance;
      trace, actions := ActivateOnce(trace, actions, n - 1, decision);
      DistinctGrows(s.history, Write(releases[n - 1], decision));
      assert releases[..n] == releases[..n - 1] + [releases[n - 1]];
    }
  }

  lemma DistinctGrows(history: seq<Write>, w: Write)
    ensures Distinct(history + [w]) ==
      if w.decision.Idempotent? then Distinct(history) else Distinct(history) + [w.release]
  {
    assert (history + [w])[..|history|] == history;
  }

  /** Every succession of releases is recorded by some run, which ends with the last one recorded and served. */
  lemma EverySuccessionIsRecorded(releases: seq<Release>) returns (trace: seq<State>, actions: seq<Action>)
    requires Succession(releases) && releases != []
    ensures IsRun(trace, actions) && Distinct(trace[|actions|].history) == releases
    ensures trace[|actions|].recorded == Some(releases[|releases| - 1].record)
    ensures trace[|actions|].serving == Up(releases[|releases| - 1].record)
  {
    trace, actions := ChainRun(releases, releases, |releases|);
    assert releases[..|releases|] == releases;
  }

  /** Activating the recorded release again, whatever its rollback says, serves it and records nothing new. */
  lemma RestartIsIdempotent(releases: seq<Release>, again: Release) returns (trace: seq<State>, actions: seq<Action>)
    requires Succession(releases) && releases != [] && again.record == releases[|releases| - 1].record
    ensures IsRun(trace, actions) && Distinct(trace[|actions|].history) == releases
    ensures var s, n := trace[|actions|], |releases|;
      && n < |s.activators| && s.activators[n] == Returned(Idempotent)
      && s.recorded == Some(again.record) && s.serving == Up(again.record)
  {
    trace, actions := ChainRun(releases, releases + [again], |releases|);
    var s := trace[|actions|];
    hide Distinct, IsRun, Succession;
    trace, actions := ActivateOnce(trace, actions, |releases|, Idempotent);
    DistinctGrows(s.history, Write(again, Idempotent));
    assert releases[..|releases|] == releases;
  }

  // ---------------------------------------------------------------- what is being served

  /** A step that moves an activator is one of its own, and needs the lock. */
  lemma OwnSteps(s: State, a: Action, p: nat)
    requires Inv(s) && Enabled(s, a) && p < |s.activators|
    ensures p < |Next(s, a).activators|
    ensures Next(s, a).activators[p] != s.activators[p] ==> !a.OrphanEnds? && a.p == p
    ensures Holds(s.activators[p]) && (Next(s, a).recorded != s.recorded || (Effect(s, a).Some? && !a.OrphanEnds?)) ==>
              a.p == p
  {
    assert ActivatorOk(s, p);
    if !a.OrphanEnds? {
      assert ActivatorOk(s, a.p);
    }
  }

  /** How an activator comes to its candidate and to its composed release. */
  lemma CandidateSteps(s: State, a: Action, p: nat)
    requires Inv(s) && Enabled(s, a) && p < |s.activators|
    ensures p < |s.files| && p < |Next(s, a).activators|
    ensures var pc, next := s.activators[p], Next(s, a).activators[p];
      && (next.Loaded? || next.Decided? ==>
            || (a == Load(p, true) && next.candidate == s.files[p])
            || ((pc.Loaded? || pc.Decided?) && next.candidate == pc.candidate))
      && (next.Composed? ==>
            || (a == Compose(p, Healthy) && pc.Decided? && next.candidate == pc.candidate)
            || (pc == next && (Effect(s, a).Some? ==> a.OrphanEnds?)))
    ensures Next(s, a).serving == Effect(s, a).GetOr(s.serving)
    ensures a == Compose(p, Healthy) ==> Effect(s, a) == Some(Up(s.files[p].record))
  {
    OwnSteps(s, a, p);
  }

  /** Whoever is past the trust verification passed it, in a step of its own. */
  lemma {:induction false} TrustedFrom(trace: seq<State>, actions: seq<Action>, i: nat, p: nat) returns (v: nat)
    requires IsRun(trace, actions) && i < |trace| && p < |trace[i].activators| && trace[i].activators[p].Trusted?
    ensures v < i && actions[v] == VerifyTrust(p, true)
  {
    assert i > 0;
    RunInv(trace, actions, i - 1);
    var s, a := trace[i - 1], actions[i - 1];
    assert Enabled(s, a) && trace[i] == Next(s, a) && |s.activators| == |trace[i].activators|;
    TrustSteps(s, a, p);
    hide Next, Enabled, Inv, Initial;
    if a == VerifyTrust(p, true) {
      v := i - 1;
    } else {
      v := TrustedFrom(trace, actions, i - 1, p);
    }
  }

  lemma TrustSteps(s: State, a: Action, p: nat)
    requires Inv(s) && Enabled(s, a) && p < |s.activators|
    ensures p < |Next(s, a).activators|
    ensures Next(s, a).activators[p].Trusted? ==> a == VerifyTrust(p, true) || s.activators[p].Trusted?
  {
    OwnSteps(s, a, p);
  }

  /** A loaded candidate is what the file named when it was read. */
  lemma {:induction false} LoadedFrom(trace: seq<State>, actions: seq<Action>, i: nat, p: nat) returns (l: nat)
    requires IsRun(trace, actions) && i < |trace| && p < |trace[i].activators|
    requires trace[i].activators[p].Loaded? || trace[i].activators[p].Decided?
    ensures l < i && actions[l] == Load(p, true) && p < |trace[l].files|
    ensures trace[i].activators[p].candidate == trace[l].files[p]
  {
    assert i > 0;
    RunInv(trace, actions, i - 1);
    var s, a := trace[i - 1], actions[i - 1];
    assert Enabled(s, a) && trace[i] == Next(s, a) && |s.activators| == |trace[i].activators|;
    CandidateSteps(s, a, p);
    hide Next, Enabled, Inv, Initial;
    if a == Load(p, true) && trace[i].activators[p].candidate == s.files[p] {
      l := i - 1;
    } else {
      l := LoadedFrom(trace, actions, i - 1, p);
    }
  }

  /**
   A composed activator loaded its candidate at some step and brought up what the file named at a later one.
   Since then only orphans can have touched the stack.
   */
  lemma {:induction false} ComposedFrom(trace: seq<State>, actions: seq<Action>, i: nat, p: nat)
      returns (l: nat, k: nat, j: nat)
    requires IsRun(trace, actions) && i < |trace| && p < |trace[i].activators| && trace[i].activators[p].Composed?
    ensures l < k <= j < i && actions[l] == Load(p, true) && actions[k] == Compose(p, Healthy)
    ensures p < |trace[l].files| && p < |trace[k].files|
    ensures trace[i].activators[p].candidate == trace[l].files[p]
    ensures Enabled(trace[j], actions[j]) && Effect(trace[j], actions[j]) == Some(trace[i].serving)
    ensures j == k || actions[j].OrphanEnds?
  {
    assert i > 0;
    RunInv(trace, actions, i - 1);
    var s, a := trace[i - 1], actions[i - 1];
    assert Enabled(s, a) && trace[i] == Next(s, a) && |s.activators| == |trace[i].activators|;
    CandidateSteps(s, a, p);
    hide Next, Enabled, Effect, Inv, Initial;
    if a == Compose(p, Healthy) && s.activators[p].Decided? {
      k, j := i - 1, i - 1;
      l := LoadedFrom(trace, actions, i - 1, p);
    } else {
      l, k, j := ComposedFrom(trace, actions, i - 1, p);
      if Effect(s, a).Some? {
        j := i - 1;
      }
    }
  }

  /**
   A normal return follows a passed trust verification and records the candidate as it was read at step `l`, while
   what is served was decided by the last step `j` that touched the stack: the activator's own Compose at step
   `k`, which read the file again, or an orphan that ended after it.
   */
  lemma NormalReturnServesRecorded(trace: seq<State>, actions: seq<Action>, i: nat, p: nat)
      returns (v: nat, l: nat, k: nat, j: nat)
    requires IsRun(trace, actions) && i < |actions| && actions[i] == WriteState(p, Written)
    ensures v < l < k <= j < i && actions[v] == VerifyTrust(p, true)
    ensures actions[l] == Load(p, true) && actions[k] == Compose(p, Healthy)
    ensures p < |trace[l].files| && p < |trace[k].files| && (j == k || actions[j].OrphanEnds?)
    ensures Enabled(trace[j], actions[j])
    ensures var t := trace[i + 1];
      && p < |t.activators| && t.activators[p].Returned? && t.holder == None
      && t.recorded == Some(trace[l].files[p].record)
      && (t.serving == Up(t.recorded.value) <==>
            Effect(trace[j], actions[j]) == Some(Up(trace[l].files[p].record)))
    ensures var t := trace[i + 1];
      (forall m :: k < m < i ==> !actions[m].OrphanEnds?) ==>
        (t.serving == Up(t.recorded.value) <==> trace[k].files[p].record == trace[l].files[p].record)
  {
    assert Enabled(trace[i], actions[i]) && trace[i + 1] == Next(trace[i], actions[i]);
    l, k, j := ComposedFrom(trace, actions, i, p);
    assert Enabled(trace[l], actions[l]);
    v := TrustedFrom(trace, actions, l, p);
  }

  /** Orphans come from kills: without any, a normal return is decided by the two readings of the file alone. */
  lemma {:induction false} OrphansComeFromKills(trace: seq<State>, actions: seq<Action>, i: nat)
    requires IsRun(trace, actions) && i < |trace| && forall m :: 0 <= m < i ==> !actions[m].Kill?
    ensures trace[i].orphans == [] && forall m :: 0 <= m < i ==> !actions[m].OrphanEnds?
  {
    if i > 0 {
      OrphansComeFromKills(trace, actions, i - 1);
      assert Enabled(trace[i - 1], actions[i - 1]) && trace[i] == Next(trace[i - 1], actions[i - 1]);
    }
  }

  /** The recorded state changes only in the lock holder's hands; the stack in its hands or an orphan's. */
  lemma OnlyTheHolderActs(trace: seq<State>, actions: seq<Action>, i: nat)
    requires IsRun(trace, actions) && i < |actions|
    ensures trace[i + 1].recorded != trace[i].recorded ==>
      actions[i].WriteState? && trace[i].holder == Some(actions[i].p)
    ensures trace[i + 1].serving != trace[i].serving ==>
      actions[i].OrphanEnds? || ((actions[i].Compose? || actions[i].TakeDown?) && trace[i].holder == Some(actions[i].p))
  {
    RunInv(trace, actions, i);
    assert Enabled(trace[i], actions[i]) && trace[i + 1] == Next(trace[i], actions[i]);
    if !actions[i].OrphanEnds? {
      assert ActivatorOk(trace[i], actions[i].p);
    }
  }

  /** What Compose leaves: a healthy one serves what the file names, a failed one leaves the stack unknown. */
  lemma ComposeLeaves(s: State, p: nat, outcome: ComposeOutcome)
    requires Enabled(s, Compose(p, outcome))
    ensures var t := Next(s, Compose(p, outcome));
      && t.recorded == s.recorded && (t.activators[p].Composed? <==> outcome.Healthy?)
      && (!outcome.Healthy? ==> t.activators[p] == Failed)
      && t.serving ==
           match outcome
           case NotStarted => s.serving
           case Unhealthy => Unknown
           case Healthy => Up(s.files[p].record)
  {
  }

  /** An orphan serves what its file named, takes the stack down, or leaves it unknown, and is then gone. */
  lemma OrphanLeaves(s: State, n: nat, outcome: ComposeOutcome)
    requires n < |s.orphans|
    ensures var t := Next(s, OrphanEnds(n, outcome));
      && t.recorded == s.recorded && t.activators == s.activators && |t.orphans| == |s.orphans| - 1
      && t.serving ==
           match outcome
           case NotStarted => s.serving
           case Unhealthy => Unknown
           case Healthy => if s.orphans[n].BringUp? then Up(s.orphans[n].record) else Down
  {
  }

  /** A killed activator's child still ends: one that was bringing up serves its file, one taking down takes down. */
  lemma KilledChildEnds(s: State, p: nat)
    requires Enabled(s, Kill(p))
    ensures var killed := Next(s, Kill(p));
      && killed.recorded == s.recorded && killed.serving == s.serving && killed.holder.None?
      && |killed.orphans| == |s.orphans| + 1
      && Next(killed, OrphanEnds(|s.orphans|, Healthy)).orphans == s.orphans
      && Next(killed, OrphanEnds(|s.orphans|, Healthy)).serving ==
           if s.activators[p].TakingDown? then Down else Up(s.files[p].record)
  {
  }

  // ---------------------------------------------------------------- a failed write

  /** A write that does not return normally has changed the record exactly when it failed late with a new candidate. */
  lemma FailedWriteRecords(s: State, p: nat, written: WriteOutcome)
    requires Inv(s) && Enabled(s, WriteState(p, written)) && !written.Written?
    ensures var t := Next(s, WriteState(p, written));
      && t.activators[p].TakingDown? && t.serving == s.serving
      && t.recorded == (if written.FailedAfterReplace? then Some(s.activators[p].candidate.record) else s.recorded)
      && (t.recorded != s.recorded <==> written.FailedAfterReplace? && !s.activators[p].decision.Idempotent?)
  {
    assert ActivatorOk(s, p);
  }

  lemma StillTakingDown(s: State, a: Action, p: nat)
    requires Inv(s) && Enabled(s, a) && p < |s.activators| && s.activators[p].TakingDown?
    requires p < |Next(s, a).activators| && Next(s, a).activators[p].TakingDown?
    ensures Next(s, a).recorded == s.recorded
  {
    OwnSteps(s, a, p);
  }

  lemma {:induction false} TakingDownKeepsRecord(trace: seq<State>, actions: seq<Action>, i: nat, j: nat, p: nat)
    requires IsRun(trace, actions) && i <= j < |trace|
    requires forall m :: i <= m <= j ==> p < |trace[m].activators| && trace[m].activators[p].TakingDown?
    ensures trace[j].recorded == trace[i].recorded
  {
    if i < j {
      RunInv(trace, actions, j - 1);
      var s, a := trace[j - 1], actions[j - 1];
      assert Enabled(s, a) && trace[j] == Next(s, a);
      StillTakingDown(s, a, p);
      hide Next, Enabled, Inv, Initial;
      TakingDownKeepsRecord(trace, actions, i, j - 1, p);
    }
  }

  /**
   Once an activator whose write failed at step `i` gives the lock up at step `j`, the record is new exactly
   when the failure came after the replacement of another release; the stack is down if the take-down
   succeeded, unknown if it failed, and as it was if the activator died instead.
   */
  lemma FailedWriteLeaves(trace: seq<State>, actions: seq<Action>, i: nat, j: nat, p: nat)
    requires IsRun(trace, actions) && i < j < |actions| && actions[i].WriteState? && actions[i].p == p
    requires !actions[i].written.Written?
    requires forall m :: i < m <= j ==> p < |trace[m].activators| && trace[m].activators[p].TakingDown?
    requires p < |trace[j + 1].activators| && !trace[j + 1].activators[p].TakingDown?
    ensures p < |trace[i].activators| && trace[i].activators[p].Composed?
    ensures var pc, written, t := trace[i].activators[p], actions[i].written, trace[j + 1];
      && t.activators[p].Failed? && t.holder == None
      && t.recorded == (if written.FailedAfterReplace? then Some(pc.candidate.record) else trace[i].recorded)
      && (t.recorded != trace[i].recorded <==> written.FailedAfterReplace? && !pc.decision.Idempotent?)
    ensures actions[j] in [TakeDown(p, true), TakeDown(p, false), Crash(p), Kill(p)]
    ensures trace[j + 1].serving ==
      match actions[j]
      case TakeDown(_, ok) => (if ok then Down else Unknown)
      case _ => trace[j].serving
    ensures trace[j + 1].recorded != trace[i].recorded && trace[j + 1].serving == Down <==>
      && actions[i].written.FailedAfterReplace? && !trace[i].activators[p].decision.Idempotent?
      && (actions[j] == TakeDown(p, true) || (!actions[j].TakeDown? && trace[j].serving == Down))
  {
    RunInv(trace, actions, i);
    RunInv(trace, actions, j);
    assert Enabled(trace[i], actions[i]) && trace[i + 1] == Next(trace[i], actions[i]);
    FailedWriteRecords(trace[i], p, actions[i].written);
    TakingDownKeepsRecord(trace, actions, i + 1, j, p);
    assert Enabled(trace[j], actions[j]) && trace[j + 1] == Next(trace[j], actions[j]);
    OwnSteps(trace[j], actions[j], p);
  }

  // ---------------------------------------------------------------- witnesses

  lemma ExtendRun(trace: seq<State>, actions: seq<Action>, a: Action)
    requires IsRun(trace, actions) && Enabled(trace[|actions|], a)
    ensures IsRun(trace + [Next(trace[|actions|], a)], actions + [a])
  {
    hide Next, Enabled, Initial;
  }

  /** An activator with a bootstrap candidate, up to its decision, beside any others that still wait. */
  lemma DecidedRun(r: Record, others: seq<Release>) returns (trace: seq<State>, actions: seq<Action>)
    requires r.generation == 1
    ensures IsRun(trace, actions)
    ensures var release := Release(r, InitialBootstrap);
      trace[|actions|] == State(None, Down, Some(0), [Decided(release, Bootstrap)] + Waiters(others),
                                [release] + others, [], [])
  {
    var release := Release(r, InitialBootstrap);
    var files := [release] + others;
    var s0 := State(None, Down, None, [Waiting] + Waiters(others), files, [], []);
    var s1 := Next(s0, Lock(0));
    var s2 := Next(s1, VerifyTrust(0, true));
    var s3 := Next(s2, Load(0, true));
    var s4 := Next(s3, Decide(0));
    trace := [s0, s1, s2, s3, s4];
    actions := [Lock(0), VerifyTrust(0, true), Load(0, true), Decide(0)];
  }

  function Waiters(others: seq<Release>): seq<Pc> { seq(|others|, i => Waiting) }

  /** The write that fails after the replacement: the new state is recorded and nothing serves it. */
  lemma RecordedButDown(r: Record) returns (trace: seq<State>, actions: seq<Action>)
    requires r.generation == 1
    ensures IsRun(trace, actions)
    ensures var t := trace[|actions|];
      && |t.activators| == 1 && t.activators[0] == Failed && t.recorded == Some(r) && t.serving == Down
      && t.holder == None
  {
    trace, actions := DecidedRun(r, []);
    var s5 := Next(trace[|actions|], Compose(0, Healthy));
    ExtendRun(trace, actions, Compose(0, Healthy));
    trace, actions := trace + [s5], actions + [Compose(0, Healthy)];
    var s6 := Next(s5, WriteState(0, FailedAfterReplace));
    ExtendRun(trace, actions, WriteState(0, FailedAfterReplace));
    trace, actions := trace + [s6], actions + [WriteState(0, FailedAfterReplace)];
    ExtendRun(trace, actions, TakeDown(0, true));
    trace, actions := trace + [Next(s6, TakeDown(0, true))], actions + [TakeDown(0, true)];
  }

  /** An edit between the two readings of the file: one release is recorded and another is served. */
  lemma EditedRunServesAnother(r: Record, other: Release) returns (trace: seq<State>, actions: seq<Action>)
    requires r.generation == 1
    ensures IsRun(trace, actions) && actions != [] && actions[|actions| - 1] == WriteState(0, Written)
    ensures trace[|actions|].recorded == Some(r) && trace[|actions|].serving == Up(other.record)
  {
    trace, actions := DecidedRun(r, []);
    var s5 := Next(trace[|actions|], Edit(0, other));
    ExtendRun(trace, actions, Edit(0, other));
    trace, actions := trace + [s5], actions + [Edit(0, other)];
    var s6 := Next(s5, Compose(0, Healthy));
    ExtendRun(trace, actions, Compose(0, Healthy));
    trace, actions := trace + [s6], actions + [Compose(0, Healthy)];
    ExtendRun(trace, actions, WriteState(0, Written));
    trace, actions := trace + [Next(s6, WriteState(0, Written))], actions + [WriteState(0, Written)];
  }

  /** An activator is killed during Compose, and a second one takes the lock. */
  lemma OrphanedRun(r: Record, other: Record) returns (trace: seq<State>, actions: seq<Action>)
    requires r.generation == 1 && other.generation == 1
    ensures IsRun(trace, actions)
    ensures var first, second := Release(r, InitialBootstrap), Release(other, InitialBootstrap);
      trace[|actions|] == State(None, Down, Some(1), [Failed, Trusted], [first, second], [BringUp(r)], [])
  {
    var first, second := Release(r, InitialBootstrap), Release(other, InitialBootstrap);
    trace, actions := DecidedRun(r, [second]);
    var s5 := Next(trace[|actions|], Kill(0));
    ExtendRun(trace, actions, Kill(0));
    trace, actions := trace + [s5], actions + [Kill(0)];
    var s6 := Next(s5, Lock(1));
    ExtendRun(trace, actions, Lock(1));
    trace, actions := trace + [s6], actions + [Lock(1)];
    ExtendRun(trace, actions, VerifyTrust(1, true));
    trace, actions := trace + [Next(s6, VerifyTrust(1, true))], actions + [VerifyTrust(1, true)];
  }

  /** The second activator decides for another release and composes it while the orphan still runs. */
  lemma OrphanRun(r: Record, other: Record) returns (trace: seq<State>, actions: seq<Action>)
    requires r.generation == 1 && other.generation == 1
    ensures IsRun(trace, actions)
    ensures var first, second := Release(r, InitialBootstrap), Release(other, InitialBootstrap);
      trace[|actions|] == State(None, Up(other), Some(1), [Failed, Composed(second, Bootstrap)],
                                [first, second], [BringUp(r)], [])
  {
    trace, actions := OrphanedRun(r, other);
    var s8 := Next(trace[|actions|], Load(1, true));
    ExtendRun(trace, actions, Load(1, true));
    trace, actions := trace + [s8], actions + [Load(1, true)];
    var s9 := Next(s8, Decide(1));
    ExtendRun(trace, actions, Decide(1));
    trace, actions := trace + [s9], actions + [Decide(1)];
    ExtendRun(trace, actions, Compose(1, Healthy));
    trace, actions := trace + [Next(s9, Compose(1, Healthy))], actions + [Compose(1, Healthy)];
  }

  /** The orphan of a killed activator replaces what a later one brought up, before that one returns normally. */
  lemma OrphanReplacesServed(r: Record, other: Record) returns (trace: seq<State>, actions: seq<Action>)
    requires r.generation == 1 && other.generation == 1
    ensures IsRun(trace, actions) && actions != [] && actions[|actions| - 1] == WriteState(1, Written)
    ensures trace[|actions|].recorded == Some(other) && trace[|actions|].serving == Up(r)
  {
    trace, actions := OrphanRun(r, other);
    var s11 := Next(trace[|actions|], OrphanEnds(0, Healthy));
    ExtendRun(trace, actions, OrphanEnds(0, Healthy));
    trace, actions := trace + [s11], actions + [OrphanEnds(0, Healthy)];
    ExtendRun(trace, actions, WriteState(1, Written));
    trace, actions := trace + [Next(s11, WriteState(1, Written))], actions + [WriteState(1, Written)];
  }
}
