/**
 The request-execution layer as a transition system.

 One state holds the process-wide admission counter, the single-flight registry, every future ever
 submitted, every audited transport attempt with its worker barrier, the counter of pending audit
 terminals, and the audit log.  Each critical section of the program is one action.  A done future
 owes its callbacks (release admission, complete, settle each barrier that tracks it) and may pay
 them in any order and at any later time: a callback added to a future that is already done runs in
 the adding thread, so no order between threads is guaranteed.
 */
module RequestModel {
  import opened Counting

  type Key = string
  type Sha256 = string
  type Value = int

  const MAX_PROCESS_REQUEST_WORKERS: nat := 8

  // ---------------------------------------------------------------- admission counter

  datatype Admission = Admission(active: nat, peak: nat, accepted: nat, rejected: nat, idle: bool)

  predicate Admits(a: Admission, limit: nat) { a.active < limit }

  function Acquire(a: Admission): Admission {
    var active := a.active + 1;
    a.(active := active,
       peak := if active > a.peak then active else a.peak,
       accepted := a.accepted + 1,
       idle := if a.active == 0 then false else a.idle)
  }

  function Reject(a: Admission): Admission { a.(rejected := a.rejected + 1) }

  /** None is the underflow error. */
  function Release(a: Admission): Option<Admission> {
    if a.active <= 0 then None
    else Some(a.(active := a.active - 1, idle := if a.active - 1 == 0 then true else a.idle))
  }

  // ---------------------------------------------------------------- pending audit terminals

  datatype PendingTerminals = PendingTerminals(active: nat, idle: bool)

  function AcquireTerminal(p: PendingTerminals): PendingTerminals {
    PendingTerminals(p.active + 1, if p.active == 0 then false else p.idle)
  }

  /** None is the underflow error. */
  function ReleaseTerminal(p: PendingTerminals): Option<PendingTerminals> {
    if p.active <= 0 then None
    else Some(PendingTerminals(p.active - 1, if p.active - 1 == 0 then true else p.idle))
  }

  // ---------------------------------------------------------------- worker barrier

  datatype Barrier = Barrier(pending: set<nat>, waiting: bool, dispatched: bool, drainRegistered: bool)

  const FreshBarrier := Barrier({}, false, false, false)

  predicate TerminalRequested(b: Barrier) { b.dispatched || b.waiting }

  datatype Tracked = AlreadyPending | Refused | Accepted(barrier: Barrier, registersDrain: bool)

  function TrackFuture(b: Barrier, future: nat): Tracked {
    if future in b.pending then AlreadyPending
    else if TerminalRequested(b) then Refused
    else Accepted(b.(pending := b.pending + {future}, drainRegistered := true), !b.drainRegistered)
  }

  /** The barrier after the request, and whether the caller must run the callback now. */
  function DeferTerminal(b: Barrier): (Barrier, bool) {
    if TerminalRequested(b) then (b, false)
    else if b.pending != {} then (b.(waiting := true), false)
    else (b.(dispatched := true), true)
  }

  /** The barrier after one worker settled, and whether the deferred callback must run now. */
  function SettleFuture(b: Barrier, future: nat): (Barrier, bool) {
    var left := b.pending - {future};
    if left == {} && b.waiting
    then (b.(pending := left, waiting := false, dispatched := true), true)
    else (b.(pending := left), false)
  }

  // ---------------------------------------------------------------- single-flight registry

  /** A callback that raises counts as one that returns false. */
  datatype Job = Job(key: Key, input: Sha256, cacheResult: Value -> bool)

  datatype Entry = Entry(input: Sha256, future: nat, cacheResult: Value -> bool, completedAt: Option<real>)

  datatype Config = Config(replayTtl: real, maxReplayEntries: nat)

  predicate ValidConfig(c: Config) { c.replayTtl > 0.0 && c.maxReplayEntries >= 1 }

  predicate Settled(e: Entry) { e.completedAt.Some? }

  predicate Expired(c: Config, e: Entry, now: real) {
    Settled(e) && now - e.completedAt.value >= c.replayTtl
  }

  function Unexpired(c: Config, entries: map<Key, Entry>, now: real): map<Key, Entry> {
    map k | k in entries && !Expired(c, entries[k], now) :: entries[k]
  }

  /** The keys a prune at `now` must keep unless the bound pushes them out: unsettled, or younger than the TTL. */
  ghost function Held(c: Config, entries: map<Key, Entry>, now: real): set<Key> {
    set k | k in entries && (entries[k].completedAt.None? || now - entries[k].completedAt.value < c.replayTtl)
  }

  /** The held keys that completed before `at`. */
  ghost function HeldBefore(c: Config, entries: map<Key, Entry>, now: real, at: real): set<Key> {
    set k | k in Held(c, entries, now) && entries[k].completedAt.Some? && entries[k].completedAt.value < at
  }

  /** A prune at `now` cannot drop what completed at `at`: it is young, and older entries fill the overflow. */
  ghost predicate Spares(c: Config, entries: map<Key, Entry>, now: real, at: real) {
    && now - at < c.replayTtl
    && |Held(c, entries, now)| - c.maxReplayEntries <= |HeldBefore(c, entries, now, at)|
  }

  /** What one prune may leave: exact up to the order of entries with equal completion times. */
  ghost predicate PruneOutcome(c: Config, entries: map<Key, Entry>, now: real, kept: map<Key, Entry>) {
    var live := Unexpired(c, entries, now);
    && kept.Keys <= live.Keys
    && (forall k :: k in kept ==> kept[k] == live[k])
    && (forall k :: k in live && !Settled(live[k]) ==> k in kept)
    && (|live| <= c.maxReplayEntries ==> kept == live)
    && (|live| > c.maxReplayEntries ==>
          || |kept| == c.maxReplayEntries
          || (|kept| > c.maxReplayEntries && forall k :: k in kept ==> !Settled(kept[k])))
    && (forall gone, k :: gone in live && gone !in kept && k in kept && Settled(live[gone]) && Settled(kept[k]) ==>
          live[gone].completedAt.value <= kept[k].completedAt.value)
  }

  datatype Disposition = Executed | Joined | Replayed

  datatype Resolution = Conflict | Hit(future: nat, disposition: Disposition) | Miss

  function Resolve(kept: map<Key, Entry>, job: Job, done: nat -> bool): Resolution {
    if job.key !in kept then Miss
    else
      var existing := kept[job.key];
      if existing.input != job.input then Conflict
      else Hit(existing.future, if done(existing.future) then Replayed else Joined)
  }

  // ---------------------------------------------------------------- futures

  datatype Outcome = Returned(value: Value) | Raised | Cancelled

  datatype Status = Queued | Running | Done(outcome: Outcome)

  /** `job` is None for work that bypasses the registry (the bounded POST path). */
  datatype Submission = Submission(owner: nat, job: Option<Job>, status: Status, releaseDue: bool, completeDue: bool)

  predicate ReleaseDue(f: Submission) { f.releaseDue }

  predicate Cacheable(e: Entry, outcome: Outcome) {
    outcome.Returned? && e.cacheResult(outcome.value)
  }

  // ---------------------------------------------------------------- transport attempts

  datatype Phase =
    | Idle
    | Looking(now: real, job: Job, limit: nat)
    | Submitting(work: Option<Job>)
    | Tracking(future: nat, disposition: Disposition)

  /** Program counter of the terminal dispatch: callback, then drop the drain flag, then the counter. */
  datatype Dispatch = NotStarted | AtCallback | AtUnregister | AtRelease | Finished

  /**
   `tracked` is every future the barrier ever accepted.  `late` records that the handler emitted an
   event or asked for work after its terminal had been requested.
   */
  datatype Request = Request(phase: Phase, barrier: Barrier, dispatch: Dispatch, exited: bool,
                             tracked: set<nat>, late: bool)

  predicate HoldsSlot(r: Request) { r.phase.Submitting? }

  predicate DrainRegistered(r: Request) { r.barrier.drainRegistered }

  predicate ReleasingDrain(r: Request) { r.dispatch.AtRelease? }

  predicate TerminalEmitted(r: Request) { r.dispatch.AtUnregister? || r.dispatch.AtRelease? || r.dispatch.Finished? }

  datatype EventKind = RequestStarted | HandlerEvent | WorkerEvent(future: nat) | RequestTerminal

  datatype Event = Event(request: nat, kind: EventKind)

  // ---------------------------------------------------------------- global state

  datatype Completion = Completion(key: Key, input: Sha256, future: nat, outcome: Outcome, accepted: bool, at: real)

  /**
   `holder` is the request inside the registry's critical section between admission and submission.
   `completions`, `evicted` and `failed` are history: every completion in order, the futures of settled
   entries that a prune dropped, and the number of refused executor submissions.
   */
  datatype State = State(
    config: Config,
    clock: real,
    admission: Admission,
    terminals: PendingTerminals,
    entries: map<Key, Entry>,
    holder: Option<nat>,
    submissions: seq<Submission>,
    requests: seq<Request>,
    log: seq<Event>,
    completions: seq<Completion>,
    evicted: set<nat>,
    failed: nat)

  predicate Initial(s: State) {
    && ValidConfig(s.config)
    && s.admission == Admission(0, 0, 0, 0, true)
    && s.terminals == PendingTerminals(0, true)
    && s.entries == map[]
    && s.holder == None
    && s.submissions == [] && s.requests == [] && s.log == []
    && s.completions == [] && s.evicted == {} && s.failed == 0
  }

  datatype Action =
    | Arrive
    | Emit(q: nat)
    | BeginBounded(q: nat, limit: nat)
    | BeginLookUp(q: nat, job: Job, limit: nat)
    | LookUp(q: nat, kept: map<Key, Entry>)
    | SubmitOk(q: nat)
    | SubmitFailed(q: nat)
    | Track(q: nat)
    | RequestTerminalNow(q: nat)
    | Exit(q: nat)
    | StartWorker(f: nat)
    | EmitFromWorker(f: nat)
    | FinishWorker(f: nat, outcome: Outcome)
    | CancelQueued(f: nat)
    | ReleaseAdmission(f: nat)
    | Complete(f: nat, kept: map<Key, Entry>)
    | Settle(q: nat, f: nat)
    | EmitTerminal(q: nat)
    | UnregisterDrain(q: nat)
    | ReleaseDrain(q: nat)
    | Tick(elapsed: real)

  predicate IsDone(s: State, f: nat) {
    f < |s.submissions| && s.submissions[f].status.Done?
  }

  predicate HandlerIdle(s: State, q: nat) {
    q < |s.requests| && !s.requests[q].exited && s.requests[q].phase.Idle?
  }

  /** Futures of settled entries that one prune dropped. */
  ghost function Dropped(entries: map<Key, Entry>, kept: map<Key, Entry>): set<nat> {
    set k | k in entries && k !in kept && Settled(entries[k]) :: entries[k].future
  }

  predicate Registered(s: State, f: nat) {
    && f < |s.submissions| && s.submissions[f].job.Some?
    && var key := s.submissions[f].job.value.key;
    && key in s.entries && s.entries[key].future == f
  }

  /** The registry a completion hands to its prune: the entry is stamped with the current clock. */
  function Stamped(s: State, f: nat): map<Key, Entry>
    requires Registered(s, f)
  {
    var key := s.submissions[f].job.value.key;
    s.entries[key := s.entries[key].(completedAt := Some(s.clock))]
  }

  predicate CompletesCacheable(s: State, f: nat)
    requires Registered(s, f) && s.submissions[f].status.Done?
  {
    Cacheable(s.entries[s.submissions[f].job.value.key], s.submissions[f].status.outcome)
  }

  ghost predicate Enabled(s: State, a: Action) {
    match a
    case Arrive => true
    case Emit(q) => HandlerIdle(s, q)
    case BeginBounded(q, limit) => HandlerIdle(s, q) && 1 <= limit <= MAX_PROCESS_REQUEST_WORKERS
    case BeginLookUp(q, _, limit) => HandlerIdle(s, q) && 1 <= limit <= MAX_PROCESS_REQUEST_WORKERS
    case LookUp(q, kept) =>
      && q < |s.requests| && s.requests[q].phase.Looking? && s.holder.None?
      && PruneOutcome(s.config, s.entries, s.requests[q].phase.now, kept)
    case SubmitOk(q) => q < |s.requests| && s.requests[q].phase.Submitting?
    case SubmitFailed(q) => q < |s.requests| && s.requests[q].phase.Submitting?
    case Track(q) => q < |s.requests| && s.requests[q].phase.Tracking?
    case RequestTerminalNow(q) => HandlerIdle(s, q)
    case Exit(q) => HandlerIdle(s, q)
    case StartWorker(f) => f < |s.submissions| && s.submissions[f].status.Queued?
    case EmitFromWorker(f) => f < |s.submissions| && s.submissions[f].status.Running?
    case FinishWorker(f, outcome) => f < |s.submissions| && s.submissions[f].status.Running? && !outcome.Cancelled?
    case CancelQueued(f) => f < |s.submissions| && s.submissions[f].status.Queued?
    case ReleaseAdmission(f) => IsDone(s, f) && s.submissions[f].releaseDue
    case Complete(f, kept) =>
      && IsDone(s, f) && s.submissions[f].completeDue && s.holder.None?
      && (Registered(s, f) && CompletesCacheable(s, f) ==>
            PruneOutcome(s.config, Stamped(s, f), s.clock, kept))
    case Settle(q, f) => q < |s.requests| && f in s.requests[q].barrier.pending && IsDone(s, f)
    case EmitTerminal(q) => q < |s.requests| && s.requests[q].dispatch.AtCallback?
    case UnregisterDrain(q) => q < |s.requests| && s.requests[q].dispatch.AtUnregister?
    case ReleaseDrain(q) => q < |s.requests| && s.requests[q].dispatch.AtRelease?
    case Tick(elapsed) => elapsed >= 0.0
  }

  // ---------------------------------------------------------------- effects

  function SetRequest(s: State, q: nat, r: Request): State
    requires q < |s.requests|
  {
    s.(requests := s.requests[q := r])
  }

  function SetSubmission(s: State, f: nat, u: Submission): State
    requires f < |s.submissions|
  {
    s.(submissions := s.submissions[f := u])
  }

  function Append(s: State, request: nat, kind: EventKind): State {
    s.(log := s.log + [Event(request, kind)])
  }

  /** A handler action taken after the terminal was requested marks the request late. */
  function MarkLate(r: Request): Request {
    r.(late := r.late || TerminalRequested(r.barrier))
  }

  function Defer(r: Request): Request {
    var (barrier, runNow) := DeferTerminal(r.barrier);
    r.(barrier := barrier, dispatch := if runNow then AtCallback else r.dispatch)
  }

  ghost function NextLookUp(s: State, q: nat, kept: map<Key, Entry>): State
    requires q < |s.requests| && s.requests[q].phase.Looking?
  {
    var r := s.requests[q];
    var job := r.phase.job;
    var pruned := s.(entries := kept, evicted := s.evicted + Dropped(s.entries, kept));
    match Resolve(kept, job, (f: nat) => IsDone(s, f))
    case Conflict => SetRequest(pruned, q, r.(phase := Idle))
    case Hit(f, disposition) => SetRequest(pruned, q, r.(phase := Tracking(f, disposition)))
    case Miss =>
      if Admits(s.admission, r.phase.limit)
      then SetRequest(pruned, q, r.(phase := Submitting(Some(job))))
           .(admission := Acquire(s.admission), holder := Some(q))
      else SetRequest(pruned, q, r.(phase := Idle)).(admission := Reject(s.admission))
  }

  function NextSubmitOk(s: State, q: nat): State
    requires q < |s.requests| && s.requests[q].phase.Submitting?
  {
    var r := s.requests[q];
    var f := |s.submissions|;
    var work := r.phase.work;
    var t := SetRequest(s, q, r.(phase := Tracking(f, Executed)))
             .(submissions := s.submissions + [Submission(q, work, Queued, true, work.Some?)]);
    if work.None? then t
    else t.(holder := None,
            entries := s.entries[work.value.key := Entry(work.value.input, f, work.value.cacheResult, None)])
  }

  function NextTrack(s: State, q: nat): State
    requires q < |s.requests| && s.requests[q].phase.Tracking?
  {
    var r := s.requests[q];
    var f := r.phase.future;
    match TrackFuture(r.barrier, f)
    case AlreadyPending => SetRequest(s, q, r.(phase := Idle))
    case Refused => SetRequest(s, q, r.(phase := Idle))
    case Accepted(barrier, registersDrain) =>
      SetRequest(s, q, r.(phase := Idle, barrier := barrier, tracked := r.tracked + {f}))
      .(terminals := if registersDrain then AcquireTerminal(s.terminals) else s.terminals)
  }

  ghost function NextComplete(s: State, f: nat, kept: map<Key, Entry>): State
    requires IsDone(s, f) && s.submissions[f].completeDue
  {
    var u := s.submissions[f];
    var t := SetSubmission(s, f, u.(completeDue := false));
    if !Registered(s, f) then t
    else
      var key := u.job.value.key;
      var accepted := CompletesCacheable(s, f);
      t.(entries := if accepted then kept else s.entries - {key},
         evicted := if accepted then s.evicted + Dropped(Stamped(s, f), kept) else s.evicted,
         completions := s.completions + [Completion(key, s.entries[key].input, f, u.status.outcome, accepted, s.clock)])
  }

  ghost function Next(s: State, a: Action): State
    requires Enabled(s, a)
  {
    match a
    case Arrive =>
      Append(s.(requests := s.requests + [Request(Idle, FreshBarrier, NotStarted, false, {}, false)]),
             |s.requests|, RequestStarted)
    case Emit(q) => Append(SetRequest(s, q, MarkLate(s.requests[q])), q, HandlerEvent)
    case BeginBounded(q, limit) =>
      var r := MarkLate(s.requests[q]);
      if Admits(s.admission, limit)
      then SetRequest(s, q, r.(phase := Submitting(None))).(admission := Acquire(s.admission))
      else SetRequest(s, q, r).(admission := Reject(s.admission))
    case BeginLookUp(q, job, limit) =>
      SetRequest(s, q, MarkLate(s.requests[q]).(phase := Looking(s.clock, job, limit)))
    case LookUp(q, kept) => NextLookUp(s, q, kept)
    case SubmitOk(q) => NextSubmitOk(s, q)
    case SubmitFailed(q) =>
      var r := s.requests[q];
      SetRequest(s, q, r.(phase := Idle))
      .(admission := Release(s.admission).GetOr(s.admission),
        holder := if r.phase.work.Some? then None else s.holder,
        failed := s.failed + 1)
    case Track(q) => NextTrack(s, q)
    case RequestTerminalNow(q) => SetRequest(s, q, Defer(s.requests[q]))
    case Exit(q) => SetRequest(s, q, Defer(s.requests[q]).(exited := true))
    case StartWorker(f) => SetSubmission(s, f, s.submissions[f].(status := Running))
    case EmitFromWorker(f) => Append(s, s.submissions[f].owner, WorkerEvent(f))
    case FinishWorker(f, outcome) => SetSubmission(s, f, s.submissions[f].(status := Done(outcome)))
    case CancelQueued(f) => SetSubmission(s, f, s.submissions[f].(status := Done(Cancelled)))
    case ReleaseAdmission(f) =>
      SetSubmission(s, f, s.submissions[f].(releaseDue := false))
      .(admission := Release(s.admission).GetOr(s.admission))
    case Complete(f, kept) => NextComplete(s, f, kept)
    case Settle(q, f) =>
      var r := s.requests[q];
      var (barrier, runNow) := SettleFuture(r.barrier, f);
      SetRequest(s, q, r.(barrier := barrier, dispatch := if runNow then AtCallback else r.dispatch))
    case EmitTerminal(q) =>
      Append(SetRequest(s, q, s.requests[q].(dispatch := AtUnregister)), q, RequestTerminal)
    case UnregisterDrain(q) =>
      var r := s.requests[q];
      SetRequest(s, q, r.(barrier := r.barrier.(drainRegistered := false),
                          dispatch := if r.barrier.drainRegistered then AtRelease else Finished))
    case ReleaseDrain(q) =>
      SetRequest(s, q, s.requests[q].(dispatch := Finished))
      .(terminals := ReleaseTerminal(s.terminals).GetOr(s.terminals))
    case Tick(elapsed) => s.(clock := s.clock + elapsed)
  }

  // ---------------------------------------------------------------- runs

  ghost predicate IsRun(trace: seq<State>, actions: seq<Action>) {
    && |trace| == |actions| + 1
    && Initial(trace[0])
    && forall i :: 0 <= i < |actions| ==> Enabled(trace[i], actions[i]) && trace[i + 1] == Next(trace[i], actions[i])
  }
}
