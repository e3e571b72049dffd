/** The ordered shutdown: request workers, then the schema shadow, then the audit sink, on one time budget. */
module Shutdown {
  import opened Counting
  import opened RuntimeStatus

  const MIN_STAGE_SECONDS := 0.000001

  function AtLeast(floor: real, x: real): real { if x < floor then floor else x }

  /**
   What the environment does during one shutdown.  A stage maps the timeout it is given to the time it takes;
   `idleDelay` passes inside the worker stage between its two waits, `startDelay` before the worker stage, and
   the others between one stage's end and the next one's start.
   */
  datatype Environment = Environment(
    startDelay: real,
    admissionIdle: bool,
    admissionWait: real -> real,
    idleDelay: real,
    terminalsIdle: bool,
    terminalsWait: real -> real,
    shadowDelay: real,
    shadowClose: real -> real,
    observer: Option<bool>,
    sinkDelay: real,
    sinkClose: real -> real,
    sink: Option<bool>)

  ghost predicate KeepsTimeout(stage: real -> real) {
    forall t :: t >= 0.0 ==> 0.0 <= stage(t) <= t
  }

  ghost predicate Timely(e: Environment) {
    && KeepsTimeout(e.admissionWait) && KeepsTimeout(e.terminalsWait)
    && KeepsTimeout(e.shadowClose) && KeepsTimeout(e.sinkClose)
    && e.startDelay >= 0.0 && e.idleDelay >= 0.0 && e.shadowDelay >= 0.0 && e.sinkDelay >= 0.0
  }

  function Delays(e: Environment): real { e.startDelay + e.idleDelay + e.shadowDelay + e.sinkDelay }

  function WorkersTook(e: Environment, timeout: real): real {
    var first := e.admissionWait(timeout);
    if !e.admissionIdle then first
    else
      var spent := first + e.idleDelay;
      spent + e.terminalsWait(AtLeast(0.0, timeout - spent))
  }

  function WorkersEnd(e: Environment, timeout: real): real { e.startDelay + WorkersTook(e, timeout) }

  function ShadowEnd(e: Environment, timeout: real): real {
    var start := WorkersEnd(e, timeout) + e.shadowDelay;
    start + e.shadowClose(AtLeast(MIN_STAGE_SECONDS, timeout - start))
  }

  function SinkEnd(e: Environment, timeout: real): real {
    var start := ShadowEnd(e, timeout) + e.sinkDelay;
    start + e.sinkClose(AtLeast(MIN_STAGE_SECONDS, timeout - start))
  }

  /** Both waits share one timeout: together they take no longer than it, apart from the delay between them. */
  lemma WaitsShareTimeout(e: Environment, timeout: real)
    requires Timely(e) && timeout >= 0.0
    ensures 0.0 <= WorkersTook(e, timeout) <= timeout + e.idleDelay
  {
    var spent := e.admissionWait(timeout) + e.idleDelay;
    var rest := AtLeast(0.0, timeout - spent);
    assert 0.0 <= e.admissionWait(timeout) <= timeout && 0.0 <= e.terminalsWait(rest) <= rest;
  }

  method WaitForRequestWorkers(e: Environment, timeout: real) returns (drained: bool, took: real)
    ensures drained <==> e.admissionIdle && e.terminalsIdle
    ensures took == WorkersTook(e, timeout)
    ensures Timely(e) && timeout >= 0.0 ==> 0.0 <= took <= timeout + e.idleDelay
  {
    if Timely(e) && timeout >= 0.0 {
      WaitsShareTimeout(e, timeout);
    }
    took := e.admissionWait(timeout);
    if !e.admissionIdle {
      return false, took;
    }
    took := took + e.idleDelay;
    took := took + e.terminalsWait(AtLeast(0.0, timeout - took));
    drained := e.terminalsIdle;
  }

  /**
   The drain reported for the audit sink is the conjunction over all three stages, and both runtimes latch
   degraded when their share of it fails.
   */
  method ShutDown(audit: AuditRuntimeState, shadow: ShadowRuntimeState, timeout: real, e: Environment)
    returns (shadowDrained: bool, auditDrained: bool, elapsed: real)
    modifies audit, shadow
    ensures elapsed == SinkEnd(e, timeout)
    ensures shadowDrained <==> e.admissionIdle && e.terminalsIdle && (shadow.present ==> e.observer == Some(true))
    ensures auditDrained <==> shadowDrained && (audit.enabled ==> e.sink == Some(true))
    ensures shadow.View() == AfterClose(old(shadow.View()), shadowDrained)
    ensures audit.View() == AfterClose(old(audit.View()), auditDrained)
  {
    var now := e.startDelay;
    var workersDrained, took := WaitForRequestWorkers(e, timeout);
    now := now + took + e.shadowDelay;
    var remaining := AtLeast(MIN_STAGE_SECONDS, timeout - now);
    var closed := shadow.Close(remaining, e.observer, workersDrained);
    shadowDrained := closed.value;
    now := now + e.shadowClose(remaining) + e.sinkDelay;
    remaining := AtLeast(MIN_STAGE_SECONDS, timeout - now);
    auditDrained := audit.Close(e.sink, shadowDrained);
    elapsed := now + e.sinkClose(remaining);
  }

  /** If every stage keeps its timeout, the whole shutdown exceeds the budget by two minimal stages and the delays. */
  lemma WithinBudget(e: Environment, timeout: real)
    requires Timely(e) && timeout > 0.0
    ensures 0.0 <= SinkEnd(e, timeout) <= timeout + 2.0 * MIN_STAGE_SECONDS + Delays(e)
  {
    WaitsShareTimeout(e, timeout);
    var shadowStart := WorkersEnd(e, timeout) + e.shadowDelay;
    var shadowShare := AtLeast(MIN_STAGE_SECONDS, timeout - shadowStart);
    assert 0.0 <= e.shadowClose(shadowShare) <= shadowShare;
    var sinkStart := ShadowEnd(e, timeout) + e.sinkDelay;
    var sinkShare := AtLeast(MIN_STAGE_SECONDS, timeout - sinkStart);
    assert 0.0 <= e.sinkClose(sinkShare) <= sinkShare;
  }

  /** The two extra minimal stages are really spent when the workers use up the budget. */
  lemma BudgetIsTight(timeout: real) returns (e: Environment)
    requires timeout > 0.0
    ensures Timely(e) && Delays(e) == 0.0
    ensures SinkEnd(e, timeout) == timeout + 2.0 * MIN_STAGE_SECONDS
  {
    var all := (t: real) => t;
    e := Environment(0.0, false, all, 0.0, false, all, 0.0, all, None, 0.0, all, None);
  }

  // ---------------------------------------------------------------- nested request timeouts

  datatype TimeoutError = InvalidTimeout | DeadlineExceeded

  /** The clamp of a nested operation's timeout to what is left of the request. */
  function RemainingTimeout(configured: real, expiresAt: Option<real>, cancelled: bool, now: real)
    : (r: Result<real, TimeoutError>)
    ensures r.Success? ==> 0.0 < r.value <= configured && (expiresAt.Some? ==> now + r.value <= expiresAt.value)
    ensures r.Success? ==> r.value == configured || (expiresAt.Some? && now + r.value == expiresAt.value)
    ensures r == Failure(InvalidTimeout) <==> configured <= 0.0
    ensures r == Failure(DeadlineExceeded) <==>
      configured > 0.0 && expiresAt.Some? && (cancelled || expiresAt.value <= now)
  {
    if configured <= 0.0 then Failure(InvalidTimeout)
    else if expiresAt.None? then Success(configured)
    else
      var remaining := AtLeast(0.0, expiresAt.value - now);
      if cancelled || remaining <= 0.0 then Failure(DeadlineExceeded)
      else Success(if configured < remaining then configured else remaining)
  }

  /** `delay` passes before the operation asks for its timeout; `take` maps the timeout to the time it takes. */
  datatype Operation = Operation(configured: real, delay: real, take: real -> real, cancelled: bool)

  ghost predicate TimelyOperations(operations: seq<Operation>) {
    forall i :: 0 <= i < |operations| ==> KeepsTimeout(operations[i].take) && operations[i].delay >= 0.0
  }

  /** When a chain of nested operations ends; a refused operation ends the chain. */
  function ChainEnd(operations: seq<Operation>, expiresAt: real, now: real): real {
    if operations == [] then now
    else
      var start := now + operations[0].delay;
      match RemainingTimeout(operations[0].configured, Some(expiresAt), operations[0].cancelled, start)
      case Failure(_) => start
      case Success(timeout) => ChainEnd(operations[1..], expiresAt, start + operations[0].take(timeout))
  }

  function TotalDelay(operations: seq<Operation>): real {
    if operations == [] then 0.0 else operations[0].delay + TotalDelay(operations[1..])
  }

  /** No chain of nested operations outlives the request's deadline by more than the time spent between them. */
  lemma {:induction false} NestedWorkMeetsDeadline(operations: seq<Operation>, expiresAt: real, now: real)
    requires TimelyOperations(operations) && now <= expiresAt
    ensures now <= ChainEnd(operations, expiresAt, now) <= expiresAt + TotalDelay(operations)
  {
    if operations != [] {
      var o := operations[0];
      var start := now + o.delay;
      DelaysAreNonnegative(operations[1..]);
      var clamp := RemainingTimeout(o.configured, Some(expiresAt), o.cancelled, start);
      if clamp.Success? {
        assert 0.0 <= o.take(clamp.value) <= clamp.value;
        NestedWorkMeetsDeadline(operations[1..], expiresAt, start + o.take(clamp.value));
      }
    }
  }

  lemma {:induction false} DelaysAreNonnegative(operations: seq<Operation>)
    requires TimelyOperations(operations)
    ensures TotalDelay(operations) >= 0.0
  {
    if operations != [] {
      DelaysAreNonnegative(operations[1..]);
    }
  }
}
