/**
 The remediation run directory.  Every append names the events it expects, so the model lets any process
 attempt any of the five appends at any time, which includes all interleavings of prepare, run, failure
 recording and verify with crashes anywhere.
 */
module Remediation {
  import opened Counting
  import opened ReceiptChain

  const P: Option<string> := Some("remediation_prepared")
  const S: Option<string> := Some("remediation_run_started")
  const C: Option<string> := Some("remediation_run_completed")
  const F: Option<string> := Some("remediation_run_failed")
  const V: Option<string> := Some("remediation_verified")

  datatype Edge = Prepare | Start | Complete | Fail | Verify {
    function Expects(): seq<Option<string>> {
      match this
      case Prepare => []
      case Start => [P]
      case Complete => [P, S]
      case Fail => [P, S]
      case Verify => [P, S, C]
    }

    function Event(): string {
      match this
      case Prepare => P.value
      case Start => S.value
      case Complete => C.value
      case Fail => F.value
      case Verify => V.value
    }
  }

  /** `succeeded` lists the attempts that wrote their entry. */
  datatype State = State(log: Option<seq<Entry>>, succeeded: seq<Edge>)

  datatype Attempt = Attempt(edge: Edge, rest: map<string, string>, interrupted: bool)

  /** Prepare creates the log exclusively; the others need it and its exact events. */
  predicate Writes(s: State, a: Attempt) {
    && !a.interrupted
    && if a.edge.Prepare? then s.log.None? else s.log.Some? && Events(s.log.value) == a.edge.Expects()
  }

  function Next(s: State, a: Attempt): State {
    if !Writes(s, a) then s
    else
      var entries := s.log.GetOr([]);
      State(Some(entries + [NextEntry(entries, a.edge.Event(), a.rest)]), s.succeeded + [a.edge])
  }

  ghost function After(attempts: seq<Attempt>): State {
    if attempts == [] then State(None, [])
    else Next(After(attempts[..|attempts| - 1]), attempts[|attempts| - 1])
  }

  predicate InLanguage(events: seq<Option<string>>) {
    events == [P] || events == [P, S] || events == [P, S, C] || events == [P, S, F] || events == [P, S, C, V]
  }

  function EventsOf(edges: seq<Edge>): seq<Option<string>> {
    seq(|edges|, i requires 0 <= i < |edges| => Some(edges[i].Event()))
  }

  /**
   After any attempts whatsoever the log, if there is one, is a valid chain spelling prepared, started, then
   completed and perhaps verified, or failed; and each entry was written by the one attempt that succeeded.
   */
  lemma {:induction false} RemediationIsSingleUse(attempts: seq<Attempt>)
    ensures var s := After(attempts);
            && (s.log.None? <==> s.succeeded == [])
            && (s.log.Some? ==> ValidLog(s.log.value) && InLanguage(Events(s.log.value))
                                && Events(s.log.value) == EventsOf(s.succeeded))
  {
    if attempts != [] {
      var n := |attempts| - 1;
      RemediationIsSingleUse(attempts[..n]);
      var s := After(attempts[..n]);
      AppendKeepsChain(s.log.GetOr([]), attempts[n].edge.Event(), attempts[n].rest);
      assert s.log.Some? ==> s.log.value != [];
    }
  }

  function EventsIn(s: State): seq<Option<string>> { if s.log.Some? then Events(s.log.value) else [] }

  /** The event an attempt may append, and the events it must find. */
  predicate Appends(before: seq<Option<string>>, edge: Edge, event: string) {
    match edge
    case Prepare => before == [] && event == "remediation_prepared"
    case Start => before == [Some("remediation_prepared")] && event == "remediation_run_started"
    case Complete =>
      && before == [Some("remediation_prepared"), Some("remediation_run_started")]
      && event == "remediation_run_completed"
    case Fail =>
      && before == [Some("remediation_prepared"), Some("remediation_run_started")]
      && event == "remediation_run_failed"
    case Verify =>
      && before == [Some("remediation_prepared"), Some("remediation_run_started"), Some("remediation_run_completed")]
      && event == "remediation_verified"
  }

  /**
   After any attempts, a further one appends its own event with its own payload exactly when it is not
   interrupted and finds the events it must find; otherwise it changes nothing.
   */
  lemma AttemptDecides(attempts: seq<Attempt>, a: Attempt)
    ensures var s, t := After(attempts), After(attempts + [a]);
      if exists event :: !a.interrupted && Appends(EventsIn(s), a.edge, event) then
        && t.log.Some? && t.succeeded == s.succeeded + [a.edge]
        && (exists event :: Appends(EventsIn(s), a.edge, event) && EventsIn(t) == EventsIn(s) + [Some(event)])
        && t.log.value[|t.log.value| - 1].body.rest == a.rest
      else t == s
  {
    assert (attempts + [a])[..|attempts|] == attempts;
    RemediationIsSingleUse(attempts);
    var s := After(attempts);
    AppendKeepsChain(s.log.GetOr([]), a.edge.Event(), a.rest);
    assert Writes(s, a) ==> Appends(EventsIn(s), a.edge, a.edge.Event());
    assert s.log.Some? ==> |Events(s.log.value)| == |s.log.value|;
  }

  lemma EventsDiffer(e: Edge, f: Edge)
    requires e.Event() == f.Event()
    ensures e == f
  {
  }

  lemma EventTells(edges: seq<Edge>, e: Edge)
    ensures Some(e.Event()) in EventsOf(edges) <==> e in edges
  {
    if i :| 0 <= i < |edges| && EventsOf(edges)[i] == Some(e.Event()) {
      EventsDiffer(e, edges[i]);
    }
    if i :| 0 <= i < |edges| && edges[i] == e {
      assert EventsOf(edges)[i] == Some(e.Event());
    }
  }

  /** The log says completed exactly when a completing attempt wrote it, and failed exactly when a failing one did. */
  lemma EndingTells(attempts: seq<Attempt>)
    ensures var s := After(attempts);
      && (Some("remediation_run_completed") in EventsIn(s) <==> Complete in s.succeeded)
      && (Some("remediation_run_failed") in EventsIn(s) <==> Fail in s.succeeded)
      && (Some("remediation_verified") in EventsIn(s) <==> Verify in s.succeeded)
  {
    RemediationIsSingleUse(attempts);
    var s := After(attempts);
    hide After, InLanguage;
    assert EventsIn(s) == EventsOf(s.succeeded);
    hide EventsOf, EventsIn;
    EventTells(s.succeeded, Complete);
    EventTells(s.succeeded, Fail);
    EventTells(s.succeeded, Verify);
  }

  /** Every word of the language is written by some attempts. */
  lemma EveryWordIsReached(edges: seq<Edge>) returns (attempts: seq<Attempt>)
    requires edges != [] && (edges <= [Prepare, Start, Complete, Verify] || edges <= [Prepare, Start, Fail])
    ensures After(attempts).succeeded == edges
  {
    var n := |edges| - 1;
    attempts := [];
    if n > 0 {
      attempts := EveryWordIsReached(edges[..n]);
    }
    RemediationIsSingleUse(attempts);
    assert EventsIn(After(attempts)) == EventsOf(edges[..n]) == edges[n].Expects();
    var last := Attempt(edges[n], map[], false);
    assert (attempts + [last])[..|attempts|] == attempts;
    attempts := attempts + [last];
    assert edges == edges[..n] + [edges[n]];
  }

  /** No two attempts at the same transition ever both succeed. */
  lemma EachTransitionOnce(attempts: seq<Attempt>, i: nat, j: nat)
    requires i < j < |After(attempts).succeeded|
    ensures After(attempts).succeeded[i] != After(attempts).succeeded[j]
  {
    RemediationIsSingleUse(attempts);
    var events := EventsOf(After(attempts).succeeded);
    assert events[i] == Some(After(attempts).succeeded[i].Event());
    assert events[j] == Some(After(attempts).succeeded[j].Event());
  }
}
