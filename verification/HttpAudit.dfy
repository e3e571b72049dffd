/** Which terminal the transport middleware asks for, over all the sends of one attempt. */
module HttpAudit {
  import opened Counting

  datatype AuditOutcome = Succeeded | Blocked | Failed | TimedOut

  datatype Terminal = Terminal(outcome: AuditOutcome, reasonCode: string)

  const Aborted := Terminal(Failed, "response_aborted")

  datatype Message = ResponseStart(status: Option<int>) | ResponseBody(moreBody: bool) | OtherMessage

  /** One send: whether the server took the message, and the terminal the route had marked by then. */
  datatype Send = Send(message: Message, taken: bool, marked: Option<Terminal>)

  function ByStatus(status: Option<int>): Terminal {
    if status.Some? && 200 <= status.value < 400 then Terminal(Succeeded, "response_completed")
    else if status.Some? && 400 <= status.value < 500 then Terminal(Blocked, "client_error")
    else Terminal(Failed, "response_completed")
  }

  datatype Attempt = Attempt(requested: Option<Terminal>, responseStatus: Option<int>)

  /** Only the first request counts. */
  function RequestTerminal(a: Attempt, terminal: Terminal): Attempt {
    if a.requested.Some? then a else a.(requested := Some(terminal))
  }

  function OnSend(a: Attempt, send: Send): Attempt {
    if !send.taken then RequestTerminal(a, Aborted)
    else match send.message
         case ResponseStart(status) => a.(responseStatus := status)
         case ResponseBody(moreBody) =>
           if moreBody then a else RequestTerminal(a, send.marked.GetOr(ByStatus(a.responseStatus)))
         case OtherMessage => a
  }

  /** The handler returned or raised: an attempt without a terminal is aborted. */
  function OnExit(a: Attempt): Attempt { RequestTerminal(a, Aborted) }

  class AnswerHttpAudit {
    var requested: Option<Terminal>
    var responseStatus: Option<int>

    ghost function View(): Attempt
      reads this
    {
      Attempt(requested, responseStatus)
    }

    constructor ()
      ensures View() == Attempt(None, None)
    {
      requested, responseStatus := None, None;
    }

    method Request(terminal: Terminal)
      modifies this
      ensures View() == RequestTerminal(old(View()), terminal)
    {
      if requested.Some? {
        return;
      }
      requested := Some(terminal);
    }

    /** True when the server's refusal is raised again into the handler. */
    method AuditedSend(send: Send) returns (raised: bool)
      modifies this
      ensures raised == !send.taken && View() == OnSend(old(View()), send)
    {
      if !send.taken {
        Request(Aborted);
        return true;
      }
      if send.message.ResponseStart? {
        responseStatus := send.message.status;
      }
      if send.message.ResponseBody? && !send.message.moreBody {
        var terminal := if send.marked.Some? then send.marked.value else ByStatus(responseStatus);
        Request(terminal);
      }
      return false;
    }

    method Leave()
      modifies this
      ensures View() == OnExit(old(View()))
    {
      if requested.None? {
        Request(Aborted);
      }
    }
  }

  // ---------------------------------------------------------------- whole attempts

  ghost function AfterSends(sends: seq<Send>): Attempt {
    if sends == [] then Attempt(None, None)
    else OnSend(AfterSends(sends[..|sends| - 1]), sends[|sends| - 1])
  }

  predicate Decides(send: Send) {
    !send.taken || (send.message.ResponseBody? && !send.message.moreBody)
  }

  predicate Starts(send: Send) { send.taken && send.message.ResponseStart? }

  ghost predicate LastStart(sends: seq<Send>, n: int, i: int) {
    0 <= i < n <= |sends| && Starts(sends[i]) && forall j :: i < j < n ==> !Starts(sends[j])
  }

  /** The status of the last response start the server took before position `n`; None if there was none. */
  ghost predicate StatusBefore(sends: seq<Send>, n: nat, status: Option<int>) {
    n <= |sends| &&
    ((exists i :: LastStart(sends, n, i) && sends[i].message.status == status)
     || (status == None && forall i :: 0 <= i < n ==> !Starts(sends[i])))
  }

  lemma {:induction false} StatusIsTracked(sends: seq<Send>)
    ensures StatusBefore(sends, |sends|, AfterSends(sends).responseStatus)
  {
    if sends != [] {
      var n := |sends| - 1;
      var front := sends[..n];
      StatusIsTracked(front);
      if Starts(sends[n]) {
        assert LastStart(sends, |sends|, n);
      } else {
        StatusPrefix(front, sends, n, AfterSends(front).responseStatus);
        if i :| LastStart(sends, n, i) && sends[i].message.status == AfterSends(front).responseStatus {
          assert LastStart(sends, |sends|, i);
        }
      }
    }
  }

  lemma {:induction false} UndecidedRequestsNothing(sends: seq<Send>)
    requires forall i :: 0 <= i < |sends| ==> !Decides(sends[i])
    ensures AfterSends(sends).requested == None
  {
    if sends != [] {
      UndecidedRequestsNothing(sends[..|sends| - 1]);
    }
  }

  /**
   The terminal is settled by the first refused send or first final body frame, and by nothing later:
   a refusal aborts; a final frame yields the route's mark, or the class of the last status sent.
   */
  lemma {:induction false} FirstDecisionWins(sends: seq<Send>, d: nat) returns (status: Option<int>)
    requires d < |sends| && Decides(sends[d]) && forall i :: 0 <= i < d ==> !Decides(sends[i])
    ensures StatusBefore(sends, d, status)
    ensures AfterSends(sends).requested ==
              Some(if !sends[d].taken then Aborted else sends[d].marked.GetOr(ByStatus(status)))
  {
    var n := |sends| - 1;
    var front := sends[..n];
    if d == n {
      UndecidedRequestsNothing(front);
      StatusIsTracked(front);
      status := AfterSends(front).responseStatus;
    } else {
      status := FirstDecisionWins(front, d);
    }
    StatusPrefix(front, sends, d, status);
  }

  lemma StatusPrefix(front: seq<Send>, sends: seq<Send>, n: nat, status: Option<int>)
    requires n <= |front| <= |sends| && sends[..|front|] == front && StatusBefore(front, n, status)
    ensures StatusBefore(sends, n, status)
  {
    assert forall i :: 0 <= i < |front| ==> sends[i] == front[i];
    if i :| LastStart(front, n, i) && front[i].message.status == status {
      assert LastStart(sends, n, i) && sends[i].message.status == status;
    }
  }

  /** An attempt in which nothing was decided ends aborted. */
  lemma UndecidedIsAborted(sends: seq<Send>)
    requires forall i :: 0 <= i < |sends| ==> !Decides(sends[i])
    ensures OnExit(AfterSends(sends)).requested == Some(Aborted)
  {
    UndecidedRequestsNothing(sends);
  }

  /** An unmarked success is honest: the final frame was taken, and so was a 2xx or 3xx start before it. */
  lemma UnmarkedSuccessWasDelivered(sends: seq<Send>)
    requires forall i :: 0 <= i < |sends| ==> sends[i].marked.None?
    requires OnExit(AfterSends(sends)).requested.value.outcome == Succeeded
    ensures exists d, i :: 0 <= d < |sends| && sends[d].taken && sends[d].message == ResponseBody(false)
              && LastStart(sends, d, i) && sends[i].message.status.Some?
              && 200 <= sends[i].message.status.value < 400
  {
    if forall i :: 0 <= i < |sends| ==> !Decides(sends[i]) {
      UndecidedIsAborted(sends);
    } else {
      var d := FirstDecision(sends);
      var status := FirstDecisionWins(sends, d);
      var i :| LastStart(sends, d, i) && sends[i].message.status == status;
    }
  }

  lemma {:induction false} FirstDecision(sends: seq<Send>) returns (d: nat)
    requires exists i :: 0 <= i < |sends| && Decides(sends[i])
    ensures d < |sends| && Decides(sends[d]) && forall i :: 0 <= i < d ==> !Decides(sends[i])
  {
    d := 0;
    while !Decides(sends[d])
      decreases |sends| - d
      invariant d < |sends| && forall i :: 0 <= i < d ==> !Decides(sends[i])
      invariant exists i :: d <= i < |sends| && Decides(sends[i])
    {
      d := d + 1;
    }
  }

  /**
   The terminal of a whole attempt, spelled out.  `d` is the first refused send or final body frame and `i` the
   last response start taken before it, or -1.
   */
  lemma TerminalIsDecided(sends: seq<Send>, d: nat, i: int)
    requires d < |sends| && (!sends[d].taken || sends[d].message == ResponseBody(false))
    requires forall j :: 0 <= j < d ==> sends[j].taken && sends[j].message != ResponseBody(false)
    requires -1 <= i < d && (i >= 0 ==> sends[i].message.ResponseStart?)
    requires forall j :: i < j < d ==> !sends[j].message.ResponseStart?
    ensures var status := if i < 0 then None else sends[i].message.status;
      OnExit(AfterSends(sends)).requested == Some(
        if !sends[d].taken then Terminal(Failed, "response_aborted")
        else if sends[d].marked.Some? then sends[d].marked.value
        else if status.Some? && 200 <= status.value < 400 then Terminal(Succeeded, "response_completed")
        else if status.Some? && 400 <= status.value < 500 then Terminal(Blocked, "client_error")
        else Terminal(Failed, "response_completed"))
  {
    var status := FirstDecisionWins(sends, d);
    if i >= 0 {
      assert LastStart(sends, d, i);
    }
  }

  /** Without a refused send or a final body frame the attempt ends aborted. */
  lemma NothingDecidedAborts(sends: seq<Send>)
    requires forall j :: 0 <= j < |sends| ==> sends[j].taken && sends[j].message != ResponseBody(false)
    ensures OnExit(AfterSends(sends)).requested == Some(Terminal(Failed, "response_aborted"))
  {
    UndecidedIsAborted(sends);
  }
}
