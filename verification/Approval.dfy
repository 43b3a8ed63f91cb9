/** CallbackApprovalProvider of packages/presidium/src/presidium/approval.py. A waiting call is cut at its await:
    registering, a decision, the timer, a cancellation and the wake-up are the steps that may interleave. The await
    follows `asyncio.wait_for` since Python 3.12: once the timer has fired, the call times out when it wakes up,
    whatever its future holds by then. */
module Approval {
  import opened Common

  datatype Status = Pending | Approved | Denied | TimedOut

  datatype ApprovalDecision = ApprovalDecision(
    requestId: string,
    approved: bool,
    decidedBy: string,
    reason: Option<string>)

  datatype Future = Open | Resolved(decision: ApprovalDecision) | CancelledFuture

  /** Whether the timer or the caller has asked the waiting task to stop; the caller prevails. */
  datatype Interrupt = Running | Expired | Cancelled

  datatype Outcome = Waiting | Returned(decision: ApprovalDecision) | Raised

  /** One manual call: its request's id and status, its future, and how it ended. */
  datatype Call = Call(requestId: string, status: Status, future: Future, interrupt: Interrupt, outcome: Outcome)

  /** `pending` and `futures` hold, under a request id, the call whose request and future they refer to; `order` lists
      the keys of `pending` in insertion order. */
  datatype Provider = Provider(
    decidedBy: string,
    calls: map<nat, Call>,
    order: seq<string>,
    pending: map<string, nat>,
    futures: map<string, nat>)

  datatype Step =
    | Register(call: nat, id: string)
    | Decide(id: string, decision: ApprovalDecision)
    | Timeout(call: nat)
    | Cancel(call: nat)
    | WakeUp(call: nat)

  predicate IsWaiting(p: Provider, c: nat) {
    c in p.calls && p.calls[c].outcome == Waiting
  }

  predicate Enabled(p: Provider, step: Step) {
    match step
    case Register(c, _) => c !in p.calls
    case Decide(_, _) => true
    case Timeout(c) => IsWaiting(p, c)
    case Cancel(c) => IsWaiting(p, c)
    case WakeUp(c) => IsWaiting(p, c) && (p.calls[c].interrupt != Running || p.calls[c].future.Resolved?)
  }

  /** The decision reaches a future that is not done. */
  predicate Reaches(p: Provider, id: string, c: nat) {
    id in p.futures && p.futures[id] == c && c in p.calls && p.calls[c].future == Open
  }

  function Interrupted(call: Call, reason: Interrupt): Call {
    call.(interrupt := if call.interrupt == Cancelled then Cancelled else reason,
          future := if call.future == Open then CancelledFuture else call.future)
  }

  function TimeoutDecision(id: string, decidedBy: string): ApprovalDecision {
    ApprovalDecision(id, false, decidedBy, Some("timed out"))
  }

  function StatusFor(d: ApprovalDecision): Status {
    if d.approved then Approved else Denied
  }

  function Woken(call: Call, decidedBy: string): Call {
    match call.interrupt
    case Cancelled => call.(outcome := Raised)
    case Expired => call.(status := TimedOut, outcome := Returned(TimeoutDecision(call.requestId, decidedBy)))
    case Running =>
      if call.future.Resolved? then
        call.(status := StatusFor(call.future.decision), outcome := Returned(call.future.decision))
      else call
  }

  function Perform(p: Provider, step: Step): Provider {
    if !Enabled(p, step) then p
    else
      match step
      case Register(c, id) =>
        p.(calls := p.calls[c := Call(id, Pending, Open, Running, Waiting)],
           order := if id in p.pending then p.order else p.order + [id],
           pending := p.pending[id := c], futures := p.futures[id := c])
      case Decide(id, decision) =>
        if id in p.futures && Reaches(p, id, p.futures[id]) then
          p.(calls := p.calls[p.futures[id] := p.calls[p.futures[id]].(future := Resolved(decision))])
        else p
      case Timeout(c) => p.(calls := p.calls[c := Interrupted(p.calls[c], Expired)])
      case Cancel(c) => p.(calls := p.calls[c := Interrupted(p.calls[c], Cancelled)])
      case WakeUp(c) =>
        var id := p.calls[c].requestId;
        p.(calls := p.calls[c := Woken(p.calls[c], p.decidedBy)],
           order := Without(p.order, id),
           pending := p.pending - {id}, futures := p.futures - {id})
  }

  /** The calls of the pending table, in the order of its keys. */
  function Listing(order: seq<string>, pending: map<string, nat>): seq<nat> {
    if order == [] then []
    else (if order[0] in pending then [pending[order[0]]] else []) + Listing(order[1..], pending)
  }

  function Fresh(decidedBy: string): Provider {
    Provider(decidedBy, map[], [], map[], map[])
  }

  /** The state after a list of steps; a step that is not enabled does not happen. */
  function After(decidedBy: string, steps: seq<Step>): Provider {
    if steps == [] then Fresh(decidedBy)
    else Perform(After(decidedBy, steps[..|steps| - 1]), steps[|steps| - 1])
  }

  datatype Mode = AutoApprove | AutoDeny | Callback(ask: string -> ApprovalDecision) | Manual

  datatype Reply = Reply(decision: ApprovalDecision, status: Status)

  /** The reply of the modes that do not wait. */
  function Immediate(mode: Mode, id: string, decidedBy: string): Option<Reply> {
    match mode
    case AutoApprove => Some(Reply(ApprovalDecision(id, true, decidedBy, Some("auto-approved")), Approved))
    case AutoDeny => Some(Reply(ApprovalDecision(id, false, decidedBy, Some("auto-denied")), Denied))
    case Callback(ask) => Some(Reply(ask(id), StatusFor(ask(id))))
    case Manual => None
  }

  function ModeOf(autoApprove: bool, autoDeny: bool, callback: Option<string -> ApprovalDecision>): Mode {
    if autoApprove then AutoApprove
    else if autoDeny then AutoDeny
    else if callback.Some? then Callback(callback.value)
    else Manual
  }

  class CallbackApprovalProvider {
    const autoApprove: bool
    const autoDeny: bool
    const callback: Option<string -> ApprovalDecision>
    const decidedBy: string
    var calls: map<nat, Call>
    var order: seq<string>
    var pending: map<string, nat>
    var futures: map<string, nat>

    ghost function State(): Provider
      reads this
    {
      Provider(decidedBy, calls, order, pending, futures)
    }

    ghost predicate Valid()
      reads this
    {
      && pending == futures
      && forall id :: id in futures ==> futures[id] in calls
    }

    constructor (autoApprove: bool, autoDeny: bool, callback: Option<string -> ApprovalDecision>, decidedBy: string)
      ensures Valid() && State() == Fresh(decidedBy)
      ensures this.autoApprove == autoApprove && this.autoDeny == autoDeny && this.callback == callback
    {
      this.autoApprove, this.autoDeny, this.callback, this.decidedBy := autoApprove, autoDeny, callback, decidedBy;
      calls, order, pending, futures := map[], [], map[], map[];
    }

    /** Everything up to the await: a reply, or a call registered as waiting. */
    method RequestApproval(c: nat, id: string) returns (reply: Option<Reply>)
      requires Valid() && c !in calls
      modifies this
      ensures Valid()
      ensures reply == Immediate(ModeOf(autoApprove, autoDeny, callback), id, decidedBy)
      ensures State() == if reply.Some? then old(State()) else Perform(old(State()), Register(c, id))
    {
      if autoApprove {
        return Some(Reply(ApprovalDecision(id, true, decidedBy, Some("auto-approved")), Approved));
      }
      if autoDeny {
        return Some(Reply(ApprovalDecision(id, false, decidedBy, Some("auto-denied")), Denied));
      }
      if callback.Some? {
        var decision := callback.value(id);
        return Some(Reply(decision, if decision.approved then Approved else Denied));
      }
      calls := calls[c := Call(id, Pending, Open, Running, Waiting)];
      order := if id in pending then order else order + [id];
      pending := pending[id := c];
      futures := futures[id := c];
      reply := None;
    }

    /** Everything after the await, with the `finally` that forgets the request id. */
    method Resume(c: nat)
      requires Valid() && Enabled(State(), WakeUp(c))
      modifies this
      ensures Valid()
      ensures State() == Perform(old(State()), WakeUp(c))
    {
      var call := calls[c];
      match call.interrupt {
        case Cancelled =>
          call := call.(outcome := Raised);
        case Expired =>
          call := call.(status := TimedOut);
          call := call.(outcome := Returned(ApprovalDecision(call.requestId, false, decidedBy, Some("timed out"))));
        case Running =>
          var decision := call.future.decision;
          call := call.(status := if decision.approved then Approved else Denied);
          call := call.(outcome := Returned(decision));
      }
      calls := calls[c := call];
      order := Without(order, call.requestId);
      pending := pending - {call.requestId};
      futures := futures - {call.requestId};
    }

    method ListPending() returns (waiting: seq<nat>)
      ensures waiting == Listing(order, pending)
    {
      waiting := [];
      for i := 0 to |order|
        invariant waiting + Listing(order[i..], pending) == Listing(order, pending)
      {
        assert order[i..][0] == order[i] && order[i..][1..] == order[i + 1..];
        if order[i] in pending {
          waiting := waiting + [pending[order[i]]];
        }
      }
    }

    method DecideRequest(id: string, decision: ApprovalDecision)
      requires Valid()
      modifies this`calls
      ensures Valid()
      ensures State() == Perform(old(State()), Decide(id, decision))
    {
      if id in futures {
        var c := futures[id];
        if calls[c].future == Open {
          calls := calls[c := calls[c].(future := Resolved(decision))];
        }
      }
    }
  }
}
