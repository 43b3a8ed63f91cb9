/** Safety of the manual approval protocol over every interleaving of its steps. */
module ApprovalSafety {
  import opened Common
  import opened Approval

  // ---- The two tables ----

  ghost predicate Tables(p: Provider) {
    && p.pending == p.futures
    && Distinct(p.order) && (forall id :: id in p.order <==> id in p.pending)
    && forall id :: id in p.futures ==> Entry(p, id)
  }

  ghost predicate Entry(p: Provider, id: string) {
    id in p.futures && IsWaiting(p, p.futures[id]) && p.calls[p.futures[id]].requestId == id
  }

  lemma StepTables(p: Provider, step: Step)
    requires Tables(p)
    ensures Tables(Perform(p, step))
  {
    hide Woken;
    var p' := Perform(p, step);
    if step.WakeUp? && Enabled(p, step) {
      WithoutIs(p.order, p.calls[step.call].requestId);
    }
    forall id | id in p'.futures ensures Entry(p', id) {
      if id in p.futures {
        assert Entry(p, id);
      }
    }
  }

  /** In every reachable state the two tables list the same requests, each entry being a call that still waits,
      under its own request id. */
  lemma {:induction false} TablesAgree(decider: string, steps: seq<Step>)
    ensures Tables(After(decider, steps))
  {
    if steps != [] {
      TablesAgree(decider, steps[..|steps| - 1]);
      StepTables(After(decider, steps[..|steps| - 1]), steps[|steps| - 1]);
      hide Perform, Tables;
    }
  }

  lemma {:induction false} ListingMembers(order: seq<string>, pending: map<string, nat>)
    ensures forall c :: c in Listing(order, pending) <==> exists id :: id in order && id in pending && pending[id] == c
  {
    if order != [] {
      ListingMembers(order[1..], pending);
      assert order == [order[0]] + order[1..];
    }
  }

  lemma {:induction false} ListingDistinct(p: Provider, order: seq<string>)
    requires Tables(p) && Distinct(order) && forall id :: id in order ==> id in p.pending
    ensures Distinct(Listing(order, p.pending))
  {
    if order != [] {
      var rest := order[1..];
      assert order == [order[0]] + rest && order[0] !in rest;
      ListingDistinct(p, rest);
      ListingMembers(rest, p.pending);
      forall c | c in Listing(rest, p.pending) ensures c != p.pending[order[0]] {
        var id :| id in rest && p.pending[id] == c;
        assert Entry(p, id) && Entry(p, order[0]);
      }
      ConsDistinct(p.pending[order[0]], Listing(rest, p.pending));
    }
  }

  lemma ConsDistinct(x: nat, s: seq<nat>)
    requires Distinct(s) && x !in s
    ensures Distinct([x] + s)
  {
  }

  // ---- What a call has been through ----

  datatype Happening = Told(decision: ApprovalDecision) | TimerFired | CallerCancelled

  /** What a step means to call c: a decision addressed to its table entry, its timer, its cancellation. */
  function Touch(p: Provider, step: Step, c: nat): seq<Happening> {
    match step
    case Decide(id, decision) => if id in p.futures && p.futures[id] == c then [Told(decision)] else []
    case Timeout(d) => if d == c && IsWaiting(p, c) then [TimerFired] else []
    case Cancel(d) => if d == c && IsWaiting(p, c) then [CallerCancelled] else []
    case _ => []
  }

  function Trace(decider: string, steps: seq<Step>, c: nat): seq<Happening> {
    if steps == [] then []
    else
      var before := steps[..|steps| - 1];
      Trace(decider, before, c) + Touch(After(decider, before), steps[|steps| - 1], c)
  }

  function FutureAfter(trace: seq<Happening>): Future {
    if trace == [] then Open
    else if trace[0].Told? then Resolved(trace[0].decision)
    else CancelledFuture
  }

  function InterruptAfter(trace: seq<Happening>): Interrupt {
    if CallerCancelled in trace then Cancelled
    else if TimerFired in trace then Expired
    else Running
  }

  /** How a call ends, from its trace alone: the caller's cancellation comes first, then the timer, then the first
      decision it was told. */
  ghost predicate EndsAs(trace: seq<Happening>, id: string, decider: string, status: Status, outcome: Outcome) {
    if CallerCancelled in trace then status == Pending && outcome == Raised
    else if TimerFired in trace then status == TimedOut && outcome == Returned(TimeoutDecision(id, decider))
    else
      && trace != [] && trace[0].Told?
      && status == StatusFor(trace[0].decision) && outcome == Returned(trace[0].decision)
  }

  ghost predicate Described(call: Call, trace: seq<Happening>, decider: string) {
    && call.future == FutureAfter(trace)
    && call.interrupt == InterruptAfter(trace)
    && (call.outcome == Waiting ==> call.status == Pending)
    && (call.outcome != Waiting ==> EndsAs(trace, call.requestId, decider, call.status, call.outcome))
  }

  ghost predicate Story(p: Provider, trace: seq<Happening>, c: nat, decider: string) {
    && p.decidedBy == decider
    && (if c in p.calls then Described(p.calls[c], trace, decider) else trace == [])
  }

  lemma ToldStep(call: Call, trace: seq<Happening>, decider: string, d: ApprovalDecision)
    requires Described(call, trace, decider) && call.outcome == Waiting
    ensures Described(if call.future == Open then call.(future := Resolved(d)) else call, trace + [Told(d)], decider)
  {
  }

  lemma InterruptStep(call: Call, trace: seq<Happening>, decider: string, h: Happening)
    requires Described(call, trace, decider) && call.outcome == Waiting && !h.Told?
    ensures Described(Interrupted(call, if h.TimerFired? then Expired else Cancelled), trace + [h], decider)
  {
  }

  lemma WokenStep(call: Call, trace: seq<Happening>, decider: string)
    requires Described(call, trace, decider) && call.outcome == Waiting
    requires call.interrupt != Running || call.future.Resolved?
    ensures Described(Woken(call, decider), trace, decider)
  {
  }

  lemma StoryStep(p: Provider, step: Step, trace: seq<Happening>, c: nat, decider: string)
    requires Tables(p) && Story(p, trace, c, decider)
    ensures Story(Perform(p, step), trace + Touch(p, step, c), c, decider)
  {
    assert trace + [] == trace;
    hide Described, Interrupted, Woken;
    match step {
      case Register(d, _) =>
        if d == c && c !in p.calls {
          Registered(step.id, decider);
        }
      case Decide(id, decision) =>
        if id in p.futures && p.futures[id] == c {
          assert Entry(p, id);
          ToldStep(p.calls[c], trace, decider, decision);
        }
      case Timeout(d) =>
        if d == c && IsWaiting(p, c) { InterruptStep(p.calls[c], trace, decider, TimerFired); }
      case Cancel(d) =>
        if d == c && IsWaiting(p, c) { InterruptStep(p.calls[c], trace, decider, CallerCancelled); }
      case WakeUp(d) =>
        if d == c && Enabled(p, step) { WokenStep(p.calls[c], trace, decider); }
    }
  }

  lemma Registered(id: string, decider: string)
    ensures Described(Call(id, Pending, Open, Running, Waiting), [], decider)
  {
  }

  lemma {:induction false} EveryStory(decider: string, steps: seq<Step>, c: nat)
    ensures Story(After(decider, steps), Trace(decider, steps, c), c, decider)
  {
    if steps != [] {
      var before := steps[..|steps| - 1];
      EveryStory(decider, before, c);
      TablesAgree(decider, before);
      StoryStep(After(decider, before), steps[|steps| - 1], Trace(decider, before, c), c, decider);
      hide Perform, Story, Touch, Tables;
    }
  }

  /** A manual call returns an approval only when the first thing that ever happened to it was that very decision
      and neither its timer nor its caller stopped it before it woke up. */
  lemma ApprovalSafe(decider: string, steps: seq<Step>, c: nat)
    requires c in After(decider, steps).calls
    ensures var call, trace := After(decider, steps).calls[c], Trace(decider, steps, c);
            call.outcome.Returned? && call.outcome.decision.approved ==>
              && trace != [] && trace[0] == Told(call.outcome.decision)
              && TimerFired !in trace && CallerCancelled !in trace
              && call.status == Approved
  {
    EveryStory(decider, steps, c);
    hide After, Trace;
  }

  /** A call that returned has the status that matches its decision; it timed out exactly when its timer fired while
      it waited, even if a decision had already been delivered, and no other call denies on its own account. A timeout
      is a refusal, for this request and in the provider's name. */
  lemma ReturnedStatus(decider: string, steps: seq<Step>, c: nat)
    requires c in After(decider, steps).calls && After(decider, steps).calls[c].outcome.Returned?
    ensures var call, trace := After(decider, steps).calls[c], Trace(decider, steps, c);
            var decision := call.outcome.decision;
            && (call.status == TimedOut <==> TimerFired in trace)
            && (call.status == Approved <==> TimerFired !in trace && decision.approved)
            && (call.status == Denied <==> TimerFired !in trace && !decision.approved)
            && (call.status == TimedOut ==>
                  decision == ApprovalDecision(call.requestId, false, decider, Some("timed out")))
            && (call.status != TimedOut ==> trace != [] && trace[0] == Told(decision))
  {
    EveryStory(decider, steps, c);
    hide After, Trace;
  }

  /** The modes that do not wait. Approving wins over denying and both over the callback, whose own decision comes
      back with the status that matches it; a call waits exactly when none of the three is set. */
  lemma ImmediateReply(autoApprove: bool, autoDeny: bool, callback: Option<string -> ApprovalDecision>, id: string,
                       decider: string)
    ensures var reply := Immediate(ModeOf(autoApprove, autoDeny, callback), id, decider);
            && (reply.None? <==> !autoApprove && !autoDeny && callback.None?)
            && (reply.Some? ==>
                  var decision, status := reply.value.decision, reply.value.status;
                  && (status == Approved <==> decision.approved) && (status == Denied <==> !decision.approved)
                  && (autoApprove ==> decision == ApprovalDecision(id, true, decider, Some("auto-approved")))
                  && (!autoApprove && autoDeny ==>
                        decision == ApprovalDecision(id, false, decider, Some("auto-denied")))
                  && (!autoApprove && !autoDeny ==> callback.Some? && decision == callback.value(id)))
  {
  }

  /** Only the wake-up of a call takes its status out of PENDING, and it is never changed again. */
  lemma StatusOnce(decider: string, steps: seq<Step>, step: Step, c: nat)
    requires c in After(decider, steps).calls
    ensures var p := After(decider, steps); var p' := Perform(p, step);
            && c in p'.calls
            && (p'.calls[c].status != p.calls[c].status ==>
                  p.calls[c].status == Pending && step == WakeUp(c) && p'.calls[c].outcome.Returned?)
            && (p.calls[c].outcome != Waiting ==> p'.calls[c] == p.calls[c])
  {
    EveryStory(decider, steps, c);
    TablesAgree(decider, steps);
    var p := After(decider, steps);
    if step.Decide? && step.id in p.futures {
      assert Entry(p, step.id);
    }
    hide After, Trace;
  }

  /** A decision changes the state exactly when it finds an open future under its request id: an unknown request, a
      second decision and a decision after the timer all change nothing. */
  lemma DecisionChangesIff(decider: string, steps: seq<Step>, id: string, decision: ApprovalDecision)
    ensures var p := After(decider, steps);
            Perform(p, Decide(id, decision)) != p <==> exists c :: Reaches(p, id, c)
  {
    var p := After(decider, steps);
    if id in p.futures && Reaches(p, id, p.futures[id]) {
      var c := p.futures[id];
      assert Perform(p, Decide(id, decision)).calls[c].future != p.calls[c].future;
    }
    hide After;
  }

  // ---- Who can still be decided ----

  /** Since call c was registered no other call was registered or woke up under its request id. */
  ghost predicate Undisturbed(decider: string, steps: seq<Step>, c: nat) {
    steps != [] &&
      var before, step := steps[..|steps| - 1], steps[|steps| - 1];
      var p := After(decider, before);
      if Enabled(p, step) && step.Register? && step.call == c then true
      else if c in p.calls && Enabled(p, step) && Disturbs(p, step, p.calls[c].requestId) then false
      else Undisturbed(decider, before, c)
  }

  ghost predicate Disturbs(p: Provider, step: Step, id: string)
    requires Enabled(p, step)
  {
    (step.Register? && step.id == id) || (step.WakeUp? && p.calls[step.call].requestId == id)
  }

  ghost predicate InTable(p: Provider, c: nat) {
    c in p.calls && p.calls[c].requestId in p.futures && p.futures[p.calls[c].requestId] == c
  }

  /** A call is in the tables, so that `list_pending` shows it and `decide` can reach it, exactly when it has been
      undisturbed: a second call under the same id, or the end of an earlier one, takes it out for good. */
  lemma {:induction false} InTableIff(decider: string, steps: seq<Step>, c: nat)
    ensures InTable(After(decider, steps), c) <==> Undisturbed(decider, steps, c)
  {
    if steps != [] {
      var before, step := steps[..|steps| - 1], steps[|steps| - 1];
      InTableIff(decider, before, c);
      TablesAgree(decider, before);
      InTableStep(After(decider, before), step, c);
      hide Perform, InTable, Tables, Disturbs;
    }
  }

  lemma InTableStep(p: Provider, step: Step, c: nat)
    requires Tables(p)
    ensures InTable(Perform(p, step), c)
       <==> (Enabled(p, step) && step.Register? && step.call == c)
            || (InTable(p, c) && !(Enabled(p, step) && Disturbs(p, step, p.calls[c].requestId)))
  {
    hide Interrupted;
    if step.WakeUp? && Enabled(p, step) {
      WokenKeepsId(p.calls[step.call], p.decidedBy);
    }
    forall d: Call, r: Interrupt ensures Interrupted(d, r).requestId == d.requestId {
      InterruptedKeepsId(d, r);
    }
    hide Woken;
  }

  lemma WokenKeepsId(call: Call, decider: string)
    ensures Woken(call, decider).requestId == call.requestId
  {
  }

  lemma InterruptedKeepsId(call: Call, reason: Interrupt)
    ensures Interrupted(call, reason).requestId == call.requestId
  {
  }

  /** No request id is registered while a call under it is still in the table. */
  ghost predicate FreshIds(decider: string, steps: seq<Step>) {
    steps == [] ||
      var before, step := steps[..|steps| - 1], steps[|steps| - 1];
      && FreshIds(decider, before)
      && (step.Register? ==> step.id !in After(decider, before).pending)
  }

  /** With fresh ids the table holds exactly the waiting calls: each can be decided until its future is done. */
  lemma {:induction false} WaitingIffListed(decider: string, steps: seq<Step>, c: nat)
    requires FreshIds(decider, steps)
    ensures IsWaiting(After(decider, steps), c) <==> InTable(After(decider, steps), c)
  {
    if steps != [] {
      var before, step := steps[..|steps| - 1], steps[|steps| - 1];
      var p := After(decider, before);
      WaitingIffListed(decider, before, c);
      TablesAgree(decider, before);
      if step.WakeUp? && Enabled(p, step) {
        WaitingIffListed(decider, before, step.call);
      }
      ListedStep(p, step, c);
      hide Perform, InTable, Tables, IsWaiting;
    }
  }

  /** So `list_pending` answers the waiting calls, each once. */
  lemma PendingIsWaiting(decider: string, steps: seq<Step>)
    requires FreshIds(decider, steps)
    ensures var p := After(decider, steps);
            && Distinct(Listing(p.order, p.pending))
            && forall c :: c in Listing(p.order, p.pending) <==> IsWaiting(p, c)
  {
    hide After, FreshIds, Listing, Distinct;
    var p := After(decider, steps);
    TablesAgree(decider, steps);
    TablesOrder(p);
    ListingDistinct(p, p.order);
    ListingMembers(p.order, p.pending);
    forall c: nat ensures c in Listing(p.order, p.pending) <==> IsWaiting(p, c) {
      WaitingIffListed(decider, steps, c);
      if c in Listing(p.order, p.pending) {
        var id :| id in p.order && id in p.pending && p.pending[id] == c;
        assert Entry(p, id);
      }
    }
  }

  lemma {:induction false} ListingAppends(order: seq<string>, pending: map<string, nat>, id: string, c: nat)
    requires id !in order
    ensures Listing(order + [id], pending[id := c]) == Listing(order, pending) + [c]
  {
    if order == [] {
      assert order + [id] == [id];
    } else {
      assert (order + [id])[1..] == order[1..] + [id];
      ListingAppends(order[1..], pending, id, c);
    }
  }

  lemma {:induction false} ListingDrops(p: Provider, order: seq<string>, id: string)
    requires Tables(p) && id in p.pending && forall k :: k in order ==> k in p.pending
    ensures Listing(Without(order, id), p.pending - {id}) == Without(Listing(order, p.pending), p.pending[id])
  {
    if order != [] {
      ListingDrops(p, order[1..], id);
      assert Entry(p, order[0]) && Entry(p, id);
      var rest := Without(order[1..], id);
      assert ([order[0]] + rest)[1..] == rest;
      assert ([p.pending[order[0]]] + Listing(order[1..], p.pending))[1..] == Listing(order[1..], p.pending);
    }
  }

  /** `list_pending` keeps the order of registration: a call that starts waiting goes last, one that wakes up is taken
      out where it is, and nothing else moves. */
  lemma PendingInOrder(decider: string, steps: seq<Step>, step: Step)
    requires FreshIds(decider, steps + [step])
    ensures var p := After(decider, steps);
            var p' := Perform(p, step);
            var listed, listed' := Listing(p.order, p.pending), Listing(p'.order, p'.pending);
            if Enabled(p, step) && step.Register? then listed' == listed + [step.call]
            else if Enabled(p, step) && step.WakeUp? then listed' == Without(listed, step.call)
            else listed' == listed
  {
    var p := After(decider, steps);
    assert (steps + [step])[..|steps|] == steps;
    TablesAgree(decider, steps);
    TablesOrder(p);
    hide After, Listing, Woken, Interrupted;
    if Enabled(p, step) {
      if step.Register? {
        ListingAppends(p.order, p.pending, step.id, step.call);
      } else if step.WakeUp? {
        WaitingIffListed(decider, steps, step.call);
        ListingDrops(p, p.order, p.calls[step.call].requestId);
      }
    }
  }

  lemma TablesOrder(p: Provider)
    requires Tables(p)
    ensures Distinct(p.order) && forall id :: id in p.order <==> id in p.pending
  {
  }

  lemma ListedStep(p: Provider, step: Step, c: nat)
    requires Tables(p) && (IsWaiting(p, c) <==> InTable(p, c))
    requires step.Register? ==> step.id !in p.pending
    requires step.WakeUp? && Enabled(p, step) ==> InTable(p, step.call)
    ensures IsWaiting(Perform(p, step), c) <==> InTable(Perform(p, step), c)
  {
    InTableStep(p, step, c);
    WaitingStep(p, step, c);
    hide Perform;
  }

  lemma WaitingStep(p: Provider, step: Step, c: nat)
    requires Tables(p)
    ensures IsWaiting(Perform(p, step), c)
       <==> (Enabled(p, step) && step.Register? && step.call == c)
            || (IsWaiting(p, c) && !(Enabled(p, step) && step == WakeUp(c)))
  {
  }

  /** With fresh ids, deciding a waiting call that nothing has happened to makes it return that decision when it
      wakes up. */
  lemma DecisionTakesEffect(decider: string, steps: seq<Step>, c: nat, decision: ApprovalDecision)
    requires FreshIds(decider, steps) && IsWaiting(After(decider, steps), c)
    requires Trace(decider, steps, c) == []
    ensures var p := After(decider, steps);
            var woken := Perform(Perform(p, Decide(p.calls[c].requestId, decision)), WakeUp(c));
            woken.calls[c].outcome == Returned(decision) && woken.calls[c].status == StatusFor(decision)
  {
    WaitingIffListed(decider, steps, c);
    EveryStory(decider, steps, c);
    hide After, Trace, FreshIds;
  }

  /** Two calls at once under one id: when the first ends, the second is no longer listed, and the approval meant for
      it changes nothing. */
  lemma ReusedIdIsLost(decider: string, decision: ApprovalDecision)
    ensures var p := After(decider, [Register(0, "r"), Register(1, "r"), Timeout(0), WakeUp(0)]);
            && IsWaiting(p, 1) && Listing(p.order, p.pending) == []
            && Perform(p, Decide("r", decision)) == p
  {
    var steps := [Register(0, "r"), Register(1, "r"), Timeout(0), WakeUp(0)];
    assert steps[..3] == [Register(0, "r"), Register(1, "r"), Timeout(0)];
    assert steps[..3][..2] == [Register(0, "r"), Register(1, "r")];
    assert steps[..3][..2][..1] == [Register(0, "r")];
    assert steps[..3][..2][..1][..0] == [];
    assert After(decider, steps[..3][..2][..1]).calls.Keys == {0};
    assert After(decider, steps[..3][..2]).calls.Keys == {0, 1};
    assert After(decider, steps[..3]).calls[0].interrupt == Expired;
    assert After(decider, steps[..3]).order == ["r"] && ["r"][1..] == [];
    var p := After(decider, steps);
    assert p.pending == map[] && p.futures == map[] && p.order == [];
  }
}
