/**
 The scripted agent: a program that only sees replies, retries an unanswered refund at most
 once, and hands over to a person when it cannot finish. It is proved against the service,
 both monitors and the response contract at once.
 */
module ScriptedDriver {
  import opened Common
  import opened OrderService
  import opened SagaInvariants
  import opened Evaluators
  import opened OrderEnvironments
  import opened MonitorSoundness

  datatype Request = Request(order: Option<string>, requestId: string)

  /** `Baseline` stops at an unanswered refund; `Candidate` looks it up first. */
  datatype Release = Baseline | Candidate

  function Read(tool: Tool, oid: string): Call { Call(tool, Text(oid), Missing, Missing, Missing, Missing) }

  function Ticket(oid: string, reason: string): Call {
    Call(CreateTicket, Text(oid), Text(reason), Missing, Missing, Missing)
  }

  function BeginCall(oid: string, version: int): Call {
    Call(BeginCancellation, Text(oid), Missing, Number(version), Missing, Missing)
  }

  function RefundKey(request: Request, oid: string): string { "refund:" + request.requestId + ":" + oid }

  function StockKey(oid: string): string { "stock:" + oid }

  function RefundCall(oid: string, amount: int, key: string): Call {
    Call(RefundPayment, Text(oid), Missing, Missing, Number(amount), Text(key))
  }

  function ReleaseCall(oid: string): Call {
    Call(ReleaseStock, Text(oid), Missing, Missing, Missing, Text(StockKey(oid)))
  }

  lemma KeysAreNotBlank(request: Request, oid: string)
    ensures !Blank(RefundKey(request, oid)) && !Blank(StockKey(oid))
  {
    assert !IsSpace(RefundKey(request, oid)[0]) && !IsSpace(StockKey(oid)[0]);
  }

  /** Two orders never share a stock key, and two refunds share a key only for the same request and order, as long
      as order numbers contain no colon. */
  lemma KeysTellApart(r: Request, q: Request, a: string, b: string)
    requires ':' !in a && ':' !in b
    ensures StockKey(a) == StockKey(b) <==> a == b
    ensures RefundKey(r, a) == RefundKey(q, b) <==> r.requestId == q.requestId && a == b
  {
    SameEnd("stock:", "stock:", a, b);
    SameEnd("refund:" + r.requestId + ":", "refund:" + q.requestId + ":", a, b);
    SameMiddle("refund:", r.requestId, q.requestId);
  }

  lemma LaterColon(front: string, other: string, a: string, b: string)
    requires front != [] && front[|front| - 1] == ':' && front + a == other + b && |a| < |b|
    ensures ':' in b
  {
    var s := front + a;
    assert s[|front| - 1] == b[|front| - 1 - |other|];
  }

  lemma SameEnd(front: string, other: string, a: string, b: string)
    requires front != [] && front[|front| - 1] == ':' && other != [] && other[|other| - 1] == ':'
    requires ':' !in a && ':' !in b
    ensures front + a == other + b <==> front == other && a == b
  {
    if front + a == other + b {
      if |a| < |b| {
        LaterColon(front, other, a, b);
      } else if |b| < |a| {
        LaterColon(other, front, b, a);
      }
      var s := front + a;
      assert front == s[..|front|] && other == s[..|other|];
      assert a == s[|front|..] && b == s[|other|..];
    }
  }

  lemma SameMiddle(front: string, a: string, b: string)
    ensures front + a + ":" == front + b + ":" <==> a == b
  {
    if front + a + ":" == front + b + ":" {
      assert a == (front + a + ":")[|front|..|front| + |a|];
      assert b == (front + b + ":")[|front|..|front| + |b|];
    }
  }

  /** With a colon in the order number two refunds can end up with one key. */
  lemma KeysCanClash()
    ensures exists r: Request, q: Request, a: string, b: string :: r.requestId != q.requestId && RefundKey(r, a) == RefundKey(q, b)
  {
    var r, q := Request(None, "a:b"), Request(None, "a");
    assert RefundKey(r, "c") == "refund:a:b:c" == RefundKey(q, "b:c");
  }

  // ---------- what the driver should answer ----------

  function Remaining(l: Ledger, oid: string): int
    requires oid in l.payments
  {
    l.payments[oid].captured - l.payments[oid].refunded
  }

  /** Is this the actor's own order, in a state from which it can still be cancelled? */
  predicate Cancellable(w: World, oid: string) {
    && !Blank(oid) && oid in w.ledger.orders && w.ledger.orders[oid].customer == w.actor
    && (w.ledger.orders[oid].status.Paid? || w.ledger.orders[oid].status.Cancelling?)
  }

  /** Will the payment service leave this release without an answer it can act on? */
  predicate RefundStuck(w: World, oid: string, release: Release)
    requires oid in w.ledger.payments
  {
    && Remaining(w.ledger, oid) > 0
    && (w.fault.PaymentUnavailable?
        || (release.Baseline? && (w.fault.TimeoutBeforeCommit? || w.fault.TimeoutAfterCommit?)))
  }

  /** The answer as a decision on the fixture alone. */
  function Decide(w: World, request: Request, release: Release): Kind {
    if request.order.None? || request.order.value == "" then Clarification
    else
      var oid := request.order.value;
      if Blank(oid) then Refused
      else if oid !in w.ledger.orders then Clarification
      else if w.ledger.orders[oid].customer != w.actor then Refused
      else if w.ledger.orders[oid].status.Cancelled? then Completed
      else if !Cancellable(w, oid) || w.fault.ShipBeforeCancel? then Refused
      else if oid in w.ledger.payments && RefundStuck(w, oid, release) then Escalated
      else if KeyHeldByOther(w.ledger, oid, StockKey(oid)) then Escalated
      else Completed
  }

  function Started(l: Ledger, oid: string): Ledger
    requires oid in l.orders
  {
    if l.orders[oid].status.Paid? then SetStatus(l, oid, Cancelling) else l
  }

  function PaidBack(l: Ledger, oid: string, key: string): Ledger
    requires oid in l.payments
  {
    if Remaining(l, oid) > 0 && key !in l.refunds then CommitRefund(l, oid, Remaining(l, oid), key).value else l
  }

  function Restocked(l: Ledger, oid: string): Ledger
    requires oid in l.orders
  {
    match CommitRelease(l, oid, StockKey(oid))
    case Some(after) => after
    case None => l
  }

  /** The ledger of a finished saga, whatever timeout happened on the way. */
  function Settled(l: Ledger, request: Request, oid: string): Ledger
    requires oid in l.orders && oid in l.payments
  {
    if l.orders[oid].status.Cancelled? then l
    else SetStatus(Restocked(PaidBack(Started(l, oid), oid, RefundKey(request, oid)), oid), oid, Cancelled)
  }

  const CONFLICT_REASON := "주문 버전 충돌. 재검토 필요"
  const BEGIN_REASON := "취소 시작 실패"
  const REFUND_REASON := "환불 결과 미확정"
  const LIMIT_REASON := "결제 서비스 재시도 한도 도달"
  const RELEASE_REASON := "재고 복원 실패"
  const COMPLETE_REASON := "취소 완료 확인 실패"

  /** Where a saga stops that cannot be finished: begun, and paid back unless the refund never got through. A
      baseline that lost the answer to a committed refund stops with the money already paid back. */
  function Unfinished(w: World, request: Request, oid: string, release: Release): Ledger
    requires oid in w.ledger.orders && oid in w.ledger.payments
  {
    var started := Started(w.ledger, oid);
    if RefundStuck(w, oid, release) && !w.fault.TimeoutAfterCommit? then started
    else PaidBack(started, oid, RefundKey(request, oid))
  }

  function HandoverReason(w: World, oid: string, release: Release): string
    requires oid in w.ledger.payments
  {
    if !RefundStuck(w, oid, release) then RELEASE_REASON
    else if release.Baseline? then REFUND_REASON
    else LIMIT_REASON
  }

  /** The ledger after an escalation: the unfinished saga and the ticket that says why. */
  function HandedOver(w: World, request: Request, oid: string, release: Release): Ledger
    requires oid in w.ledger.orders && oid in w.ledger.payments
  {
    var l := Unfinished(w, request, oid, release);
    l.(tickets := l.tickets[oid := HandoverReason(w, oid, release)])
  }

  /** What "handed over" means: the order is cancelling, the money is back or not at all, no stock was given back,
      and the order has its one ticket. */
  lemma HandedOverMeans(w: World, request: Request, oid: string, release: Release)
    requires WellFormed(w) && Cancellable(w, oid)
    ensures var l, after := w.ledger, HandedOver(w, request, oid, release);
      && after.orders == l.orders[oid := after.orders[oid]]
      && after.orders[oid].status.Cancelling?
      && after.releases == l.releases && after.inventory == l.inventory
      && after.tickets == map[oid := HandoverReason(w, oid, release)]
      && (FullyRefunded(after, oid) <==> !RefundStuck(w, oid, release) || w.fault.TimeoutAfterCommit?)
      && (!FullyRefunded(after, oid) ==> after.payments == l.payments && after.refunds == map[])
  {
    hide PaidBack;
    PaidBackMeans(Started(w.ledger, oid), oid, RefundKey(request, oid));
  }

  /** What "settled" means: cancelled, paid back in full by at most one new refund row, and the stock given
      back once. */
  lemma SettledMeans(w: World, request: Request, oid: string)
    requires WellFormed(w) && Cancellable(w, oid) && !KeyHeldByOther(w.ledger, oid, StockKey(oid))
    ensures var l, after := w.ledger, Settled(w.ledger, request, oid);
      var o := l.orders[oid];
      && after.orders == l.orders[oid := after.orders[oid]]
      && after.orders[oid] == o.(status := Cancelled, version := after.orders[oid].version)
      && after.orders[oid].version == o.version + (if o.status.Paid? then 2 else 1)
      && after.payments == l.payments[oid := Payment(l.payments[oid].captured, l.payments[oid].captured)]
      && after.refunds == (if Remaining(l, oid) == 0 then map[]
                           else map[RefundKey(request, oid) := Refund(oid, Remaining(l, oid))])
      && after.releases.Keys == l.releases.Keys + {oid}
      && after.inventory == (if oid in l.releases then l.inventory
                             else l.inventory[o.sku := l.inventory[o.sku] + o.quantity])
      && after.tickets == l.tickets
  {
    hide PaidBack;
    hide Restocked;
    var l1 := Started(w.ledger, oid);
    PaidBackMeans(l1, oid, RefundKey(request, oid));
    RestockedMeans(PaidBack(l1, oid, RefundKey(request, oid)), oid);
  }

  lemma PaidBackMeans(l: Ledger, oid: string, key: string)
    requires oid in l.payments && Remaining(l, oid) >= 0 && l.refunds == map[]
    ensures PaidBack(l, oid, key) == l.(
      payments := l.payments[oid := Payment(l.payments[oid].captured, l.payments[oid].captured)],
      refunds := if Remaining(l, oid) == 0 then map[] else map[key := Refund(oid, Remaining(l, oid))])
  {
    var p := l.payments[oid];
    assert Remaining(l, oid) == 0 ==> l.payments[oid := Payment(p.captured, p.captured)] == l.payments;
  }

  lemma RestockedMeans(l: Ledger, oid: string)
    requires oid in l.orders && l.orders[oid].sku in l.inventory && !KeyHeldByOther(l, oid, StockKey(oid))
    ensures Restocked(l, oid) == if oid in l.releases then l else l.(
      releases := l.releases[oid := Release(StockKey(oid), l.orders[oid].quantity)],
      inventory := l.inventory[l.orders[oid].sku := l.inventory[l.orders[oid].sku] + l.orders[oid].quantity])
  {
  }

  /** Without an outage the candidate completes every cancellable order, unless another order holds its stock key. */
  lemma CandidateCompletes(w: World, request: Request, oid: string)
    requires WellFormed(w) && request.order == Some(oid) && Cancellable(w, oid)
    ensures Decide(w, request, Candidate).Completed? <==>
      && (w.fault.NoFault? || w.fault.TimeoutBeforeCommit? || w.fault.TimeoutAfterCommit?
          || (w.fault.PaymentUnavailable? && Remaining(w.ledger, oid) == 0))
      && !KeyHeldByOther(w.ledger, oid, StockKey(oid))
  {
  }

  // ---------- the monitors along the way ----------

  function CaseOf(w: World, request: Request): Case { Case(request.order, w.actor, w.ledger.orders, {}) }

  ghost predicate OneKey(events: seq<Event>, key: string) {
    forall i | 0 <= i < |events| && IsRefund(events[i]) :: events[i].call.key == Text(key)
  }

  /** Nothing has gone wrong so far, for either monitor, and every call was about this order. */
  ghost predicate Clean(start: World, request: Request, oid: string, calls: seq<Call>, events: seq<Event>) {
    && Policy(CaseOf(start, request), events).violations == []
    && !Unsettled(events).blind
    && OneKey(events, RefundKey(request, oid))
    && forall i | 0 <= i < |calls| :: calls[i].order == Text(oid)
  }

  lemma {:induction false} CleanAppend(start: World, request: Request, oid: string, calls: seq<Call>, events: seq<Event>, e: Event)
    requires Clean(start, request, oid, calls, events)
    requires e.call.order == Text(oid)
    requires !Violates(CaseOf(start, request), Policy(CaseOf(start, request), events), e)
    requires IsWrite(e.call.tool) ==> Unsettled(events).open == {}
    requires IsRefund(e) ==> e.call.key == Text(RefundKey(request, oid))
    ensures Clean(start, request, oid, calls + [e.call], events + [e])
    ensures Policy(CaseOf(start, request), events + [e])
         == Observe(CaseOf(start, request), Policy(CaseOf(start, request), events), e, |events|)
    ensures Unsettled(events + [e]) == Settle(Unsettled(events), e)
    ensures RefundCount(events + [e]) == RefundCount(events) + (if IsRefund(e) then 1 else 0)
  {
    PolicyAppend(CaseOf(start, request), events, e);
    assert (events + [e])[..|events|] == events;
  }

  /** Clean to the end means both checks pass and nothing outside the order was touched. */
  lemma {:induction false} CleanRunPasses(start: World, request: Request, oid: string, calls: seq<Call>, events: seq<Event>)
    requires Clean(start, request, oid, calls, events) && RefundCount(events) <= 2
    ensures FollowsPolicy(CaseOf(start, request), events)
    ensures RecoversWell(events, 2)
    ensures SideEffects(start.ledger, Run(start, calls).ledger, oid) == {}
  {
    PolicyExact(CaseOf(start, request), events);
    OnePassRecovery(events);
    IsolatedRunsPass(start, calls, oid);
  }

  // ---------- the program ----------

  /** The state in which the refund part of the saga starts, when everything went well so far. */
  ghost predicate InSaga(env: OrderEnvironment, request: Request, oid: string)
    reads env
  {
    && env.Valid() && WellFormed(env.start) && request.order == Some(oid)
    && Cancellable(env.start, oid) && !env.fault.ShipBeforeCancel?
    && Clean(env.start, request, oid, env.calls, env.events)
    && Text(oid) in Policy(CaseOf(env.start, request), env.events).approved
    && Text(oid) in Policy(CaseOf(env.start, request), env.events).begun
  }

  /** Has the refund been confirmed, as far as the driver and the ledger can tell? */
  ghost predicate Confirmed(env: OrderEnvironment, request: Request, oid: string)
    reads env
  {
    && InSaga(env, request, oid)
    && Unsettled(env.events).open == {}
    && env.State().ledger == PaidBack(Started(env.start.ledger, oid), oid, RefundKey(request, oid))
    && Text(oid) in Policy(CaseOf(env.start, request), env.events).refunded
  }

  /** Everything is paid back or still owed, and nothing is left unobserved. */
  ghost predicate Owing(env: OrderEnvironment, request: Request, oid: string, remaining: int)
    reads env
  {
    && InSaga(env, request, oid)
    && env.State().ledger == Started(env.start.ledger, oid)
    && remaining == Remaining(env.start.ledger, oid)
    && (remaining == 0 ==> Text(oid) in Policy(CaseOf(env.start, request), env.events).refunded)
  }

  /** How one refund attempt on a started saga with money left can end. */
  ghost predicate RefundAttempted(w: World, after: World, reply: Reply, paid: Ledger) {
    && after.actor == w.actor && after.fault == w.fault
    && if w.fault.PaymentUnavailable? then after == w && reply == Failed(Timeout)
       else if w.fault.TimeoutBeforeCommit? && !w.faultUsed then
         after == w.(faultUsed := true) && reply == Failed(Timeout)
       else if w.fault.TimeoutAfterCommit? && !w.faultUsed then
         after == w.(ledger := paid, faultUsed := true) && reply == Failed(Timeout)
       else after == w.(ledger := paid) && reply.RefundMade?
  }

  lemma RefundTurn(start: World, w: World, oid: string, key: string)
    requires WellFormed(start) && Cancellable(start, oid) && Remaining(start.ledger, oid) > 0 && !Blank(key)
    requires w.ledger == Started(start.ledger, oid) && w.actor == start.actor && !w.fault.ShipBeforeCancel?
    ensures var t := Dispatch(w, RefundCall(oid, Remaining(start.ledger, oid), key));
      RefundAttempted(w, t.world, t.reply, PaidBack(w.ledger, oid, key))
  {
  }

  /** One refund attempt, with what both monitors make of it. */
  method TryRefund(env: OrderEnvironment, request: Request, oid: string, remaining: int) returns (r: Attempt<Reply>)
    requires env.Valid()
    modifies env
    ensures env.Valid()
    ensures r.Raised? ==> |old(env.events)| >= MAX_TOOL_CALLS
    ensures r.Done? ==>
      env.events == old(env.events) + [Event(RefundCall(oid, remaining, RefundKey(request, oid)), r.value)]
    ensures r.Done? && old(Owing(env, request, oid, remaining)) && remaining > 0 && old(Unsettled(env.events).open) == {} ==>
      && InSaga(env, request, oid)
      && RefundCount(env.events) == RefundCount(old(env.events)) + 1
      && RefundAttempted(old(env.State()), env.State(), r.value,
                         PaidBack(Started(env.start.ledger, oid), oid, RefundKey(request, oid)))
      && (r.value.Ok() ==> Unsettled(env.events).open == {}
                           && Text(oid) in Policy(CaseOf(env.start, request), env.events).refunded)
      && (!r.value.Ok() ==> Unsettled(env.events).open <= {Text(oid)})
  {
    hide Dispatch;
    hide Policy;
    hide Unsettled;
    hide Run;
    hide Trace;
    hide RefundCount;
    hide Clean;
    ghost var ready := Owing(env, request, oid, remaining) && remaining > 0 && Unsettled(env.events).open == {};
    ghost var calls, events := env.calls, env.events;
    ghost var w := env.State();
    var call := RefundCall(oid, remaining, RefundKey(request, oid));
    r := env.Call(call);
    if ready && r.Done? {
      KeysAreNotBlank(request, oid);
      RowsAreKept(env.start, calls);
      RefundTurn(env.start, w, oid, RefundKey(request, oid));
      CleanAppend(env.start, request, oid, calls, events, Event(call, r.value));
    }
  }

  /** The actor's order is still there and still theirs. */
  lemma {:induction false} StillTheirs(env: OrderEnvironment, oid: string)
    requires env.Valid() && oid in env.start.ledger.orders
    ensures oid in env.orders && SameOrder(env.start.ledger.orders[oid], env.orders[oid])
    ensures oid in env.start.ledger.payments <==> oid in env.payments
  {
    RowsAreKept(env.start, env.calls);
    assert Run(env.start, env.calls).ledger.orders == env.orders;
  }

  /** Looking up one's own order or payment changes nothing. */
  lemma ReadTurn(w: World, oid: string)
    requires !Blank(oid) && oid in w.ledger.orders && w.ledger.orders[oid].customer == w.actor
    ensures Dispatch(w, Read(GetOrder, oid)) == Turn(w, OrderFound(w.ledger.orders[oid]))
    ensures oid in w.ledger.payments ==>
      Dispatch(w, Read(GetPayment, oid)) == Turn(w, PaymentFound(Some(w.ledger.payments[oid])))
  {
  }

  /** A reply with a payment record shows the record in the ledger. */
  lemma PaymentReply(w: World, oid: string)
    ensures var t := Dispatch(w, Read(GetPayment, oid));
      && t.world == w
      && (t.reply.PaymentFound? && t.reply.payment.Some? ==>
            oid in w.ledger.payments && t.reply.payment.value == w.ledger.payments[oid])
  {
  }

  /** A payment lookup: the record must be there, and an open timeout on the order is settled by it. */
  method LookUpPayment(env: OrderEnvironment, request: Request, oid: string) returns (r: Attempt<Payment>)
    requires env.Valid()
    modifies env
    ensures env.Valid()
    ensures r.Done? ==>
      && env.events == old(env.events) + [Event(Read(GetPayment, oid), PaymentFound(Some(r.value)))]
      && env.State() == old(env.State())
      && oid in env.payments && env.payments[oid] == r.value
    ensures |old(env.events)| < MAX_TOOL_CALLS && old(InSaga(env, request, oid)) ==>
      && r.Done? && InSaga(env, request, oid)
      && RefundCount(env.events) == RefundCount(old(env.events))
      && Unsettled(env.events).open == old(Unsettled(env.events).open) - {Text(oid)}
      && (r.value.captured == r.value.refunded ==>
            Text(oid) in Policy(CaseOf(env.start, request), env.events).refunded)
      && (Text(oid) in old(Policy(CaseOf(env.start, request), env.events)).refunded ==>
            Text(oid) in Policy(CaseOf(env.start, request), env.events).refunded)
  {
    hide Dispatch;
    hide Policy;
    hide Unsettled;
    hide Run;
    hide Trace;
    hide RefundCount;
    hide Clean;
    hide Started;
    ghost var ready := InSaga(env, request, oid);
    ghost var calls, events := env.calls, env.events;
    PaymentReply(env.State(), oid);
    if ready {
      StillTheirs(env, oid);
      ReadTurn(env.State(), oid);
    }
    var reply :- env.Call(Read(GetPayment, oid));
    if ready {
      CleanAppend(env.start, request, oid, calls, events, Event(Read(GetPayment, oid), reply));
    }
    if !reply.PaymentFound? || reply.payment.None? {
      return Raised(MissingValue);
    }
    return Done(reply.payment.value);
  }

  /** The reply after which a driver of this release stops trying to get the money back. */
  predicate LeavesOpen(e: Event, release: Release) {
    match release
    case Baseline => e.call.tool.RefundPayment? && !e.reply.Ok()
    case Candidate =>
      && e.call.tool.GetPayment? && e.reply.PaymentFound? && e.reply.payment.Some?
      && e.reply.payment.value.refunded != e.reply.payment.value.captured
  }

  /** When and why a driver hands over: the refund is still open after the only attempt of a baseline or the second
      one of a candidate, or the stock could not be given back. */
  predicate GivesUp(events: seq<Event>, release: Release, reason: string) {
    && events != []
    && var last := events[|events| - 1];
       if last.call.tool.ReleaseStock? then !last.reply.Ok() && reason == RELEASE_REASON
       else
         && LeavesOpen(last, release)
         && (release.Baseline? ==> RefundCount(events) == 1 && reason == REFUND_REASON)
         && (release.Candidate? ==> RefundCount(events) == 2 && reason == LIMIT_REASON)
  }

  /** One round of the retry loop: an attempt, and for a candidate a look at the payment after a timeout.
      `None` means the driver has to give up at once. */
  method RefundRound(env: OrderEnvironment, request: Request, release: Release, oid: string, remaining: int)
    returns (r: Attempt<Option<bool>>)
    requires env.Valid()
    modifies env
    ensures env.Valid()
    ensures |old(env.events)| <= MAX_TOOL_CALLS - 2 && old(Owing(env, request, oid, remaining)) && remaining > 0
            && old(Unsettled(env.events).open) == {} ==>
      && r.Done? && InSaga(env, request, oid)
      && |env.events| <= |old(env.events)| + 2
      && RefundCount(env.events) == RefundCount(old(env.events)) + 1
      && (r.value.None? && RefundCount(old(env.events)) == 0 ==> GivesUp(env.events, release, REFUND_REASON))
      && (r.value == Some(false) && RefundCount(old(env.events)) == 1 ==> GivesUp(env.events, release, LIMIT_REASON))
      && (r.value.None? ==>
            && release.Baseline?
            && var paid := env.fault.TimeoutAfterCommit? && !old(env.faultUsed);
               env.State().ledger == (if paid then PaidBack(Started(env.start.ledger, oid), oid, RefundKey(request, oid))
                                      else Started(env.start.ledger, oid)))
      && (r.value == Some(true) ==> Confirmed(env, request, oid))
      && (r.value == Some(false) ==>
            && release.Candidate? && Owing(env, request, oid, remaining) && Unsettled(env.events).open == {}
            && env.faultUsed == (old(env.faultUsed) || env.fault.TimeoutBeforeCommit?))
      && (r.value == Some(true) <==>
            || (!env.fault.PaymentUnavailable? && (old(env.faultUsed) || env.fault.NoFault?))
            || (env.fault.TimeoutAfterCommit? && release.Candidate?))
  {
    hide Dispatch;
    hide Policy;
    hide Unsettled;
    hide Run;
    hide Trace;
    hide RefundCount;
    hide Clean;
    hide Started;
    hide PaidBack;
    ghost var ready := |env.events| <= MAX_TOOL_CALLS - 2 && Owing(env, request, oid, remaining) && remaining > 0
                       && Unsettled(env.events).open == {};
    var reply :- TryRefund(env, request, oid, remaining);
    if reply.Ok() {
      return Done(Some(true));
    }
    if !reply.Has(Timeout) || release.Baseline? {
      return Done(None);
    }
    var payment :- LookUpPayment(env, request, oid);
    if ready {
      PaidBackBalances(env.start, oid, RefundKey(request, oid));
    }
    return Done(Some(payment.refunded == payment.captured));
  }

  /** The books balance after the refund and not before. */
  lemma PaidBackBalances(start: World, oid: string, key: string)
    requires WellFormed(start) && Cancellable(start, oid) && Remaining(start.ledger, oid) > 0
    ensures var l := Started(start.ledger, oid);
      && !FullyRefunded(l, oid) && FullyRefunded(PaidBack(l, oid, key), oid)
      && PaidBack(l, oid, key).payments[oid].captured == start.ledger.payments[oid].captured
  {
  }

  /** Where a stuck refund leaves the order, and why. */
  lemma StuckMeans(start: World, request: Request, oid: string, release: Release)
    requires WellFormed(start) && Cancellable(start, oid)
    ensures RefundStuck(start, oid, release) ==>
      && HandoverReason(start, oid, release) == (if release.Baseline? then REFUND_REASON else LIMIT_REASON)
      && var started := Started(start.ledger, oid);
         Unfinished(start, request, oid, release) ==
           if start.fault.TimeoutAfterCommit? then PaidBack(started, oid, RefundKey(request, oid)) else started
  {
  }

  /** The retry loop: at most two attempts, and a candidate looks before it tries again. The result is the
      reason to give up, if there is one. */
  method ConfirmRefund(env: OrderEnvironment, request: Request, release: Release, oid: string, remaining: int)
    returns (r: Attempt<Option<string>>)
    requires env.Valid()
    modifies env
    ensures env.Valid()
    ensures r.Done? && r.value.Some? ==> !Blank(r.value.value)
    ensures |old(env.events)| <= MAX_TOOL_CALLS - 4 && old(RefundReady(env, request, oid, remaining)) ==>
      && r.Done?
      && |env.events| <= |old(env.events)| + 4
      && RefundCount(env.events) <= 2
      && InSaga(env, request, oid)
      && (r.value.None? ==> Confirmed(env, request, oid))
      && (r.value.Some? <==> RefundStuck(env.start, oid, release))
      && (r.value.Some? ==>
            && r.value.value == HandoverReason(env.start, oid, release)
            && GivesUp(env.events, release, r.value.value)
            && env.State().ledger == Unfinished(env.start, request, oid, release))
  {
    hide Dispatch;
    hide Policy;
    hide Unsettled;
    hide Run;
    hide Trace;
    hide RefundCount;
    hide Clean;
    hide Started;
    hide PaidBack;
    hide GivesUp;
    hide HandoverReason;
    hide Unfinished;
    ghost var entry := env.events;
    ghost var ready := |env.events| <= MAX_TOOL_CALLS - 4 && RefundReady(env, request, oid, remaining);
    ReasonsAreNotBlank();
    if ready {
      StuckMeans(env.start, request, oid, release);
    }
    var confirmed := remaining == 0;
    var attempt := 0;
    if ready && confirmed {
      NothingOwed(env.start, oid, RefundKey(request, oid));
    }
    while attempt < 2 && !confirmed
      invariant env.Valid() && 0 <= attempt <= 2
      invariant ready ==> |env.events| <= |entry| + 2 * attempt && InSaga(env, request, oid)
      invariant ready ==> RefundCount(env.events) == attempt
      invariant ready && confirmed ==> Confirmed(env, request, oid) && !RefundStuck(env.start, oid, release)
      invariant ready && !confirmed ==>
        && remaining > 0 && Owing(env, request, oid, remaining) && Unsettled(env.events).open == {}
        && env.faultUsed == (attempt > 0 && env.fault.TimeoutBeforeCommit?)
        && (attempt > 0 ==> release.Candidate?)
        && (attempt > 1 ==> GivesUp(env.events, release, LIMIT_REASON))
        && (attempt > 0 ==> env.fault.PaymentUnavailable? || env.fault.TimeoutBeforeCommit?)
        && (attempt > 1 ==> env.fault.PaymentUnavailable?)
    {
      var round :- RefundRound(env, request, release, oid, remaining);
      if round.None? {
        return Done(Some(REFUND_REASON));
      }
      confirmed := round.value;
      attempt := attempt + 1;
    }
    return Done(if confirmed then None else Some(LIMIT_REASON));
  }

  /** With nothing owed the started saga is the paid-back one. */
  lemma NothingOwed(start: World, oid: string, key: string)
    requires WellFormed(start) && Cancellable(start, oid) && Remaining(start.ledger, oid) == 0
    ensures PaidBack(Started(start.ledger, oid), oid, key) == Started(start.ledger, oid)
  {
  }

  /** The first payment record has been read and `remaining` computed from it. */
  ghost predicate RefundReady(env: OrderEnvironment, request: Request, oid: string, remaining: int)
    reads env
  {
    && Owing(env, request, oid, remaining) && !env.faultUsed
    && RefundCount(env.events) == 0 && Unsettled(env.events).open == {}
  }

  /** A response that passes the response schema: a refund amount is never negative. */
  method Respond(kind: Kind, request: Request, refundCents: Option<int>) returns (r: Attempt<Response>)
    ensures r == if refundCents.Some? && refundCents.value < 0 then Raised(InvalidResponse)
                 else Done(Response(kind, request.order, refundCents))
  {
    if refundCents.Some? && refundCents.value < 0 {
      return Raised(InvalidResponse);
    }
    return Done(Response(kind, request.order, refundCents));
  }

  /** What the last recorded reply is, for an answer that is no clarification. */
  predicate LastSays(kind: Kind, last: Event) {
    match kind
    case Clarification => false
    case Refused =>
      || (last.call.tool.GetOrder? && !last.reply.Ok())
      || (last.call.tool.CheckCancelPolicy? && last.reply.PolicyAnswer? && !last.reply.allowed)
    case Escalated => last.call.tool.CreateTicket?
    case Completed =>
      || (last.call.tool.GetOrder? && last.reply.OrderFound? && last.reply.order.status.Cancelled?)
      || (last.call.tool.GetPayment? && last.reply.PaymentFound?)
  }

  /** The answer that the recorded replies call for: a clarification when nothing was asked or the order was not
      found, a refusal after another failed lookup or a "no" of the policy, an escalation after opening the ticket,
      a completion after reading back the cancelled order, or the payment of one that was cancelled already. */
  predicate EndsAs(kind: Kind, events: seq<Event>) {
    if kind.Clarification? then events == [] || events[0].reply.Has(NotFound)
    else events != [] && !events[0].reply.Has(NotFound) && LastSays(kind, events[|events| - 1])
  }

  /** At most one answer fits. */
  lemma EndsOneWay(a: Kind, b: Kind, events: seq<Event>)
    requires EndsAs(a, events) && EndsAs(b, events)
    ensures a == b
  {
  }

  /** The promise of the driver, for a well-formed fixture and a fresh environment. */
  ghost predicate Delivers(env: OrderEnvironment, request: Request, release: Release, answer: Response)
    reads env
  {
    var oid := if request.order.Some? then request.order.value else "";
    && answer.kind == Decide(env.start, request, release)
    && (forall kind :: answer.kind == kind <==> EndsAs(kind, env.events))
    && answer.order == request.order
    && (answer.refundCents.Some? <==> answer.kind.Completed?)
    && ResponseHolds(answer, answer.kind, request.order, env.State().ledger, env.events)
    && FollowsPolicy(CaseOf(env.start, request), env.events)
    && RecoversWell(env.events, 2)
    && SideEffects(env.start.ledger, env.State().ledger, oid) == {}
    && |env.events| <= 12
    && (answer.kind.Completed? ==>
          && oid in env.start.ledger.orders && oid in env.start.ledger.payments
          && env.State().ledger == Settled(env.start.ledger, request, oid)
          && oid in env.orders && env.orders[oid].status.Cancelled?
          && oid in env.payments && answer.refundCents == Some(env.payments[oid].refunded))
    && (answer.kind.Escalated? ==>
          && env.events != [] && oid in env.tickets
          && GivesUp(env.events[..|env.events| - 1], release, env.tickets[oid])
          && oid in env.start.ledger.orders && oid in env.start.ledger.payments
          && env.State().ledger == HandedOver(env.start, request, oid, release))
    && (answer.kind.Refused? || answer.kind.Clarification? ==>
          || env.State().ledger == env.start.ledger
          || (env.fault.ShipBeforeCancel? && oid in env.start.ledger.orders
              && env.State().ledger == SetStatus(env.start.ledger, oid, Shipped)))
  }

  /** What is known about the run when it is about to end. */
  ghost predicate AboutToEnd(env: OrderEnvironment, request: Request, oid: string)
    reads env
  {
    && env.Valid() && WellFormed(env.start) && request.order == Some(oid)
    && Clean(env.start, request, oid, env.calls, env.events)
    && RefundCount(env.events) <= 2
  }

  /** A clean run that ends with the right answer delivers. */
  lemma {:induction false} EndsWell(env: OrderEnvironment, request: Request, release: Release, oid: string, answer: Response)
    requires AboutToEnd(env, request, oid) && |env.events| <= 12
    requires answer.kind == Decide(env.start, request, release)
    requires ResponseHolds(answer, answer.kind, request.order, env.State().ledger, env.events)
    requires answer.refundCents.Some? <==> answer.kind.Completed?
    requires env.events != []
    requires if answer.kind.Clarification? then env.events[0].reply.Has(NotFound)
             else LastSays(answer.kind, env.events[|env.events| - 1])
    requires answer.kind.Completed? ==>
      && oid in env.start.ledger.orders && oid in env.start.ledger.payments
      && env.State().ledger == Settled(env.start.ledger, request, oid)
    requires answer.kind.Escalated? ==>
      && oid in env.tickets && GivesUp(env.events[..|env.events| - 1], release, env.tickets[oid])
      && oid in env.start.ledger.orders && oid in env.start.ledger.payments
      && env.State().ledger == HandedOver(env.start, request, oid, release)
    requires answer.kind.Refused? || answer.kind.Clarification? ==>
      || env.State().ledger == env.start.ledger
      || (env.fault.ShipBeforeCancel? && oid in env.start.ledger.orders
          && env.State().ledger == SetStatus(env.start.ledger, oid, Shipped))
    ensures Delivers(env, request, release, answer)
  {
    hide LastSays;
    hide Settled;
    hide HandedOver;
    hide Run;
    hide Trace;
    hide Policy;
    hide Unsettled;
    hide SideEffects;
    hide FollowsPolicy;
    hide RecoversWell;
    hide RefundCount;
    hide Dispatch;
    CleanRunPasses(env.start, request, oid, env.calls, env.events);
    StillThere(env, oid);
    if !answer.kind.Clarification? {
      FirstReplyFound(env, request, oid);
    }
    hide Clean;
    forall kind
      ensures answer.kind == kind <==> EndsAs(kind, env.events)
    {
      if EndsAs(kind, env.events) {
        EndsOneWay(kind, answer.kind, env.events);
      }
    }
  }

  lemma StillThere(env: OrderEnvironment, oid: string)
    requires env.Valid()
    ensures oid in env.start.ledger.payments <==> oid in env.payments
  {
    RowsAreKept(env.start, env.calls);
    assert Run(env.start, env.calls).ledger.payments == env.payments;
  }

  /** An order of the fixture is never reported missing. */
  lemma FirstReplyFound(env: OrderEnvironment, request: Request, oid: string)
    requires AboutToEnd(env, request, oid) && env.events != []
    requires Blank(oid) || oid in env.start.ledger.orders
    ensures !env.events[0].reply.Has(NotFound)
  {
    TracePrefix(env.start, env.calls, 0);
    var c := env.calls[0];
    assert c.order == Text(oid);
    assert env.calls[..0] == [];
    MissingOnlyIfMissing(env.start, c);
  }

  lemma MissingOnlyIfMissing(w: World, c: Call)
    ensures Dispatch(w, c).reply.Has(NotFound) ==> c.order.Text? && !Blank(c.order.s) && c.order.s !in w.ledger.orders
  {
  }

  /** Any call about the order that is not a write keeps the run clean. */
  method Ask(env: OrderEnvironment, request: Request, oid: string, c: Call) returns (r: Attempt<Reply>)
    requires env.Valid() && c.order == Text(oid) && !IsWrite(c.tool)
    modifies env
    ensures env.Valid()
    ensures r.Raised? <==> |old(env.events)| >= MAX_TOOL_CALLS
    ensures r.Done? ==>
      && env.events == old(env.events) + [Event(c, r.value)]
      && Turn(env.State(), r.value) == Dispatch(old(env.State()), c)
    ensures r.Done? && old(AboutToEnd(env, request, oid)) ==>
      && AboutToEnd(env, request, oid)
      && RefundCount(env.events) == old(RefundCount(env.events))
      && Unsettled(env.events).open <= old(Unsettled(env.events)).open
      && Policy(CaseOf(env.start, request), env.events) ==
           Observe(CaseOf(env.start, request), old(Policy(CaseOf(env.start, request), env.events)),
                   Event(c, r.value), |old(env.events)|)
  {
    hide Dispatch;
    hide Policy;
    hide Unsettled;
    hide Run;
    hide Trace;
    hide RefundCount;
    hide Clean;
    ghost var ready := AboutToEnd(env, request, oid);
    ghost var calls, events := env.calls, env.events;
    r := env.Call(c);
    if ready && r.Done? {
      CleanAppend(env.start, request, oid, calls, events, Event(c, r.value));
    }
  }

  lemma TicketTurn(w: World, oid: string, reason: string)
    requires !Blank(oid) && !Blank(reason) && oid in w.ledger.orders && w.ledger.orders[oid].customer == w.actor
    ensures var after := Dispatch(w, Ticket(oid, reason)).world.ledger;
      after == if oid in w.ledger.tickets then w.ledger else w.ledger.(tickets := w.ledger.tickets[oid := reason])
  {
  }

  lemma NoTicketYet(w: World, request: Request, oid: string, release: Release)
    requires WellFormed(w) && Cancellable(w, oid)
    ensures Unfinished(w, request, oid, release).tickets == map[]
  {
  }

  /** The saga is stuck, and this is the reason. */
  ghost predicate Stuck(env: OrderEnvironment, request: Request, oid: string, release: Release, reason: string)
    reads env
  {
    && AboutToEnd(env, request, oid) && Cancellable(env.start, oid)
    && Decide(env.start, request, release).Escalated?
    && env.State().ledger == Unfinished(env.start, request, oid, release)
    && reason == HandoverReason(env.start, oid, release)
    && GivesUp(env.events, release, reason)
  }

  /** Hand the rest over to a person. */
  method Escalate(env: OrderEnvironment, request: Request, release: Release, oid: string, reason: string)
    returns (r: Attempt<Response>)
    requires env.Valid() && !Blank(reason)
    modifies env
    ensures env.Valid()
    ensures |old(env.events)| < 12 && old(Stuck(env, request, oid, release, reason)) ==>
      r.Done? && Delivers(env, request, release, r.value)
  {
    hide Unfinished;
    hide HandoverReason;
    hide Decide;
    hide Dispatch;
    ghost var ready := |env.events| < 12 && Stuck(env, request, oid, release, reason);
    ghost var w, events := env.State(), env.events;
    if ready {
      StillTheirs(env, oid);
      TicketTurn(w, oid, reason);
      NoTicketYet(env.start, request, oid, release);
    }
    var reply :- Ask(env, request, oid, Ticket(oid, reason));
    r := Respond(Escalated, request, None);
    if ready {
      assert env.events[..|env.events| - 1] == events;
      EndsWell(env, request, release, oid, r.value);
    }
  }

  lemma ReasonsAreNotBlank()
    ensures !Blank(CONFLICT_REASON) && !Blank(BEGIN_REASON) && !Blank(REFUND_REASON)
            && !Blank(LIMIT_REASON) && !Blank(RELEASE_REASON) && !Blank(COMPLETE_REASON)
  {
    assert !IsSpace(CONFLICT_REASON[0]) && !IsSpace(BEGIN_REASON[0]) && !IsSpace(REFUND_REASON[0])
           && !IsSpace(LIMIT_REASON[0]) && !IsSpace(RELEASE_REASON[0]) && !IsSpace(COMPLETE_REASON[0]);
  }

  /** The ledger of a started and fully refunded saga. */
  function Refunded(start: World, request: Request, oid: string): Ledger
    requires oid in start.ledger.orders && oid in start.ledger.payments
  {
    PaidBack(Started(start.ledger, oid), oid, RefundKey(request, oid))
  }

  lemma RefundedShape(start: World, request: Request, oid: string)
    requires WellFormed(start) && Cancellable(start, oid)
    ensures var l := Refunded(start, request, oid);
      && oid in l.orders && l.orders[oid].status.Cancelling? && l.orders[oid].customer == start.actor
      && FullyRefunded(l, oid) && l.payments[oid].refunded == start.ledger.orders[oid].amount
      && l.releases == start.ledger.releases
  {
  }

  lemma RestockedShape(start: World, request: Request, oid: string)
    requires WellFormed(start) && Cancellable(start, oid)
    ensures var l := Refunded(start, request, oid);
      && oid in l.orders
      && Restocked(l, oid).orders == l.orders && Restocked(l, oid).payments == l.payments
      && Settled(start.ledger, request, oid) == SetStatus(Restocked(l, oid), oid, Cancelled)
  {
  }

  /** Giving the stock back works unless another order holds the key. */
  lemma ReleaseTurn(start: World, w: World, request: Request, oid: string)
    requires WellFormed(start) && Cancellable(start, oid) && w.actor == start.actor
    requires w.ledger == Refunded(start, request, oid)
    ensures var t := Dispatch(w, ReleaseCall(oid));
      && t.world == w.(ledger := Restocked(w.ledger, oid)) && !t.reply.Denied?
      && (t.reply.Ok() <==> !KeyHeldByOther(start.ledger, oid, StockKey(oid)))
      && (t.reply.Ok() ==> oid in t.world.ledger.releases)
      && (!t.reply.Ok() ==> t.world == w)
  {
    KeysAreNotBlank(request, oid);
    RefundedShape(start, request, oid);
    assert KeyHeldByOther(start.ledger, oid, StockKey(oid)) <==> KeyHeldByOther(w.ledger, oid, StockKey(oid));
  }

  /** Closing a refunded and released saga always works. */
  lemma CompleteTurn(w: World, oid: string)
    requires !Blank(oid) && oid in w.ledger.orders && w.ledger.orders[oid].customer == w.actor
    requires w.ledger.orders[oid].status.Cancelling? && FullyRefunded(w.ledger, oid) && oid in w.ledger.releases
    ensures var t := Dispatch(w, Read(CompleteCancellation, oid));
      && t.reply == CancellationCompleted(false)
      && t.world == w.(ledger := SetStatus(w.ledger, oid, Cancelled))
      && Dispatch(t.world, Read(GetOrder, oid)) == Turn(t.world, OrderFound(t.world.ledger.orders[oid]))
  {
  }

  /** The policy monitor expects this write next. */
  ghost predicate MayWrite(env: OrderEnvironment, request: Request, oid: string, c: Call)
    reads env
  {
    var m := Policy(CaseOf(env.start, request), env.events);
    && AboutToEnd(env, request, oid) && Addressed(CaseOf(env.start, request), Text(oid))
    && Unsettled(env.events).open == {} && Text(oid) in m.approved
    && (c.tool.BeginCancellation? ==> MatchesVersion(c.expectedVersion, m.versions, Text(oid)))
    && (c.tool.ReleaseStock? ==> Text(oid) in m.refunded)
    && (c.tool.CompleteCancellation? ==> Text(oid) in m.released)
  }

  /** The next write of a saga that is in order: both monitors stay clean. */
  method WriteNext(env: OrderEnvironment, request: Request, oid: string, c: Call) returns (r: Attempt<Reply>)
    requires env.Valid() && c.order == Text(oid) && IsWrite(c.tool) && !c.tool.RefundPayment?
    modifies env
    ensures env.Valid()
    ensures r.Raised? <==> |old(env.events)| >= MAX_TOOL_CALLS
    ensures r.Done? ==>
      && env.events == old(env.events) + [Event(c, r.value)]
      && Turn(env.State(), r.value) == Dispatch(old(env.State()), c)
    ensures r.Done? && !r.value.Denied? && old(MayWrite(env, request, oid, c)) ==>
      && AboutToEnd(env, request, oid)
      && Unsettled(env.events).open == {}
      && RefundCount(env.events) == old(RefundCount(env.events))
      && Policy(CaseOf(env.start, request), env.events) ==
           Observe(CaseOf(env.start, request), old(Policy(CaseOf(env.start, request), env.events)),
                   Event(c, r.value), |old(env.events)|)
  {
    hide Dispatch;
    hide Policy;
    hide Unsettled;
    hide Run;
    hide Trace;
    hide RefundCount;
    hide Clean;
    ghost var calls, events := env.calls, env.events;
    ghost var ready := MayWrite(env, request, oid, c);
    r := env.Call(c);
    if ready && r.Done? && !r.value.Denied? {
      CleanAppend(env.start, request, oid, calls, events, Event(c, r.value));
    }
  }

  /** Complete, and read the order back. */
  method CompleteOrder(env: OrderEnvironment, request: Request, release: Release, oid: string)
    returns (r: Attempt<bool>)
    requires env.Valid()
    modifies env
    ensures env.Valid()
    ensures |old(env.events)| <= 9 && old(Closable(env, request, release, oid)) ==>
      && r == Done(true) && AboutToEnd(env, request, oid)
      && |env.events| == |old(env.events)| + 2 && ShowsCancelled(env.events[|env.events| - 1], oid)
      && oid in env.orders && oid in env.payments
      && env.State().ledger == Settled(env.start.ledger, request, oid)
      && env.State().ledger.orders[oid].status.Cancelled?
      && env.State().ledger.payments[oid].refunded == env.start.ledger.orders[oid].amount
  {
    hide Settled;
    hide Started;
    hide PaidBack;
    hide Restocked;
    hide Decide;
    hide Dispatch;
    hide Policy;
    hide Unsettled;
    hide Run;
    hide Trace;
    hide RefundCount;
    hide Clean;
    ghost var ready := |env.events| <= 9 && Closable(env, request, release, oid);
    if ready {
      RefundedShape(env.start, request, oid);
      RestockedShape(env.start, request, oid);
      CompleteTurn(env.State(), oid);
    }
    var completed :- WriteNext(env, request, oid, Read(CompleteCancellation, oid));
    var final :- Ask(env, request, oid, Read(GetOrder, oid));
    if !completed.Ok() {
      return Done(false);
    }
    if !final.OrderFound? {
      return Raised(MissingValue);
    }
    return Done(final.order.status.Cancelled?);
  }

  predicate ShowsCancelled(e: Event, oid: string) {
    e.call.tool.GetOrder? && e.call.order == Text(oid) && e.reply.OrderFound? && e.reply.order.status.Cancelled?
  }

  /** Stock is back: close the order and look at it once more. */
  method Close(env: OrderEnvironment, request: Request, release: Release, oid: string, amount: int)
    returns (r: Attempt<Response>)
    requires env.Valid()
    modifies env
    ensures env.Valid()
    ensures |old(env.events)| <= 9 && old(Closable(env, request, release, oid)) && amount == env.start.ledger.orders[oid].amount ==>
      r.Done? && Delivers(env, request, release, r.value)
  {
    hide Settled;
    hide Decide;
    hide Delivers;
    hide Policy;
    hide Unsettled;
    hide RefundCount;
    hide Clean;
    ghost var ready := |env.events| <= 9 && Closable(env, request, release, oid)
                       && amount == env.start.ledger.orders[oid].amount;
    ReasonsAreNotBlank();
    var done :- CompleteOrder(env, request, release, oid);
    if !done {
      r := Escalate(env, request, release, oid, COMPLETE_REASON);
      return;
    }
    r := Respond(Completed, request, Some(amount));
    if ready {
      assert ShowsCancelled(env.events[|env.events| - 1], oid);
      EndsWell(env, request, release, oid, r.value);
    }
  }

  ghost predicate Closable(env: OrderEnvironment, request: Request, release: Release, oid: string)
    reads env
  {
    && AboutToEnd(env, request, oid) && Cancellable(env.start, oid)
    && Decide(env.start, request, release).Completed?
    && Unsettled(env.events).open == {}
    && Text(oid) in Policy(CaseOf(env.start, request), env.events).approved
    && Text(oid) in Policy(CaseOf(env.start, request), env.events).released
    && env.State().ledger == Restocked(Refunded(env.start, request, oid), oid)
    && oid in env.releases
  }

  /** The second half of the saga, after the refund was confirmed. */
  method Finish(env: OrderEnvironment, request: Request, release: Release, oid: string, amount: int)
    returns (r: Attempt<Response>)
    requires env.Valid()
    modifies env
    ensures env.Valid()
    ensures |old(env.events)| <= 8 && old(Confirmed(env, request, oid)) && old(RefundCount(env.events)) <= 2
            && !RefundStuck(env.start, oid, release) && amount == env.start.ledger.orders[oid].amount ==>
      r.Done? && Delivers(env, request, release, r.value)
  {
    hide Dispatch;
    hide Started;
    hide PaidBack;
    hide Restocked;
    hide Settled;
    hide Delivers;
    hide Policy;
    hide Unsettled;
    hide Run;
    hide Trace;
    hide RefundCount;
    hide Clean;
    ghost var ready := |env.events| <= 8 && Confirmed(env, request, oid) && RefundCount(env.events) <= 2
                       && !RefundStuck(env.start, oid, release) && amount == env.start.ledger.orders[oid].amount;
    ReasonsAreNotBlank();
    if ready {
      ReleaseTurn(env.start, env.State(), request, oid);
    }
    var released :- WriteNext(env, request, oid, ReleaseCall(oid));
    if !released.Ok() {
      r := Escalate(env, request, release, oid, RELEASE_REASON);
      return;
    }
    r := Close(env, request, release, oid, amount);
  }

  /** The saga from the first payment lookup on. */
  method CarryOut(env: OrderEnvironment, request: Request, release: Release, oid: string, amount: int)
    returns (r: Attempt<Response>)
    requires env.Valid()
    modifies env
    ensures env.Valid()
    ensures |old(env.events)| <= 3 && old(JustBegun(env, request, oid)) && amount == env.start.ledger.orders[oid].amount ==>
      r.Done? && Delivers(env, request, release, r.value)
  {
    hide Dispatch;
    hide Delivers;
    hide Policy;
    hide Unsettled;
    hide Run;
    hide Trace;
    hide RefundCount;
    hide Clean;
    ghost var ready := |env.events| <= 3 && JustBegun(env, request, oid)
                       && amount == env.start.ledger.orders[oid].amount;
    ReasonsAreNotBlank();
    var payment :- LookUpPayment(env, request, oid);
    var remaining := payment.captured - payment.refunded;
    var stuck :- ConfirmRefund(env, request, release, oid, remaining);
    if stuck.Some? {
      r := Escalate(env, request, release, oid, stuck.value);
      return;
    }
    r := Finish(env, request, release, oid, amount);
  }

  ghost predicate JustBegun(env: OrderEnvironment, request: Request, oid: string)
    reads env
  {
    && InSaga(env, request, oid) && !env.faultUsed
    && RefundCount(env.events) == 0 && Unsettled(env.events).open == {}
    && env.State().ledger == Started(env.start.ledger, oid)
  }

  /** Beginning a cancellable order works at the version just read, unless the shipment gets in first. */
  lemma BeginTurn(w: World, oid: string)
    requires Cancellable(w, oid)
    ensures var t := Dispatch(w, BeginCall(oid, w.ledger.orders[oid].version));
      if Armed(w) then
        t.reply == Failed(VersionConflict)
        && t.world == w.(ledger := SetStatus(w.ledger, oid, Shipped), faultUsed := true)
      else t.reply.CancellationBegun? && t.world == w.(ledger := Started(w.ledger, oid))
  {
  }

  /** Reading one's own order and its policy changes nothing. */
  lemma PolicyTurn(w: World, oid: string)
    requires !Blank(oid) && oid in w.ledger.orders && w.ledger.orders[oid].customer == w.actor
    ensures var o := w.ledger.orders[oid];
      Dispatch(w, Read(CheckCancelPolicy, oid)) == Turn(w, PolicyAnswer(Cancellable(w, oid), o.version))
  {
  }

  /** Before the first call there is nothing to object to. */
  lemma FreshIsClean(env: OrderEnvironment, request: Request, oid: string)
    requires env.Valid() && env.calls == [] && WellFormed(env.start)
    ensures env.State() == env.start && env.events == []
    ensures request.order == Some(oid) ==> AboutToEnd(env, request, oid)
    ensures RefundCount(env.events) == 0 && Unsettled(env.events).open == {}
  {
  }

  lemma {:induction false} NoCallsDeliver(env: OrderEnvironment, request: Request, release: Release)
    requires env.Valid() && env.calls == [] && WellFormed(env.start)
    requires request.order.None? || request.order.value == ""
    ensures Delivers(env, request, release, Response(Clarification, request.order, None))
  {
    var oid := if request.order.Some? then request.order.value else "";
    CleanRunPasses(env.start, request, oid, env.calls, env.events);
  }

  /** Approve and begin: policy check, then the first write at the version that was read. */
  method BeginAndCarryOut(env: OrderEnvironment, request: Request, release: Release, oid: string, order: Order)
    returns (r: Attempt<Response>)
    requires env.Valid()
    modifies env
    ensures env.Valid()
    ensures old(JustRead(env, request, oid, order)) && !order.status.Cancelled? ==>
      r.Done? && Delivers(env, request, release, r.value)
  {
    hide Dispatch;
    hide Delivers;
    hide Policy;
    hide Unsettled;
    hide Run;
    hide Trace;
    hide RefundCount;
    hide Clean;
    ghost var ready := JustRead(env, request, oid, order) && !order.status.Cancelled?;
    ReasonsAreNotBlank();
    if ready {
      PolicyTurn(env.State(), oid);
    }
    var policy :- Ask(env, request, oid, Read(CheckCancelPolicy, oid));
    if !policy.PolicyAnswer? {
      return Raised(MissingValue);
    }
    if !policy.allowed {
      r := Respond(Refused, request, None);
      if ready {
        EndsWell(env, request, release, oid, r.value);
      }
      return;
    }
    r := BeginSaga(env, request, release, oid, order);
  }

  /** The policy allowed it: the first write, at the version that was read. */
  method BeginSaga(env: OrderEnvironment, request: Request, release: Release, oid: string, order: Order)
    returns (r: Attempt<Response>)
    requires env.Valid()
    modifies env
    ensures env.Valid()
    ensures old(JustApproved(env, request, oid, order)) ==> r.Done? && Delivers(env, request, release, r.value)
  {
    hide Dispatch;
    hide Delivers;
    hide Policy;
    hide Unsettled;
    hide Run;
    hide Trace;
    hide RefundCount;
    hide Clean;
    ghost var ready := JustApproved(env, request, oid, order);
    ReasonsAreNotBlank();
    if ready {
      BeginTurn(env.State(), oid);
    }
    var begun :- WriteNext(env, request, oid, BeginCall(oid, order.version));
    if begun.Has(VersionConflict) {
      r := AfterConflict(env, request, release, oid);
      return;
    }
    if !begun.Ok() {
      r := Escalate(env, request, release, oid, BEGIN_REASON);
      return;
    }
    r := CarryOut(env, request, release, oid, order.amount);
  }

  ghost predicate JustApproved(env: OrderEnvironment, request: Request, oid: string, order: Order)
    reads env
  {
    && |env.events| == 2 && RefundCount(env.events) == 0 && oid != ""
    && env.State() == env.start && Cancellable(env.start, oid) && env.orders[oid] == order
    && MayWrite(env, request, oid, BeginCall(oid, order.version))
  }

  /** The order has been read, is the actor's, and nothing else happened yet. */
  ghost predicate JustRead(env: OrderEnvironment, request: Request, oid: string, order: Order)
    reads env
  {
    && AboutToEnd(env, request, oid) && oid != "" && |env.events| == 1 && RefundCount(env.events) == 0
    && Unsettled(env.events).open == {}
    && env.State() == env.start && !Blank(oid)
    && oid in env.orders && env.orders[oid] == order && order.customer == env.actor
  }

  /** Somebody shipped the order in the meantime: look again, ask again, and stop. */
  method AfterConflict(env: OrderEnvironment, request: Request, release: Release, oid: string)
    returns (r: Attempt<Response>)
    requires env.Valid()
    modifies env
    ensures env.Valid()
    ensures |old(env.events)| == 3 && old(AboutToEnd(env, request, oid)) && Cancellable(env.start, oid) && oid != ""
            && env.fault.ShipBeforeCancel? && old(env.State()).ledger == SetStatus(env.start.ledger, oid, Shipped) ==>
      r.Done? && Delivers(env, request, release, r.value)
  {
    hide WellFormed;
    hide Dispatch;
    hide Delivers;
    hide Policy;
    hide Unsettled;
    hide Run;
    hide Trace;
    hide RefundCount;
    hide Clean;
    ghost var ready := |env.events| == 3 && AboutToEnd(env, request, oid) && Cancellable(env.start, oid) && oid != ""
            && env.fault.ShipBeforeCancel? && env.State().ledger == SetStatus(env.start.ledger, oid, Shipped);
    ReasonsAreNotBlank();
    if ready {
      StillTheirs(env, oid);
      ReadTurn(env.State(), oid);
    }
    var _ :- Ask(env, request, oid, Read(GetOrder, oid));
    if ready {
      PolicyTurn(env.State(), oid);
    }
    var again :- Ask(env, request, oid, Read(CheckCancelPolicy, oid));
    if !again.PolicyAnswer? {
      return Raised(MissingValue);
    }
    if !again.allowed {
      r := Respond(Refused, request, None);
      if ready {
        EndsWell(env, request, release, oid, r.value);
      }
      return;
    }
    r := Escalate(env, request, release, oid, CONFLICT_REASON);
  }

  /** An order that is cancelled already: report what the ledger says, change nothing. */
  method ReportCancelled(env: OrderEnvironment, request: Request, release: Release, oid: string, order: Order)
    returns (r: Attempt<Response>)
    requires env.Valid()
    modifies env
    ensures env.Valid()
    ensures old(JustRead(env, request, oid, order)) && order.status.Cancelled?
            && old(env.events)[0] == Event(Read(GetOrder, oid), OrderFound(order)) ==>
      r.Done? && Delivers(env, request, release, r.value)
  {
    ghost var ready := JustRead(env, request, oid, order) && order.status.Cancelled?
                       && env.events[0] == Event(Read(GetOrder, oid), OrderFound(order));
    var reply :- Ask(env, request, oid, Read(GetPayment, oid));
    if !reply.PaymentFound? || reply.payment.None? {
      return Raised(MissingValue);
    }
    r := Respond(Completed, request, Some(reply.payment.value.refunded));
    if ready {
      assert env.events[0] == Event(Read(GetOrder, oid), OrderFound(order));
      EndsWell(env, request, release, oid, r.value);
    }
  }

  /** What looking up an order tells: nothing changes, it is not there, or it is the actor's. */
  lemma OrderReply(w: World, oid: string)
    ensures var t := Dispatch(w, Read(GetOrder, oid));
      && t.world == w
      && (t.reply.Has(NotFound) <==> !Blank(oid) && oid !in w.ledger.orders)
      && (t.reply.Ok() <==> !Blank(oid) && oid in w.ledger.orders && w.ledger.orders[oid].customer == w.actor)
      && (t.reply.Ok() ==> t.reply == OrderFound(w.ledger.orders[oid]))
  {
  }

  /** The whole driver. On a fresh environment with a well-formed fixture it raises nothing, answers what
      `Decide` says, passes the policy check, the recovery check with two attempts, the side-effect check and
      the response contract, stays within twelve of the eighteen calls, and leaves the settled ledger when it
      says the cancellation is completed. */
  method RunScripted(env: OrderEnvironment, request: Request, release: Release) returns (r: Attempt<Response>)
    requires env.Valid()
    modifies env
    ensures env.Valid()
    ensures old(env.calls) == [] && WellFormed(env.start) ==> r.Done? && Delivers(env, request, release, r.value)
  {
    hide Dispatch;
    hide Delivers;
    hide Policy;
    hide Unsettled;
    hide Run;
    hide Trace;
    hide RefundCount;
    hide Clean;
    hide Settled;
    hide Unfinished;
    hide HandedOver;
    hide HandoverReason;
    hide Started;
    hide PaidBack;
    hide Restocked;
    hide WellFormed;
    ghost var ready := env.calls == [] && WellFormed(env.start);
    if request.order.None? || request.order.value == "" {
      r := Respond(Clarification, request, None);
      if ready {
        NoCallsDeliver(env, request, release);
      }
      return;
    }
    var oid := request.order.value;
    if ready {
      FreshIsClean(env, request, oid);
    }
    OrderReply(env.State(), oid);
    var lookup :- Ask(env, request, oid, Read(GetOrder, oid));
    if lookup.Has(NotFound) {
      r := Respond(Clarification, request, None);
      if ready {
        EndsWell(env, request, release, oid, r.value);
      }
      return;
    }
    if !lookup.Ok() {
      r := Respond(Refused, request, None);
      if ready {
        EndsWell(env, request, release, oid, r.value);
      }
      return;
    }
    if !lookup.OrderFound? {
      return Raised(MissingValue);
    }
    if lookup.order.status.Cancelled? {
      r := ReportCancelled(env, request, release, oid, lookup.order);
    } else {
      r := BeginAndCarryOut(env, request, release, oid, lookup.order);
    }
  }
}
