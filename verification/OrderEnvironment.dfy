/**
 The mutable service the agents talk to. Every method is proved to be the matching
 transition of `OrderService`, and the object remembers, for the proofs only, which
 calls brought it where it is.
 */
module OrderEnvironments {
  import opened Common
  import opened OrderService
  import opened SagaInvariants

  const MAX_TOOL_CALLS := 18

  datatype Exception = ToolBudgetExceeded | ServiceRaised | MissingValue | InvalidResponse

  /** A Python call: a value, or an exception that propagates with `:-`. */
  datatype Attempt<+T> = Done(value: T) | Raised(exc: Exception) {
    predicate IsFailure() { Raised? }
    function PropagateFailure<U>(): Attempt<U> requires Raised? { Raised(exc) }
    function Extract(): T requires Done? { value }
  }

  lemma RunAppend(w: World, calls: seq<Call>, c: Call)
    ensures Run(w, calls + [c]) == Dispatch(Run(w, calls), c).world
    ensures Trace(w, calls + [c]) == Trace(w, calls) + [Event(c, Dispatch(Run(w, calls), c).reply)]
  {
    assert (calls + [c])[..|calls|] == calls;
  }

  class OrderEnvironment {
    const actor: string
    const fault: Fault
    var faultUsed: bool
    var orders: map<string, Order>
    var payments: map<string, Payment>
    var inventory: map<string, int>
    var refunds: map<string, Refund>
    var releases: map<string, Release>
    var tickets: map<string, string>
    var events: seq<Event>
    ghost const start: World
    ghost var calls: seq<Call>

    function State(): World
      reads this
    {
      World(actor, fault, faultUsed, Ledger(orders, payments, inventory, refunds, releases, tickets))
    }

    /** The object is always where the recorded calls lead from its fixture, and the recorded
        events are exactly that run's trace. */
    ghost predicate Valid()
      reads this
    {
      && State() == Run(start, calls) && events == Trace(start, calls)
      && start.actor == actor && start.fault == fault
    }

    constructor (actor: string, fault: Fault, orders: map<string, Order>, payments: map<string, Payment>,
                 inventory: map<string, int>, releases: map<string, Release>)
      ensures Valid() && calls == [] && events == []
      ensures start == World(actor, fault, false, Ledger(orders, payments, inventory, map[], releases, map[]))
    {
      this.actor, this.fault, this.faultUsed := actor, fault, false;
      this.orders, this.payments, this.inventory := orders, payments, inventory;
      this.refunds, this.releases, this.tickets := map[], releases, map[];
      this.events := [];
      this.calls := [];
      this.start := World(actor, fault, false, Ledger(orders, payments, inventory, map[], releases, map[]));
    }

    /** One recorded tool call; the nineteenth is refused and leaves no trace. */
    method Call(c: Call) returns (r: Attempt<Reply>)
      requires Valid()
      modifies this
      ensures Valid()
      ensures |old(events)| >= MAX_TOOL_CALLS <==> r.Raised?
      ensures r.Raised? ==> r.exc == ToolBudgetExceeded && State() == old(State()) && calls == old(calls)
                            && events == old(events)
      ensures r.Done? ==> Turn(State(), r.value) == Dispatch(old(State()), c)
      ensures r.Done? ==> calls == old(calls) + [c] && events == old(events) + [Event(c, r.value)]
    {
      if |events| >= MAX_TOOL_CALLS {
        return Raised(ToolBudgetExceeded);
      }
      RunAppend(start, calls, c);
      var reply := Serve(c);
      events := events + [Event(c, reply)];
      calls := calls + [c];
      r := Done(reply);
      NoInsertClashes(old(State()), [], c);
      if reply.Has(ServiceError) {
        r := Raised(ServiceRaised);
      }
    }

    /** Identity and ownership checks, then the tool. */
    method Serve(c: Call) returns (reply: Reply)
      modifies this
      ensures Turn(State(), reply) == Dispatch(old(State()), c)
      ensures events == old(events) && calls == old(calls)
    {
      if c.tool.UnknownTool? {
        return Failed(UnknownToolCode);
      }
      if !c.order.Text? || Blank(c.order.s) {
        return Failed(InvalidOrderId);
      }
      var oid := c.order.s;
      if oid !in orders {
        return Failed(NotFound);
      }
      var order := orders[oid];
      if order.customer != actor {
        return Denied(Forbidden);
      }
      match c.tool {
        case GetOrder => reply := OrderFound(order);
        case GetPayment => reply := PaymentFound(if oid in payments then Some(payments[oid]) else None);
        case CheckCancelPolicy =>
          reply := PolicyAnswer(order.status.Paid? || order.status.Cancelling?, order.version);
        case CreateTicket =>
          if !c.reason.Text? || Blank(c.reason.s) {
            reply := Failed(InvalidReason);
          } else {
            if oid !in tickets {
              tickets := tickets[oid := c.reason.s];
            }
            reply := TicketOpened;
          }
        case BeginCancellation => reply := DoBegin(oid, c.expectedVersion);
        case RefundPayment => reply := DoRefund(oid, c.amount, c.key);
        case ReleaseStock => reply := DoRelease(oid, c.key);
        case CompleteCancellation => reply := DoComplete(oid);
      }
    }

    method Write(oid: string, status: Status)
      requires oid in orders
      modifies this`orders
      ensures State().ledger == SetStatus(old(State()).ledger, oid, status)
    {
      var o := orders[oid];
      orders := orders[oid := o.(status := status, version := o.version + 1)];
    }

    method DoBegin(oid: string, expectedVersion: Value) returns (reply: Reply)
      requires oid in orders
      modifies this`orders, this`faultUsed
      ensures Turn(State(), reply) == Begin(old(State()), oid, expectedVersion)
    {
      if !expectedVersion.Number? {
        return Failed(InvalidVersion);
      }
      if fault.ShipBeforeCancel? && !faultUsed {
        Write(oid, Shipped);
        faultUsed := true;
      }
      var current := orders[oid];
      if current.version != expectedVersion.n {
        return Failed(VersionConflict);
      }
      if current.status.Cancelling? {
        return CancellationBegun(true);
      }
      if !current.status.Paid? {
        return Denied(NotCancellable);
      }
      Write(oid, Cancelling);
      return CancellationBegun(false);
    }

    method DoRefund(oid: string, amount: Value, key: Value) returns (reply: Reply)
      requires oid in orders
      modifies this`refunds, this`payments, this`faultUsed
      ensures Turn(State(), reply) == RefundOrder(old(State()), oid, amount, key)
    {
      if !amount.Number? || amount.n <= 0 || !key.Text? || Blank(key.s) {
        return Failed(InvalidRefundArgument);
      }
      if key.s in refunds {
        if refunds[key.s] != Refund(oid, amount.n) {
          return Failed(IdempotencyConflict);
        }
        return RefundMade(amount.n, true);
      }
      if !orders[oid].status.Cancelling? {
        return Denied(CancellationNotStarted);
      }
      if oid !in payments || amount.n != payments[oid].captured - payments[oid].refunded {
        return Denied(RefundBalanceMismatch);
      }
      if fault.PaymentUnavailable? {
        return Failed(Timeout);
      }
      if fault.TimeoutBeforeCommit? && !faultUsed {
        faultUsed := true;
        return Failed(Timeout);
      }
      refunds := refunds[key.s := Refund(oid, amount.n)];
      payments := payments[oid := payments[oid].(refunded := payments[oid].refunded + amount.n)];
      if fault.TimeoutAfterCommit? && !faultUsed {
        faultUsed := true;
        return Failed(Timeout);
      }
      return RefundMade(amount.n, false);
    }

    method DoRelease(oid: string, key: Value) returns (reply: Reply)
      requires oid in orders
      modifies this`releases, this`inventory
      ensures Turn(State(), reply) == ReleaseOrder(old(State()), oid, key)
    {
      if !key.Text? || Blank(key.s) {
        return Failed(InvalidIdempotencyKey);
      }
      if exists other | other in releases :: other != oid && releases[other].key == key.s {
        return Failed(IdempotencyConflict);
      }
      if oid in releases {
        return StockReleased(None);
      }
      if !orders[oid].status.Cancelling? || oid !in payments
         || payments[oid].refunded != payments[oid].captured {
        return Denied(RefundNotConfirmed);
      }
      var order := orders[oid];
      releases := releases[oid := Release(key.s, order.quantity)];
      if order.sku in inventory {
        inventory := inventory[order.sku := inventory[order.sku] + order.quantity];
      }
      return StockReleased(Some(order.quantity));
    }

    method DoComplete(oid: string) returns (reply: Reply)
      requires oid in orders
      modifies this`orders
      ensures Turn(State(), reply) == Complete(old(State()), oid)
    {
      if orders[oid].status.Cancelled? {
        return CancellationCompleted(true);
      }
      if !orders[oid].status.Cancelling? || oid !in payments
         || payments[oid].refunded != payments[oid].captured || oid !in releases {
        return Denied(IncompleteSaga);
      }
      Write(oid, Cancelled);
      return CancellationCompleted(false);
    }
  }
}
