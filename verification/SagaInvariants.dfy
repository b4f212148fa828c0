/**
 What every call sequence keeps, whatever the fixture, the injected fault, the
 keys and the order of the calls: money, stock, versions and other orders.
 */
module SagaInvariants {
  import opened Common
  import opened OrderService

  // ---------- no constraint of the schema is ever violated ----------

  /** The guards in front of both inserts make a primary-key or UNIQUE clash unreachable. */
  lemma NoInsertClashes(w: World, calls: seq<Call>, c: Call)
    ensures !Dispatch(Run(w, calls), c).reply.Has(ServiceError)
  {
  }

  ghost predicate Armed(w: World) { w.fault.ShipBeforeCancel? && !w.faultUsed }

  /** The one status write of a call: the order it names, its owner calling, along the saga
      or by the injected shipment. */
  ghost predicate WritesStatus(w: World, c: Call, after: World, s: Status) {
    && IsWrite(c.tool) && c.order.Text? && c.order.s in w.ledger.orders && !Blank(c.order.s)
    && w.ledger.orders[c.order.s].customer == w.actor
    && after.ledger.orders == SetStatus(w.ledger, c.order.s, s).orders
    && var was := w.ledger.orders[c.order.s].status;
       || (s.Shipped? && Armed(w) && after.faultUsed)
       || (s.Cancelling? && was.Paid? && !Armed(w))
       || (s.Cancelled? && was.Cancelling? && FullyRefunded(w.ledger, c.order.s) && c.order.s in w.ledger.releases)
  }

  lemma StatusStep(w: World, c: Call)
    ensures var after := Dispatch(w, c).world;
      || (after.ledger.orders == w.ledger.orders && (Armed(w) ==> !after.faultUsed))
      || exists s :: WritesStatus(w, c, after, s)
  {
    hide RefundOrder;
    hide ReleaseOrder;
    hide OpenTicket;
    var after := Dispatch(w, c).world;
    if after.ledger.orders != w.ledger.orders || (Armed(w) && after.faultUsed) {
      var s := if c.tool.CompleteCancellation? then Cancelled else if Armed(w) then Shipped else Cancelling;
      if c.tool.BeginCancellation? {
        assert WritesStatus(w, c, after, s);
      } else {
        assert WritesStatus(w, c, after, s);
      }
    }
  }

  /** Either the money tables are alike, or exactly one refund row pays out what was left. */
  ghost predicate PaysOrNot(c: Call, l: Ledger, after: Ledger) {
    || (after.refunds == l.refunds && after.payments == l.payments)
    || (exists oid, amount, key :: Pays(c, l, after, oid, amount, key))
  }

  ghost predicate Pays(c: Call, l: Ledger, after: Ledger, oid: string, amount: int, key: string) {
    && c.tool.RefundPayment? && c.order == Text(oid)
    && oid in l.payments && key !in l.refunds
    && 0 < amount == l.payments[oid].captured - l.payments[oid].refunded
    && CommitRefund(l, oid, amount, key) == Some(after)
  }

  lemma MoneyStep(w: World, c: Call)
    ensures PaysOrNot(c, w.ledger, Dispatch(w, c).world.ledger)
  {
    hide Begin;
    hide ReleaseOrder;
    hide OpenTicket;
    hide Complete;
    var after := Dispatch(w, c).world.ledger;
    if after.refunds != w.ledger.refunds || after.payments != w.ledger.payments {
      assert Pays(c, w.ledger, after, c.order.s, c.amount.n, c.key.s);
    }
  }

  /** Either stock and releases are alike, or exactly one fully refunded order gets its stock back. */
  ghost predicate RestocksOrNot(c: Call, l: Ledger, after: Ledger) {
    || (after.releases == l.releases && after.inventory == l.inventory)
    || (exists oid, key :: Restocks(c, l, after, oid, key))
  }

  ghost predicate Restocks(c: Call, l: Ledger, after: Ledger, oid: string, key: string) {
    && c.tool.ReleaseStock? && c.order == Text(oid)
    && oid in l.orders && oid !in l.releases && FullyRefunded(l, oid)
    && CommitRelease(l, oid, key) == Some(after)
  }

  lemma StockStep(w: World, c: Call)
    ensures RestocksOrNot(c, w.ledger, Dispatch(w, c).world.ledger)
  {
    hide Begin;
    hide RefundOrder;
    hide OpenTicket;
    hide Complete;
    var after := Dispatch(w, c).world.ledger;
    if after.releases != w.ledger.releases || after.inventory != w.ledger.inventory {
      assert Restocks(c, w.ledger, after, c.order.s, c.key.s);
    }
  }

  /** Release rows stay unique by operation key. */
  lemma {:induction false} ReleaseKeysStayUnique(w: World, calls: seq<Call>)
    requires KeysUnique(w.ledger)
    ensures KeysUnique(Run(w, calls).ledger)
  {
    if calls != [] {
      var before := calls[..|calls| - 1];
      ReleaseKeysStayUnique(w, before);
      StockStep(Run(w, before), calls[|calls| - 1]);
    }
  }

  /** A ticket is only opened by CreateTicket, once per order. */
  ghost predicate TicketsOrNot(c: Call, l: Ledger, after: Ledger) {
    || after.tickets == l.tickets
    || (c.tool.CreateTicket? && c.order.Text? && c.order.s !in l.tickets && c.reason.Text?
        && after.tickets == l.tickets[c.order.s := c.reason.s])
  }

  lemma TicketStep(w: World, c: Call)
    ensures TicketsOrNot(c, w.ledger, Dispatch(w, c).world.ledger)
  {
    hide Begin;
    hide RefundOrder;
    hide ReleaseOrder;
    hide Complete;
  }

  /** What the caller of a successful write can rely on: the order is theirs, the version was the one they expected,
      the refund is on record under their key, the stock is released, the order cancelled, the ticket open. */
  ghost predicate SuccessHolds(w: World, c: Call, reply: Reply, after: Ledger) {
    && c.order.Text? && c.order.s in w.ledger.orders && c.order.s in after.orders
    && var oid := c.order.s;
       && w.ledger.orders[oid].customer == w.actor
       && (c.tool.BeginCancellation? ==>
             && c.expectedVersion == Number(w.ledger.orders[oid].version) && !Armed(w)
             && after.orders[oid].status.Cancelling?)
       && (c.tool.RefundPayment? ==>
             && c.key.Text? && c.amount.Number? && c.amount.n > 0
             && c.key.s in after.refunds && after.refunds[c.key.s] == Refund(oid, c.amount.n))
       && (c.tool.ReleaseStock? ==>
             oid in after.releases && (reply == StockReleased(None) <==> oid in w.ledger.releases))
       && (c.tool.CompleteCancellation? ==> after.orders[oid].status.Cancelled?)
       && (c.tool.CreateTicket? ==> oid in after.tickets)
  }

  lemma SuccessesAreReal(w: World, c: Call)
    ensures var t := Dispatch(w, c); t.reply.Ok() ==> SuccessHolds(w, c, t.reply, t.world.ledger)
  {
  }

  // ---------- which answer a call gets ----------

  /** A known tool, called by the owner of an existing order. */
  predicate Admitted(w: World, c: Call) {
    && !c.tool.UnknownTool? && c.order.Text? && !Blank(c.order.s)
    && c.order.s in w.ledger.orders && w.ledger.orders[c.order.s].customer == w.actor
  }

  /** Who is not let in, and what they are told. */
  lemma TurnedAwayExactly(w: World, c: Call)
    ensures var r := Dispatch(w, c).reply; var named := c.order.Text? && !Blank(c.order.s);
      && (r == Failed(UnknownToolCode) <==> c.tool.UnknownTool?)
      && (r == Failed(InvalidOrderId) <==> !c.tool.UnknownTool? && !named)
      && (r == Failed(NotFound) <==> !c.tool.UnknownTool? && named && c.order.s !in w.ledger.orders)
      && (r == Denied(Forbidden) <==>
            !c.tool.UnknownTool? && named && c.order.s in w.ledger.orders && w.ledger.orders[c.order.s].customer != w.actor)
  {
    hide Begin;
    hide RefundOrder;
    hide ReleaseOrder;
    hide Complete;
    hide OpenTicket;
    BeginRepliesExactly(w, c);
    RefundRepliesExactly(w, c);
    ReleaseRepliesExactly(w, c);
    CompleteRepliesExactly(w, c);
    TicketRepliesExactly(w, c);
  }

  lemma LookupRepliesExactly(w: World, c: Call)
    requires Admitted(w, c)
    ensures var l, oid, r := w.ledger, c.order.s, Dispatch(w, c).reply;
      && (c.tool.GetOrder? ==> r == OrderFound(l.orders[oid]))
      && (c.tool.GetPayment? ==>
            && (oid in l.payments ==> r == PaymentFound(Some(l.payments[oid])))
            && (oid !in l.payments ==> r == PaymentFound(None)))
      && (c.tool.CheckCancelPolicy? ==>
            && r.PolicyAnswer? && r.orderVersion == l.orders[oid].version
            && (r.allowed <==> l.orders[oid].status in {Paid, Cancelling}))
  {
  }

  lemma TicketRepliesExactly(w: World, c: Call)
    ensures Admitted(w, c) && c.tool.CreateTicket? ==>
      var r, reasoned := Dispatch(w, c).reply, c.reason.Text? && !Blank(c.reason.s);
      (r == TicketOpened <==> reasoned) && (r == Failed(InvalidReason) <==> !reasoned)
  {
  }

  /** Beginning: the injected shipment comes first, then the version, then the status. */
  lemma BeginRepliesExactly(w: World, c: Call)
    ensures Admitted(w, c) && c.tool.BeginCancellation? ==>
      var o, r, v := w.ledger.orders[c.order.s], Dispatch(w, c).reply, c.expectedVersion;
      && (r == Failed(InvalidVersion) <==> !v.Number?)
      && (r == Failed(VersionConflict) <==> v.Number? && v.n != o.version + (if Armed(w) then 1 else 0))
      && (r == CancellationBegun(false) <==> v == Number(o.version) && !Armed(w) && o.status.Paid?)
      && (r == CancellationBegun(true) <==> v == Number(o.version) && !Armed(w) && o.status.Cancelling?)
      && (r == Denied(NotCancellable) <==>
            || (Armed(w) && v == Number(o.version + 1))
            || (!Armed(w) && v == Number(o.version) && o.status !in {Paid, Cancelling}))
      && (r.CancellationBegun? || r == Failed(InvalidVersion) || r == Failed(VersionConflict) || r == Denied(NotCancellable))
  {
  }

  /** A positive amount and a key that is not blank. */
  predicate RefundArgumentsFit(c: Call) { c.amount.Number? && c.amount.n > 0 && c.key.Text? && !Blank(c.key.s) }

  /** The refund is on record: this key, for this order and amount. */
  predicate OnRecord(l: Ledger, c: Call) {
    && RefundArgumentsFit(c) && c.order.Text?
    && c.key.s in l.refunds && l.refunds[c.key.s] == Refund(c.order.s, c.amount.n)
  }

  /** A new refund: the key is free, the order is being cancelled, and the amount is what is left. */
  predicate Payable(l: Ledger, c: Call) {
    && RefundArgumentsFit(c) && c.order.Text? && c.key.s !in l.refunds
    && c.order.s in l.orders && l.orders[c.order.s].status.Cancelling?
    && c.order.s in l.payments && c.amount.n == l.payments[c.order.s].captured - l.payments[c.order.s].refunded
  }

  /** The answer of a payable refund is lost while a payment fault is at work. */
  predicate AnswerLost(w: World) {
    w.fault.PaymentUnavailable? || ((w.fault.TimeoutBeforeCommit? || w.fault.TimeoutAfterCommit?) && !w.faultUsed)
  }

  lemma RefundRepliesExactly(w: World, c: Call)
    ensures Admitted(w, c) && c.tool.RefundPayment? ==>
      var l, oid, r := w.ledger, c.order.s, Dispatch(w, c).reply;
      && (r == Failed(InvalidRefundArgument) <==> !RefundArgumentsFit(c))
      && (c.amount.Number? ==> (r == RefundMade(c.amount.n, true) <==> OnRecord(l, c)))
      && (r == Failed(IdempotencyConflict) <==> RefundArgumentsFit(c) && c.key.s in l.refunds && !OnRecord(l, c))
      && (c.amount.Number? ==> (r == RefundMade(c.amount.n, false) <==> Payable(l, c) && !AnswerLost(w)))
      && (r == Failed(Timeout) <==> Payable(l, c) && AnswerLost(w))
      && (r == Denied(CancellationNotStarted) <==>
            RefundArgumentsFit(c) && c.key.s !in l.refunds && !l.orders[oid].status.Cancelling?)
      && (r == Denied(RefundBalanceMismatch) <==>
            RefundArgumentsFit(c) && c.key.s !in l.refunds && l.orders[oid].status.Cancelling? && !Payable(l, c))
      && (r.RefundMade? || r.Failed? || r.Denied?) && !r.Has(Forbidden) && !r.Has(NotFound)
      && !r.Has(UnknownToolCode) && !r.Has(InvalidOrderId)
  {
    hide Begin;
    hide ReleaseOrder;
    hide Complete;
    hide OpenTicket;
  }

  lemma ReleaseRepliesExactly(w: World, c: Call)
    ensures Admitted(w, c) && c.tool.ReleaseStock? ==>
      var l, oid, r, keyed := w.ledger, c.order.s, Dispatch(w, c).reply, c.key.Text? && !Blank(c.key.s);
      var taken := keyed && exists other | other in l.releases :: other != oid && l.releases[other].key == c.key.s;
      var due := l.orders[oid].status.Cancelling? && oid in l.payments
                 && l.payments[oid].refunded == l.payments[oid].captured;
      && (r == Failed(InvalidIdempotencyKey) <==> !keyed)
      && (r == Failed(IdempotencyConflict) <==> taken)
      && (r == StockReleased(None) <==> keyed && !taken && oid in l.releases)
      && (r == StockReleased(Some(l.orders[oid].quantity)) <==> keyed && !taken && oid !in l.releases && due)
      && (r == Denied(RefundNotConfirmed) <==> keyed && !taken && oid !in l.releases && !due)
      && (r.StockReleased? && oid !in l.releases ==>
            Dispatch(w, c).world.ledger.releases == l.releases[oid := Release(c.key.s, l.orders[oid].quantity)])
      && (r.StockReleased? || r == Failed(InvalidIdempotencyKey) || r == Failed(IdempotencyConflict)
          || r == Denied(RefundNotConfirmed))
  {
    hide Begin;
    hide RefundOrder;
    hide Complete;
    hide OpenTicket;
  }

  lemma CompleteRepliesExactly(w: World, c: Call)
    ensures Admitted(w, c) && c.tool.CompleteCancellation? ==>
      var l, oid, r := w.ledger, c.order.s, Dispatch(w, c).reply;
      var due := l.orders[oid].status.Cancelling? && oid in l.releases && oid in l.payments
                 && l.payments[oid].refunded == l.payments[oid].captured;
      && (r == CancellationCompleted(true) <==> l.orders[oid].status.Cancelled?)
      && (r == CancellationCompleted(false) <==> due)
      && (r == Denied(IncompleteSaga) <==> !l.orders[oid].status.Cancelled? && !due)
      && (r.CancellationCompleted? || r == Denied(IncompleteSaga))
  {
    hide Begin;
    hide RefundOrder;
    hide ReleaseOrder;
    hide OpenTicket;
  }

  /** What a refused or failed call may still have done: the injected shipment, or a refund whose answer was lost. */
  ghost predicate LostOrShipped(w: World, c: Call, reply: Reply, after: World) {
    && !w.faultUsed && after.faultUsed
    && if c.tool.BeginCancellation? then Armed(w) && WritesStatus(w, c, after, Shipped)
       else
         && c.tool.RefundPayment? && reply == Failed(Timeout)
         && if w.fault.TimeoutAfterCommit? then exists oid, amount, key :: Pays(c, w.ledger, after.ledger, oid, amount, key)
            else w.fault.TimeoutBeforeCommit? && after.ledger == w.ledger
  }

  /** A call that does not succeed changes nothing, but for the one injected fault. */
  lemma RefusalsChangeNothing(w: World, c: Call)
    ensures var t := Dispatch(w, c);
      !t.reply.Ok() ==> t.world == w || LostOrShipped(w, c, t.reply, t.world)
  {
    hide ReleaseOrder;
    hide Complete;
    hide OpenTicket;
    var t := Dispatch(w, c);
    if !t.reply.Ok() && t.world != w {
      if c.tool.BeginCancellation? {
        assert WritesStatus(w, c, t.world, Shipped);
      } else if c.tool.RefundPayment? {
        assert w.fault.TimeoutAfterCommit? ==> Pays(c, w.ledger, t.world.ledger, c.order.s, c.amount.n, c.key.s);
      } else {
        OthersRefuseCleanly(w, c);
      }
    }
  }

  lemma OthersRefuseCleanly(w: World, c: Call)
    requires !c.tool.BeginCancellation? && !c.tool.RefundPayment?
    ensures var t := Dispatch(w, c); !t.reply.Ok() ==> t.world == w
  {
    hide Begin;
    hide RefundOrder;
  }

  /** The tables of orders and payments keep their rows and the columns no tool writes. */
  ghost predicate SameRows(a: Ledger, b: Ledger) {
    && a.orders.Keys == b.orders.Keys
    && a.payments.Keys == b.payments.Keys
    && a.inventory.Keys == b.inventory.Keys
    && (forall o | o in a.orders :: SameOrder(a.orders[o], b.orders[o]))
    && (forall o | o in a.payments :: b.payments[o].captured == a.payments[o].captured)
  }

  ghost predicate SameOrder(a: Order, b: Order) {
    b == a.(status := b.status, version := b.version)
  }

  lemma RowsStep(w: World, c: Call)
    ensures SameRows(w.ledger, Dispatch(w, c).world.ledger)
  {
    StatusStep(w, c);
    MoneyStep(w, c);
    StockStep(w, c);
    RowsFromSteps(w, c, Dispatch(w, c).world);
  }

  lemma RowsFromSteps(w: World, c: Call, after: World)
    requires after.ledger.orders == w.ledger.orders || exists s :: WritesStatus(w, c, after, s)
    requires PaysOrNot(c, w.ledger, after.ledger)
    requires RestocksOrNot(c, w.ledger, after.ledger)
    ensures SameRows(w.ledger, after.ledger)
  {
  }

  lemma SameRowsCompose(a: Ledger, b: Ledger, c: Ledger)
    requires SameRows(a, b) && SameRows(b, c)
    ensures SameRows(a, c)
  {
    forall o | o in a.orders ensures SameOrder(a.orders[o], c.orders[o]) {
      assert SameOrder(a.orders[o], b.orders[o]);
    }
  }

  lemma FixedStep(w: World, c: Call)
    ensures var after := Dispatch(w, c).world;
      after.actor == w.actor && after.fault == w.fault && (w.faultUsed ==> after.faultUsed)
  {
    hide Begin;
    hide RefundOrder;
    hide ReleaseOrder;
    hide Complete;
  }

  lemma {:induction false} RowsAreKept(w: World, calls: seq<Call>)
    ensures SameRows(w.ledger, Run(w, calls).ledger)
    ensures Run(w, calls).actor == w.actor && Run(w, calls).fault == w.fault
    ensures w.faultUsed ==> Run(w, calls).faultUsed
  {
    if calls != [] {
      var before := Run(w, calls[..|calls| - 1]);
      var c := calls[|calls| - 1];
      RowsAreKept(w, calls[..|calls| - 1]);
      RowsStep(before, c);
      FixedStep(before, c);
      SameRowsCompose(w.ledger, before.ledger, Dispatch(before, c).world.ledger);
    }
  }

  // ---------- money ----------

  ghost function RefundRows(l: Ledger, oid: string): map<string, int> {
    map k | k in l.refunds && l.refunds[k].order == oid :: l.refunds[k].amount
  }

  /** Sum of the refund rows of one order. */
  ghost function RefundedBy(l: Ledger, oid: string): int { Sum(RefundRows(l, oid)) }

  /** A refund row always pays out everything that was left, so it is the order's only one. */
  ghost predicate RefundsSettle(l: Ledger) {
    && (forall k | k in l.refunds :: l.refunds[k].amount > 0 && FullyRefunded(l, l.refunds[k].order))
    && (forall a, b | a in l.refunds && b in l.refunds && l.refunds[a].order == l.refunds[b].order :: a == b)
  }

  lemma {:induction false} RefundsAlwaysSettle(w: World, calls: seq<Call>)
    requires RefundsSettle(w.ledger)
    ensures RefundsSettle(Run(w, calls).ledger)
  {
    if calls != [] {
      var before := Run(w, calls[..|calls| - 1]);
      var c := calls[|calls| - 1];
      RefundsAlwaysSettle(w, calls[..|calls| - 1]);
      MoneyStep(before, c);
      RefundsSettleAcross(c, before.ledger, Dispatch(before, c).world.ledger);
    }
  }

  lemma RefundsSettleAcross(c: Call, l: Ledger, after: Ledger)
    requires RefundsSettle(l) && PaysOrNot(c, l, after)
    ensures RefundsSettle(after)
  {
    if oid, amount, key :| Pays(c, l, after, oid, amount, key) {
      assert forall k | k in l.refunds :: l.refunds[k].order != oid;
    }
  }

  lemma RefundRowAdded(l: Ledger, oid: string, amount: int, key: string, other: string)
    requires oid in l.payments && key !in l.refunds
    ensures RefundedBy(CommitRefund(l, oid, amount, key).value, other)
         == RefundedBy(l, other) + (if other == oid then amount else 0)
  {
    var after := CommitRefund(l, oid, amount, key).value;
    if other == oid {
      SumRemove(RefundRows(after, other), key);
      assert RefundRows(after, other) - {key} == RefundRows(l, other);
    } else {
      assert RefundRows(after, other) == RefundRows(l, other);
    }
  }

  /** The ledger says an order got back exactly what its refund rows add up to. */
  lemma {:induction false} RefundConservation(w: World, calls: seq<Call>, oid: string)
    requires w.ledger.refunds == map[] && oid in w.ledger.payments
    ensures var l := Run(w, calls).ledger;
      && oid in l.payments
      && l.payments[oid].captured == w.ledger.payments[oid].captured
      && l.payments[oid].refunded == w.ledger.payments[oid].refunded + RefundedBy(l, oid)
      && w.ledger.payments[oid].refunded <= l.payments[oid].refunded
      && (w.ledger.payments[oid].refunded <= w.ledger.payments[oid].captured ==>
            l.payments[oid].refunded <= l.payments[oid].captured)
  {
    if calls == [] {
      assert RefundRows(w.ledger, oid) == map[];
    } else {
      var before := Run(w, calls[..|calls| - 1]);
      var c := calls[|calls| - 1];
      RefundConservation(w, calls[..|calls| - 1], oid);
      MoneyStep(before, c);
      var after := Dispatch(before, c).world.ledger;
      if o, amount, key :| Pays(c, before.ledger, after, o, amount, key) {
        RefundRowAdded(before.ledger, o, amount, key, oid);
      } else {
        assert RefundRows(after, oid) == RefundRows(before.ledger, oid);
      }
    }
  }

  /** Over every run from a fixture: one refund row per order at most, and only for a fully refunded order. */
  lemma AtMostOneRefundPerOrder(w: World, calls: seq<Call>, a: string, b: string)
    requires w.ledger.refunds == map[]
    ensures var l := Run(w, calls).ledger;
      && (a in l.refunds ==> FullyRefunded(l, l.refunds[a].order))
      && (a in l.refunds && b in l.refunds && l.refunds[a].order == l.refunds[b].order ==> a == b)
  {
    RefundsAlwaysSettle(w, calls);
  }

  // ---------- stock ----------

  /** Quantities of the orders of a SKU whose stock has not been given back. */
  ghost function HeldRows(l: Ledger, sku: string): map<string, int> {
    map o | o in l.orders && l.orders[o].sku == sku && o !in l.releases :: l.orders[o].quantity
  }

  ghost function Held(l: Ledger, sku: string): int { Sum(HeldRows(l, sku)) }

  lemma HeldAfterRestock(l: Ledger, oid: string, key: string, sku: string)
    requires oid in l.orders && oid !in l.releases && CommitRelease(l, oid, key).Some?
    ensures var after := CommitRelease(l, oid, key).value;
      Held(after, sku) == Held(l, sku) - (if l.orders[oid].sku == sku then l.orders[oid].quantity else 0)
  {
    var after := CommitRelease(l, oid, key).value;
    if l.orders[oid].sku == sku {
      SumRemove(HeldRows(l, sku), oid);
      assert HeldRows(after, sku) == HeldRows(l, sku) - {oid};
    } else {
      assert HeldRows(after, sku) == HeldRows(l, sku);
    }
  }

  lemma HeldUnchanged(l: Ledger, after: Ledger, sku: string)
    requires l.orders.Keys == after.orders.Keys && l.releases == after.releases
    requires forall o | o in l.orders :: SameOrder(l.orders[o], after.orders[o])
    ensures Held(after, sku) == Held(l, sku)
  {
    assert HeldRows(after, sku) == HeldRows(l, sku);
  }

  /** Available stock plus stock still held by orders is constant for every stocked SKU. */
  lemma {:induction false} StockConservation(w: World, calls: seq<Call>, sku: string)
    requires sku in w.ledger.inventory
    ensures var l := Run(w, calls).ledger;
      sku in l.inventory && l.inventory[sku] + Held(l, sku) == w.ledger.inventory[sku] + Held(w.ledger, sku)
  {
    if calls != [] {
      var before := Run(w, calls[..|calls| - 1]);
      var c := calls[|calls| - 1];
      StockConservation(w, calls[..|calls| - 1], sku);
      StockStep(before, c);
      RowsStep(before, c);
      var after := Dispatch(before, c).world.ledger;
      if o, key :| Restocks(c, before.ledger, after, o, key) {
        HeldAfterRestock(before.ledger, o, key, sku);
      } else {
        HeldUnchanged(before.ledger, after, sku);
      }
    }
  }

  // ---------- order lifecycle ----------

  ghost predicate CancelledMeansSettled(l: Ledger) {
    forall o | o in l.orders && l.orders[o].status.Cancelled? :: FullyRefunded(l, o) && o in l.releases
  }

  /** A cancelled order is always fully refunded and its stock is back. */
  lemma {:induction false} CancelledIsSettled(w: World, calls: seq<Call>)
    requires CancelledMeansSettled(w.ledger)
    ensures CancelledMeansSettled(Run(w, calls).ledger)
  {
    if calls != [] {
      var before := Run(w, calls[..|calls| - 1]);
      var c := calls[|calls| - 1];
      CancelledIsSettled(w, calls[..|calls| - 1]);
      StatusStep(before, c);
      MoneyStep(before, c);
      StockStep(before, c);
      CancelledIsSettledAcross(before, c, Dispatch(before, c).world);
    }
  }

  lemma CancelledIsSettledAcross(w: World, c: Call, after: World)
    requires CancelledMeansSettled(w.ledger)
    requires after.ledger.orders == w.ledger.orders || exists s :: WritesStatus(w, c, after, s)
    requires PaysOrNot(c, w.ledger, after.ledger) && RestocksOrNot(c, w.ledger, after.ledger)
    ensures CancelledMeansSettled(after.ledger)
  {
  }

  ghost function StatusOf(w: World, calls: seq<Call>, oid: string): Status
    requires oid in w.ledger.orders
  {
    RowsAreKept(w, calls);
    Run(w, calls).ledger.orders[oid].status
  }

  /** How often the status column of the order got a different value. */
  ghost function StatusChanges(w: World, calls: seq<Call>, oid: string): nat
    requires oid in w.ledger.orders
  {
    if calls == [] then 0
    else
      var before := calls[..|calls| - 1];
      StatusChanges(w, before, oid) + (if StatusOf(w, before, oid) != StatusOf(w, calls, oid) then 1 else 0)
  }

  /** Will this call run the injected shipment against an order that is shipped already? */
  predicate Reships(w: World, c: Call, oid: string) {
    && w.fault.ShipBeforeCancel? && !w.faultUsed
    && c.tool.BeginCancellation? && c.order == Text(oid) && c.expectedVersion.Number?
    && !Blank(oid) && oid in w.ledger.orders && w.ledger.orders[oid].customer == w.actor
    && w.ledger.orders[oid].status.Shipped?
  }

  ghost predicate ReshippedAt(w: World, calls: seq<Call>, oid: string, i: nat)
    requires i < |calls|
  {
    Reships(Run(w, calls[..i]), calls[i], oid)
  }

  ghost predicate Reshipped(w: World, calls: seq<Call>, oid: string) {
    exists i: nat | i < |calls| :: ReshippedAt(w, calls, oid, i)
  }

  /** One call moves the version by one exactly when it writes the status. */
  lemma VersionStep(w: World, c: Call, oid: string)
    requires oid in w.ledger.orders
    ensures var after := Dispatch(w, c).world;
      && oid in after.ledger.orders
      && var o, o' := w.ledger.orders[oid], after.ledger.orders[oid];
         o'.version - o.version ==
           (if o'.status != o.status then 1
            else if Reships(w, c, oid) then 1
            else 0)
  {
    hide Dispatch;
    hide Reships;
    StatusStep(w, c);
    ReshipsExactly(w, c, oid);
  }

  /** The guard tells in advance what the call will do: use up the fault on a shipped order. */
  lemma ReshipsExactly(w: World, c: Call, oid: string)
    requires oid in w.ledger.orders
    ensures Reships(w, c, oid) <==>
      w.ledger.orders[oid].status.Shipped? && Armed(w) && Dispatch(w, c).world.faultUsed && c.order == Text(oid)
  {
    hide ReleaseOrder;
    hide OpenTicket;
    hide Complete;
  }

  /** While the fault is armed nothing has been shipped but what the fixture shipped. */
  lemma {:induction false} ArmedShippedFromTheStart(w: World, calls: seq<Call>, oid: string)
    requires oid in w.ledger.orders && Armed(Run(w, calls))
    ensures StatusOf(w, calls, oid).Shipped? <==> w.ledger.orders[oid].status.Shipped?
  {
    if calls != [] {
      var before := calls[..|calls| - 1];
      FixedStep(Run(w, before), calls[|calls| - 1]);
      ArmedShippedFromTheStart(w, before, oid);
      StatusStep(Run(w, before), calls[|calls| - 1]);
    }
  }

  lemma {:induction false} FaultFiresOnce(w: World, calls: seq<Call>, i: nat)
    requires i <= |calls| && Run(w, calls[..i]).faultUsed
    ensures Run(w, calls).faultUsed
    decreases |calls|
  {
    if i < |calls| {
      assert calls[..|calls| - 1][..i] == calls[..i];
      FaultFiresOnce(w, calls[..|calls| - 1], i);
    } else {
      assert calls[..i] == calls;
    }
  }

  lemma {:induction false} ReshippedPrefix(w: World, calls: seq<Call>, oid: string)
    requires calls != []
    ensures var n := |calls| - 1;
      && (Reshipped(w, calls, oid) <==> Reshipped(w, calls[..n], oid) || ReshippedAt(w, calls, oid, n))
      && (Reshipped(w, calls[..n], oid) ==> Run(w, calls[..n]).faultUsed)
  {
    var n := |calls| - 1;
    var before := calls[..n];
    forall i: nat | i < n
      ensures ReshippedAt(w, before, oid, i) == ReshippedAt(w, calls, oid, i)
    {
      assert before[..i] == calls[..i] && before[..i + 1] == calls[..i + 1];
    }
    if i: nat :| i < n && ReshippedAt(w, before, oid, i) {
      assert before[..i + 1][..i] == before[..i];
      ReshipsExactly(Run(w, before[..i]), before[i], oid);
      FaultFiresOnce(w, before, i + 1);
    }
  }

  /** The version counts the status changes; the one exception is an injected shipment
      of an order that was shipped already, which bumps the version alone. */
  lemma {:induction false} VersionCountsStatusChanges(w: World, calls: seq<Call>, oid: string)
    requires oid in w.ledger.orders
    ensures oid in Run(w, calls).ledger.orders
    ensures Run(w, calls).ledger.orders[oid].version - w.ledger.orders[oid].version
         == StatusChanges(w, calls, oid) + (if Reshipped(w, calls, oid) then 1 else 0)
  {
    if calls != [] {
      var n := |calls| - 1;
      VersionCountsStatusChanges(w, calls[..n], oid);
      VersionStep(Run(w, calls[..n]), calls[n], oid);
      ReshippedPrefix(w, calls, oid);
      assert calls[..n + 1] == calls;
    }
  }

  ghost predicate BumpedWithoutChange(w: World, calls: seq<Call>, oid: string) {
    && Fresh(w) && Reshipped(w, calls, oid)
    && oid in w.ledger.orders && StatusChanges(w, calls, oid) == 0
    && oid in Run(w, calls).ledger.orders
    && Run(w, calls).ledger.orders[oid].version == w.ledger.orders[oid].version + 1
  }

  /** The exception happens: beginning to cancel one's own shipped order bumps the version, and no status changes. */
  lemma ReshipmentBumpsTheVersion()
    ensures exists w, calls, oid :: BumpedWithoutChange(w, calls, oid)
  {
    var order := Order("me", Shipped, 5, "EUR", "sku", 1, 1);
    var w := World("me", ShipBeforeCancel, false,
                   Ledger(map["o" := order], map["o" := Payment(5, 0)], map["sku" := 3], map[], map[], map[]));
    var c := Call(BeginCancellation, Text("o"), Missing, Number(1), Missing, Missing);
    var calls := [c];
    assert !IsSpace("o"[0]);
    assert calls[..0] == [] && Run(w, []) == w && Run(w, calls) == Dispatch(w, c).world;
    assert ReshippedAt(w, calls, "o", 0);
    assert StatusChanges(w, [], "o") == 0;
    assert StatusOf(w, [], "o").Shipped? && StatusOf(w, calls, "o").Shipped?;
    assert StatusChanges(w, calls, "o") == 0;
    assert BumpedWithoutChange(w, calls, "o");
  }

  /** A cancelled order can leave that status exactly when the shipping fault is still armed
      and the caller owns the order. */
  lemma CancelledIsTerminalUnlessShipping(w: World, oid: string)
    requires oid in w.ledger.orders && w.ledger.orders[oid].status.Cancelled?
    ensures (exists calls: seq<Call> :: !StatusOf(w, calls, oid).Cancelled?)
       <==> (Armed(w) && w.ledger.orders[oid].customer == w.actor && !Blank(oid))
  {
    if Armed(w) && w.ledger.orders[oid].customer == w.actor && !Blank(oid) {
      var c := Call(BeginCancellation, Text(oid), Missing, Number(0), Missing, Missing);
      assert [c][..0] == [];
      assert Run(w, [c]) == Dispatch(Run(w, []), c).world;
      assert !StatusOf(w, [c], oid).Cancelled?;
    } else {
      forall calls: seq<Call>
        ensures StatusOf(w, calls, oid).Cancelled?
      {
        CancelledStays(w, calls, oid);
      }
    }
  }

  lemma {:induction false} CancelledStays(w: World, calls: seq<Call>, oid: string)
    requires oid in w.ledger.orders && w.ledger.orders[oid].status.Cancelled?
    requires !Armed(w) || w.ledger.orders[oid].customer != w.actor || Blank(oid)
    ensures StatusOf(w, calls, oid).Cancelled?
  {
    if calls != [] {
      var before := calls[..|calls| - 1];
      CancelledStays(w, before, oid);
      RowsAreKept(w, before);
      assert SameOrder(w.ledger.orders[oid], Run(w, before).ledger.orders[oid]);
      StatusStep(Run(w, before), calls[|calls| - 1]);
    }
  }

  // ---------- exactly-once refund under response loss ----------

  /** Calls that only look. */
  predicate IsRead(c: Call) {
    c.tool.GetOrder? || c.tool.GetPayment? || c.tool.CheckCancelPolicy?
  }

  ghost predicate Repeats(calls: seq<Call>, refund: Call) {
    forall i | 0 <= i < |calls| :: calls[i] == refund || IsRead(calls[i])
  }

  function Attempts(calls: seq<Call>, refund: Call): nat {
    if calls == [] then 0
    else Attempts(calls[..|calls| - 1], refund) + (if calls[|calls| - 1] == refund then 1 else 0)
  }

  /** The ledger after one refund call with no fault in the way. */
  function Intended(w: World, refund: Call): Ledger {
    Dispatch(w.(fault := NoFault), refund).world.ledger
  }

  /** How many attempts it takes until the refund is certainly in the ledger. */
  function AttemptsNeeded(w: World): nat {
    if w.fault.TimeoutBeforeCommit? && !w.faultUsed then 2 else 1
  }

  /** Repeating a refund call, with any reads in between, ends in the ledger of one fault-free
      call as soon as there were enough attempts, and before that in the old ledger. */
  lemma {:induction false} RefundExactlyOnce(w: World, calls: seq<Call>, refund: Call)
    requires refund.tool.RefundPayment? && Repeats(calls, refund)
    requires !w.fault.PaymentUnavailable?
    ensures Run(w, calls).ledger ==
      if Attempts(calls, refund) >= AttemptsNeeded(w) then Intended(w, refund) else w.ledger
  {
    RefundRunShape(w, calls, refund);
  }

  /** Where `k` attempts lead, with what the injected fault has become. */
  ghost predicate AfterAttempts(w: World, now: World, refund: Call, k: nat) {
    && now.actor == w.actor && now.fault == w.fault
    && now.ledger == (if k >= AttemptsNeeded(w) then Intended(w, refund) else w.ledger)
    && (k == 0 ==> now == w)
    && (k >= 1 && Intended(w, refund) != w.ledger && w.fault.TimeoutBeforeCommit? ==> now.faultUsed)
  }

  lemma ReadChangesNothing(w: World, c: Call)
    requires IsRead(c)
    ensures Dispatch(w, c).world == w
  {
  }

  /** The first attempt, from where the run started. */
  lemma FirstAttempt(w: World, refund: Call)
    requires refund.tool.RefundPayment? && !w.fault.PaymentUnavailable?
    ensures AfterAttempts(w, Dispatch(w, refund).world, refund, 1)
  {
    hide Begin;
    hide ReleaseOrder;
    hide OpenTicket;
    hide Complete;
  }

  /** A later attempt: it either commits after the lost one, or finds the key used. */
  lemma LaterAttempt(w: World, now: World, refund: Call, k: nat)
    requires refund.tool.RefundPayment? && !w.fault.PaymentUnavailable?
    requires k >= 1 && AfterAttempts(w, now, refund, k)
    ensures AfterAttempts(w, Dispatch(now, refund).world, refund, k + 1)
  {
    hide Begin;
    hide ReleaseOrder;
    hide OpenTicket;
    hide Complete;
    if k >= AttemptsNeeded(w) {
      FixedStep(now, refund);
      RefundIsIdempotent(w, refund);
      hide Dispatch;
      hide Intended;
    } else {
      assert now.ledger == w.ledger;
    }
  }

  lemma {:induction false} RefundRunShape(w: World, calls: seq<Call>, refund: Call)
    requires refund.tool.RefundPayment? && Repeats(calls, refund)
    requires !w.fault.PaymentUnavailable?
    ensures AfterAttempts(w, Run(w, calls), refund, Attempts(calls, refund))
  {
    hide Dispatch;
    hide Intended;
    if calls == [] {
      assert AttemptsNeeded(w) >= 1;
    } else {
      var before, c := calls[..|calls| - 1], calls[|calls| - 1];
      RefundRunShape(w, before, refund);
      if c == refund {
        if Attempts(before, refund) == 0 {
          FirstAttempt(w, refund);
        } else {
          hide AfterAttempts;
          LaterAttempt(w, Run(w, before), refund, Attempts(before, refund));
        }
      } else {
        ReadChangesNothing(Run(w, before), c);
      }
    }
  }

  /** Once the intended ledger is reached, the same call changes nothing more. */
  lemma RefundIsIdempotent(w: World, refund: Call)
    requires refund.tool.RefundPayment?
    ensures forall fault, used ::
      Dispatch(World(w.actor, fault, used, Intended(w, refund)), refund).world.ledger == Intended(w, refund)
  {
  }

  /** With the payment service down, no number of calls changes the ledger. */
  lemma {:induction false} OutageRefundsNothing(w: World, calls: seq<Call>, refund: Call)
    requires refund.tool.RefundPayment? && Repeats(calls, refund) && w.fault.PaymentUnavailable?
    ensures Run(w, calls) == w
  {
    if calls != [] {
      OutageRefundsNothing(w, calls[..|calls| - 1], refund);
    }
  }

  /** A used key belongs to its order and amount for good: any later refund call with it
      changes nothing, and with another order or amount it never succeeds. */
  lemma UsedKeyIsInert(w: World, calls: seq<Call>, key: string, c: Call)
    requires key in w.ledger.refunds && c.tool.RefundPayment? && c.key == Text(key)
    ensures var now := Run(w, calls);
      && key in now.ledger.refunds && now.ledger.refunds[key] == w.ledger.refunds[key]
      && Dispatch(now, c).world == now
      && (Dispatch(now, c).reply.Ok() ==>
            c.order == Text(w.ledger.refunds[key].order) && c.amount == Number(w.ledger.refunds[key].amount))
  {
    RefundRowsArePermanent(w, calls, key);
  }

  lemma {:induction false} RefundRowsArePermanent(w: World, calls: seq<Call>, key: string)
    requires key in w.ledger.refunds
    ensures key in Run(w, calls).ledger.refunds
    ensures Run(w, calls).ledger.refunds[key] == w.ledger.refunds[key]
  {
    if calls != [] {
      RefundRowsArePermanent(w, calls[..|calls| - 1], key);
      MoneyStep(Run(w, calls[..|calls| - 1]), calls[|calls| - 1]);
    }
  }

  /** A refund on record is answered as a replay, whatever happened since, to any call of the owner that names it. */
  lemma RecordedRefundIsAnswered(w: World, calls: seq<Call>, c: Call)
    requires c.tool.RefundPayment? && Admitted(w, c) && OnRecord(w.ledger, c)
    ensures Dispatch(Run(w, calls), c).reply == RefundMade(c.amount.n, true)
  {
    hide Dispatch;
    RowsAreKept(w, calls);
    RefundRowsArePermanent(w, calls, c.key.s);
    var now := Run(w, calls);
    assert SameOrder(w.ledger.orders[c.order.s], now.ledger.orders[c.order.s]);
    RefundRepliesExactly(now, c);
  }

  lemma RunConcat(w: World, a: seq<Call>, b: seq<Call>)
    ensures Run(w, a + b) == Run(Run(w, a), b)
  {
    hide Dispatch;
    if b == [] {
      assert a + b == a;
    } else {
      assert (a + b)[..|a + b| - 1] == a + b[..|b| - 1];
      RunConcat(w, a, b[..|b| - 1]);
    }
  }

  /** After a call that paid or found the refund, it is on record. */
  lemma PaidIsOnRecord(w: World, c: Call)
    requires c.tool.RefundPayment?
    ensures Dispatch(w, c).reply.Ok() ==> Admitted(w, c) && OnRecord(Dispatch(w, c).world.ledger, c)
    ensures Admitted(w, c) && Payable(w.ledger, c) && w.fault.TimeoutAfterCommit? ==>
      OnRecord(Dispatch(w, c).world.ledger, c)
  {
  }

  lemma AdmittedStays(w: World, calls: seq<Call>, c: Call)
    ensures Admitted(Run(w, calls), c) <==> Admitted(w, c)
  {
    RowsAreKept(w, calls);
    assert forall o | o in w.ledger.orders :: SameOrder(w.ledger.orders[o], Run(w, calls).ledger.orders[o]);
  }

  /** Once a refund call was answered ok, repeating it is answered ok with the same amount, after any other calls. */
  lemma RepeatIsAnswered(w: World, calls: seq<Call>, c: Call, more: seq<Call>)
    requires c.tool.RefundPayment? && Dispatch(Run(w, calls), c).reply.Ok()
    ensures Dispatch(Run(w, calls + [c] + more), c).reply == RefundMade(c.amount.n, true)
  {
    hide Dispatch;
    AfterTheCall(w, calls, c, more);
    PaidIsOnRecord(Run(w, calls), c);
    RecordedRefundIsAnswered(Run(w, calls + [c]), more, c);
  }

  lemma AfterTheCall(w: World, calls: seq<Call>, c: Call, more: seq<Call>)
    ensures Run(w, calls + [c]) == Dispatch(Run(w, calls), c).world
    ensures Run(w, calls + [c] + more) == Run(Run(w, calls + [c]), more)
    ensures Admitted(Run(w, calls + [c]), c) <==> Admitted(Run(w, calls), c)
  {
    hide Dispatch;
    assert (calls + [c])[..|calls|] == calls;
    RunConcat(w, calls + [c], more);
    AdmittedStays(w, calls, c);
    AdmittedStays(w, calls + [c], c);
  }

  /** A refund whose answer was lost after its commit is answered by any later repeat; one that was lost before its
      commit is made by the next repeat. */
  lemma LostAnswerIsRecovered(w: World, calls: seq<Call>, c: Call, more: seq<Call>)
    requires c.tool.RefundPayment? && Dispatch(Run(w, calls), c).reply == Failed(Timeout)
    ensures w.fault.TimeoutAfterCommit? ==>
      Dispatch(Run(w, calls + [c] + more), c).reply == RefundMade(c.amount.n, true)
    ensures w.fault.TimeoutBeforeCommit? ==> Dispatch(Run(w, calls + [c]), c).reply == RefundMade(c.amount.n, false)
  {
    var before := Run(w, calls);
    RowsAreKept(w, calls);
    AfterTheCall(w, calls, c, more);
    TurnedAwayExactly(before, c);
    RefundRepliesExactly(before, c);
    if w.fault.TimeoutAfterCommit? {
      PaidIsOnRecord(before, c);
      hide Dispatch;
      RecordedRefundIsAnswered(Run(w, calls + [c]), more, c);
    } else if w.fault.TimeoutBeforeCommit? {
      LostBeforeCommit(before, c);
      RefundRepliesExactly(Dispatch(before, c).world, c);
    }
  }

  lemma LostBeforeCommit(w: World, c: Call)
    requires c.tool.RefundPayment? && Dispatch(w, c).reply == Failed(Timeout) && w.fault.TimeoutBeforeCommit?
    ensures var after := Dispatch(w, c).world;
      after.ledger == w.ledger && after.faultUsed && after.fault == w.fault && after.actor == w.actor
  {
  }
}
