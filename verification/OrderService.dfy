/**
 The order-cancellation service as a transition function: six tables, an
 injected fault, and one transition for each tool call. Every call commits on
 its own, so a call sequence can stop anywhere in the middle of a saga.
 */
module OrderService {
  import opened Common

  datatype Status = Paid | Cancelling | Cancelled | Shipped | OtherStatus(name: string)

  datatype Order = Order(
    customer: string, status: Status, amount: int, currency: string,
    sku: string, quantity: int, version: int)

  datatype Payment = Payment(captured: int, refunded: int)
  datatype Refund = Refund(order: string, amount: int)
  datatype Release = Release(key: string, quantity: int)

  /** The tables. Map keys are the primary keys. */
  datatype Ledger = Ledger(
    orders: map<string, Order>,
    payments: map<string, Payment>,
    inventory: map<string, int>,
    refunds: map<string, Refund>,
    releases: map<string, Release>,
    tickets: map<string, string>)

  datatype Fault =
    | NoFault
    | TimeoutBeforeCommit
    | TimeoutAfterCommit
    | PaymentUnavailable
    | ShipBeforeCancel

  datatype World = World(actor: string, fault: Fault, faultUsed: bool, ledger: Ledger)

  /** A tool argument as it arrives: a string, an integer, a bool, or nothing. */
  datatype Value = Text(s: string) | Number(n: int) | Flag(b: bool) | Missing

  datatype Tool =
    | GetOrder | CheckCancelPolicy | GetPayment | CreateTicket
    | BeginCancellation | RefundPayment | ReleaseStock | CompleteCancellation
    | UnknownTool(name: string)

  predicate IsWrite(tool: Tool) {
    tool.BeginCancellation? || tool.RefundPayment? || tool.ReleaseStock? || tool.CompleteCancellation?
  }

  datatype Call = Call(
    tool: Tool, order: Value, reason: Value, expectedVersion: Value, amount: Value, key: Value)

  datatype Code =
    | UnknownToolCode | InvalidOrderId | NotFound | Forbidden | InvalidReason
    | IncompleteSaga | InvalidVersion | VersionConflict | NotCancellable
    | InvalidRefundArgument | IdempotencyConflict | CancellationNotStarted
    | RefundBalanceMismatch | Timeout | InvalidIdempotencyKey | RefundNotConfirmed
    | ServiceError

  /** `Denied` and `Failed` are the replies with status "denied" and "error"; all others are "ok". */
  datatype Reply =
    | OrderFound(order: Order)
    | PaymentFound(payment: Option<Payment>)
    | PolicyAnswer(allowed: bool, orderVersion: int)
    | TicketOpened
    | CancellationBegun(alreadyStarted: bool)
    | RefundMade(cents: int, replayed: bool)
    | StockReleased(quantity: Option<int>)
    | CancellationCompleted(alreadyCompleted: bool)
    | Denied(code: Code)
    | Failed(code: Code)
  {
    predicate Ok() { !Denied? && !Failed? }
    predicate Has(c: Code) { (Denied? || Failed?) && code == c }
  }

  datatype Turn = Turn(world: World, reply: Reply)

  /** UPDATE orders SET status=?, version=version+1 WHERE id=? */
  function SetStatus(l: Ledger, oid: string, status: Status): Ledger
    requires oid in l.orders
  {
    var o := l.orders[oid];
    l.(orders := l.orders[oid := o.(status := status, version := o.version + 1)])
  }

  predicate FullyRefunded(l: Ledger, oid: string) {
    oid in l.payments && l.payments[oid].refunded == l.payments[oid].captured
  }

  /** Does an order other than `oid` already hold this release key? */
  predicate KeyHeldByOther(l: Ledger, oid: string, key: string) {
    exists other | other in l.releases :: other != oid && l.releases[other].key == key
  }

  function Begin(w: World, oid: string, expectedVersion: Value): (t: Turn)
    requires oid in w.ledger.orders
    ensures t.world == w.(ledger := w.ledger.(orders := t.world.ledger.orders), faultUsed := t.world.faultUsed)
    ensures w.faultUsed ==> t.world.faultUsed
  {
    if !expectedVersion.Number? then Turn(w, Failed(InvalidVersion))
    else
      var w1 :=
        if w.fault.ShipBeforeCancel? && !w.faultUsed then
          w.(ledger := SetStatus(w.ledger, oid, Shipped), faultUsed := true)
        else w;
      var current := w1.ledger.orders[oid];
      if current.version != expectedVersion.n then Turn(w1, Failed(VersionConflict))
      else if current.status.Cancelling? then Turn(w1, CancellationBegun(true))
      else if !current.status.Paid? then Turn(w1, Denied(NotCancellable))
      else Turn(w1.(ledger := SetStatus(w1.ledger, oid, Cancelling)), CancellationBegun(false))
  }

  /** Both inserts of one refund transaction; a primary-key clash rolls it back. */
  function CommitRefund(l: Ledger, oid: string, amount: int, key: string): Option<Ledger>
    requires oid in l.payments
  {
    if key in l.refunds then None
    else
      var p := l.payments[oid];
      Some(l.(refunds := l.refunds[key := Refund(oid, amount)],
              payments := l.payments[oid := p.(refunded := p.refunded + amount)]))
  }

  function RefundOrder(w: World, oid: string, amount: Value, key: Value): (t: Turn)
    requires oid in w.ledger.orders
    ensures t.world == w.(ledger := w.ledger.(refunds := t.world.ledger.refunds,
                                              payments := t.world.ledger.payments),
                          faultUsed := t.world.faultUsed)
    ensures w.faultUsed ==> t.world.faultUsed
    ensures w.fault.ShipBeforeCancel? ==> t.world.faultUsed == w.faultUsed
  {
    var l := w.ledger;
    if !amount.Number? || amount.n <= 0 || !key.Text? || Blank(key.s) then
      Turn(w, Failed(InvalidRefundArgument))
    else if key.s in l.refunds then
      if l.refunds[key.s] != Refund(oid, amount.n) then Turn(w, Failed(IdempotencyConflict))
      else Turn(w, RefundMade(amount.n, true))
    else if !l.orders[oid].status.Cancelling? then Turn(w, Denied(CancellationNotStarted))
    else if oid !in l.payments || amount.n != l.payments[oid].captured - l.payments[oid].refunded then
      Turn(w, Denied(RefundBalanceMismatch))
    else if w.fault.PaymentUnavailable? then Turn(w, Failed(Timeout))
    else if w.fault.TimeoutBeforeCommit? && !w.faultUsed then
      Turn(w.(faultUsed := true), Failed(Timeout))
    else
      match CommitRefund(l, oid, amount.n, key.s)
      case None => Turn(w, Failed(ServiceError))
      case Some(after) =>
        if w.fault.TimeoutAfterCommit? && !w.faultUsed then
          Turn(w.(ledger := after, faultUsed := true), Failed(Timeout))
        else Turn(w.(ledger := after), RefundMade(amount.n, false))
  }

  /** The release transaction: a clash on the order or on the unique key rolls it back.
      An UPDATE of a SKU without an inventory row changes nothing. */
  function CommitRelease(l: Ledger, oid: string, key: string): Option<Ledger>
    requires oid in l.orders
  {
    if oid in l.releases || exists other | other in l.releases :: l.releases[other].key == key then None
    else
      var o := l.orders[oid];
      Some(l.(releases := l.releases[oid := Release(key, o.quantity)],
              inventory := if o.sku in l.inventory
                           then l.inventory[o.sku := l.inventory[o.sku] + o.quantity]
                           else l.inventory))
  }

  function ReleaseOrder(w: World, oid: string, key: Value): (t: Turn)
    requires oid in w.ledger.orders
    ensures t.world == w.(ledger := w.ledger.(releases := t.world.ledger.releases,
                                              inventory := t.world.ledger.inventory))
  {
    var l := w.ledger;
    if !key.Text? || Blank(key.s) then Turn(w, Failed(InvalidIdempotencyKey))
    else if KeyHeldByOther(l, oid, key.s) then Turn(w, Failed(IdempotencyConflict))
    else if oid in l.releases then Turn(w, StockReleased(None))
    else if !l.orders[oid].status.Cancelling? || !FullyRefunded(l, oid) then
      Turn(w, Denied(RefundNotConfirmed))
    else
      match CommitRelease(l, oid, key.s)
      case None => Turn(w, Failed(ServiceError))
      case Some(after) => Turn(w.(ledger := after), StockReleased(Some(l.orders[oid].quantity)))
  }

  function Complete(w: World, oid: string): (t: Turn)
    requires oid in w.ledger.orders
    ensures t.world == w.(ledger := w.ledger.(orders := t.world.ledger.orders))
  {
    var l := w.ledger;
    if l.orders[oid].status.Cancelled? then Turn(w, CancellationCompleted(true))
    else if !l.orders[oid].status.Cancelling? || !FullyRefunded(l, oid) || oid !in l.releases then
      Turn(w, Denied(IncompleteSaga))
    else Turn(w.(ledger := SetStatus(l, oid, Cancelled)), CancellationCompleted(false))
  }

  /** INSERT OR IGNORE: the first reason stays. */
  function OpenTicket(w: World, oid: string, reason: Value): (t: Turn)
    ensures t.world == w.(ledger := w.ledger.(tickets := t.world.ledger.tickets))
  {
    if !reason.Text? || Blank(reason.s) then Turn(w, Failed(InvalidReason))
    else if oid in w.ledger.tickets then Turn(w, TicketOpened)
    else Turn(w.(ledger := w.ledger.(tickets := w.ledger.tickets[oid := reason.s])), TicketOpened)
  }

  function Dispatch(w: World, c: Call): Turn {
    if c.tool.UnknownTool? then Turn(w, Failed(UnknownToolCode))
    else if !c.order.Text? || Blank(c.order.s) then Turn(w, Failed(InvalidOrderId))
    else if c.order.s !in w.ledger.orders then Turn(w, Failed(NotFound))
    else
      var oid := c.order.s;
      var order := w.ledger.orders[oid];
      if order.customer != w.actor then Turn(w, Denied(Forbidden))
      else
        match c.tool
        case GetOrder => Turn(w, OrderFound(order))
        case GetPayment =>
          Turn(w, PaymentFound(if oid in w.ledger.payments then Some(w.ledger.payments[oid]) else None))
        case CheckCancelPolicy =>
          Turn(w, PolicyAnswer(order.status.Paid? || order.status.Cancelling?, order.version))
        case CreateTicket => OpenTicket(w, oid, c.reason)
        case BeginCancellation => Begin(w, oid, c.expectedVersion)
        case RefundPayment => RefundOrder(w, oid, c.amount, c.key)
        case ReleaseStock => ReleaseOrder(w, oid, c.key)
        case CompleteCancellation => Complete(w, oid)
  }

  /** The world after a call sequence, read from the last call backwards so that
      `Run(w, calls[..i])` is the world after the first `i` calls. */
  function Run(w: World, calls: seq<Call>): World {
    if calls == [] then w
    else Dispatch(Run(w, calls[..|calls| - 1]), calls[|calls| - 1]).world
  }

  datatype Event = Event(call: Call, reply: Reply)

  /** What the environment records for a call sequence. */
  function Trace(w: World, calls: seq<Call>): (events: seq<Event>)
    ensures |events| == |calls|
  {
    if calls == [] then []
    else
      var before := calls[..|calls| - 1];
      var last := calls[|calls| - 1];
      Trace(w, before) + [Event(last, Dispatch(Run(w, before), last).reply)]
  }

  /** The state a fixture starts in: nothing refunded by this service yet, no ticket,
      and release rows that satisfy the UNIQUE constraint on the operation key. */
  ghost predicate Fresh(w: World) {
    && !w.faultUsed
    && w.ledger.refunds == map[]
    && w.ledger.tickets == map[]
    && KeysUnique(w.ledger)
  }

  ghost predicate KeysUnique(l: Ledger) {
    forall a, b | a in l.releases && b in l.releases && l.releases[a].key == l.releases[b].key :: a == b
  }

  /** What a sound fixture looks like. */
  ghost predicate WellFormed(w: World) {
    && Fresh(w)
    && (forall o | o in w.ledger.orders ::
          && o in w.ledger.payments
          && w.ledger.orders[o].amount == w.ledger.payments[o].captured
          && 0 <= w.ledger.payments[o].refunded <= w.ledger.payments[o].captured
          && w.ledger.orders[o].sku in w.ledger.inventory
          && (w.ledger.orders[o].status.Cancelled? ==> FullyRefunded(w.ledger, o) && o in w.ledger.releases))
  }
}
