/**
 The policy monitor sees only replies. These lemmas say that what it concludes from
 them is true in the ledger at that very moment, for every run of the service.
 */
module MonitorSoundness {
  import opened Common
  import opened OrderService
  import opened SagaInvariants
  import opened Evaluators

  /** What the monitor believes, checked against the ledger. */
  ghost predicate Knows(m: Monitor, w: World) {
    && (forall v | v in m.refunded :: v.Text? && FullyRefunded(w.ledger, v.s))
    && (forall v | v in m.released :: v.Text? && v.s in w.ledger.releases)
    && (forall v | v in m.begun :: v.Text? && v.s in w.ledger.orders && InCancellation(w.ledger.orders[v.s].status))
    && (m.begun != {} ==> !Armed(w))
  }

  predicate InCancellation(s: Status) { s.Cancelling? || s.Cancelled? }

  /** What a favourable reply says about the ledger after the call. */
  ghost predicate ReplyIsTrue(e: Event, after: World) {
    && (ShowsRefund(e) ==> e.call.order.Text? && FullyRefunded(after.ledger, e.call.order.s))
    && (ReleaseOk(e) ==> e.call.order.Text? && e.call.order.s in after.ledger.releases)
    && (BeginsOk(e) ==> e.call.order.Text? && e.call.order.s in after.ledger.orders
                        && InCancellation(after.ledger.orders[e.call.order.s].status) && !Armed(after))
  }

  lemma RepliesAreTrue(w: World, c: Call)
    requires RefundsSettle(w.ledger)
    ensures var t := Dispatch(w, c); ReplyIsTrue(Event(c, t.reply), t.world)
  {
  }

  /** Refunds, releases and begun cancellations are never taken back once no shipment is pending. */
  lemma FactsPersist(w: World, c: Call)
    ensures var after := Dispatch(w, c).world;
      && (forall o | FullyRefunded(w.ledger, o) :: FullyRefunded(after.ledger, o))
      && w.ledger.releases.Keys <= after.ledger.releases.Keys
      && (!Armed(w) ==> !Armed(after) && forall o | o in w.ledger.orders && InCancellation(w.ledger.orders[o].status) ::
            o in after.ledger.orders && InCancellation(after.ledger.orders[o].status))
  {
    StatusStep(w, c);
    FixedStep(w, c);
    MoneyStep(w, c);
    StockStep(w, c);
    FactsPersistAcross(w, c, Dispatch(w, c).world);
  }

  lemma FactsPersistAcross(w: World, c: Call, after: World)
    requires after.ledger.orders == w.ledger.orders || exists s :: WritesStatus(w, c, after, s)
    requires PaysOrNot(c, w.ledger, after.ledger) && RestocksOrNot(c, w.ledger, after.ledger)
    ensures forall o | FullyRefunded(w.ledger, o) :: FullyRefunded(after.ledger, o)
    ensures w.ledger.releases.Keys <= after.ledger.releases.Keys
    ensures !Armed(w) ==> forall o | o in w.ledger.orders && InCancellation(w.ledger.orders[o].status) ::
      o in after.ledger.orders && InCancellation(after.ledger.orders[o].status)
  {
  }

  lemma KnowsStep(k: Case, m: Monitor, w: World, c: Call, index: nat)
    requires Knows(m, w) && RefundsSettle(w.ledger)
    ensures var t := Dispatch(w, c); Knows(Observe(k, m, Event(c, t.reply), index), t.world)
  {
    RepliesAreTrue(w, c);
    FactsPersist(w, c);
    KnowsAcross(k, m, w, Event(c, Dispatch(w, c).reply), Dispatch(w, c).world, index);
  }

  lemma KnowsAcross(k: Case, m: Monitor, w: World, e: Event, after: World, index: nat)
    requires Knows(m, w) && ReplyIsTrue(e, after)
    requires forall o | FullyRefunded(w.ledger, o) :: FullyRefunded(after.ledger, o)
    requires w.ledger.releases.Keys <= after.ledger.releases.Keys
    requires !Armed(w) ==> !Armed(after) && forall o | o in w.ledger.orders && InCancellation(w.ledger.orders[o].status) ::
      o in after.ledger.orders && InCancellation(after.ledger.orders[o].status)
    ensures Knows(Observe(k, m, e, index), after)
  {
    var m' := Observe(k, m, e, index);
    if m'.begun != {} {
      var v :| v in m'.begun;
      assert v in m.begun || BeginsOk(e);
    }
  }

  /** At every prefix of the recorded events, of any run from any fixture, under any fault: an order the
      monitor takes for refunded is fully refunded in the ledger, one it takes for released has its release
      row, and one it takes for begun is cancelling or cancelled. */
  lemma {:induction false} MonitorNeverOverclaims(k: Case, w: World, calls: seq<Call>)
    requires w.ledger.refunds == map[]
    ensures Knows(Policy(k, Trace(w, calls)), Run(w, calls))
  {
    if calls != [] {
      var n := |calls| - 1;
      MonitorNeverOverclaims(k, w, calls[..n]);
      RefundsAlwaysSettle(w, calls[..n]);
      KnowsStep(k, Policy(k, Trace(w, calls[..n])), Run(w, calls[..n]), calls[n], n);
      assert Trace(w, calls)[..n] == Trace(w, calls[..n]);
    }
  }

  lemma {:induction false} TracePrefix(w: World, calls: seq<Call>, i: nat)
    requires i <= |calls|
    ensures Trace(w, calls)[..i] == Trace(w, calls[..i])
    ensures i < |calls| ==>
      Trace(w, calls)[i] == Event(calls[i], Dispatch(Run(w, calls[..i]), calls[i]).reply)
    decreases |calls|
  {
    if i == |calls| {
      assert calls[..i] == calls;
    } else {
      var n := |calls| - 1;
      TracePrefix(w, calls[..n], i);
      assert calls[..n][..i] == calls[..i];
      assert Trace(w, calls)[..n] == Trace(w, calls[..n]);
      assert Trace(w, calls)[..i] == Trace(w, calls)[..n][..i];
      if i < n {
        assert Trace(w, calls)[i] == Trace(w, calls)[..n][i];
      }
    }
  }

  /** A trace that passes the policy check came from a safe run: money was only asked back for an order in
      cancellation, stock only released after the full refund, and a saga only closed after the release;
      and no write was turned down for its state. */
  lemma PassingTraceWasSafe(k: Case, w: World, calls: seq<Call>, i: nat)
    requires w.ledger.refunds == map[]
    requires Policy(k, Trace(w, calls)).violations == [] && i < |calls|
    requires calls[i].order.Text?
    ensures var before, oid := Run(w, calls[..i]), calls[i].order.s;
      && (calls[i].tool.RefundPayment? ==>
            oid in before.ledger.orders && InCancellation(before.ledger.orders[oid].status) && !Armed(before))
      && (calls[i].tool.ReleaseStock? ==> FullyRefunded(before.ledger, oid))
      && (calls[i].tool.CompleteCancellation? ==> oid in before.ledger.releases)
      && (IsWrite(calls[i].tool) ==> !Dispatch(before, calls[i]).reply.Denied?)
  {
    var events := Trace(w, calls);
    PolicyExact(k, events);
    TracePrefix(w, calls, i);
    assert MayHappen(k, events[..i], events[i]);
    MonitorSetsExact(k, events[..i], calls[i].order);
    MonitorNeverOverclaims(k, w, calls[..i]);
  }

  // ---------- isolation ----------

  /** A call that can change something must name the subject order. */
  predicate Targets(c: Call, oid: string) {
    IsWrite(c.tool) || c.tool.CreateTicket? ==> c.order == Text(oid)
  }

  /** Both tables have the same row under this key, or none. */
  ghost predicate Agree<V(!new)>(a: map<string, V>, b: map<string, V>, k: string) {
    (k in a <==> k in b) && (k in a && k in b ==> a[k] == b[k])
  }

  ghost predicate OfAnother(l: Ledger, key: string, oid: string) {
    key in l.refunds && l.refunds[key].order != oid
  }

  /** All tables agree outside one order, and of that order only the status and the version may differ. */
  ghost predicate SameElsewhere(a: Ledger, b: Ledger, oid: string) {
    && (forall o | o != oid :: Agree(a.orders, b.orders, o))
    && (forall o | o != oid :: Agree(a.payments, b.payments, o))
    && (forall s | !(oid in a.orders && a.orders[oid].sku == s) :: Agree(a.inventory, b.inventory, s))
    && (forall key | OfAnother(a, key, oid) || OfAnother(b, key, oid) :: Agree(a.refunds, b.refunds, key))
    && (forall o | o != oid :: Agree(a.releases, b.releases, o))
    && (forall o | o != oid :: Agree(a.tickets, b.tickets, o))
    && (oid in a.orders ==> oid in b.orders && SameOrder(a.orders[oid], b.orders[oid]))
  }

  lemma IsolationStep(w: World, c: Call, oid: string)
    requires Targets(c, oid)
    ensures SameElsewhere(w.ledger, Dispatch(w, c).world.ledger, oid)
  {
    StatusStep(w, c);
    MoneyStep(w, c);
    StockStep(w, c);
    TicketStep(w, c);
    var after := Dispatch(w, c).world;
    OrdersElsewhere(w, c, after, oid);
    MoneyElsewhere(c, w.ledger, after.ledger, oid);
    StockElsewhere(c, w.ledger, after.ledger, oid);
  }

  lemma OrdersElsewhere(w: World, c: Call, after: World, oid: string)
    requires Targets(c, oid)
    requires after.ledger.orders == w.ledger.orders || exists s :: WritesStatus(w, c, after, s)
    ensures forall o | o != oid :: Agree(w.ledger.orders, after.ledger.orders, o)
    ensures oid in w.ledger.orders ==>
      oid in after.ledger.orders && SameOrder(w.ledger.orders[oid], after.ledger.orders[oid])
  {
  }

  lemma MoneyElsewhere(c: Call, l: Ledger, after: Ledger, oid: string)
    requires Targets(c, oid) && PaysOrNot(c, l, after)
    ensures forall o | o != oid :: Agree(l.payments, after.payments, o)
    ensures forall key | OfAnother(l, key, oid) || OfAnother(after, key, oid) :: Agree(l.refunds, after.refunds, key)
  {
  }

  lemma StockElsewhere(c: Call, l: Ledger, after: Ledger, oid: string)
    requires Targets(c, oid) && RestocksOrNot(c, l, after)
    ensures forall o | o != oid :: Agree(l.releases, after.releases, o)
    ensures forall s | !(oid in l.orders && l.orders[oid].sku == s) :: Agree(l.inventory, after.inventory, s)
  {
  }

  lemma {:induction false} RunStaysLocal(w: World, calls: seq<Call>, oid: string)
    requires forall i | 0 <= i < |calls| :: Targets(calls[i], oid)
    ensures SameElsewhere(w.ledger, Run(w, calls).ledger, oid)
  {
    if calls != [] {
      var n := |calls| - 1;
      RunStaysLocal(w, calls[..n], oid);
      RowsAreKept(w, calls[..n]);
      IsolationStep(Run(w, calls[..n]), calls[n], oid);
      SameElsewhereComposes(w.ledger, Run(w, calls[..n]).ledger, Run(w, calls).ledger, oid);
    }
  }

  lemma SameElsewhereComposes(a: Ledger, b: Ledger, c: Ledger, oid: string)
    requires SameElsewhere(a, b, oid) && SameElsewhere(b, c, oid)
    requires a.orders.Keys == b.orders.Keys
    ensures SameElsewhere(a, c, oid)
  {
    forall o | o != oid
      ensures Agree(a.orders, c.orders, o) && Agree(a.payments, c.payments, o)
      ensures Agree(a.releases, c.releases, o) && Agree(a.tickets, c.tickets, o)
    {
      assert Agree(a.orders, b.orders, o) && Agree(a.payments, b.payments, o);
      assert Agree(b.orders, c.orders, o) && Agree(b.payments, c.payments, o);
      assert Agree(a.releases, b.releases, o) && Agree(a.tickets, b.tickets, o);
      assert Agree(b.releases, c.releases, o) && Agree(b.tickets, c.tickets, o);
    }
    forall s | !(oid in a.orders && a.orders[oid].sku == s)
      ensures Agree(a.inventory, c.inventory, s)
    {
      assert Agree(a.inventory, b.inventory, s) && Agree(b.inventory, c.inventory, s);
    }
    forall key | OfAnother(a, key, oid) || OfAnother(c, key, oid)
      ensures Agree(a.refunds, c.refunds, key)
    {
      assert OfAnother(b, key, oid);
    }
  }

  /** What each finding of the side-effect check says. */
  lemma FindingsExact(a: Ledger, b: Ledger, oid: string)
    ensures var found := SideEffects(a, b, oid);
      && (forall o :: OrderRow(o) in found <==> o != oid && !Agree(a.orders, b.orders, o))
      && (forall o :: PaymentRow(o) in found <==> o != oid && !Agree(a.payments, b.payments, o))
      && (forall s :: StockRow(s) in found <==>
            !(oid in a.orders && a.orders[oid].sku == s) && !Agree(a.inventory, b.inventory, s))
      && (SubjectRow in found <==>
            oid in a.orders && !(oid in b.orders && SameOrder(a.orders[oid], b.orders[oid])))
      && (RefundTable in found <==>
            exists key :: (OfAnother(a, key, oid) || OfAnother(b, key, oid)) && !Agree(a.refunds, b.refunds, key))
      && (ReleaseTable in found <==> exists o :: o != oid && !Agree(a.releases, b.releases, o))
      && (TicketTable in found <==> exists o :: o != oid && !Agree(a.tickets, b.tickets, o))
  {
    hide SideEffects;
    RowFindings(a, b, oid);
    SubjectFinding(a, b, oid);
    TableFindings(a, b, oid);
  }

  lemma ChangedExact<V(!new)>(a: map<string, V>, b: map<string, V>)
    ensures forall k :: k in ChangedKeys(a, b) <==> !Agree(a, b, k)
  {
  }

  lemma RowFindings(a: Ledger, b: Ledger, oid: string)
    ensures var found := SideEffects(a, b, oid);
      && (forall o :: OrderRow(o) in found <==> o != oid && !Agree(a.orders, b.orders, o))
      && (forall o :: PaymentRow(o) in found <==> o != oid && !Agree(a.payments, b.payments, o))
      && (forall s :: StockRow(s) in found <==>
            !(oid in a.orders && a.orders[oid].sku == s) && !Agree(a.inventory, b.inventory, s))
  {
    hide ChangedKeys;
    hide Agree;
    hide RefundsElsewhere;
    hide SubjectKept;
    ChangedExact(a.orders, b.orders);
    ChangedExact(a.payments, b.payments);
    ChangedExact(a.inventory, b.inventory);
  }

  lemma SubjectFinding(a: Ledger, b: Ledger, oid: string)
    ensures SubjectRow in SideEffects(a, b, oid) <==>
      oid in a.orders && !(oid in b.orders && SameOrder(a.orders[oid], b.orders[oid]))
  {
    hide ChangedKeys;
    hide RefundsElsewhere;
    hide StockProtected;
  }

  lemma TableFindings(a: Ledger, b: Ledger, oid: string)
    ensures var found := SideEffects(a, b, oid);
      && (RefundTable in found <==>
            exists key :: (OfAnother(a, key, oid) || OfAnother(b, key, oid)) && !Agree(a.refunds, b.refunds, key))
      && (ReleaseTable in found <==> exists o :: o != oid && !Agree(a.releases, b.releases, o))
      && (TicketTable in found <==> exists o :: o != oid && !Agree(a.tickets, b.tickets, o))
  {
    hide Agree;
    hide OfAnother;
    hide RefundsElsewhere;
    hide ChangedKeys;
    hide SubjectKept;
    hide StockProtected;
    RefundsDiffer(a, b, oid);
    DifferElsewhere(a.releases, b.releases, oid);
    DifferElsewhere(a.tickets, b.tickets, oid);
  }

  lemma RefundsDiffer(a: Ledger, b: Ledger, oid: string)
    ensures RefundsElsewhere(a, oid) != RefundsElsewhere(b, oid) <==>
      exists key :: (OfAnother(a, key, oid) || OfAnother(b, key, oid)) && !Agree(a.refunds, b.refunds, key)
  {
    var mine, theirs := RefundsElsewhere(a, oid), RefundsElsewhere(b, oid);
    assert forall key :: key in mine <==> OfAnother(a, key, oid);
    assert forall key :: key in theirs <==> OfAnother(b, key, oid);
    if forall key | OfAnother(a, key, oid) || OfAnother(b, key, oid) :: Agree(a.refunds, b.refunds, key) {
      assert mine == theirs;
    } else {
      var key :| (OfAnother(a, key, oid) || OfAnother(b, key, oid)) && !Agree(a.refunds, b.refunds, key);
      assert mine == theirs ==> (key in mine <==> key in theirs);
    }
  }

  lemma DifferElsewhere<V(!new)>(a: map<string, V>, b: map<string, V>, oid: string)
    ensures a - {oid} != b - {oid} <==> exists o :: o != oid && !Agree(a, b, o)
  {
    var mine, theirs := a - {oid}, b - {oid};
    if forall o | o != oid :: Agree(a, b, o) {
      forall o
        ensures (o in mine <==> o in theirs) && (o in mine ==> mine[o] == theirs[o])
      {
        assert o != oid ==> Agree(a, b, o);
      }
      assert mine == theirs;
    } else {
      var o :| o != oid && !Agree(a, b, o);
      assert (o in mine <==> o in a) && (o in theirs <==> o in b);
      assert o in a && o in b ==> mine[o] == a[o] && theirs[o] == b[o];
    }
  }

  /** Two snapshots pass the side-effect check exactly when they agree outside the subject order. */
  lemma SideEffectCheckExact(a: Ledger, b: Ledger, oid: string)
    ensures SideEffects(a, b, oid) == {} <==> SameElsewhere(a, b, oid)
  {
    hide SideEffects;
    hide Agree;
    FindingsExact(a, b, oid);
    var found := SideEffects(a, b, oid);
    if SameElsewhere(a, b, oid) {
      forall f: Finding
        ensures f !in found
      {
        match f {
          case OrderRow(o) => assert f !in found;
          case PaymentRow(o) => assert f !in found;
          case SubjectRow => assert f !in found;
          case StockRow(s) => assert f !in found;
          case RefundTable => assert f !in found;
          case ReleaseTable => assert f !in found;
          case TicketTable => assert f !in found;
        }
      }
    } else if found == {} {
      NothingFoundElsewhere(a, b, oid);
    }
  }

  lemma NothingFoundElsewhere(a: Ledger, b: Ledger, oid: string)
    requires SideEffects(a, b, oid) == {}
    ensures SameElsewhere(a, b, oid)
  {
    hide SideEffects;
    hide Agree;
    FindingsExact(a, b, oid);
    var found := SideEffects(a, b, oid);
    assert SubjectRow !in found && RefundTable !in found && ReleaseTable !in found && TicketTable !in found;
    assert forall o :: OrderRow(o) !in found && PaymentRow(o) !in found;
    assert forall s :: StockRow(s) !in found;
  }

  /** A run in which every state-changing call names the subject passes the side-effect check. */
  lemma IsolatedRunsPass(w: World, calls: seq<Call>, oid: string)
    requires forall i | 0 <= i < |calls| :: Targets(calls[i], oid)
    ensures SideEffects(w.ledger, Run(w, calls).ledger, oid) == {}
  {
    RunStaysLocal(w, calls, oid);
    SideEffectCheckExact(w.ledger, Run(w, calls).ledger, oid);
  }
}
