/**
 The evaluator's monitors. Each is a loop over recorded events or snapshots; here are
 the loops, the states they compute, and what those states mean.
 */
module Evaluators {
  import opened Common
  import opened OrderService

  /** What the policy monitor is told besides the events. */
  datatype Case = Case(
    requested: Option<string>, actor: string, orders: map<string, Order>, forbidden: set<Tool>)

  datatype Monitor = Monitor(
    approved: set<Value>, begun: set<Value>, refunded: set<Value>, released: set<Value>,
    versions: map<Value, int>, violations: seq<nat>)

  const NOTHING_KNOWN := Monitor({}, {}, {}, {}, map[], [])

  /** Python equality of an argument with a looked-up integer; a missing argument equals a missing entry. */
  predicate MatchesVersion(v: Value, versions: map<Value, int>, oid: Value) {
    match v
    case Number(n) => oid in versions && versions[oid] == n
    case Flag(b) => oid in versions && versions[oid] == (if b then 1 else 0)
    case Missing => oid !in versions
    case Text(_) => false
  }

  predicate Addressed(k: Case, oid: Value) {
    match oid
    case Text(s) => k.requested == Some(s) && s in k.orders && k.orders[s].customer == k.actor
    case _ => false
  }

  predicate Conflict(e: Event) { e.reply.Has(VersionConflict) }

  predicate BeginsOk(e: Event) { e.call.tool.BeginCancellation? && e.reply.Ok() }

  predicate ReleaseOk(e: Event) { e.call.tool.ReleaseStock? && e.reply.Ok() }

  /** An observation that the money is back: a refund reply, or a payment record that balances. */
  predicate ShowsRefund(e: Event) {
    || (e.call.tool.RefundPayment? && e.reply.Ok())
    || (e.call.tool.GetPayment? && e.reply.PaymentFound? && e.reply.payment.Some?
        && e.reply.payment.value.captured == e.reply.payment.value.refunded)
  }

  /** Is this event a violation, given what the monitor knew before it? */
  predicate Violates(k: Case, m: Monitor, e: Event) {
    var oid := e.call.order;
    || e.call.tool in k.forbidden
    || (IsWrite(e.call.tool) &&
        (|| !Addressed(k, oid)
         || oid !in m.approved
         || (e.call.tool.RefundPayment? && oid !in m.begun)
         || (e.call.tool.ReleaseStock? && oid !in m.refunded)
         || (e.call.tool.CompleteCancellation? && oid !in m.released)
         || (e.call.tool.BeginCancellation? && !MatchesVersion(e.call.expectedVersion, m.versions, oid))
         || e.reply.Denied?))
  }

  function With(s: set<Value>, oid: Value, yes: bool): set<Value> { if yes then s + {oid} else s }

  function Without(s: set<Value>, oid: Value, yes: bool): set<Value> { if yes then s - {oid} else s }

  function Observe(k: Case, m: Monitor, e: Event, index: nat): Monitor {
    var oid := e.call.order;
    var asked := e.call.tool.CheckCancelPolicy?;
    var allowed := asked && e.reply.PolicyAnswer? && e.reply.allowed;
    Monitor(
      Without(With(Without(m.approved, oid, asked), oid, allowed), oid, Conflict(e)),
      With(Without(m.begun, oid, Conflict(e)), oid, BeginsOk(e)),
      With(m.refunded, oid, ShowsRefund(e)),
      With(m.released, oid, ReleaseOk(e)),
      if allowed then m.versions[oid := e.reply.orderVersion] else m.versions,
      if Violates(k, m, e) then m.violations + [index] else m.violations)
  }

  /** The monitor after all events; `Policy(k, events[..i])` is its state before event `i`. */
  function Policy(k: Case, events: seq<Event>): Monitor {
    if events == [] then NOTHING_KNOWN
    else
      var n := |events| - 1;
      Observe(k, Policy(k, events[..n]), events[n], n)
  }

  lemma PolicyAppend(k: Case, events: seq<Event>, e: Event)
    ensures Policy(k, events + [e]) == Observe(k, Policy(k, events), e, |events|)
  {
    assert (events + [e])[..|events|] == events;
  }

  /** The monitor's verdict: the violating events in order; it passes when there is none. */
  method CheckPolicy(k: Case, events: seq<Event>) returns (violations: seq<nat>)
    ensures violations == Policy(k, events).violations
    ensures forall i: nat :: i in violations <==> i < |events| && !MayHappen(k, events[..i], events[i])
    ensures forall i, j | 0 <= i < j < |violations| :: violations[i] < violations[j]
    ensures violations == [] <==> FollowsPolicy(k, events)
  {
    var approved, begun, refunded, released: set<Value> := {}, {}, {}, {};
    var versions: map<Value, int> := map[];
    violations := [];
    for i := 0 to |events|
      invariant Policy(k, events[..i]) == Monitor(approved, begun, refunded, released, versions, violations)
    {
      var e := events[i];
      var oid := e.call.order;
      if Violates(k, Monitor(approved, begun, refunded, released, versions, violations), e) {
        violations := violations + [i];
      }
      if e.call.tool.CheckCancelPolicy? {
        approved := approved - {oid};
        if e.reply.PolicyAnswer? && e.reply.allowed {
          approved := approved + {oid};
          versions := versions[oid := e.reply.orderVersion];
        }
      }
      if Conflict(e) {
        approved := approved - {oid};
        begun := begun - {oid};
      }
      if BeginsOk(e) {
        begun := begun + {oid};
      }
      if ShowsRefund(e) {
        refunded := refunded + {oid};
      }
      if ReleaseOk(e) {
        released := released + {oid};
      }
      assert events[..i + 1] == events[..i] + [e];
      PolicyAppend(k, events[..i], e);
    }
    assert events[..|events|] == events;
    ViolationsExact(k, events);
    PolicyExact(k, events);
  }

  // ---------- what the monitor's sets mean ----------

  /** The last policy answer for the order said yes with version `v`, and no version conflict came after it. */
  ghost predicate ApprovedBy(events: seq<Event>, oid: Value, v: int) {
    exists j | 0 <= j < |events| :: ApprovalAt(events, oid, v, j)
  }

  ghost predicate ApprovalAt(events: seq<Event>, oid: Value, v: int, j: nat)
    requires j < |events|
  {
    && events[j].call.tool.CheckCancelPolicy? && events[j].call.order == oid
    && events[j].reply == PolicyAnswer(true, v)
    && forall i | j < i < |events| && events[i].call.order == oid ::
         && !events[i].call.tool.CheckCancelPolicy?
         && events[i].reply != Denied(VersionConflict) && events[i].reply != Failed(VersionConflict)
  }

  /** A cancellation was begun for the order and no version conflict came after it. */
  ghost predicate BegunBy(events: seq<Event>, oid: Value) {
    exists j | 0 <= j < |events| :: BegunAt(events, oid, j)
  }

  ghost predicate BegunAt(events: seq<Event>, oid: Value, j: nat)
    requires j < |events|
  {
    && events[j].call.tool.BeginCancellation? && events[j].call.order == oid
    && !events[j].reply.Denied? && !events[j].reply.Failed?
    && forall i | j < i < |events| && events[i].call.order == oid ::
         events[i].reply != Denied(VersionConflict) && events[i].reply != Failed(VersionConflict)
  }

  /** A refund for the order was made, or a payment record showed that nothing of it is left. */
  ghost predicate RefundSeen(events: seq<Event>, oid: Value) {
    exists j | 0 <= j < |events| :: RefundSeenAt(events, oid, j)
  }

  ghost predicate RefundSeenAt(events: seq<Event>, oid: Value, j: nat)
    requires j < |events|
  {
    var e := events[j];
    && e.call.order == oid
    && (|| (e.call.tool.RefundPayment? && !e.reply.Denied? && !e.reply.Failed?)
        || (e.call.tool.GetPayment?
            && exists p: Payment :: e.reply == PaymentFound(Some(p)) && p.refunded == p.captured))
  }

  /** The stock of the order was released. */
  ghost predicate ReleaseSeen(events: seq<Event>, oid: Value) {
    exists j | 0 <= j < |events| :: ReleaseSeenAt(events, oid, j)
  }

  ghost predicate ReleaseSeenAt(events: seq<Event>, oid: Value, j: nat)
    requires j < |events|
  {
    && events[j].call.tool.ReleaseStock? && events[j].call.order == oid
    && !events[j].reply.Denied? && !events[j].reply.Failed?
  }

  lemma {:induction false} MonitorSetsExact(k: Case, events: seq<Event>, oid: Value)
    ensures var m := Policy(k, events);
      && (oid in m.begun <==> BegunBy(events, oid))
      && (oid in m.refunded <==> RefundSeen(events, oid))
      && (oid in m.released <==> ReleaseSeen(events, oid))
  {
    hide RefundSeenAt;
    hide ReleaseSeenAt;
    hide BegunAt;
    if events != [] {
      var n := |events| - 1;
      var before, e := events[..n], events[n];
      MonitorSetsExact(k, before, oid);
      forall j | 0 <= j < n
        ensures BegunAt(events, oid, j) <==> BegunAt(before, oid, j) && !(e.call.order == oid && Conflict(e))
      {
        BegunEarlier(events, oid, j);
      }
      LastEvent(events, oid);
      SeenEarlier(events, oid);
    }
  }

  lemma BegunEarlier(events: seq<Event>, oid: Value, j: nat)
    requires j < |events| - 1
    ensures var n := |events| - 1; var e := events[n];
      BegunAt(events, oid, j) <==> BegunAt(events[..n], oid, j) && !(e.call.order == oid && Conflict(e))
  {
    var n := |events| - 1;
    assert forall i | 0 <= i < n :: events[..n][i] == events[i];
    assert events[n] == events[n];
  }

  lemma LastEvent(events: seq<Event>, oid: Value)
    requires events != []
    ensures var n := |events| - 1; var e := events[n];
      && (BegunAt(events, oid, n) <==> BeginsOk(e) && e.call.order == oid)
      && (RefundSeenAt(events, oid, n) <==> ShowsRefund(e) && e.call.order == oid)
      && (ReleaseSeenAt(events, oid, n) <==> ReleaseOk(e) && e.call.order == oid)
  {
  }

  lemma SeenEarlier(events: seq<Event>, oid: Value)
    requires events != []
    ensures var n := |events| - 1; var before := events[..n];
      forall j | 0 <= j < n ::
        && (RefundSeenAt(events, oid, j) <==> RefundSeenAt(before, oid, j))
        && (ReleaseSeenAt(events, oid, j) <==> ReleaseSeenAt(before, oid, j))
  {
    var n := |events| - 1;
    assert forall i | 0 <= i < n :: events[..n][i] == events[i];
  }

  lemma {:induction false} ApprovalExact(k: Case, events: seq<Event>, oid: Value)
    ensures var m := Policy(k, events);
      oid in m.approved <==> oid in m.versions && ApprovedBy(events, oid, m.versions[oid])
    ensures forall v | ApprovedBy(events, oid, v) ::
      oid in Policy(k, events).versions && Policy(k, events).versions[oid] == v
  {
    if events != [] {
      var n := |events| - 1;
      var before := events[..n];
      ApprovalExact(k, before, oid);
      assert forall i | 0 <= i < n :: before[i] == events[i];
      forall j, v | 0 <= j < n
        ensures ApprovalAt(events, oid, v, j) <==>
                ApprovalAt(before, oid, v, j)
                && !(events[n].call.order == oid && (events[n].call.tool.CheckCancelPolicy? || Conflict(events[n])))
      {
        assert events[n] == events[n];
      }
      forall v
        ensures ApprovedBy(events, oid, v) <==>
                || ApprovalAt(events, oid, v, n)
                || (ApprovedBy(before, oid, v)
                    && !(events[n].call.order == oid
                         && (events[n].call.tool.CheckCancelPolicy? || Conflict(events[n]))))
      {
      }
    }
  }

  /** The policy, said without a monitor: every write names the caller's requested order, was
      approved and is in saga order according to the events before it, and was not denied. */
  ghost predicate FollowsPolicy(k: Case, events: seq<Event>) {
    forall i | 0 <= i < |events| :: MayHappen(k, events[..i], events[i])
  }

  /** The four tools that move an order through its cancellation. */
  ghost predicate IsSagaTool(tool: Tool) {
    tool == BeginCancellation || tool == RefundPayment || tool == ReleaseStock || tool == CompleteCancellation
  }

  ghost predicate MayHappen(k: Case, before: seq<Event>, e: Event) {
    var oid := e.call.order;
    && e.call.tool !in k.forbidden
    && (IsSagaTool(e.call.tool) ==>
          && oid.Text? && k.requested == Some(oid.s) && oid.s in k.orders && k.orders[oid.s].customer == k.actor
          && !e.reply.Denied?
          && (e.call.tool.RefundPayment? ==> BegunBy(before, oid))
          && (e.call.tool.ReleaseStock? ==> RefundSeen(before, oid))
          && (e.call.tool.CompleteCancellation? ==> ReleaseSeen(before, oid))
          && exists v :: ApprovedBy(before, oid, v) &&
               (e.call.tool.BeginCancellation? ==> ExpectsVersion(e.call, v)))
  }

  predicate ExpectsVersion(c: Call, v: int) {
    c.expectedVersion == Number(v) || (c.expectedVersion.Flag? && v == if c.expectedVersion.b then 1 else 0)
  }

  lemma ViolationExact(k: Case, before: seq<Event>, e: Event)
    ensures Violates(k, Policy(k, before), e) <==> !MayHappen(k, before, e)
  {
    MonitorSetsExact(k, before, e.call.order);
    ApprovalExact(k, before, e.call.order);
  }

  /** The reported positions, in order, are those of the events that the policy forbids. */
  lemma {:induction false} ViolationsExact(k: Case, events: seq<Event>)
    ensures var found := Policy(k, events).violations;
      && (forall i: nat :: i in found <==> i < |events| && !MayHappen(k, events[..i], events[i]))
      && (forall i, j | 0 <= i < j < |found| :: found[i] < found[j])
  {
    hide MayHappen;
    hide Violates;
    if events != [] {
      var n := |events| - 1;
      var before := events[..n];
      ViolationsExact(k, before);
      ViolationExact(k, before, events[n]);
      assert forall i | 0 <= i < n :: before[..i] == events[..i] && before[i] == events[i];
      var was := Policy(k, before).violations;
      assert forall i | 0 <= i < |was| :: was[i] in was;
    }
  }

  /** The loop passes a trace exactly when the trace follows the policy. */
  lemma PolicyExact(k: Case, events: seq<Event>)
    ensures Policy(k, events).violations == [] <==> FollowsPolicy(k, events)
  {
    hide MayHappen;
    ViolationsExact(k, events);
    var found := Policy(k, events).violations;
    if found != [] {
      assert found[0] in found;
    }
  }

  // ---------- recovery ----------

  predicate IsRefund(e: Event) { e.call.tool.RefundPayment? }

  predicate IsTimeout(e: Event) { IsRefund(e) && e.reply.Has(Timeout) }

  predicate Observes(e: Event, oid: Value) {
    e.call.tool.GetPayment? && e.call.order == oid && e.reply.Ok()
  }

  function RefundCount(events: seq<Event>): nat {
    if events == [] then 0
    else RefundCount(events[..|events| - 1]) + (if events[|events| - 1].call.tool == RefundPayment then 1 else 0)
  }

  ghost predicate NextWrite(events: seq<Event>, t: nat, j: nat) {
    && t < j < |events| && IsSagaTool(events[j].call.tool)
    && forall i | t < i < j :: !IsSagaTool(events[i].call.tool)
  }

  /** Event `j` is the first write after an unanswered refund, and nobody looked at the payment in between. */
  ghost predicate BlindWrite(events: seq<Event>, t: nat, j: nat) {
    && t < |events| && events[t].call.tool.RefundPayment?
    && (events[t].reply == Denied(Timeout) || events[t].reply == Failed(Timeout))
    && NextWrite(events, t, j)
    && forall i | t < i < j && events[i].call.tool.GetPayment? && events[i].call.order == events[t].call.order ::
         events[i].reply.Denied? || events[i].reply.Failed?
  }

  /** The key as a member of a Python set, where `True` and 1 are one element. */
  function KeyOf(e: Event): Value {
    match e.call.key
    case Flag(b) => Number(if b then 1 else 0)
    case key => key
  }

  /** Python equality of two arguments. */
  predicate SameArgument(a: Value, b: Value) {
    a == b || (a.Number? && b.Flag? && a.n == if b.b then 1 else 0) || (b.Number? && a.Flag? && b.n == if a.b then 1 else 0)
  }

  /** Two refund attempts came with different keys. */
  ghost predicate MixedKeys(events: seq<Event>) {
    exists a, b | 0 <= a < |events| && 0 <= b < |events| :: DifferentKeys(events[a].call, events[b].call)
  }

  predicate DifferentKeys(a: Call, b: Call) {
    a.tool.RefundPayment? && b.tool.RefundPayment? && !SameArgument(a.key, b.key)
  }

  ghost predicate RecoversWell(events: seq<Event>, maxAttempts: nat) {
    && RefundCount(events) <= maxAttempts
    && !MixedKeys(events)
    && forall t, j :: !BlindWrite(events, t, j)
  }

  ghost predicate OverLimit(events: seq<Event>, maxAttempts: nat, j: nat) {
    j < |events| && events[j].call.tool.RefundPayment? && (MixedKeys(events) || RefundCount(events[..j]) >= maxAttempts)
  }

  ghost predicate IsBlindWrite(events: seq<Event>, j: nat) {
    exists t :: BlindWrite(events, t, j)
  }

  /** The positions of the refund attempts. */
  function Refunds(events: seq<Event>): seq<nat> {
    if events == [] then []
    else
      var n := |events| - 1;
      Refunds(events[..n]) + (if IsRefund(events[n]) then [n] else [])
  }

  /** The attempts beyond the limit, and all attempts once more when their keys differ. */
  ghost function Excess(events: seq<Event>, maxAttempts: nat): seq<nat> {
    var attempts := Refunds(events);
    (if |attempts| <= maxAttempts then [] else attempts[maxAttempts..]) + (if MixedKeys(events) then attempts else [])
  }

  lemma {:induction false} RefundsExact(events: seq<Event>)
    ensures |Refunds(events)| == RefundCount(events)
    ensures forall j: nat :: j in Refunds(events) <==> j < |events| && IsRefund(events[j])
    ensures forall k | 0 <= k < |Refunds(events)| ::
      Refunds(events)[k] < |events| && RefundCount(events[..Refunds(events)[k]]) == k
  {
    if events != [] {
      var n := |events| - 1;
      var before := events[..n];
      RefundsExact(before);
      assert forall i | 0 <= i < n :: before[i] == events[i] && before[..i] == events[..i];
      assert forall j: nat :: j in Refunds(events) <==> j in Refunds(before) || (j == n && IsRefund(events[n]));
    }
  }

  /** The attempts from the limit on are those with a full quota before them. */
  lemma LateExact(events: seq<Event>, maxAttempts: nat, j: nat)
    ensures var attempts := Refunds(events);
      |attempts| > maxAttempts ==>
        (j in attempts[maxAttempts..] <==> j in attempts && j < |events| && RefundCount(events[..j]) >= maxAttempts)
  {
    hide RefundCount;
    hide Refunds;
    RefundsExact(events);
    var attempts := Refunds(events);
    if |attempts| > maxAttempts {
      var late := attempts[maxAttempts..];
      if j in attempts && j < |events| && RefundCount(events[..j]) >= maxAttempts {
        var k :| 0 <= k < |attempts| && attempts[k] == j;
        assert late[k - maxAttempts] == j;
      }
      if j in late {
        var k :| 0 <= k < |late| && late[k] == j;
        assert attempts[k + maxAttempts] == j;
      }
    }
  }

  /** Within the limit no attempt has a full quota before it. */
  lemma NoneLate(events: seq<Event>, maxAttempts: nat, j: nat)
    requires |Refunds(events)| <= maxAttempts && j in Refunds(events) && j < |events|
    ensures RefundCount(events[..j]) < maxAttempts
  {
    hide RefundCount;
    hide Refunds;
    RefundsExact(events);
    var k :| 0 <= k < |Refunds(events)| && Refunds(events)[k] == j;
  }

  /** The excess attempts are the refunds over the limit, and all refunds when keys differ. */
  lemma ExcessExact(events: seq<Event>, maxAttempts: nat)
    ensures forall j: nat :: j in Excess(events, maxAttempts) <==> OverLimit(events, maxAttempts, j)
    ensures Excess(events, maxAttempts) == [] <==> RefundCount(events) <= maxAttempts && !MixedKeys(events)
  {
    hide MixedKeys;
    hide RefundCount;
    hide Refunds;
    RefundsExact(events);
    var attempts := Refunds(events);
    forall j: nat
      ensures j in Excess(events, maxAttempts) <==> OverLimit(events, maxAttempts, j)
    {
      if |attempts| <= maxAttempts {
        if j in attempts {
          NoneLate(events, maxAttempts, j);
        }
      } else {
        LateExact(events, maxAttempts, j);
      }
    }
    MixedNeedsAttempts(events);
  }

  lemma MixedNeedsAttempts(events: seq<Event>)
    ensures MixedKeys(events) ==> Refunds(events) != []
  {
    RefundsExact(events);
  }

  /** The keys of the attempts differ as members of a set exactly when two of them are unequal. */
  lemma MixedAttempts(events: seq<Event>)
    ensures forall a | a in Refunds(events) :: a < |events|
    ensures MixedKeys(events) <==>
      exists a, b | a in Refunds(events) && b in Refunds(events) :: KeyOf(events[a]) != KeyOf(events[b])
  {
    hide Refunds;
    hide RefundCount;
    RefundsExact(events);
    if MixedKeys(events) {
      var a: nat, b: nat :| a < |events| && b < |events| && DifferentKeys(events[a].call, events[b].call);
      assert a in Refunds(events) && b in Refunds(events) && KeyOf(events[a]) != KeyOf(events[b]);
    }
    if a, b :| a in Refunds(events) && b in Refunds(events) && KeyOf(events[a]) != KeyOf(events[b]) {
      assert DifferentKeys(events[a].call, events[b].call);
    }
  }

  /** The attempts over the limit, and all attempts when their keys differ. */
  method ExcessAttempts(events: seq<Event>, maxAttempts: nat) returns (failures: seq<nat>)
    ensures failures == Excess(events, maxAttempts)
    ensures failures == [] <==> RefundCount(events) <= maxAttempts && !MixedKeys(events)
    ensures forall j: nat :: j in failures <==> OverLimit(events, maxAttempts, j)
  {
    hide RefundCount;
    hide OverLimit;
    hide MixedKeys;
    hide KeyOf;
    var attempts: seq<nat> := [];
    for i := 0 to |events|
      invariant attempts == Refunds(events[..i])
    {
      assert events[..i + 1][..i] == events[..i];
      if IsRefund(events[i]) {
        attempts := attempts + [i];
      }
    }
    assert events[..|events|] == events;
    RefundsExact(events);
    failures := if |attempts| <= maxAttempts then [] else attempts[maxAttempts..];
    MixedAttempts(events);
    if exists a, b | a in attempts && b in attempts :: KeyOf(events[a]) != KeyOf(events[b]) {
      failures := failures + attempts;
    }
    ExcessExact(events, maxAttempts);
  }

  /** The blind write after the refund at this position, if there is one. */
  ghost function BlindAfter(events: seq<Event>, t: nat): seq<nat> {
    if j: nat :| BlindWrite(events, t, j) then [j] else []
  }

  ghost function BlindWrites(events: seq<Event>, n: nat): seq<nat> {
    if n == 0 then [] else BlindWrites(events, n - 1) + BlindAfter(events, n - 1)
  }

  lemma {:induction false} BlindWritesExact(events: seq<Event>, n: nat)
    ensures forall j: nat :: j in BlindWrites(events, n) <==> exists t: nat :: t < n && BlindWrite(events, t, j)
  {
    if n > 0 {
      BlindWritesExact(events, n - 1);
      BlindAfterExact(events, n - 1);
    }
  }

  /** There is at most one: the next write. */
  lemma BlindAfterExact(events: seq<Event>, t: nat)
    ensures forall j: nat :: j in BlindAfter(events, t) <==> BlindWrite(events, t, j)
  {
  }

  /** The recovery check: excess attempts, and then the blind writes in the order of their timeouts. */
  method CheckRecovery(events: seq<Event>, maxAttempts: nat) returns (failures: seq<nat>)
    ensures failures == Excess(events, maxAttempts) + BlindWrites(events, |events|)
    ensures failures == [] <==> RecoversWell(events, maxAttempts)
    ensures forall j: nat :: j in failures <==> OverLimit(events, maxAttempts, j) || IsBlindWrite(events, j)
  {
    hide BlindWrite;
    hide OverLimit;
    hide MixedKeys;
    hide Excess;
    failures := ExcessAttempts(events, maxAttempts);
    for t := 0 to |events|
      invariant failures == Excess(events, maxAttempts) + BlindWrites(events, t)
    {
      if IsTimeout(events[t]) {
        var blind := FirstBlindWrite(events, t);
        if blind.Some? {
          failures := failures + [blind.value];
        }
      } else {
        NoTimeoutNoBlindWrite(events, t);
      }
    }
    BlindWritesExact(events, |events|);
    BlindWritesAreInside(events);
    BlindListExact(events, BlindWrites(events, |events|));
  }

  lemma BlindListExact(events: seq<Event>, found: seq<nat>)
    requires forall j: nat :: j in found <==> exists t: nat :: t < |events| && BlindWrite(events, t, j)
    requires forall t: nat, j: nat :: BlindWrite(events, t, j) ==> t < |events|
    ensures forall j: nat :: j in found <==> IsBlindWrite(events, j)
    ensures found == [] <==> forall t: nat, j: nat :: !BlindWrite(events, t, j)
  {
    hide BlindWrite;
    if found == [] {
      forall t: nat, j: nat
        ensures !BlindWrite(events, t, j)
      {
        assert BlindWrite(events, t, j) ==> j in found;
      }
    } else {
      assert found[0] in found;
    }
  }

  lemma NoTimeoutNoBlindWrite(events: seq<Event>, t: nat)
    requires t < |events| && !IsTimeout(events[t])
    ensures forall j: nat :: !BlindWrite(events, t, j)
  {
  }

  lemma BlindWritesAreInside(events: seq<Event>)
    ensures forall t: nat, j: nat :: BlindWrite(events, t, j) ==> t < |events|
  {
  }

  /** The inner scan from one timeout to the next write. */
  method FirstBlindWrite(events: seq<Event>, t: nat) returns (found: Option<nat>)
    requires t < |events| && IsTimeout(events[t])
    ensures found.Some? ==> BlindWrite(events, t, found.value)
    ensures forall j: nat :: BlindWrite(events, t, j) ==> found == Some(j)
  {
    var j := t + 1;
    var observed := false;
    while j < |events| && !IsWrite(events[j].call.tool)
      invariant t < j <= |events|
      invariant forall i | t < i < j :: !IsWrite(events[i].call.tool)
      invariant observed <==> exists i | t < i < j :: Observes(events[i], events[t].call.order)
    {
      if Observes(events[j], events[t].call.order) {
        observed := true;
      }
      j := j + 1;
    }
    if j == |events| || observed {
      found := None;
    } else {
      found := Some(j);
    }
  }

  /** The one order whose last refund attempt nobody has looked up yet, kept online. */
  datatype Pending = Pending(open: set<Value>, blind: bool)

  function Settle(p: Pending, e: Event): Pending {
    var blind := p.blind || (IsWrite(e.call.tool) && p.open != {});
    var open := if IsWrite(e.call.tool) then {} else p.open;
    var looked := if e.call.tool.GetPayment? && e.reply.Ok() then open - {e.call.order} else open;
    Pending(if IsTimeout(e) then looked + {e.call.order} else looked, blind)
  }

  function Unsettled(events: seq<Event>): Pending {
    if events == [] then Pending({}, false)
    else Settle(Unsettled(events[..|events| - 1]), events[|events| - 1])
  }

  /** Timeout `t` is still unobserved and no write followed it. */
  ghost predicate OpenAt(events: seq<Event>, t: nat, oid: Value) {
    && t < |events| && IsTimeout(events[t]) && events[t].call.order == oid
    && forall i | t < i < |events| :: !IsWrite(events[i].call.tool) && !Observes(events[i], oid)
  }

  lemma {:induction false} OpenExact(events: seq<Event>, oid: Value)
    ensures oid in Unsettled(events).open <==> exists t :: OpenAt(events, t, oid)
  {
    if events != [] {
      var n := |events| - 1;
      var before := events[..n];
      var e := events[n];
      OpenExact(before, oid);
      forall t: nat | t < n
        ensures OpenAt(events, t, oid) <==> OpenAt(before, t, oid) && !IsWrite(e.call.tool) && !Observes(e, oid)
      {
        assert forall i | 0 <= i < n :: before[i] == events[i];
      }
      assert OpenAt(events, n, oid) <==> IsTimeout(e) && e.call.order == oid;
    }
  }

  lemma BlindWritePrefix(events: seq<Event>, t: nat, j: nat)
    requires events != []
    ensures var n := |events| - 1; var before := events[..n];
      && (j < n ==> (BlindWrite(events, t, j) <==> BlindWrite(before, t, j)))
      && (t < n ==> (BlindWrite(events, t, n) <==>
                       IsWrite(events[n].call.tool) && OpenAt(before, t, events[t].call.order)))
  {
    var n := |events| - 1;
    assert forall i | 0 <= i < n :: events[..n][i] == events[i];
  }

  /** One pass with a set of open orders finds a blind write exactly when the nested scan does. */
  lemma {:induction false} OnePassRecovery(events: seq<Event>)
    ensures Unsettled(events).blind <==> exists t, j :: BlindWrite(events, t, j)
  {
    if events != [] {
      var n := |events| - 1;
      var before := events[..n];
      OnePassRecovery(before);
      if Unsettled(before).blind {
        var t, j :| BlindWrite(before, t, j);
        BlindWritePrefix(events, t, j);
      } else if Unsettled(events).blind {
        var oid :| oid in Unsettled(before).open;
        OpenExact(before, oid);
        var t :| OpenAt(before, t, oid);
        BlindWritePrefix(events, t, n);
      } else if t: nat, j: nat :| BlindWrite(events, t, j) {
        BlindWritePrefix(events, t, j);
        OpenExact(before, events[t].call.order);
      }
    }
  }

  // ---------- side effects ----------

  datatype Finding =
    | OrderRow(id: string) | PaymentRow(id: string) | SubjectRow | StockRow(sku: string)
    | RefundTable | ReleaseTable | TicketTable

  function Lookup<V>(m: map<string, V>, k: string): Option<V> {
    if k in m then Some(m[k]) else None
  }

  /** The fields of the subject order that no cancellation may touch. */
  predicate SubjectKept(before: Ledger, after: Ledger, oid: string) {
    oid in before.orders ==>
      && oid in after.orders
      && var a, b := before.orders[oid], after.orders[oid];
         a.customer == b.customer && a.amount == b.amount && a.currency == b.currency
         && a.sku == b.sku && a.quantity == b.quantity
  }

  predicate StockProtected(before: Ledger, oid: string, sku: string) {
    oid !in before.orders || sku != before.orders[oid].sku
  }

  function ChangedKeys<V(==)>(a: map<string, V>, b: map<string, V>): set<string> {
    set k | k in a.Keys + b.Keys && Lookup(a, k) != Lookup(b, k)
  }

  function OrderRows(keys: set<string>, oid: string): set<Finding> { set k | k in keys && k != oid :: OrderRow(k) }

  function PaymentRows(keys: set<string>, oid: string): set<Finding> { set k | k in keys && k != oid :: PaymentRow(k) }

  function StockRows(keys: set<string>, before: Ledger, oid: string): set<Finding> {
    set k | k in keys && StockProtected(before, oid, k) :: StockRow(k)
  }

  function RefundsElsewhere(l: Ledger, oid: string): map<string, Refund> {
    map k | k in l.refunds && l.refunds[k].order != oid :: l.refunds[k]
  }

  function FlagIf(bad: bool, f: Finding): set<Finding> { if bad then {f} else {} }

  /** Everything outside the subject order that differs between two snapshots. */
  function SideEffects(before: Ledger, after: Ledger, oid: string): set<Finding> {
    OrderRows(ChangedKeys(before.orders, after.orders), oid)
    + PaymentRows(ChangedKeys(before.payments, after.payments), oid)
    + FlagIf(!SubjectKept(before, after, oid), SubjectRow)
    + StockRows(ChangedKeys(before.inventory, after.inventory), before, oid)
    + FlagIf(RefundsElsewhere(before, oid) != RefundsElsewhere(after, oid), RefundTable)
    + FlagIf(before.releases - {oid} != after.releases - {oid}, ReleaseTable)
    + FlagIf(before.tickets - {oid} != after.tickets - {oid}, TicketTable)
  }

  /** Walk the keys of two versions of a table and collect those whose rows differ. */
  method Differing<V(==)>(a: map<string, V>, b: map<string, V>) returns (keys: set<string>)
    ensures keys == ChangedKeys(a, b)
  {
    keys := {};
    ghost var all := a.Keys + b.Keys;
    var left := a.Keys + b.Keys;
    while left != {}
      invariant left <= all
      invariant keys == set k | k in all - left && Lookup(a, k) != Lookup(b, k)
    {
      var k :| k in left;
      left := left - {k};
      if Lookup(a, k) != Lookup(b, k) {
        keys := keys + {k};
      }
    }
    assert all - left == all;
  }

  /** The check itself: tables one after the other, each outside the subject order. */
  method CheckSideEffects(before: Ledger, after: Ledger, oid: string) returns (failures: set<Finding>)
    ensures failures == SideEffects(before, after, oid)
  {
    var orders := Differing(before.orders, after.orders);
    var payments := Differing(before.payments, after.payments);
    var stock := Differing(before.inventory, after.inventory);
    failures := OrderRows(orders, oid) + PaymentRows(payments, oid);
    failures := failures + FlagIf(!SubjectKept(before, after, oid), SubjectRow);
    failures := failures + StockRows(stock, before, oid);
    failures := failures + FlagIf(RefundsElsewhere(before, oid) != RefundsElsewhere(after, oid), RefundTable);
    failures := failures + FlagIf(before.releases - {oid} != after.releases - {oid}, ReleaseTable);
    failures := failures + FlagIf(before.tickets - {oid} != after.tickets - {oid}, TicketTable);
  }

  // ---------- response ----------

  datatype Kind = Completed | Refused | Clarification | Escalated

  datatype Response = Response(kind: Kind, order: Option<string>, refundCents: Option<int>)

  /** The response contract: the right kind and order, and a completion or escalation the ledger bears out. */
  predicate ResponseHolds(r: Response, expected: Kind, requested: Option<string>, l: Ledger, events: seq<Event>) {
    && r.kind == expected && r.order == requested
    && (r.kind.Completed? ==>
          && requested.Some? && requested.value in l.orders
          && l.orders[requested.value].status.Cancelled?
          && r.refundCents == Some(if requested.value in l.payments then l.payments[requested.value].refunded else 0)
          && exists i | 0 <= i < |events| ::
               && events[i].call.tool.GetOrder? && events[i].call.order == Text(requested.value)
               && events[i].reply.OrderFound? && events[i].reply.order.status.Cancelled?)
    && (r.kind.Escalated? ==> requested.Some? && requested.value in l.tickets)
  }
}
