/**
 The supervisor graph: plan, rounds of concurrent workers, join, at most one new plan.
 A run is a list of replies, one per graph step: what the models and the workers returned.
 */
module Supervisor {
  import opened Common
  import opened TaskPlans

  const MAX_TASKS := 4
  const MAX_ID := 100
  const STEP_LIMIT := 40

  /** A plan that passes its schema and the validator. */
  ghost predicate ValidPlan(tasks: seq<Task>) {
    && 1 <= |tasks| <= MAX_TASKS
    && (forall t | t in tasks :: 1 <= |t.id| <= MAX_ID)
    && DistinctIds(tasks) && Schedulable(tasks)
  }

  ghost predicate Schedulable(tasks: seq<Task>) { exists order :: Schedules(tasks, order) }

  /** How a worker call ends. */
  datatype Outcome = Returned(status: Status) | TimedOut | HttpError(code: int) | Raised

  datatype Reply =
    | Planned(tasks: seq<Task>)
    | Worked(outcomes: map<string, Outcome>)
    | Synthesized(status: Status)
    | NoReply

  datatype Crash = NodeRaised | MergeConflict | StepLimit

  datatype Node = AtPlan | AtDispatch | AtWorkers(ready: seq<Task>) | AtJoin | AtReplan | Ended | Crashed(why: Crash)

  /** `started` lists every task a worker was ever started for; `verdict` is the latest joint result. */
  datatype Run = Run(
    node: Node, plan: seq<Task>, results: Results, revision: nat, noReplan: bool,
    verdict: Option<Status>, started: seq<Task>, steps: nat)

  function Decimal(n: nat): string {
    var digit := [(n % 10 + 48) as char];
    if n < 10 then digit else Decimal(n / 10) + digit
  }

  function Prefix(revision: nat): string { "r" + Decimal(revision) + "-" }

  function Rename(prefix: string, t: Task): Task {
    t.(id := prefix + t.id, dependsOn := seq(|t.dependsOn|, i requires 0 <= i < |t.dependsOn| => prefix + t.dependsOn[i]))
  }

  function RenamePlan(prefix: string, tasks: seq<Task>): seq<Task> {
    seq(|tasks|, i requires 0 <= i < |tasks| => Rename(prefix, tasks[i]))
  }

  predicate Done(results: Results, id: string) { id in results && results[id].status.Complete? }

  predicate DepsDone(t: Task, results: Results) { forall d | d in t.dependsOn :: Done(results, d) }

  predicate IsReady(t: Task, results: Results) { t.id !in results && DepsDone(t, results) }

  function Ready(plan: seq<Task>, results: Results): seq<Task> {
    if plan == [] then []
    else
      var before := Ready(plan[..|plan| - 1], results);
      var t := plan[|plan| - 1];
      if IsReady(t, results) then before + [t] else before
  }

  /** The worker reads its task back through the schema, where a prefixed id may no longer fit. */
  function ReportOf(t: Task, outcomes: map<string, Outcome>): Option<Report> {
    if |t.id| > MAX_ID || t.id !in outcomes then None
    else
      match outcomes[t.id]
      case Returned(status) => Some(Report(status, false, t))
      case TimedOut => Some(Report(Failed, true, t))
      case HttpError(code) => Some(Report(Failed, code == 408 || code == 429 || code >= 500, t))
      case Raised => None
  }

  predicate AllReport(ready: seq<Task>, outcomes: map<string, Outcome>) {
    forall t | t in ready :: ReportOf(t, outcomes).Some?
  }

  /** The reducer takes the workers' reports one after the other. */
  function Deliver(results: Results, ready: seq<Task>, outcomes: map<string, Outcome>): Option<Results>
    requires AllReport(ready, outcomes)
  {
    if ready == [] then Some(results)
    else
      var before := Deliver(results, ready[..|ready| - 1], outcomes);
      var t := ready[|ready| - 1];
      if before.None? then None else Merged(before.value, map[t.id := ReportOf(t, outcomes).value])
  }

  /** A failure that a second plan cannot repair. */
  predicate Permanent(r: Report) { r.status.Failed? && !r.retryable }

  predicate Replans(run: Run, verdict: Status) {
    !verdict.Complete? && run.revision == 0 && !run.noReplan && forall id | id in run.results :: !Permanent(run.results[id])
  }

  /** One graph step. */
  ghost function Advance(run: Run, reply: Reply): Run {
    if run.node.Ended? || run.node.Crashed? then run
    else if run.steps >= STEP_LIMIT then run.(node := Crashed(StepLimit))
    else
      var next := run.(steps := run.steps + 1);
      match run.node
      case AtPlan =>
        if reply.Planned? && ValidPlan(reply.tasks)
        then next.(node := AtDispatch, plan := RenamePlan(Prefix(run.revision), reply.tasks))
        else next.(node := Crashed(NodeRaised))
      case AtDispatch =>
        var ready := Ready(run.plan, run.results);
        next.(node := if ready != [] then AtWorkers(ready) else AtJoin)
      case AtWorkers(ready) =>
        var next := next.(started := run.started + ready);
        if !reply.Worked? || !AllReport(ready, reply.outcomes) then next.(node := Crashed(NodeRaised))
        else
          var merged := Deliver(run.results, ready, reply.outcomes);
          if merged.None? then next.(node := Crashed(MergeConflict))
          else next.(node := AtDispatch, results := merged.value)
      case AtJoin =>
        if !reply.Synthesized? then next.(node := Crashed(NodeRaised))
        else next.(verdict := Some(reply.status), node := if Replans(run, reply.status) then AtReplan else Ended)
      case AtReplan => next.(node := AtPlan, revision := run.revision + 1)
  }

  function Begin(noReplan: bool): Run { Run(AtPlan, [], map[], 0, noReplan, None, [], 0) }

  ghost function Execute(noReplan: bool, replies: seq<Reply>): Run {
    if replies == [] then Begin(noReplan)
    else Advance(Execute(noReplan, replies[..|replies| - 1]), replies[|replies| - 1])
  }

  // ---------- facts about plans ----------

  predicate OfRevision(revision: nat, id: string) { Prefix(revision) <= id }

  lemma RevisionsDiffer(id: string)
    ensures !(OfRevision(0, id) && OfRevision(1, id))
  {
    assert Prefix(0)[1] == '0' && Prefix(1)[1] == '1';
  }

  function RenameOrder(prefix: string, order: seq<string>): seq<string> {
    seq(|order|, i requires 0 <= i < |order| => prefix + order[i])
  }

  lemma PrefixInjective(prefix: string, a: string, b: string)
    requires prefix + a == prefix + b
    ensures a == b
  {
    assert a == (prefix + a)[|prefix|..] && b == (prefix + b)[|prefix|..];
  }

  /** Prefixing every id keeps ids apart and keeps every schedule. */
  lemma RenameKeepsSchedules(prefix: string, tasks: seq<Task>, order: seq<string>)
    requires DistinctIds(tasks) && Schedules(tasks, order)
    ensures DistinctIds(RenamePlan(prefix, tasks))
    ensures Schedules(RenamePlan(prefix, tasks), RenameOrder(prefix, order))
  {
    var renamed, order' := RenamePlan(prefix, tasks), RenameOrder(prefix, order);
    forall i, j | 0 <= i < j < |tasks|
      ensures renamed[i].id != renamed[j].id
    {
      if renamed[i].id == renamed[j].id {
        PrefixInjective(prefix, tasks[i].id, tasks[j].id);
      }
    }
    forall i, j | 0 <= i < j < |order|
      ensures order'[i] != order'[j]
    {
      if order'[i] == order'[j] {
        PrefixInjective(prefix, order[i], order[j]);
      }
    }
    forall place: nat | place < |order'|
      ensures Fits(renamed, order', place)
    {
      assert Fits(tasks, order, place);
      var i: nat :| Placed(tasks, order, place, i);
      forall d | d in Deps(renamed[i])
        ensures d in Elements(order'[..place])
      {
        var k :| 0 <= k < |tasks[i].dependsOn| && d == prefix + tasks[i].dependsOn[k];
        assert tasks[i].dependsOn[k] in Elements(order[..place]);
        var j :| 0 <= j < place && order[j] == tasks[i].dependsOn[k];
        assert order'[..place][j] == d;
      }
      assert Placed(renamed, order', place, i);
    }
    SameElements(prefix, tasks, order);
  }

  /** The stored plan is the accepted one under new ids: every task with its role and objective, and it depends on
      exactly the tasks it depended on. */
  lemma RenameKeepsPlan(prefix: string, tasks: seq<Task>)
    ensures var plan := RenamePlan(prefix, tasks);
      && |plan| == |tasks|
      && (forall i | 0 <= i < |tasks| ::
            plan[i].id == prefix + tasks[i].id && plan[i].role == tasks[i].role && plan[i].objective == tasks[i].objective)
      && (forall i | 0 <= i < |tasks| :: forall d :: d in tasks[i].dependsOn <==> prefix + d in plan[i].dependsOn)
      && (forall i, d | 0 <= i < |tasks| && d in plan[i].dependsOn :: prefix <= d)
  {
    var plan := RenamePlan(prefix, tasks);
    forall i | 0 <= i < |tasks|
      ensures forall d :: d in tasks[i].dependsOn <==> prefix + d in plan[i].dependsOn
    {
      forall d
        ensures d in tasks[i].dependsOn <==> prefix + d in plan[i].dependsOn
      {
        RenameKeepsDependency(prefix, tasks[i], d);
      }
    }
    forall i, d | 0 <= i < |tasks| && d in plan[i].dependsOn
      ensures prefix <= d
    {
      var k :| 0 <= k < |plan[i].dependsOn| && plan[i].dependsOn[k] == d;
      assert d == prefix + tasks[i].dependsOn[k];
    }
  }

  lemma RenameKeepsDependency(prefix: string, t: Task, d: string)
    ensures d in t.dependsOn <==> prefix + d in Rename(prefix, t).dependsOn
  {
    var renamed := Rename(prefix, t);
    if d in t.dependsOn {
      var k :| 0 <= k < |t.dependsOn| && t.dependsOn[k] == d;
      assert renamed.dependsOn[k] == prefix + d;
    }
    if prefix + d in renamed.dependsOn {
      var k :| 0 <= k < |renamed.dependsOn| && renamed.dependsOn[k] == prefix + d;
      assert renamed.dependsOn[k] == prefix + t.dependsOn[k];
      PrefixInjective(prefix, t.dependsOn[k], d);
    }
  }

  lemma SameElements(prefix: string, tasks: seq<Task>, order: seq<string>)
    requires Elements(order) == Ids(tasks)
    ensures Elements(RenameOrder(prefix, order)) == Ids(RenamePlan(prefix, tasks))
  {
    var renamed, order' := RenamePlan(prefix, tasks), RenameOrder(prefix, order);
    forall x | x in Elements(order')
      ensures x in Ids(renamed)
    {
      var j :| 0 <= j < |order'| && order'[j] == x;
      assert order[j] in Ids(tasks);
      var i :| 0 <= i < |tasks| && tasks[i].id == order[j];
      assert renamed[i].id == x;
    }
    forall x | x in Ids(renamed)
      ensures x in Elements(order')
    {
      var i :| 0 <= i < |renamed| && renamed[i].id == x;
      assert tasks[i].id in Elements(order);
      var j :| 0 <= j < |order| && order[j] == tasks[i].id;
      assert order'[j] == x;
    }
  }

  lemma {:induction false} ReadyExact(plan: seq<Task>, results: Results)
    ensures forall t :: t in Ready(plan, results) <==> t in plan && IsReady(t, results)
    ensures DistinctIds(plan) ==> DistinctIds(Ready(plan, results))
  {
    if plan != [] {
      var before, t := plan[..|plan| - 1], plan[|plan| - 1];
      ReadyExact(before, results);
      assert plan == before + [t];
      if DistinctIds(plan) {
        assert DistinctIds(before) by {
          assert forall i | 0 <= i < |before| :: before[i] == plan[i];
        }
        forall i | 0 <= i < |Ready(before, results)|
          ensures Ready(before, results)[i].id != t.id
        {
          assert Ready(before, results)[i] in before;
        }
      }
    }
  }

  /** Which worker calls leave a report, and which of them no second plan can repair: a result that says failed, and
      an HTTP error other than 408, 429 and the 5xx. A report names its task. */
  lemma ReportsExactly(t: Task, outcomes: map<string, Outcome>)
    ensures var r := ReportOf(t, outcomes);
      && (r.None? <==> |t.id| > MAX_ID || t.id !in outcomes || outcomes[t.id].Raised?)
      && (r.Some? ==>
            var o := outcomes[t.id];
            && r.value.task == t
            && (Permanent(r.value) <==>
                  || o == Returned(Failed)
                  || (o.HttpError? && o.code != 408 && o.code != 429 && o.code < 500))
            && (r.value.status.Complete? <==> o == Returned(Complete))
            && (r.value.status.Failed? <==> o == Returned(Failed) || o.TimedOut? || o.HttpError?)
            && (o.Returned? ==> r.value.status == o.status))
  {
  }

  /** Reports of new, distinct tasks never contradict anything. */
  lemma {:induction false} DeliverExact(results: Results, ready: seq<Task>, outcomes: map<string, Outcome>)
    requires AllReport(ready, outcomes) && DistinctIds(ready)
    requires forall t | t in ready :: t.id !in results
    ensures Deliver(results, ready, outcomes).Some?
    ensures var after := Deliver(results, ready, outcomes).value;
      && after.Keys == results.Keys + Ids(ready)
      && (forall id | id in results :: after[id] == results[id])
      && (forall t | t in ready :: after[t.id] == ReportOf(t, outcomes).value)
  {
    if ready != [] {
      var n := |ready| - 1;
      var before, t := ready[..n], ready[n];
      assert ready == before + [t];
      OneMoreTask(ready);
      hide Ids;
      hide DistinctIds;
      hide ReportOf;
      DeliverExact(results, before, outcomes);
    }
  }
}
