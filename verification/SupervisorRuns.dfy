/**
 What holds in every run of the supervisor graph, whatever the plans, the outcomes of the
 workers and the verdicts are.
 */
module SupervisorRuns {
  import opened Common
  import opened TaskPlans
  import opened Supervisor

  const MAX_STEPS := 23

  function Waiting(run: Run): set<string> { Ids(run.plan) - run.results.Keys }

  /** The most steps the run can still take. */
  function Remaining(run: Run): nat {
    var second := if run.revision == 0 then 12 else 0;
    match run.node
    case AtPlan => 11 + second
    case AtDispatch => 2 * |Waiting(run)| + 2 + second
    case AtWorkers(_) => 2 * |Waiting(run)| + 1 + second
    case AtJoin => 1 + second
    case AtReplan => 12
    case _ => 0
  }

  predicate HasPlan(node: Node) { !node.AtPlan? && !node.Crashed? }

  /** The current plan is schedulable, its ids carry the revision, and so do no others that were started. */
  ghost predicate PlanFits(run: Run) {
    && 1 <= |run.plan| <= MAX_TASKS && DistinctIds(run.plan) && Schedulable(run.plan)
    && (forall t | t in run.plan :: OfRevision(run.revision, t.id))
    && (forall t | t in run.started && OfRevision(run.revision, t.id) :: t in run.plan)
  }

  predicate FirstPlanRecoverable(run: Run) {
    forall id | id in run.results && OfRevision(0, id) :: !Permanent(run.results[id])
  }

  /** The id belongs to a plan that has been made so far. */
  predicate StartedUnder(run: Run, id: string) {
    || (OfRevision(0, id) && !(run.node.AtPlan? && run.revision == 0))
    || (OfRevision(1, id) && !run.node.AtPlan? && run.revision == 1)
  }

  /** A reason to stop: everything is answered, or a new plan is not allowed or could not help. */
  ghost predicate MayStop(run: Run) {
    || run.verdict == Some(Complete) || run.revision == 1 || run.noReplan
    || exists id :: id in run.results && Permanent(run.results[id])
  }

  ghost predicate Sound(run: Run) {
    && run.revision <= 1
    && DistinctIds(run.started)
    && (forall t | t in run.started :: DepsDone(t, run.results))
    && run.steps + Remaining(run) <= MAX_STEPS
    && (run.node.Crashed? ==> run.node.why.NodeRaised?)
    && (!run.node.Crashed? ==> run.results.Keys == Ids(run.started))
    && (forall t | t in run.started :: StartedUnder(run, t.id))
    && (HasPlan(run.node) ==> PlanFits(run))
    && (run.node.AtWorkers? ==> run.node.ready == Ready(run.plan, run.results) && run.node.ready != [])
    && (run.node.AtJoin? || run.node.AtReplan? || run.node.Ended? ==> Ready(run.plan, run.results) == [])
    && (run.node.AtReplan? ==> run.revision == 0)
    && (run.node.Ended? ==> run.verdict.Some? && MayStop(run))
    && (run.node.AtReplan? ==> run.verdict.Some? && run.verdict != Some(Complete))
    && (run.node.AtReplan? || run.revision == 1 ==> !run.noReplan && FirstPlanRecoverable(run))
  }

  lemma NewPlanFits(revision: nat, tasks: seq<Task>)
    requires ValidPlan(tasks)
    ensures var plan := RenamePlan(Prefix(revision), tasks);
      && 1 <= |plan| <= MAX_TASKS && DistinctIds(plan) && Schedulable(plan) && |Ids(plan)| <= MAX_TASKS
      && forall t | t in plan :: OfRevision(revision, t.id)
  {
    hide Schedules;
    hide Prefix;
    hide DistinctIds;
    hide Ids;
    var order :| Schedules(tasks, order);
    RenameKeepsSchedules(Prefix(revision), tasks, order);
    CountsDistinct(RenamePlan(Prefix(revision), tasks));
  }

  lemma PlanStep(run: Run, reply: Reply)
    requires Sound(run) && run.node.AtPlan?
    ensures Sound(Advance(run, reply))
  {
    hide Ready;
    hide DepsDone;
    hide Schedulable;
    hide Prefix;
    hide DistinctIds;
    hide Ids;
    hide RenamePlan;
    if reply.Planned? && ValidPlan(reply.tasks) {
      NewPlan(run, Advance(run, reply), reply.tasks);
    }
  }

  lemma NewPlan(run: Run, next: Run, tasks: seq<Task>)
    requires Sound(run) && run.node.AtPlan? && ValidPlan(tasks)
    requires next == run.(steps := run.steps + 1, node := AtDispatch, plan := RenamePlan(Prefix(run.revision), tasks))
    ensures Sound(next)
  {
    hide Ready;
    hide DepsDone;
    hide Schedulable;
    hide ValidPlan;
    hide Prefix;
    hide DistinctIds;
    hide Ids;
    hide RenamePlan;
    NewPlanFits(run.revision, tasks);
    forall t | t in run.started
      ensures !OfRevision(run.revision, t.id)
    {
      RevisionsDiffer(t.id);
    }
    SubsetIsSmaller(Waiting(next), Ids(next.plan));
  }

  lemma SubsetIsSmaller(a: set<string>, b: set<string>)
    requires a <= b
    ensures |a| <= |b|
    ensures a != b ==> |a| < |b|
  {
    assert b == a + (b - a);
    if a != b {
      assert b - a != {};
    }
  }

  lemma DispatchStep(run: Run, reply: Reply)
    requires Sound(run) && run.node.AtDispatch?
    ensures Sound(Advance(run, reply))
  {
    hide Ready;
    hide Prefix;
    hide Schedulable;
    hide DistinctIds;
    hide Ids;
    hide DepsDone;
  }

  lemma IdsOfConcat(a: seq<Task>, b: seq<Task>)
    ensures Ids(a + b) == Ids(a) + Ids(b)
  {
    var all := a + b;
    forall id | id in Ids(a) + Ids(b)
      ensures id in Ids(all)
    {
      if id in Ids(a) {
        var i :| 0 <= i < |a| && a[i].id == id;
        assert all[i].id == id;
      } else {
        var i :| 0 <= i < |b| && b[i].id == id;
        assert all[|a| + i].id == id;
      }
    }
    forall id | id in Ids(all)
      ensures id in Ids(a) + Ids(b)
    {
      var i :| 0 <= i < |all| && all[i].id == id;
      if i < |a| {
        assert a[i].id == id;
      } else {
        assert b[i - |a|].id == id;
      }
    }
  }

  lemma ConcatStaysDistinct(a: seq<Task>, b: seq<Task>)
    requires DistinctIds(a) && DistinctIds(b) && Ids(a) !! Ids(b)
    ensures DistinctIds(a + b)
  {
    forall i, j | 0 <= i < j < |a + b|
      ensures (a + b)[i].id != (a + b)[j].id
    {
      if i < |a| <= j {
        assert a[i].id in Ids(a) && b[j - |a|].id in Ids(b);
      }
    }
  }

  /** The ready tasks are new, and everything they need is there. */
  lemma ReadyAreNew(run: Run)
    requires Sound(run) && run.node.AtWorkers?
    ensures DistinctIds(run.started + run.node.ready)
    ensures Ids(run.started + run.node.ready) == run.results.Keys + Ids(run.node.ready)
    ensures forall t | t in run.node.ready :: t in run.plan && t.id !in run.results && DepsDone(t, run.results)
    ensures DistinctIds(run.node.ready)
    ensures Waiting(run) - Ids(run.node.ready) < Waiting(run)
  {
    hide Ready;
    hide Prefix;
    hide Schedulable;
    var ready := run.node.ready;
    ReadyExact(run.plan, run.results);
    forall id | id in Ids(ready)
      ensures id !in Ids(run.started) && id in Ids(run.plan)
    {
      var i :| 0 <= i < |ready| && ready[i].id == id;
      assert ready[i] in run.plan;
    }
    ConcatStaysDistinct(run.started, ready);
    IdsOfConcat(run.started, ready);
    assert ready[0].id in Ids(ready);
  }

  /** Results are only added to, so what was done stays done. */
  predicate Extends(before: Results, after: Results) {
    forall id | id in before :: id in after && after[id] == before[id]
  }

  lemma DepsStayDone(tasks: seq<Task>, before: Results, after: Results)
    requires Extends(before, after) && forall t | t in tasks :: DepsDone(t, before)
    ensures forall t | t in tasks :: DepsDone(t, after)
  {
    forall t | t in tasks
      ensures DepsDone(t, after)
    {
      assert DepsDone(t, before);
    }
  }

  /** Starting the ready tasks keeps the books about started tasks in order. */
  lemma StartsFit(run: Run, started: seq<Task>)
    requires Sound(run) && run.node.AtWorkers? && started == run.started + run.node.ready
    ensures forall t | t in started :: StartedUnder(run, t.id) && DepsDone(t, run.results)
    ensures forall t | t in started && OfRevision(run.revision, t.id) :: t in run.plan
  {
    hide Prefix;
    hide Ready;
    hide Schedulable;
    hide DistinctIds;
    hide Ids;
    hide DepsDone;
    ReadyAreNew(run);
  }

  lemma FailedRound(run: Run, next: Run)
    requires Sound(run) && run.node.AtWorkers?
    requires next == run.(steps := run.steps + 1, started := run.started + run.node.ready, node := Crashed(NodeRaised))
    ensures Sound(next)
  {
    hide OfRevision;
    hide Ready;
    hide Schedulable;
    hide DistinctIds;
    hide Ids;
    hide DepsDone;
    ReadyAreNew(run);
    StartsFit(run, next.started);
  }

  lemma ReportedRound(run: Run, next: Run, outcomes: map<string, Outcome>)
    requires Sound(run) && run.node.AtWorkers? && AllReport(run.node.ready, outcomes)
    requires Deliver(run.results, run.node.ready, outcomes).Some?
    requires next == run.(steps := run.steps + 1, started := run.started + run.node.ready, node := AtDispatch,
                          results := Deliver(run.results, run.node.ready, outcomes).value)
    ensures Sound(next) && Extends(run.results, next.results)
  {
    hide OfRevision;
    hide Ready;
    hide Schedulable;
    hide DistinctIds;
    hide Ids;
    hide Deliver;
    hide ReportOf;
    hide DepsDone;
    hide FirstPlanRecoverable;
    hide MayStop;
    ReadyAreNew(run);
    DeliverExact(run.results, run.node.ready, outcomes);
    StartsFit(run, next.started);
    DepsStayDone(next.started, run.results, next.results);
    assert Waiting(next) == Waiting(run) - Ids(run.node.ready);
    SubsetIsSmaller(Waiting(next), Waiting(run));
    if run.revision == 1 {
      ReportsCarryTheRevision(run, outcomes);
      StillRecoverable(run, next);
    }
  }

  /** Reports of other plans do not touch what is known about the first one. */
  lemma StillRecoverable(run: Run, next: Run)
    requires FirstPlanRecoverable(run) && Extends(run.results, next.results)
    requires forall id | id in next.results && id !in run.results :: !OfRevision(0, id)
    ensures FirstPlanRecoverable(next)
  {
    hide OfRevision;
  }

  lemma WithinLimit(run: Run)
    requires Sound(run)
    ensures run.steps < STEP_LIMIT && run.revision <= 1
  {
  }

  /** The reports of one round never contradict an earlier result. */
  lemma ReportsMerge(run: Run, outcomes: map<string, Outcome>)
    requires Sound(run) && run.node.AtWorkers? && AllReport(run.node.ready, outcomes)
    ensures Deliver(run.results, run.node.ready, outcomes).Some?
  {
    hide Deliver;
    hide Ready;
    ReadyAreNew(run);
    DeliverExact(run.results, run.node.ready, outcomes);
  }

  lemma WorkersStep(run: Run, reply: Reply)
    requires Sound(run) && run.node.AtWorkers?
    ensures Sound(Advance(run, reply))
    ensures Extends(run.results, Advance(run, reply).results)
  {
    hide Sound;
    hide AllReport;
    hide Deliver;
    hide Ready;
    hide ValidPlan;
    hide Replans;
    WithinLimit(run);
    var ready := run.node.ready;
    if reply.Worked? && AllReport(ready, reply.outcomes) {
      ReportsMerge(run, reply.outcomes);
      ReportedRound(run, Advance(run, reply), reply.outcomes);
    } else {
      FailedRound(run, Advance(run, reply));
    }
  }

  /** In the second plan no new report belongs to the first. */
  lemma ReportsCarryTheRevision(run: Run, outcomes: map<string, Outcome>)
    requires Sound(run) && run.node.AtWorkers? && run.revision == 1 && AllReport(run.node.ready, outcomes)
    ensures forall id | id in Ids(run.node.ready) :: !OfRevision(0, id)
  {
    hide Prefix;
    forall id | id in Ids(run.node.ready)
      ensures !OfRevision(0, id)
    {
      var i :| 0 <= i < |run.node.ready| && run.node.ready[i].id == id;
      ReadyExact(run.plan, run.results);
      assert run.node.ready[i] in run.plan;
      RevisionsDiffer(id);
    }
  }

  lemma ReplanStep(run: Run, reply: Reply)
    requires Sound(run) && run.node.AtReplan?
    ensures Sound(Advance(run, reply))
  {
    hide Ready;
    hide Schedulable;
    hide DistinctIds;
    hide Ids;
    hide Prefix;
  }

  lemma JoinStep(run: Run, reply: Reply)
    requires Sound(run) && run.node.AtJoin?
    ensures Sound(Advance(run, reply))
  {
    hide Ready;
    hide Schedulable;
    hide DistinctIds;
    hide Ids;
    hide Prefix;
    hide DepsDone;
  }

  lemma AdvanceIsSound(run: Run, reply: Reply)
    requires Sound(run)
    ensures Sound(Advance(run, reply))
  {
    hide Sound;
    match run.node {
      case AtPlan => PlanStep(run, reply);
      case AtDispatch => DispatchStep(run, reply);
      case AtWorkers(_) => WorkersStep(run, reply);
      case AtJoin => JoinStep(run, reply);
      case AtReplan => ReplanStep(run, reply);
      case _ =>
    }
  }

  /** Results are kept, and the list of started tasks only grows. */
  lemma NothingIsForgotten(run: Run, reply: Reply)
    requires Sound(run)
    ensures Extends(run.results, Advance(run, reply).results) && run.started <= Advance(run, reply).started
  {
    hide Sound;
    hide Deliver;
    if run.node.AtWorkers? {
      WorkersStep(run, reply);
    }
  }

  lemma {:induction false} RunsAreSound(noReplan: bool, replies: seq<Reply>)
    ensures Sound(Execute(noReplan, replies))
  {
    if replies == [] {
      assert Ids([]) == {};
    } else {
      RunsAreSound(noReplan, replies[..|replies| - 1]);
      AdvanceIsSound(Execute(noReplan, replies[..|replies| - 1]), replies[|replies| - 1]);
    }
  }

  // ---------- what every run guarantees ----------

  /** When workers are started, each of their tasks is new - in both plans together - and everything it
      depends on has a complete result. */
  lemma TasksStartOnceAndInOrder(noReplan: bool, replies: seq<Reply>)
    ensures var run := Execute(noReplan, replies);
      && DistinctIds(run.started)
      && (forall t, d | t in run.started && d in t.dependsOn :: Done(run.results, d))
      && (run.node.AtWorkers? ==>
            && DistinctIds(run.started + run.node.ready)
            && forall t, d | t in run.node.ready && d in t.dependsOn :: Done(run.results, d))
  {
    RunsAreSound(noReplan, replies);
    var run := Execute(noReplan, replies);
    assert forall t | t in run.started :: DepsDone(t, run.results);
    hide Execute;
    hide Sound;
    if run.node.AtWorkers? {
      ReadyAreNew(run);
    }
  }

  /** Every run is over after at most 23 steps; neither the step limit nor a contradiction in the
      results is ever the reason. */
  lemma RunsEnd(noReplan: bool, replies: seq<Reply>)
    ensures var run := Execute(noReplan, replies);
      && run.steps <= MAX_STEPS < STEP_LIMIT
      && run.node != Crashed(StepLimit) && run.node != Crashed(MergeConflict)
      && (|replies| >= MAX_STEPS ==> run.node.Ended? || run.node.Crashed?)
  {
    hide Advance;
    RunsAreSound(noReplan, replies);
    EveryReplyIsAStep(noReplan, replies);
  }

  lemma {:induction false} EveryReplyIsAStep(noReplan: bool, replies: seq<Reply>)
    ensures var run := Execute(noReplan, replies);
      run.node.Ended? || run.node.Crashed? || run.steps == |replies|
  {
    if replies != [] {
      EveryReplyIsAStep(noReplan, replies[..|replies| - 1]);
    }
  }

  /** A later state still has every earlier result, unchanged, and every start. */
  lemma {:induction false} ResultsArePreserved(noReplan: bool, replies: seq<Reply>, more: seq<Reply>)
    ensures Extends(Execute(noReplan, replies).results, Execute(noReplan, replies + more).results)
    ensures Execute(noReplan, replies).started <= Execute(noReplan, replies + more).started
  {
    hide Sound;
    hide Advance;
    if more == [] {
      assert replies + more == replies;
    } else {
      var n := |more| - 1;
      var all := replies + more;
      assert all[..|all| - 1] == replies + more[..n];
      ResultsArePreserved(noReplan, replies, more[..n]);
      RunsAreSound(noReplan, replies + more[..n]);
      NothingIsForgotten(Execute(noReplan, replies + more[..n]), more[n]);
    }
  }

  /** There is at most one new plan: only when no result of the first plan was a permanent failure, and always
      when the verdict was not complete, replanning was allowed and no result was a permanent failure. */
  lemma OnlyRecoverableFailuresReplan(noReplan: bool, replies: seq<Reply>)
    ensures var run := Execute(noReplan, replies);
      && run.revision <= 1
      && (run.revision == 1 ==>
            !noReplan && forall id | id in run.results && OfRevision(0, id) :: !Permanent(run.results[id]))
      && (run.node.Ended? && run.verdict != Some(Complete) ==>
            run.revision == 1 || noReplan || exists id :: id in run.results && Permanent(run.results[id]))
  {
    RunsAreSound(noReplan, replies);
    ConfigStays(noReplan, replies);
  }

  lemma {:induction false} ConfigStays(noReplan: bool, replies: seq<Reply>)
    ensures Execute(noReplan, replies).noReplan == noReplan
  {
    if replies != [] {
      ConfigStays(noReplan, replies[..|replies| - 1]);
    }
  }

  // ---------- the order of the accepted plan ----------

  /** Tasks of this revision are tasks of this plan, and it stays the plan as long as the revision does. */
  ghost predicate StillPlanned(run: Run, revision: nat, plan: seq<Task>) {
    && revision <= run.revision
    && (forall t | t in run.started && OfRevision(revision, t.id) :: t in plan)
    && (run.revision == revision ==> run.plan == plan && !run.node.AtPlan?)
  }

  lemma StillPlannedStep(run: Run, reply: Reply, revision: nat, plan: seq<Task>)
    requires Sound(run) && StillPlanned(run, revision, plan)
    ensures StillPlanned(Advance(run, reply), revision, plan)
  {
    hide Deliver;
    hide AllReport;
    hide Ready;
    hide ValidPlan;
    hide Prefix;
    hide Schedulable;
    hide DistinctIds;
    hide Ids;
    if run.node.AtWorkers? {
      ReadyOfPlan(run);
      forall t | t in run.node.ready && OfRevision(revision, t.id)
        ensures run.revision == revision
      {
        RevisionsDiffer(t.id);
      }
    }
  }

  lemma ReadyOfPlan(run: Run)
    requires Sound(run) && run.node.AtWorkers?
    ensures forall t | t in run.node.ready :: t in run.plan && OfRevision(run.revision, t.id)
  {
    hide Ready;
    hide Prefix;
    hide Schedulable;
    hide DistinctIds;
    hide Ids;
    hide DepsDone;
    ReadyExact(run.plan, run.results);
  }

  lemma {:induction false} StillPlannedLater(noReplan: bool, replies: seq<Reply>, more: seq<Reply>,
                                             revision: nat, plan: seq<Task>)
    requires StillPlanned(Execute(noReplan, replies), revision, plan)
    ensures StillPlanned(Execute(noReplan, replies + more), revision, plan)
  {
    hide Advance;
    hide Sound;
    hide StillPlanned;
    if more == [] {
      assert replies + more == replies;
    } else {
      var n := |more| - 1;
      StillPlannedLater(noReplan, replies, more[..n], revision, plan);
      RunsAreSound(noReplan, replies + more[..n]);
      StillPlannedStep(Execute(noReplan, replies + more[..n]), more[n], revision, plan);
      assert (replies + more)[..|replies + more| - 1] == replies + more[..n];
    }
  }

  /** An accepted plan is what the run works on: whenever, now or after a replan, one of its tasks has been started,
      every task it depends on in the accepted plan is complete. */
  lemma AcceptedOrderIsKept(noReplan: bool, replies: seq<Reply>, tasks: seq<Task>, more: seq<Reply>, i: nat, j: nat)
    requires Execute(noReplan, replies).node.AtPlan? && ValidPlan(tasks)
    requires i < |tasks| && j < |tasks| && tasks[j].id in tasks[i].dependsOn
    ensures var prefix := Prefix(Execute(noReplan, replies).revision);
      var run := Execute(noReplan, replies + [Planned(tasks)] + more);
      prefix + tasks[i].id in Ids(run.started) ==> Done(run.results, prefix + tasks[j].id)
  {
    hide Sound;
    hide Execute;
    hide Advance;
    hide Prefix;
    var at := Execute(noReplan, replies);
    var plan := RenamePlan(Prefix(at.revision), tasks);
    var first := replies + [Planned(tasks)];
    RunsAreSound(noReplan, replies);
    RunsAreSound(noReplan, first + more);
    ExecuteAppend(noReplan, replies, Planned(tasks));
    PlanIsTaken(at, tasks);
    StillPlannedLater(noReplan, first, more, at.revision, plan);
    StartedInOrder(Execute(noReplan, first + more), at.revision, tasks, i, j);
  }

  lemma ExecuteAppend(noReplan: bool, replies: seq<Reply>, reply: Reply)
    ensures Execute(noReplan, replies + [reply]) == Advance(Execute(noReplan, replies), reply)
  {
    assert (replies + [reply])[..|replies|] == replies;
  }

  lemma PlanIsTaken(run: Run, tasks: seq<Task>)
    requires Sound(run) && run.node.AtPlan? && ValidPlan(tasks)
    ensures StillPlanned(Advance(run, Planned(tasks)), run.revision, RenamePlan(Prefix(run.revision), tasks))
  {
    hide ValidPlan;
    hide Prefix;
    hide RenamePlan;
    WithinLimit(run);
    forall t | t in run.started
      ensures !OfRevision(run.revision, t.id)
    {
      RevisionsDiffer(t.id);
    }
  }

  lemma StartedInOrder(run: Run, revision: nat, tasks: seq<Task>, i: nat, j: nat)
    requires Sound(run) && StillPlanned(run, revision, RenamePlan(Prefix(revision), tasks)) && DistinctIds(tasks)
    requires i < |tasks| && j < |tasks| && tasks[j].id in tasks[i].dependsOn
    ensures Prefix(revision) + tasks[i].id in Ids(run.started) ==> Done(run.results, Prefix(revision) + tasks[j].id)
  {
    var prefix := Prefix(revision);
    var plan := RenamePlan(prefix, tasks);
    if prefix + tasks[i].id in Ids(run.started) {
      StartsHaveTheirDeps(run);
      hide Sound;
      hide Prefix;
      var t := IdOf(run.started, prefix + tasks[i].id);
      RenameKeepsPlan(prefix, tasks);
      RenamedAreDistinct(prefix, tasks);
      assert plan[i] in plan;
      SameIdSameTask(plan, t, plan[i]);
    }
  }

  lemma StartsHaveTheirDeps(run: Run)
    requires Sound(run)
    ensures forall t | t in run.started :: DepsDone(t, run.results)
  {
  }

  lemma RenamedAreDistinct(prefix: string, tasks: seq<Task>)
    requires DistinctIds(tasks)
    ensures DistinctIds(RenamePlan(prefix, tasks))
  {
    var renamed := RenamePlan(prefix, tasks);
    forall i, j | 0 <= i < j < |tasks|
      ensures renamed[i].id != renamed[j].id
    {
      if renamed[i].id == renamed[j].id {
        PrefixInjective(prefix, tasks[i].id, tasks[j].id);
      }
    }
  }

  // ---------- which tasks never start ----------

  ghost predicate DependsOn(plan: seq<Task>, a: string, b: string) {
    exists t :: t in plan && t.id == a && b in t.dependsOn
  }

  /** A chain of dependencies from its first id to its last. */
  ghost predicate Chain(plan: seq<Task>, ids: seq<string>) {
    |ids| >= 2 && forall i | 0 <= i < |ids| - 1 :: DependsOn(plan, ids[i], ids[i + 1])
  }

  /** Some task that this one depends on, directly or not, ran and did not complete. */
  ghost predicate Blocked(run: Run, id: string) {
    exists ids :: Chain(run.plan, ids) && ids[0] == id && BrokenEnd(run, ids)
  }

  predicate BrokenEnd(run: Run, ids: seq<string>)
    requires ids != []
  {
    var last := ids[|ids| - 1];
    last in run.results && !run.results[last].status.Complete?
  }

  lemma SameIdSameTask(tasks: seq<Task>, a: Task, b: Task)
    requires DistinctIds(tasks) && a in tasks && b in tasks && a.id == b.id
    ensures a == b
  {
    var i :| 0 <= i < |tasks| && tasks[i] == a;
    var j :| 0 <= j < |tasks| && tasks[j] == b;
    assert !(i < j) && !(j < i);
  }

  lemma InIds(tasks: seq<Task>, t: Task)
    requires t in tasks
    ensures t.id in Ids(tasks)
  {
  }

  lemma IdOf(tasks: seq<Task>, id: string) returns (t: Task)
    requires id in Ids(tasks)
    ensures t in tasks && t.id == id
  {
    var i :| 0 <= i < |tasks| && tasks[i].id == id;
    t := tasks[i];
  }

  /** The result under the id of a planned task comes from that task. */
  lemma WhoReported(run: Run, t: Task) returns (u: Task)
    requires Sound(run) && HasPlan(run.node) && t in run.plan && t.id in run.results
    ensures u == t && u in run.started && DepsDone(u, run.results)
  {
    hide Ready;
    hide DepsDone;
    hide Schedulable;
    hide DistinctIds;
    hide Ids;
    hide OfRevision;
    hide Waiting;
    u := IdOf(run.started, t.id);
    SameIdSameTask(run.plan, t, u);
  }

  /** A task with a result has only complete dependencies. */
  lemma RanSoDepsDone(run: Run, a: string, b: string)
    requires Sound(run) && HasPlan(run.node) && DependsOn(run.plan, a, b) && a in run.results
    ensures Done(run.results, b)
  {
    hide Sound;
    var t :| t in run.plan && t.id == a && b in t.dependsOn;
    var u := WhoReported(run, t);
  }

  lemma {:induction false} RanSoNotBlocked(run: Run, ids: seq<string>)
    requires Sound(run) && HasPlan(run.node) && Chain(run.plan, ids) && ids[0] in run.results
    ensures !BrokenEnd(run, ids)
    decreases |ids|
  {
    hide Sound;
    hide DependsOn;
    RanSoDepsDone(run, ids[0], ids[1]);
    if |ids| > 2 {
      var rest := ids[1..];
      forall i | 0 <= i < |rest| - 1
        ensures DependsOn(run.plan, rest[i], rest[i + 1])
      {
        assert rest[i] == ids[i + 1] && rest[i + 1] == ids[i + 2];
      }
      RanSoNotBlocked(run, rest);
    }
  }

  /** By the place in a schedule: a task that did not start has a broken dependency somewhere. */
  lemma {:induction false} UnstartedIsBlocked(run: Run, order: seq<string>, place: nat, t: Task)
    requires Sound(run) && (run.node.AtJoin? || run.node.Ended?)
    requires Schedules(run.plan, order) && place < |order| && order[place] == t.id
    requires t in run.plan && t.id !in run.results
    ensures Blocked(run, t.id)
    decreases place
  {
    hide Prefix;
    ReadyExact(run.plan, run.results);
    assert !IsReady(t, run.results);
    var d :| d in t.dependsOn && !Done(run.results, d);
    assert DependsOn(run.plan, t.id, d);
    if d in run.results {
      assert Chain(run.plan, [t.id, d]) && BrokenEnd(run, [t.id, d]);
    } else {
      var earlier, u := DependencyComesEarlier(run, order, place, t, d);
      UnstartedIsBlocked(run, order, earlier, u);
      var ids :| Chain(run.plan, ids) && ids[0] == d && BrokenEnd(run, ids);
      ChainGrows(run.plan, t.id, ids);
      assert BrokenEnd(run, [t.id] + ids);
    }
  }

  lemma ChainGrows(plan: seq<Task>, id: string, ids: seq<string>)
    requires Chain(plan, ids) && DependsOn(plan, id, ids[0])
    ensures Chain(plan, [id] + ids)
  {
    var all := [id] + ids;
    forall i | 0 <= i < |all| - 1
      ensures DependsOn(plan, all[i], all[i + 1])
    {
      if i > 0 {
        assert all[i] == ids[i - 1] && all[i + 1] == ids[i];
      }
    }
  }

  lemma DependencyComesEarlier(run: Run, order: seq<string>, place: nat, t: Task, d: string)
      returns (earlier: nat, u: Task)
    requires DistinctIds(run.plan) && Schedules(run.plan, order) && place < |order| && order[place] == t.id
    requires t in run.plan && d in t.dependsOn
    ensures earlier < place && order[earlier] == d && u in run.plan && u.id == d
  {
    assert Fits(run.plan, order, place);
    var i: nat :| Placed(run.plan, order, place, i);
    SameIdSameTask(run.plan, t, run.plan[i]);
    assert d in Elements(order[..place]);
    earlier :| 0 <= earlier < place && order[..place][earlier] == d;
    assert d in Ids(run.plan) by {
      assert order[earlier] in Elements(order);
    }
    var k :| 0 <= k < |run.plan| && run.plan[k].id == d;
    u := run.plan[k];
  }

  /** At the join a task of the plan has not started exactly when some task it depends on, directly or not,
      ran and did not complete. */
  lemma UnstartedExactlyIfBlocked(noReplan: bool, replies: seq<Reply>, t: Task)
    requires var run := Execute(noReplan, replies);
      (run.node.AtJoin? || run.node.Ended?) && t in run.plan
    ensures var run := Execute(noReplan, replies);
      t !in run.started <==> Blocked(run, t.id)
    ensures var run := Execute(noReplan, replies);
      t !in run.started <==> t.id !in run.results
  {
    RunsAreSound(noReplan, replies);
    var run := Execute(noReplan, replies);
    hide Execute;
    StartedHasResult(run, t);
    hide Sound;
    if t.id !in run.results {
      var order, place := PlaceOf(run, t);
      UnstartedIsBlocked(run, order, place, t);
    } else {
      forall ids | Chain(run.plan, ids) && ids[0] == t.id
        ensures !BrokenEnd(run, ids)
      {
        RanSoNotBlocked(run, ids);
      }
    }
  }

  lemma StartedHasResult(run: Run, t: Task)
    requires Sound(run) && HasPlan(run.node) && t in run.plan
    ensures t in run.started <==> t.id in run.results
  {
    hide Ready;
    hide DepsDone;
    hide Schedulable;
    hide DistinctIds;
    hide OfRevision;
    hide Waiting;
    if t in run.started {
      InIds(run.started, t);
    }
    if t.id in run.results {
      var u := WhoReported(run, t);
    }
  }

  lemma PlaceOf(run: Run, t: Task) returns (order: seq<string>, place: nat)
    requires Sound(run) && HasPlan(run.node) && t in run.plan
    ensures Schedules(run.plan, order) && place < |order| && order[place] == t.id
  {
    hide Prefix;
    assert Schedulable(run.plan);
    order :| Schedules(run.plan, order);
    var i :| 0 <= i < |run.plan| && run.plan[i] == t;
    assert t.id in Ids(run.plan);
    assert t.id in Elements(order);
    place :| place < |order| && order[place] == t.id;
  }

  // ---------- ids that do not fit any more ----------

  /** A round crashes exactly when some worker raises (or never returns), or a started id is too long for the
      schema once it carries the revision: the validator allows 100 characters, the prefix takes three. */
  lemma RoundCrashesExactly(noReplan: bool, replies: seq<Reply>, outcomes: map<string, Outcome>)
    requires Execute(noReplan, replies).node.AtWorkers?
    ensures var run := Execute(noReplan, replies);
      && (Advance(run, Worked(outcomes)).node.Crashed? <==>
            exists t :: t in run.node.ready && (t.id !in outcomes || outcomes[t.id].Raised? || |t.id| > MAX_ID))
      && |Prefix(run.revision)| == 3
  {
    hide Sound;
    hide Advance;
    RunsAreSound(noReplan, replies);
    RoundCrashes(Execute(noReplan, replies), outcomes);
  }

  lemma AllReportExactly(ready: seq<Task>, outcomes: map<string, Outcome>)
    ensures !AllReport(ready, outcomes) <==>
      exists t :: t in ready && (t.id !in outcomes || outcomes[t.id].Raised? || |t.id| > MAX_ID)
  {
  }

  lemma PrefixLength(revision: nat)
    requires revision <= 1
    ensures |Prefix(revision)| == 3
  {
  }

  lemma RoundCrashes(run: Run, outcomes: map<string, Outcome>)
    requires Sound(run) && run.node.AtWorkers?
    ensures Advance(run, Worked(outcomes)).node.Crashed? <==>
      exists t :: t in run.node.ready && (t.id !in outcomes || outcomes[t.id].Raised? || |t.id| > MAX_ID)
    ensures |Prefix(run.revision)| == 3
  {
    hide Sound;
    hide AllReport;
    hide Deliver;
    hide Prefix;
    hide Ready;
    hide ValidPlan;
    hide Replans;
    WithinLimit(run);
    AllReportExactly(run.node.ready, outcomes);
    if AllReport(run.node.ready, outcomes) {
      ReportsMerge(run, outcomes);
    }
    PrefixLength(run.revision);
  }

  /** An accepted plan has led to a round with an id the worker cannot read back. */
  ghost predicate ReachesLongId(tasks: seq<Task>) {
    && ValidPlan(tasks)
    && var run := Execute(false, [Planned(tasks), NoReply]);
       run.node.AtWorkers? && exists t :: t in run.node.ready && |t.id| > MAX_ID
  }

  /** It does happen: a plan of one task, with any id of 98 to 100 characters. */
  lemma LongIdIsReached(id: string)
    requires MAX_ID - 3 < |id| <= MAX_ID
    ensures ReachesLongId([Task(id, "general", "objective", [])])
  {
    var t := Task(id, "general", "objective", []);
    var tasks, replies := [t], [Planned([t]), NoReply];
    assert Placed(tasks, [id], 0, 0) && Fits(tasks, [id], 0);
    assert Schedules(tasks, [id]);
    assert ValidPlan(tasks);
    var plan := RenamePlan(Prefix(0), tasks);
    assert replies[..1] == [Planned(tasks)] && replies[..1][..0] == [];
    assert Execute(false, []) == Begin(false);
    var s1 := Advance(Begin(false), Planned(tasks));
    assert Execute(false, replies[..1]) == s1;
    ReadyExact(plan, map[]);
    PrefixLength(0);
    assert plan[0] in plan && IsReady(plan[0], map[]) && |plan[0].id| > MAX_ID;
    assert Execute(false, replies) == Advance(s1, NoReply);
    assert ReachesLongId(tasks);
  }
}
