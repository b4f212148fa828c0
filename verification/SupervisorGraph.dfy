/**
 The supervisor run as it accumulates its state: each graph step reads and replaces some of
 the fields, using the validator and the reducer, and is proved to be the step function.
 */
module SupervisorGraphs {
  import opened Common
  import opened TaskPlans
  import opened Supervisor
  import opened SupervisorRuns

  /** The plan schema: one to four tasks, ids of 1 to 100 characters, and the validator. */
  method AcceptPlan(tasks: seq<Task>) returns (ok: bool)
    ensures ok <==> ValidPlan(tasks)
  {
    if |tasks| < 1 || |tasks| > MAX_TASKS {
      return false;
    }
    for i := 0 to |tasks|
      invariant forall j | 0 <= j < i :: 1 <= |tasks[j].id| <= MAX_ID
    {
      if |tasks[i].id| < 1 || |tasks[i].id| > MAX_ID {
        assert tasks[i] in tasks;
        return false;
      }
    }
    var error := ValidateDag(tasks);
    ok := error.None?;
  }

  lemma DeliverAppend(results: Results, ready: seq<Task>, outcomes: map<string, Outcome>, i: nat)
    requires AllReport(ready, outcomes) && i < |ready|
    ensures var before := Deliver(results, ready[..i], outcomes);
      Deliver(results, ready[..i + 1], outcomes) ==
        if before.None? then None else Merged(before.value, map[ready[i].id := ReportOf(ready[i], outcomes).value])
  {
    assert ready[..i + 1][..i] == ready[..i];
  }

  lemma {:induction false} ConflictStays(results: Results, ready: seq<Task>, outcomes: map<string, Outcome>, i: nat)
    requires AllReport(ready, outcomes) && i <= |ready| && Deliver(results, ready[..i], outcomes).None?
    ensures Deliver(results, ready, outcomes).None?
    decreases |ready| - i
  {
    if i < |ready| {
      DeliverAppend(results, ready, outcomes, i);
      ConflictStays(results, ready, outcomes, i + 1);
    } else {
      assert ready[..i] == ready;
    }
  }

  /** One round: every worker reports, and the reducer takes the reports one after the other. */
  method RunWorkers(results: Results, ready: seq<Task>, outcomes: map<string, Outcome>) returns (r: Option<Results>)
    requires AllReport(ready, outcomes)
    ensures r == Deliver(results, ready, outcomes)
  {
    var merged := results;
    for i := 0 to |ready|
      invariant Deliver(results, ready[..i], outcomes) == Some(merged)
    {
      DeliverAppend(results, ready, outcomes, i);
      var report := ReportOf(ready[i], outcomes).value;
      var more := MergeResults(merged, map[ready[i].id := report]);
      if more.None? {
        ConflictStays(results, ready, outcomes, i + 1);
        return None;
      }
      merged := more.value;
    }
    assert ready[..|ready|] == ready;
    r := Some(merged);
  }

  class SupervisorGraph {
    const noReplan: bool
    var node: Node
    var plan: seq<Task>
    var results: Results
    var revision: nat
    var verdict: Option<Status>
    var started: seq<Task>
    var steps: nat
    ghost var replies: seq<Reply>

    function State(): Run
      reads this
    {
      Run(node, plan, results, revision, noReplan, verdict, started, steps)
    }

    /** The object is always where the replies so far lead. */
    ghost predicate Valid()
      reads this
    {
      State() == Execute(noReplan, replies)
    }

    constructor (noReplan: bool)
      ensures Valid() && replies == [] && this.noReplan == noReplan
    {
      this.noReplan := noReplan;
      node, plan, results, revision := AtPlan, [], map[], 0;
      verdict, started, steps := None, [], 0;
      replies := [];
    }

    /** One graph step. By `RunsEnd` the step limit and the reducer's conflict never stop it. */
    method Step(reply: Reply)
      requires Valid()
      modifies this
      ensures Valid() && replies == old(replies) + [reply]
      ensures State() == Advance(old(State()), reply)
      ensures node != Crashed(StepLimit) && node != Crashed(MergeConflict) && steps <= MAX_STEPS
    {
      hide Advance;
      Perform(reply);
      ghost var before := replies;
      replies := replies + [reply];
      assert replies[..|replies| - 1] == before;
      RunsEnd(noReplan, replies);
    }

    /** The node whose turn it is. */
    method Perform(reply: Reply)
      modifies this
      ensures State() == Advance(old(State()), reply)
      ensures replies == old(replies)
    {
      hide Ready;
      hide ValidPlan;
      hide Deliver;
      hide AllReport;
      hide RenamePlan;
      hide Replans;
      if node.Ended? || node.Crashed? {
        return;
      }
      if steps >= STEP_LIMIT {
        node := Crashed(StepLimit);
        return;
      }
      match node {
        case AtPlan => MakePlan(reply);
        case AtDispatch =>
          var ready := Ready(plan, results);
          node := if ready != [] then AtWorkers(ready) else AtJoin;
        case AtWorkers(ready) => Round(ready, reply);
        case AtJoin => Join(reply);
        case AtReplan =>
          revision := revision + 1;
          node := AtPlan;
      }
      steps := steps + 1;
    }

    method MakePlan(reply: Reply)
      modifies this`node, this`plan
      ensures State() ==
        if reply.Planned? && ValidPlan(reply.tasks)
        then old(State()).(node := AtDispatch, plan := RenamePlan(Prefix(revision), reply.tasks))
        else old(State()).(node := Crashed(NodeRaised))
    {
      var ok := false;
      if reply.Planned? {
        ok := AcceptPlan(reply.tasks);
      }
      if ok {
        plan := RenamePlan(Prefix(revision), reply.tasks);
        node := AtDispatch;
      } else {
        node := Crashed(NodeRaised);
      }
    }

    method Round(ready: seq<Task>, reply: Reply)
      modifies this`node, this`started, this`results
      ensures var was := old(State()).(started := old(started) + ready);
        State() ==
          if !reply.Worked? || !AllReport(ready, reply.outcomes) then was.(node := Crashed(NodeRaised))
          else if Deliver(was.results, ready, reply.outcomes).None? then was.(node := Crashed(MergeConflict))
          else was.(node := AtDispatch, results := Deliver(was.results, ready, reply.outcomes).value)
    {
      started := started + ready;
      if !reply.Worked? || !AllReport(ready, reply.outcomes) {
        node := Crashed(NodeRaised);
        return;
      }
      var merged := RunWorkers(results, ready, reply.outcomes);
      if merged.None? {
        node := Crashed(MergeConflict);
      } else {
        results := merged.value;
        node := AtDispatch;
      }
    }

    method Join(reply: Reply)
      modifies this`node, this`verdict
      ensures State() ==
        if !reply.Synthesized? then old(State()).(node := Crashed(NodeRaised))
        else old(State()).(
          verdict := Some(reply.status), node := if Replans(old(State()), reply.status) then AtReplan else Ended)
    {
      if !reply.Synthesized? {
        node := Crashed(NodeRaised);
        return;
      }
      var again := Replans(State(), reply.status);
      verdict := Some(reply.status);
      node := if again then AtReplan else Ended;
    }
  }
}
