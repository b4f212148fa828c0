/**
 A plan of tasks with dependencies: when the validator accepts it, and how the results of
 concurrent workers are merged.
 */
module TaskPlans {
  import opened Common

  datatype Task = Task(id: string, role: string, objective: string, dependsOn: seq<string>)

  datatype PlanError = DuplicateId | UnknownOrCyclic

  function Ids(tasks: seq<Task>): set<string> { set i | 0 <= i < |tasks| :: tasks[i].id }

  function Deps(t: Task): set<string> { set d | d in t.dependsOn }

  ghost predicate DistinctIds(tasks: seq<Task>) {
    forall i, j | 0 <= i < j < |tasks| :: tasks[i].id != tasks[j].id
  }

  function Elements(order: seq<string>): set<string> { set x | x in order }

  /** Task `i` may come at this place of an order: everything it depends on is in front of it. */
  ghost predicate Placed(tasks: seq<Task>, order: seq<string>, place: nat, i: nat)
    requires place < |order|
  {
    i < |tasks| && tasks[i].id == order[place] && Deps(tasks[i]) <= Elements(order[..place])
  }

  ghost predicate Fits(tasks: seq<Task>, order: seq<string>, place: nat)
    requires place < |order|
  {
    exists i: nat :: Placed(tasks, order, place, i)
  }

  /** No id twice, and every id in the order names a task whose dependencies come earlier. */
  ghost predicate Topological(tasks: seq<Task>, order: seq<string>) {
    && (forall i, j | 0 <= i < j < |order| :: order[i] != order[j])
    && (forall place: nat | place < |order| :: Fits(tasks, order, place))
  }

  /** A topological order of the whole plan. */
  ghost predicate Schedules(tasks: seq<Task>, order: seq<string>) {
    Topological(tasks, order) && Elements(order) == Ids(tasks)
  }

  /** As many ids as tasks exactly when no id is used twice. */
  lemma {:induction false} CountsDistinct(tasks: seq<Task>)
    ensures |Ids(tasks)| <= |tasks|
    ensures |Ids(tasks)| == |tasks| <==> DistinctIds(tasks)
  {
    if tasks != [] {
      var n := |tasks| - 1;
      CountsDistinct(tasks[..n]);
      OneMoreTask(tasks);
    }
  }

  lemma OneMoreTask(tasks: seq<Task>)
    requires tasks != []
    ensures var before, id := tasks[..|tasks| - 1], tasks[|tasks| - 1].id;
      && Ids(tasks) == Ids(before) + {id}
      && (DistinctIds(tasks) <==> DistinctIds(before) && id !in Ids(before))
  {
    var n := |tasks| - 1;
    var before, t := tasks[..n], tasks[n];
    assert forall i | 0 <= i < n :: before[i] == tasks[i];
    if DistinctIds(before) && t.id !in Ids(before) {
      forall i | 0 <= i < n
        ensures tasks[i].id != t.id
      {
        assert before[i].id in Ids(before);
      }
    }
  }

  /** A distinct sequence is as long as the set of its elements. */
  lemma {:induction false} DistinctLength(order: seq<string>)
    requires forall i, j | 0 <= i < j < |order| :: order[i] != order[j]
    ensures |Elements(order)| == |order|
  {
    if order != [] {
      var n := |order| - 1;
      DistinctLength(order[..n]);
      assert order == order[..n] + [order[n]];
      assert Elements(order) == Elements(order[..n]) + {order[n]};
    }
  }

  /** The order grows by a task whose dependencies are all in it. */
  lemma TopologicalStep(tasks: seq<Task>, order: seq<string>, i: nat)
    requires Topological(tasks, order) && i < |tasks|
    requires Deps(tasks[i]) <= Elements(order) && tasks[i].id !in order
    ensures Topological(tasks, order + [tasks[i].id])
    ensures Elements(order + [tasks[i].id]) == Elements(order) + {tasks[i].id}
  {
    var more := order + [tasks[i].id];
    forall place: nat | place < |more|
      ensures Fits(tasks, more, place)
    {
      assert more[..place] == (if place < |order| then order[..place] else order);
      if place < |order| {
        assert Fits(tasks, order, place);
        var k: nat :| Placed(tasks, order, place, k);
        assert Placed(tasks, more, place, k);
      } else {
        assert Placed(tasks, more, place, i);
      }
    }
  }

  /** In a full schedule each place is ready once all earlier places are done. */
  lemma ReadyInTurn(tasks: seq<Task>, order: seq<string>, place: nat, done: set<string>, i: nat)
    requires DistinctIds(tasks) && Schedules(tasks, order) && place < |order|
    requires forall j | 0 <= j < place :: order[j] in done
    requires i < |tasks| && tasks[i].id == order[place]
    ensures Deps(tasks[i]) <= done
  {
    assert Fits(tasks, order, place);
    var k: nat :| Placed(tasks, order, place, k);
    assert k == i;
  }

  /** In every schedule the tasks of the first `places` places are done. */
  ghost predicate DoneUpTo(tasks: seq<Task>, done: set<string>, places: nat) {
    forall order, j | Schedules(tasks, order) && 0 <= j < places && j < |order| :: order[j] in done
  }

  /** ... and the next one as well, if it is among the first `i` tasks of the plan. */
  ghost predicate DoneAmong(tasks: seq<Task>, done: set<string>, place: nat, i: nat) {
    forall order, k | Schedules(tasks, order) && place < |order| && 0 <= k < i && k < |tasks|
      && tasks[k].id == order[place] :: order[place] in done
  }

  lemma NoPlaceYet(tasks: seq<Task>)
    ensures DoneUpTo(tasks, {}, 0) && Topological(tasks, []) && Elements([]) == {}
  {
  }

  lemma SweepBegins(tasks: seq<Task>, done: set<string>, place: nat)
    ensures DoneAmong(tasks, done, place, 0)
  {
  }

  /** One test of a sweep: a task whose dependencies are done is done. */
  lemma SweepStep(tasks: seq<Task>, done: set<string>, place: nat, i: nat, after: set<string>)
    requires DistinctIds(tasks) && i < |tasks| && DoneUpTo(tasks, done, place) && DoneAmong(tasks, done, place, i)
    requires after == if Deps(tasks[i]) <= done then done + {tasks[i].id} else done
    ensures DoneUpTo(tasks, after, place) && DoneAmong(tasks, after, place, i + 1)
  {
    hide DistinctIds;
    hide Schedules;
    hide Deps;
    forall order, k | Schedules(tasks, order) && place < |order| && 0 <= k < i + 1 && tasks[k].id == order[place]
      ensures order[place] in after
    {
      if k == i {
        ReadyInTurn(tasks, order, place, done, i);
      }
    }
  }

  lemma SweepEnds(tasks: seq<Task>, done: set<string>, place: nat)
    requires DoneUpTo(tasks, done, place) && DoneAmong(tasks, done, place, |tasks|)
    ensures DoneUpTo(tasks, done, place + 1)
  {
    forall order, j | Schedules(tasks, order) && 0 <= j < place + 1 && j < |order|
      ensures order[j] in done
    {
      if j == place {
        assert order[place] in Elements(order);
        var k :| 0 <= k < |tasks| && tasks[k].id == order[place];
      }
    }
  }

  /** After as many sweeps as tasks a plan with a schedule is done. */
  lemma AllSwept(tasks: seq<Task>, done: set<string>, order: seq<string>)
    requires |Ids(tasks)| == |tasks| && DoneUpTo(tasks, done, |tasks|) && Schedules(tasks, order)
    ensures Ids(tasks) <= done
  {
    DistinctLength(order);
  }

  /** The plan validator: as many sweeps over the tasks as there are tasks. Within a sweep a task already
      sees the tasks accepted before it in the same sweep. */
  method ValidateDag(tasks: seq<Task>) returns (r: Option<PlanError>)
    ensures r == Some(DuplicateId) <==> !DistinctIds(tasks)
    ensures r.None? <==> DistinctIds(tasks) && exists order :: Schedules(tasks, order)
  {
    hide DistinctIds;
    hide Topological;
    hide Deps;
    hide DoneUpTo;
    hide DoneAmong;
    var ids := Ids(tasks);
    CountsDistinct(tasks);
    if |ids| != |tasks| {
      return Some(DuplicateId);
    }
    var done: set<string> := {};
    ghost var order: seq<string> := [];
    NoPlaceYet(tasks);
    for sweep := 0 to |tasks|
      invariant Topological(tasks, order) && Elements(order) == done && done <= ids
      invariant DoneUpTo(tasks, done, sweep)
    {
      SweepBegins(tasks, done, sweep);
      for i := 0 to |tasks|
        invariant Topological(tasks, order) && Elements(order) == done && done <= ids
        invariant DoneUpTo(tasks, done, sweep) && DoneAmong(tasks, done, sweep, i)
      {
        ghost var before := done;
        if Deps(tasks[i]) <= done {
          if tasks[i].id !in done {
            TopologicalStep(tasks, order, i);
            order := order + [tasks[i].id];
          }
          done := done + {tasks[i].id};
        }
        SweepStep(tasks, before, sweep, i, done);
      }
      SweepEnds(tasks, done, sweep);
    }
    forall o | Schedules(tasks, o)
      ensures Ids(tasks) <= done
    {
      AllSwept(tasks, done, o);
    }
    if done != ids {
      return Some(UnknownOrCyclic);
    }
    assert Schedules(tasks, order);
    r := None;
  }

  // ---------- merging results ----------

  datatype Status = Complete | Failed | OtherStatus(name: string)

  /** What a worker leaves behind for a task. */
  datatype Report = Report(status: Status, retryable: bool, task: Task)

  type Results = map<string, Report>

  /** The two maps say the same about every task they share. */
  predicate Compatible(left: Results, right: Results) {
    forall id | id in left && id in right :: left[id] == right[id]
  }

  /** The reducer of concurrent results: a repeated delivery is fine, a contradiction is an error. */
  method MergeResults(left: Results, right: Results) returns (r: Option<Results>)
    ensures r == Merged(left, right)
  {
    var merged := left;
    var todo := right.Keys;
    while todo != {}
      invariant todo <= right.Keys
      invariant merged.Keys == left.Keys + (right.Keys - todo)
      invariant forall id | id in left :: merged[id] == left[id]
      invariant forall id | id in right && id !in todo :: merged[id] == right[id]
      decreases todo
    {
      var id :| id in todo;
      if id in merged && merged[id] != right[id] {
        return None;
      }
      merged := merged[id := right[id]];
      todo := todo - {id};
    }
    assert merged == left + right;
    r := Some(merged);
  }

  function Merged(left: Results, right: Results): Option<Results> {
    if Compatible(left, right) then Some(left + right) else None
  }

  /** Deliveries commute and repeat harmlessly: the arrival order of reports that merge does not matter. */
  lemma MergeOrderDoesNotMatter(base: Results, a: Results, b: Results)
    ensures Merged(base, a).Some? && Merged(Merged(base, a).value, b).Some? <==>
            Merged(base, b).Some? && Merged(Merged(base, b).value, a).Some?
    ensures Merged(base, a).Some? && Merged(Merged(base, a).value, b).Some? ==>
      && Merged(Merged(base, a).value, b) == Merged(Merged(base, b).value, a)
      && Merged(Merged(Merged(base, a).value, b).value, a) == Merged(Merged(base, a).value, b)
  {
    if Merged(base, a).Some? && Merged(base, b).Some? {
      assert Compatible(base + a, b) <==> Compatible(a, b) by {
        assert forall id | id in a && id in b :: id in base + a;
      }
      assert Compatible(base + b, a) <==> Compatible(a, b) by {
        assert forall id | id in a && id in b :: id in base + b;
      }
      if Compatible(a, b) {
        assert base + a + b == base + b + a;
        assert base + a + b + a == base + a + b;
      }
    } else if Merged(base, a).Some? {
      var id :| id in base && id in b && base[id] != b[id];
      assert (base + a)[id] == base[id];
    } else if Merged(base, b).Some? {
      var id :| id in base && id in a && base[id] != a[id];
      assert (base + b)[id] == base[id];
    }
  }
}
