/**
 Interleaved workers on one registry: exclusion, publication once, and what a worker that has
 lost its lease can break.
 */
module LeaseProtocol {
  import opened Common
  import opened SourceRegistry

  /** What a worker believes: its document, and until when it holds it. */
  datatype Claim = Claim(id: DocId, until: real)

  /** `published` lists every document that was reported ready. */
  datatype Sys = Sys(tables: Tables, now: real, claims: map<nat, Claim>, published: seq<DocId>)

  datatype Step =
    | Wait(seconds: real)
    | Ask(worker: nat, request: Request)
    | Report(worker: nat, state: State, uri: Option<string>, error: Option<string>)

  const START := Sys(Tables(map[], {}, map[]), 1.0, map[], [])

  /** One step of one worker. A worker keeps no claim once it reports the end of its work. */
  ghost function Take(s: Sys, step: Step): Sys {
    match step
    case Wait(seconds) => if seconds > 0.0 then s.(now := s.now + seconds) else s
    case Ask(worker, request) =>
      if worker in s.claims then s
      else
        var r := Reserve(s.tables, s.now, request);
        if r.action.New? || r.action.Resumed?
        then s.(tables := r.tables, claims := s.claims[worker := Claim(r.id, s.now + LEASE_SECONDS)])
        else s.(tables := r.tables)
    case Report(worker, state, uri, error) =>
      if worker !in s.claims then s
      else
        var d := s.claims[worker].id;
        s.(tables := Update(s.tables, s.now, d, state, uri, error),
           claims := if Closing(state) then s.claims - {worker}
                     else s.claims[worker := Claim(d, s.now + LEASE_SECONDS)],
           published := if state.Ready? then s.published + [d] else s.published)
  }

  ghost function Execute(steps: seq<Step>): Sys {
    if steps == [] then START else Take(Execute(steps[..|steps| - 1]), steps[|steps| - 1])
  }

  /** The worker's lease is live. */
  predicate Owns(s: Sys, worker: nat, d: DocId) {
    worker in s.claims && s.claims[worker].id == d && s.now < s.claims[worker].until
  }

  /** No worker reports anything after its lease has run out. */
  predicate InTime(s: Sys, step: Step) {
    step.Report? && step.worker in s.claims ==> s.now < s.claims[step.worker].until
  }

  ghost predicate Punctual(steps: seq<Step>) {
    forall i | 0 <= i < |steps| :: InTime(Execute(steps[..i]), steps[i])
  }

  /** A live claim is the lease in the table, on a document that is not ready, and there is only one; exactly
      the ready documents were published, each once. */
  ghost predicate Sound(s: Sys) {
    && Consistent(s.tables) && s.now >= 0.0
    && (forall w, d | Owns(s, w, d) ::
          d in s.tables.documents && s.tables.documents[d].lease == s.claims[w].until && !s.tables.documents[d].state.Ready?)
    && (forall w, v, d | Owns(s, w, d) && Owns(s, v, d) :: w == v)
    && (forall w | w in s.claims :: s.claims[w].id in s.tables.documents)
    && (forall d :: d in s.published <==> d in s.tables.documents && s.tables.documents[d].state.Ready?)
    && forall i, j | 0 <= i < j < |s.published| :: s.published[i] != s.published[j]
  }

  lemma WaitStep(s: Sys, step: Step)
    requires Sound(s) && step.Wait?
    ensures Sound(Take(s, step))
  {
    var after := Take(s, step);
    assert forall w, d :: Owns(after, w, d) ==> Owns(s, w, d);
  }

  lemma AskStep(s: Sys, step: Step)
    requires Sound(s) && step.Ask?
    ensures Sound(Take(s, step))
  {
    hide Consistent;
    hide Reserve;
    var after := Take(s, step);
    if step.worker !in s.claims {
      var r := Reserve(s.tables, s.now, step.request);
      ReserveKeepsTables(s.tables, s.now, step.request);
      ReserveTouchesOne(s.tables, s.now, step.request);
      ReserveGrantsExactly(s.tables, s.now, step.request);
      var granted := r.action.New? || r.action.Resumed?;
      forall w, d | Owns(after, w, d)
        ensures granted && w == step.worker ==> d == r.id
        ensures !(granted && w == step.worker) ==> Owns(s, w, d) && (granted ==> d != r.id)
      {
        assert !(granted && w == step.worker) ==> Owns(s, w, d);
      }
    }
  }

  lemma UpdateKeepsTables(t: Tables, now: real, d: DocId, state: State, uri: Option<string>, error: Option<string>)
    requires Consistent(t) && (d in t.documents && t.documents[d].state.Ready? ==> state.Ready?)
    ensures Consistent(Update(t, now, d, state, uri, error))
  {
  }

  /** The document is not ready, and no other worker holds it: what a fencing token would let the registry check. */
  ghost predicate Harmless(s: Sys, step: Step) {
    step.Report? && step.worker in s.claims ==>
      var d := s.claims[step.worker].id;
      && (d in s.tables.documents ==> !s.tables.documents[d].state.Ready?)
      && forall v | v != step.worker :: !Owns(s, v, d)
  }

  lemma InTimeIsHarmless(s: Sys, step: Step)
    requires Sound(s) && InTime(s, step)
    ensures Harmless(s, step)
  {
    if step.Report? && step.worker in s.claims {
      assert Owns(s, step.worker, s.claims[step.worker].id);
    }
  }

  lemma ReportStep(s: Sys, step: Step)
    requires Sound(s) && step.Report? && Harmless(s, step)
    ensures Sound(Take(s, step))
  {
    hide Consistent;
    var after := Take(s, step);
    if step.worker in s.claims {
      var d := s.claims[step.worker].id;
      UpdateKeepsTables(s.tables, s.now, d, step.state, step.uri, step.error);
      forall w, e | Owns(after, w, e) && w != step.worker
        ensures Owns(s, w, e) && e != d
      {
        assert Owns(s, w, e);
      }
    }
  }

  /** A report on a ready document, or on one that somebody else holds, breaks the books. */
  lemma HarmfulReport(s: Sys, step: Step)
    requires Sound(s) && step.Report? && !Harmless(s, step)
    ensures !Sound(Take(s, step))
  {
    hide Consistent;
    var after := Take(s, step);
    var d := s.claims[step.worker].id;
    if s.tables.documents[d].state.Ready? {
      ReportedReadyTwice(s, step, d);
    } else {
      var v :| v != step.worker && Owns(s, v, d);
      assert Owns(after, v, d);
      if !Closing(step.state) {
        assert Owns(after, step.worker, d);
      }
    }
  }

  lemma ReportedReadyTwice(s: Sys, step: Step, d: DocId)
    requires Sound(s) && step.Report? && step.worker in s.claims && d == s.claims[step.worker].id
    requires s.tables.documents[d].state.Ready?
    ensures !Sound(Take(s, step))
  {
    hide Consistent;
    var after := Take(s, step);
    assert d in s.published;
    var i :| 0 <= i < |s.published| && s.published[i] == d;
    if step.state.Ready? {
      assert after.published == s.published + [d];
      assert after.published[i] == after.published[|s.published|];
    } else {
      assert d in after.published;
    }
  }

  lemma StepIsSoundExactly(s: Sys, step: Step)
    requires Sound(s)
    ensures Sound(Take(s, step)) <==> Harmless(s, step)
  {
    match step {
      case Wait(_) => WaitStep(s, step);
      case Ask(_, _) => AskStep(s, step);
      case Report(_, _, _, _) =>
        if Harmless(s, step) {
          ReportStep(s, step);
        } else {
          HarmfulReport(s, step);
        }
    }
  }

  /** A run keeps the books in order at every step exactly when every report in it is harmless. */
  lemma {:induction false} RunIsSoundExactly(steps: seq<Step>)
    ensures (forall i | 0 <= i <= |steps| :: Sound(Execute(steps[..i]))) <==>
      forall i | 0 <= i < |steps| :: Harmless(Execute(steps[..i]), steps[i])
  {
    hide Sound;
    hide Harmless;
    hide Take;
    if steps == [] {
      StartIsSound();
    } else {
      var n := |steps| - 1;
      var before := steps[..n];
      RunIsSoundExactly(before);
      assert forall i | 0 <= i <= n :: before[..i] == steps[..i];
      assert forall i | 0 <= i < n :: before[i] == steps[i];
      assert steps[..n + 1] == steps && steps[..n] == before && before[..n] == before;
      assert Execute(steps) == Take(Execute(before), steps[n]);
      if Sound(Execute(before)) {
        StepIsSoundExactly(Execute(before), steps[n]);
      }
      PrefixesSplit(steps);
    }
  }

  lemma StartIsSound()
    ensures Sound(Execute([]))
  {
  }

  /** All prefixes are the whole run and the prefixes of the run without its last step. */
  lemma PrefixesSplit(steps: seq<Step>)
    requires steps != []
    ensures var n := |steps| - 1; var before := steps[..n];
      && ((forall i | 0 <= i <= |steps| :: Sound(Execute(steps[..i]))) <==>
            (forall i | 0 <= i <= n :: Sound(Execute(before[..i]))) && Sound(Execute(steps)))
      && ((forall i | 0 <= i < |steps| :: Harmless(Execute(steps[..i]), steps[i])) <==>
            (forall i | 0 <= i < n :: Harmless(Execute(before[..i]), before[i])) && Harmless(Execute(before), steps[n]))
  {
    hide Sound;
    hide Harmless;
    hide Execute;
    var n := |steps| - 1;
    var before := steps[..n];
    assert forall i | 0 <= i <= n :: before[..i] == steps[..i];
    assert steps[..n + 1] == steps;
    assert forall i | 0 <= i < n :: before[i] == steps[i];
  }

  lemma PunctualPrefix(steps: seq<Step>)
    requires Punctual(steps) && steps != []
    ensures Punctual(steps[..|steps| - 1])
    ensures InTime(Execute(steps[..|steps| - 1]), steps[|steps| - 1])
  {
    hide Execute;
    hide InTime;
    var before := steps[..|steps| - 1];
    forall i | 0 <= i < |before|
      ensures InTime(Execute(before[..i]), before[i])
    {
      assert before[..i] == steps[..i] && before[i] == steps[i];
    }
  }

  lemma {:induction false} PunctualRunsAreSound(steps: seq<Step>)
    requires Punctual(steps)
    ensures Sound(Execute(steps))
  {
    if steps != [] {
      var n := |steps| - 1;
      var before := steps[..n];
      PunctualPrefix(steps);
      PunctualRunsAreSound(before);
      InTimeIsHarmless(Execute(before), steps[n]);
      StepIsSoundExactly(Execute(before), steps[n]);
    }
  }

  // ---------- what every punctual run guarantees ----------

  /** At most one worker holds a document; web contents are distinct; heads are ready; no document is published twice. */
  lemma LeaseExclusion(steps: seq<Step>)
    requires Punctual(steps)
    ensures var s := Execute(steps);
      && (forall w, v, d | Owns(s, w, d) && Owns(s, v, d) :: w == v)
      && WebContentsUnique(s.tables.documents)
      && HeadsReady(s.tables)
      && (forall i, j | 0 <= i < j < |s.published| :: s.published[i] != s.published[j])
  {
    PunctualRunsAreSound(steps);
  }

  ghost predicate Held(s: Sys, d: DocId) { exists w :: Owns(s, w, d) }

  /** Who holds what after a step: a grant makes the asker the holder, a report that is not the end of the work keeps
      the reporter the holder whether or not its lease had run out, and the end of the work gives the document back. */
  lemma OwnershipChangesExactly(s: Sys, step: Step, v: nat, d: DocId)
    ensures var after := Take(s, step);
      && (step.Wait? && Owns(after, v, d) ==> Owns(s, v, d))
      && (step.Ask? && v == step.worker && v !in s.claims ==>
            var r := Reserve(s.tables, s.now, step.request);
            Owns(after, v, d) <==> d == r.id && (r.action.New? || r.action.Resumed?))
      && (step.Report? && v == step.worker && v in s.claims ==>
            (Owns(after, v, d) <==> d == s.claims[v].id && step.state != Ready && step.state != Failed))
      && (!step.Wait? && (v != step.worker || (step.Ask? <==> v in s.claims)) ==> (Owns(after, v, d) <==> Owns(s, v, d)))
  {
  }

  lemma {:induction false} ClaimsAreRows(steps: seq<Step>)
    ensures var s := Execute(steps);
      && s.now > 0.0
      && (forall w | w in s.claims :: s.claims[w].id in s.tables.documents)
      && (forall d | d in s.published :: d in s.tables.documents)
  {
    hide Reserve;
    if steps != [] {
      var n := |steps| - 1;
      ClaimsAreRows(steps[..n]);
      var s := Execute(steps[..n]);
      if steps[n].Ask? {
        ReserveTouchesOne(s.tables, s.now, steps[n].request);
      }
    }
  }

  /** The worker's claim lasts as long as the lease in the table. */
  predicate Backs(s: Sys, worker: nat, d: DocId)
    requires d in s.tables.documents
  {
    worker in s.claims && s.claims[worker].id == d && s.tables.documents[d].lease <= s.claims[worker].until
  }

  lemma {:induction false} LiveLeaseIsBacked(steps: seq<Step>, d: DocId)
    requires var s := Execute(steps); d in s.tables.documents && s.tables.documents[d].lease > s.now
    ensures exists w :: Backs(Execute(steps), w, d)
  {
    hide Reserve;
    if steps != [] {
      var n := |steps| - 1;
      var s, step, after := Execute(steps[..n]), steps[n], Execute(steps);
      if step.Ask? && step.worker !in s.claims {
        ReserveTouchesOne(s.tables, s.now, step.request);
        ReserveGrantsExactly(s.tables, s.now, step.request);
      }
      ClaimsAreRows(steps[..n]);
      if d in s.tables.documents && s.tables.documents[d].lease > s.now {
        LiveLeaseIsBacked(steps[..n], d);
        var w :| Backs(s, w, d);
        assert Backs(after, w, d) || after.tables.documents[d] != s.tables.documents[d];
      }
      if !step.Wait? && after.tables.documents != s.tables.documents {
        assert Backs(after, step.worker, d) || (d in s.tables.documents && after.tables.documents[d] == s.tables.documents[d]);
      }
    }
  }

  /** A lease in the table that has not run out belongs to a worker, in every run, late reports or not. */
  lemma LiveLeaseIsHeld(steps: seq<Step>, d: DocId)
    requires var s := Execute(steps); d in s.tables.documents && s.tables.documents[d].lease > s.now
    ensures Held(Execute(steps), d)
  {
    LiveLeaseIsBacked(steps, d);
    var s := Execute(steps);
    var w :| Backs(s, w, d);
    assert Owns(s, w, d);
  }

  /** What a request is told, in every punctual run, by who has the document at that moment: pending exactly while
      another worker holds it, reused exactly once it was published, and granted in all other cases. */
  lemma AnswersFollowTheHolders(steps: seq<Step>, q: Request)
    requires Punctual(steps)
    ensures var s := Execute(steps); var r := Reserve(s.tables, s.now, q);
      && (r.action.Pending? <==> Held(s, r.id))
      && (r.action.Reused? <==> r.id in s.published)
      && (r.action.New? || r.action.Resumed? <==> !Held(s, r.id) && r.id !in s.published)
  {
    hide Reserve;
    hide Consistent;
    PunctualRunsAreSound(steps);
    var s := Execute(steps);
    var r := Reserve(s.tables, s.now, q);
    ReserveGrantsExactly(s.tables, s.now, q);
    if r.action.Pending? {
      LiveLeaseIsHeld(steps, r.id);
    }
  }

  /** In every run, late reports or not, each web document that was ever reported ready left a head under its URL. */
  lemma {:induction false} PublishedPagesAreServed(steps: seq<Step>, d: DocId)
    requires var s := Execute(steps); d in s.published && d in s.tables.documents && s.tables.documents[d].kind == WEB
    ensures d.url in Execute(steps).tables.heads
  {
    if steps != [] {
      var n := |steps| - 1;
      var s := Execute(steps[..n]);
      ClaimsAreRows(steps[..n]);
      if d in s.published {
        OriginsAreKept(s, steps[n], d);
        PublishedPagesAreServed(steps[..n], d);
      }
    }
  }

  lemma ReadyStays(s: Sys, step: Step, d: DocId)
    requires Sound(s) && InTime(s, step) && d in s.tables.documents && s.tables.documents[d].state.Ready?
    ensures d in Take(s, step).tables.documents && Take(s, step).tables.documents[d] == s.tables.documents[d]
  {
    hide Consistent;
    hide Reserve;
    if step.Ask? {
      ReserveTouchesOne(s.tables, s.now, step.request);
      ReserveGrantsExactly(s.tables, s.now, step.request);
    } else if step.Report? && step.worker in s.claims {
      assert Owns(s, step.worker, s.claims[step.worker].id);
    }
  }

  /** Once ready, a document stays ready, and its row never changes again. */
  lemma {:induction false} ReadyIsAbsorbing(steps: seq<Step>, more: seq<Step>, d: DocId)
    requires Punctual(steps + more)
    requires d in Execute(steps).tables.documents && Execute(steps).tables.documents[d].state.Ready?
    ensures var docs := Execute(steps + more).tables.documents;
      d in docs && docs[d] == Execute(steps).tables.documents[d]
  {
    hide Take;
    hide Sound;
    hide InTime;
    if more == [] {
      assert steps + more == steps;
    } else {
      var n := |more| - 1;
      var all, before := steps + more, steps + more[..n];
      assert all[..|all| - 1] == before;
      PunctualPrefix(all);
      ReadyIsAbsorbing(steps, more[..n], d);
      PunctualRunsAreSound(before);
      ReadyStays(Execute(before), more[n], d);
    }
  }

  /** No step, late or not, forgets where a document came from, its storage address, an alias or a head. */
  lemma OriginsAreKept(s: Sys, step: Step, d: DocId)
    requires d in s.tables.documents
    ensures var was, after := s.tables.documents[d], Take(s, step).tables;
      && d in after.documents
      && var row := after.documents[d];
         && row.kind == was.kind && row.path == was.path && row.metadata == was.metadata
         && (was.uri.Some? ==> row.uri.Some?)
         && s.tables.aliases <= after.aliases && s.tables.heads.Keys <= after.heads.Keys
  {
    if step.Ask? {
      hide Reserve;
      ReserveTouchesOne(s.tables, s.now, step.request);
      ReserveGrantsExactly(s.tables, s.now, step.request);
      ReserveWritesExactly(s.tables, s.now, step.request);
    }
  }

  // ---------- what a late report can break ----------

  lemma ExecuteAppend(steps: seq<Step>, step: Step)
    ensures Execute(steps + [step]) == Take(Execute(steps), step)
  {
    assert (steps + [step])[..|steps|] == steps;
  }

  const PAGE := Request("u", "c", "m", "p", WEB)
  const PAGE_ID := DocId("u", "c")

  lemma FirstAsk()
    ensures var s := Take(START, Ask(1, PAGE));
      && PAGE_ID in s.tables.documents && s.tables.documents.Keys == {PAGE_ID}
      && s.tables.documents[PAGE_ID].lease == 301.0 && !s.tables.documents[PAGE_ID].state.Ready?
      && s.tables.documents[PAGE_ID].kind == WEB
      && s.claims == map[1 := Claim(PAGE_ID, 301.0)] && s.now == 1.0
  {
  }

  lemma SecondAsk(s: Sys)
    requires s.tables.documents.Keys == {PAGE_ID} && s.claims == map[1 := Claim(PAGE_ID, 301.0)] && s.now == 302.0
    requires var row := s.tables.documents[PAGE_ID]; row.lease == 301.0 && !row.state.Ready? && row.kind == WEB
    ensures var after := Take(s, Ask(2, PAGE));
      && after.claims == s.claims[2 := Claim(PAGE_ID, 602.0)] && after.now == s.now
      && PAGE_ID in after.tables.documents && after.tables.documents[PAGE_ID].kind == WEB
  {
    assert Matches(s.tables.documents, PAGE.content, PAGE_ID);
    DuplicateIs(s.tables.documents, PAGE.content, PAGE_ID);
  }

  /** A document was published and is not ready any more, and a head points to no ready document. */
  ghost predicate Undone(s: Sys, d: DocId) {
    && d in s.published && d in s.tables.documents && s.tables.documents[d].state.Failed?
    && !HeadsReady(s.tables)
  }

  /** A worker that wakes up after its lease was taken over can undo a published document, and leave a head
      that points to a failed one. */
  lemma LateReportUndoesReady()
    ensures exists steps, d :: !Punctual(steps) && Undone(Execute(steps), d)
  {
    var s1 := [Ask(1, PAGE)];
    var s2 := s1 + [Wait(301.0)];
    var s3 := s2 + [Ask(2, PAGE)];
    var s4 := s3 + [Report(2, Ready, None, None)];
    var late := Report(1, Failed, None, Some("Timeout"));
    var s5 := s4 + [late];
    ExecuteAppend([], Ask(1, PAGE));
    assert [] + [Ask(1, PAGE)] == s1;
    ExecuteAppend(s1, Wait(301.0));
    ExecuteAppend(s2, Ask(2, PAGE));
    ExecuteAppend(s3, Report(2, Ready, None, None));
    ExecuteAppend(s4, late);
    hide Execute;
    FirstAsk();
    SecondAsk(Execute(s2));
    var s := Execute(s4);
    LateReport(Execute(s3));
    assert s5[..|s4|] == s4 && s5[|s4|] == late;
    assert !InTime(Execute(s5[..|s4|]), s5[|s4|]);
    assert !Punctual(s5);
    assert Undone(Execute(s5), PAGE_ID);
  }

  lemma LateReport(s: Sys)
    requires s.claims == map[1 := Claim(PAGE_ID, 301.0), 2 := Claim(PAGE_ID, 602.0)] && s.now == 302.0
    requires PAGE_ID in s.tables.documents && s.tables.documents[PAGE_ID].kind == WEB
    ensures var ready := Take(s, Report(2, Ready, None, None));
      var after := Take(ready, Report(1, Failed, None, Some("Timeout")));
      && ready.claims == map[1 := Claim(PAGE_ID, 301.0)] && ready.now == s.now
      && Undone(after, PAGE_ID)
  {
    var ready := Take(s, Report(2, Ready, None, None));
    var after := Take(ready, Report(1, Failed, None, Some("Timeout")));
    assert ready.published == s.published + [PAGE_ID];
    assert PAGE_ID in ready.published;
    assert "u" in after.tables.heads && after.tables.heads["u"].id == PAGE_ID;
  }
}
