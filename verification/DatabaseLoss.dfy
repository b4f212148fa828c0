/**
 What losing the database under a publisher can lead to. A loss that leaves everything the
 publishers hold is never followed by a conflict; after any other loss a conflict is one
 recorded answer away.
 */
module DatabaseLoss {
  import opened Common
  import opened SessionLog
  import opened EvidenceFiles
  import opened Workflows
  import opened PublishProtocol

  /** The state after some more steps. */
  ghost function From(s: Sys, steps: seq<Step>): Sys {
    if steps == [] then s else Take(From(s, steps[..|steps| - 1]), steps[|steps| - 1])
  }

  lemma FromStep(s: Sys, steps: seq<Step>, step: Step)
    ensures From(s, steps + [step]) == Take(From(s, steps), step)
  {
    assert (steps + [step])[..|steps|] == steps;
  }

  lemma {:induction false} FromConcat(s: Sys, a: seq<Step>, b: seq<Step>)
    ensures From(s, a + b) == From(From(s, a), b)
  {
    hide Take;
    if b == [] {
      assert a + b == a;
    } else {
      var n := |b| - 1;
      FromConcat(s, a, b[..n]);
      assert a + b == a + b[..n] + [b[n]];
      FromStep(s, a + b[..n], b[n]);
    }
  }

  lemma {:induction false} ExecuteFrom(steps: seq<Step>, more: seq<Step>)
    ensures Execute(steps + more) == From(Execute(steps), more)
  {
    hide Take;
    if more == [] {
      assert steps + more == steps;
    } else {
      ExecuteFrom(steps, more[..|more| - 1]);
      ExecuteAppend(steps, more);
    }
  }

  ghost predicate KeepsDatabase(steps: seq<Step>) { forall i | 0 <= i < |steps| :: !steps[i].ReplaceDb? }

  /** Some publisher of the session is refused. */
  ghost predicate Conflicted(s: Sys, sid: string) {
    exists pid :: pid in s.publishers && s.publishers[pid].session == sid && Refused(s, pid)
  }

  // ---------- a publisher putting file after file ----------

  function PutsBy(pid: nat, m: nat): seq<Step> {
    if m == 0 then [] else PutsBy(pid, m - 1) + [PutNext(pid)]
  }

  lemma {:induction false} PutsByKeeps(pid: nat, m: nat)
    ensures KeepsDatabase(PutsBy(pid, m))
  {
    if m > 0 {
      PutsByKeeps(pid, m - 1);
    }
  }

  /** The first `m` puts from here on agree with a list of puts whose first `j` files exist. */
  ghost predicate CanPut(s: Sys, pid: nat, puts: seq<Put>, j: nat, m: nat) {
    && pid in s.publishers && s.publishers[pid].Writing?
    && var p := s.publishers[pid];
       && ProperPuts(puts) && p.next <= j <= |puts| && p.next + m <= |puts| && p.next + m <= |Puts(p.snapshot)|
       && s.FolderOf(p.session) == FirstFiles(puts, j)
       && forall i | 0 <= i < p.next + m ::
            Puts(p.snapshot)[i] == puts[i] && (puts[i].id.EventFile? ==> puts[i].id.number <= MAX_EVENT_NUMBER)
  }

  lemma OnePut(s: Sys, pid: nat, puts: seq<Put>, j: nat)
    requires CanPut(s, pid, puts, j, 1)
    ensures var p, after := s.publishers[pid], Take(s, PutNext(pid));
      && after.FolderOf(p.session) == FirstFiles(puts, if p.next < j then j else j + 1)
      && after.publishers == s.publishers[pid := p.(next := p.next + 1)] && after.logs == s.logs
  {
    hide Puts;
    hide FirstFiles;
    hide ProperPuts;
    hide PutOne;
    PutAgain(puts, s.publishers[pid].next, j);
  }

  function Max(a: nat, b: nat): nat { if a < b then b else a }

  /** `m` puts later: the files grew to what the publisher has put, and only its position moved. */
  ghost predicate HasPut(s: Sys, after: Sys, pid: nat, puts: seq<Put>, j: nat, m: nat)
    requires CanPut(s, pid, puts, j, m)
  {
    var p := s.publishers[pid];
    && after.FolderOf(p.session) == FirstFiles(puts, Max(j, p.next + m))
    && after.publishers == s.publishers[pid := p.(next := p.next + m)] && after.logs == s.logs
  }

  lemma FewerPuts(s: Sys, pid: nat, puts: seq<Put>, j: nat, m: nat)
    requires CanPut(s, pid, puts, j, m) && m > 0
    ensures CanPut(s, pid, puts, j, m - 1)
  {
    hide Puts;
    hide FirstFiles;
    hide ProperPuts;
  }

  lemma NextPut(s: Sys, before: Sys, pid: nat, puts: seq<Put>, j: nat, m: nat)
    requires CanPut(s, pid, puts, j, m) && m > 0 && CanPut(s, pid, puts, j, m - 1)
    requires HasPut(s, before, pid, puts, j, m - 1)
    ensures HasPut(s, Take(before, PutNext(pid)), pid, puts, j, m)
  {
    hide Puts;
    hide FirstFiles;
    hide ProperPuts;
    hide Take;
    OnePut(before, pid, puts, Max(j, s.publishers[pid].next + m - 1));
  }

  lemma {:induction false} PutMany(s: Sys, pid: nat, puts: seq<Put>, j: nat, m: nat)
    requires CanPut(s, pid, puts, j, m)
    ensures HasPut(s, From(s, PutsBy(pid, m)), pid, puts, j, m)
  {
    hide CanPut;
    hide Take;
    if m == 0 {
      NoPut(s, pid, puts, j);
    } else {
      hide HasPut;
      FewerPuts(s, pid, puts, j, m);
      PutMany(s, pid, puts, j, m - 1);
      NextPut(s, From(s, PutsBy(pid, m - 1)), pid, puts, j, m);
      FromStep(s, PutsBy(pid, m - 1), PutNext(pid));
    }
  }

  lemma NoPut(s: Sys, pid: nat, puts: seq<Put>, j: nat)
    requires CanPut(s, pid, puts, j, 0)
    ensures HasPut(s, s, pid, puts, j, 0)
  {
  }

  // ---------- a different answer ----------

  function As(n: nat): string { seq(n, _ => 'a') }

  lemma AsIsStripped(n: nat)
    requires n > 0
    ensures Strip(As(n)) == As(n) && !Blank(As(n))
  {
    assert As(n)[0] == 'a' && As(n)[n - 1] == 'a';
  }

  function TextOf(p: Payload, key: string): string {
    if TextAt(p, key).Some? then TextAt(p, key).value else ""
  }

  /** An answer that is neither the current one nor the one in this entry. */
  lemma OtherAnswer(s: Session, e: Entry) returns (text: string)
    ensures Strip(text) == text && !Blank(text)
    ensures "constraints" in s.answers ==> s.answers["constraints"] != text
    ensures AnswerEntry("constraints", text) != e
  {
    var current := if "constraints" in s.answers then s.answers["constraints"] else "";
    text := As(1 + |current| + |TextOf(e.payload, "answer")|);
    AsIsStripped(|text|);
    var mine := AnswerEntry("constraints", text);
    assert TextOf(mine.payload, "answer") == text;
    assert TextOf(mine.payload, "answer") != TextOf(e.payload, "answer");
  }

  lemma {:induction false} FreshPid(m: map<nat, Publisher>) returns (q: nat)
    ensures forall pid | pid in m :: pid < q
    decreases |m|
  {
    if m == map[] {
      q := 0;
    } else {
      var pid :| pid in m;
      var rest := m - {pid};
      q := FreshPid(rest);
      forall p | p in m
        ensures p < pid + 1 + q
      {
        assert p == pid || p in rest;
      }
      q := pid + 1 + q;
    }
  }

  /** A publisher holds more than log and files know, and the known part is a log of its own. */
  ghost predicate Hazard(s: Sys, sid: string, pid: nat, known: seq<Entry>, j: nat) {
    && pid in s.publishers && s.publishers[pid].Writing? && s.publishers[pid].session == sid
    && var p := s.publishers[pid];
       && WellFormed(p.snapshot) && IsPrefix(known, p.snapshot) && |known| < |p.snapshot|
       && |known| < MAX_EVENT_NUMBER && (known == [] ==> |p.snapshot| >= 2)
       && j <= |known| && j <= |Puts(p.snapshot)| && p.next <= j
       && s.FolderOf(sid) == FirstFiles(Puts(p.snapshot), j)
       && IsPrefix(s.LogOf(sid), known) && (s.LogOf(sid) == known || |known| <= j)
  }

  /** The known part of a hazard: one put for each entry, and what follows it is not after a freeze. */
  lemma KnownPart(snapshot: seq<Entry>, known: seq<Entry>)
    requires WellFormed(snapshot) && IsPrefix(known, snapshot) && 0 < |known| < |snapshot|
    ensures WellFormed(known) && !known[|known| - 1].kind.SeedFrozen?
    ensures |Puts(known)| == |known| < |Puts(snapshot)|
    ensures Puts(known) == Puts(snapshot)[..|known|]
    ensures Puts(snapshot)[|known|] == EventPut(|known| + 1, snapshot[|known|])
  {
    hide Puts;
    PrefixIsWellFormed(snapshot, |known|);
    if known[|known| - 1].kind.SeedFrozen? {
      FreezeComesLast(snapshot, |known| - 1);
    }
    PutsShape(known);
    PutsShape(snapshot);
    PutsOfPrefix(known, snapshot);
  }

  /** The known part, and another answer on top of it. */
  lemma Diverging(s: Sys, sid: string, pid: nat, known: seq<Entry>, j: nat) returns (op: Operation, log: seq<Entry>)
    requires Hazard(s, sid, pid, known, j) && known != []
    ensures ProperIds(op) && Commit(s.LogOf(sid), s.FolderOf(sid), op) == Ok(log)
    ensures WellFormed(log) && |log| == |known| + 1 && log[..|known|] == known
    ensures log[|known|] != s.publishers[pid].snapshot[|known|] && !log[|known|].kind.SeedFrozen?
  {
    hide WellFormed;
    hide Puts;
    hide FirstFiles;
    hide Load;
    hide Fold;
    var snapshot := s.publishers[pid].snapshot;
    KnownPart(snapshot, known);
    FirstFilesLoad(snapshot, j);
    var files := snapshot[..j];
    assert Load(s.FolderOf(sid)) == Ok(files) by {
      PutsShape(snapshot);
    }
    MergeIsJoin(s.LogOf(sid), s.FolderOf(sid), files);
    assert files == known[..j];
    assert known[..|known|] == known;
    assert Longer(s.LogOf(sid), files) == known;
    WellFormedExact(known);
    var state := Replay(known).value;
    var text := OtherAnswer(state, snapshot[|known|]);
    op := RecordAnswer("constraints", text);
    var e := AnswerEntry("constraints", text);
    log := known + [e];
    WellFormedAppend(known, e);
  }

  /** Another history of the known length plus one, with all its files written. */
  ghost predicate Rival(s: Sys, sid: string, p: Publisher, known: seq<Entry>, log: seq<Entry>) {
    && WellFormed(log) && |log| == |known| + 1 && log[..|known|] == known && !log[|known|].kind.SeedFrozen?
    && p.Writing? && |known| < |p.snapshot| && log[|known|] != p.snapshot[|known|]
    && |known| + 1 <= |Puts(log)| && s.FolderOf(sid) == FirstFiles(Puts(log), |known| + 1)
  }

  /** Another process records a different answer and publishes it. */
  lemma RivalPublishes(s: Sys, sid: string, pid: nat, known: seq<Entry>, j: nat)
      returns (more: seq<Step>, log: seq<Entry>)
    requires Hazard(s, sid, pid, known, j) && known != []
    ensures KeepsDatabase(more)
    ensures var after := From(s, more);
      && pid in after.publishers && after.publishers[pid] == s.publishers[pid]
      && Rival(after, sid, s.publishers[pid], known, log)
  {
    hide WellFormed;
    hide Puts;
    hide FirstFiles;
    hide Commit;
    hide Replay;
    hide PutOne;
    hide Take;
    hide From;
    var op;
    var q := FreshPid(s.publishers);
    op, log := Diverging(s, sid, pid, known, j);
    var commit := [Transact(q, sid, op), ReadLog(q)];
    var s2 := CommitAndRead(s, sid, q, op, log);
    SamePutsSoFar(s.publishers[pid].snapshot, log, known, j);
    PutMany(s2, q, Puts(log), j, |known| + 1);
    more := commit + PutsBy(q, |known| + 1);
    FromConcat(s, commit, PutsBy(q, |known| + 1));
    PutsByKeeps(q, |known| + 1);
  }

  /** When the first publisher arrives at the place where the histories part, it is refused. */
  lemma RivalConflicts(s: Sys, sid: string, pid: nat, known: seq<Entry>, log: seq<Entry>) returns (more: seq<Step>)
    requires pid in s.publishers && Rival(s, sid, s.publishers[pid], known, log) && known != []
    requires var p := s.publishers[pid];
      p.session == sid && WellFormed(p.snapshot) && IsPrefix(known, p.snapshot) && p.next <= |known| < MAX_EVENT_NUMBER
    ensures KeepsDatabase(more) && Conflicted(From(s, more), sid)
  {
    hide WellFormed;
    hide Puts;
    hide FirstFiles;
    hide Take;
    hide From;
    hide Refused;
    var p := s.publishers[pid];
    var n := |known|;
    SamePutsSoFar(p.snapshot, log, known, 0);
    more := PutsBy(pid, n - p.next);
    PutMany(s, pid, Puts(log), n + 1, n - p.next);
    SecondIsRefused(From(s, more), pid, log, n);
    PutsByKeeps(pid, n - p.next);
  }

  /** From a hazard with something known a conflict is one recorded answer away. */
  lemma HazardConflicts(s: Sys, sid: string, pid: nat, known: seq<Entry>, j: nat) returns (more: seq<Step>)
    requires Hazard(s, sid, pid, known, j) && known != []
    ensures KeepsDatabase(more) && Conflicted(From(s, more), sid)
  {
    hide WellFormed;
    hide Puts;
    hide FirstFiles;
    hide Take;
    hide From;
    hide Conflicted;
    hide Rival;
    var first, log := RivalPublishes(s, sid, pid, known, j);
    var rest := RivalConflicts(From(s, first), sid, pid, known, log);
    more := first + rest;
    FromConcat(s, first, rest);
  }

  lemma CommitAndRead(s: Sys, sid: string, q: nat, op: Operation, log: seq<Entry>) returns (after: Sys)
    requires q !in s.publishers && ProperIds(op) && Commit(s.LogOf(sid), s.FolderOf(sid), op) == Ok(log) && WellFormed(log)
    ensures after == From(s, [Transact(q, sid, op), ReadLog(q)])
    ensures after.FolderOf(sid) == s.FolderOf(sid) && after.LogOf(sid) == log
    ensures after.publishers == s.publishers[q := Writing(sid, log, 0)]
  {
    hide Commit;
    hide WellFormed;
    hide Replay;
    WellFormedExact(log);
    var s1 := Take(s, Transact(q, sid, op));
    assert s1 == s.(logs := s.logs[sid := log], publishers := s.publishers[q := Reading(sid)]);
    after := Take(s1, ReadLog(q));
    FromStep(s, [], Transact(q, sid, op));
    FromStep(s, [Transact(q, sid, op)], ReadLog(q));
    assert [] + [Transact(q, sid, op)] == [Transact(q, sid, op)];
    assert [Transact(q, sid, op)] + [ReadLog(q)] == [Transact(q, sid, op), ReadLog(q)];
  }

  /** Both histories have the same puts up to where they part. */
  lemma SamePutsSoFar(snapshot: seq<Entry>, log: seq<Entry>, known: seq<Entry>, j: nat)
    requires WellFormed(snapshot) && IsPrefix(known, snapshot) && 0 < |known| < |snapshot| && |known| < MAX_EVENT_NUMBER
    requires WellFormed(log) && |log| == |known| + 1 && log[..|known|] == known && !log[|known|].kind.SeedFrozen?
    requires j <= |known|
    ensures j <= |Puts(snapshot)| && |Puts(log)| == |log| && ProperPuts(Puts(log))
    ensures FirstFiles(Puts(snapshot), j) == FirstFiles(Puts(log), j)
    ensures |known| < |Puts(snapshot)| && Puts(snapshot)[|known|] == EventPut(|known| + 1, snapshot[|known|])
    ensures forall i | 0 <= i < |known| :: Puts(snapshot)[i] == Puts(log)[i]
    ensures forall i | 0 <= i < |log| :: Puts(log)[i].id == EventFile(i + 1)
    ensures Puts(log)[|known|] == EventPut(|known| + 1, log[|known|])
  {
    hide WellFormed;
    hide Puts;
    hide FirstFiles;
    KnownPart(snapshot, known);
    KnownPart(log, known);
    PutsShape(log);
    PutsAreProper(log);
    FirstFilesPrefix(Puts(snapshot), |known|, j);
    FirstFilesPrefix(Puts(log), |known|, j);
    assert forall i | 0 <= i < |known| :: Puts(known)[i] == Puts(snapshot)[i] && Puts(known)[i] == Puts(log)[i];
  }

  lemma SecondIsRefused(s: Sys, pid: nat, log: seq<Entry>, n: nat)
    requires pid in s.publishers && s.publishers[pid].Writing? && s.publishers[pid].next == n
    requires n < |Puts(log)| && ProperPuts(Puts(log)) && n < MAX_EVENT_NUMBER && n < |log|
    requires var p := s.publishers[pid];
      && s.FolderOf(p.session) == FirstFiles(Puts(log), n + 1)
      && n < |p.snapshot| && n < |Puts(p.snapshot)| && Puts(p.snapshot)[n] == EventPut(n + 1, p.snapshot[n])
      && Puts(log)[n] == EventPut(n + 1, log[n]) && log[n] != p.snapshot[n]
    ensures Refused(s, pid)
  {
    hide Puts;
    hide FirstFiles;
    FirstFilesHold(Puts(log), n + 1);
  }

  // ---------- the exact condition ----------

  /** A replacement that loses what a publisher holds leaves a hazard. */
  lemma LossIsHazard(s: Sys, step: Step, sid: string, whole: seq<Entry>, j: nat) returns (pid: nat)
    requires step.ReplaceDb? && Tracks(s, sid, whole, j) && !Survives(s, step, sid) && |whole| <= MAX_EVENT_NUMBER
    ensures Hazard(Take(s, step), sid, pid, Known(Take(s, step), sid), j)
  {
    hide WellFormed;
    hide Puts;
    hide FirstFiles;
    hide Load;
    hide Take;
    ReplaceKeeps(s, step, sid);
    LoadOfTracked(s, sid, whole, j);
    var after := Take(s, step);
    var known := Known(after, sid);
    pid :| pid in s.publishers && s.publishers[pid].session == sid && s.publishers[pid].Writing?
      && !(IsPrefix(s.publishers[pid].snapshot, known) || (known == [] && |s.publishers[pid].snapshot| == 1));
    var p := s.publishers[pid];
    assert PublisherOk(p, whole, j);
    NoEntries();
    assert IsPrefix(known, p.snapshot) && |known| < |p.snapshot|;
    PutsOfPrefix(p.snapshot, whole);
    PutsShape(p.snapshot);
    FirstFilesPrefix(Puts(whole), |Puts(p.snapshot)|, j);
  }

  /** When nothing is left, the publisher itself puts the start back; then there is something to build on. */
  lemma FirstPutBack(s: Sys, sid: string, pid: nat, j: nat) returns (start: seq<Entry>)
    requires Hazard(s, sid, pid, [], j)
    ensures start != [] && Hazard(From(s, [PutNext(pid)]), sid, pid, start, 1)
  {
    hide WellFormed;
    hide Puts;
    hide FirstFiles;
    hide Take;
    var p := s.publishers[pid];
    PutsShape(p.snapshot);
    PutsAreProper(p.snapshot);
    assert CanPut(s, pid, Puts(p.snapshot), 0, 1);
    OnePut(s, pid, Puts(p.snapshot), 0);
    FromStep(s, [], PutNext(pid));
    assert [] + [PutNext(pid)] == [PutNext(pid)];
    start := p.snapshot[..1];
  }

  lemma OnePutKeeps(pid: nat)
    ensures KeepsDatabase([PutNext(pid)])
  {
  }

  /** After such a loss there is a hazard with something known, at once or after one file. */
  lemma LossLeavesHazard(s: Sys, step: Step, sid: string, whole: seq<Entry>, j: nat)
      returns (first: seq<Step>, pid: nat, known: seq<Entry>, k: nat)
    requires step.ReplaceDb? && Tracks(s, sid, whole, j) && !Survives(s, step, sid) && |whole| <= MAX_EVENT_NUMBER
    ensures KeepsDatabase(first) && known != [] && Hazard(From(Take(s, step), first), sid, pid, known, k)
  {
    hide Hazard;
    hide Take;
    hide Tracks;
    hide Survives;
    pid := LossIsHazard(s, step, sid, whole, j);
    var after := Take(s, step);
    if Known(after, sid) == [] {
      known := FirstPutBack(after, sid, pid, j);
      first, k := [PutNext(pid)], 1;
      OnePutKeeps(pid);
    } else {
      first, known, k := [], Known(after, sid), j;
    }
  }

  lemma KeepsBoth(a: seq<Step>, b: seq<Step>)
    requires KeepsDatabase(a) && KeepsDatabase(b)
    ensures KeepsDatabase(a + b)
  {
  }

  /** After such a loss a conflict is within reach. */
  lemma LossConflicts(s: Sys, step: Step, sid: string, whole: seq<Entry>, j: nat) returns (more: seq<Step>)
    requires step.ReplaceDb? && Tracks(s, sid, whole, j) && !Survives(s, step, sid) && |whole| <= MAX_EVENT_NUMBER
    ensures KeepsDatabase(more) && Conflicted(From(Take(s, step), more), sid)
  {
    hide Hazard;
    hide Take;
    hide Tracks;
    hide Survives;
    hide KeepsDatabase;
    hide Conflicted;
    var after := Take(s, step);
    var first, pid, known, k := LossLeavesHazard(s, step, sid, whole, j);
    var rest := HazardConflicts(From(after, first), sid, pid, known, k);
    more := first + rest;
    FromConcat(after, first, rest);
    KeepsBoth(first, rest);
  }

  lemma {:induction false} CalmGoesOn(steps: seq<Step>, more: seq<Step>, sid: string)
    requires Calm(steps, sid) && KeepsDatabase(more)
    ensures Calm(steps + more, sid)
  {
    hide Survives;
    hide Execute;
    if more == [] {
      assert steps + more == steps;
    } else {
      var n := |more| - 1;
      CalmGoesOn(steps, more[..n], sid);
      var all := steps + more;
      assert all[..|all| - 1] == steps + more[..n];
      CalmSplit(all, sid);
    }
  }

  /** Losing the database is harmless for a session exactly when everything its publishers hold survives: if it
      does, no later run that keeps the database meets a conflict; if not, some such run does. */
  lemma LossIsHarmlessExactly(steps: seq<Step>, step: Step, sid: string)
    requires Calm(steps, sid) && step.ReplaceDb? && |Known(Execute(steps), sid)| <= MAX_EVENT_NUMBER
    ensures Survives(Execute(steps), step, sid) <==>
      forall more | KeepsDatabase(more) :: !Conflicted(Execute(steps + [step] + more), sid)
  {
    hide Execute;
    hide Survives;
    hide Take;
    hide Tracks;
    hide Known;
    var lost := steps + [step];
    assert lost[..|steps|] == steps;
    CalmSplit(lost, sid);
    PublishProtocol.ExecuteAppend(steps, [step]);
    assert [step][..0] == [] && steps + [] == steps;
    if Survives(Execute(steps), step, sid) {
      forall more | KeepsDatabase(more)
        ensures !Conflicted(Execute(lost + more), sid)
      {
        CalmGoesOn(lost, more, sid);
        NeverConflicted(lost + more, sid);
      }
    } else {
      var whole, j := AlwaysTracks(steps, sid);
      WholeIsSmall(Execute(steps), sid, whole, j);
      var more := LossConflicts(Execute(steps), step, sid, whole, j);
      ExecuteFrom(lost, more);
    }
  }

  lemma WholeIsSmall(s: Sys, sid: string, whole: seq<Entry>, j: nat)
    requires Tracks(s, sid, whole, j) && |Known(s, sid)| <= MAX_EVENT_NUMBER
    ensures |whole| <= MAX_EVENT_NUMBER
  {
    MergeFindsAll(s, sid, whole, j);
  }

  lemma NeverConflicted(steps: seq<Step>, sid: string)
    requires Calm(steps, sid)
    ensures !Conflicted(Execute(steps), sid)
  {
    hide Execute;
    hide Refused;
    hide Calm;
    var s := Execute(steps);
    forall pid | pid in s.publishers && s.publishers[pid].session == sid
      ensures !Refused(s, pid)
    {
      PublishersNeverConflict(steps, pid);
    }
  }
}
