/**
 Several processes share one database and one evidence folder. Transactions, single-file puts,
 crashes and the loss of the database are the steps; any interleaving of them is a run.
 */
module PublishProtocol {
  import opened Common
  import opened SessionLog
  import opened EvidenceFiles
  import opened Workflows

  /** A publisher first reads the committed log in a connection of its own, then puts file after file. */
  datatype Publisher =
    | Reading(session: string)
    | Writing(session: string, snapshot: seq<Entry>, next: nat)

  datatype Sys = Sys(
    logs: map<string, seq<Entry>>, folders: map<string, Folder>, publishers: map<nat, Publisher>)
  {
    function LogOf(sid: string): seq<Entry> { if sid in logs then logs[sid] else [] }

    function FolderOf(sid: string): Folder { if sid in folders then folders[sid] else map[] }
  }

  datatype Step =
    | Start(pid: nat, sid: string, goal: string)
    | Transact(pid: nat, sid: string, op: Operation)
    | ReadLog(pid: nat)
    | PutNext(pid: nat)
    | Stop(pid: nat)
    | ReplaceDb(kept: map<string, nat>)

  const NOTHING := Sys(map[], map[], map[])

  /** An older copy of the database: every session log cut to some length. */
  function Cut(log: seq<Entry>, n: nat): seq<Entry> { if n < |log| then log[..n] else log }

  /** One step; a step that is not possible in a state leaves it alone. Session ids are fresh. */
  ghost function Take(s: Sys, step: Step): Sys {
    match step
    case Start(pid, sid, goal) =>
      if pid in s.publishers || Blank(goal) || s.LogOf(sid) != [] || s.FolderOf(sid) != map[]
         || exists p | p in s.publishers :: s.publishers[p].session == sid then s
      else s.(logs := s.logs[sid := [StartEntry(goal)]], publishers := s.publishers[pid := Reading(sid)])
    case Transact(pid, sid, op) =>
      if pid in s.publishers || !ProperIds(op) then s
      else
        (match Commit(s.LogOf(sid), s.FolderOf(sid), op)
         case Err(_) => s
         case Ok(log) => s.(logs := s.logs[sid := log], publishers := s.publishers[pid := Reading(sid)]))
    case ReadLog(pid) =>
      if pid !in s.publishers || !s.publishers[pid].Reading? then s
      else
        var sid := s.publishers[pid].session;
        if Replay(s.LogOf(sid)).Err? then s.(publishers := s.publishers - {pid})
        else s.(publishers := s.publishers[pid := Writing(sid, s.LogOf(sid), 0)])
    case PutNext(pid) =>
      if pid !in s.publishers || !s.publishers[pid].Writing? then s
      else
        var p := s.publishers[pid];
        if p.next >= |Puts(p.snapshot)| then s.(publishers := s.publishers - {pid})
        else
          (match PutOne(s.FolderOf(p.session), Puts(p.snapshot)[p.next])
           case Err(_) => s.(publishers := s.publishers - {pid})
           case Ok(folder) =>
             s.(folders := s.folders[p.session := folder],
                publishers := s.publishers[pid := p.(next := p.next + 1)]))
    case Stop(pid) => s.(publishers := s.publishers - {pid})
    case ReplaceDb(kept) =>
      s.(logs := map sid | sid in s.logs :: if sid in kept then Cut(s.logs[sid], kept[sid]) else [])
  }

  ghost function Execute(steps: seq<Step>): Sys {
    if steps == [] then NOTHING else Take(Execute(steps[..|steps| - 1]), steps[|steps| - 1])
  }

  /** What a load finds: the longer of the log and the files. */
  ghost function Known(s: Sys, sid: string): seq<Entry> {
    var files := Load(s.FolderOf(sid));
    if files.Ok? then Longer(s.LogOf(sid), files.value) else s.LogOf(sid)
  }

  /** After the replacement a load still finds everything that somebody is about to publish. A session of which
      nothing is left and only the start is being published counts: nobody else can say anything about it. */
  ghost predicate Survives(s: Sys, step: Step, sid: string) {
    var known := Known(Take(s, step), sid);
    forall pid | pid in s.publishers && s.publishers[pid].session == sid && s.publishers[pid].Writing? ::
      IsPrefix(s.publishers[pid].snapshot, known) || (known == [] && |s.publishers[pid].snapshot| == 1)
  }

  /** No replacement of the database loses what a publisher of this session holds. */
  ghost predicate Calm(steps: seq<Step>, sid: string) {
    forall i | 0 <= i < |steps| && steps[i].ReplaceDb? :: Survives(Execute(steps[..i]), steps[i], sid)
  }

  // ---------- the first j files of a log ----------

  ghost function FirstFiles(puts: seq<Put>, j: nat): Folder
    requires j <= |puts|
  {
    if j == 0 then map[] else FirstFiles(puts, j - 1)[puts[j - 1].id := puts[j - 1].record]
  }

  /** No id twice, and every record can be read back. */
  ghost predicate ProperPuts(puts: seq<Put>) {
    && (forall i, k | 0 <= i < k < |puts| :: puts[i].id != puts[k].id)
    && forall i | 0 <= i < |puts| :: !puts[i].record.content.Unreadable?
  }

  lemma PutsAreProper(log: seq<Entry>)
    requires WellFormed(log)
    ensures ProperPuts(Puts(log))
  {
    PutsShape(log);
  }

  lemma {:induction false} FirstFilesHold(puts: seq<Put>, j: nat)
    requires j <= |puts| && ProperPuts(puts)
    ensures forall i | 0 <= i < j :: puts[i].id in FirstFiles(puts, j) && FirstFiles(puts, j)[puts[i].id] == puts[i].record
    ensures forall i | j <= i < |puts| :: puts[i].id !in FirstFiles(puts, j)
    ensures forall id | id in FirstFiles(puts, j) :: exists i :: 0 <= i < j && puts[i].id == id
  {
    if j > 0 {
      FirstFilesHold(puts, j - 1);
      assert puts[j - 1].id in FirstFiles(puts, j);
    }
  }

  lemma {:induction false} FirstFilesPrefix(puts: seq<Put>, n: nat, j: nat)
    requires j <= n <= |puts|
    ensures FirstFiles(puts[..n], j) == FirstFiles(puts, j)
  {
    if j > 0 {
      FirstFilesPrefix(puts, n, j - 1);
    }
  }

  function Min(a: nat, b: nat): nat { if a < b then a else b }

  /** Which event files are among the first files, and what they say. */
  lemma FirstFilesEvent(log: seq<Entry>, j: nat, k: nat)
    requires WellFormed(log) && j <= |Puts(log)|
    ensures EventFile(k) in FirstFiles(Puts(log), j) <==> 1 <= k <= Min(j, |log|)
    ensures 1 <= k <= Min(j, |log|) ==>
      GoodEventFile(FirstFiles(Puts(log), j), k) && EntryAt(FirstFiles(Puts(log), j), k) == log[k - 1]
  {
    hide FirstFiles;
    hide Puts;
    hide WellFormed;
    hide FreezesLog;
    var puts := Puts(log);
    var folder := FirstFiles(puts, j);
    PutsShape(log);
    PutsAreProper(log);
    FirstFilesHold(puts, j);
    if 1 <= k <= Min(j, |log|) {
      assert puts[k - 1] == EventPut(k, log[k - 1]);
      EntriesAreKnown(log, k - 1);
    }
    if EventFile(k) in folder {
      var i :| 0 <= i < j && puts[i].id == EventFile(k);
      assert i < |log| ==> puts[i] == EventPut(i + 1, log[i]);
    }
  }

  lemma EntriesAreKnown(log: seq<Entry>, i: nat)
    requires WellFormed(log) && i < |log|
    ensures !log[i].kind.UnknownKind?
  {
    assert i > 0 ==> IsAnswer(log[i]) || log[i].kind.SeedFrozen?;
  }

  /** Any number of first files reads back as the first events of the log. */
  lemma FirstFilesLoad(log: seq<Entry>, j: nat)
    requires WellFormed(log) && j <= |Puts(log)|
    ensures Load(FirstFiles(Puts(log), j)) == Ok(log[..Min(j, |log|)])
    ensures Complete(FirstFiles(Puts(log), j), Min(j, |log|))
  {
    hide FirstFiles;
    hide Puts;
    hide WellFormed;
    hide GoodEventFile;
    hide Load;
    var folder, n := FirstFiles(Puts(log), j), Min(j, |log|);
    forall k: nat
      ensures EventFile(k) in folder <==> 1 <= k <= n
      ensures 1 <= k <= n ==> GoodEventFile(folder, k) && EntryAt(folder, k) == log[k - 1]
    {
      FirstFilesEvent(log, j, k);
    }
    GoodFilesAreComplete(folder, n);
    LoadIs(folder, n);
    assert FileLog(folder, n) == log[..n];
  }

  /** The next put of the log extends the files by one; an earlier put changes nothing. */
  lemma PutAgain(puts: seq<Put>, i: nat, j: nat)
    requires ProperPuts(puts) && i <= j <= |puts| && i < |puts|
    ensures var r := PutOne(FirstFiles(puts, j), puts[i]);
      && (r.Ok? ==> r.value == (if i < j then FirstFiles(puts, j) else FirstFiles(puts, j + 1)))
      && (r.Err? ==> r.error == InvalidEvidenceId && puts[i].id.EventFile? && puts[i].id.number > MAX_EVENT_NUMBER)
  {
    FirstFilesHold(puts, j);
  }

  // ---------- the invariant ----------

  /** `whole` is everything that is known about a session, `j` how many of its files exist. */
  ghost predicate Tracks(s: Sys, sid: string, whole: seq<Entry>, j: nat) {
    && (whole == [] || WellFormed(whole))
    && j <= |Puts(whole)| && s.FolderOf(sid) == FirstFiles(Puts(whole), j)
    && IsPrefix(s.LogOf(sid), whole)
    && (s.LogOf(sid) == whole || |whole| <= j || OnlyStartInFlight(s, sid, whole, j))
    && forall pid | pid in s.publishers && s.publishers[pid].session == sid :: PublisherOk(s.publishers[pid], whole, j)
  }

  /** The start of a session that log and files do not know (any more). */
  ghost predicate OnlyStartInFlight(s: Sys, sid: string, whole: seq<Entry>, j: nat) {
    |whole| == 1 && j == 0 && s.LogOf(sid) == []
  }

  ghost predicate Tracked(s: Sys, sid: string) { exists whole, j :: Tracks(s, sid, whole, j) }

  ghost predicate PublisherOk(p: Publisher, whole: seq<Entry>, j: nat) {
    p.Writing? ==> WellFormed(p.snapshot) && IsPrefix(p.snapshot, whole) && p.next <= |Puts(p.snapshot)| && p.next <= j
  }

  /** Whatever happened, a load finds everything that is known. */
  lemma MergeFindsAll(s: Sys, sid: string, whole: seq<Entry>, j: nat)
    requires Tracks(s, sid, whole, j)
    ensures Load(s.FolderOf(sid)).Ok?
    ensures Known(s, sid) == if OnlyStartInFlight(s, sid, whole, j) then [] else whole
    ensures Known(s, sid) != [] ==> Merge(s.LogOf(sid), s.FolderOf(sid)) == Ok(Known(s, sid))
    ensures Known(s, sid) == [] ==> Merge(s.LogOf(sid), s.FolderOf(sid)).Err?
    ensures IsPrefix(Load(s.FolderOf(sid)).value, Known(s, sid)) && IsPrefix(s.LogOf(sid), Known(s, sid))
  {
    hide WellFormed;
    hide FirstFiles;
    hide Load;
    if whole == [] || j == 0 {
      NoFilesLoad(Puts(whole));
    }
    if whole != [] {
      FirstFilesLoad(whole, j);
      PutsShape(whole);
      var files := whole[..Min(j, |whole|)];
      MergeIsJoin(s.LogOf(sid), s.FolderOf(sid), files);
      assert |whole| <= j ==> files == whole;
      assert whole[..|whole|] == whole;
    }
    assert Replay([]).Err?;
  }

  lemma NoFilesLoad(puts: seq<Put>)
    ensures FirstFiles(puts, 0) == map[] && Load(map[]) == Ok([])
  {
    assert Complete(map[], 0);
    LoadIs(map[], 0);
    assert FileLog(map[], 0) == [];
  }

  lemma PutsOfPrefix(part: seq<Entry>, whole: seq<Entry>)
    requires IsPrefix(part, whole)
    ensures |Puts(part)| <= |Puts(whole)| && Puts(part) == Puts(whole)[..|Puts(part)|]
  {
    PutsGrow(whole, |part|);
  }

  /** The log of the session grew to `bigger`; files and publishers stay in order. */
  lemma TracksGrowth(s: Sys, after: Sys, sid: string, whole: seq<Entry>, j: nat, bigger: seq<Entry>)
    requires Tracks(s, sid, whole, j) && WellFormed(bigger) && IsPrefix(whole, bigger)
    requires after.LogOf(sid) == bigger && after.FolderOf(sid) == s.FolderOf(sid)
    requires forall pid | pid in after.publishers && after.publishers[pid].session == sid ::
      after.publishers[pid].Reading? || (pid in s.publishers && after.publishers[pid] == s.publishers[pid])
    ensures Tracks(after, sid, bigger, j)
  {
    hide WellFormed;
    hide Puts;
    hide FirstFiles;
    PutsOfPrefix(whole, bigger);
    FirstFilesPrefix(Puts(bigger), |Puts(whole)|, j);
    assert bigger[..|bigger|] == bigger;
    forall pid | pid in after.publishers && after.publishers[pid].session == sid
      ensures PublisherOk(after.publishers[pid], bigger, j)
    {
      if !after.publishers[pid].Reading? {
        assert PublisherOk(s.publishers[pid], whole, j);
      }
    }
  }

  lemma CommitNeedsMerge(log: seq<Entry>, folder: Folder, op: Operation)
    ensures Commit(log, folder, op).Ok? ==> Merge(log, folder).Ok?
  {
    hide Merge;
    hide Replay;
  }

  lemma TransactTracks(s: Sys, step: Step, sid: string, whole: seq<Entry>, j: nat) returns (bigger: seq<Entry>)
    requires step.Transact? && Tracks(s, sid, whole, j)
    ensures Tracks(Take(s, step), sid, bigger, j)
    ensures s.LogOf(sid) == whole ==> Take(s, step).LogOf(sid) == bigger
  {
    hide WellFormed;
    hide Puts;
    hide FirstFiles;
    hide Commit;
    hide Replay;
    hide Merge;
    hide PutOne;
    bigger := whole;
    var log, folder := s.LogOf(step.sid), s.FolderOf(step.sid);
    if step.pid !in s.publishers && ProperIds(step.op) && Commit(log, folder, step.op).Ok? && step.sid == sid {
      MergeFindsAll(s, sid, whole, j);
      CommitIsSound(log, folder, step.op);
      CommitNeedsMerge(log, folder, step.op);
      bigger := Commit(log, folder, step.op).value;
      TracksGrowth(s, Take(s, step), sid, whole, j, bigger);
    }
  }

  lemma StartTracks(s: Sys, step: Step, sid: string, whole: seq<Entry>, j: nat) returns (bigger: seq<Entry>)
    requires step.Start? && Tracks(s, sid, whole, j)
    ensures Tracks(Take(s, step), sid, bigger, j)
    ensures s.LogOf(sid) == whole ==> Take(s, step).LogOf(sid) == bigger
  {
    hide WellFormed;
    hide Puts;
    hide FirstFiles;
    hide Commit;
    hide Replay;
    hide PutOne;
    bigger := whole;
    var after := Take(s, step);
    if step.sid == sid && after != s {
      StripKeepsText(step.goal);
      FirstEntry(StartEntry(step.goal));
      NothingKnownYet(s, sid, whole, j);
      bigger := [StartEntry(step.goal)];
      assert bigger[..0] == [];
      TracksGrowth(s, after, sid, [], j, bigger);
    }
  }

  /** A session without log, files and publishers is one nobody knows. */
  lemma NothingKnownYet(s: Sys, sid: string, whole: seq<Entry>, j: nat)
    requires Tracks(s, sid, whole, j) && s.LogOf(sid) == [] && s.FolderOf(sid) == map[]
    requires forall pid | pid in s.publishers :: s.publishers[pid].session != sid
    ensures j == 0 && Tracks(s, sid, [], 0)
  {
    hide WellFormed;
    SomeFiles(Puts(whole), j);
    NoFilesLoad(Puts([]));
  }

  lemma SomeFiles(puts: seq<Put>, j: nat)
    requires j <= |puts|
    ensures FirstFiles(puts, j) == map[] <==> j == 0
  {
    assert j > 0 ==> puts[j - 1].id in FirstFiles(puts, j);
  }

  lemma PutTracks(s: Sys, step: Step, sid: string, whole: seq<Entry>, j: nat) returns (more: nat)
    requires step.PutNext? && Tracks(s, sid, whole, j)
    ensures Tracks(Take(s, step), sid, whole, more)
  {
    hide WellFormed;
    hide Puts;
    hide FirstFiles;
    hide Commit;
    hide Replay;
    hide PutOne;
    more := j;
    var pid := step.pid;
    if pid in s.publishers && s.publishers[pid].Writing? && s.publishers[pid].session == sid
       && s.publishers[pid].next < |Puts(s.publishers[pid].snapshot)| {
      var p := s.publishers[pid];
      assert PublisherOk(p, whole, j);
      PutsOfPrefix(p.snapshot, whole);
      PutsAreProper(whole);
      PutAgain(Puts(whole), p.next, j);
      if PutOne(s.FolderOf(sid), Puts(p.snapshot)[p.next]).Ok? {
        more := if p.next < j then j else j + 1;
      }
    }
  }

  /** The known history, cut to a prefix that still covers the files. */
  lemma CutTracks(s: Sys, after: Sys, sid: string, whole: seq<Entry>, j: nat, left: seq<Entry>)
    requires Tracks(s, sid, whole, j) && after.FolderOf(sid) == s.FolderOf(sid) && after.publishers == s.publishers
    requires IsPrefix(left, whole) && IsPrefix(after.LogOf(sid), left)
    requires Min(j, |whole|) <= |left|
    requires after.LogOf(sid) == left || |left| <= j || OnlyStartInFlight(after, sid, left, j)
    requires forall pid | pid in s.publishers && s.publishers[pid].session == sid && s.publishers[pid].Writing? ::
      IsPrefix(s.publishers[pid].snapshot, left)
    ensures Tracks(after, sid, left, j)
  {
    hide WellFormed;
    hide Puts;
    hide FirstFiles;
    PutsOfPrefix(left, whole);
    if whole != [] {
      PutsShape(whole);
      if left != whole {
        PrefixIsWellFormed(whole, |left|);
        if left != [] {
          PutsShape(left);
        }
      }
      FirstFilesPrefix(Puts(whole), |Puts(left)|, j);
      assert whole[..|whole|] == whole;
    }
    forall pid | pid in after.publishers && after.publishers[pid].session == sid
      ensures PublisherOk(after.publishers[pid], left, j)
    {
      assert PublisherOk(s.publishers[pid], whole, j);
    }
  }

  lemma PrefixIsWellFormed(log: seq<Entry>, i: nat)
    requires WellFormed(log) && i <= |log|
    ensures log[..i] == [] || WellFormed(log[..i])
  {
    WellFormedExact(log);
    PrefixReplays(log, i);
    WellFormedExact(log[..i]);
  }

  /** The files read back as the first events of the known history. */
  lemma LoadOfTracked(s: Sys, sid: string, whole: seq<Entry>, j: nat)
    requires Tracks(s, sid, whole, j)
    ensures Load(s.FolderOf(sid)) == Ok(whole[..Min(j, |whole|)])
  {
    hide WellFormed;
    hide FirstFiles;
    hide Load;
    if whole == [] {
      NoFilesLoad(Puts(whole));
      assert Puts(whole) == [];
    } else {
      FirstFilesLoad(whole, j);
    }
  }

  lemma ReplaceKeeps(s: Sys, step: Step, sid: string)
    requires step.ReplaceDb?
    ensures var after := Take(s, step);
      after.folders == s.folders && after.publishers == s.publishers && IsPrefix(after.LogOf(sid), s.LogOf(sid))
  {
  }

  lemma SurvivingReplaceTracks(s: Sys, step: Step, sid: string, whole: seq<Entry>, j: nat) returns (left: seq<Entry>)
    requires step.ReplaceDb? && Tracks(s, sid, whole, j) && Survives(s, step, sid)
    ensures Tracks(Take(s, step), sid, left, j)
  {
    hide WellFormed;
    hide Puts;
    hide FirstFiles;
    hide Load;
    hide Take;
    ReplaceKeeps(s, step, sid);
    LoadOfTracked(s, sid, whole, j);
    var after := Take(s, step);
    var known := Known(after, sid);
    left := known;
    if known == [] && exists pid :: pid in s.publishers && s.publishers[pid].session == sid && s.publishers[pid].Writing? {
      var pid :| pid in s.publishers && s.publishers[pid].session == sid && s.publishers[pid].Writing?;
      assert PublisherOk(s.publishers[pid], whole, j);
      NoEntries();
      left := whole[..1];
    }
    forall pid | pid in s.publishers && s.publishers[pid].session == sid && s.publishers[pid].Writing?
      ensures IsPrefix(s.publishers[pid].snapshot, left)
    {
      assert PublisherOk(s.publishers[pid], whole, j);
    }
    CutTracks(s, after, sid, whole, j, left);
  }

  /** A replacement of the database keeps the invariant exactly when what the publishers hold survives it. */
  lemma ReplaceExactly(s: Sys, step: Step, sid: string)
    requires step.ReplaceDb? && Tracked(s, sid)
    ensures Survives(s, step, sid) <==> Tracked(Take(s, step), sid)
  {
    hide WellFormed;
    hide Puts;
    hide FirstFiles;
    hide Load;
    hide Take;
    hide Tracks;
    ReplaceKeeps(s, step, sid);
    var after := Take(s, step);
    if Survives(s, step, sid) {
      var whole, j :| Tracks(s, sid, whole, j);
      var left := SurvivingReplaceTracks(s, step, sid, whole, j);
    }
    if Tracked(after, sid) {
      var left, k :| Tracks(after, sid, left, k);
      TrackedSurvives(s, step, sid, left, k);
    }
  }

  lemma TrackedSurvives(s: Sys, step: Step, sid: string, left: seq<Entry>, k: nat)
    requires step.ReplaceDb? && Tracks(Take(s, step), sid, left, k) && Take(s, step).publishers == s.publishers
    ensures Survives(s, step, sid)
  {
    hide WellFormed;
    hide Puts;
    hide FirstFiles;
    hide Load;
    hide Take;
    var after := Take(s, step);
    MergeFindsAll(after, sid, left, k);
    forall pid | pid in s.publishers && s.publishers[pid].session == sid && s.publishers[pid].Writing?
      ensures IsPrefix(s.publishers[pid].snapshot, left) && s.publishers[pid].snapshot != []
    {
      assert PublisherOk(after.publishers[pid], left, k);
      NoEntries();
    }
  }

  /** Every step keeps the invariant of a session, except a replacement that loses what a publisher holds;
      without a replacement the log stays the whole story. */
  lemma StepTracks(s: Sys, step: Step, sid: string, whole: seq<Entry>, j: nat) returns (whole': seq<Entry>, j': nat)
    requires Tracks(s, sid, whole, j) && (step.ReplaceDb? ==> Survives(s, step, sid))
    ensures Tracks(Take(s, step), sid, whole', j')
    ensures !step.ReplaceDb? && s.LogOf(sid) == whole ==> Take(s, step).LogOf(sid) == whole'
  {
    whole', j' := whole, j;
    match step {
      case Start(_, _, _) => whole' := StartTracks(s, step, sid, whole, j);
      case Transact(_, _, _) => whole' := TransactTracks(s, step, sid, whole, j);
      case PutNext(_) => j' := PutTracks(s, step, sid, whole, j);
      case ReplaceDb(_) => whole' := SurvivingReplaceTracks(s, step, sid, whole, j);
      case ReadLog(pid) =>
        ReadTracks(s, step, sid, whole, j);
      case Stop(_) =>
    }
  }

  lemma ReadTracks(s: Sys, step: Step, sid: string, whole: seq<Entry>, j: nat)
    requires step.ReadLog? && Tracks(s, sid, whole, j)
    ensures Tracks(Take(s, step), sid, whole, j)
    ensures Take(s, step).LogOf(sid) == s.LogOf(sid)
  {
    WellFormedExact(s.LogOf(sid));
    assert whole[..|whole|] == whole;
  }

  lemma CalmSplit(steps: seq<Step>, sid: string)
    requires steps != []
    ensures var n := |steps| - 1;
      Calm(steps, sid) <==> Calm(steps[..n], sid) && (steps[n].ReplaceDb? ==> Survives(Execute(steps[..n]), steps[n], sid))
  {
    hide Execute;
    hide Survives;
    var n := |steps| - 1;
    var before := steps[..n];
    assert forall i | 0 <= i <= n :: before[..i] == steps[..i];
    assert forall i | 0 <= i < n :: before[i] == steps[i];
    assert steps[..n] == before;
  }

  /** Some whole story and file count fit every session of every reachable state. */
  lemma {:induction false} AlwaysTracks(steps: seq<Step>, sid: string) returns (whole: seq<Entry>, j: nat)
    requires Calm(steps, sid)
    ensures Tracks(Execute(steps), sid, whole, j)
    ensures (forall i | 0 <= i < |steps| :: !steps[i].ReplaceDb?) ==> Execute(steps).LogOf(sid) == whole
  {
    hide Take;
    hide Survives;
    if steps == [] {
      whole, j := [], 0;
      NoFilesLoad(Puts([]));
    } else {
      var n := |steps| - 1;
      CalmSplit(steps, sid);
      whole, j := AlwaysTracks(steps[..n], sid);
      whole, j := StepTracks(Execute(steps[..n]), steps[n], sid, whole, j);
    }
  }

  /** The invariant holds all along a run exactly when no replacement loses what a publisher holds. */
  lemma {:induction false} RunTracksExactly(steps: seq<Step>, sid: string)
    ensures (forall i | 0 <= i <= |steps| :: Tracked(Execute(steps[..i]), sid)) <==> Calm(steps, sid)
  {
    hide Take;
    hide Survives;
    hide Tracks;
    hide Execute;
    if Calm(steps, sid) {
      forall i | 0 <= i <= |steps|
        ensures Tracked(Execute(steps[..i]), sid)
      {
        CalmFirst(steps, i, sid);
        var whole, j := AlwaysTracks(steps[..i], sid);
      }
    } else {
      var i :| 0 <= i < |steps| && steps[i].ReplaceDb? && !Survives(Execute(steps[..i]), steps[i], sid);
      ExecuteStep(steps, i);
      if Tracked(Execute(steps[..i]), sid) {
        ReplaceExactly(Execute(steps[..i]), steps[i], sid);
      }
    }
  }

  lemma ExecuteStep(steps: seq<Step>, i: nat)
    requires i < |steps|
    ensures Execute(steps[..i + 1]) == Take(Execute(steps[..i]), steps[i])
  {
    assert steps[..i + 1][..i] == steps[..i];
  }

  lemma CalmFirst(steps: seq<Step>, i: nat, sid: string)
    requires i <= |steps| && Calm(steps, sid)
    ensures Calm(steps[..i], sid)
  {
    hide Survives;
    hide Execute;
    forall k | 0 <= k < i && steps[..i][k].ReplaceDb?
      ensures Survives(Execute(steps[..i][..k]), steps[..i][k], sid)
    {
      assert steps[..i][..k] == steps[..k];
    }
  }

  // ---------- what follows for every run ----------

  /** No step of any run, in any state, changes or removes a file. */
  lemma NoFileEverChanges(s: Sys, step: Step, sid: string, id: FileId)
    requires id in s.FolderOf(sid)
    ensures id in Take(s, step).FolderOf(sid) && Take(s, step).FolderOf(sid)[id] == s.FolderOf(sid)[id]
  {
  }

  /** As long as the database is kept: the event files of a session are numbered 1..n without a gap, they are
      the first n events of its log, and the log replays. */
  lemma FilesAreFirstEvents(steps: seq<Step>, sid: string) returns (n: nat)
    requires forall i | 0 <= i < |steps| :: !steps[i].ReplaceDb?
    ensures var s := Execute(steps);
      && n <= |s.LogOf(sid)| && Complete(s.FolderOf(sid), n)
      && Load(s.FolderOf(sid)) == Ok(s.LogOf(sid)[..n])
      && (s.LogOf(sid) != [] ==> WellFormed(s.LogOf(sid)))
  {
    hide Take;
    hide WellFormed;
    hide Puts;
    hide FirstFiles;
    NothingReplacedIsCalm(steps, sid);
    var whole, j := AlwaysTracks(steps, sid);
    n := Min(j, |whole|);
    LoadOfTracked(Execute(steps), sid, whole, j);
    TrackedComplete(Execute(steps), sid, whole, j);
  }

  lemma TrackedComplete(s: Sys, sid: string, whole: seq<Entry>, j: nat)
    requires Tracks(s, sid, whole, j)
    ensures Complete(s.FolderOf(sid), Min(j, |whole|))
  {
    hide WellFormed;
    if whole == [] {
      assert Complete(map[], 0);
    } else {
      hide FirstFiles;
      FirstFilesLoad(whole, j);
    }
  }

  lemma NothingReplacedIsCalm(steps: seq<Step>, sid: string)
    requires forall i | 0 <= i < |steps| :: !steps[i].ReplaceDb?
    ensures Calm(steps, sid)
  {
  }

  /** The next put of this publisher finds a file that says something else. */
  ghost predicate Refused(s: Sys, pid: nat) {
    && pid in s.publishers && s.publishers[pid].Writing?
    && var p := s.publishers[pid];
       p.next < |Puts(p.snapshot)| && PutOne(s.FolderOf(p.session), Puts(p.snapshot)[p.next]) == Err(EvidenceConflict)
  }

  /** The files never contradict a publisher: the only put that can fail for its content is an event number
      that no longer fits the file name. This includes runs in which the database was lost. */
  lemma PublishersNeverConflict(steps: seq<Step>, pid: nat)
    requires pid in Execute(steps).publishers ==> Calm(steps, Execute(steps).publishers[pid].session)
    ensures !Refused(Execute(steps), pid)
  {
    var s := Execute(steps);
    if pid in s.publishers && s.publishers[pid].Writing?
       && s.publishers[pid].next < |Puts(s.publishers[pid].snapshot)| {
      var p := s.publishers[pid];
      var whole, j := AlwaysTracks(steps, p.session);
      assert PublisherOk(p, whole, j);
      PutsOfPrefix(p.snapshot, whole);
      PutsAreProper(whole);
      PutAgain(Puts(whole), p.next, j);
    }
  }

  lemma {:induction false} PutAllCatchesUp(puts: seq<Put>, i: nat, j: nat)
    requires ProperPuts(puts) && i <= |puts| && j <= |puts|
    requires forall k | 0 <= k < |puts| && puts[k].id.EventFile? :: puts[k].id.number <= MAX_EVENT_NUMBER
    ensures PutAll(FirstFiles(puts, j), puts[..i]) == Published(FirstFiles(puts, if i < j then j else i), true)
  {
    if i > 0 {
      PutAllCatchesUp(puts, i - 1, j);
      PutAllAppend(FirstFiles(puts, j), puts, i - 1);
      PutAgain(puts, i - 1, if i - 1 < j then j else i - 1);
    }
  }

  // ---------- why the database must not be replaced under a publisher ----------

  const ID := "s"
  const BEGUN := Entry(InterviewStarted, map["goal" := Str("g")])

  function Said(answer: string): Entry {
    Entry(AnswerRecorded, map["field" := Str("constraints"), "answer" := Str(answer)])
  }

  function OneFile(): Folder { map[EventPut(1, BEGUN).id := EventPut(1, BEGUN).record] }

  lemma PutsOfTwo(e: Entry, answer: string)
    ensures Puts([e]) == PutsOf(1, e)
    ensures Puts([BEGUN, Said(answer)]) == [EventPut(1, BEGUN), EventPut(2, Said(answer))]
  {
    assert [e][..0] == [];
    assert [BEGUN, Said(answer)][..1] == [BEGUN] && [BEGUN][..0] == [];
  }

  lemma LoadOneFile()
    ensures Load(OneFile()) == Ok([BEGUN])
  {
    assert Complete(OneFile(), 1);
    LoadIs(OneFile(), 1);
    assert FileLog(OneFile(), 1) == [BEGUN];
  }

  lemma ReplayBegun(e: Entry)
    ensures Replay([BEGUN]) == Ok(Session("g", map[], None))
    ensures Replay([BEGUN, e]) == Apply(Session("g", map[], None), e)
  {
    assert [BEGUN][..0] == [] && [BEGUN, e][..1] == [BEGUN];
    assert !IsSpace("g"[0]);
    assert Fold([BEGUN]) == Apply(EMPTY, BEGUN);
  }

  lemma AnswerOnOneFile(log: seq<Entry>, answer: string)
    requires log == [] || log == [BEGUN]
    requires |answer| == 1 && !IsSpace(answer[0])
    ensures Commit(log, OneFile(), RecordAnswer("constraints", answer)) == Ok([BEGUN, Said(answer)])
    ensures Replay([BEGUN, Said(answer)]).Ok?
  {
    LoadOneFile();
    ReplayBegun(Said(answer));
    assert Longer(log, [BEGUN]) == [BEGUN];
    assert AnswerEntry("constraints", answer) == Said(answer);
    assert [BEGUN] + [Said(answer)] == [BEGUN, Said(answer)];
  }

  /** A process records an answer and publishes the first file, which is there already. */
  function AnswerSteps(pid: nat, answer: string): seq<Step> {
    [Transact(pid, ID, RecordAnswer("constraints", answer)), ReadLog(pid), PutNext(pid)]
  }

  lemma AnswerStates(s: Sys, pid: nat, answer: string) returns (after: Sys)
    requires (s.LogOf(ID) == [] || s.LogOf(ID) == [BEGUN]) && s.FolderOf(ID) == OneFile() && pid !in s.publishers
    requires |answer| == 1 && !IsSpace(answer[0])
    ensures var steps := AnswerSteps(pid, answer); after == Take(Take(Take(s, steps[0]), steps[1]), steps[2])
    ensures after.LogOf(ID) == [BEGUN, Said(answer)] && after.FolderOf(ID) == OneFile()
    ensures after.publishers == s.publishers[pid := Writing(ID, [BEGUN, Said(answer)], 1)]
  {
    hide Commit;
    hide Replay;
    hide Puts;
    hide Said;
    AnswerOnOneFile(s.LogOf(ID), answer);
    PutsOfTwo(BEGUN, answer);
    var log := [BEGUN, Said(answer)];
    var steps := AnswerSteps(pid, answer);
    var s1 := Take(s, steps[0]);
    assert s1 == s.(logs := s.logs[ID := log], publishers := s.publishers[pid := Reading(ID)]);
    var s2 := Take(s1, steps[1]);
    assert s2 == s1.(publishers := s1.publishers[pid := Writing(ID, log, 0)]);
    after := Take(s2, steps[2]);
  }

  lemma ExecuteThree(steps: seq<Step>, a: Step, b: Step, c: Step)
    ensures Execute(steps + [a, b, c]) == Take(Take(Take(Execute(steps), a), b), c)
  {
    hide Take;
    ExecuteAppend(steps, [a]);
    ExecuteAppend(steps, [a, b]);
    ExecuteAppend(steps, [a, b, c]);
    assert [a, b, c][..2] == [a, b] && [a, b][..1] == [a] && [a][..0] == [] && steps + [] == steps;
  }

  lemma AnswerRun(steps: seq<Step>, pid: nat, answer: string)
    requires var s := Execute(steps);
      (s.LogOf(ID) == [] || s.LogOf(ID) == [BEGUN]) && s.FolderOf(ID) == OneFile() && pid !in s.publishers
    requires |answer| == 1 && !IsSpace(answer[0])
    ensures var s, after := Execute(steps), Execute(steps + AnswerSteps(pid, answer));
      && after.LogOf(ID) == [BEGUN, Said(answer)] && after.FolderOf(ID) == OneFile()
      && after.publishers == s.publishers[pid := Writing(ID, [BEGUN, Said(answer)], 1)]
  {
    hide Take;
    hide Execute;
    var _ := AnswerStates(Execute(steps), pid, answer);
    var more := AnswerSteps(pid, answer);
    ExecuteThree(steps, more[0], more[1], more[2]);
  }

  lemma ExecuteAppend(steps: seq<Step>, more: seq<Step>)
    requires more != []
    ensures Execute(steps + more) == Take(Execute(steps + more[..|more| - 1]), more[|more| - 1])
  {
    assert (steps + more)[..|steps + more| - 1] == steps + more[..|more| - 1];
  }

  /** One process starts the session and publishes it; a second one records an answer and is about to publish it. */
  function BeforeLoss(): seq<Step> { [Start(1, ID, "g"), ReadLog(1), PutNext(1)] + AnswerSteps(2, "a") }

  lemma FirstPublish()
    ensures var s := Take(Take(Take(NOTHING, Start(1, ID, "g")), ReadLog(1)), PutNext(1));
      s == Sys(map[ID := [BEGUN]], map[ID := OneFile()], map[1 := Writing(ID, [BEGUN], 1)])
  {
    hide Replay;
    hide Puts;
    hide Commit;
    ReplayBegun(BEGUN);
    PutsOfTwo(BEGUN, "a");
    assert StartEntry("g") == BEGUN && !Blank("g") by {
      assert !IsSpace("g"[0]);
    }
    var s1 := Take(NOTHING, Start(1, ID, "g"));
    assert s1 == Sys(map[ID := [BEGUN]], map[], map[1 := Reading(ID)]);
    var s2 := Take(s1, ReadLog(1));
    assert s2 == s1.(publishers := map[1 := Writing(ID, [BEGUN], 0)]);
  }

  lemma BeforeLossState()
    ensures var s := Execute(BeforeLoss());
      && ID in s.logs && s.FolderOf(ID) == OneFile()
      && 2 in s.publishers && s.publishers[2] == Writing(ID, [BEGUN, Said("a")], 1) && 3 !in s.publishers
  {
    assert Execute([]) == NOTHING;
    hide Take;
    hide Execute;
    hide Said;
    var first := [Start(1, ID, "g"), ReadLog(1), PutNext(1)];
    ExecuteThree([], first[0], first[1], first[2]);
    assert [] + first == first;
    FirstPublish();
    assert Execute(first).FolderOf(ID) == OneFile() && Execute(first).LogOf(ID) == [BEGUN];
    AnswerRun(first, 2, "a");
  }

  lemma DifferentAnswers()
    ensures EventPut(2, Said("a")).record != EventPut(2, Said("b")).record
  {
    assert Said("a").payload["answer"].s[0] != Said("b").payload["answer"].s[0];
  }

  /** A third process has answered differently; its second file goes out before the one of the second process. */
  lemma SecondFileRefused(s: Sys)
    requires s.FolderOf(ID) == OneFile() && 2 in s.publishers && 3 in s.publishers
    requires s.publishers[2] == Writing(ID, [BEGUN, Said("a")], 1)
    requires s.publishers[3] == Writing(ID, [BEGUN, Said("b")], 1)
    ensures Refused(Take(s, PutNext(3)), 2) && Take(s, PutNext(3)).publishers[2].session == ID
  {
    hide Puts;
    hide Said;
    hide Commit;
    hide Replay;
    PutsOfTwo(BEGUN, "a");
    PutsOfTwo(BEGUN, "b");
    DifferentAnswers();
    var after := Take(s, PutNext(3));
    assert after.FolderOf(ID) == OneFile()[EventFile(2) := EventPut(2, Said("b")).record];
  }

  /** Losing the database while a publisher is at work can end in a refused file. */
  lemma LossUnderAPublisherConflicts()
    ensures exists steps, pid :: !Calm(steps, ID) && Refused(Execute(steps), pid)
  {
    hide Take;
    hide Execute;
    hide Said;
    hide Refused;
    var early := BeforeLoss();
    BeforeLossState();
    var lost := early + [ReplaceDb(map[])];
    ExecuteAppend(early, [ReplaceDb(map[])]);
    assert early + [] == early;
    LostState(Execute(early));
    AnswerRun(lost, 3, "b");
    var late := lost + AnswerSteps(3, "b");
    var steps := late + [PutNext(3)];
    ExecuteAppend(late, [PutNext(3)]);
    assert late + [] == late;
    SecondFileRefused(Execute(late));
    assert Refused(Execute(steps), 2);
    if Calm(steps, ID) {
      PublishersNeverConflict(steps, 2);
    }
  }

  lemma LostState(s: Sys)
    ensures var lost := Take(s, ReplaceDb(map[]));
      lost.LogOf(ID) == [] && lost.folders == s.folders && lost.publishers == s.publishers
  {
  }

  lemma FrozenStep(s: Sys, step: Step, sid: string)
    requires Frozen(s.LogOf(sid)) && !step.ReplaceDb?
    ensures Take(s, step).LogOf(sid) == s.LogOf(sid)
  {
    hide Commit;
    hide Replay;
    hide PutOne;
    hide Puts;
    if step.Transact? && ProperIds(step.op) {
      FreezeIsFinal(s.LogOf(sid), s.FolderOf(sid), step.op);
    }
  }

  /** A frozen session stays as it is in every run that keeps the database. */
  lemma {:induction false} FrozenForever(steps: seq<Step>, more: seq<Step>, sid: string)
    requires Frozen(Execute(steps).LogOf(sid))
    requires forall i | 0 <= i < |more| :: !more[i].ReplaceDb?
    ensures Execute(steps + more).LogOf(sid) == Execute(steps).LogOf(sid)
  {
    hide Take;
    if more == [] {
      assert steps + more == steps;
    } else {
      var n := |more| - 1;
      FrozenForever(steps, more[..n], sid);
      ExecuteAppend(steps, more);
      FrozenStep(Execute(steps + more[..n]), more[n], sid);
    }
  }
}
