/**
 When database log and file log come together again. In every run at all - whatever was lost,
 and when - one `get_session` makes them equal unless they already say different things at
 some place. Which losses can lead there is decided by what the publishers hold.
 */
module TwoLogs {
  import opened Common
  import opened SessionLog
  import opened EvidenceFiles
  import opened Workflows
  import opened PublishProtocol
  import opened DatabaseLoss

  /** Log and file say different things about the same event. */
  ghost predicate SplitAt(s: Sys, sid: string, i: nat) {
    && i < |s.LogOf(sid)| && GoodEventFile(s.FolderOf(sid), i + 1)
    && EntryAt(s.FolderOf(sid), i + 1) != s.LogOf(sid)[i]
  }

  ghost predicate IsSplit(s: Sys, sid: string) { exists i: nat :: SplitAt(s, sid, i) }

  // ---------- what holds in every run ----------

  /** The files of a session are the first `j` files of some history, its log is a history, and what a publisher
      has put so far is among these files. */
  ghost predicate Mirrored(s: Sys, sid: string, owner: seq<Entry>, j: nat) {
    && (owner == [] || WellFormed(owner))
    && j <= |Puts(owner)| && s.FolderOf(sid) == FirstFiles(Puts(owner), j)
    && (s.LogOf(sid) == [] || WellFormed(s.LogOf(sid)))
    && forall pid | pid in s.publishers && s.publishers[pid].session == sid && s.publishers[pid].Writing? ::
         HasWritten(s.publishers[pid], owner, j)
  }

  ghost predicate HasWritten(p: Publisher, owner: seq<Entry>, j: nat)
    requires p.Writing? && j <= |Puts(owner)|
  {
    && WellFormed(p.snapshot) && p.next <= |Puts(p.snapshot)| && p.next <= j
    && Puts(p.snapshot)[..p.next] == Puts(owner)[..p.next]
  }

  /** Two histories with the same first puts name the next file alike. */
  lemma NextIdsAgree(a: seq<Entry>, b: seq<Entry>, n: nat)
    requires WellFormed(a) && WellFormed(b) && n < |Puts(a)| && n < |Puts(b)| && Puts(a)[..n] == Puts(b)[..n]
    ensures Puts(a)[n].id == Puts(b)[n].id
  {
    hide WellFormed;
    hide Puts;
    PutsShape(a);
    PutsShape(b);
    if n == |a| || n == |b| {
      assert n > 0 by {
        NoEntries();
      }
      assert Puts(a)[n - 1] == Puts(a)[..n][n - 1] == Puts(b)[n - 1];
      SameEntryFrozen(a, b, n);
    }
  }

  /** When one of them is frozen at this length, so is the other. */
  lemma SameEntryFrozen(a: seq<Entry>, b: seq<Entry>, n: nat)
    requires WellFormed(a) && WellFormed(b) && 0 < n < |Puts(a)| && n < |Puts(b)| && Puts(a)[n - 1] == Puts(b)[n - 1]
    requires n == |a| || n == |b|
    ensures n == |a| == |b| && a[n - 1] == b[n - 1]
  {
    hide WellFormed;
    hide Puts;
    PutsShape(a);
    PutsShape(b);
    assert n - 1 < |a| && n - 1 < |b|;
    assert EventPut(n, a[n - 1]) == EventPut(n, b[n - 1]);
    FreezeComesLast(a, n - 1);
    FreezeComesLast(b, n - 1);
  }

  lemma SamePuts(a: seq<Put>, b: seq<Put>, n: nat)
    requires n <= |a| && n <= |b| && a[..n] == b[..n]
    ensures forall i | 0 <= i < n :: a[i] == b[i]
  {
    assert forall i | 0 <= i < n :: a[..n][i] == b[..n][i];
  }

  /** A put that finds its file there finds it at its own place. */
  lemma SamePlace(snapshot: seq<Entry>, owner: seq<Entry>, n: nat, j: nat, i: nat)
    requires WellFormed(snapshot) && WellFormed(owner) && n < |Puts(snapshot)| && n <= j <= |Puts(owner)| && i < j
    requires Puts(snapshot)[..n] == Puts(owner)[..n] && Puts(snapshot)[n].id == Puts(owner)[i].id
    ensures i == n
  {
    hide WellFormed;
    hide Puts;
    PutsAreProper(snapshot);
    PutsAreProper(owner);
    SamePuts(Puts(snapshot), Puts(owner), n);
    if n < |Puts(owner)| {
      NextIdsAgree(snapshot, owner, n);
    }
  }

  /** The one step that writes a file: the files stay the first files of a history. */
  lemma PutMirrors(s: Sys, pid: nat, owner: seq<Entry>, j: nat) returns (owner': seq<Entry>, j': nat)
    requires pid in s.publishers && s.publishers[pid].Writing?
    requires Mirrored(s, s.publishers[pid].session, owner, j)
    requires s.publishers[pid].next < |Puts(s.publishers[pid].snapshot)|
    ensures var p, after := s.publishers[pid], Take(s, PutNext(pid)); Mirrored(after, p.session, owner', j')
  {
    hide WellFormed;
    hide Puts;
    hide FirstFiles;
    hide Take;
    var p := s.publishers[pid];
    var put := Puts(p.snapshot)[p.next];
    owner', j' := owner, j;
    assert HasWritten(p, owner, j);
    OwnerIsHistory(owner, p.next, j);
    if put.id in s.FolderOf(p.session) {
      PutFound(s, pid, owner, j);
    } else {
      j' := PutNew(s, pid, owner, j);
      if j' != j {
        owner' := p.snapshot;
      }
    }
  }

  lemma OwnerIsHistory(owner: seq<Entry>, n: nat, j: nat)
    requires n <= j <= |Puts(owner)|
    ensures owner == [] ==> n == 0 && j == 0
  {
  }

  /** The file exists: it is the publisher's own next one, or the publisher is refused. */
  lemma PutFound(s: Sys, pid: nat, owner: seq<Entry>, j: nat)
    requires pid in s.publishers && s.publishers[pid].Writing?
    requires var p := s.publishers[pid];
      && Mirrored(s, p.session, owner, j) && p.next < |Puts(p.snapshot)|
      && Puts(p.snapshot)[p.next].id in s.FolderOf(p.session)
    ensures Mirrored(Take(s, PutNext(pid)), s.publishers[pid].session, owner, j)
  {
    hide WellFormed;
    hide Puts;
    hide FirstFiles;
    var p := s.publishers[pid];
    var put := Puts(p.snapshot)[p.next];
    var folder := s.FolderOf(p.session);
    assert HasWritten(p, owner, j);
    NoFilesOfNothing(owner, j);
    PutsAreProper(owner);
    FirstFilesHold(Puts(owner), j);
    var i :| 0 <= i < j && Puts(owner)[i].id == put.id;
    SamePlace(p.snapshot, owner, p.next, j, i);
    if PutOne(folder, put).Ok? {
      assert put == Puts(owner)[i];
      OneFurther(p.snapshot, owner, i);
    }
  }

  lemma NoFilesOfNothing(owner: seq<Entry>, j: nat)
    requires j <= |Puts(owner)|
    ensures owner == [] ==> FirstFiles(Puts(owner), j) == map[]
  {
  }

  lemma OneFurther(a: seq<Entry>, b: seq<Entry>, n: nat)
    requires n < |Puts(a)| && n < |Puts(b)| && Puts(a)[..n] == Puts(b)[..n] && Puts(a)[n] == Puts(b)[n]
    ensures Puts(a)[..n + 1] == Puts(b)[..n + 1]
  {
    hide Puts;
    assert Puts(a)[..n + 1] == Puts(a)[..n] + [Puts(a)[n]];
    assert Puts(b)[..n + 1] == Puts(b)[..n] + [Puts(b)[n]];
  }

  /** The file is new: the publisher has put everything there is, and its history now owns the files. */
  lemma PutNew(s: Sys, pid: nat, owner: seq<Entry>, j: nat) returns (j': nat)
    requires pid in s.publishers && s.publishers[pid].Writing?
    requires var p := s.publishers[pid];
      && Mirrored(s, p.session, owner, j) && p.next < |Puts(p.snapshot)|
      && Puts(p.snapshot)[p.next].id !in s.FolderOf(p.session)
    ensures j' == j || j' == j + 1
    ensures var p := s.publishers[pid];
      Mirrored(Take(s, PutNext(pid)), p.session, if j' == j then owner else p.snapshot, j')
  {
    hide WellFormed;
    hide Puts;
    hide FirstFiles;
    var p := s.publishers[pid];
    var n := p.next;
    var put := Puts(p.snapshot)[n];
    assert HasWritten(p, owner, j);
    PutsAreProper(p.snapshot);
    NewIsLast(p.snapshot, owner, n, j);
    FirstFilesPrefix(Puts(p.snapshot), n, n);
    FirstFilesPrefix(Puts(owner), n, n);
    GrowFirstFiles(Puts(p.snapshot), n);
    var after := Take(s, PutNext(pid));
    if PutOne(s.FolderOf(p.session), put).Ok? {
      j' := j + 1;
      forall q | q in after.publishers && after.publishers[q].session == p.session && after.publishers[q].Writing?
        ensures HasWritten(after.publishers[q], p.snapshot, j')
      {
        if q != pid {
          assert HasWritten(s.publishers[q], owner, j);
          SamePrefix(s.publishers[q].snapshot, owner, p.snapshot, s.publishers[q].next, n);
        }
      }
    } else {
      j' := j;
    }
  }

  lemma SamePrefix(a: seq<Entry>, b: seq<Entry>, c: seq<Entry>, m: nat, n: nat)
    requires m <= n && m <= |Puts(a)| && n <= |Puts(b)| && n <= |Puts(c)|
    requires Puts(a)[..m] == Puts(b)[..m] && Puts(c)[..n] == Puts(b)[..n]
    ensures Puts(a)[..m] == Puts(c)[..m]
  {
    hide Puts;
    assert Puts(b)[..n][..m] == Puts(b)[..m] && Puts(c)[..n][..m] == Puts(c)[..m];
  }

  lemma GrowFirstFiles(puts: seq<Put>, n: nat)
    requires n < |puts|
    ensures FirstFiles(puts, n + 1) == FirstFiles(puts, n)[puts[n].id := puts[n].record]
  {
  }

  lemma NewIsLast(snapshot: seq<Entry>, owner: seq<Entry>, n: nat, j: nat)
    requires WellFormed(snapshot) && (owner == [] || WellFormed(owner))
    requires n < |Puts(snapshot)| && n <= j <= |Puts(owner)| && Puts(snapshot)[..n] == Puts(owner)[..n]
    requires Puts(snapshot)[n].id !in FirstFiles(Puts(owner), j)
    ensures j == n
  {
    hide WellFormed;
    hide Puts;
    hide FirstFiles;
    OwnerIsHistory(owner, n, j);
    if owner != [] && n < j {
      NextIdsAgree(snapshot, owner, n);
      PutsAreProper(owner);
      FirstFilesHold(Puts(owner), j);
      assert false;
    }
  }

  /** The other steps leave the files alone and add only what replays. */
  lemma QuietMirrors(s: Sys, step: Step, sid: string, owner: seq<Entry>, j: nat)
    requires Mirrored(s, sid, owner, j) && !step.PutNext?
    ensures Mirrored(Take(s, step), sid, owner, j)
  {
    hide WellFormed;
    hide Puts;
    hide FirstFiles;
    hide Commit;
    hide Replay;
    var after := Take(s, step);
    match step {
      case Start(_, _, goal) =>
        StripKeepsText(goal);
        FirstEntry(StartEntry(goal));
      case Transact(_, other, op) =>
        if ProperIds(op) {
          CommitIsSound(s.LogOf(other), s.FolderOf(other), op);
        }
      case ReadLog(_) =>
        WellFormedExact(s.LogOf(sid));
      case ReplaceDb(kept) =>
        if sid in kept && kept[sid] < |s.LogOf(sid)| {
          PrefixIsWellFormed(s.LogOf(sid), kept[sid]);
        }
      case _ =>
    }
  }

  /** Another session's files and log do not move. */
  lemma OtherPutMirrors(s: Sys, pid: nat, sid: string, owner: seq<Entry>, j: nat)
    requires Mirrored(s, sid, owner, j)
    requires pid in s.publishers && s.publishers[pid].Writing? ==>
      s.publishers[pid].session != sid || s.publishers[pid].next >= |Puts(s.publishers[pid].snapshot)|
    ensures Mirrored(Take(s, PutNext(pid)), sid, owner, j)
  {
    hide WellFormed;
    hide Puts;
    hide FirstFiles;
    hide PutOne;
  }

  lemma {:induction false} AlwaysMirrored(steps: seq<Step>, sid: string) returns (owner: seq<Entry>, j: nat)
    ensures Mirrored(Execute(steps), sid, owner, j)
  {
    hide Take;
    if steps == [] {
      owner, j := [], 0;
      NoFilesLoad(Puts([]));
    } else {
      var n := |steps| - 1;
      var s, step := Execute(steps[..n]), steps[n];
      owner, j := AlwaysMirrored(steps[..n], sid);
      hide Mirrored;
      if !step.PutNext? {
        QuietMirrors(s, step, sid, owner, j);
      } else if step.pid in s.publishers && s.publishers[step.pid].Writing? && s.publishers[step.pid].session == sid
                && s.publishers[step.pid].next < |Puts(s.publishers[step.pid].snapshot)| {
        owner, j := PutMirrors(s, step.pid, owner, j);
      } else {
        OtherPutMirrors(s, step.pid, sid, owner, j);
      }
    }
  }

  // ---------- convergence, in every run ----------

  /** The files always read back, as the first events of a history. */
  lemma LoadOfMirrored(s: Sys, sid: string, owner: seq<Entry>, j: nat) returns (files: seq<Entry>)
    requires Mirrored(s, sid, owner, j)
    ensures files == owner[..Min(j, |owner|)] && Load(s.FolderOf(sid)) == Ok(files)
    ensures files == [] || WellFormed(files)
    ensures forall k: nat | k > 0 :: GoodEventFile(s.FolderOf(sid), k) <==> k <= |files|
    ensures forall k: nat | 0 < k <= |files| :: EntryAt(s.FolderOf(sid), k) == files[k - 1]
  {
    hide WellFormed;
    hide FirstFiles;
    hide Load;
    files := owner[..Min(j, |owner|)];
    if owner == [] {
      NoFilesLoad(Puts(owner));
      assert Puts(owner) == [];
    } else {
      FirstFilesLoad(owner, j);
      PrefixIsWellFormed(owner, |files|);
      forall k: nat | k > 0
        ensures GoodEventFile(s.FolderOf(sid), k) <==> k <= |files|
        ensures k <= |files| ==> EntryAt(s.FolderOf(sid), k) == files[k - 1]
      {
        FirstFilesEvent(owner, j, k);
      }
    }
  }

  lemma DifferSomewhere(a: seq<Entry>, b: seq<Entry>)
    ensures Agree(a, b) <==> forall i | 0 <= i < |a| && i < |b| :: a[i] == b[i]
  {
    if forall i | 0 <= i < |a| && i < |b| :: a[i] == b[i] {
      if |a| <= |b| {
        assert a == b[..|a|];
      } else {
        assert b == a[..|b|];
      }
    }
  }

  /** A load of a session with something in either log succeeds exactly when the logs are not split. */
  lemma MergesUnlessSplit(s: Sys, sid: string, owner: seq<Entry>, j: nat)
    requires Mirrored(s, sid, owner, j) && Known(s, sid) != []
    ensures Merge(s.LogOf(sid), s.FolderOf(sid)).Ok? <==> !IsSplit(s, sid)
    ensures !IsSplit(s, sid) ==> Merge(s.LogOf(sid), s.FolderOf(sid)) == Ok(Known(s, sid)) && WellFormed(Known(s, sid))
    ensures IsSplit(s, sid) ==> Merge(s.LogOf(sid), s.FolderOf(sid)) == Err(EvidenceConflict)
  {
    hide WellFormed;
    hide Mirrored;
    hide Load;
    hide GoodEventFile;
    var files := LoadOfMirrored(s, sid, owner, j);
    var log := s.LogOf(sid);
    LogReplays(s, sid, owner, j);
    MergeIsJoin(log, s.FolderOf(sid), files);
    DifferSomewhere(log, files);
    if Agree(log, files) {
      forall i: nat
        ensures !SplitAt(s, sid, i)
      {
      }
    } else {
      var i :| 0 <= i < |log| && i < |files| && log[i] != files[i];
      assert SplitAt(s, sid, i);
    }
  }

  lemma LogReplays(s: Sys, sid: string, owner: seq<Entry>, j: nat)
    requires Mirrored(s, sid, owner, j)
    ensures s.LogOf(sid) == [] || WellFormed(s.LogOf(sid))
  {
  }

  /** The longer log, when the logs agree, owns the files that exist; so publishing it completes. */
  lemma PublishCompletes(s: Sys, sid: string, owner: seq<Entry>, j: nat, longer: seq<Entry>)
    requires Mirrored(s, sid, owner, j) && WellFormed(longer) && |longer| <= MAX_EVENT_NUMBER
    requires IsPrefix(owner[..Min(j, |owner|)], longer)
    ensures PutAll(s.FolderOf(sid), Puts(longer)).complete
  {
    hide WellFormed;
    hide Puts;
    hide FirstFiles;
    hide PutAll;
    PutsShape(longer);
    PutsAreProper(longer);
    SameFirstFiles(owner, longer, j);
    PutAllCatchesUp(Puts(longer), |Puts(longer)|, j);
    assert Puts(longer)[..|Puts(longer)|] == Puts(longer);
  }

  lemma SameFirstFiles(owner: seq<Entry>, longer: seq<Entry>, j: nat)
    requires (owner == [] || WellFormed(owner)) && WellFormed(longer) && j <= |Puts(owner)|
    requires IsPrefix(owner[..Min(j, |owner|)], longer)
    ensures j <= |Puts(longer)| && FirstFiles(Puts(owner), j) == FirstFiles(Puts(longer), j)
  {
    hide WellFormed;
    hide Puts;
    hide FirstFiles;
    OwnerIsHistory(owner, 0, j);
    if j > 0 {
      PutsShape(owner);
      PutsShape(longer);
      var part := owner[..Min(j, |owner|)];
      PutsOfPrefix(part, owner);
      PutsOfPrefix(part, longer);
      if j > |owner| {
        assert part == owner;
        FreezeComesLast(longer, |owner| - 1);
        assert longer == owner;
      } else {
        EnoughPuts(part);
        FirstFilesPrefix(Puts(owner), |Puts(part)|, j);
        FirstFilesPrefix(Puts(longer), |Puts(part)|, j);
      }
    } else {
      NoFilesLoad(Puts(owner));
      NoFilesLoad(Puts(longer));
    }
  }

  lemma {:induction false} EnoughPuts(events: seq<Entry>)
    ensures |Puts(events)| >= |events|
  {
    if events != [] {
      EnoughPuts(events[..|events| - 1]);
    }
  }

  /** In every run, whatever was lost and when: the files read back, and one undisturbed `get_session` of a session
      with something in either log succeeds and makes both logs equal to the longer one exactly when the logs are
      not split; otherwise it reports a conflict. */
  lemma GetSessionConverges(steps: seq<Step>, sid: string)
    ensures var s := Execute(steps);
      var log, folder, longer := s.LogOf(sid), s.FolderOf(sid), Known(s, sid);
      && Load(folder).Ok? && longer == Longer(log, Load(folder).value)
      && (longer != [] ==> (Commit(log, folder, GetSession).Ok? <==> !IsSplit(s, sid)))
      && (longer != [] && IsSplit(s, sid) ==> Commit(log, folder, GetSession) == Err(EvidenceConflict))
      && (longer != [] && !IsSplit(s, sid) ==> Commit(log, folder, GetSession) == Ok(longer))
      && (longer != [] && !IsSplit(s, sid) && |longer| <= MAX_EVENT_NUMBER ==>
            && PutAll(folder, Puts(longer)).complete
            && Load(PutAll(folder, Puts(longer)).folder) == Ok(longer))
  {
    hide Execute;
    hide WellFormed;
    hide Mirrored;
    hide Merge;
    hide Load;
    hide Puts;
    hide PutAll;
    hide IsSplit;
    var s := Execute(steps);
    var owner, j := AlwaysMirrored(steps, sid);
    var files := LoadOfMirrored(s, sid, owner, j);
    var log, folder, longer := s.LogOf(sid), s.FolderOf(sid), Known(s, sid);
    if longer != [] {
      MergesUnlessSplit(s, sid, owner, j);
      GetSessionMerges(log, folder);
      if !IsSplit(s, sid) && |longer| <= MAX_EVENT_NUMBER {
        MergeIsJoin(log, folder, files);
        PublishCompletes(s, sid, owner, j, longer);
        PublishConverges(folder, longer);
      }
    }
  }

  // ---------- once split, always split ----------

  lemma SplitNeverMerges(s: Sys, sid: string, i: nat, op: Operation)
    requires SplitAt(s, sid, i)
    ensures Merge(s.LogOf(sid), s.FolderOf(sid)).Err? && Commit(s.LogOf(sid), s.FolderOf(sid), op).Err?
  {
    hide WellFormed;
    hide Replay;
    var log, folder := s.LogOf(sid), s.FolderOf(sid);
    if Load(folder).Ok? {
      var n: nat :| Complete(folder, n) && Load(folder) == Ok(FileLog(folder, n));
      var files := FileLog(folder, n);
      assert EventFile(i + 1) in folder;
      assert files[i] == EntryAt(folder, i + 1) != log[i];
      assert !Agree(log, files);
    }
    CommitNeedsMerge(log, folder, op);
  }

  lemma SplitStep(s: Sys, step: Step, sid: string, i: nat)
    requires SplitAt(s, sid, i) && !step.ReplaceDb?
    ensures SplitAt(Take(s, step), sid, i)
  {
    hide Commit;
    hide Replay;
    hide Puts;
    hide PutOne;
    hide GoodEventFile;
    if step.Transact? {
      SplitNeverMerges(s, sid, i, step.op);
    }
    GoodIsThere(s.FolderOf(sid), i + 1);
    NoFileEverChanges(s, step, sid, EventFile(i + 1));
    SameFile(s.FolderOf(sid), Take(s, step).FolderOf(sid), i + 1);
  }

  lemma GoodIsThere(folder: Folder, number: nat)
    requires GoodEventFile(folder, number)
    ensures EventFile(number) in folder
  {
  }

  lemma SameFile(before: Folder, after: Folder, number: nat)
    requires GoodEventFile(before, number)
    requires EventFile(number) in after && after[EventFile(number)] == before[EventFile(number)]
    ensures GoodEventFile(after, number) && EntryAt(after, number) == EntryAt(before, number)
  {
  }

  /** A split stays in every run that keeps the database, and every operation on the session fails from then on. */
  lemma {:induction false} SplitForever(s: Sys, more: seq<Step>, sid: string, i: nat, op: Operation)
    requires SplitAt(s, sid, i) && KeepsDatabase(more)
    ensures var after := From(s, more);
      SplitAt(after, sid, i) && Commit(after.LogOf(sid), after.FolderOf(sid), op).Err?
  {
    hide Take;
    hide SplitAt;
    hide Commit;
    if more != [] {
      var n := |more| - 1;
      SplitForever(s, more[..n], sid, i, op);
      SplitStep(From(s, more[..n]), more[n], sid, i);
    }
    SplitNeverMerges(From(s, more), sid, i, op);
  }

  // ---------- which losses can split the logs ----------

  /** A run whose losses all survive never splits a session. */
  lemma CalmNeverSplits(steps: seq<Step>, sid: string)
    requires Calm(steps, sid)
    ensures !IsSplit(Execute(steps), sid)
  {
    hide Execute;
    hide Calm;
    hide Tracks;
    hide Merge;
    hide SplitAt;
    hide Mirrored;
    var s := Execute(steps);
    var whole, j := AlwaysTracks(steps, sid);
    MergeFindsAll(s, sid, whole, j);
    forall i: nat
      ensures !SplitAt(s, sid, i)
    {
      if SplitAt(s, sid, i) {
        SplitHasLog(s, sid, i);
        SplitNeverMerges(s, sid, i, GetSession);
        assert false;
      }
    }
  }

  lemma SplitHasLog(s: Sys, sid: string, i: nat)
    requires SplitAt(s, sid, i)
    ensures s.LogOf(sid) != [] && Known(s, sid) != []
  {
    hide Load;
  }

  /** From a hazard: another process records a different answer; then the stale publisher goes on and puts its own
      event into the file of that number. */
  lemma HazardSplits(s: Sys, sid: string, pid: nat, known: seq<Entry>, j: nat) returns (more: seq<Step>)
    requires Hazard(s, sid, pid, known, j) && known != []
    ensures KeepsDatabase(more) && SplitAt(From(s, more), sid, |known|)
  {
    hide WellFormed;
    hide Puts;
    hide FirstFiles;
    hide Commit;
    hide Replay;
    hide PutOne;
    hide Take;
    hide From;
    var p := s.publishers[pid];
    var n := |known|;
    var q := FreshPid(s.publishers);
    var op, log := Diverging(s, sid, pid, known, j);
    var commit := [Transact(q, sid, op), ReadLog(q)];
    var s2 := CommitAndRead(s, sid, q, op, log);
    StaleCanPut(s, s2, sid, pid, known, j);
    PutMany(s2, pid, Puts(p.snapshot), j, n + 1 - p.next);
    more := commit + PutsBy(pid, n + 1 - p.next);
    FromConcat(s, commit, PutsBy(pid, n + 1 - p.next));
    PutsByKeeps(pid, n + 1 - p.next);
    FirstFilesEvent(p.snapshot, n + 1, n + 1);
  }

  lemma StaleCanPut(s: Sys, after: Sys, sid: string, pid: nat, known: seq<Entry>, j: nat)
    requires Hazard(s, sid, pid, known, j)
    requires pid in after.publishers && after.publishers[pid] == s.publishers[pid]
    requires after.FolderOf(sid) == s.FolderOf(sid)
    ensures var p := s.publishers[pid];
      && |known| + 1 <= |Puts(p.snapshot)|
      && CanPut(after, pid, Puts(p.snapshot), j, |known| + 1 - p.next)
  {
    hide WellFormed;
    hide Puts;
    hide FirstFiles;
    PutsShape(s.publishers[pid].snapshot);
    PutsAreProper(s.publishers[pid].snapshot);
  }

  lemma LossSplits(s: Sys, step: Step, sid: string, whole: seq<Entry>, j: nat) returns (more: seq<Step>)
    requires step.ReplaceDb? && Tracks(s, sid, whole, j) && !Survives(s, step, sid) && |whole| <= MAX_EVENT_NUMBER
    ensures KeepsDatabase(more) && IsSplit(From(Take(s, step), more), sid)
  {
    hide Hazard;
    hide Take;
    hide Tracks;
    hide Survives;
    hide KeepsDatabase;
    hide SplitAt;
    var after := Take(s, step);
    var first, pid, known, k := LossLeavesHazard(s, step, sid, whole, j);
    var rest := HazardSplits(From(after, first), sid, pid, known, k);
    more := first + rest;
    FromConcat(after, first, rest);
    KeepsBoth(first, rest);
  }

  /** Losing the database can split the two logs of a session exactly when something its publishers hold does not
      survive: if everything survives, no later run that keeps the database splits them; if not, some such run does,
      and then for good. */
  lemma LossSplitsExactly(steps: seq<Step>, step: Step, sid: string)
    requires Calm(steps, sid) && step.ReplaceDb? && |Known(Execute(steps), sid)| <= MAX_EVENT_NUMBER
    ensures Survives(Execute(steps), step, sid) <==>
      forall more | KeepsDatabase(more) :: !IsSplit(Execute(steps + [step] + more), sid)
  {
    hide Execute;
    hide Survives;
    hide Take;
    hide Tracks;
    hide Known;
    hide IsSplit;
    var lost := steps + [step];
    assert lost[..|steps|] == steps;
    CalmSplit(lost, sid);
    PublishProtocol.ExecuteAppend(steps, [step]);
    assert [step][..0] == [] && steps + [] == steps;
    if Survives(Execute(steps), step, sid) {
      forall more | KeepsDatabase(more)
        ensures !IsSplit(Execute(lost + more), sid)
      {
        CalmGoesOn(lost, more, sid);
        CalmNeverSplits(lost + more, sid);
      }
    } else {
      var whole, j := AlwaysTracks(steps, sid);
      WholeIsSmall(Execute(steps), sid, whole, j);
      var more := LossSplits(Execute(steps), step, sid, whole, j);
      ExecuteFrom(lost, more);
    }
  }

  // ---------- a run that ends split ----------

  /** The second process still holds its answer, the database now has another one; its next file splits them. */
  lemma StaleFileSplits(s: Sys)
    requires s.LogOf(ID) == [BEGUN, Said("b")] && s.FolderOf(ID) == OneFile()
    requires 2 in s.publishers && s.publishers[2] == Writing(ID, [BEGUN, Said("a")], 1)
    ensures IsSplit(Take(s, PutNext(2)), ID)
  {
    hide Puts;
    hide Said;
    hide Commit;
    hide Replay;
    PutsOfTwo(BEGUN, "a");
    DifferentAnswers();
    SaidIsKnown("a");
    var after := Take(s, PutNext(2));
    assert after.FolderOf(ID) == OneFile()[EventFile(2) := EventPut(2, Said("a")).record];
    assert SplitAt(after, ID, 1);
  }

  lemma SaidIsKnown(answer: string)
    ensures !Said(answer).kind.UnknownKind?
  {
  }

  /** A run from the empty system after which database and files contradict each other. */
  lemma LossUnderAPublisherSplits()
    ensures exists steps :: IsSplit(Execute(steps), ID)
  {
    hide Take;
    hide Execute;
    hide Said;
    hide IsSplit;
    var early := BeforeLoss();
    BeforeLossState();
    var lost := early + [ReplaceDb(map[])];
    PublishProtocol.ExecuteAppend(early, [ReplaceDb(map[])]);
    assert early + [] == early;
    LostState(Execute(early));
    AnswerRun(lost, 3, "b");
    var late := lost + AnswerSteps(3, "b");
    PublishProtocol.ExecuteAppend(late, [PutNext(2)]);
    assert late + [] == late;
    StaleFileSplits(Execute(late));
    assert IsSplit(Execute(late + [PutNext(2)]), ID);
  }
}
