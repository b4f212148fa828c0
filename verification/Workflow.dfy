/**
 The interview workflow: each operation merges the two logs, appends at most one event in
 one transaction, and then publishes the log as files, which may stop at any put.
 */
module Workflows {
  import opened Common
  import opened SessionLog
  import opened EvidenceFiles

  // ---------- the text that is stored ----------

  /** Python's `str.strip`. */
  function Strip(text: string): string
    decreases |text|
  {
    if text == "" then ""
    else if IsSpace(text[0]) then Strip(text[1..])
    else if IsSpace(text[|text| - 1]) then Strip(text[..|text| - 1])
    else text
  }

  /** Stripping keeps every non-blank text non-blank, and leaves no space at either end. */
  lemma {:induction false} StripKeepsText(text: string)
    ensures Blank(text) <==> Strip(text) == ""
    ensures Strip(text) != "" ==>
      !IsSpace(Strip(text)[0]) && !IsSpace(Strip(text)[|Strip(text)| - 1]) && !Blank(Strip(text))
    ensures HasInner(text)
    decreases |text|
  {
    hide Inner;
    if text != "" {
      if IsSpace(text[0]) {
        StripKeepsText(text[1..]);
        assert text == text[..1] + text[1..];
        InnerAfterSpace(text);
      } else if IsSpace(text[|text| - 1]) {
        StripKeepsText(text[..|text| - 1]);
        assert text == text[..|text| - 1] + text[|text| - 1..];
        InnerBeforeSpace(text);
      } else {
        NothingToStrip(text);
      }
    } else {
      NothingToStrip(text);
    }
  }

  lemma NothingToStrip(text: string)
    requires text == "" || (!IsSpace(text[0]) && !IsSpace(text[|text| - 1]))
    ensures HasInner(text)
  {
    assert Inner(text, 0, |text|);
  }

  lemma InnerAfterSpace(text: string)
    requires text != "" && IsSpace(text[0]) && HasInner(text[1..])
    ensures HasInner(text)
  {
    var rest := text[1..];
    var i, j :| Inner(rest, i, j);
    assert rest[i..j] == text[i + 1..j + 1];
    forall k | 0 <= k < i + 1
      ensures IsSpace(text[k])
    {
      assert k > 0 ==> text[k] == rest[k - 1];
    }
    forall k | j + 1 <= k < |text|
      ensures IsSpace(text[k])
    {
      assert text[k] == rest[k - 1];
    }
    assert Inner(text, i + 1, j + 1);
  }

  lemma InnerBeforeSpace(text: string)
    requires text != "" && !IsSpace(text[0]) && IsSpace(text[|text| - 1])
    requires HasInner(text[..|text| - 1])
    ensures HasInner(text)
  {
    var front := text[..|text| - 1];
    var i, j :| Inner(front, i, j);
    assert front[i..j] == text[i..j];
    forall k | (0 <= k < i || j <= k < |text|)
      ensures IsSpace(text[k])
    {
      assert k < |text| - 1 ==> text[k] == front[k];
    }
    assert Inner(text, i, j);
  }

  ghost predicate HasInner(text: string) { exists i, j :: Inner(text, i, j) }

  /** The stripped text is what stands between these positions; around it there is only space. */
  ghost predicate Inner(text: string, i: int, j: int) {
    && 0 <= i <= j <= |text| && Strip(text) == text[i..j]
    && (forall k | 0 <= k < i :: IsSpace(text[k])) && (forall k | j <= k < |text| :: IsSpace(text[k]))
  }

  // ---------- what each operation commits ----------

  function StartEntry(goal: string): Entry { Entry(InterviewStarted, map["goal" := Str(Strip(goal))]) }

  function AnswerEntry(field: string, answer: string): Entry {
    Entry(AnswerRecorded, map["field" := Str(field), "answer" := Str(Strip(answer))])
  }

  function FreezeEntry(seedId: string, s: Session): Entry
    requires s.answers.Keys == FIELDS
  {
    Entry(SeedFrozen, map["seed_id" := Str(seedId), "goal" := Str(s.goal),
                          "constraints" := Str(s.answers["constraints"]),
                          "acceptance_criteria" := Str(s.answers["acceptance_criteria"])])
  }

  datatype Operation = RecordAnswer(field: string, answer: string) | GetSession | FreezeSeed(seedId: string)

  /** What is appended to the merged log: nothing, one entry, or an error that rolls back the import too. */
  function Decide(op: Operation, s: Session): Result<seq<Entry>> {
    match op
    case GetSession => Ok([])
    case RecordAnswer(field, answer) =>
      if s.seed.Some? then Err(AlreadyFrozen)
      else if field in s.answers && s.answers[field] == Strip(answer) then Ok([])
      else Ok([AnswerEntry(field, answer)])
    case FreezeSeed(seedId) =>
      if s.answers.Keys != FIELDS then Err(SeedIncomplete)
      else if s.seed.Some? then Ok([])
      else Ok([FreezeEntry(seedId, s)])
  }

  /** Input checks that happen before the database is opened. */
  function Check(op: Operation): Result<()> {
    match op
    case RecordAnswer(field, answer) =>
      if field !in FIELDS then Err(UnknownField)
      else if Blank(answer) then Err(EmptyAnswer)
      else Ok(())
    case _ => Ok(())
  }

  /** The database log after the transaction of an operation. */
  ghost function Commit(log: seq<Entry>, folder: Folder, op: Operation): Result<seq<Entry>> {
    var _ :- Check(op);
    var merged :- Merge(log, folder);
    var added :- Decide(op, Replay(merged).value);
    Ok(merged + added)
  }

  predicate Frozen(log: seq<Entry>) { log != [] && log[|log| - 1].kind.SeedFrozen? }

  /** New ids are 32 hex digits. */
  predicate ProperIds(op: Operation) { op.FreezeSeed? ==> IsHex32(op.seedId) }

  /** Every committed log replays, extends what both logs said by at most one event, and no event follows a freeze. */
  lemma CommitIsSound(log: seq<Entry>, folder: Folder, op: Operation)
    requires ProperIds(op)
    ensures var r := Commit(log, folder, op);
      r.Ok? ==>
        && WellFormed(r.value)
        && Merge(log, folder).Ok? && IsPrefix(Merge(log, folder).value, r.value)
        && |r.value| <= |Merge(log, folder).value| + 1
        && IsPrefix(log, r.value)
        && (Frozen(Merge(log, folder).value) ==> r.value == Merge(log, folder).value)
  {
    hide WellFormed;
    hide Describes;
    hide FreezesLog;
    hide Load;
    hide Fold;
    hide Apply;
    var r := Commit(log, folder, op);
    if r.Ok? {
      var merged := Merge(log, folder).value;
      var s := Replay(merged).value;
      MergeIsJoin(log, folder, Load(folder).value);
      WellFormedExact(merged);
      assert merged + [] == merged;
      if r.value != merged {
        var e := Decide(op, s).value[0];
        assert r.value == merged + [e];
        AppendedEntryFits(op, s, merged, e);
        WellFormedAppend(merged, e);
      }
    }
  }

  /** Somebody froze the session. */
  ghost predicate HasFreeze(events: seq<Entry>) { exists i :: 0 <= i < |events| && events[i].kind.SeedFrozen? }

  ghost predicate HasAnswer(events: seq<Entry>, field: string) { exists text :: Answered(events, field, text) }

  /** A replayed session is frozen, and has an answer, exactly as its log says. */
  lemma SessionOfLog(s: Session, events: seq<Entry>)
    requires WellFormed(events) && Describes(s, events)
    ensures s.seed.Some? <==> HasFreeze(events)
    ensures forall field :: field in s.answers <==> HasAnswer(events, field)
    ensures s.answers.Keys == FIELDS <==> HasAnswer(events, "constraints") && HasAnswer(events, "acceptance_criteria")
  {
    if HasFreeze(events) {
      var i :| 0 <= i < |events| && events[i].kind.SeedFrozen?;
      FreezeComesLast(events, i);
    }
    forall field
      ensures field in s.answers <==> HasAnswer(events, field)
    {
      if field in s.answers {
        assert Says(s, field, s.answers[field]);
      }
      if HasAnswer(events, field) {
        var text :| Answered(events, field, text);
        assert Says(s, field, text);
      }
    }
    AnsweredFieldsAreKnown(s, events);
  }

  /** Reading a session commits exactly what the load finds. */
  lemma GetSessionMerges(log: seq<Entry>, folder: Folder)
    ensures Commit(log, folder, GetSession) == Merge(log, folder)
  {
    hide Merge;
    hide Replay;
    if Merge(log, folder).Ok? {
      assert Merge(log, folder).value + [] == Merge(log, folder).value;
    }
  }

  /** When recording an answer succeeds, what it adds, and which error it reports otherwise. */
  lemma RecordCommitsExactly(log: seq<Entry>, folder: Folder, field: string, answer: string)
    ensures var r, m := Commit(log, folder, RecordAnswer(field, answer)), Merge(log, folder);
      var asked := field == "constraints" || field == "acceptance_criteria";
      && (!asked ==> r == Err(UnknownField))
      && (asked && Blank(answer) ==> r == Err(EmptyAnswer))
      && (asked && !Blank(answer) && m.Err? ==> r == Err(m.error))
      && (asked && !Blank(answer) && m.Ok? && HasFreeze(m.value) ==> r == Err(AlreadyFrozen))
      && (asked && !Blank(answer) && m.Ok? && !HasFreeze(m.value) ==>
            r == Ok(if Answered(m.value, field, Strip(answer)) then m.value else m.value + [AnswerEntry(field, answer)]))
  {
    hide WellFormed;
    hide Describes;
    hide Load;
    hide Answered;
    hide AnswerEntry;
    var m := Merge(log, folder);
    if m.Ok? {
      MergeIsJoin(log, folder, Load(folder).value);
      WellFormedExact(m.value);
      SessionOfLog(Replay(m.value).value, m.value);
      CurrentAnswer(Replay(m.value).value, m.value, field, Strip(answer));
      assert m.value + [] == m.value;
    }
  }

  lemma CurrentAnswer(s: Session, events: seq<Entry>, field: string, text: string)
    requires Describes(s, events)
    ensures (field in s.answers && s.answers[field] == text) <==> Answered(events, field, text)
  {
    assert Says(s, field, text) <==> Answered(events, field, text);
  }

  /** When freezing succeeds: exactly when the session loads and both questions have an answer; an open session gets
      one freeze that repeats goal and last answers, a frozen one stays as it is. */
  lemma FreezeCommitsExactly(log: seq<Entry>, folder: Folder, seedId: string)
    requires IsHex32(seedId)
    ensures var r, m := Commit(log, folder, FreezeSeed(seedId)), Merge(log, folder);
      && (m.Err? ==> r == Err(m.error))
      && (m.Ok? ==>
            var answered := HasAnswer(m.value, "constraints") && HasAnswer(m.value, "acceptance_criteria");
            && (!answered ==> r == Err(SeedIncomplete))
            && (answered && HasFreeze(m.value) ==> r == Ok(m.value))
            && (answered && !HasFreeze(m.value) ==> exists e :: AddsFreeze(r, m.value, e, seedId)))
  {
    hide WellFormed;
    hide Describes;
    hide Load;
    hide Answered;
    hide FreezesLog;
    var m := Merge(log, folder);
    if m.Ok? {
      MergeIsJoin(log, folder, Load(folder).value);
      WellFormedExact(m.value);
      var s := Replay(m.value).value;
      SessionOfLog(s, m.value);
      assert m.value + [] == m.value;
      if s.answers.Keys == FIELDS && s.seed.None? {
        var e := FreezeEntry(seedId, s);
        AppendedEntryFits(FreezeSeed(seedId), s, m.value, e);
        assert AddsFreeze(Commit(log, folder, FreezeSeed(seedId)), m.value, e, seedId);
      }
    }
  }

  ghost predicate AddsFreeze(r: Result<seq<Entry>>, merged: seq<Entry>, e: Entry, seedId: string) {
    r == Ok(merged + [e]) && FreezesLog(merged, e) && TextAt(e.payload, "seed_id") == Some(seedId)
  }

  /** Why a load fails: unreadable files, logs that disagree, nothing to load, or a longer log that does not replay. */
  lemma MergeErrorsExactly(log: seq<Entry>, folder: Folder)
    ensures var m, files := Merge(log, folder), Load(folder);
      && (files.Err? ==> files == Err(EvidenceCorrupt) && m == Err(EvidenceCorrupt))
      && (files.Ok? && !Agree(log, files.value) ==> m == Err(EvidenceConflict))
      && (files.Ok? && Agree(log, files.value) && log == [] && files.value == [] ==> m == Err(SessionNotFound))
      && (files.Ok? && Agree(log, files.value) && (log != [] || files.value != []) ==>
            && Longer(log, files.value) != []
            && (m.Ok? <==> WellFormed(Longer(log, files.value)))
            && (m.Err? ==> m.error == EvidenceCorrupt || m.error == UnknownEvent))
  {
    hide WellFormed;
    hide Fold;
    hide Complete;
    if Load(folder).Ok? {
      var longer := Longer(log, Load(folder).value);
      MergeIsJoin(log, folder, Load(folder).value);
      if !WellFormed(longer) {
        var i := ReplayError(longer);
      }
    }
  }

  lemma AppendedEntryFits(op: Operation, s: Session, merged: seq<Entry>, e: Entry)
    requires ProperIds(op) && Check(op).Ok? && Describes(s, merged) && Decide(op, s) == Ok([e])
    ensures !merged[|merged| - 1].kind.SeedFrozen?
    ensures IsAnswer(e) || FreezesLog(merged, e)
  {
    if op.RecordAnswer? {
      StripKeepsText(op.answer);
    } else {
      forall f | f in FIELDS
        ensures TextAt(e.payload, f).Some? && Answered(merged, f, TextAt(e.payload, f).value)
      {
        assert Says(s, f, s.answers[f]);
      }
    }
  }

  /** What a committed operation does to the session. */
  lemma OperationEffect(log: seq<Entry>, folder: Folder, op: Operation)
    requires ProperIds(op) && Commit(log, folder, op).Ok?
    ensures Merge(log, folder).Ok? && Replay(Merge(log, folder).value).Ok? && Replay(Commit(log, folder, op).value).Ok?
    ensures Effect(op, Replay(Merge(log, folder).value).value, Replay(Commit(log, folder, op).value).value)
  {
    hide WellFormed;
    hide Describes;
    hide FreezesLog;
    hide Load;
    CommitIsSound(log, folder, op);
    var merged, target := Merge(log, folder).value, Commit(log, folder, op).value;
    MergeIsJoin(log, folder, Load(folder).value);
    WellFormedExact(merged);
    WellFormedExact(target);
    var s := Replay(merged).value;
    var added := Decide(op, s).value;
    assert target == merged + added;
    if added == [] {
      assert target == merged;
    } else {
      FoldAppend(merged, added[0]);
      assert target == merged + [added[0]];
    }
    hide Decide;
    hide Apply;
    hide Fold;
    DecidedEffect(op, s);
  }

  /** What the decided entry, if there is one, does to the session. */
  lemma DecidedEffect(op: Operation, s: Session)
    requires Decide(op, s).Ok?
    ensures var added := Decide(op, s).value;
      && |added| <= 1
      && (added == [] ==> Effect(op, s, s))
      && (added != [] && Apply(s, added[0]).Ok? ==> Effect(op, s, Apply(s, added[0]).value))
  {
    if op.RecordAnswer? && Decide(op, s).value == [] {
      assert s.answers[op.field := Strip(op.answer)] == s.answers;
    }
  }

  /** A recorded answer is the current one, a freeze repeats goal and answers and is taken once, and nothing else
      changes. */
  predicate Effect(op: Operation, before: Session, after: Session) {
    match op
    case GetSession => after == before
    case RecordAnswer(field, answer) =>
      before.seed.None? && after == before.(answers := before.answers[field := Strip(answer)])
    case FreezeSeed(seedId) =>
      && after.seed.Some? && after == before.(seed := after.seed)
      && (before.seed.Some? ==> after == before)
      && (before.seed.None? ==> SeedRepeats(before, after.seed.value)
                                && TextAt(after.seed.value, "seed_id") == Some(seedId))
  }

  /** Once frozen: no operation changes a frozen log, so seed and event count stay for good. */
  lemma FreezeIsFinal(log: seq<Entry>, folder: Folder, op: Operation)
    requires Frozen(log) && ProperIds(op)
    ensures Commit(log, folder, op).Ok? ==> Commit(log, folder, op).value == log
  {
    var r := Commit(log, folder, op);
    if r.Ok? {
      CommitIsSound(log, folder, op);
      MergeIsJoin(log, folder, Load(folder).value);
      FreezeComesLast(Merge(log, folder).value, |log| - 1);
    }
  }

  /** A well-formed log cannot go on after a freeze. */
  lemma FreezeComesLast(events: seq<Entry>, i: nat)
    requires WellFormed(events) && i < |events| && events[i].kind.SeedFrozen?
    ensures i == |events| - 1
  {
    assert i == 0 || !IsAnswer(events[i]);
  }

  /** A question that has an answer keeps having one. */
  lemma AnswersAreNeverLost(log: seq<Entry>, folder: Folder, op: Operation)
    requires WellFormed(log) && ProperIds(op) && Commit(log, folder, op).Ok?
    ensures Replay(log).Ok? && Replay(Commit(log, folder, op).value).Ok?
    ensures Replay(log).value.answers.Keys <= Replay(Commit(log, folder, op).value).value.answers.Keys
  {
    hide Apply;
    hide Fold;
    hide WellFormed;
    hide Describes;
    hide Merge;
    CommitIsSound(log, folder, op);
    var after := Commit(log, folder, op).value;
    WellFormedExact(log);
    WellFormedExact(after);
    assert after[..|log|] == log;
    AnswersGrow(after, |log|);
    assert log != [] && after != [] by {
      NoEntries();
    }
  }

  lemma {:induction false} AnswersGrow(events: seq<Entry>, i: nat)
    requires i <= |events| && Fold(events).Ok?
    ensures Fold(events[..i]).Ok?
    ensures Fold(events[..i]).value.answers.Keys <= Fold(events).value.answers.Keys
  {
    PrefixReplays(events, i);
    if i < |events| {
      PrefixReplays(events, |events| - 1);
      AnswersGrow(events[..|events| - 1], i);
      assert events[..|events| - 1][..i] == events[..i];
    } else {
      assert events[..i] == events;
    }
  }

  // ---------- convergence of the two logs ----------

  /** Published event files carry the log's entries. */
  lemma PublishedEventFiles(folder: Folder, log: seq<Entry>, k: nat)
    requires WellFormed(log) && PutAll(folder, Puts(log)).complete && 1 <= k <= |log|
    ensures var after := PutAll(folder, Puts(log)).folder;
      GoodEventFile(after, k) && EntryAt(after, k) == log[k - 1]
  {
    PutsShape(log);
    PublishedContents(folder, Puts(log));
    assert Puts(log)[k - 1] == EventPut(k, log[k - 1]);
    assert k > 1 ==> IsAnswer(log[k - 1]) || log[k - 1].kind.SeedFrozen?;
  }

  /** Publishing adds no event file beyond the log. */
  lemma NoOtherEventFiles(folder: Folder, log: seq<Entry>, n: nat, k: nat)
    requires WellFormed(log) && Complete(folder, n) && n <= |log|
    requires EventFile(k) in PutAll(folder, Puts(log)).folder
    ensures 1 <= k <= |log|
  {
    PutsShape(log);
    PublishedContents(folder, Puts(log));
    if EventFile(k) !in folder {
      var i :| 0 <= i < |Puts(log)| && Puts(log)[i].id == EventFile(k);
      assert i < |log|;
      assert Puts(log)[i] == EventPut(i + 1, log[i]);
    }
  }

  /** After a complete publish of a log that already covered the files, the files are that log. */
  lemma PublishConverges(folder: Folder, log: seq<Entry>)
    requires WellFormed(log) && Load(folder).Ok? && IsPrefix(Load(folder).value, log)
    requires PutAll(folder, Puts(log)).complete
    ensures Load(PutAll(folder, Puts(log)).folder) == Ok(log)
  {
    hide WellFormed;
    hide PutAll;
    hide Puts;
    var after := PutAll(folder, Puts(log)).folder;
    var n: nat :| Complete(folder, n) && Load(folder) == Ok(FileLog(folder, n));
    assert |FileLog(folder, n)| == n;
    forall k: nat
      ensures EventFile(k) in after <==> 1 <= k <= |log|
      ensures 1 <= k <= |log| ==> GoodEventFile(after, k) && EntryAt(after, k) == log[k - 1]
    {
      if 1 <= k <= |log| {
        PublishedEventFiles(folder, log, k);
      }
      if EventFile(k) in after {
        NoOtherEventFiles(folder, log, n, k);
      }
    }
    assert Complete(after, |log|);
    LoadIs(after, |log|);
    assert FileLog(after, |log|) == log;
  }

  /** The files of a complete publish bring an empty database back to exactly the same log and session. */
  lemma FilesRestoreTheSession(folder: Folder, log: seq<Entry>)
    requires WellFormed(log) && Load(folder).Ok? && IsPrefix(Load(folder).value, log)
    requires PutAll(folder, Puts(log)).complete
    ensures var files := PutAll(folder, Puts(log)).folder;
      && Commit([], files, GetSession) == Ok(log)
      && Replay(Commit([], files, GetSession).value) == Replay(log)
  {
    PublishConverges(folder, log);
    MergeIsJoin([], PutAll(folder, Puts(log)).folder, log);
    WellFormedExact(log);
    assert log + [] == log;
  }

  // ---------- the stores ----------

  /** How many of `n` puts happen before the disk fails; `None` is an undisturbed run. */
  function Reach(n: nat, stop: Option<nat>): nat {
    if stop.Some? && stop.value < n then stop.value else n
  }

  class EvidenceStore {
    var folders: map<string, Folder>

    constructor ()
      ensures folders == map[]
    {
      folders := map[];
    }

    function FolderOf(sid: string): Folder
      reads this
    {
      if sid in folders then folders[sid] else map[]
    }

    /** One atomic link-if-absent. */
    method PutFile(sid: string, p: Put) returns (r: Result<()>)
      modifies this
      ensures r.Ok? <==> PutOne(old(FolderOf(sid)), p).Ok?
      ensures r.Err? ==> r.error == PutOne(old(FolderOf(sid)), p).error
      ensures p.id in old(FolderOf(sid)) && r.Ok? ==> old(FolderOf(sid))[p.id] == p.record
      ensures p.id in old(FolderOf(sid)) && old(FolderOf(sid))[p.id] != p.record && r != Err(InvalidEvidenceId) ==>
        r == Err(if old(FolderOf(sid))[p.id].content.Unreadable? then EvidenceCorrupt else EvidenceConflict)
      ensures FolderOf(sid) == (if r.Ok? then PutOne(old(FolderOf(sid)), p).value else old(FolderOf(sid)))
      ensures forall s | s != sid :: FolderOf(s) == old(FolderOf(s))
    {
      var folder := FolderOf(sid);
      if p.id.EventFile? && p.id.number > MAX_EVENT_NUMBER {
        return Err(InvalidEvidenceId);
      }
      if p.id in folder {
        if folder[p.id].content.Unreadable? {
          return Err(EvidenceCorrupt);
        }
        if folder[p.id] != p.record {
          return Err(EvidenceConflict);
        }
      } else {
        folders := folders[sid := folder[p.id := p.record]];
      }
      r := Ok(());
    }

    /** Put by put: every event file in order, and the seed file right after the freeze. The disk may
        fail before any put. */
    method PublishEvents(sid: string, events: seq<Entry>, stop: Option<nat>) returns (done: bool)
      modifies this
      ensures var k := Reach(|Puts(events)|, stop);
        && FolderOf(sid) == PutAll(old(FolderOf(sid)), Puts(events)[..k]).folder
        && (done <==> k == |Puts(events)| && PutAll(old(FolderOf(sid)), Puts(events)[..k]).complete)
      ensures forall s | s != sid :: FolderOf(s) == old(FolderOf(s))
    {
      hide Puts;
      hide PutAll;
      hide PutOne;
      var puts := Puts(events);
      ghost var before := FolderOf(sid);
      NothingPut(before, puts);
      for written := 0 to |puts|
        invariant stop.Some? ==> written <= stop.value
        invariant PutAll(before, puts[..written]) == Published(FolderOf(sid), true)
        invariant forall s | s != sid :: FolderOf(s) == old(FolderOf(s))
      {
        PutAllAppend(before, puts, written);
        if stop == Some(written) {
          return false;
        }
        var r := PutFile(sid, puts[written]);
        if r.Err? {
          PutAllStuck(before, puts, written + 1, Reach(|puts|, stop));
          return false;
        }
      }
      done := true;
    }
  }

  lemma NothingPut(folder: Folder, puts: seq<Put>)
    ensures PutAll(folder, puts[..0]) == Published(folder, true)
  {
  }

  lemma PutAllAppend(folder: Folder, puts: seq<Put>, k: nat)
    requires k < |puts|
    ensures PutAll(folder, puts[..k + 1]) ==
      var before := PutAll(folder, puts[..k]);
      if !before.complete then before
      else if PutOne(before.folder, puts[k]).Ok? then Published(PutOne(before.folder, puts[k]).value, true)
      else Published(before.folder, false)
  {
    assert puts[..k + 1][..k] == puts[..k];
  }

  /** After a failed put nothing more is written. */
  lemma {:induction false} PutAllStuck(folder: Folder, puts: seq<Put>, k: nat, m: nat)
    requires k <= m <= |puts| && !PutAll(folder, puts[..k]).complete
    ensures PutAll(folder, puts[..m]) == PutAll(folder, puts[..k])
    decreases m - k
  {
    if k < m {
      PutAllAppend(folder, puts, k);
      PutAllStuck(folder, puts, k + 1, m);
    }
  }

  /** A new session is one put, which an empty folder takes. */
  lemma OnePutOnly(e: Entry)
    requires e.kind.InterviewStarted?
    ensures |Puts([e])| == 1 && PutAll(map[], Puts([e])).complete
  {
    assert [e][..0] == [];
    var put := EventPut(1, e);
    assert Puts([e]) == [put] && [put][..0] == [];
    assert PutAll(map[], []) == Published(map[], true);
  }

  datatype Row = Row(session: string, entry: Entry)

  /** SELECT ... WHERE session_id = ? ORDER BY sequence */
  function Entries(rows: seq<Row>, sid: string): seq<Entry> {
    if rows == [] then []
    else
      var before := Entries(rows[..|rows| - 1], sid);
      var last := rows[|rows| - 1];
      if last.session == sid then before + [last.entry] else before
  }

  lemma EntriesAppend(rows: seq<Row>, row: Row, sid: string)
    ensures Entries(rows + [row], sid) ==
      if row.session == sid then Entries(rows, sid) + [row.entry] else Entries(rows, sid)
  {
    assert (rows + [row])[..|rows|] == rows;
  }

  class Workflow {
    var rows: seq<Row>
    const evidence: EvidenceStore

    constructor (evidence: EvidenceStore)
      ensures this.evidence == evidence && rows == []
    {
      this.evidence := evidence;
      this.rows := [];
    }

    function Log(sid: string): seq<Entry>
      reads this
    {
      Entries(rows, sid)
    }

    method Append(sid: string, e: Entry)
      modifies this
      ensures Log(sid) == old(Log(sid)) + [e]
      ensures forall s | s != sid :: Log(s) == old(Log(s))
    {
      forall s
        ensures Entries(rows + [Row(sid, e)], s) == if s == sid then Entries(rows, s) + [e] else Entries(rows, s)
      {
        EntriesAppend(rows, Row(sid, e), s);
      }
      rows := rows + [Row(sid, e)];
    }

    /** Merge the file log into the database; on an error the transaction is rolled back by the caller. */
    method LoadSession(sid: string) returns (r: Result<Session>)
      modifies this
      ensures var m := Merge(old(Log(sid)), old(evidence.FolderOf(sid)));
        && (r.Ok? <==> m.Ok?)
        && (r.Ok? ==> Log(sid) == m.value && r.value == Replay(m.value).value)
        && (r.Err? ==> r.error == m.error)
      ensures forall s | s != sid :: Log(s) == old(Log(s))
    {
      hide Load;
      hide Entries;
      hide WellFormed;
      hide Fold;
      hide Apply;
      hide Describes;
      var events := Log(sid);
      var files :- LoadEvents(evidence.FolderOf(sid));
      var same := CommonPartAgrees(events, files);
      if !same {
        return Err(EvidenceConflict);
      }
      if |files| > |events| {
        var _ :- ReplayLoop(files);
        for i := |events| to |files|
          invariant Log(sid) == files[..i]
          invariant forall s | s != sid :: Log(s) == old(Log(s))
        {
          Append(sid, files[i]);
        }
        assert files[..|files|] == files;
        events := files;
      }
      r := ReplayLoop(events);
    }

    /** Export the committed log; a failure is reported, the commit stays. */
    method Publish(sid: string, stop: Option<nat>) returns (r: Result<Session>)
      modifies evidence
      ensures var log, folder := Log(sid), old(evidence.FolderOf(sid));
        var k := Reach(|Puts(log)|, stop);
        && (Replay(log).Err? ==> r == Replay(log) && evidence.FolderOf(sid) == folder)
        && (Replay(log).Ok? ==>
              && evidence.FolderOf(sid) == PutAll(folder, Puts(log)[..k]).folder
              && r == if k == |Puts(log)| && PutAll(folder, Puts(log)[..k]).complete then Replay(log)
                      else Err(PublishFailed))
      ensures forall s | s != sid :: evidence.FolderOf(s) == old(evidence.FolderOf(s))
    {
      var events := Log(sid);
      var state :- ReplayLoop(events);
      var done := evidence.PublishEvents(sid, events, stop);
      r := if done then Ok(state) else Err(PublishFailed);
    }

    /** A new session: one event, then publish. */
    method StartInterview(goal: string, sid: string, stop: Option<nat>) returns (r: Result<Session>)
      requires Log(sid) == [] && evidence.FolderOf(sid) == map[]
      modifies this, evidence
      ensures Blank(goal) ==> r == Err(EmptyGoal) && Log(sid) == [] && evidence.FolderOf(sid) == map[]
      ensures !Blank(goal) ==> Log(sid) == [StartEntry(goal)] && WellFormed(Log(sid))
      ensures !Blank(goal) ==>
        r == if stop == Some(0) then Err(PublishFailed) else Ok(Session(Strip(goal), map[], None))
      ensures r.Ok? ==> Load(evidence.FolderOf(sid)) == Ok(Log(sid))
      ensures forall s | s != sid :: Log(s) == old(Log(s)) && evidence.FolderOf(s) == old(evidence.FolderOf(s))
    {
      if Blank(goal) {
        return Err(EmptyGoal);
      }
      StripKeepsText(goal);
      Append(sid, StartEntry(goal));
      assert Log(sid) == [StartEntry(goal)];
      assert [StartEntry(goal)][..0] == [] && Fold([]) == Ok(EMPTY);
      assert Replay([StartEntry(goal)]) == Apply(EMPTY, StartEntry(goal));
      FirstEntry(StartEntry(goal));
      assert Complete(map[], 0);
      LoadIs(map[], 0);
      OnePutOnly(StartEntry(goal));
      r := Publish(sid, stop);
      if r.Ok? {
        assert Puts(Log(sid))[..|Puts(Log(sid))|] == Puts(Log(sid));
        PublishConverges(map[], Log(sid));
      }
    }

    /** `record_answer`, `get_session` and `freeze_seed`: check, one transaction, publish. A success leaves both
        logs equal to the committed one. */
    method Perform(op: Operation, sid: string, stop: Option<nat>) returns (r: Result<Session>)
      requires ProperIds(op)
      modifies this, evidence
      ensures var was, folder := old(Log(sid)), old(evidence.FolderOf(sid));
        var target := Commit(was, folder, op);
        && (target.Err? ==> r == Err(target.error) && Log(sid) == was && evidence.FolderOf(sid) == folder)
        && (target.Ok? ==>
              && Log(sid) == target.value
              && evidence.FolderOf(sid)
                   == PutAll(folder, Puts(target.value)[..Reach(|Puts(target.value)|, stop)]).folder)
        && (target.Ok? ==>
              var puts := Puts(target.value);
              var k := Reach(|puts|, stop);
              r == if k == |puts| && PutAll(folder, puts[..k]).complete then Replay(target.value) else Err(PublishFailed))
        && (r.Ok? ==> target.Ok? && Load(evidence.FolderOf(sid)) == Ok(Log(sid)) && r == Replay(Log(sid)))
      ensures forall s | s != sid :: Log(s) == old(Log(s)) && evidence.FolderOf(s) == old(evidence.FolderOf(s))
    {
      hide Apply;
      hide Fold;
      hide WellFormed;
      hide Describes;
      hide PutAll;
      hide Puts;
      hide Entries;
      hide Load;
      var _ :- Check(op);
      var saved := rows;
      ghost var was, folder := Log(sid), evidence.FolderOf(sid);
      var loaded := LoadSession(sid);
      if loaded.Err? {
        rows := saved;
        return loaded;
      }
      var added := Decide(op, loaded.value);
      if added.Err? {
        rows := saved;
        return Err(added.error);
      }
      CommitIsSound(was, folder, op);
      MergeIsJoin(was, folder, Load(folder).value);
      ghost var merged := Log(sid);
      if added.value != [] {
        Append(sid, added.value[0]);
      } else {
        assert merged + [] == merged;
      }
      assert Log(sid) == Commit(was, folder, op).value;
      r := Publish(sid, stop);
      WellFormedExact(Log(sid));
      if r.Ok? {
        assert Puts(Log(sid))[..|Puts(Log(sid))|] == Puts(Log(sid));
        assert IsPrefix(Load(folder).value, merged) && IsPrefix(merged, Log(sid));
        PublishConverges(folder, Log(sid));
      }
    }
  }
}
