/**
 The second log: one write-once JSON file per event, written after the database commit.
 Publishing is a list of single-file puts that can stop after any of them.
 */
module EvidenceFiles {
  import opened Common
  import opened SessionLog

  /** File names of a session folder: `event-%08d.json` and `seed-<id>.json`. */
  datatype FileId = EventFile(number: nat) | SeedFile(seedId: string)

  datatype RecordKind = EventRecord | SeedRecord | OtherRecord

  datatype Asked = AllQuestions | OneQuestion(field: string) | NoQuestion

  datatype Content =
    | EventContent(sequence: int, entry: Entry, asked: Asked)
    | SeedContent(payload: Payload)
    | Unreadable

  /** What a file says, apart from its export time. */
  datatype Record = Record(kind: RecordKind, source: Option<FileId>, content: Content)

  type Folder = map<FileId, Record>

  const MAX_EVENT_NUMBER := 99_999_999

  // ---------- what gets written ----------

  datatype Put = Put(id: FileId, record: Record)

  function EventPut(number: nat, e: Entry): Put {
    var asked :=
      if e.kind.InterviewStarted? then AllQuestions
      else if e.kind.AnswerRecorded? && TextAt(e.payload, "field").Some? then OneQuestion(e.payload["field"].s)
      else NoQuestion;
    Put(EventFile(number), Record(EventRecord, None, EventContent(number, e, asked)))
  }

  function SeedPut(number: nat, e: Entry): Put
    requires TextAt(e.payload, "seed_id").Some?
  {
    Put(SeedFile(e.payload["seed_id"].s), Record(SeedRecord, Some(EventFile(number)), SeedContent(e.payload)))
  }

  function PutsOf(number: nat, e: Entry): seq<Put> {
    if e.kind.SeedFrozen? && TextAt(e.payload, "seed_id").Some?
    then [EventPut(number, e), SeedPut(number, e)]
    else [EventPut(number, e)]
  }

  /** All puts of a log, in order. */
  function Puts(events: seq<Entry>): seq<Put> {
    if events == [] then []
    else Puts(events[..|events| - 1]) + PutsOf(|events|, events[|events| - 1])
  }

  /** Link the file if it is absent; an existing file must be readable and say the same. */
  function PutOne(folder: Folder, p: Put): Result<Folder> {
    if p.id.EventFile? && p.id.number > MAX_EVENT_NUMBER then Err(InvalidEvidenceId)
    else if p.id !in folder then Ok(folder[p.id := p.record])
    else if folder[p.id].content.Unreadable? then Err(EvidenceCorrupt)
    else if folder[p.id] == p.record then Ok(folder)
    else Err(EvidenceConflict)
  }

  datatype Published = Published(folder: Folder, complete: bool)

  /** The puts one after the other; the first failing one ends it, what was written stays. */
  function PutAll(folder: Folder, puts: seq<Put>): Published {
    if puts == [] then Published(folder, true)
    else
      var before := PutAll(folder, puts[..|puts| - 1]);
      if !before.complete then before
      else
        match PutOne(before.folder, puts[|puts| - 1])
        case Ok(after) => Published(after, true)
        case Err(_) => Published(before.folder, false)
  }

  /** A put adds its file or finds it with the same contents. */
  lemma PutOneContents(folder: Folder, p: Put)
    requires PutOne(folder, p).Ok?
    ensures var after := PutOne(folder, p).value;
      && after.Keys == folder.Keys + {p.id} && after[p.id] == p.record
      && forall id | id in folder :: after[id] == folder[id]
  {
  }

  /** No put ever changes or removes a file. */
  lemma {:induction false} FilesAreWriteOnce(folder: Folder, puts: seq<Put>)
    ensures forall id | id in folder :: id in PutAll(folder, puts).folder && PutAll(folder, puts).folder[id] == folder[id]
  {
    if puts != [] {
      FilesAreWriteOnce(folder, puts[..|puts| - 1]);
    }
  }

  /** Completing means every file is there and says what was to be written, and nothing else was added. */
  lemma {:induction false} PublishedContents(folder: Folder, puts: seq<Put>)
    ensures var r := PutAll(folder, puts);
      && (forall id | id in folder :: id in r.folder && r.folder[id] == folder[id])
      && (forall id | id in r.folder :: id in folder || exists i | 0 <= i < |puts| :: puts[i].id == id)
      && (r.complete ==> forall i | 0 <= i < |puts| :: puts[i].id in r.folder && r.folder[puts[i].id] == puts[i].record)
  {
    FilesAreWriteOnce(folder, puts);
    if puts != [] {
      hide PutOne;
      var n := |puts| - 1;
      var before := PutAll(folder, puts[..n]).folder;
      PublishedContents(folder, puts[..n]);
      if PutOne(before, puts[n]).Ok? {
        PutOneContents(before, puts[n]);
      }
      assert forall i | 0 <= i < n :: puts[..n][i] == puts[i];
      assert puts[n] == puts[n];
    }
  }

  // ---------- what gets read back ----------

  /** The file of event `number` is well formed. */
  predicate GoodEventFile(folder: Folder, number: nat) {
    && EventFile(number) in folder
    && var r := folder[EventFile(number)];
       && r.kind.EventRecord? && r.content.EventContent? && r.content.sequence == number
       && !r.content.entry.kind.UnknownKind?
  }

  /** The event files are numbered 1..n without a gap, and each is well formed. */
  ghost predicate Complete(folder: Folder, n: nat) {
    && (forall k: nat :: EventFile(k) in folder <==> 1 <= k <= n)
    && forall k: nat | 1 <= k <= n ::
         var r := folder[EventFile(k)];
         && r.kind == EventRecord && r.content.EventContent? && r.content.sequence == k
         && !r.content.entry.kind.UnknownKind?
  }

  function EntryAt(folder: Folder, number: nat): Entry
    requires GoodEventFile(folder, number)
  {
    folder[EventFile(number)].content.entry
  }

  ghost function FileLog(folder: Folder, n: nat): seq<Entry>
    requires Complete(folder, n)
  {
    seq(n, i requires 0 <= i < n => EntryAt(folder, i + 1))
  }

  /** Reading the file log: all of it, or nothing. */
  ghost function Load(folder: Folder): Result<seq<Entry>> {
    if exists n :: Complete(folder, n) then
      var n :| Complete(folder, n);
      Ok(FileLog(folder, n))
    else Err(EvidenceCorrupt)
  }

  lemma CompleteIsUnique(folder: Folder, n: nat, m: nat)
    requires Complete(folder, n) && Complete(folder, m)
    ensures n == m
  {
    assert EventFile(n) in folder <==> 1 <= n <= m;
    assert EventFile(m) in folder <==> 1 <= m <= n;
  }

  lemma LoadIs(folder: Folder, n: nat)
    requires Complete(folder, n)
    ensures Load(folder) == Ok(FileLog(folder, n))
  {
    var m: nat :| Complete(folder, m) && Load(folder) == Ok(FileLog(folder, m));
    CompleteIsUnique(folder, n, m);
  }

  /** A gap-free folder with some file that is not among the first ones has the next one. */
  lemma CompleteCovers(folder: Folder, n: nat, k: nat, number: nat)
    requires Complete(folder, n) && EventFile(k) in folder && 1 <= number && !(1 <= k < number)
    ensures GoodEventFile(folder, number)
  {
    assert 1 <= k <= n;
  }

  lemma GoodFilesAreComplete(folder: Folder, n: nat)
    requires forall k: nat :: EventFile(k) in folder <==> 1 <= k <= n
    requires forall k: nat | 1 <= k <= n :: GoodEventFile(folder, k)
    ensures Complete(folder, n)
  {
    forall k: nat | 1 <= k <= n
      ensures var r := folder[EventFile(k)]; GoodEventFile(folder, k) && r.kind == EventRecord && r.content.EventContent?
    {
      assert GoodEventFile(folder, k);
    }
  }

  function EventNumbers(folder: Folder): set<nat> {
    set id | id in folder && id.EventFile? :: id.number
  }

  /** The loading loop: event files in name order, each expected to carry the next number. */
  method LoadEvents(folder: Folder) returns (r: Result<seq<Entry>>)
    ensures r == Load(folder)
  {
    var left := EventNumbers(folder);
    assert forall k: nat :: k in left <==> EventFile(k) in folder;
    var events: seq<Entry> := [];
    var number := 1;
    while left != {}
      invariant number == |events| + 1
      invariant forall k: nat :: k in left <==> EventFile(k) in folder && !(1 <= k < number)
      invariant forall k: nat | 1 <= k < number :: GoodEventFile(folder, k) && events[k - 1] == EntryAt(folder, k)
      decreases left
    {
      ghost var k :| k in left;
      forall n | Complete(folder, n)
        ensures GoodEventFile(folder, number)
      {
        CompleteCovers(folder, n, k, number);
      }
      if !GoodEventFile(folder, number) {
        return Err(EvidenceCorrupt);
      }
      events := events + [EntryAt(folder, number)];
      left := left - {number};
      number := number + 1;
    }
    forall k: nat
      ensures EventFile(k) in folder <==> 1 <= k <= |events|
    {
      assert k !in left;
      assert 1 <= k < number ==> GoodEventFile(folder, k);
    }
    GoodFilesAreComplete(folder, |events|);
    LoadIs(folder, |events|);
    assert FileLog(folder, |events|) == events;
    r := Ok(events);
  }

  // ---------- merging the two logs ----------

  predicate IsPrefix(a: seq<Entry>, b: seq<Entry>) { |a| <= |b| && a == b[..|a|] }

  /** The events agree as far as both logs go. */
  predicate Agree(log: seq<Entry>, files: seq<Entry>) { IsPrefix(log, files) || IsPrefix(files, log) }

  function Longer(log: seq<Entry>, files: seq<Entry>): seq<Entry> {
    if |files| > |log| then files else log
  }

  /** The database log after a load: the longer of the two, or an error that leaves both alone. */
  ghost function Merge(log: seq<Entry>, folder: Folder): Result<seq<Entry>> {
    var files :- Load(folder);
    if !Agree(log, files) then Err(EvidenceConflict)
    else
      var _ :- Replay(Longer(log, files));
      Ok(Longer(log, files))
  }

  /** The loop that compares the common part entry by entry. */
  method CommonPartAgrees(log: seq<Entry>, files: seq<Entry>) returns (same: bool)
    ensures same <==> Agree(log, files)
  {
    var i := 0;
    while i < |log| && i < |files|
      invariant 0 <= i <= |log| && i <= |files|
      invariant log[..i] == files[..i]
    {
      if log[i] != files[i] {
        return false;
      }
      i := i + 1;
    }
    assert log[..|log|] == log && files[..|files|] == files;
    same := true;
  }

  /** When the logs agree the merge is their join: the result extends both and is one of them. When they
      diverge, or the winner does not replay, it is an error. */
  lemma MergeIsJoin(log: seq<Entry>, folder: Folder, files: seq<Entry>)
    requires Load(folder) == Ok(files)
    ensures var r := Merge(log, folder);
      && (r.Ok? <==> Agree(log, files) && WellFormed(Longer(log, files)))
      && (r.Ok? ==> IsPrefix(log, r.value) && IsPrefix(files, r.value) && (r.value == log || r.value == files))
      && (!Agree(log, files) ==> r == Err(EvidenceConflict))
  {
    WellFormedExact(Longer(log, files));
    assert log[..|log|] == log && files[..|files|] == files;
  }

  // ---------- puts of well-formed logs ----------

  lemma {:induction false} PutsGrow(events: seq<Entry>, i: nat)
    requires i <= |events|
    ensures |Puts(events[..i])| <= |Puts(events)|
    ensures Puts(events[..i]) == Puts(events)[..|Puts(events[..i])|]
    decreases |events|
  {
    if i < |events| {
      var before := events[..|events| - 1];
      PutsGrow(before, i);
      assert before[..i] == events[..i];
    } else {
      assert events[..i] == events;
    }
  }

  /** One put per entry, and one more for a freeze, which can only come last. */
  lemma {:induction false} PutsShape(events: seq<Entry>)
    requires WellFormed(events)
    ensures var last := events[|events| - 1];
      && |Puts(events)| == |events| + (if last.kind.SeedFrozen? then 1 else 0)
      && (forall i | 0 <= i < |events| :: Puts(events)[i] == EventPut(i + 1, events[i]))
      && (last.kind.SeedFrozen? ==> TextAt(last.payload, "seed_id").Some?
                                    && Puts(events)[|events|] == SeedPut(|events|, last))
  {
    var n := |events| - 1;
    if n > 0 {
      var before, e := events[..n], events[n];
      assert events == before + [e];
      WellFormedAppend(before, e);
      PutsShape(before);
      assert forall i | 0 <= i < n :: before[i] == events[i];
    } else {
      assert events[..0] == [];
      assert Puts([]) == [];
      assert Puts(events) == Puts(events[..0]) + PutsOf(1, events[0]);
    }
  }

  /** What the files of a well-formed log say. File `i + 1` holds entry `i` under its own number, with the questions
      asked so far: all of them with the start, the answered one with an answer, none with a freeze. A frozen log has
      one more file, named by the seed, with the frozen payload and a reference to the last event file. */
  lemma PutsContents(events: seq<Entry>, i: nat)
    requires WellFormed(events) && i < |events|
    ensures i < |Puts(events)|
    ensures var p, e := Puts(events)[i], events[i];
      && p.id == EventFile(i + 1) && p.record.kind == EventRecord && p.record.source == None
      && p.record.content.EventContent? && p.record.content.sequence == i + 1 && p.record.content.entry == e
      && (p.record.content.asked == AllQuestions <==> i == 0)
      && (p.record.content.asked == NoQuestion <==> e.kind == SeedFrozen)
      && (forall f :: p.record.content.asked == OneQuestion(f) <==>
            e.kind == AnswerRecorded && "field" in e.payload && e.payload["field"] == Str(f))
    ensures events[i].kind == SeedFrozen ==>
      && i == |events| - 1 && |Puts(events)| == i + 2
      && exists seedId :: "seed_id" in events[i].payload && events[i].payload["seed_id"] == Str(seedId)
           && Puts(events)[i + 1] == Put(SeedFile(seedId), Record(SeedRecord, Some(EventFile(i + 1)), SeedContent(events[i].payload)))
  {
    PutsShape(events);
  }
}
