/**
 The event log of an interview session: how it is replayed, when it is acceptable,
 how it is mirrored into write-once files, and how the two logs are merged again.
 */
module SessionLog {
  import opened Common

  /** A JSON value of an event payload; anything that is not a string is only compared. */
  datatype Json = Str(s: string) | NotStr(id: int)

  type Payload = map<string, Json>

  datatype Kind = InterviewStarted | AnswerRecorded | SeedFrozen | UnknownKind(name: string)

  datatype Entry = Entry(kind: Kind, payload: Payload)

  datatype Failure =
    | SessionNotFound | EvidenceCorrupt | EvidenceConflict | InvalidEvidenceId | UnknownEvent
    | EmptyGoal | EmptyAnswer | UnknownField | AlreadyFrozen | SeedIncomplete | PublishFailed

  datatype Result<+T> = Ok(value: T) | Err(error: Failure) {
    predicate IsFailure() { Err? }
    function PropagateFailure<U>(): Result<U> requires Err? { Err(error) }
    function Extract(): T requires Ok? { value }
  }

  const FIELDS: set<string> := {"constraints", "acceptance_criteria"}

  datatype Session = Session(goal: string, answers: map<string, string>, seed: Option<Payload>)

  const EMPTY := Session("", map[], None)

  function TextAt(p: Payload, key: string): Option<string> {
    if key in p && p[key].Str? then Some(p[key].s) else None
  }

  /** A non-blank string under this key. */
  predicate HasText(p: Payload, key: string) {
    TextAt(p, key).Some? && !Blank(TextAt(p, key).value)
  }

  predicate IsHex32(s: string) {
    |s| == 32 && forall i | 0 <= i < 32 :: '0' <= s[i] <= '9' || 'a' <= s[i] <= 'f'
  }

  /** The frozen payload repeats the goal and every current answer. */
  predicate SeedRepeats(s: Session, p: Payload) {
    && TextAt(p, "goal") == Some(s.goal)
    && forall f | f in s.answers :: TextAt(p, f) == Some(s.answers[f])
  }

  /** One step of replay. */
  function Apply(s: Session, e: Entry): Result<Session> {
    match e.kind
    case InterviewStarted =>
      if s.goal != "" || !HasText(e.payload, "goal") then Err(EvidenceCorrupt)
      else Ok(s.(goal := e.payload["goal"].s))
    case AnswerRecorded =>
      if s.goal == "" || s.seed.Some? || TextAt(e.payload, "field").None? || e.payload["field"].s !in FIELDS
         || !HasText(e.payload, "answer") then Err(EvidenceCorrupt)
      else Ok(s.(answers := s.answers[e.payload["field"].s := e.payload["answer"].s]))
    case SeedFrozen =>
      if s.goal == "" || s.seed.Some? || s.answers.Keys != FIELDS || TextAt(e.payload, "seed_id").None?
         || !IsHex32(e.payload["seed_id"].s) || !SeedRepeats(s, e.payload) then Err(EvidenceCorrupt)
      else Ok(s.(seed := Some(e.payload)))
    case UnknownKind(_) => Err(UnknownEvent)
  }

  function Fold(events: seq<Entry>): Result<Session> {
    if events == [] then Ok(EMPTY)
    else
      var before := Fold(events[..|events| - 1]);
      if before.Err? then before else Apply(before.value, events[|events| - 1])
  }

  /** What replaying a log in order yields. */
  function Replay(events: seq<Entry>): Result<Session> {
    if events == [] then Err(SessionNotFound) else Fold(events)
  }

  /** The replay loop itself. */
  method ReplayLoop(events: seq<Entry>) returns (r: Result<Session>)
    ensures r == Replay(events)
    ensures r.Ok? <==> WellFormed(events)
  {
    WellFormedExact(events);
    if events == [] {
      return Err(SessionNotFound);
    }
    var goal: string, answers: map<string, string>, seed: Option<Payload> := "", map[], None;
    for i := 0 to |events|
      invariant Fold(events[..i]) == Ok(Session(goal, answers, seed))
    {
      var e := events[i];
      assert events[..i + 1][..i] == events[..i];
      match e.kind {
        case InterviewStarted =>
          if goal != "" || !HasText(e.payload, "goal") {
            FailureSticks(events, i + 1);
            return Err(EvidenceCorrupt);
          }
          goal := e.payload["goal"].s;
        case AnswerRecorded =>
          if goal == "" || seed.Some? || TextAt(e.payload, "field").None? || e.payload["field"].s !in FIELDS
             || !HasText(e.payload, "answer") {
            FailureSticks(events, i + 1);
            return Err(EvidenceCorrupt);
          }
          answers := answers[e.payload["field"].s := e.payload["answer"].s];
        case SeedFrozen =>
          if goal == "" || seed.Some? || answers.Keys != FIELDS || TextAt(e.payload, "seed_id").None?
             || !IsHex32(e.payload["seed_id"].s) || !SeedRepeats(Session(goal, answers, seed), e.payload) {
            FailureSticks(events, i + 1);
            return Err(EvidenceCorrupt);
          }
          seed := Some(e.payload);
        case UnknownKind(_) =>
          FailureSticks(events, i + 1);
          return Err(UnknownEvent);
      }
    }
    assert events[..|events|] == events;
    r := Ok(Session(goal, answers, seed));
  }

  /** A log that fails at some prefix fails with the same error. */
  lemma {:induction false} FailureSticks(events: seq<Entry>, i: nat)
    requires i <= |events| && Fold(events[..i]).Err?
    ensures Fold(events) == Fold(events[..i])
    decreases |events|
  {
    if i < |events| {
      assert events[..|events| - 1][..i] == events[..i];
      FailureSticks(events[..|events| - 1], i);
    } else {
      assert events[..i] == events;
    }
  }

  lemma FoldAppend(events: seq<Entry>, e: Entry)
    ensures Fold(events + [e]) == if Fold(events).Err? then Fold(events) else Apply(Fold(events).value, e)
  {
    assert (events + [e])[..|events|] == events;
  }

  lemma {:induction false} PrefixReplays(events: seq<Entry>, i: nat)
    requires i <= |events| && Fold(events).Ok?
    ensures Fold(events[..i]).Ok?
  {
    if Fold(events[..i]).Err? {
      FailureSticks(events, i);
    }
  }

  // ---------- which logs are acceptable, without a replay ----------

  predicate IsStart(e: Entry) { e.kind.InterviewStarted? && HasText(e.payload, "goal") }

  predicate IsAnswer(e: Entry) {
    && e.kind.AnswerRecorded? && TextAt(e.payload, "field").Some? && e.payload["field"].s in FIELDS
    && HasText(e.payload, "answer")
  }

  /** Entry `j` is the last answer to the field, and it says `text`. */
  ghost predicate LastAnswer(events: seq<Entry>, field: string, text: string, j: nat) {
    && j < |events| && IsAnswer(events[j])
    && events[j].payload["field"].s == field && events[j].payload["answer"].s == text
    && forall i | j < i < |events| && IsAnswer(events[i]) :: events[i].payload["field"].s != field
  }

  ghost predicate Answered(events: seq<Entry>, field: string, text: string) {
    exists j :: LastAnswer(events, field, text, j)
  }

  predicate Says(s: Session, field: string, text: string) { field in s.answers && s.answers[field] == text }

  /** The payload has a proper id and repeats the goal and the last answer to every question. */
  ghost predicate FreezesLog(before: seq<Entry>, e: Entry) {
    && e.kind.SeedFrozen? && before != [] && IsStart(before[0])
    && TextAt(e.payload, "seed_id").Some? && IsHex32(e.payload["seed_id"].s)
    && TextAt(e.payload, "goal") == TextAt(before[0].payload, "goal")
    && forall f | f in FIELDS ::
         TextAt(e.payload, f).Some? && Answered(before, f, TextAt(e.payload, f).value)
  }

  /** One start, then answers, then at most one freeze, and nothing after it. */
  ghost predicate WellFormed(events: seq<Entry>) {
    && events != [] && IsStart(events[0])
    && forall i | 1 <= i < |events| ::
         IsAnswer(events[i]) || (i == |events| - 1 && FreezesLog(events[..i], events[i]))
  }

  /** What a replayed session says about its log. */
  ghost predicate Describes(s: Session, events: seq<Entry>) {
    && events != [] && IsStart(events[0])
    && s.goal == events[0].payload["goal"].s
    && (forall f, text :: Says(s, f, text) <==> Answered(events, f, text))
    && s.seed == (if events[|events| - 1].kind.SeedFrozen? then Some(events[|events| - 1].payload) else None)
  }

  lemma NotBlankNotEmpty(text: string)
    requires !Blank(text)
    ensures text != ""
  {
  }

  lemma LastAnswerAppend(before: seq<Entry>, e: Entry, field: string, text: string)
    ensures Answered(before + [e], field, text) <==>
      || (IsAnswer(e) && e.payload["field"].s == field && e.payload["answer"].s == text)
      || (!(IsAnswer(e) && e.payload["field"].s == field) && Answered(before, field, text))
  {
    var events := before + [e];
    var n := |before|;
    assert events[n] == e;
    forall j: nat | j < n
      ensures LastAnswer(events, field, text, j) <==>
              LastAnswer(before, field, text, j) && !(IsAnswer(e) && e.payload["field"].s == field)
    {
      assert forall i | 0 <= i < n :: events[i] == before[i];
    }
    assert LastAnswer(events, field, text, n) <==>
           IsAnswer(e) && e.payload["field"].s == field && e.payload["answer"].s == text;
  }

  /** Answers only come from the two questions. */
  lemma AnsweredFieldsAreKnown(s: Session, events: seq<Entry>)
    requires Describes(s, events)
    ensures s.answers.Keys <= FIELDS
  {
    forall f | f in s.answers
      ensures f in FIELDS
    {
      assert Says(s, f, s.answers[f]);
    }
  }

  lemma FreezeExact(s: Session, before: seq<Entry>, e: Entry)
    requires e.kind.SeedFrozen? && Describes(s, before)
    ensures Apply(s, e).Ok? <==> s.seed.None? && FreezesLog(before, e)
  {
    AnsweredFieldsAreKnown(s, before);
    NotBlankNotEmpty(s.goal);
    assert TextAt(before[0].payload, "goal") == Some(s.goal);
    if s.seed.None? && FreezesLog(before, e) {
      forall f | f in FIELDS
        ensures f in s.answers && TextAt(e.payload, f) == Some(s.answers[f])
      {
        assert Says(s, f, TextAt(e.payload, f).value);
      }
    } else if Apply(s, e).Ok? {
      forall f | f in FIELDS
        ensures TextAt(e.payload, f).Some? && Answered(before, f, TextAt(e.payload, f).value)
      {
        assert f in s.answers && Says(s, f, s.answers[f]);
      }
      assert false;
    }
  }

  lemma DescribesStep(s: Session, before: seq<Entry>, e: Entry)
    requires Describes(s, before) && Apply(s, e).Ok?
    ensures Describes(Apply(s, e).value, before + [e])
  {
    var after := Apply(s, e).value;
    var events := before + [e];
    assert events[0] == before[0];
    NotBlankNotEmpty(s.goal);
    assert IsAnswer(e) <==> e.kind.AnswerRecorded?;
    forall f, text
      ensures Says(after, f, text) <==> Answered(events, f, text)
    {
      LastAnswerAppend(before, e, f, text);
      assert Says(s, f, text) <==> Answered(before, f, text);
    }
  }

  lemma NoEntries()
    ensures !WellFormed([])
  {
  }

  /** The first entry alone. */
  lemma FirstEntry(e: Entry)
    ensures Apply(EMPTY, e).Ok? <==> IsStart(e)
    ensures WellFormed([e]) <==> IsStart(e)
    ensures IsStart(e) ==> Describes(Apply(EMPTY, e).value, [e])
  {
    if IsStart(e) {
      forall f, text
        ensures !Answered([e], f, text)
      {
        if j: nat :| LastAnswer([e], f, text, j) {
          assert IsAnswer([e][j]);
        }
      }
    }
  }

  /** A later entry, on top of a log that replays. */
  lemma LaterEntry(s: Session, before: seq<Entry>, e: Entry)
    requires Describes(s, before)
    ensures Apply(s, e).Ok? <==>
      !before[|before| - 1].kind.SeedFrozen? && (IsAnswer(e) || FreezesLog(before, e))
  {
    NotBlankNotEmpty(s.goal);
    if e.kind.SeedFrozen? {
      FreezeExact(s, before, e);
    }
  }

  lemma WellFormedAppend(before: seq<Entry>, e: Entry)
    requires before != []
    ensures WellFormed(before + [e]) <==>
      WellFormed(before) && !before[|before| - 1].kind.SeedFrozen? && (IsAnswer(e) || FreezesLog(before, e))
  {
    var events := before + [e];
    var n := |before|;
    assert events[..n] == before && events[n] == e;
    forall i | 1 <= i < n
      ensures before[..i] == events[..i] && before[i] == events[i]
    {
    }
  }

  /** Replay accepts exactly the well-formed logs, and what it returns describes the log. */
  lemma {:induction false} WellFormedExact(events: seq<Entry>)
    ensures Replay(events).Ok? <==> WellFormed(events)
    ensures Replay(events).Ok? ==> Describes(Replay(events).value, events)
  {
    hide Apply;
    hide Describes;
    hide WellFormed;
    hide FreezesLog;
    hide IsAnswer;
    NoEntries();
    if events != [] {
      var n := |events| - 1;
      var before, e := events[..n], events[n];
      assert events == before + [e];
      FoldAppend(before, e);
      if n == 0 {
        FirstEntry(e);
      } else {
        WellFormedExact(before);
        WellFormedAppend(before, e);
        if Fold(before).Ok? {
          LaterEntry(Fold(before).value, before, e);
          if Apply(Fold(before).value, e).Ok? {
            DescribesStep(Fold(before).value, before, e);
          }
        }
      }
    }
  }

  /** Which error a bad log gets: none at all is an unknown session; otherwise the first entry that does not fit
      decides, an event of unknown kind or corrupt evidence. */
  lemma {:induction false} ReplayError(events: seq<Entry>) returns (i: nat)
    requires !WellFormed(events)
    ensures events == [] ==> Replay(events) == Err(SessionNotFound)
    ensures events != [] ==>
      && i < |events| && (i == 0 || WellFormed(events[..i])) && !WellFormed(events[..i + 1])
      && Replay(events) == Err(if events[i].kind.UnknownKind? then UnknownEvent else EvidenceCorrupt)
  {
    i := 0;
    if events != [] {
      hide WellFormed;
      hide Describes;
      var n := |events| - 1;
      var before, e := events[..n], events[n];
      WellFormedExact(events);
      WellFormedExact(before);
      assert events == before + [e];
      FoldAppend(before, e);
      if n > 0 && !WellFormed(before) {
        i := ReplayError(before);
        assert before[..i] == events[..i] && before[..i + 1] == events[..i + 1];
      } else {
        i := n;
        assert events[..n + 1] == events;
      }
    }
  }
}
