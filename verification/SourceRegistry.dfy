/**
 The document registry: `reserve` hands a document to one worker for a while, `update` records
 the worker's progress. Each of them is one write transaction.
 */
module SourceRegistry {
  import opened Common

  /** The id of a document is a digest of its URL and its content; different pairs have different ids. */
  datatype DocId = DocId(url: string, content: string)

  datatype State = Validated | Stored | Indexing | Ready | Failed

  datatype Row = Row(
    kind: string, state: State, uri: Option<string>, path: string, metadata: string,
    error: Option<string>, lease: real, updated: real)

  datatype Head = Head(id: DocId, checkedAt: real)

  datatype Tables = Tables(
    documents: map<DocId, Row>, aliases: set<(string, DocId)>, heads: map<string, Head>)

  const WEB := "web"
  const LEASE_SECONDS := 300.0

  datatype Request = Request(url: string, content: string, metadata: string, path: string, kind: string)

  datatype Action = New | Reused | Pending | Resumed

  datatype Reservation = Reservation(tables: Tables, id: DocId, action: Action)

  /** A web document with this content. */
  predicate Matches(docs: map<DocId, Row>, content: string, d: DocId) {
    d in docs && docs[d].kind == WEB && d.content == content
  }

  ghost predicate IsLatest(docs: map<DocId, Row>, content: string, d: DocId) {
    Matches(docs, content, d) && forall e | Matches(docs, content, e) :: docs[e].updated <= docs[d].updated
  }

  lemma {:induction false} LatestExists(docs: map<DocId, Row>, content: string, d: DocId)
    requires Matches(docs, content, d)
    ensures exists e :: IsLatest(docs, content, e)
    decreases |docs|
  {
    var rest := docs - {d};
    if e :| Matches(rest, content, e) {
      LatestExists(rest, content, e);
      var best :| IsLatest(rest, content, best);
      var top := if docs[best].updated <= docs[d].updated then d else best;
      forall f | Matches(docs, content, f)
        ensures docs[f].updated <= docs[top].updated
      {
        assert f != d ==> Matches(rest, content, f);
      }
      assert IsLatest(docs, content, top);
    } else {
      forall f | Matches(docs, content, f)
        ensures f == d
      {
        assert f != d ==> Matches(rest, content, f);
      }
      assert IsLatest(docs, content, d);
    }
  }

  /** The newest web document with this content, if there is any. */
  ghost function Duplicate(docs: map<DocId, Row>, content: string): (found: Option<DocId>)
    ensures found.Some? <==> exists d :: Matches(docs, content, d)
    ensures found.Some? ==> IsLatest(docs, content, found.value)
  {
    if d :| Matches(docs, content, d) then
      LatestExists(docs, content, d);
      var e :| IsLatest(docs, content, e);
      Some(e)
    else None
  }

  function Resume(docs: map<DocId, Row>, d: DocId, now: real): map<DocId, Row>
    requires d in docs
  {
    docs[d := docs[d].(lease := now + LEASE_SECONDS, error := None)]
  }

  /** `reserve` as one transaction at one point in time. */
  ghost function Reserve(t: Tables, now: real, q: Request): Reservation {
    var same := if q.kind == WEB then Duplicate(t.documents, q.content) else None;
    var id := DocId(q.url, q.content);
    if same.Some? then
      var d := same.value;
      var t1 := t.(aliases := t.aliases + {(q.url, d)});
      if t.documents[d].state.Ready? then
        Reservation(t1.(heads := t.heads[q.url := Head(d, now)]), d, Reused)
      else if t.documents[d].lease > now then Reservation(t1, d, Pending)
      else Reservation(t1.(documents := Resume(t.documents, d, now)), d, Resumed)
    else if id in t.documents then
      if t.documents[id].state.Ready? then Reservation(t, id, Reused)
      else if t.documents[id].lease > now then Reservation(t, id, Pending)
      else Reservation(t.(documents := Resume(t.documents, id, now)), id, Resumed)
    else
      var row := Row(q.kind, Validated, None, q.path, q.metadata, None, now + LEASE_SECONDS, now);
      Reservation(t.(documents := t.documents[id := row], aliases := t.aliases + {(q.url, id)}), id, New)
  }

  predicate Closing(state: State) { state.Ready? || state.Failed? }

  /** `update` as one transaction; an unknown id changes nothing. It takes no proof of ownership. */
  function Update(t: Tables, now: real, d: DocId, state: State, uri: Option<string>, error: Option<string>): Tables {
    if d !in t.documents then t
    else
      var row := t.documents[d];
      var after := row.(
        state := state, uri := if uri.Some? then uri else row.uri, error := error, updated := now,
        lease := if Closing(state) then 0.0 else now + LEASE_SECONDS);
      var t1 := t.(documents := t.documents[d := after]);
      if state.Ready? && row.kind == WEB then t1.(heads := t1.heads[d.url := Head(d, now)]) else t1
  }

  // ---------- what the tables always satisfy ----------

  /** No two web documents have the same content. */
  ghost predicate WebContentsUnique(docs: map<DocId, Row>) {
    forall d, e | d in docs && e in docs && docs[d].kind == WEB && docs[e].kind == WEB && d.content == e.content :: d == e
  }

  /** The head of a URL is a ready web document, known under that URL. */
  ghost predicate HeadsReady(t: Tables) {
    forall u | u in t.heads ::
      var d := t.heads[u].id;
      d in t.documents && t.documents[d].state.Ready? && t.documents[d].kind == WEB && (u, d) in t.aliases
  }

  ghost predicate Consistent(t: Tables) {
    && WebContentsUnique(t.documents) && HeadsReady(t)
    && (forall d | d in t.documents :: (d.url, d) in t.aliases)
    && forall u, d | (u, d) in t.aliases :: d in t.documents
  }

  lemma DuplicateIs(docs: map<DocId, Row>, content: string, d: DocId)
    requires WebContentsUnique(docs) && Matches(docs, content, d)
    ensures Duplicate(docs, content) == Some(d)
  {
  }

  lemma AliasKeeps(t: Tables, url: string, d: DocId)
    requires Consistent(t) && d in t.documents
    ensures Consistent(t.(aliases := t.aliases + {(url, d)}))
  {
  }

  lemma HeadKeeps(t: Tables, url: string, h: Head)
    requires Consistent(t) && h.id in t.documents && (url, h.id) in t.aliases
    requires t.documents[h.id].state.Ready? && t.documents[h.id].kind == WEB
    ensures Consistent(t.(heads := t.heads[url := h]))
  {
  }

  lemma ResumeKeeps(t: Tables, d: DocId, now: real)
    requires Consistent(t) && d in t.documents
    ensures Consistent(t.(documents := Resume(t.documents, d, now)))
  {
  }

  lemma InsertKeeps(t: Tables, id: DocId, row: Row)
    requires Consistent(t) && id !in t.documents
    requires row.kind == WEB ==> forall d | d in t.documents && t.documents[d].kind == WEB :: d.content != id.content
    ensures Consistent(t.(documents := t.documents[id := row], aliases := t.aliases + {(id.url, id)}))
  {
  }

  /** Reserving keeps the tables consistent. */
  lemma ReserveKeepsTables(t: Tables, now: real, q: Request)
    requires Consistent(t)
    ensures Consistent(Reserve(t, now, q).tables)
  {
    var r := Reserve(t, now, q);
    var same := if q.kind == WEB then Duplicate(t.documents, q.content) else None;
    if same.Some? {
      AliasKeeps(t, q.url, r.id);
      var t1 := t.(aliases := t.aliases + {(q.url, r.id)});
      if r.action.Reused? {
        HeadKeeps(t1, q.url, Head(r.id, now));
      } else if r.action.Resumed? {
        ResumeKeeps(t1, r.id, now);
      }
    } else if r.action.Resumed? {
      ResumeKeeps(t, r.id, now);
    } else if r.action.New? {
      if q.kind == WEB {
        forall d | d in t.documents && t.documents[d].kind == WEB
          ensures d.content != q.content
        {
          assert !Matches(t.documents, q.content, d);
        }
      }
      InsertKeeps(t, r.id, r.tables.documents[r.id]);
    }
  }

  /** Reserving loses no document, and changes at most the one it answers with. */
  lemma ReserveTouchesOne(t: Tables, now: real, q: Request)
    ensures var r := Reserve(t, now, q);
      && r.id in r.tables.documents && r.id.content == q.content
      && (forall d | d in t.documents :: d in r.tables.documents && (d != r.id ==> r.tables.documents[d] == t.documents[d]))
      && (forall d | d in r.tables.documents :: d in t.documents || d == r.id)
  {
  }

  /** Who gets the document: exactly one of the four answers, by what is known about the content. */
  lemma ReserveGrantsExactly(t: Tables, now: real, q: Request)
    ensures var r := Reserve(t, now, q);
      && r.id in r.tables.documents
      && (r.action.New? <==> r.id !in t.documents)
      && (r.action.Reused? <==> r.id in t.documents && t.documents[r.id].state.Ready?)
      && (r.action.Pending? <==> r.id in t.documents && !t.documents[r.id].state.Ready? && t.documents[r.id].lease > now)
      && (r.action.New? || r.action.Resumed? ==>
            r.tables.documents[r.id].lease == now + LEASE_SECONDS && !r.tables.documents[r.id].state.Ready?)
      && (r.action.Reused? || r.action.Pending? ==> r.tables.documents == t.documents)
      && (q.kind == WEB && (exists d :: Matches(t.documents, q.content, d)) ==> Matches(t.documents, q.content, r.id))
  {
  }

  /** Some web document has this content already. */
  ghost predicate IsKnownPage(t: Tables, q: Request) {
    q.kind == "web" && exists d :: d in t.documents && t.documents[d].kind == "web" && d.content == q.content
  }

  /** What a reservation writes. A known page is found by its content, whatever URL asks for it, and its newest
      document answers: the URL becomes an alias of it, and its head if it is ready. Any other request names its own
      document and sets no head. A new row has not got beyond validation, and a resumed one only loses its error. */
  lemma ReserveWritesExactly(t: Tables, now: real, q: Request)
    ensures var r := Reserve(t, now, q); var known := IsKnownPage(t, q);
      && r.tables.heads == (if known && r.action.Reused? then t.heads[q.url := Head(r.id, now)] else t.heads)
      && r.tables.aliases == (if known || r.action.New? then t.aliases + {(q.url, r.id)} else t.aliases)
      && (if known then IsLatest(t.documents, q.content, r.id) else r.id == DocId(q.url, q.content))
      && (r.action.New? ==>
            && r.id in r.tables.documents
            && r.tables.documents[r.id] == Row(q.kind, Validated, None, q.path, q.metadata, None, now + 300.0, now))
      && (r.action.Resumed? ==>
            && r.id in t.documents && r.id in r.tables.documents
            && r.tables.documents[r.id] == t.documents[r.id].(lease := now + 300.0, error := None))
  {
    if IsKnownPage(t, q) {
      var d :| d in t.documents && t.documents[d].kind == WEB && d.content == q.content;
      assert Matches(t.documents, q.content, d);
    }
  }

  /** What a report writes, field by field: the row keeps its kind, path and metadata, and its storage address
      unless a new one comes with the report. Only the end of the work gives the lease back, and only a ready web
      document becomes the head of its URL. */
  lemma UpdateWritesExactly(t: Tables, now: real, d: DocId, state: State, uri: Option<string>, error: Option<string>)
    ensures var after := Update(t, now, d, state, uri, error);
      && after.aliases == t.aliases
      && after.documents.Keys == t.documents.Keys
      && (forall e | e in t.documents && e != d :: after.documents[e] == t.documents[e])
      && (d !in t.documents ==> after.heads == t.heads)
      && (d in t.documents ==>
            var was, row := t.documents[d], after.documents[d];
            && row.kind == was.kind && row.path == was.path && row.metadata == was.metadata
            && row.state == state && row.error == error && row.updated == now
            && (uri.Some? ==> row.uri == uri) && (uri.None? ==> row.uri == was.uri)
            && row.lease == (if state == Ready || state == Failed then 0.0 else now + 300.0)
            && after.heads == (if state == Ready && was.kind == "web" then t.heads[d.url := Head(d, now)] else t.heads))
  {
  }

  /** A failed document can be taken again at once by the next request for its content. */
  lemma FailedIsTakenAgain(t: Tables, now: real, d: DocId, error: Option<string>, later: real, q: Request)
    requires Consistent(t) && d in t.documents && t.documents[d].kind == q.kind
    requires q.content == d.content && (q.kind == WEB || q.url == d.url) && later >= 0.0
    ensures var r := Reserve(Update(t, now, d, Failed, None, error), later, q);
      r.id == d && r.action.Resumed?
  {
    var after := Update(t, now, d, Failed, None, error);
    if q.kind == WEB {
      assert WebContentsUnique(after.documents);
      DuplicateIs(after.documents, q.content, d);
    }
  }

  // ---------- the registry object ----------

  class Registry {
    var documents: map<DocId, Row>
    var aliases: set<(string, DocId)>
    var heads: map<string, Head>

    function Contents(): Tables
      reads this
    {
      Tables(documents, aliases, heads)
    }

    ghost predicate Valid()
      reads this
    {
      Consistent(Contents())
    }

    constructor ()
      ensures Valid() && Contents() == Tables(map[], {}, map[])
    {
      documents, aliases, heads := map[], {}, map[];
    }

    /** The lookup of a web document by content: over all rows, keeping the newest match. */
    method FindDuplicate(content: string) returns (found: Option<DocId>)
      requires Valid()
      ensures found == Duplicate(documents, content)
    {
      var todo := documents.Keys;
      found := None;
      while todo != {}
        invariant todo <= documents.Keys
        invariant found.Some? ==> Matches(documents, content, found.value)
        invariant found.None? ==> forall d | d in documents.Keys - todo :: !Matches(documents, content, d)
        decreases todo
      {
        var d :| d in todo;
        todo := todo - {d};
        if Matches(documents, content, d) && (found.None? || documents[found.value].updated < documents[d].updated) {
          found := Some(d);
        }
      }
      if found.Some? {
        DuplicateIs(documents, content, found.value);
      }
    }

    method TryReserve(now: real, q: Request) returns (id: DocId, action: Action)
      requires Valid()
      modifies this
      ensures Valid()
      ensures var r := Reserve(old(Contents()), now, q); Contents() == r.tables && id == r.id && action == r.action
    {
      ReserveKeepsTables(Contents(), now, q);
      id := DocId(q.url, q.content);
      var duplicate: Option<DocId> := None;
      if q.kind == WEB {
        duplicate := FindDuplicate(q.content);
      }
      if duplicate.Some? {
        id := duplicate.value;
        aliases := aliases + {(q.url, id)};
        if documents[id].state.Ready? {
          heads := heads[q.url := Head(id, now)];
          return id, Reused;
        }
        if documents[id].lease > now {
          return id, Pending;
        }
        documents := Resume(documents, id, now);
        return id, Resumed;
      }
      if id in documents {
        if documents[id].state.Ready? {
          return id, Reused;
        }
        if documents[id].lease > now {
          return id, Pending;
        }
        documents := Resume(documents, id, now);
        return id, Resumed;
      }
      documents := documents[id :=
        Row(q.kind, Validated, None, q.path, q.metadata, None, now + LEASE_SECONDS, now)];
      aliases := aliases + {(q.url, id)};
      action := New;
    }

    method Record(now: real, d: DocId, state: State, uri: Option<string>, error: Option<string>)
      modifies this
      ensures Contents() == Update(old(Contents()), now, d, state, uri, error)
    {
      if d in documents {
        var row := documents[d];
        documents := documents[d := row.(
          state := state, uri := if uri.Some? then uri else row.uri, error := error, updated := now,
          lease := if Closing(state) then 0.0 else now + LEASE_SECONDS)];
        if state.Ready? && row.kind == WEB {
          heads := heads[d.url := Head(d, now)];
        }
      }
    }
  }
}
