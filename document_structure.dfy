/** DocumentStructureProvider: the per-URI cache of parsed document data. Creating an entry
    posts one asynchronous refresh of it; removing an entry closes it. The posted and closed
    entries are recorded as a log of events. */
module DocumentStructure {
  import opened Wrappers
  import opened Files

  /** An editor document, compared by identity. */
  type DocumentId = nat

  /** ParsedDocumentData: the document it was created for and the URI it is cached under. */
  datatype DocumentData = DocumentData(document: DocumentId, uri: Uri)

  datatype StructureEvent = RefreshPosted(data: DocumentData) | Closed(data: DocumentData)

  /** Every entry is cached under its own URI. */
  ghost predicate KeyedByUri(documents: map<Uri, DocumentData>) {
    forall u :: u in documents ==> documents[u].uri == u
  }

  /** The cache after computeIfAbsent: an absent URI gets new data for the document; a present
      URI keeps its data, whatever document is offered. */
  function Registered(documents: map<Uri, DocumentData>, document: DocumentId, u: Uri): (r: map<Uri, DocumentData>)
    ensures r.Keys == documents.Keys + {u}
    ensures u in documents ==> r[u] == documents[u]
    ensures u !in documents ==> r[u] == DocumentData(document, u)
    ensures forall v :: v in documents ==> r[v] == documents[v]
  {
    if u in documents then documents else documents[u := DocumentData(document, u)]
  }

  /** The cache after remove: the URI's entry is gone, every other entry is kept. */
  function Unregistered(documents: map<Uri, DocumentData>, u: Uri): (r: map<Uri, DocumentData>)
    ensures r.Keys == documents.Keys - {u}
    ensures forall v :: v in r ==> r[v] == documents[v]
  {
    documents - {u}
  }

  /** Registering keeps every entry keyed by its URI. */
  lemma RegisteredKeyedByUri(documents: map<Uri, DocumentData>, document: DocumentId, u: Uri)
    requires KeyedByUri(documents)
    ensures KeyedByUri(Registered(documents, document, u))
    ensures KeyedByUri(Unregistered(documents, u))
  {
  }

  /** A second registration of the same URI, with any document, changes nothing: the first
      document's data stays cached. */
  lemma RegisterIsIdempotent(documents: map<Uri, DocumentData>, d1: DocumentId, d2: DocumentId, u: Uri)
    ensures Registered(Registered(documents, d1, u), d2, u) == Registered(documents, d1, u)
    ensures Registered(Registered(documents, d1, u), d2, u)[u].document == (if u in documents then documents[u].document else d1)
  {
  }

  /** Unregistering a URI that was registered for the first time restores the cache. */
  lemma UnregisterUndoesRegister(documents: map<Uri, DocumentData>, document: DocumentId, u: Uri)
    requires u !in documents
    ensures Unregistered(Registered(documents, document, u), u) == documents
  {
    assert Unregistered(Registered(documents, document, u), u).Keys == documents.Keys;
  }

  /** The enum's single instance. */
  class DocumentStructureProvider {
    var documents: map<Uri, DocumentData>
    var events: seq<StructureEvent>

    ghost predicate Valid()
      reads this
    {
      KeyedByUri(documents)
    }

    constructor ()
      ensures Valid() && documents == map[] && events == []
    {
      documents, events := map[], [];
    }

    /** register: a null document or file gives null and changes nothing; otherwise the URI's
        cached data is returned, created (and its refresh posted) only when absent. */
    method Register(document: Option<DocumentId>, file: Option<FileObj>) returns (r: Option<DocumentData>)
      requires Valid()
      modifies this
      ensures Valid()
      ensures document.None? || file.None? ==> r.None? && documents == old(documents) && events == old(events)
      ensures document.Some? && file.Some? ==>
        var u := ToUri(file.value);
        && documents == Registered(old(documents), document.value, u)
        && r == Some(documents[u])
        && r.value.uri == u
        && events == old(events) + (if u in old(documents) then [] else [RefreshPosted(r.value)])
    {
      if document.None? || file.None? {
        return None;
      }
      var u := ToUri(file.value);
      if u !in documents {
        var data := DocumentData(document.value, u);
        documents := documents[u := data];
        events := events + [RefreshPosted(data)];
      }
      r := Some(documents[u]);
    }

    /** unregister: a null file changes nothing; otherwise the URI's entry is removed and, when
        there was one, closed. */
    method Unregister(file: Option<FileObj>)
      requires Valid()
      modifies this
      ensures Valid()
      ensures file.None? ==> documents == old(documents) && events == old(events)
      ensures file.Some? ==>
        var u := ToUri(file.value);
        && documents == Unregistered(old(documents), u)
        && events == old(events) + (if u in old(documents) then [Closed(old(documents)[u])] else [])
    {
      if file.None? {
        return;
      }
      var u := ToUri(file.value);
      if u in documents {
        var data := documents[u];
        documents := documents - {u};
        events := events + [Closed(data)];
      }
    }

    /** refresh is a placeholder: without a modifies clause it can change nothing. */
    method Refresh()
    {
    }
  }
}
