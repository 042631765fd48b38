/** The live collection subscription of src/firebase/firestore/use-collection.tsx:
    the `{data, isLoading}` state a component holds for one nullable query or
    collection reference. Each snapshot replaces `data` with the snapshot's documents
    in the order the backend delivers them, each tagged with its document id. */
module LiveCollection {
  import opened Types

  /** A plain collection reference knows its path; a derived query (ordered,
      filtered) does not expose one. */
  datatype QueryRef = CollectionRef(path: string) | DerivedQuery(base: string)

  /** One document of a query snapshot: its id and its stored data. */
  datatype QueryDoc = QueryDoc(id: string, data: Fields)

  /** The path a permission report names: the collection's own path for a plain
      collection reference, `'unknown'` for anything else. */
  function ErrorPath(q: QueryRef): (p: string)
    ensures q.CollectionRef? ==> p == q.path
    ensures q.DerivedQuery? ==> p == "unknown"
  {
    match q
    case CollectionRef(path) => path
    case DerivedQuery(_) => "unknown"
  }

  /** `{ ...doc.data(), id: doc.id }`: the stored fields with `id` set to the document
      id, whatever the stored data held under that key. */
  function WithId(d: Fields, id: string): (r: Fields)
    ensures "id" in r && r["id"] == Str(id)
    ensures forall k :: k != "id" ==> (k in r <==> k in d)
    ensures forall k :: k != "id" && k in d ==> r[k] == d[k]
  {
    d["id" := Str(id)]
  }

  /** The rows a snapshot yields. */
  function Rows(docs: seq<QueryDoc>): (rows: seq<Fields>)
    ensures |rows| == |docs|
    ensures forall i :: 0 <= i < |docs| ==> rows[i] == WithId(docs[i].data, docs[i].id)
  {
    if docs == [] then [] else [WithId(docs[0].data, docs[0].id)] + Rows(docs[1..])
  }

  class CollectionListener {
    /** The reference the last effect run was given. */
    var query: Option<QueryRef>
    /** Whether the effect has run at least once. */
    var mounted: bool
    var data: Option<seq<Fields>>
    var isLoading: bool
    /** Whether a listener is registered and not yet unsubscribed. */
    var listening: bool
    /** Listeners are numbered in the order they are opened; `closed` holds the
        numbers of those unsubscribed. */
    ghost var started: nat
    ghost var closed: set<nat>
    /** The permission-denial reports this hook has emitted, oldest first. */
    ghost var errors: seq<PermissionError>

    /** The listeners that are open right now. */
    ghost function Live(): set<nat>
      reads this
    {
      set k | 0 <= k < started && k !in closed
    }

    ghost predicate Valid()
      reads this
    {
      && (listening ==> started > 0 && mounted && query.Some?)
      && (forall k :: k in closed ==> k < started)
      && Live() == (if listening then {started - 1} else {})
      && (!mounted ==> query.None? && data.None? && isLoading && !listening)
      && (mounted && query.None? ==> data.None? && !isLoading && !listening)
    }

    /** The first render: `useState(null)` and `useState(true)`. */
    constructor ()
      ensures Valid() && !mounted
      ensures data.None? && isLoading && !listening && Live() == {}
      ensures errors == []
    {
      query, mounted, data, isLoading, listening := None, false, None, true, false;
      started, closed, errors := 0, {}, [];
    }

    /** The previous run's cleanup (unsubscribe), then the effect for `q`: a null
        query settles at `{null, false}` without a listener; otherwise a listener is
        opened and `isLoading` is set while `data` keeps its old value until the
        first snapshot. */
    method RunEffect(q: Option<QueryRef>)
      requires Valid()
      modifies this
      ensures Valid() && mounted && query == q
      ensures listening <==> q.Some?
      ensures q.None? ==> data.None? && !isLoading && started == old(started)
      ensures q.Some? ==> isLoading && data == old(data) && started == old(started) + 1
      ensures old(Live()) !! Live() && |Live()| <= 1
      ensures errors == old(errors)
    {
      if listening {
        closed := closed + {started - 1};
        listening := false;
      }
      query := q;
      mounted := true;
      if q.None? {
        data := None;
        isLoading := false;
      } else {
        isLoading := true;
        listening := true;
        started := started + 1;
      }
    }

    /** The listener's snapshot callback: one row per document, in snapshot order. */
    method OnSnapshot(docs: seq<QueryDoc>)
      requires Valid() && listening
      modifies this`data, this`isLoading
      ensures Valid()
      ensures data == Some(Rows(docs)) && !isLoading
    {
      data := Some(Rows(docs));
      isLoading := false;
    }

    /** The listener's error callback: one report for a `list` on the query's path,
        then `{null, false}`. */
    method OnError()
      requires Valid() && listening
      modifies this`data, this`isLoading, this`errors
      ensures Valid()
      ensures errors == old(errors) + [PermissionError(ErrorPath(query.value), List, None)]
      ensures data.None? && !isLoading
    {
      errors := errors + [PermissionError(ErrorPath(query.value), List, None)];
      data := None;
      isLoading := false;
    }

    /** Teardown of the component: the effect's cleanup closes the open listener. */
    method Cleanup()
      requires Valid()
      modifies this`listening, this`closed
      ensures Valid() && !listening && Live() == {}
    {
      if listening {
        closed := closed + {started - 1};
        listening := false;
      }
    }
  }

  /** A short client run: a query that fails reports once and does not stay loading;
      switching to another query closes the first listener. */
  method FailingQueryDoesNotHang(path: string, other: string)
  {
    var h := new CollectionListener();
    h.RunEffect(Some(CollectionRef(path)));
    h.OnError();
    assert h.errors == [PermissionError(path, List, None)];
    assert !h.isLoading && h.data.None?;
    h.RunEffect(Some(DerivedQuery(other)));
    assert |h.Live()| == 1;
    h.OnError();
    assert h.errors[1] == PermissionError("unknown", List, None);
    h.Cleanup();
    assert h.Live() == {};
  }
}
