/** The live single-document subscription of src/firebase/firestore/use-doc.tsx:
    the `{data, isLoading}` state a component holds for one nullable document
    reference, driven by the effect (run on mount and whenever the reference changes),
    by the listener's snapshot and error callbacks, and by teardown. The backend is
    abstract: snapshots and failures arrive as calls. */
module LiveDoc {
  import opened Types

  datatype DocRef = DocRef(path: string)

  /** What a document snapshot reports: the document's data, or that it does not exist. */
  datatype DocSnapshot<T> = Exists(data: T) | Missing

  /** `data` a snapshot yields: the contents of an existing document, null for a missing one. */
  function SnapshotData<T>(s: DocSnapshot<T>): (d: Option<T>)
    ensures d.None? <==> s.Missing?
    ensures s.Exists? ==> d == Some(s.data)
  {
    match s
    case Exists(v) => Some(v)
    case Missing => None
  }

  class DocListener<T> {
    /** The reference the last effect run was given. */
    var ref: Option<DocRef>
    /** Whether the effect has run at least once. */
    var mounted: bool
    var data: Option<T>
    var isLoading: bool
    /** Whether a listener is registered and not yet unsubscribed. */
    var listening: bool
    /** Listeners are numbered in the order they are opened; `closed` holds the
        numbers of those unsubscribed. */
    ghost var started: nat
    ghost var closed: set<nat>
    /** The permission-denial reports this hook has emitted, oldest first. */
    ghost var errors: seq<PermissionError>

    /** The listeners that are open right now. */
    ghost function Live(): set<nat>
      reads this
    {
      set k | 0 <= k < started && k !in closed
    }

    ghost predicate Valid()
      reads this
    {
      && (listening ==> started > 0 && mounted && ref.Some?)
      && (forall k :: k in closed ==> k < started)
      && Live() == (if listening then {started - 1} else {})
      && (!mounted ==> ref.None? && data.None? && isLoading && !listening)
      && (mounted && ref.None? ==> data.None? && !isLoading && !listening)
    }

    /** The first render: `useState(null)` and `useState(true)`. */
    constructor ()
      ensures Valid() && !mounted
      ensures data.None? && isLoading && !listening && Live() == {}
      ensures errors == []
    {
      ref, mounted, data, isLoading, listening := None, false, None, true, false;
      started, closed, errors := 0, {}, [];
    }

    /** The previous run's cleanup (unsubscribe), then the effect for reference `r`:
        a null reference settles at `{null, false}` without a listener; otherwise a
        listener is opened and `isLoading` is set while `data` keeps its old value
        until the first snapshot. */
    method RunEffect(r: Option<DocRef>)
      requires Valid()
      modifies this
      ensures Valid() && mounted && ref == r
      ensures listening <==> r.Some?
      ensures r.None? ==> data.None? && !isLoading && started == old(started)
      ensures r.Some? ==> isLoading && data == old(data) && started == old(started) + 1
      ensures old(Live()) !! Live() && |Live()| <= 1
      ensures errors == old(errors)
    {
      if listening {
        closed := closed + {started - 1};
        listening := false;
      }
      ref := r;
      mounted := true;
      if r.None? {
        data := None;
        isLoading := false;
      } else {
        isLoading := true;
        listening := true;
        started := started + 1;
      }
    }

    /** The listener's snapshot callback. */
    method OnSnapshot(s: DocSnapshot<T>)
      requires Valid() && listening
      modifies this`data, this`isLoading
      ensures Valid()
      ensures data == SnapshotData(s) && !isLoading
    {
      data := SnapshotData(s);
      isLoading := false;
    }

    /** The listener's error callback: one report for a `get` on the reference's
        path, then `{null, false}`. */
    method OnError()
      requires Valid() && listening
      modifies this`data, this`isLoading, this`errors
      ensures Valid()
      ensures errors == old(errors) + [PermissionError(ref.value.path, Get, None)]
      ensures data.None? && !isLoading
    {
      errors := errors + [PermissionError(ref.value.path, Get, None)];
      data := None;
      isLoading := false;
    }

    /** Teardown of the component: the effect's cleanup closes the open listener. */
    method Cleanup()
      requires Valid()
      modifies this`listening, this`closed
      ensures Valid() && !listening && Live() == {}
    {
      if listening {
        closed := closed + {started - 1};
        listening := false;
      }
    }
  }

  /** A short client run: a missing document is reported as `null` with loading over,
      which is told apart from the loading state by `isLoading`. */
  method MissingIsNotLoading(path: string)
  {
    var h := new DocListener<int>();
    assert h.isLoading && h.data.None?;
    h.RunEffect(Some(DocRef(path)));
    assert h.isLoading;
    h.OnSnapshot(Missing);
    assert !h.isLoading && h.data.None?;
    h.RunEffect(None);
    assert !h.listening && h.Live() == {};
  }
}
