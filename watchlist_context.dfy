/** The watchlist service of src/contexts/WatchlistContext.tsx: add, remove and
    membership over the signed-in user's `users/{uid}/watchlist` collection, whose
    entries pair a document id with a content id. Adding never checks for an existing
    entry; removing deletes the first entry of the last snapshot that names the content. */
module WatchlistContext {
  import opened Types

  datatype Entry = Entry(id: string, contentId: string)

  /** Document ids are unique within a collection. */
  predicate DistinctIds(s: seq<Entry>)
  {
    forall i, j :: 0 <= i < j < |s| ==> s[i].id != s[j].id
  }

  /** The watchlist collection reference: none unless a user is signed in and a
      database is present. */
  function WatchlistPath(user: Option<AuthUser>, hasFirestore: bool): (p: Option<string>)
    ensures p.None? <==> user.None? || !hasFirestore
    ensures p.Some? ==> p.value == "users/" + user.value.uid + "/watchlist"
  {
    if user.None? || !hasFirestore then None else Some("users/" + user.value.uid + "/watchlist")
  }

  /** The content ids of the entries, in entry order. */
  function ContentIds(s: seq<Entry>): (ids: seq<string>)
    ensures |ids| == |s|
    ensures forall i :: 0 <= i < |s| ==> ids[i] == s[i].contentId
  {
    if s == [] then [] else [s[0].contentId] + ContentIds(s[1..])
  }

  /** `watchlistItems?.map(item => item.contentId) || []`. */
  function Watchlist(items: Option<seq<Entry>>): seq<string>
  {
    match items
    case None => []
    case Some(s) => ContentIds(s)
  }

  /** `isInWatchlist(x)`: `watchlist.includes(x)`. */
  predicate IsInWatchlist(items: Option<seq<Entry>>, x: string)
  {
    x in Watchlist(items)
  }

  /** How many entries name content `x`. */
  function Occurrences(s: seq<Entry>, x: string): nat
  {
    if s == [] then 0 else (if s[0].contentId == x then 1 else 0) + Occurrences(s[1..], x)
  }

  lemma {:induction false} OccurrencesAppend(a: seq<Entry>, b: seq<Entry>, x: string)
    ensures Occurrences(a + b, x) == Occurrences(a, x) + Occurrences(b, x)
    decreases |a|
  {
    if a == [] {
      assert a + b == b;
    } else {
      assert (a + b)[0] == a[0] && (a + b)[1..] == a[1..] + b;
      OccurrencesAppend(a[1..], b, x);
    }
  }

  /** Membership in the projection is having at least one entry for the content. */
  lemma {:induction false} MembershipIsOccurrence(s: seq<Entry>, x: string)
    ensures x in ContentIds(s) <==> Occurrences(s, x) > 0
    decreases |s|
  {
    if s != [] {
      MembershipIsOccurrence(s[1..], x);
      assert ContentIds(s) == [s[0].contentId] + ContentIds(s[1..]);
    }
  }

  /** The projection is empty without a snapshot; with one, it lists the content ids
      in snapshot order, and `isInWatchlist(x)` holds exactly when some entry names `x`. */
  lemma WatchlistProjection(items: Option<seq<Entry>>, x: string)
    ensures items.None? ==> Watchlist(items) == [] && !IsInWatchlist(items, x)
    ensures items.Some? ==> (|Watchlist(items)| == |items.value|
      && forall i :: 0 <= i < |items.value| ==> Watchlist(items)[i] == items.value[i].contentId)
    ensures IsInWatchlist(items, x) <==> items.Some? && Occurrences(items.value, x) > 0
  {
    if items.Some? {
      MembershipIsOccurrence(items.value, x);
    }
  }

  /** The index of the first entry naming `x`. */
  function FirstIndex(s: seq<Entry>, x: string): (r: Option<nat>)
    ensures r.Some? ==> r.value < |s| && s[r.value].contentId == x
    ensures r.Some? ==> forall j :: 0 <= j < r.value ==> s[j].contentId != x
    ensures r.None? ==> forall j :: 0 <= j < |s| ==> s[j].contentId != x
  {
    if s == [] then None
    else if s[0].contentId == x then Some(0)
    else match FirstIndex(s[1..], x)
      case None => None
      case Some(k) => Some(k + 1)
  }

  /** `watchlistItems?.find(item => item.contentId === x)`: the first entry naming
      `x`, found exactly when `x` is on the watchlist. */
  function Find(items: Option<seq<Entry>>, x: string): (r: Option<Entry>)
    ensures r.Some? <==> IsInWatchlist(items, x)
    ensures r.Some? ==> r.value == items.value[FirstIndex(items.value, x).value]
  {
    if items.None? then None
    else
      assert Watchlist(items) == ContentIds(items.value);
      match FirstIndex(items.value, x)
      case None => None
      case Some(i) => Some(items.value[i])
  }

  /** The backend placing a new document at position `at` of the collection. */
  function InsertDoc(s: seq<Entry>, e: Entry, at: nat): seq<Entry>
    requires at <= |s|
  {
    s[..at] + [e] + s[at..]
  }

  /** The backend deleting the document with id `id`; no such document is no change. */
  function DeleteDoc(s: seq<Entry>, id: string): (r: seq<Entry>)
    ensures forall e :: e in r <==> e in s && e.id != id
    ensures DistinctIds(s) ==> DistinctIds(r)
  {
    if s == [] then []
    else
      var rest := DeleteDoc(s[1..], id);
      assert forall e :: e in s[1..] ==> e in s;
      if s[0].id == id then rest else [s[0]] + rest
  }

  /** Adding content `x` adds exactly one entry naming it, whether or not one was
      already there, and leaves the count of every other content id alone. */
  lemma InsertAddsOne(s: seq<Entry>, id: string, x: string, at: nat, y: string)
    requires at <= |s|
    ensures Occurrences(InsertDoc(s, Entry(id, x), at), y) == Occurrences(s, y) + (if y == x then 1 else 0)
  {
    assert s == s[..at] + s[at..];
    OccurrencesAppend(s[..at], s[at..], y);
    OccurrencesAppend(s[..at], [Entry(id, x)], y);
    OccurrencesAppend(s[..at] + [Entry(id, x)], s[at..], y);
  }

  /** Once the inserted entry reaches a snapshot, the content is on the watchlist. */
  lemma AddedIsPresent(s: seq<Entry>, id: string, x: string, at: nat)
    requires at <= |s|
    ensures IsInWatchlist(Some(InsertDoc(s, Entry(id, x), at)), x)
  {
    InsertAddsOne(s, id, x, at, x);
    MembershipIsOccurrence(InsertDoc(s, Entry(id, x), at), x);
  }

  /** A fresh id keeps the ids distinct. */
  lemma InsertKeepsDistinct(s: seq<Entry>, e: Entry, at: nat)
    requires at <= |s| && DistinctIds(s)
    requires forall f :: f in s ==> f.id != e.id
    ensures DistinctIds(InsertDoc(s, e, at))
  {
    var r := InsertDoc(s, e, at);
    forall i, j | 0 <= i < j < |r|
      ensures r[i].id != r[j].id
    {
      if j < at {
        assert r[i] == s[i] && r[j] == s[j];
      } else if j == at {
        assert r[i] == s[i] && r[j] == e;
      } else if i < at {
        assert r[i] == s[i] && r[j] == s[j - 1];
      } else if i == at {
        assert r[i] == e && r[j] == s[j - 1];
      } else {
        assert r[i] == s[i - 1] && r[j] == s[j - 1];
      }
    }
  }

  /** Deletion distributes over concatenation. */
  lemma {:induction false} DeleteConcat(a: seq<Entry>, b: seq<Entry>, id: string)
    ensures DeleteDoc(a + b, id) == DeleteDoc(a, id) + DeleteDoc(b, id)
    decreases |a|
  {
    if a == [] {
      assert a + b == b;
    } else {
      assert (a + b)[0] == a[0] && (a + b)[1..] == a[1..] + b;
      DeleteConcat(a[1..], b, id);
    }
  }

  /** Deleting the id of an entry no other entry shares removes just that entry. */
  lemma DeleteMiddle(a: seq<Entry>, e: Entry, b: seq<Entry>)
    requires forall f :: f in a ==> f.id != e.id
    requires forall f :: f in b ==> f.id != e.id
    ensures DeleteDoc(a + [e] + b, e.id) == a + b
  {
    assert DeleteDoc([e], e.id) == [] by {
      assert [e][1..] == [];
    }
    calc {
      DeleteDoc(a + [e] + b, e.id);
      { assert a + [e] + b == a + ([e] + b); }
      DeleteDoc(a + ([e] + b), e.id);
      { DeleteConcat(a, [e] + b, e.id); KeepAll(a, e.id); }
      a + DeleteDoc([e] + b, e.id);
      { DeleteConcat([e], b, e.id); KeepAll(b, e.id); }
      a + ([] + b);
      { assert [] + b == b; }
      a + b;
    }
  }

  /** With distinct ids, deleting the document of the first entry naming `x` removes
      exactly that entry and keeps every other entry in place. */
  lemma DeleteFirstMatch(s: seq<Entry>, x: string)
    requires DistinctIds(s) && FirstIndex(s, x).Some?
    ensures var i := FirstIndex(s, x).value; DeleteDoc(s, s[i].id) == s[..i] + s[i + 1..]
  {
    var i := FirstIndex(s, x).value;
    var a, b := s[..i], s[i + 1..];
    assert s == a + [s[i]] + b;
    IdOnlyAt(s, i);
    DeleteMiddle(a, s[i], b);
  }

  /** With distinct ids, no entry before or after position `i` carries its id. */
  lemma IdOnlyAt(s: seq<Entry>, i: nat)
    requires DistinctIds(s) && i < |s|
    ensures forall f :: f in s[..i] ==> f.id != s[i].id
    ensures forall f :: f in s[i + 1..] ==> f.id != s[i].id
  {
    forall f | f in s[..i]
      ensures f.id != s[i].id
    {
      var j :| 0 <= j < i && s[..i][j] == f;
      assert s[j] == f;
    }
    forall f | f in s[i + 1..]
      ensures f.id != s[i].id
    {
      var j :| 0 <= j < |s| - i - 1 && s[i + 1..][j] == f;
      assert s[i + 1 + j] == f;
    }
  }

  /** Deleting an id no entry carries changes nothing. */
  lemma {:induction false} KeepAll(s: seq<Entry>, id: string)
    requires forall e :: e in s ==> e.id != id
    ensures DeleteDoc(s, id) == s
    decreases |s|
  {
    if s != [] {
      assert s[0] in s;
      forall e | e in s[1..]
        ensures e.id != id
      {
        assert e in s;
      }
      KeepAll(s[1..], id);
      assert DeleteDoc(s, id) == [s[0]] + DeleteDoc(s[1..], id);
      assert [s[0]] + s[1..] == s;
    }
  }

  /** Removing the first entry naming `x` lowers the count of `x` by exactly one, so
      with duplicates `x` stays on the watchlist. */
  lemma RemoveFirstLeavesDuplicates(s: seq<Entry>, x: string)
    requires FirstIndex(s, x).Some?
    ensures var i := FirstIndex(s, x).value;
      Occurrences(s[..i] + s[i + 1..], x) == Occurrences(s, x) - 1
  {
    var i := FirstIndex(s, x).value;
    assert s == s[..i] + [s[i]] + s[i + 1..];
    OccurrencesAppend(s[..i] + [s[i]], s[i + 1..], x);
    OccurrencesAppend(s[..i], [s[i]], x);
    OccurrencesAppend(s[..i], s[i + 1..], x);
  }

  const LoginToast := Toast("Please log in", Some("You need to be logged in to add items to your watchlist."), true)
  const AddedToast := Toast("Added to Watchlist", Some("You can find it on your watchlist page."), false)
  const RemovedToast := Toast("Removed from Watchlist", None, false)

  /** The data an add writes: the content id and a server-assigned time. */
  function WatchlistData(x: string): Fields
  {
    map["contentId" := Str(x), "addedAt" := ServerTimestamp]
  }

  class Provider {
    /** `users/{uid}/watchlist`, or none when nobody is signed in. */
    const path: Option<string>
    /** The collection as the backend holds it, in the backend's order. */
    var store: seq<Entry>
    /** The last snapshot the live collection subscription delivered (`watchlistItems`). */
    var items: Option<seq<Entry>>
    /** The permission-denial reports the service has emitted, oldest first. */
    ghost var errors: seq<PermissionError>

    ghost predicate Valid()
      reads this
    {
      && DistinctIds(store)
      && (items.Some? ==> DistinctIds(items.value))
      && (path.None? ==> store == [] && items.None?)
    }

    /** The provider for `user`; `existing` is what the user's collection holds. */
    constructor (user: Option<AuthUser>, hasFirestore: bool, existing: seq<Entry>)
      requires DistinctIds(existing)
      ensures Valid() && path == WatchlistPath(user, hasFirestore)
      ensures store == (if path.None? then [] else existing)
      ensures items.None? && errors == []
    {
      path := WatchlistPath(user, hasFirestore);
      store := if user.None? || !hasFirestore then [] else existing;
      items := None;
      errors := [];
    }

    /** The live subscription delivers a snapshot of the collection. */
    method Deliver()
      requires Valid() && path.Some?
      modifies this`items
      ensures Valid() && items == Some(store)
    {
      items := Some(store);
    }

    /** `isInWatchlist(x)` on the current snapshot. */
    predicate IsIn(x: string)
      reads this
    {
      IsInWatchlist(items, x)
    }

    /** `addToWatchlist(x)` together with the write's completion: `accepted` is the
        backend's answer, `newId` the id it assigns and `at` the position its
        ordering gives the new document. Without a user: the "Please log in" toast
        and no write. Otherwise exactly one new entry naming `x`, with no check for
        an existing one; a refused write emits one `create` report with the data. */
    method Add(x: string, newId: string, at: nat, accepted: bool) returns (toast: Option<Toast>)
      requires Valid() && at <= |store|
      requires forall e :: e in store ==> e.id != newId
      modifies this`store, this`errors
      ensures Valid()
      ensures path.None? ==> store == old(store) && errors == old(errors) && toast == Some(LoginToast)
      ensures path.Some? && accepted ==>
        store == InsertDoc(old(store), Entry(newId, x), at) && errors == old(errors) && toast == Some(AddedToast)
      ensures path.Some? && !accepted ==> (store == old(store) && toast.None?
        && errors == old(errors) + [PermissionError(path.value, Create, Some(WatchlistData(x)))])
      ensures forall y :: Occurrences(store, y) == Occurrences(old(store), y) + (if y == x && path.Some? && accepted then 1 else 0)
    {
      if path.None? {
        return Some(LoginToast);
      }
      if accepted {
        forall y {
          InsertAddsOne(store, newId, x, at, y);
        }
        InsertKeepsDistinct(store, Entry(newId, x), at);
        store := InsertDoc(store, Entry(newId, x), at);
        toast := Some(AddedToast);
      } else {
        errors := errors + [PermissionError(path.value, Create, Some(WatchlistData(x)))];
        toast := None;
      }
    }

    /** `removeFromWatchlist(x)` together with the delete's completion. Without a
        user, or when the snapshot has no entry naming `x`: nothing at all. Otherwise
        the document of the first such entry is deleted; a refused delete emits one
        `delete` report with that document's path. */
    method Remove(x: string, accepted: bool) returns (toast: Option<Toast>)
      requires Valid()
      modifies this`store, this`errors
      ensures Valid()
      ensures path.None? || !IsInWatchlist(items, x) ==> store == old(store) && errors == old(errors) && toast.None?
      ensures path.Some? && IsInWatchlist(items, x) && accepted ==>
        store == DeleteDoc(old(store), Find(items, x).value.id) && errors == old(errors) && toast == Some(RemovedToast)
      ensures path.Some? && IsInWatchlist(items, x) && !accepted ==> (store == old(store) && toast.None?
        && errors == old(errors) + [PermissionError(path.value + "/" + Find(items, x).value.id, Delete, None)])
      ensures items == Some(old(store)) && IsInWatchlist(items, x) && accepted ==>
        var i := FirstIndex(old(store), x).value; store == old(store)[..i] + old(store)[i + 1..]
    {
      if path.None? {
        return None;
      }
      var found := Find(items, x);
      if found.None? {
        return None;
      }
      var docPath := path.value + "/" + found.value.id;
      if accepted {
        if items == Some(store) {
          DeleteFirstMatch(store, x);
        }
        store := DeleteDoc(store, found.value.id);
        toast := Some(RemovedToast);
      } else {
        errors := errors + [PermissionError(docPath, Delete, None)];
        toast := None;
      }
    }
  }

  /** A user adds the same title twice: the collection then holds two entries for
      it. */
  method AddTwice(u: AuthUser, x: string)
  {
    var w := new Provider(Some(u), true, []);
    var t := w.Add(x, "a", 0, true);
    t := w.Add(x, "b", 1, true);
    assert Occurrences(w.store, x) == 2;
    assert w.store == [Entry("a", x), Entry("b", x)];
  }

  /** With two entries for a title, one remove leaves it on the watchlist; a second
      one, after the next snapshot, takes it off. */
  method RemoveTwice(u: AuthUser, x: string)
  {
    var w := new Provider(Some(u), true, [Entry("a", x), Entry("b", x)]);
    w.Deliver();
    assert FirstIndex(w.store, x) == Some(0);
    var t := w.Remove(x, true);
    assert w.store == [Entry("b", x)];
    w.Deliver();
    assert w.IsIn(x) by {
      assert Watchlist(w.items) == [x];
    }
    t := w.Remove(x, true);
    w.Deliver();
    assert !w.IsIn(x) by {
      assert w.store == [];
    }
  }
}
