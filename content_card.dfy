/** The catalog card of src/components/content/ContentCard.tsx: a toggle that adds or
    removes the card's item from the watchlist, the label and icon that describe the
    toggle, and the links to the item's detail and play pages. */
module ContentCard {
  import opened Types
  import opened WatchlistContext

  /** The watchlist operation a click calls. */
  datatype ClickAction = CallAdd | CallRemove

  datatype Icon = CheckIcon | PlusIcon

  /** `handleWatchlistClick`: remove when the item is on the watchlist, add otherwise. */
  function ClickFor(items: Option<seq<Entry>>, id: string): (a: ClickAction)
    ensures a == CallRemove <==> IsInWatchlist(items, id)
    ensures a == CallAdd <==> !IsInWatchlist(items, id)
  {
    if IsInWatchlist(items, id) then CallRemove else CallAdd
  }

  /** The tooltip text of the toggle. */
  function Tooltip(items: Option<seq<Entry>>, id: string): string
  {
    if IsInWatchlist(items, id) then "Remove from Watchlist" else "Add to Watchlist"
  }

  /** The icon inside the toggle. */
  function ToggleIcon(items: Option<seq<Entry>>, id: string): Icon
  {
    if IsInWatchlist(items, id) then CheckIcon else PlusIcon
  }

  /** The tooltip and the icon always announce the operation a click performs: the
      tooltip offers removal and the check mark shows exactly when a click removes. */
  lemma ControlsAgree(items: Option<seq<Entry>>, id: string)
    ensures Tooltip(items, id) == "Remove from Watchlist" <==> ClickFor(items, id) == CallRemove
    ensures Tooltip(items, id) == "Add to Watchlist" <==> ClickFor(items, id) == CallAdd
    ensures ToggleIcon(items, id) == CheckIcon <==> ClickFor(items, id) == CallRemove
  {
  }

  /** The click handler on the shared watchlist service: exactly one of the two
      operations runs, chosen by the snapshot the card rendered with. `newId`, `at`
      and `accepted` describe the backend's answer to the operation that runs. */
  method HandleWatchlistClick(w: Provider, id: string, newId: string, at: nat, accepted: bool)
    returns (action: ClickAction, toast: Option<Toast>)
    requires w.Valid() && at <= |w.store|
    requires forall e :: e in w.store ==> e.id != newId
    modifies w`store, w`errors
    ensures w.Valid() && action == ClickFor(w.items, id)
    ensures action == CallAdd && w.path.Some? && accepted ==>
      w.store == InsertDoc(old(w.store), Entry(newId, id), at)
    ensures action == CallRemove && accepted ==>
      w.store == DeleteDoc(old(w.store), Find(w.items, id).value.id)
    ensures action == CallAdd && w.path.None? ==> toast == Some(LoginToast) && w.store == old(w.store)
    ensures action == CallAdd && w.path.None? ==> w.errors == old(w.errors)
    ensures action == CallAdd && w.path.Some? ==> toast == (if accepted then Some(AddedToast) else None)
    ensures action == CallAdd && w.path.Some? && !accepted ==>
      w.store == old(w.store) && w.errors == old(w.errors) + [PermissionError(w.path.value, Create, Some(WatchlistData(id)))]
    ensures action == CallRemove && w.path.None? ==> toast.None? && w.store == old(w.store)
    ensures action == CallRemove && w.path.Some? ==> toast == (if accepted then Some(RemovedToast) else None)
    ensures action == CallRemove && w.path.Some? && !accepted ==>
      w.store == old(w.store) && w.errors == old(w.errors) + [PermissionError(w.path.value + "/" + Find(w.items, id).value.id, Delete, None)]
    ensures w.path.None? || accepted ==> w.errors == old(w.errors)
    ensures !accepted ==> w.store == old(w.store)
  {
    action := ClickFor(w.items, id);
    if action == CallRemove {
      toast := w.Remove(id, accepted);
    } else {
      toast := w.Add(id, newId, at, accepted);
    }
  }

  /** The card's own link: the item's detail page. */
  function DetailHref(id: string): string
  {
    "/content/" + id
  }

  /** The play button's link. */
  function PlayHref(id: string): string
  {
    "/play/" + id
  }

  /** Both links name the item, so the item is recovered from either, and the two
      links never coincide. */
  lemma HrefsIdentifyItem(a: string, b: string)
    ensures DetailHref(a)[|"/content/"|..] == a && PlayHref(a)[|"/play/"|..] == a
    ensures DetailHref(a) == DetailHref(b) ==> a == b
    ensures PlayHref(a) == PlayHref(b) ==> a == b
    ensures DetailHref(a) != PlayHref(b)
  {
    assert DetailHref(a)[1] == 'c' && PlayHref(b)[1] == 'p';
    if DetailHref(a) == DetailHref(b) {
      assert DetailHref(a)[9..] == a && DetailHref(b)[9..] == b;
    }
    if PlayHref(a) == PlayHref(b) {
      assert PlayHref(a)[6..] == a && PlayHref(b)[6..] == b;
    }
  }
}
