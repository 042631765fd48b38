/** The watchlist page of src/app/watchlist/page.tsx: the items of the static catalog
    whose id is on the watchlist, in catalog order, or the empty-state panel. The
    static catalog is a parameter; its contents (src/lib/data) are not part of this
    model. */
module WatchlistPage {
  import opened Types
  import opened Seqs
  import opened WatchlistContext

  /** `contentData.filter(item => watchlist.includes(item.id))`. */
  function WatchlistItems(catalog: seq<Content>, watchlist: seq<string>): (r: seq<Content>)
    ensures forall x :: x in r <==> x in catalog && x.id in watchlist
    ensures forall x :: multiset(r)[x] == if x.id in watchlist then multiset(catalog)[x] else 0
  {
    var keep := (item: Content) => item.id in watchlist;
    FilterMembers(catalog, keep);
    FilterCount(catalog, keep);
    Filter(catalog, keep)
  }

  datatype View = Grid(items: seq<Content>) | EmptyState

  /** The grid when anything matched, the "Your watchlist is empty" panel otherwise. */
  function Page(catalog: seq<Content>, items: Option<seq<Entry>>): (v: View)
    ensures v.Grid? ==> v.items != [] && v.items == WatchlistItems(catalog, Watchlist(items))
  {
    var shown := WatchlistItems(catalog, Watchlist(items));
    if |shown| > 0 then Grid(shown) else EmptyState
  }

  /** An item is shown exactly when it is in the catalog and on the watchlist in the
      service's sense; the empty state shows exactly when no catalog item is. */
  lemma PageShowsWatchlisted(catalog: seq<Content>, items: Option<seq<Entry>>, x: Content)
    ensures Page(catalog, items).Grid? ==>
      (x in Page(catalog, items).items <==> x in catalog && IsInWatchlist(items, x.id))
    ensures Page(catalog, items).EmptyState? <==> forall c :: c in catalog ==> !IsInWatchlist(items, c.id)
  {
    var shown := WatchlistItems(catalog, Watchlist(items));
    if shown == [] {
      assert forall c :: c in catalog ==> !IsInWatchlist(items, c.id);
    } else {
      assert shown[0] in shown;
    }
  }

  /** The page follows the catalog's order, not the watchlist's. */
  lemma ItemsInCatalogOrder(catalog: seq<Content>, watchlist: seq<string>)
    ensures IsSubsequence(WatchlistItems(catalog, watchlist), catalog)
  {
    FilterIsSubsequence(catalog, (item: Content) => item.id in watchlist);
  }

  /** Only which ids are on the watchlist matters: repeating an id, or listing ids in
      another order, or naming ids the catalog lacks, shows the same items. */
  lemma OnlyIdSetMatters(catalog: seq<Content>, w1: seq<string>, w2: seq<string>)
    requires forall c :: c in catalog ==> (c.id in w1 <==> c.id in w2)
    ensures WatchlistItems(catalog, w1) == WatchlistItems(catalog, w2)
  {
    FilterExtensional(catalog, (item: Content) => item.id in w1, (item: Content) => item.id in w2);
  }

  /** Each catalog item appears at most as often as in the catalog (once, for a
      catalog without repeats), whatever duplicates the watchlist holds. */
  lemma NoDuplication(catalog: seq<Content>, watchlist: seq<string>, x: Content)
    ensures multiset(WatchlistItems(catalog, watchlist))[x] <= multiset(catalog)[x]
    ensures x.id in watchlist ==> multiset(WatchlistItems(catalog, watchlist))[x] == multiset(catalog)[x]
  {
  }
}
