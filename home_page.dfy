/** The home page of src/app/page.tsx: the trending, action-movie, comedy-show and
    sci-fi-movie rows, each a filter of the catalog, and the featured item. */
module HomePage {
  import opened Types
  import opened Seqs

  datatype Sections = Sections(
    trending: seq<Content>,
    action: seq<Content>,
    comedy: seq<Content>,
    scifi: seq<Content>,
    featured: Option<Content>)

  /** `item.isTrending` in a boolean context. */
  predicate IsTrending(c: Content)
  {
    c.isTrending == Some(true)
  }

  /** `item.genres.includes(g)`: exact, case-sensitive tag equality. */
  predicate HasGenre(c: Content, g: string)
  {
    g in c.genres
  }

  predicate IsAction(c: Content) { HasGenre(c, "Action") && c.kind == Movie }
  predicate IsComedy(c: Content) { HasGenre(c, "Comedy") && c.kind == Tv }
  predicate IsSciFi(c: Content) { HasGenre(c, "Sci-Fi") && c.kind == Movie }

  /** The rows and the featured item. A missing catalog gives empty rows and no
      featured item. */
  function Home(catalog: Option<seq<Content>>): (h: Sections)
    ensures catalog.None? ==> h == Sections([], [], [], [], None)
    ensures catalog.Some? ==>
      && h.trending == Filter(catalog.value, IsTrending)
      && h.action == Filter(catalog.value, IsAction)
      && h.comedy == Filter(catalog.value, IsComedy)
      && h.scifi == Filter(catalog.value, IsSciFi)
  {
    match catalog
    case None => Sections([], [], [], [], None)
    case Some(items) =>
      var trending := Filter(items, IsTrending);
      var featured :=
        if |trending| > 0 then Some(trending[0])
        else if |items| > 0 then Some(items[0])
        else None;
      Sections(trending, Filter(items, IsAction), Filter(items, IsComedy), Filter(items, IsSciFi), featured)
  }

  /** Every row keeps the catalog's order. */
  lemma RowsAreSubsequences(items: seq<Content>)
    ensures var h := Home(Some(items));
      && IsSubsequence(h.trending, items) && IsSubsequence(h.action, items)
      && IsSubsequence(h.comedy, items) && IsSubsequence(h.scifi, items)
  {
    FilterIsSubsequence(items, IsTrending);
    FilterIsSubsequence(items, IsAction);
    FilterIsSubsequence(items, IsComedy);
    FilterIsSubsequence(items, IsSciFi);
  }

  /** What each row holds: trending items exactly, action and sci-fi movies and
      comedy shows by exact genre tag; comedy shares no item with the movie rows. */
  lemma RowMembership(items: seq<Content>, x: Content)
    ensures var h := Home(Some(items));
      && (x in h.trending <==> x in items && x.isTrending == Some(true))
      && (x in h.action <==> x in items && "Action" in x.genres && x.kind == Movie)
      && (x in h.comedy <==> x in items && "Comedy" in x.genres && x.kind == Tv)
      && (x in h.scifi <==> x in items && "Sci-Fi" in x.genres && x.kind == Movie)
      && !(x in h.comedy && x in h.action)
      && !(x in h.comedy && x in h.scifi)
  {
    FilterMembers(items, IsTrending);
    FilterMembers(items, IsAction);
    FilterMembers(items, IsComedy);
    FilterMembers(items, IsSciFi);
  }

  /** A genre tag that differs only in case does not place an item in a row. */
  lemma GenreIsCaseSensitive(items: seq<Content>, x: Content)
    requires x in items && x.genres == ["action"] && x.kind == Movie
    ensures x !in Home(Some(items)).action
  {
    assert "Action" != "action" by {
      assert "Action"[0] != "action"[0];
    }
    FilterMembers(items, IsAction);
  }

  /** The featured item is the first trending item of the catalog when there is
      one, else the first item, and there is none only for an empty or missing
      catalog. */
  lemma FeaturedChoice(catalog: Option<seq<Content>>)
    ensures Home(catalog).featured.None? <==> catalog.None? || catalog.value == []
    ensures catalog == Some([]) ==> Home(catalog) == Sections([], [], [], [], None)
    ensures catalog.Some? && FirstWhere(catalog.value, IsTrending).Some? ==>
      Home(catalog).featured == Some(catalog.value[FirstWhere(catalog.value, IsTrending).value])
    ensures catalog.Some? && catalog.value != [] && FirstWhere(catalog.value, IsTrending).None? ==>
      Home(catalog).featured == Some(catalog.value[0])
  {
    if catalog.Some? {
      FilterHead(catalog.value, IsTrending);
    }
  }
}
