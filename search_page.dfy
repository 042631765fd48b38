/** The search results of src/app/search/page.tsx: the catalog items whose title,
    description, one of whose genres or one of whose cast members contains the query,
    compared in lower case, in catalog order. */
module SearchPage {
  import opened Types
  import opened Text
  import opened Seqs

  /** `xs.some(x => x.toLowerCase().includes(lq))`. */
  predicate SomeIncludes(xs: seq<string>, lq: string)
  {
    exists i :: 0 <= i < |xs| && Includes(Lower(xs[i]), lq)
  }

  /** The per-item test, for an already lower-cased query `lq`. */
  predicate Matches(item: Content, lq: string)
  {
    || Includes(Lower(item.title), lq)
    || Includes(Lower(item.description), lq)
    || SomeIncludes(item.genres, lq)
    || SomeIncludes(item.cast, lq)
  }

  /** `filteredContent`: nothing for an absent or empty query or a missing catalog,
      otherwise the matching items in catalog order, each as often as it occurs. */
  function Search(query: Option<string>, catalog: Option<seq<Content>>): (r: seq<Content>)
    ensures !Truthy(query) || catalog.None? ==> r == []
    ensures Truthy(query) && catalog.Some? ==>
      forall x :: x in r <==> x in catalog.value && Matches(x, Lower(query.value))
    ensures Truthy(query) && catalog.Some? ==>
      forall x :: multiset(r)[x] == if Matches(x, Lower(query.value)) then multiset(catalog.value)[x] else 0
  {
    if !Truthy(query) || catalog.None? then []
    else
      var lq := Lower(query.value);
      var keep := (item: Content) => Matches(item, lq);
      FilterMembers(catalog.value, keep);
      FilterCount(catalog.value, keep);
      Filter(catalog.value, keep)
  }

  /** The results keep the catalog's order. */
  lemma SearchIsSubsequence(query: Option<string>, catalog: seq<Content>)
    ensures IsSubsequence(Search(query, Some(catalog)), catalog)
  {
    if Truthy(query) {
      var lq := Lower(query.value);
      FilterIsSubsequence(catalog, item => Matches(item, lq));
    }
  }

  /** Queries that agree once lower-cased give the same results; in particular the
      case a query is typed in does not matter. */
  lemma SearchIgnoresCase(q1: string, q2: string, catalog: Option<seq<Content>>)
    requires Lower(q1) == Lower(q2)
    ensures Search(Some(q1), catalog) == Search(Some(q2), catalog)
    ensures Search(Some(Upper(q1)), catalog) == Search(Some(q1), catalog)
  {
    assert |q1| == |Lower(q1)| == |q2|;
    LowerIgnoresCase(q1);
    assert |Upper(q1)| == |q1|;
  }

  /** A field containing the longer query contains the shorter one. */
  lemma MatchesNarrow(item: Content, l1: string, l2: string)
    requires Includes(l2, l1) && Matches(item, l2)
    ensures Matches(item, l1)
  {
    if Includes(Lower(item.title), l2) {
      IncludesTransitive(Lower(item.title), l2, l1);
    } else if Includes(Lower(item.description), l2) {
      IncludesTransitive(Lower(item.description), l2, l1);
    } else if SomeIncludes(item.genres, l2) {
      var i :| 0 <= i < |item.genres| && Includes(Lower(item.genres[i]), l2);
      IncludesTransitive(Lower(item.genres[i]), l2, l1);
    } else {
      var i :| 0 <= i < |item.cast| && Includes(Lower(item.cast[i]), l2);
      IncludesTransitive(Lower(item.cast[i]), l2, l1);
    }
  }

  /** Typing more narrows the results: when the non-empty `q1` occurs in `q2`, every
      result for `q2` is a result for `q1`, in the same order. */
  lemma SearchNarrows(q1: string, q2: string, catalog: Option<seq<Content>>)
    requires q1 != "" && Includes(q2, q1)
    ensures IsSubsequence(Search(Some(q2), catalog), Search(Some(q1), catalog))
  {
    if catalog.None? {
      return;
    }
    IncludesLength(q2, q1);
    var l1, l2 := Lower(q1), Lower(q2);
    LowerKeepsIncludes(q2, q1);
    forall x | x in catalog.value && Matches(x, l2)
      ensures Matches(x, l1)
    {
      MatchesNarrow(x, l1, l2);
    }
    FilterMonotone(catalog.value, item => Matches(item, l2), item => Matches(item, l1));
  }
}
