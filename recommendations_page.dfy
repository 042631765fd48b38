/** The recommendations page of src/app/recommendations/page.tsx: the form's
    validation, the viewing history split into trimmed titles for the recommendation
    flow, the flow's suggested titles matched case-insensitively against the catalog,
    and the page state the submission drives. The flow itself is a foreign call: its
    answer (titles, or a failure) is an input. */
module RecommendationsPage {
  import opened Types
  import opened Text
  import opened Seqs

  const HistoryMessage := "Please list a few movies or shows you've watched."
  const PreferencesMessage := "Tell us a bit about what you like (genres, actors, etc.)."

  /** The schema's messages for the two fields, history first. */
  function FormIssues(viewingHistory: string, preferences: string): (issues: seq<string>)
    ensures issues == [] <==> |viewingHistory| >= 10 && |preferences| >= 10
    ensures HistoryMessage in issues <==> |viewingHistory| < 10
    ensures PreferencesMessage in issues <==> |preferences| < 10
  {
    assert HistoryMessage != PreferencesMessage by {
      assert |HistoryMessage| != |PreferencesMessage|;
    }
    (if |viewingHistory| < 10 then [HistoryMessage] else [])
    + (if |preferences| < 10 then [PreferencesMessage] else [])
  }

  /** `viewingHistory.split(',').map(s => s.trim())`. */
  function SplitHistory(h: string): (titles: seq<string>)
    ensures |titles| == Count(h, ',') + 1
    ensures forall i :: 0 <= i < |titles| ==> titles[i] == Trim(Split(h, ',')[i])
  {
    var parts := Split(h, ',');
    seq(|parts|, i requires 0 <= i < |parts| => Trim(parts[i]))
  }

  /** A trimmed piece of comma-free text is comma-free, trimmed, and starts with
      something other than white space. */
  lemma TrimmedPiece(p: string)
    requires ',' !in p
    ensures ',' !in Trim(p) && Trim(Trim(p)) == Trim(p)
    ensures Trim(p) != [] ==> !IsWhiteSpace(Trim(p)[0])
  {
    TrimSlice(p);
    TrimEnds(p);
    TrimIdempotent(p);
    var r, k := Trim(p), LeadingSpace(p);
    forall i | 0 <= i < |r|
      ensures r[i] != ','
    {
      assert r[i] == p[k + i];
    }
  }

  /** Every history entry is trimmed and holds no comma; joined back with commas the
      untrimmed pieces give the history. */
  lemma HistoryEntries(h: string)
    ensures forall i :: 0 <= i < |SplitHistory(h)| ==>
      && ',' !in SplitHistory(h)[i]
      && Trim(SplitHistory(h)[i]) == SplitHistory(h)[i]
      && (SplitHistory(h)[i] != [] ==> !IsWhiteSpace(SplitHistory(h)[i][0]))
    ensures Join(Split(h, ','), ',') == h
  {
    SplitSpec(h, ',');
    var parts := Split(h, ',');
    var titles := SplitHistory(h);
    forall i | 0 <= i < |titles|
      ensures ',' !in titles[i] && Trim(titles[i]) == titles[i]
      ensures titles[i] != [] ==> !IsWhiteSpace(titles[i][0])
    {
      assert ',' !in parts[i] && titles[i] == Trim(parts[i]);
      TrimmedPiece(parts[i]);
    }
  }

  /** `item.title.toLowerCase() === title.toLowerCase()`. */
  predicate TitleMatches(item: Content, title: string)
  {
    Lower(item.title) == Lower(title)
  }

  /** `contentData.find(...)`: the first catalog item whose title matches. */
  function FindByTitle(catalog: seq<Content>, title: string): (r: Option<Content>)
    ensures r.None? <==> forall j :: 0 <= j < |catalog| ==> !TitleMatches(catalog[j], title)
    ensures r.Some? ==> exists i :: (0 <= i < |catalog| && r.value == catalog[i]
      && TitleMatches(catalog[i], title)
      && forall j :: 0 <= j < i ==> !TitleMatches(catalog[j], title))
  {
    match FirstWhere(catalog, (item: Content) => TitleMatches(item, title))
    case None => None
    case Some(i) => Some(catalog[i])
  }

  /** The map/find/filter chain: one catalog item per suggestion that has a match, in
      suggestion order, repeats included. */
  function Match(titles: seq<string>, catalog: seq<Content>): (r: seq<Content>)
    ensures |r| <= |titles|
    ensures forall x :: x in r ==> x in catalog
  {
    if titles == [] then []
    else
      var rest := Match(titles[1..], catalog);
      match FindByTitle(catalog, titles[0])
      case None => rest
      case Some(x) => [x] + rest
  }

  /** One suggestion yields the item `find` picks for it, or nothing. */
  lemma MatchOne(t: string, catalog: seq<Content>)
    ensures Match([t], catalog) == if FindByTitle(catalog, t).Some? then [FindByTitle(catalog, t).value] else []
  {
    assert [t][1..] == [];
  }

  /** The results follow the suggestions: matching a concatenation concatenates the
      matches. */
  lemma {:induction false} MatchConcat(a: seq<string>, b: seq<string>, catalog: seq<Content>)
    ensures Match(a + b, catalog) == Match(a, catalog) + Match(b, catalog)
    decreases |a|
  {
    if a == [] {
      assert a + b == b;
    } else {
      assert (a + b)[0] == a[0] && (a + b)[1..] == a[1..] + b;
      MatchConcat(a[1..], b, catalog);
    }
  }

  /** The result is empty, and the notice is due, exactly when no suggestion matches
      any catalog title. */
  lemma {:induction false} MatchEmpty(titles: seq<string>, catalog: seq<Content>)
    ensures Match(titles, catalog) == [] <==>
      forall t :: t in titles ==> FindByTitle(catalog, t).None?
    decreases |titles|
  {
    if titles != [] {
      MatchEmpty(titles[1..], catalog);
      assert forall t :: t in titles <==> t == titles[0] || t in titles[1..];
    }
  }

  /** Suggesting a matched title twice shows its item twice: nothing is de-duplicated. */
  lemma RepeatsKept(t: string, catalog: seq<Content>)
    requires FindByTitle(catalog, t).Some?
    ensures Match([t, t], catalog) == [FindByTitle(catalog, t).value, FindByTitle(catalog, t).value]
  {
    assert [t, t][1..] == [t];
    assert [t][1..] == [];
  }

  /** Two spellings of one catalog title each select that item, so the item is
      shown twice: "Galaxy Drifters" and "galaxy drifters" against a catalog that
      holds it once. */
  lemma CaseVariantsRepeat(c: Content, t1: string, t2: string)
    requires Lower(c.title) == Lower(t1) == Lower(t2)
    ensures Match([t1, t2], [c]) == [c, c]
  {
    assert TitleMatches([c][0], t1) && TitleMatches([c][0], t2);
    assert [t1, t2][1..] == [t2];
    assert [t2][1..] == [];
  }

  lemma GalaxyDrifters(c: Content)
    requires c.title == "Galaxy Drifters"
    ensures Match(["Galaxy Drifters", "galaxy drifters"], [c]) == [c, c]
  {
    assert Lower("Galaxy Drifters") == Lower("galaxy drifters");
    CaseVariantsRepeat(c, "Galaxy Drifters", "galaxy drifters");
  }

  /** Two spellings of one title that differ only in case pick the same item. */
  lemma MatchIgnoresCase(t: string, catalog: seq<Content>)
    ensures FindByTitle(catalog, Upper(t)) == FindByTitle(catalog, t)
  {
    LowerIgnoresCase(t);
    SameLowerSameFind(catalog, t, Upper(t));
  }

  /** Titles equal once lower-cased find the same item. */
  lemma SameLowerSameFind(catalog: seq<Content>, t1: string, t2: string)
    requires Lower(t1) == Lower(t2)
    ensures FindByTitle(catalog, t1) == FindByTitle(catalog, t2)
  {
    FirstWhereExtensional(catalog, (item: Content) => TitleMatches(item, t1), (item: Content) => TitleMatches(item, t2));
  }

  const NoMatchesToast := Toast("No matches found in our library",
    Some("We got recommendations, but couldn't find them in our current catalog. Try being more specific!"), false)
  const FailureToast := Toast("An error occurred",
    Some("Could not generate recommendations. Please try again later."), true)

  /** What the page sends the recommendation flow. */
  datatype FlowInput = FlowInput(viewingHistory: seq<string>, preferences: string)

  class Recommendations {
    var isLoading: bool
    var recommendations: seq<Content>

    constructor ()
      ensures !isLoading && recommendations == []
    {
      isLoading := false;
      recommendations := [];
    }

    /** The start of `onSubmit`, reached only with a valid form: the loading flag is
        set, the previous results are cleared and the flow's input is built. */
    method Submit(viewingHistory: string, preferences: string) returns (input: FlowInput)
      requires FormIssues(viewingHistory, preferences) == []
      modifies this
      ensures isLoading && recommendations == []
      ensures input == FlowInput(SplitHistory(viewingHistory), preferences)
    {
      isLoading := true;
      recommendations := [];
      input := FlowInput(SplitHistory(viewingHistory), preferences);
    }

    /** The rest of `onSubmit` once the flow answers with `result` (none: it failed).
        The results are the matches, the notice comes exactly when there are none, a
        failure leaves no results and raises the error toast, and loading ends
        either way. */
    method Complete(result: Option<seq<string>>, catalog: seq<Content>) returns (toast: Option<Toast>)
      requires isLoading && recommendations == []
      modifies this
      ensures !isLoading
      ensures result.Some? ==> recommendations == Match(result.value, catalog)
      ensures result.Some? ==> (toast == Some(NoMatchesToast) <==> recommendations == [])
      ensures result.Some? ==> (toast.None? <==> recommendations != [])
      ensures result.None? ==> recommendations == [] && toast == Some(FailureToast)
    {
      if result.Some? {
        recommendations := Match(result.value, catalog);
        if |recommendations| == 0 {
          toast := Some(NoMatchesToast);
        } else {
          toast := None;
        }
      } else {
        toast := Some(FailureToast);
      }
      isLoading := false;
    }
  }
}
