/** The `getInitials` helper that src/components/content/ReviewsSection.tsx and
    src/components/shared/UserNav.tsx each define, with the same text, for an avatar's
    fallback: "U" without a name, else the upper-cased first letters of the first and
    last space-separated parts, or of the name itself when it has no space. Indexing an
    empty part yields `undefined`, which the template literal spells out. */
module Initials {
  import opened Types
  import opened Text

  /** `part[0]` inside a template literal. */
  function FirstOrUndefined(part: string): (r: string)
    ensures part != [] ==> r == [part[0]]
    ensures part == [] ==> r == "undefined"
  {
    if part == [] then "undefined" else [part[0]]
  }

  function GetInitials(name: Option<string>): (r: string)
    ensures !Truthy(name) ==> r == "U"
    ensures r != []
  {
    if !Truthy(name) then "U"
    else
      var names := Split(name.value, ' ');
      if |names| > 1 then
        Upper(FirstOrUndefined(names[0]) + FirstOrUndefined(names[|names| - 1]))
      else
        Upper([name.value[0]])
  }

  lemma UpperOfTwo(a: char, b: char)
    ensures Upper([a] + [b]) == [UpperChar(a), UpperChar(b)]
  {
  }

  /** A name made of one or more words joined by single spaces, whose first and last
      words are non-empty, gets the upper-cased first letter of its first word
      followed, when there are several words, by that of its last word. Inner words
      may be empty, as in a name with a doubled space. */
  lemma InitialsOfWords(words: seq<string>)
    requires words != [] && words[0] != [] && words[|words| - 1] != []
    requires forall i :: 0 <= i < |words| ==> ' ' !in words[i]
    ensures var r := GetInitials(Some(Join(words, ' ')));
      && (|words| == 1 ==> r == [UpperChar(words[0][0])])
      && (|words| > 1 ==> r == [UpperChar(words[0][0]), UpperChar(words[|words| - 1][0])])
  {
    var name := Join(words, ' ');
    SplitJoin(words, ' ');
    JoinHead(words, ' ');
    InitialsOfSplit(name, words);
  }

  /** The initials of a name whose split is known and whose first and last parts are
      non-empty. */
  lemma InitialsOfSplit(name: string, words: seq<string>)
    requires words != [] && Split(name, ' ') == words
    requires words[0] != [] && words[|words| - 1] != []
    requires name != [] && name[0] == words[0][0]
    ensures |words| == 1 ==> GetInitials(Some(name)) == [UpperChar(words[0][0])]
    ensures |words| > 1 ==> GetInitials(Some(name)) == [UpperChar(words[0][0]), UpperChar(words[|words| - 1][0])]
  {
    if |words| > 1 {
      var first, last := words[0], words[|words| - 1];
      assert FirstOrUndefined(first) == [first[0]] && FirstOrUndefined(last) == [last[0]];
      UpperOfTwo(first[0], last[0]);
    }
  }

  /** Joined words start with the first letter of the first word. */
  lemma JoinHead(words: seq<string>, sep: char)
    requires words != [] && words[0] != []
    ensures Join(words, sep) != [] && Join(words, sep)[0] == words[0][0]
  {
    if |words| > 1 {
      assert Join(words, sep) == words[0] + ([sep] + Join(words[1..], sep));
    }
  }

  /** A name that ends in a space splits into a last part that is empty, whose first
      character is `undefined`: the fallback then reads "AUNDEFINED" for "Ada ". */
  lemma TrailingSpaceSpellsUndefined()
    ensures GetInitials(Some("Ada ")) == "AUNDEFINED"
  {
    TrailingSpaceSplit();
    UpperUndefined();
    assert FirstOrUndefined("Ada") + FirstOrUndefined("") == "Aundefined";
  }

  /** A doubled inner space leaves an empty middle part, which `getInitials` never
      reads: "Mary  Watson" still gives "MW". */
  lemma DoubledSpaceInitials()
    ensures GetInitials(Some("Mary  Watson")) == "MW"
  {
    var words := ["Mary", "", "Watson"];
    assert Join(words[2..], ' ') == "Watson";
    assert Join(words[1..], ' ') == " Watson";
    assert Join(words, ' ') == "Mary  Watson";
    InitialsOfWords(words);
  }

  lemma TrailingSpaceSplit()
    ensures Split("Ada ", ' ') == ["Ada", ""]
  {
    SplitFreePrefix("Ada", " ", ' ');
    assert "Ada " == "Ada" + " ";
    assert Split(" ", ' ') == [""] + Split("", ' ');
    assert "Ada" + "" == "Ada";
  }

  lemma UpperUndefined()
    ensures Upper("Aundefined") == "AUNDEFINED"
  {
  }
}
