/**
 * `find_category_link_exact` (save_naver_blog_category_to_pdf.py:175-183): pick the category
 * whose name equals the requested key, or failing that the first one whose name contains it.
 * The category list the page scrape produces is a parameter.
 */
module Category {
  import opened Options
  import opened PyText

  /** One scraped category: its visible name, its link and its `categoryNo`. */
  datatype CategoryEntry = CategoryEntry(name: string, href: string, catNo: string)

  /** The outcome: the chosen link and number, or the error the script raises. */
  datatype Lookup = Found(href: string, catNo: string) | NotFound

  /** The first entry at or after `from` whose name satisfies the exact or the substring test. */
  function FirstMatch(cats: seq<CategoryEntry>, key: string, exact: bool, from: nat): (r: Option<nat>)
    ensures r.Some? ==> from <= r.value < |cats| && Matches(cats[r.value].name, key, exact)
    ensures r.Some? ==> forall j :: from <= j < r.value ==> !Matches(cats[j].name, key, exact)
    ensures r.None? ==> forall j :: from <= j < |cats| ==> !Matches(cats[j].name, key, exact)
    decreases |cats| - from
  {
    if from >= |cats| then None
    else if Matches(cats[from].name, key, exact) then Some(from)
    else FirstMatch(cats, key, exact, from + 1)
  }

  /** `text == key` for the first pass, `key in text` for the second. */
  predicate Matches(name: string, key: string, exact: bool)
  {
    if exact then name == key else Contains(name, key)
  }

  /** The two passes of `find_category_link_exact`. */
  function FindCategoryLink(cats: seq<CategoryEntry>, key: string): (r: Lookup)
    ensures r.Found? ==> exists i :: 0 <= i < |cats| && Contains(cats[i].name, key) && r == Found(cats[i].href, cats[i].catNo)
  {
    match FirstMatch(cats, key, true, 0)
    case Some(i) =>
      ContainsAt(cats[i].name, key, 0);
      Found(cats[i].href, cats[i].catNo)
    case None =>
      match FirstMatch(cats, key, false, 0)
      case Some(i) => Found(cats[i].href, cats[i].catNo)
      case None => NotFound
  }

  /** An exact name match wins, and the first exact match is the one chosen. */
  lemma ExactMatchWins(cats: seq<CategoryEntry>, key: string, i: nat)
    requires i < |cats| && cats[i].name == key
    requires forall j :: 0 <= j < i ==> cats[j].name != key
    ensures FindCategoryLink(cats, key) == Found(cats[i].href, cats[i].catNo)
  {
    var f := FirstMatch(cats, key, true, 0);
    assert Matches(cats[i].name, key, true);
    assert f == Some(i);
  }

  /** With no exact match, the first name that contains the key is chosen. */
  lemma SubstringFallback(cats: seq<CategoryEntry>, key: string, i: nat)
    requires forall j :: 0 <= j < |cats| ==> cats[j].name != key
    requires i < |cats| && Contains(cats[i].name, key)
    requires forall j :: 0 <= j < i ==> !Contains(cats[j].name, key)
    ensures FindCategoryLink(cats, key) == Found(cats[i].href, cats[i].catNo)
  {
    assert FirstMatch(cats, key, true, 0).None?;
    var f := FirstMatch(cats, key, false, 0);
    assert Matches(cats[i].name, key, false);
    assert f == Some(i);
  }

  /** The lookup fails exactly when no category name contains the key. */
  lemma NotFoundIff(cats: seq<CategoryEntry>, key: string)
    ensures FindCategoryLink(cats, key) == NotFound <==> forall j :: 0 <= j < |cats| ==> !Contains(cats[j].name, key)
  {
    if FindCategoryLink(cats, key) == NotFound {
      forall j | 0 <= j < |cats| ensures !Contains(cats[j].name, key) {
        assert !Matches(cats[j].name, key, false);
      }
    }
  }
}
