/**
 * The template gallery page: its initial filters, the category and tag
 * choices it offers (collected into two sets while walking the fetched
 * templates, then sorted), and what it shows for a fetch state. Array
 * sorting is the default `Array.prototype.sort` order on strings, character
 * code by character code.
 */
module TemplateGalleryPage {
  import opened JsValues
  import opened Text
  import opened TemplateTypes
  import opened TemplateFilterBar
  import UseTemplates

  /** `{ latest_only: true }`. */
  const InitialFilters: TemplateFilters := NoFilters.(latestOnly := Has(true))

  /** The first fetch asks for the latest version of each template and nothing else. */
  lemma InitialQuery(escape: string -> string)
    ensures UseTemplates.QueryParams(Some(InitialFilters)) == [UseTemplates.Param(UseTemplates.LatestOnly, "true")]
    ensures UseTemplates.ListPath(Some(InitialFilters), escape) ==
      UseTemplates.TemplatesPath + "?" + escape("latest_only") + "=" + escape("true")
  {
    var f, keys := InitialFilters, UseTemplates.FilterParamKeys;
    var params := UseTemplates.QueryParams(Some(f));
    assert UseTemplates.ParamsFor(f, keys[..0]) == [];
    assert keys[..1][..0] == keys[..0];
    assert UseTemplates.ParamsFor(f, keys[..1]) == [];
    assert keys[..2][..1] == keys[..1];
    assert UseTemplates.ParamsFor(f, keys[..2]) == [];
    assert keys[..3][..2] == keys[..2];
    assert UseTemplates.ParamsFor(f, keys[..3]) == [];
    assert keys[..4][..3] == keys[..3];
    assert UseTemplates.ParamsFor(f, keys[..4]) == [];
    assert keys[..5][..4] == keys[..4];
    assert UseTemplates.ParamsFor(f, keys[..5]) == [];
    assert keys[..5] == keys[..|keys| - 1];
    assert params == [UseTemplates.Param(UseTemplates.LatestOnly, "true")];
    var pairs := UseTemplates.Named(params);
    assert pairs == [("latest_only", "true")];
  }

  // ---------------------------------------------------------------------------
  // Sorting strings

  predicate Ascending(s: seq<string>)
  {
    forall i, j :: 0 <= i < j < |s| ==> LessOrEqual(s[i], s[j])
  }

  predicate StrictlyAscending(s: seq<string>)
  {
    forall i, j :: 0 <= i < j < |s| ==> Less(s[i], s[j])
  }

  predicate Distinct(s: seq<string>)
  {
    forall i, j :: 0 <= i < j < |s| ==> s[i] != s[j]
  }

  lemma LessOrEqualTransitive(a: string, b: string, c: string)
    requires LessOrEqual(a, b) && LessOrEqual(b, c)
    ensures LessOrEqual(a, c)
  {
    if a != b && b != c {
      LessTransitive(a, b, c);
    }
  }

  /** `x` put into an ascending list in front of the first element it does not exceed. */
  function Insert(x: string, s: seq<string>): (r: seq<string>)
    requires Ascending(s)
    ensures Ascending(r) && multiset(r) == multiset(s) + multiset{x}
    decreases |s|
  {
    if |s| == 0 then [x]
    else if LessOrEqual(x, s[0]) then
      assert forall j :: 0 <= j < |s| ==> LessOrEqual(x, s[j]) by {
        forall j | 0 <= j < |s|
          ensures LessOrEqual(x, s[j])
        {
          if j > 0 {
            LessOrEqualTransitive(x, s[0], s[j]);
          }
        }
      }
      [x] + s
    else
      var rest := Insert(x, s[1..]);
      LessTotal(x, s[0]);
      assert s == [s[0]] + s[1..];
      assert forall y :: y in rest ==> LessOrEqual(s[0], y) by {
        forall y | y in rest
          ensures LessOrEqual(s[0], y)
        {
          assert y in multiset(rest);
          if y != x {
            assert y in s[1..];
          }
        }
      }
      [s[0]] + rest
  }

  /** The default string sort, as an insertion sort. */
  function SortStrings(s: seq<string>): (r: seq<string>)
    ensures Ascending(r) && multiset(r) == multiset(s)
    decreases |s|
  {
    if |s| == 0 then []
    else
      assert s == [s[0]] + s[1..];
      Insert(s[0], SortStrings(s[1..]))
  }

  /** An ascending arrangement of distinct strings is strictly ascending. */
  lemma SortedDistinctIsStrict(s: seq<string>, r: seq<string>)
    requires Distinct(s) && Ascending(r) && multiset(r) == multiset(s)
    ensures StrictlyAscending(r)
  {
    forall i, j | 0 <= i < j < |r|
      ensures Less(r[i], r[j])
    {
      if r[i] == r[j] {
        DistinctOnce(s, r[i]);
        CountsTwice(r, i, j);
      }
    }
  }

  /** In a list of distinct strings each string occurs at most once. */
  lemma {:induction false} DistinctOnce(s: seq<string>, x: string)
    requires Distinct(s)
    ensures multiset(s)[x] <= 1
    decreases |s|
  {
    if |s| > 0 {
      assert s == [s[0]] + s[1..];
      assert Distinct(s[1..]);
      DistinctOnce(s[1..], x);
      if x == s[0] {
        assert x !in s[1..];
      }
    }
  }

  /** Two equal entries make a string occur at least twice. */
  lemma CountsTwice(r: seq<string>, i: nat, j: nat)
    requires i < j < |r| && r[i] == r[j]
    ensures multiset(r)[r[i]] >= 2
  {
    assert r == r[..j] + [r[j]] + r[j + 1..];
    assert r[i] in r[..j];
  }

  /** Strictly ascending lists hold no string twice. */
  lemma StrictIsDistinct(s: seq<string>)
    requires StrictlyAscending(s)
    ensures Distinct(s)
  {
    forall i, j | 0 <= i < j < |s|
      ensures s[i] != s[j]
    {
      LessAsymmetric(s[i], s[j]);
    }
  }

  /** A strictly ascending list is determined by its members. */
  lemma {:induction false} StrictlyAscendingUnique(a: seq<string>, b: seq<string>)
    requires StrictlyAscending(a) && StrictlyAscending(b)
    requires forall x :: x in a <==> x in b
    ensures a == b
    decreases |a|
  {
    assert |a| > 0 ==> a[0] in b;
    assert |b| > 0 ==> b[0] in a;
    if |a| > 0 && |b| > 0 {
      var m :| 0 <= m < |a| && a[m] == b[0];
      var k :| 0 <= k < |b| && b[k] == a[0];
      if m > 0 && k > 0 {
        assert Less(b[0], b[k]);
        LessAsymmetric(a[0], a[m]);
      }
      assert a[0] == b[0];
      assert a == [a[0]] + a[1..] && b == [b[0]] + b[1..];
      forall x
        ensures x in a[1..] <==> x in b[1..]
      {
        if x in a[1..] {
          var i :| 0 <= i < |a[1..]| && a[1..][i] == x;
          assert a[i + 1] == x && Less(a[0], a[i + 1]);
          LessAsymmetric(a[0], x);
          assert x in b && x != b[0];
        }
        if x in b[1..] {
          var i :| 0 <= i < |b[1..]| && b[1..][i] == x;
          assert b[i + 1] == x && Less(b[0], b[i + 1]);
          LessAsymmetric(b[0], x);
          assert x in a && x != a[0];
        }
      }
      StrictlyAscendingUnique(a[1..], b[1..]);
    }
  }

  // ---------------------------------------------------------------------------
  // The filter choices

  /** A truthy category of one of the templates. */
  predicate OffersCategory(templates: seq<Template>, c: string)
  {
    exists i :: 0 <= i < |templates| && templates[i].category == Some(c) && c != ""
  }

  /** A tag of one of the templates. */
  predicate OffersTag(templates: seq<Template>, tag: string)
  {
    exists i :: 0 <= i < |templates| && templates[i].tags.Some? && tag in templates[i].tags.value
  }

  /** `set.add(x)`: a JavaScript `Set` keeps its members once each, in insertion order. */
  function Add(members: seq<string>, x: string): (r: seq<string>)
    requires Distinct(members)
    ensures Distinct(r) && forall y :: y in r <==> y in members || y == x
  {
    if x in members then members else members + [x]
  }

  /**
   * The `useMemo` of the page: every template's truthy category into one set
   * and every tag of every template with tags into another, then both sorted.
   */
  method AvailableFacets(templates: seq<Template>) returns (categories: seq<string>, tags: seq<string>)
    ensures StrictlyAscending(categories) && StrictlyAscending(tags)
    ensures forall c :: c in categories <==> OffersCategory(templates, c)
    ensures forall t :: t in tags <==> OffersTag(templates, t)
  {
    var categorySet: seq<string> := [];
    var tagSet: seq<string> := [];
    for i := 0 to |templates|
      invariant Distinct(categorySet) && Distinct(tagSet)
      invariant forall c :: c in categorySet <==> OffersCategory(templates[..i], c)
      invariant forall t :: t in tagSet <==> OffersTag(templates[..i], t)
    {
      var template := templates[i];
      if template.category.Some? && template.category.value != "" {
        categorySet := Add(categorySet, template.category.value);
      }
      if template.tags.Some? {
        var list := template.tags.value;
        for j := 0 to |list|
          invariant Distinct(tagSet)
          invariant forall t :: t in tagSet <==> OffersTag(templates[..i], t) || t in list[..j]
        {
          tagSet := Add(tagSet, list[j]);
          assert list[..j + 1] == list[..j] + [list[j]];
        }
        assert list[..|list|] == list;
      }
      OffersStep(templates, i);
    }
    assert templates[..|templates|] == templates;
    categories := SortStrings(categorySet);
    tags := SortStrings(tagSet);
    SortedDistinctIsStrict(categorySet, categories);
    SortedDistinctIsStrict(tagSet, tags);
    forall x
      ensures (x in categories <==> x in categorySet) && (x in tags <==> x in tagSet)
    {
      assert x in categories <==> x in multiset(categories);
      assert x in categorySet <==> x in multiset(categorySet);
      assert x in tags <==> x in multiset(tags);
      assert x in tagSet <==> x in multiset(tagSet);
    }
  }

  /** Taking one more template adds its truthy category and its tags to the choices. */
  lemma OffersStep(templates: seq<Template>, i: nat)
    requires i < |templates|
    ensures var t := templates[i];
      forall c :: OffersCategory(templates[..i + 1], c) <==>
        OffersCategory(templates[..i], c) || (t.category == Some(c) && c != "")
    ensures var t := templates[i];
      forall tag :: OffersTag(templates[..i + 1], tag) <==>
        OffersTag(templates[..i], tag) || (t.tags.Some? && tag in t.tags.value)
  {
    var prefix, next := templates[..i], templates[..i + 1];
    assert forall k :: 0 <= k < i ==> next[k] == prefix[k];
    assert next[i] == templates[i];
  }

  /** The choices are a function of the templates' categories and tags alone: any two sorted lists of them agree. */
  lemma FacetsDetermined(templates: seq<Template>, c1: seq<string>, c2: seq<string>)
    requires StrictlyAscending(c1) && StrictlyAscending(c2)
    requires forall c :: c in c1 <==> OffersCategory(templates, c)
    requires forall c :: c in c2 <==> OffersCategory(templates, c)
    ensures c1 == c2
  {
    StrictlyAscendingUnique(c1, c2);
  }

  // ---------------------------------------------------------------------------
  // What the page shows

  const AdjustFilters: string := "Try adjusting your filters to see more templates."
  const NothingAvailable: string := "No templates are available at this time."

  /** The hint under "No templates found": more than one filter key means filters were touched. */
  function EmptyHint(filters: TemplateFilters): (hint: string)
    ensures hint == AdjustFilters <==> KeyCount(filters) > 1
    ensures hint == NothingAvailable <==> KeyCount(filters) <= 1
  {
    if KeyCount(filters) > 1 then AdjustFilters else NothingAvailable
  }

  /** The initial filters have one key, so an empty first listing says nothing is available. */
  lemma InitialHint()
    ensures KeyCount(InitialFilters) == 1
    ensures EmptyHint(InitialFilters) == NothingAvailable
  {
  }

  /**
   * Any choice in the filter bar, even "All Categories" or "All", leaves a
   * second key behind, so from then on an empty listing asks to adjust the
   * filters.
   */
  lemma AnyChoiceCountsAsFiltering(value: string, v: Option<Visibility>)
    ensures EmptyHint(CategoryChange(InitialFilters, value)) == AdjustFilters
    ensures EmptyHint(VisibilityChange(InitialFilters, v)) == AdjustFilters
    ensures EmptyHint(TagChange(InitialFilters, value)) == AdjustFilters
    ensures EmptyHint(OwnerChange(InitialFilters, value)) == AdjustFilters
    ensures EmptyHint(DebouncedSearch(InitialFilters, value)) == AdjustFilters
  {
    ChangeKeyCount(InitialFilters, value);
  }

  /** The main area below the filter bar. */
  datatype Gallery = Loading | NoTemplates(hint: string) | Cards(shown: seq<Template>)

  /** The page body: a lone spinner, or the filter bar above the gallery area. */
  datatype Page = FirstLoad | WithFilters(gallery: Gallery)

  /**
   * The page for a fetch state: a spinner alone while the first list loads,
   * otherwise the filter bar with a spinner, the empty-state hint, or every
   * fetched template as a card, in order and unfiltered.
   */
  function PageOf(loading: bool, templates: seq<Template>, filters: TemplateFilters): (page: Page)
    ensures page == FirstLoad <==> loading && |templates| == 0
    ensures page == WithFilters(Loading) <==> loading && |templates| > 0
    ensures page.WithFilters? && page.gallery.NoTemplates? <==> !loading && |templates| == 0
    ensures page.WithFilters? && page.gallery.Cards? ==> page.gallery.shown == templates && |templates| > 0
    ensures page.WithFilters? && page.gallery.NoTemplates? ==> page.gallery.hint == EmptyHint(filters)
  {
    if loading && |templates| == 0 then FirstLoad
    else if loading then WithFilters(Loading)
    else if |templates| == 0 then WithFilters(NoTemplates(EmptyHint(filters)))
    else WithFilters(Cards(templates))
  }

  /** When nothing loads, exactly one of the gallery states holds, and a non-empty list is shown whole. */
  lemma GalleryShowsFetchedList(templates: seq<Template>, filters: TemplateFilters)
    ensures |templates| > 0 ==> PageOf(false, templates, filters) == WithFilters(Cards(templates))
    ensures |templates| == 0 ==> PageOf(false, templates, filters) == WithFilters(NoTemplates(EmptyHint(filters)))
  {
  }

  /** The error banner: the fetch error when it is truthy. */
  function ErrorBanner(error: Option<string>): Option<string>
  {
    if error.Some? && error.value != "" then error else None
  }

  /**
   * A failed listing always raises the banner, with the hook's message,
   * unless the thrown `Error` (or plain object) carries an empty message.
   */
  lemma FailedFetchShowsBanner(err: JsError)
    ensures var message := UseTemplates.ErrorMessage(err, UseTemplates.FetchTemplatesFailed);
      ErrorBanner(Some(message)).None? <==>
        (err.ErrorObject? && err.errorMessage == "") || (err.PlainObject? && err.prop.StringMessage? && err.prop.text == "")
    ensures var message := UseTemplates.ErrorMessage(err, UseTemplates.FetchTemplatesFailed);
      ErrorBanner(Some(message)).Some? ==> ErrorBanner(Some(message)) == Some(message)
  {
  }

  /** A successful listing leaves a cleared error cleared: no banner. */
  lemma NoBannerWithoutError()
    ensures ErrorBanner(None).None? && ErrorBanner(Some("")).None?
  {
  }
}
