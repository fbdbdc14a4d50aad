/**
 * The tenant list page: the search and status filters, the sort by a
 * lower-cased field in either direction, the sort toggle of the column
 * headers, resetting the filters, and whether any filter is active.
 * `localeCompare` is the character order `Less`.
 */
module TenantPage {
  import opened Text

  datatype TenantStatus = Active | Inactive | Deleted

  function StatusName(s: TenantStatus): string
  {
    match s
    case Active => "ACTIVE"
    case Inactive => "INACTIVE"
    case Deleted => "DELETED"
  }

  datatype Tenant = Tenant(
    id: string,
    name: string,
    slug: string,
    status: TenantStatus,
    createdBy: string,
    modifiedBy: string,
    createdAtInSeconds: int,
    updatedAtInSeconds: int)

  /** The two fields the page searches and sorts by (`SearchType` and `SortField` share them). */
  datatype TenantField = NameField | SlugField
  datatype SortDirection = Asc | Desc

  const AllStatuses: string := "all"

  function FieldOf(t: Tenant, field: TenantField): string
  {
    match field
    case NameField => t.name
    case SlugField => t.slug
  }

  // ---------------------------------------------------------------------------
  // Filtering

  /** The tenants of `s` that satisfy `p`, in order (`Array.prototype.filter`). */
  function Keep(s: seq<Tenant>, p: Tenant -> bool): (r: seq<Tenant>)
    ensures |r| <= |s|
    ensures forall t :: t in r <==> t in s && p(t)
    ensures forall t :: multiset(r)[t] == if p(t) then multiset(s)[t] else 0
  {
    if |s| == 0 then []
    else
      var rest := Keep(s[1..], p);
      assert s == [s[0]] + s[1..];
      assert multiset(s) == multiset{s[0]} + multiset(s[1..]);
      if p(s[0]) then [s[0]] + rest else rest
  }

  /**
   * Filtering keeps the order: the kept tenants of `a + b` are those of `a`
   * followed by those of `b`, so a kept tenant never moves past another.
   */
  lemma {:induction false} KeepAppend(a: seq<Tenant>, b: seq<Tenant>, p: Tenant -> bool)
    ensures Keep(a + b, p) == Keep(a, p) + Keep(b, p)
    decreases |a|
  {
    if |a| > 0 {
      assert (a + b)[1..] == a[1..] + b;
      KeepAppend(a[1..], b, p);
    } else {
      assert a + b == b;
    }
  }

  /** One tenant is kept exactly when it passes the test. */
  lemma KeepOne(t: Tenant, p: Tenant -> bool)
    ensures Keep([t], p) == if p(t) then [t] else []
  {
    assert [t][1..] == [];
  }

  /** The search test: the lower-cased field contains the lower-cased query. */
  predicate MatchesSearch(t: Tenant, query: string, searchType: TenantField)
  {
    Contains(ToLower(FieldOf(t, searchType)), ToLower(query))
  }

  /** `filtered` after both filters: the search only when the query trims to something, the status unless it is "all". */
  function Filtered(tenants: seq<Tenant>, query: string, searchType: TenantField, statusFilter: string): seq<Tenant>
  {
    var searched := if Trim(query) != "" then Keep(tenants, (t: Tenant) => MatchesSearch(t, query, searchType)) else tenants;
    if statusFilter != AllStatuses then Keep(searched, (t: Tenant) => StatusName(t.status) == statusFilter) else searched
  }

  /** Whether a tenant is shown, stated directly. */
  predicate Shown(t: Tenant, query: string, searchType: TenantField, statusFilter: string)
  {
    && (Trim(query) == "" || MatchesSearch(t, query, searchType))
    && (statusFilter == AllStatuses || StatusName(t.status) == statusFilter)
  }

  /** The filters keep exactly the tenants that pass both tests, and no more tenants than there were. */
  lemma FilteredMembers(tenants: seq<Tenant>, query: string, searchType: TenantField, statusFilter: string)
    ensures |Filtered(tenants, query, searchType, statusFilter)| <= |tenants|
    ensures multiset(Filtered(tenants, query, searchType, statusFilter)) <= multiset(tenants)
    ensures forall t :: t in Filtered(tenants, query, searchType, statusFilter) <==>
      t in tenants && Shown(t, query, searchType, statusFilter)
  {
  }

  /** A query of white space filters nothing; neither does the status "all". */
  lemma BlankQueryKeepsAll(tenants: seq<Tenant>, query: string, searchType: TenantField)
    requires forall i :: 0 <= i < |query| ==> IsJsSpace(query[i])
    ensures Filtered(tenants, query, searchType, AllStatuses) == tenants
  {
    TrimEmpty(query);
  }

  // ---------------------------------------------------------------------------
  // Ordering

  /** The key a tenant is sorted by. */
  function SortKey(t: Tenant, field: TenantField): string
  {
    ToLower(FieldOf(t, field))
  }

  /** The comparator is negative: `x` goes strictly before `y`. */
  predicate Before(x: Tenant, y: Tenant, field: TenantField, dir: SortDirection)
  {
    if dir == Asc then Less(SortKey(x, field), SortKey(y, field)) else Less(SortKey(y, field), SortKey(x, field))
  }

  /** `x` may come before `y`: its key is not after `y`'s in the chosen direction. */
  predicate InOrder(x: Tenant, y: Tenant, field: TenantField, dir: SortDirection)
  {
    if dir == Asc then LessOrEqual(SortKey(x, field), SortKey(y, field))
    else LessOrEqual(SortKey(y, field), SortKey(x, field))
  }

  predicate Sorted(s: seq<Tenant>, field: TenantField, dir: SortDirection)
  {
    forall k, l :: 0 <= k < l < |s| ==> InOrder(s[k], s[l], field, dir)
  }

  lemma InOrderTransitive(x: Tenant, y: Tenant, z: Tenant, field: TenantField, dir: SortDirection)
    requires InOrder(x, y, field, dir) && InOrder(y, z, field, dir)
    ensures InOrder(x, z, field, dir)
  {
    var a, b, c := SortKey(x, field), SortKey(y, field), SortKey(z, field);
    if dir == Asc {
      if a != b && b != c {
        LessTransitive(a, b, c);
      }
    } else {
      if c != b && b != a {
        LessTransitive(c, b, a);
      }
    }
  }

  /** When `y` does not go strictly before `x`, `x` may come before `y`. */
  lemma NotBeforeInOrder(x: Tenant, y: Tenant, field: TenantField, dir: SortDirection)
    ensures !Before(y, x, field, dir) ==> InOrder(x, y, field, dir)
    ensures Before(x, y, field, dir) ==> InOrder(x, y, field, dir)
  {
    LessTotal(SortKey(x, field), SortKey(y, field));
  }

  /**
   * `filtered.sort(…)` on the copy: insertion sort, moving each element left
   * past the elements it goes strictly before.
   */
  method SortTenants(a: array<Tenant>, field: TenantField, dir: SortDirection)
    modifies a
    ensures Sorted(a[..], field, dir)
    ensures multiset(a[..]) == multiset(old(a[..]))
  {
    var i := 0;
    while i < a.Length
      invariant 0 <= i <= a.Length
      invariant Sorted(a[..i], field, dir)
      invariant multiset(a[..]) == multiset(old(a[..]))
    {
      InsertLast(a, i, field, dir);
      i := i + 1;
    }
    assert a[..i] == a[..];
  }

  /** Moves `a[i]` left into the sorted prefix `a[..i]`, leaving `a[..i + 1]` sorted. */
  method InsertLast(a: array<Tenant>, i: nat, field: TenantField, dir: SortDirection)
    requires i < a.Length && Sorted(a[..i], field, dir)
    modifies a
    ensures Sorted(a[..i + 1], field, dir)
    ensures multiset(a[..]) == multiset(old(a[..]))
  {
    var j := i;
    SinkingStart(a[..], i, field, dir);
    while j > 0 && Before(a[j], a[j - 1], field, dir)
      invariant 0 <= j <= i
      invariant multiset(a[..]) == multiset(old(a[..]))
      invariant Sinking(a[..], j, i, field, dir)
    {
      ghost var before := a[..];
      a[j - 1], a[j] := a[j], a[j - 1];
      assert a[..] == before[j - 1 := before[j]][j := before[j - 1]];
      SwapKeepsElements(before, j - 1, j);
      SinkingStep(before, a[..], j, i, field, dir);
      j := j - 1;
    }
    SinkingDone(a[..], j, i, field, dir);
  }

  /** Exchanging two elements keeps the multiset of elements. */
  lemma SwapKeepsElements(s: seq<Tenant>, x: nat, y: nat)
    requires x < y < |s|
    ensures multiset(s[x := s[y]][y := s[x]]) == multiset(s)
  {
    var t := s[x := s[y]];
    assert multiset(t) == multiset(s) - multiset{s[x]} + multiset{s[y]};
    assert multiset(t[y := s[x]]) == multiset(t) - multiset{t[y]} + multiset{s[x]};
  }

  /**
   * While `s[j]` moves left: `s[..i + 1]` is in order except for pairs with
   * position `j`, and `s[j]` may come before everything it has passed.
   */
  predicate Sinking(s: seq<Tenant>, j: nat, i: nat, field: TenantField, dir: SortDirection)
    requires j <= i < |s|
  {
    && (forall k, l :: 0 <= k < l <= i && k != j && l != j ==> InOrder(s[k], s[l], field, dir))
    && (forall l :: j < l <= i ==> InOrder(s[j], s[l], field, dir))
  }

  lemma SinkingStart(s: seq<Tenant>, i: nat, field: TenantField, dir: SortDirection)
    requires i < |s| && Sorted(s[..i], field, dir)
    ensures Sinking(s, i, i, field, dir)
  {
    forall k, l | 0 <= k < l <= i && k != i && l != i
      ensures InOrder(s[k], s[l], field, dir)
    {
      assert s[k] == s[..i][k] && s[l] == s[..i][l];
    }
  }

  /** Swapping the moving element with the one before it, which it goes strictly before, keeps the shape. */
  lemma SinkingStep(before: seq<Tenant>, after: seq<Tenant>, j: nat, i: nat, field: TenantField, dir: SortDirection)
    requires 0 < j <= i < |before| && Sinking(before, j, i, field, dir)
    requires Before(before[j], before[j - 1], field, dir)
    requires after == before[j - 1 := before[j]][j := before[j - 1]]
    ensures Sinking(after, j - 1, i, field, dir)
  {
    NotBeforeInOrder(before[j], before[j - 1], field, dir);
    forall k, l | 0 <= k < l <= i && k != j - 1 && l != j - 1
      ensures InOrder(after[k], after[l], field, dir)
    {
      if l == j {
        assert InOrder(before[k], before[j - 1], field, dir);
      } else if k == j {
        assert InOrder(before[j - 1], before[l], field, dir);
      } else {
        assert InOrder(before[k], before[l], field, dir);
      }
    }
    forall l | j - 1 < l <= i
      ensures InOrder(after[j - 1], after[l], field, dir)
    {
      if l > j {
        assert InOrder(before[j], before[l], field, dir);
      }
    }
  }

  /** Once the moving element meets one it does not go before, `s[..i + 1]` is sorted. */
  lemma SinkingDone(s: seq<Tenant>, j: nat, i: nat, field: TenantField, dir: SortDirection)
    requires j <= i < |s| && Sinking(s, j, i, field, dir)
    requires j > 0 ==> !Before(s[j], s[j - 1], field, dir)
    ensures Sorted(s[..i + 1], field, dir)
  {
    var t := s[..i + 1];
    forall k, l | 0 <= k < l < |t|
      ensures InOrder(t[k], t[l], field, dir)
    {
      assert t[k] == s[k] && t[l] == s[l];
      SinkingPair(s, j, i, field, dir, k, l);
    }
  }

  /** One pair of `s[..i + 1]` in order, once the moving element has stopped. */
  lemma SinkingPair(s: seq<Tenant>, j: nat, i: nat, field: TenantField, dir: SortDirection, k: nat, l: nat)
    requires j <= i < |s| && Sinking(s, j, i, field, dir)
    requires j > 0 ==> !Before(s[j], s[j - 1], field, dir)
    requires k < l <= i
    ensures InOrder(s[k], s[l], field, dir)
  {
    if l == j {
      NotBeforeInOrder(s[j - 1], s[j], field, dir);
      if k < j - 1 {
        assert InOrder(s[k], s[j - 1], field, dir);
        InOrderTransitive(s[k], s[j - 1], s[j], field, dir);
      }
    }
  }

  // ---------------------------------------------------------------------------
  // Page state

  /** The sort after clicking a column header. */
  function NextSort(clicked: TenantField, field: TenantField, dir: SortDirection): (next: (TenantField, SortDirection))
    ensures next.0 == clicked
    ensures clicked == field ==> next.1 != dir
    ensures clicked != field ==> next.1 == Asc
  {
    if clicked == field then (field, if dir == Asc then Desc else Asc) else (clicked, Asc)
  }

  /** Clicking the same header twice restores the direction; clicking another header always sorts ascending. */
  lemma NextSortTwice(clicked: TenantField, field: TenantField, dir: SortDirection)
    ensures var once := NextSort(clicked, field, dir);
      NextSort(clicked, once.0, once.1) == (clicked, if clicked == field then dir else Desc)
  {
  }

  /** The page's search, filter and sort settings. */
  class TenantList {
    var searchQuery: string
    var searchType: TenantField
    var statusFilter: string
    var sortField: TenantField
    var sortDirection: SortDirection

    /** The settings the page starts with and `clearFilters` restores. */
    predicate Initial()
      reads this
    {
      searchQuery == "" && searchType == NameField && statusFilter == AllStatuses
      && sortField == NameField && sortDirection == Asc
    }

    constructor ()
      ensures Initial()
    {
      searchQuery := "";
      searchType := NameField;
      statusFilter := AllStatuses;
      sortField := NameField;
      sortDirection := Asc;
    }

    /** `hasActiveFilters`: a query of any text, white space included, or a status other than "all". */
    function HasActiveFilters(): bool
      reads this
    {
      searchQuery != "" || statusFilter != AllStatuses
    }

    /** `handleSort`. */
    method HandleSort(clicked: TenantField)
      modifies this
      ensures (sortField, sortDirection) == NextSort(clicked, old(sortField), old(sortDirection))
      ensures searchQuery == old(searchQuery) && searchType == old(searchType) && statusFilter == old(statusFilter)
    {
      if sortField == clicked {
        sortDirection := if sortDirection == Asc then Desc else Asc;
      } else {
        sortField := clicked;
        sortDirection := Asc;
      }
    }

    /** `clearFilters`. */
    method ClearFilters()
      modifies this
      ensures Initial() && !HasActiveFilters()
    {
      searchQuery := "";
      searchType := NameField;
      statusFilter := AllStatuses;
      sortField := NameField;
      sortDirection := Asc;
    }

    /**
     * `filteredAndSortedTenants`: the tenants that pass the filters, sorted by
     * the lower-cased sort field. It works on a copy, so the list it is given
     * is left as it was.
     */
    method FilteredAndSorted(tenants: array<Tenant>) returns (result: seq<Tenant>)
      ensures Sorted(result, sortField, sortDirection)
      ensures multiset(result) == multiset(Filtered(tenants[..], searchQuery, searchType, statusFilter))
      ensures forall t :: t in result <==> t in tenants[..] && Shown(t, searchQuery, searchType, statusFilter)
      ensures |result| <= tenants.Length
    {
      var filtered := Filtered(tenants[..], searchQuery, searchType, statusFilter);
      FilteredMembers(tenants[..], searchQuery, searchType, statusFilter);
      var copy := new Tenant[|filtered|](k requires 0 <= k < |filtered| => filtered[k]);
      assert copy[..] == filtered;
      SortTenants(copy, sortField, sortDirection);
      result := copy[..];
      assert forall t :: t in result <==> t in multiset(result);
      assert forall t :: t in filtered <==> t in multiset(filtered);
    }
  }

  /** A query of white space makes the filters count as active, yet it hides no tenant. */
  lemma BlankQueryActiveButInert(page: TenantList, tenants: seq<Tenant>)
    requires page.searchQuery != "" && page.statusFilter == AllStatuses
    requires forall i :: 0 <= i < |page.searchQuery| ==> IsJsSpace(page.searchQuery[i])
    ensures page.HasActiveFilters()
    ensures Filtered(tenants, page.searchQuery, page.searchType, page.statusFilter) == tenants
  {
    BlankQueryKeepsAll(tenants, page.searchQuery, page.searchType);
  }
}
