/** The filter engine of `renderResources`: which catalog records are shown
    for a category selection and a search string. */
module Filter {
  import opened Text
  import opened Catalog

  /** The category half of the predicate: "All" keeps everything. */
  predicate MatchesCategory(r: Resource, active: string) {
    active == ALL || r.category == active
  }

  /** The query as the search uses it: folded to lower case, then trimmed. */
  function NormalizeQuery(searchQuery: string): string {
    Trim(ToLower(searchQuery))
  }

  /** The search half of the predicate, for an already normalised query: an
      empty query keeps everything, otherwise it must occur in the folded
      title, description or category. */
  predicate MatchesSearch(r: Resource, query: string) {
    || query == []
    || Contains(ToLower(r.title), query)
    || Contains(ToLower(r.description), query)
    || Contains(ToLower(r.category), query)
  }

  predicate Keep(r: Resource, active: string, query: string) {
    MatchesCategory(r, active) && MatchesSearch(r, query)
  }

  /** xs is obtained from ys by leaving out some entries, the rest in order. */
  predicate IsSubsequence<T(==)>(xs: seq<T>, ys: seq<T>)
    decreases |ys|
  {
    || xs == []
    || (ys != [] && ((xs[0] == ys[0] && IsSubsequence(xs[1..], ys[1..])) || IsSubsequence(xs, ys[1..])))
  }

  /** `Array.filter` with the predicate for one normalised query: keeps, in
      catalog order, exactly the records that satisfy Keep. */
  function FilterWith(catalog: seq<Resource>, active: string, query: string): (kept: seq<Resource>)
    ensures |kept| <= |catalog|
    ensures forall r :: r in kept <==> r in catalog && Keep(r, active, query)
  {
    if catalog == [] then []
    else
      (if Keep(catalog[0], active, query) then [catalog[0]] else [])
      + FilterWith(catalog[1..], active, query)
  }

  /** The records shown for a category selection and a raw search string. */
  function FilterResources(catalog: seq<Resource>, activeCategory: string, searchQuery: string): (filtered: seq<Resource>)
    ensures forall r :: r in filtered <==>
      r in catalog && MatchesCategory(r, activeCategory) && MatchesSearch(r, NormalizeQuery(searchQuery))
  {
    FilterWith(catalog, activeCategory, NormalizeQuery(searchQuery))
  }

  /** Reference for a blank query: the records of one category, in order. */
  function OfCategory(catalog: seq<Resource>, category: string): (rs: seq<Resource>)
    ensures forall r :: r in rs <==> r in catalog && r.category == category
  {
    if catalog == [] then []
    else (if catalog[0].category == category then [catalog[0]] else []) + OfCategory(catalog[1..], category)
  }

  lemma {:induction false} FilterWithSubsequence(catalog: seq<Resource>, active: string, query: string)
    ensures IsSubsequence(FilterWith(catalog, active, query), catalog)
  {
    if catalog != [] {
      var rest := FilterWith(catalog[1..], active, query);
      FilterWithSubsequence(catalog[1..], active, query);
      if Keep(catalog[0], active, query) {
        assert FilterWith(catalog, active, query) == [catalog[0]] + rest;
        assert ([catalog[0]] + rest)[1..] == rest;
      } else {
        assert FilterWith(catalog, active, query) == rest;
      }
    }
  }

  /** The result lists catalog records in catalog order (`Array.filter` keeps order). */
  lemma FilterIsSubsequence(catalog: seq<Resource>, activeCategory: string, searchQuery: string)
    ensures IsSubsequence(FilterResources(catalog, activeCategory, searchQuery), catalog)
  {
    FilterWithSubsequence(catalog, activeCategory, NormalizeQuery(searchQuery));
  }

  lemma {:induction false} FilterWithMultiplicity(catalog: seq<Resource>, active: string, query: string, r: Resource)
    ensures multiset(FilterWith(catalog, active, query))[r] ==
      if Keep(r, active, query) then multiset(catalog)[r] else 0
  {
    if catalog != [] {
      FilterWithMultiplicity(catalog[1..], active, query, r);
      assert catalog == [catalog[0]] + catalog[1..];
      assert multiset(catalog) == multiset([catalog[0]]) + multiset(catalog[1..]);
    }
  }

  /** A kept record appears exactly as often as in the catalog (no duplicates
      introduced, none lost), a rejected one not at all. */
  lemma FilterMultiplicity(catalog: seq<Resource>, activeCategory: string, searchQuery: string, r: Resource)
    ensures multiset(FilterResources(catalog, activeCategory, searchQuery))[r] ==
      if MatchesCategory(r, activeCategory) && MatchesSearch(r, NormalizeQuery(searchQuery))
      then multiset(catalog)[r] else 0
  {
    FilterWithMultiplicity(catalog, activeCategory, NormalizeQuery(searchQuery), r);
  }

  lemma {:induction false} FilterWithEmptyQuery(catalog: seq<Resource>, active: string)
    ensures FilterWith(catalog, active, []) == if active == ALL then catalog else OfCategory(catalog, active)
  {
    if catalog != [] {
      FilterWithEmptyQuery(catalog[1..], active);
      assert Keep(catalog[0], active, []) <==> MatchesCategory(catalog[0], active);
      if active == ALL {
        assert catalog == [catalog[0]] + catalog[1..];
      }
    }
  }

  /** With an empty or whitespace-only query the result is the whole catalog
      under "All", and otherwise exactly the records of the active category. */
  lemma FilterBlankQuery(catalog: seq<Resource>, activeCategory: string, searchQuery: string)
    requires AllSpace(searchQuery)
    ensures FilterResources(catalog, activeCategory, searchQuery) ==
      if activeCategory == ALL then catalog else OfCategory(catalog, activeCategory)
  {
    BlankIffAllSpace(searchQuery);
    FilterWithEmptyQuery(catalog, activeCategory);
  }

  lemma {:induction false} FilterWithNoCategory(catalog: seq<Resource>, active: string, query: string)
    requires active != ALL && forall i :: 0 <= i < |catalog| ==> catalog[i].category != active
    ensures FilterWith(catalog, active, query) == []
  {
    if catalog != [] {
      FilterWithNoCategory(catalog[1..], active, query);
    }
  }

  /** A category that is not "All" and that no record has selects nothing,
      whatever the query. */
  lemma FilterUnknownCategory(catalog: seq<Resource>, activeCategory: string, searchQuery: string)
    requires activeCategory != ALL
    requires forall i :: 0 <= i < |catalog| ==> catalog[i].category != activeCategory
    ensures FilterResources(catalog, activeCategory, searchQuery) == []
  {
    FilterWithNoCategory(catalog, activeCategory, NormalizeQuery(searchQuery));
  }

  /** The search is case-insensitive: folding the raw query first changes nothing. */
  lemma FilterIgnoresQueryCase(catalog: seq<Resource>, activeCategory: string, searchQuery: string)
    ensures FilterResources(catalog, activeCategory, ToLower(searchQuery))
         == FilterResources(catalog, activeCategory, searchQuery)
  {
    ToLowerIdempotent(searchQuery);
  }

  lemma {:induction false} FilterWithAllKept(rs: seq<Resource>, active: string, query: string)
    requires forall i :: 0 <= i < |rs| ==> Keep(rs[i], active, query)
    ensures FilterWith(rs, active, query) == rs
  {
    if rs != [] {
      FilterWithAllKept(rs[1..], active, query);
      assert rs == [rs[0]] + rs[1..];
    }
  }

  lemma FilterWithIdempotent(catalog: seq<Resource>, active: string, query: string)
    ensures FilterWith(FilterWith(catalog, active, query), active, query) == FilterWith(catalog, active, query)
  {
    var kept := FilterWith(catalog, active, query);
    assert forall i :: 0 <= i < |kept| ==> kept[i] in kept;
    FilterWithAllKept(kept, active, query);
  }

  /** Filtering again with the same selection shows the same records. */
  lemma FilterIdempotent(catalog: seq<Resource>, activeCategory: string, searchQuery: string)
    ensures FilterResources(FilterResources(catalog, activeCategory, searchQuery), activeCategory, searchQuery)
         == FilterResources(catalog, activeCategory, searchQuery)
  {
    FilterWithIdempotent(catalog, activeCategory, NormalizeQuery(searchQuery));
  }
}
