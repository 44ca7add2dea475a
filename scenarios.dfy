/** The behaviour on the shipped catalog for a few concrete selections. */
module Scenarios {
  import opened Text
  import opened Catalog
  import opened Filter
  import opened View
  import opened Controller

  lemma {:induction false} OfCategoryNone(catalog: seq<Resource>, category: string)
    requires forall i :: 0 <= i < |catalog| ==> catalog[i].category != category
    ensures OfCategory(catalog, category) == []
  {
    if catalog != [] {
      OfCategoryNone(catalog[1..], category);
    }
  }

  /** A category held by exactly one record selects that record alone. */
  lemma {:induction false} OfCategoryOne(catalog: seq<Resource>, category: string, k: nat)
    requires k < |catalog| && catalog[k].category == category
    requires forall i :: 0 <= i < |catalog| && i != k ==> catalog[i].category != category
    ensures OfCategory(catalog, category) == [catalog[k]]
  {
    if k == 0 {
      OfCategoryNone(catalog[1..], category);
    } else {
      OfCategoryOne(catalog[1..], category, k - 1);
    }
  }

  /** With an empty query, a category held by the record at k alone shows that record alone. */
  lemma ShowsOnly(catalog: seq<Resource>, category: string, k: nat)
    requires category != ALL && k < |catalog| && catalog[k].category == category
    requires forall i :: 0 <= i < |catalog| && i != k ==> catalog[i].category != category
    ensures FilterResources(catalog, category, "") == [catalog[k]]
  {
    FilterBlankQuery(catalog, category, "");
    OfCategoryOne(catalog, category, k);
  }

  /** The categories of the shipped records, in order. */
  lemma ResourceCategories(catalog: seq<Resource>)
    requires catalog == RESOURCES
    ensures |catalog| == 6
    ensures catalog[0].category == "Health" && catalog[1].category == "Education"
    ensures catalog[2].category == "Legal" && catalog[3].category == "Finance"
    ensures catalog[4].category == "Community" && catalog[5].category == "Health"
  {
  }

  /** In the shipped catalog only the record at position k has category c. */
  lemma OnlyRecordOf(catalog: seq<Resource>, c: string, k: nat)
    requires catalog == RESOURCES
    requires (c, k) in {("Education", 1), ("Legal", 2), ("Finance", 3), ("Community", 4)}
    ensures k < |catalog| && catalog[k].category == c
    ensures forall i :: 0 <= i < |catalog| && i != k ==> catalog[i].category != c
  {
    ResourceCategories(catalog);
  }

  /** Category "Finance" with an empty query shows exactly record 4. */
  lemma FinanceScenario()
    ensures FilterResources(RESOURCES, "Finance", "") == [RESOURCES[3]]
    ensures RESOURCES[3].id == 4
  {
    OnlyRecordOf(RESOURCES, "Finance", 3);
    ShowsOnly(RESOURCES, "Finance", 3);
  }

  /** Category "Education" with an empty query shows exactly record 2. */
  lemma EducationScenario()
    ensures FilterResources(RESOURCES, "Education", "") == [RESOURCES[1]]
    ensures RESOURCES[1].id == 2
  {
    OnlyRecordOf(RESOURCES, "Education", 1);
    ShowsOnly(RESOURCES, "Education", 1);
  }

  /** From the initial state, a click on the "Education" chip marks that
      chip alone as active and shows record 2 alone. */
  method ClickEducation() returns (chips: seq<Chip>, view: ResourcesView)
    ensures ActiveLabels(chips) == ["Education"]
    ensures view == View.RenderResources([RESOURCES[1]])
  {
    var s := new Selection();
    chips, view := s.SelectCategory("Education");
    EducationScenario();
  }
}
