/** The static data of the directory: the ordered category labels, with "All"
    as the no-filter sentinel, and the ordered list of resource records. */
module Catalog {

  /** A directory entry. The catalog never changes, so a record is a value. */
  datatype Resource = Resource(id: int, title: string, description: string, category: string, link: string)

  /** The sentinel category that disables the category filter. */
  const ALL: string := "All"

  const CATEGORIES: seq<string> := ["All", "Health", "Education", "Legal", "Finance", "Community"]

  const RESOURCES: seq<Resource> := [
    Resource(1, "Community Health Centers",
      "Find free and low-cost health services near you, including primary care and mental health support.",
      "Health", "#"),
    Resource(2, "Adult Education Programs",
      "Access ESL classes, GED preparation, and vocational training programs in your area.",
      "Education", "#"),
    Resource(3, "Free Legal Aid",
      "Connect with nonprofit legal clinics offering advice on immigration, housing, and family law.",
      "Legal", "#"),
    Resource(4, "Financial Literacy Resources",
      "Learn budgeting, saving, and how to access affordable banking and microloan programs.",
      "Finance", "#"),
    Resource(5, "Food Assistance Programs",
      "Locate food banks, meal programs, and SNAP enrollment help in your community.",
      "Community", "#"),
    Resource(6, "Mental Health Support",
      "Culturally sensitive counseling and peer support groups available in multiple languages.",
      "Health", "#")
  ]

  /** No label is listed twice. */
  predicate Distinct(s: seq<string>) {
    forall i, j :: 0 <= i < j < |s| ==> s[i] != s[j]
  }

  /** The data invariants of the catalog: distinct category labels that
      include "All", every record's category a real category (not "All"),
      and distinct identifiers. */
  predicate WellFormed(categories: seq<string>, resources: seq<Resource>) {
    && Distinct(categories)
    && ALL in categories
    && (forall i :: 0 <= i < |resources| ==> resources[i].category in categories && resources[i].category != ALL)
    && (forall i, j :: 0 <= i < j < |resources| ==> resources[i].id != resources[j].id)
  }

  lemma CategoriesDistinct(categories: seq<string>)
    requires categories == CATEGORIES
    ensures Distinct(categories) && ALL in categories
  {
    assert categories[0] == ALL;
  }

  lemma IdsArePositions(resources: seq<Resource>)
    requires resources == RESOURCES
    ensures forall i :: 0 <= i < |resources| ==> resources[i].id == i + 1
  {
  }

  lemma RecordCategories(resources: seq<Resource>)
    requires resources == RESOURCES
    ensures forall i :: 0 <= i < |resources| ==> resources[i].category in CATEGORIES[1..]
  {
  }

  /** The shipped catalog satisfies its data invariants. */
  lemma CatalogWellFormed()
    ensures WellFormed(CATEGORIES, RESOURCES)
  {
    CategoriesDistinct(CATEGORIES);
    IdsArePositions(RESOURCES);
    RecordCategories(RESOURCES);
    assert forall i :: 1 <= i < |CATEGORIES| ==> CATEGORIES[i] != ALL;
  }
}
