/** The selection state and its event handlers: a chip click sets the active
    category and re-renders both regions, a search submit (the button or the
    Enter key) stores the raw input and re-renders the resource region. */
module Controller {
  import opened Catalog
  import opened Filter
  import opened View

  /** What a handler re-renders, if anything. */
  datatype Option<T> = None | Some(value: T)

  /** The resource region for a selection. */
  function ResourcesFor(resources: seq<Resource>, activeCategory: string, searchQuery: string): ResourcesView {
    View.RenderResources(FilterResources(resources, activeCategory, searchQuery))
  }

  /** A category that is not "All" and that no record has leads to the
      "no results" notice instead of cards, whatever the query. */
  lemma UnknownCategoryShowsNotice(resources: seq<Resource>, activeCategory: string, searchQuery: string)
    requires activeCategory != ALL
    requires forall i :: 0 <= i < |resources| ==> resources[i].category != activeCategory
    ensures ResourcesFor(resources, activeCategory, searchQuery) == NoResults
  {
    FilterUnknownCategory(resources, activeCategory, searchQuery);
  }

  /** The module-level `activeCategory` and `searchQuery`, beside the fixed
      `CATEGORIES` and `RESOURCES` they are read with. */
  class Selection {
    const categories: seq<string>
    const resources: seq<Resource>
    var activeCategory: string
    var searchQuery: string

    /** The catalog is well formed and the active category is always one of
        the chips' labels. */
    ghost predicate Valid()
      reads this
    {
      WellFormed(categories, resources) && activeCategory in categories
    }

    /** The initial state: no category filter, empty query. */
    constructor ()
      ensures Valid()
      ensures categories == CATEGORIES && resources == RESOURCES
      ensures activeCategory == ALL && searchQuery == ""
    {
      categories := CATEGORIES;
      resources := RESOURCES;
      activeCategory := ALL;
      searchQuery := "";
      CatalogWellFormed();
    }

    /** `renderCategories`: exactly the chip of the active category is marked. */
    method RenderCategories() returns (chips: seq<Chip>)
      requires Valid()
      ensures chips == RenderChips(categories, activeCategory)
      ensures ActiveLabels(chips) == [activeCategory]
    {
      chips := RenderChips(categories, activeCategory);
      ChipsActiveLabels(categories, activeCategory);
    }

    /** `renderResources`: the filtered catalog, or the notice when nothing matches. */
    method RenderResources() returns (view: ResourcesView)
      ensures view == ResourcesFor(resources, activeCategory, searchQuery)
      ensures view.NoResults? <==> FilterResources(resources, activeCategory, searchQuery) == []
    {
      view := ResourcesFor(resources, activeCategory, searchQuery);
    }

    /** A click on the chip labelled c. */
    method SelectCategory(c: string) returns (chips: seq<Chip>, view: ResourcesView)
      requires Valid() && c in categories
      modifies this
      ensures Valid()
      ensures activeCategory == c && searchQuery == old(searchQuery)
      ensures ActiveLabels(chips) == [c]
      ensures chips == RenderChips(categories, c)
      ensures view == ResourcesFor(resources, c, searchQuery)
    {
      activeCategory := c;
      chips := RenderCategories();
      view := RenderResources();
    }

    /** `doSearch`: the raw input value, untrimmed, becomes the query. */
    method Search(inputValue: string) returns (view: ResourcesView)
      requires Valid()
      modifies this
      ensures Valid()
      ensures searchQuery == inputValue && activeCategory == old(activeCategory)
      ensures view == ResourcesFor(resources, activeCategory, inputValue)
    {
      searchQuery := inputValue;
      view := RenderResources();
    }

    /** A key press in the search input: only Enter submits. */
    method KeyDown(key: string, inputValue: string) returns (view: Option<ResourcesView>)
      requires Valid()
      modifies this
      ensures Valid()
      ensures key == "Enter" ==>
        searchQuery == inputValue && activeCategory == old(activeCategory)
        && view == Some(ResourcesFor(resources, activeCategory, inputValue))
      ensures key != "Enter" ==> unchanged(this) && view == None
    {
      if key == "Enter" {
        var v := Search(inputValue);
        view := Some(v);
      } else {
        view := None;
      }
    }
  }

  /** `init`: the initial state with both regions rendered; the whole catalog is shown. */
  method Init() returns (s: Selection, chips: seq<Chip>, view: ResourcesView)
    ensures fresh(s) && s.Valid()
    ensures s.categories == CATEGORIES && s.resources == RESOURCES
    ensures s.activeCategory == ALL && s.searchQuery == ""
    ensures chips == RenderChips(CATEGORIES, ALL)
    ensures ActiveLabels(chips) == [ALL]
    ensures view == Cards(RenderCards(RESOURCES))
  {
    s := new Selection();
    chips := s.RenderCategories();
    view := s.RenderResources();
    FilterBlankQuery(RESOURCES, ALL, "");
  }
}
