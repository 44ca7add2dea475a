# Rehbar directory browser — a Dafny model of its filtering and rendering core

Rehbar is a client-side directory of community resources. A fixed catalog
of records (title, description, category, link) is shown as cards. A row of
category chips picks one category, or "All". A search box filters by free
text. This project models the logic of its single script, `src/app.js`:

- **Html** (`html.dfy`): `escapeHtml`, kept as the chain of five global
  replacements in the source's order (`&` first). It is proved equal to
  escaping each character on its own. The output holds no `<`, `>`, `"`
  or `'`. Every `&` in it begins one of the five references. The escaper
  changes exactly the strings that hold a special character. Decoding the
  five references gives back the input.
- **Text** (`text.dfy`): `toLowerCase`, `trim` and `includes`, modelled
  on ASCII.
- **Catalog** (`catalog.dfy`): `CATEGORIES` and `RESOURCES` as constants,
  and the catalog's data invariants.
- **Filter** (`filter.dfy`): the predicate of `RESOURCES.filter`, stated
  over any catalog. The lemmas prove that it is sound and complete. They
  prove that it keeps catalog order and multiplicity, and what it returns
  for blank queries and unknown categories. They also prove that it is
  case-insensitive in the query and that filtering twice changes nothing.
- **View** (`view.dfy`): rendering as values, not markup. A chip is a label
  with an active mark. The resource region is either the distinct
  `NoResults` notice or a list of cards. A card holds the four escaped
  fields in template order.
- **Controller** (`controller.dfy`): the two module-level variables
  `activeCategory` and `searchQuery` as a class `Selection`. Its methods
  are the chip click, `doSearch` and the keydown guard. Each returns what
  it re-renders.
- **Scenarios** (`scenarios.dfy`): results on the shipped catalog for
  category-only selections.

The model's functions are pure. Re-rendering an unchanged selection
therefore yields the same chips and the same view by construction.

## Model

| member | source | states |
|---|---|---|
| Html.EscapeChar | src/app.js:58-62 | exactly the five special characters get a reference longer than one character, which starts with `&` and ends with `;`; every other character stays as it is |
| Html.ReplaceAllAppend | src/app.js:58 | one global `.replace` of a character distributes over concatenation |
| Html.EscapeHtmlAppend | src/app.js:56-63 | escaping the concatenation of two strings is the concatenation of their escapes |
| Html.EscapeHtmlChar | src/app.js:57-62 | on a single character, the ordered chain of five replacements yields that character's own reference and does not escape it twice |
| Html.EscapeHtmlAmp | src/app.js:58 | `&` becomes `&amp;`, and the later four replacements leave `&amp;` alone |
| Html.EscapeHtmlLt | src/app.js:59 | `<` becomes `&lt;`, never `&amp;lt;` |
| Html.EscapeHtmlGt | src/app.js:60 | `>` becomes `&gt;` |
| Html.EscapeHtmlQuot | src/app.js:61 | `"` becomes `&quot;` |
| Html.EscapeHtmlApos | src/app.js:62 | `'` becomes `&#39;` |
| Html.EscapeHtmlIsPerCharacter | src/app.js:56-63 | the chain of replacements, `&` first, equals escaping every character independently |
| Html.EscapeHtmlNoMarkup | src/app.js:56-63 | the output never contains `<`, `>`, `"` or `'` |
| Html.EscapeHtmlAmpersandsAreEntities | src/app.js:56-63 | every `&` in the output begins one of `&amp;`, `&lt;`, `&gt;`, `&quot;`, `&#39;` |
| Html.EscapeHtmlIdentity | src/app.js:56-63 | the output equals the input if and only if the input holds none of the five special characters |
| Html.EscapeHtmlLength | src/app.js:56-63 | the output is at least as long as the input and at most six times as long |
| Html.UnescapeFront | src/app.js:58-62 | decoding a character's reference at the front of a string yields that character, followed by the decoding of the rest |
| Html.EscapeHtmlRoundTrip | src/app.js:56-63 | decoding the five references in the output gives back the input exactly, so escaping loses nothing |
| Html.EscapeBracketed | src/app.js:59-60 | text between angle brackets comes out as `&lt;`, then the escaped text, then `&gt;` |
| Html.EscapeScriptTag | src/app.js:56-63 | `<script>` becomes `&lt;script&gt;` |
| Html.AmpersandFirst | src/app.js:58-59 | running the `<` replacement before the `&` one would turn `<` into `&amp;lt;`; this is why the source replaces `&` first |
| Text.LowerChar | src/app.js:83 | case folding maps `A`..`Z` to `a`..`z`, leaves every other character alone, and never yields an upper-case letter |
| Text.TrimStart | src/app.js:83 | the result is a suffix of the input; everything removed is whitespace; the result is empty or starts with a non-whitespace character |
| Text.TrimEnd | src/app.js:83 | the result is a prefix of the input; everything removed is whitespace; the result is empty or ends with a non-whitespace character |
| Text.TrimSpec | src/app.js:83 | the trimmed string is a contiguous part of the input, all of the input around it is whitespace, and it neither begins nor ends with whitespace |
| Text.TrimNoEdges | src/app.js:83 | a string that neither begins nor ends with whitespace is its own trim |
| Text.TrimEmptyIff | src/app.js:83 | trimming yields the empty string if and only if the input is all whitespace |
| Text.ToLowerIdempotent | src/app.js:83 | lowering an already lowered string changes nothing |
| Text.ToLowerAllSpace | src/app.js:83 | case folding neither creates nor removes whitespace |
| Text.BlankIffAllSpace | src/app.js:83-88 | the lowered, trimmed query is empty (so `!query` holds) if and only if the raw query is empty or whitespace-only |
| Text.ContainsIff | src/app.js:89-91 | `includes` holds if and only if the needle occurs at some position of the hay |
| Catalog.CatalogWellFormed | src/app.js:6-51 | category labels are distinct and include "All"; every record's category is a real category other than "All"; record ids are distinct |
| Filter.FilterWith | src/app.js:85-93 | a record is kept if and only if it is in the catalog and satisfies both the category and the search predicate; the result is no longer than the catalog |
| Filter.FilterResources | src/app.js:83-93 | soundness and completeness: a record is shown if and only if it is in the catalog, its category matches (`All`, or equal), and the lowered, trimmed query is empty or occurs in the lowered title, description or category |
| Filter.OfCategory | src/app.js:86 | reference selection by category alone: a record is in it if and only if it is in the catalog with that category |
| Filter.FilterIsSubsequence | src/app.js:85-93 | the result is a subsequence of the catalog, in catalog order |
| Filter.FilterMultiplicity | src/app.js:85-93 | a kept record occurs as often as in the catalog and a rejected one not at all, so no duplicates are introduced |
| Filter.FilterBlankQuery | src/app.js:83-88 | with an empty or whitespace-only query the result is the whole catalog under "All" and otherwise exactly the records of the active category, in order |
| Filter.FilterUnknownCategory | src/app.js:86 | a category that is not "All" and that no record has gives an empty result, whatever the query |
| Filter.FilterIgnoresQueryCase | src/app.js:83-91 | lowering the raw query first does not change the result |
| Filter.FilterIdempotent | src/app.js:85-93 | filtering the result again with the same selection gives the same result |
| View.RenderChips | src/app.js:67-70 | one chip per category, in order, with that category's label; a chip is marked active if and only if its label equals the active category |
| View.ChipsActiveLabels | src/app.js:67-70 | with distinct labels, the marked chips are exactly the active category's chip when it is a label, and none otherwise |
| View.RenderCards | src/app.js:100-111 | one card per filtered record, in filtered order; each card is that record's card |
| View.RenderResources | src/app.js:95-100 | the region shows the "no results" notice if and only if nothing was filtered; otherwise it shows as many cards as records |
| View.RenderCardFaithful | src/app.js:102-109 | every field of a card is free of `<`, `>`, `"` and `'`, and decodes back to the record's category, title, description and link |
| View.RenderResourcesFaithful | src/app.js:95-111 | for a non-empty result, every card is free of markup characters and shows, at each position, the filtered record at that position |
| Controller.UnknownCategoryShowsNotice | src/app.js:86-98 | a category that is not "All" and that no record has leads to the "no results" notice instead of cards |
| Controller.Selection.constructor | src/app.js:53-54 | the initial state is category "All" and the empty query, over the shipped catalog, and the state invariant holds |
| Controller.Selection.RenderCategories | src/app.js:65-70 | the chips are those for the current selection, and exactly the active category's chip is marked |
| Controller.Selection.RenderResources | src/app.js:81-112 | the region is the one rendered from the filtered records for the current state, and it is the notice exactly when the filtered records are empty |
| Controller.Selection.SelectCategory | src/app.js:73-77 | a chip click sets `activeCategory` to the chip's label, keeps `searchQuery` and the invariant, and re-renders the chips (only the clicked one marked) and the resources |
| Controller.Selection.Search | src/app.js:118-121 | `searchQuery` becomes the raw input value verbatim and untrimmed; `activeCategory` is kept; the resources are re-rendered for the new query |
| Controller.Selection.KeyDown | src/app.js:124-126 | the Enter key acts as a search with the input value; any other key changes nothing and re-renders nothing |
| Controller.Init | src/app.js:129-133 | start-up creates the state over `CATEGORIES` and `RESOURCES` with category "All" and the empty query, renders one chip per category in order with only "All" marked, and renders cards for the whole catalog in order |
| Scenarios.FinanceScenario | src/app.js:30-36 | category "Finance" with an empty query shows exactly record 4 |
| Scenarios.EducationScenario | src/app.js:16-22 | category "Education" with an empty query shows exactly record 2 |
| Scenarios.ClickEducation | src/app.js:73-77 | from the initial state, a click on "Education" marks that chip alone and shows record 2 alone |

## Design notes

- `escapeHtml` applies five `String.replace` calls with global regular
  expressions. Each call is one left-to-right pass that does not scan
  its own replacement again. `ReplaceAll` models one such pass.
- The chip labels are put into the markup without escaping. The model
  keeps each chip's label raw for that reason. Every label comes from
  the fixed `CATEGORIES`.
- A chip click can only carry a label from `CATEGORIES`: listeners are
  attached only to the rendered chips. So `SelectCategory` requires its
  label to be one of the categories. This keeps the invariant that
  `activeCategory` is a category.
- `Selection` keeps `CATEGORIES` and `RESOURCES` in two constant fields,
  set by its constructor. The source's handlers read the same two
  constants.
- Each handler returns what it re-renders. A chip click returns the chips
  and the resource region. A search returns the resource region. A key
  other than Enter returns nothing.

## Left out

- DOM access is not modelled: element lookup, `innerHTML` assignment,
  `querySelectorAll`, `addEventListener`, `dataset` and the
  `DOMContentLoaded` hookup. Rendering returns a value instead of writing
  to a container.
- The markup text is not modelled byte for byte: the card template's
  whitespace, the fixed "Learn more &rarr;" text, the chip markup and the
  wording of the no-results notice. Cards, chips and the notice are
  modelled by their structure.
- `toLowerCase` and `trim` are approximated on ASCII. Only `A`..`Z` are
  folded. Only space and U+0009..U+000D count as whitespace. The full
  Unicode mappings and the Unicode whitespace that `trim` also removes
  are not modelled.
- `String(str)` in `escapeHtml` is not modelled: every value passed to it
  is already a string.
- There is no concurrency or event loop to model. Each handler is one
  method that runs to completion.
- Concrete search examples on the shipped catalog are not stated as
  lemmas of their own: "health" under "All", "ESL" under "Education" and
  "zzz-no-match" under "Legal". Each one turns on whether a needle occurs
  in one of the long description literals. The model leaves these cases
  to the general Filter lemmas, which state the same outcome for any
  catalog: `Filter.FilterResources` says which records are shown, and
  `Filter.FilterIsSubsequence` says they keep catalog order.
