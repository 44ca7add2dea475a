/** What the two renderers produce, as values rather than markup: one chip per
    category with its active mark, and either the "no results" notice or one
    card per filtered record whose fields are escaped. */
module View {
  import opened Text
  import opened Html
  import opened Catalog

  /** A category chip: its label, written into the markup unescaped as the
      source does, and whether it carries the active mark. */
  datatype Chip = Chip(category: string, active: bool)

  /** A resource card: the category tag, the title, the description and the
      link target, in template order, each already escaped. */
  datatype Card = Card(tag: string, title: string, description: string, href: string)

  /** The resource region: the distinct empty-result notice, or the cards. */
  datatype ResourcesView = NoResults | Cards(cards: seq<Card>)

  /** The chip row for the given category labels. */
  function RenderChips(categories: seq<string>, active: string): (chips: seq<Chip>)
    ensures |chips| == |categories|
    ensures forall i :: 0 <= i < |chips| ==>
      chips[i].category == categories[i] && (chips[i].active <==> categories[i] == active)
  {
    if categories == [] then []
    else [Chip(categories[0], categories[0] == active)] + RenderChips(categories[1..], active)
  }

  /** The labels of the chips that carry the active mark, in order. */
  function ActiveLabels(chips: seq<Chip>): seq<string> {
    if chips == [] then []
    else (if chips[0].active then [chips[0].category] else []) + ActiveLabels(chips[1..])
  }

  /** The card for one record: every field passed through escaping. */
  function RenderCard(r: Resource): Card {
    Card(EscapeHtml(r.category), EscapeHtml(r.title), EscapeHtml(r.description), EscapeHtml(r.link))
  }

  function RenderCards(filtered: seq<Resource>): (cards: seq<Card>)
    ensures |cards| == |filtered|
    ensures forall i :: 0 <= i < |cards| ==> cards[i] == RenderCard(filtered[i])
  {
    if filtered == [] then [] else [RenderCard(filtered[0])] + RenderCards(filtered[1..])
  }

  /** The resource region for the filtered records. */
  function RenderResources(filtered: seq<Resource>): (view: ResourcesView)
    ensures view.NoResults? <==> filtered == []
    ensures view.Cards? ==> |view.cards| == |filtered|
  {
    if |filtered| == 0 then NoResults else Cards(RenderCards(filtered))
  }

  /** No character that can open or close a tag or an attribute value. */
  predicate MarkupFree(s: string) {
    '<' !in s && '>' !in s && '"' !in s && '\'' !in s
  }

  predicate CardIsSafe(c: Card) {
    MarkupFree(c.tag) && MarkupFree(c.title) && MarkupFree(c.description) && MarkupFree(c.href)
  }

  /** Reading a card's fields back through Unescape gives the record's fields. */
  predicate ShowsRecord(c: Card, r: Resource) {
    && Unescape(c.tag) == r.category
    && Unescape(c.title) == r.title
    && Unescape(c.description) == r.description
    && Unescape(c.href) == r.link
  }

  /** Labels that occur once: exactly the chip of the active category is marked,
      and no chip at all when the active category is not among them. */
  lemma {:induction false} ChipsActiveLabels(categories: seq<string>, active: string)
    requires Distinct(categories)
    ensures ActiveLabels(RenderChips(categories, active)) == if active in categories then [active] else []
  {
    if categories != [] {
      var chips := RenderChips(categories, active);
      assert chips[1..] == RenderChips(categories[1..], active);
      assert Distinct(categories[1..]);
      ChipsActiveLabels(categories[1..], active);
      if categories[0] == active {
        assert active !in categories[1..];
      }
    }
  }

  /** The card of a record never contains raw markup characters and decodes
      to the record's category, title, description and link. */
  lemma RenderCardFaithful(r: Resource)
    ensures CardIsSafe(RenderCard(r)) && ShowsRecord(RenderCard(r), r)
  {
    EscapeHtmlNoMarkup(r.category);
    EscapeHtmlNoMarkup(r.title);
    EscapeHtmlNoMarkup(r.description);
    EscapeHtmlNoMarkup(r.link);
    EscapeHtmlRoundTrip(r.category);
    EscapeHtmlRoundTrip(r.title);
    EscapeHtmlRoundTrip(r.description);
    EscapeHtmlRoundTrip(r.link);
  }

  /** Every card shown is safe and shows, at its position, the filtered record
      at that position. */
  lemma RenderResourcesFaithful(filtered: seq<Resource>)
    requires filtered != []
    ensures var view := RenderResources(filtered);
      view.Cards? && |view.cards| == |filtered|
      && forall i :: 0 <= i < |filtered| ==> CardIsSafe(view.cards[i]) && ShowsRecord(view.cards[i], filtered[i])
  {
    forall i | 0 <= i < |filtered|
      ensures CardIsSafe(RenderCard(filtered[i])) && ShowsRecord(RenderCard(filtered[i]), filtered[i])
    {
      RenderCardFaithful(filtered[i]);
    }
  }
}
