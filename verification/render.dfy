/**
 * `render_index`: the card-grid page of one language. The page is built as
 * the list `lines` the script appends to, then joined with newlines.
 */
module Render {
  import opened Wrappers
  import opened Strings
  import opened Metadata
  import opened Catalog

  /** One language's fixed texts (an entry of `UI`). */
  datatype Ui = Ui(
    title: string,
    subtitle: string,
    open: string,
    servings: string,
    prep: string,
    cook: string,
    level: string,
    noCover: string)

  /** `UI`: the texts of every language an index is generated for. */
  const UiTable: map<string, Ui> := map[
    "de" := Ui("Rezepte", "Wähle ein Gericht aus oder nutze die Suche.", ":arrow_right: Zum Rezept",
               "Portionen", "Vorbereitung", "Kochen", "Level", "Kein Bild"),
    "en" := Ui("Recipes", "Pick a dish or use search.", ":arrow_right: Open recipe",
               "Servings", "Prep", "Cook", "Level", "No image")]

  /** The separator between the facets of a card. */
  const Separator: string := " · "

  /** The line that opens the card grid. */
  const GridOpen: string := "<div class=\"grid cards\" markdown>\n"

  /** The line that closes the card grid. */
  const GridClose: string := "</div>\n"

  /** One facet, `**<caption>:** <value>`. */
  function Chip(caption: string, v: Value): (r: string)
    ensures |r| > 2 && r[..2] == "**"
    ensures |caption| > 0 ==> r[2] == caption[0]
  {
    "**" + caption + ":** " + Str(v)
  }

  /** `meta_bits`: servings, prep, cook and level, each only when its value is truthy. */
  function FacetBits(ui: Ui, it: Item): (r: seq<string>)
  {
    (if Truthy(it.portions) then [Chip(ui.servings, it.portions)] else []) +
    (if Truthy(it.timePrep) then [Chip(ui.prep, it.timePrep)] else []) +
    (if Truthy(it.timeCook) then [Chip(ui.cook, it.timeCook)] else []) +
    (if Truthy(it.difficulty) then [Chip(ui.level, it.difficulty)] else [])
  }

  /** `meta_line`: the facets joined by the separator, or nothing. */
  function FacetLine(ui: Ui, it: Item): (r: string)
  {
    var bits := FacetBits(ui, it);
    if |bits| > 0 then Join(bits, Separator) else ""
  }

  /** The cover image, or the language's "no image" text when the cover is missing or empty. */
  function CoverText(ui: Ui, it: Item): (r: string)
  {
    if it.cover.Some? && it.cover.value != "" then "![](" + it.cover.value + ")" else ui.noCover
  }

  /** The card's first line: the cover image or the "no image" text. */
  function CoverLine(ui: Ui, it: Item): (r: string)
  {
    "- " + CoverText(ui, it) + "  \n"
  }

  /** The card's second line: the title in bold. */
  function TitleLine(it: Item): (r: string)
  {
    "  **" + it.title + "**  \n"
  }

  /** The card's third line: the facets. */
  function MetaLine(ui: Ui, it: Item): (r: string)
  {
    "  " + FacetLine(ui, it) + "  \n"
  }

  /** The card's last line: the call to action linking to the recipe. */
  function LinkLine(ui: Ui, it: Item): (r: string)
  {
    "  [" + ui.open + "](" + it.link + ")"
  }

  /** One card: its four lines, in this order, as one list entry. */
  function Card(ui: Ui, it: Item): (r: string)
  {
    CoverLine(ui, it) + TitleLine(it) + MetaLine(ui, it) + LinkLine(ui, it)
  }

  /** The heading, the subtitle and the opening of the grid. */
  function Header(ui: Ui): (r: seq<string>)
  {
    ["# " + ui.title + "\n", ui.subtitle + "\n", GridOpen]
  }

  /** Each element's text followed by an empty line, in order. */
  function Spaced<T>(items: seq<T>, text: T -> string): (r: seq<string>)
  {
    if items == [] then []
    else Spaced(items[..|items| - 1], text) + [text(items[|items| - 1]), ""]
  }

  /** A card and an empty line per item, in order. */
  function Cards(ui: Ui, items: seq<Item>): (r: seq<string>)
  {
    Spaced(items, it => Card(ui, it))
  }

  /** The whole of `lines` for a list of items. */
  function IndexLines(ui: Ui, items: seq<Item>): (r: seq<string>)
  {
    Header(ui) + Cards(ui, items) + [GridClose]
  }

  /** The body of `render_index`'s loop for one item: the facets are appended one by one, then the card is assembled. */
  method RenderCard(ui: Ui, it: Item) returns (card: string)
    ensures card == Card(ui, it)
  {
    var bits: seq<string> := [];
    if Truthy(it.portions) {
      bits := bits + [Chip(ui.servings, it.portions)];
    }
    if Truthy(it.timePrep) {
      bits := bits + [Chip(ui.prep, it.timePrep)];
    }
    if Truthy(it.timeCook) {
      bits := bits + [Chip(ui.cook, it.timeCook)];
    }
    if Truthy(it.difficulty) {
      bits := bits + [Chip(ui.level, it.difficulty)];
    }
    assert bits == FacetBits(ui, it);
    var metaLine := if |bits| > 0 then Join(bits, Separator) else "";
    var cover := if it.cover.Some? && it.cover.value != "" then "![](" + it.cover.value + ")" else ui.noCover;
    var line1 := "- " + cover + "  \n";
    var line2 := "  **" + it.title + "**  \n";
    var line3 := "  " + metaLine + "  \n";
    var line4 := "  [" + ui.open + "](" + it.link + ")";
    assert line1 == CoverLine(ui, it) && line3 == MetaLine(ui, it);
    card := line1 + line2 + line3 + line4;
  }

  /** `render_index`'s list `lines` for the texts `ui`: header, one card and an empty line per item, closing. */
  method RenderLines(ui: Ui, items: seq<Item>) returns (lines: seq<string>)
    ensures lines == IndexLines(ui, items)
  {
    lines := [];
    lines := lines + ["# " + ui.title + "\n"];
    lines := lines + [ui.subtitle + "\n"];
    lines := lines + [GridOpen];
    for i := 0 to |items|
      invariant lines == Header(ui) + Cards(ui, items[..i])
    {
      var card := RenderCard(ui, items[i]);
      ghost var old_lines := lines;
      lines := lines + [card];
      lines := lines + [""];
      SpacedExtend(Header(ui), items, i, it => Card(ui, it), old_lines, card);
    }
    assert items[..|items|] == items;
    lines := lines + [GridClose];
  }

  /** `render_index(lang, items)`: the lines for the language's texts, joined by newlines. */
  method RenderIndex(lang: string, items: seq<Item>) returns (text: string)
    requires lang in UiTable
    ensures text == Join(IndexLines(UiTable[lang], items), "\n")
    ensures var ui := UiTable[lang];
      StartsWith(text, "# " + ui.title + "\n" + "\n" + ui.subtitle + "\n" + "\n" + GridOpen)
    ensures EndsWith(text, "\n" + GridClose)
  {
    var ui := UiTable[lang];
    var lines := RenderLines(ui, items);
    text := Join(lines, "\n");
    JoinFrame(ui, Cards(ui, items));
  }

  /** How the joined page begins and ends, whatever the cards. */
  lemma JoinFrame(ui: Ui, cards: seq<string>)
    ensures var text := Join(Header(ui) + cards + [GridClose], "\n");
      && StartsWith(text, "# " + ui.title + "\n" + "\n" + ui.subtitle + "\n" + "\n" + GridOpen)
      && EndsWith(text, "\n" + GridClose)
  {
    JoinEnds("# " + ui.title + "\n", ui.subtitle + "\n", GridOpen, cards, GridClose, "\n");
  }

  /** Appending the next element's text and an empty line extends the spaced texts by that element. */
  lemma SpacedExtend<T>(head: seq<string>, items: seq<T>, i: nat, text: T -> string, lines: seq<string>, t: string)
    requires i < |items| && lines == head + Spaced(items[..i], text) && t == text(items[i])
    ensures lines + [t] + [""] == head + Spaced(items[..i + 1], text)
  {
    assert items[..i + 1][..i] == items[..i];
  }

  /** Where each text sits: the text of the `i`-th element at `2 * i`, an empty line after it. */
  lemma {:induction false} SpacedLayout<T>(items: seq<T>, text: T -> string)
    ensures |Spaced(items, text)| == 2 * |items|
    ensures forall i :: 0 <= i < |items| ==>
      Spaced(items, text)[2 * i] == text(items[i]) && Spaced(items, text)[2 * i + 1] == ""
  {
    if items != [] {
      var n := |items| - 1;
      var init := items[..n];
      SpacedLayout(init, text);
      assert forall i :: 0 <= i < n ==> init[i] == items[i];
    }
  }

  /**
   * The page's lines: heading, subtitle, grid opening, exactly one card per
   * item in input order (each followed by an empty line), grid closing.
   */
  lemma IndexLayout(ui: Ui, items: seq<Item>)
    ensures var lines := IndexLines(ui, items);
      && |lines| == 2 * |items| + 4
      && lines[0] == "# " + ui.title + "\n" && lines[1] == ui.subtitle + "\n" && lines[2] == GridOpen
      && (forall i :: 0 <= i < |items| ==> lines[3 + 2 * i] == Card(ui, items[i]) && lines[4 + 2 * i] == "")
      && lines[|lines| - 1] == GridClose
  {
    PageLayout(Header(ui), items, it => Card(ui, it), GridClose);
  }

  /** The layout of a page: its head, the spaced texts of the elements, its last line. */
  lemma PageLayout<T>(head: seq<string>, items: seq<T>, text: T -> string, last: string)
    ensures var lines := head + Spaced(items, text) + [last];
      && |lines| == |head| + 2 * |items| + 1
      && (forall j :: 0 <= j < |head| ==> lines[j] == head[j])
      && (forall i :: 0 <= i < |items| ==> lines[|head| + 2 * i] == text(items[i]) && lines[|head| + 2 * i + 1] == "")
      && lines[|lines| - 1] == last
  {
    var spaced := Spaced(items, text);
    SpacedLayout(items, text);
    var lines := head + spaced + [last];
    forall i | 0 <= i < |items|
      ensures lines[|head| + 2 * i] == text(items[i]) && lines[|head| + 2 * i + 1] == ""
    {
      assert lines[|head| + 2 * i] == spaced[2 * i] && lines[|head| + 2 * i + 1] == spaced[2 * i + 1];
    }
  }

  /** An empty list renders heading, subtitle and an empty grid. */
  lemma EmptyIndex(ui: Ui)
    ensures Join(IndexLines(ui, []), "\n") ==
      "# " + ui.title + "\n" + "\n" + ui.subtitle + "\n" + "\n" + GridOpen + "\n" + GridClose
  {
    var h0, h1 := "# " + ui.title + "\n", ui.subtitle + "\n";
    assert IndexLines(ui, []) == [h0] + ([h1] + ([GridOpen] + [GridClose]));
    JoinCons(GridOpen, [GridClose], "\n");
    JoinCons(h1, [GridOpen] + [GridClose], "\n");
    JoinCons(h0, [h1] + ([GridOpen] + [GridClose]), "\n");
  }

  /**
   * A card ends with the language's call to action linking to the item and
   * begins with its cover image, or with the "no image" text when there is
   * no cover.
   */
  lemma CardShape(ui: Ui, it: Item)
    ensures var card := Card(ui, it);
      && EndsWith(card, "  [" + ui.open + "](" + it.link + ")")
      && (it.cover.Some? && it.cover.value != "" ==> StartsWith(card, "- " + ("![](" + it.cover.value + ")") + "  \n"))
      && (it.cover.None? ==> StartsWith(card, "- " + ui.noCover + "  \n"))
  {
    ConcatEnds(CoverLine(ui, it), TitleLine(it), MetaLine(ui, it), LinkLine(ui, it));
  }

  /** A join of non-empty parts is empty only when there are no parts. */
  lemma JoinNonEmpty(parts: seq<string>, sep: string)
    requires |parts| > 0 && parts[0] != []
    ensures Join(parts, sep) != []
  {
    if |parts| > 1 {
      assert Join(parts, sep) == parts[0] + sep + Join(parts[1..], sep);
    }
  }

  /** The facet line is empty exactly when none of the four facets is truthy. */
  lemma FacetLineEmptyIff(ui: Ui, it: Item)
    ensures FacetLine(ui, it) == "" <==>
      !Truthy(it.portions) && !Truthy(it.timePrep) && !Truthy(it.timeCook) && !Truthy(it.difficulty)
  {
    var bits := FacetBits(ui, it);
    if |bits| > 0 {
      JoinNonEmpty(bits, Separator);
    }
  }

  /** The four facet labels are non-empty and begin with four different characters. */
  predicate DistinctLabels(ui: Ui)
  {
    && ui.servings != [] && ui.prep != [] && ui.cook != [] && ui.level != []
    && ui.servings[0] != ui.prep[0] && ui.servings[0] != ui.cook[0] && ui.servings[0] != ui.level[0]
    && ui.prep[0] != ui.cook[0] && ui.prep[0] != ui.level[0] && ui.cook[0] != ui.level[0]
  }

  /** Both languages' tables tell their facets apart by the first letter of the label. */
  lemma TableLabelsDistinct(lang: string)
    requires lang in UiTable
    ensures DistinctLabels(UiTable[lang])
  {
  }

  /**
   * When the labels are told apart by their first letters, as in both
   * languages' tables, a facet's chip is on the card exactly when its value
   * is truthy, and there are as many chips as truthy facets.
   */
  lemma FacetChipPresentIff(ui: Ui, it: Item)
    requires DistinctLabels(ui)
    ensures var bits := FacetBits(ui, it);
      && (Chip(ui.servings, it.portions) in bits <==> Truthy(it.portions))
      && (Chip(ui.prep, it.timePrep) in bits <==> Truthy(it.timePrep))
      && (Chip(ui.cook, it.timeCook) in bits <==> Truthy(it.timeCook))
      && (Chip(ui.level, it.difficulty) in bits <==> Truthy(it.difficulty))
      && |bits| == (if Truthy(it.portions) then 1 else 0) + (if Truthy(it.timePrep) then 1 else 0) +
                   (if Truthy(it.timeCook) then 1 else 0) + (if Truthy(it.difficulty) then 1 else 0)
  {
    var s := Chip(ui.servings, it.portions);
    var p := Chip(ui.prep, it.timePrep);
    var c := Chip(ui.cook, it.timeCook);
    var l := Chip(ui.level, it.difficulty);
    assert s[2] == ui.servings[0] && p[2] == ui.prep[0] && c[2] == ui.cook[0] && l[2] == ui.level[0];
    assert s != p && s != c && s != l && p != c && p != l && c != l;
  }

  /** With all four facets present the line reads servings, prep, cook, level, in that order. */
  lemma FacetLineOrder(ui: Ui, it: Item)
    requires Truthy(it.portions) && Truthy(it.timePrep) && Truthy(it.timeCook) && Truthy(it.difficulty)
    ensures FacetLine(ui, it) ==
      Chip(ui.servings, it.portions) + Separator + Chip(ui.prep, it.timePrep) + Separator +
      Chip(ui.cook, it.timeCook) + Separator + Chip(ui.level, it.difficulty)
  {
    var s, p := Chip(ui.servings, it.portions), Chip(ui.prep, it.timePrep);
    var c, l := Chip(ui.cook, it.timeCook), Chip(ui.level, it.difficulty);
    assert FacetBits(ui, it) == [s] + ([p] + ([c] + [l]));
    JoinCons(c, [l], Separator);
    JoinCons(p, [c] + [l], Separator);
    JoinCons(s, [p] + ([c] + [l]), Separator);
  }
}
