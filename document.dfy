/** The part of a jsPDF document the catalog export relies on: a list of pages,
    a current page that `addPage` and `setPage` move, and drawing onto the
    current page. Fonts, colours and rendering are not modelled; each drawing
    call is one item recording what was drawn and where. */
module Document {
  import opened Records

  /** The text lines and position of a product description inside a card. */
  datatype CardText = CardText(text: string, lines: nat, y: real)

  datatype Item =
    | TitleText(title: string, x: real, y: real)
    | DescriptionText(text: string, lines: nat, x: real, y: real)
    | BannerImage(url: string, x: real, y: real, width: real, height: real)
    | ProductsHeading(x: real, y: real)
    /** One product: its image square at (x, y) when drawn, then the name,
        the optional description and the price starting at `textX`. */
    | ProductCard(name: string, price: real, x: real, y: real, imageDrawn: bool,
                  textX: real, textWidth: real, nameLines: nat,
                  description: Option<CardText>, priceY: real)
    | FooterText(date: string, page: nat, total: nat, x: real, y: real)
    | SnapshotImage(x: real, y: real, width: real, height: real)

  /** Drawing onto the last page, which is the current one while a document is
      built front to back. */
  function AppendLast(pages: seq<seq<Item>>, item: Item): (r: seq<seq<Item>>)
    requires |pages| >= 1
    ensures |r| == |pages|
    ensures r[..|r| - 1] == pages[..|pages| - 1]
    ensures r[|r| - 1] == pages[|pages| - 1] + [item]
  {
    pages[|pages| - 1 := pages[|pages| - 1] + [item]]
  }

  /** Every item of a document, page after page. */
  function Flatten(pages: seq<seq<Item>>): seq<Item>
  {
    if pages == [] then [] else Flatten(pages[..|pages| - 1]) + pages[|pages| - 1]
  }

  lemma FlattenAppendLast(pages: seq<seq<Item>>, item: Item)
    requires |pages| >= 1
    ensures Flatten(AppendLast(pages, item)) == Flatten(pages) + [item]
  {
    var r := AppendLast(pages, item);
    assert r[..|r| - 1] == pages[..|pages| - 1];
  }

  lemma FlattenNewPage(pages: seq<seq<Item>>)
    ensures Flatten(pages + [[]]) == Flatten(pages)
  {
    assert (pages + [[]])[..|pages|] == pages;
  }

  class PdfDoc {
    const width: real
    const height: real
    var pages: seq<seq<Item>>
    /** The 0-based index of the current page; jsPDF numbers pages from 1. */
    var current: nat

    ghost predicate Valid()
      reads this
    {
      current < |pages|
    }

    /** `new jsPDF(...)`: one empty page, which is current. */
    constructor (width: real, height: real)
      ensures Valid() && this.width == width && this.height == height
      ensures pages == [[]] && current == 0
    {
      this.width := width;
      this.height := height;
      pages := [[]];
      current := 0;
    }

    /** `getNumberOfPages()`. */
    function PageCount(): nat
      reads this
    {
      |pages|
    }

    /** `addPage()`: a new empty page at the end becomes current. */
    method AddPage()
      requires Valid()
      modifies this
      ensures Valid()
      ensures pages == old(pages) + [[]] && current == |pages| - 1
    {
      pages := pages + [[]];
      current := |pages| - 1;
    }

    /** `setPage(n)` for a page number `n` in 1..N. */
    method SetPage(n: nat)
      requires Valid() && 1 <= n <= |pages|
      modifies this
      ensures Valid()
      ensures pages == old(pages) && current == n - 1
    {
      current := n - 1;
    }

    /** Any drawing call: the item goes onto the current page. */
    method Draw(item: Item)
      requires Valid()
      modifies this
      ensures Valid()
      ensures current == old(current) && pages == old(pages)[current := old(pages)[current] + [item]]
    {
      pages := pages[current := pages[current] + [item]];
    }
  }
}
