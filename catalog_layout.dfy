/** The geometry of the printable shop catalog: page sizes, the product grid and
    its page breaks, the pages the export produces, and the output file name.
    Lengths are millimetres and are exact reals. */
module CatalogLayout {
  import opened Strings
  import opened Records
  import opened Document

  datatype PageFormat = A4 | Letter
  datatype Orientation = Portrait | Landscape

  datatype ExportOptions = ExportOptions(includeImages: bool, pageFormat: PageFormat, orientation: Orientation)

  const DefaultOptions := ExportOptions(true, A4, Portrait)

  /** What the export learns from foreign code: the number of lines
      `splitTextToSize` breaks a text into at a given width and font size, and
      whether an image URL loads. */
  datatype Environment = Environment(lines: (string, real, nat) -> nat, loads: string -> bool)

  /** The font sizes set before each `splitTextToSize`: shop descriptions and
      product names at 12, product descriptions at 10. */
  const TextSize: nat := 12
  const SmallTextSize: nat := 10

  const Margin: real := 20.0
  const Gap: real := 10.0
  const BannerHeight: real := 40.0

  /** jsPDF's page formats in points, portrait. */
  function FormatPoints(f: PageFormat): (real, real)
  {
    match f
    case A4 => (595.28, 841.89)
    case Letter => (612.0, 792.0)
  }

  /** `pageSize.getWidth()` for unit `mm`: points scaled by 25.4/72, the
      long side in landscape. */
  function PageWidth(opts: ExportOptions): real
  {
    var pt := FormatPoints(opts.pageFormat);
    (if opts.orientation == Landscape then pt.1 else pt.0) * 25.4 / 72.0
  }

  /** `pageSize.getHeight()` for unit `mm`. */
  function PageHeight(opts: ExportOptions): real
  {
    var pt := FormatPoints(opts.pageFormat);
    (if opts.orientation == Landscape then pt.0 else pt.1) * 25.4 / 72.0
  }

  /** `pageWidth - margin * 2`. */
  function ContentWidth(opts: ExportOptions): real
  {
    PageWidth(opts) - 2.0 * Margin
  }

  lemma PageOrientation(opts: ExportOptions)
    ensures opts.orientation == Portrait ==> PageWidth(opts) < PageHeight(opts)
    ensures opts.orientation == Landscape ==> PageWidth(opts) > PageHeight(opts)
    ensures PageWidth(opts) >= 200.0 && PageHeight(opts) >= 200.0
  {
  }

  function ProductHeight(includeImages: bool): real
  {
    if includeImages then 80.0 else 40.0
  }

  /** `(contentWidth - (cols - 1) * 10) / cols`, written per column count so
      that the division is by a constant. */
  function ProductWidth(contentWidth: real, cols: GridColumns): real
  {
    match cols
    case 3 => (contentWidth - 2.0 * Gap) / 3.0
    case 4 => (contentWidth - 3.0 * Gap) / 4.0
    case 5 => (contentWidth - 4.0 * Gap) / 5.0
  }

  /** The width formula exactly as the source writes it. */
  lemma ProductWidthFormula(contentWidth: real, cols: GridColumns)
    ensures ProductWidth(contentWidth, cols) == (contentWidth - (cols - 1) as real * Gap) / cols as real
  {
  }

  /** The grid of one export: its column count, cell size, page size and
      whether product images are requested. */
  datatype Grid = Grid(cols: GridColumns, width: real, height: real,
                       pageWidth: real, pageHeight: real, images: bool)

  function GridOf(cols: GridColumns, opts: ExportOptions): Grid
  {
    Grid(cols, ProductWidth(ContentWidth(opts), cols), ProductHeight(opts.includeImages),
         PageWidth(opts), PageHeight(opts), opts.includeImages)
  }

  /** `n * pitch`, written as the sum of `n` pitches: the offset of row or
      column `n` of the grid. */
  function Offset(n: nat, pitch: real): real
  {
    if n == 0 then 0.0 else Offset(n - 1, pitch) + pitch
  }

  lemma {:induction false} OffsetIsProduct(n: nat, pitch: real)
    ensures Offset(n, pitch) == n as real * pitch
  {
    if n > 0 {
      OffsetIsProduct(n - 1, pitch);
    }
  }

  lemma {:induction false} OffsetMonotone(n: nat, m: nat, pitch: real)
    requires n <= m && pitch >= 0.0
    ensures 0.0 <= Offset(n, pitch) <= Offset(m, pitch)
    decreases m
  {
    if n < m {
      OffsetMonotone(n, m - 1, pitch);
    } else if n > 0 {
      OffsetMonotone(n - 1, m - 1, pitch);
    }
  }

  /** The cells fill the content width exactly: `cols` cells and `cols - 1`
      gaps, so the last column ends on the right margin. */
  lemma ProductWidthFillsContent(contentWidth: real, cols: GridColumns)
    ensures var w := ProductWidth(contentWidth, cols);
      cols as real * w + (cols - 1) as real * Gap == contentWidth &&
      Margin + Offset(cols - 1, w + Gap) + w == contentWidth + Margin
  {
    OffsetIsProduct(cols - 1, ProductWidth(contentWidth, cols) + Gap);
  }

  /** On every page format a card fits between the two margins, so the
      condition of the column lemmas below holds for every real export. */
  lemma CardFitsEveryPage(cols: GridColumns, opts: ExportOptions)
    ensures GridOf(cols, opts).height <= GridOf(cols, opts).pageHeight - 2.0 * Margin
  {
    PageOrientation(opts);
  }

  // ------------------------------------------------------------------ grid

  /** The loop variables `yPosition`, `currentCol` and `currentRow`. */
  datatype Cursor = Cursor(y: real, col: nat, row: nat)

  /** `yPosition + currentRow * (productHeight + 10)`. */
  function RowTop(g: Grid, c: Cursor): real
  {
    c.y + Offset(c.row, g.height + Gap)
  }

  /** The product at this cursor would cross the bottom margin. */
  predicate Overflows(g: Grid, c: Cursor)
  {
    RowTop(g, c) + g.height > g.pageHeight - Margin
  }

  /** The cursor the product is drawn at, after the page break if any. */
  function Placed(g: Grid, c: Cursor): Cursor
  {
    if Overflows(g, c) then Cursor(Margin, 0, 0) else c
  }

  /** The cursor for the next product. */
  function Advance(g: Grid, c: Cursor): Cursor
  {
    var p := Placed(g, c);
    if p.col + 1 >= g.cols then Cursor(p.y, 0, p.row + 1) else Cursor(p.y, p.col + 1, p.row)
  }

  /** The cursor of the product with index `i`. */
  function CursorAt(g: Grid, c0: Cursor, i: nat): Cursor
  {
    if i == 0 then c0 else Advance(g, CursorAt(g, c0, i - 1))
  }

  /** The number of page breaks among the first `n` products. */
  function BreaksIn(g: Grid, c0: Cursor, n: nat): nat
  {
    if n == 0 then 0 else BreaksIn(g, c0, n - 1) + (if Overflows(g, CursorAt(g, c0, n - 1)) then 1 else 0)
  }

  /** The column advances by one and wraps to 0 after the last column, and
      the row increases exactly at the wrap; a page break first resets both. */
  lemma AdvanceStep(g: Grid, c: Cursor)
    requires c.col < g.cols
    ensures var p := Placed(g, c); var n := Advance(g, c);
      (Overflows(g, c) ==> p == Cursor(Margin, 0, 0)) &&
      (!Overflows(g, c) ==> p == c) &&
      n.y == p.y && n.col < g.cols &&
      (p.col == g.cols - 1 ==> n.col == 0 && n.row == p.row + 1) &&
      (p.col < g.cols - 1 ==> n.col == p.col + 1 && n.row == p.row)
  {
  }

  lemma {:induction false} ColumnInRange(g: Grid, c0: Cursor, i: nat)
    requires c0.col < g.cols
    ensures CursorAt(g, c0, i).col < g.cols
  {
    if i > 0 {
      ColumnInRange(g, c0, i - 1);
    }
  }

  /** A card whose cell fits between the margins never overflows once placed. */
  lemma PlacedFits(g: Grid, c: Cursor)
    requires g.height <= g.pageHeight - 2.0 * Margin
    ensures !Overflows(g, Placed(g, c))
  {
  }

  /** When a cell fits between the margins, a page break happens only at the
      first column, so the `x` the source computes before the break is the
      first column's. */
  lemma {:induction false} BreakOnlyAtFirstColumn(g: Grid, y0: real, i: nat)
    requires g.height <= g.pageHeight - 2.0 * Margin
    ensures Overflows(g, CursorAt(g, Cursor(y0, 0, 0), i)) ==> CursorAt(g, Cursor(y0, 0, 0), i).col == 0
  {
    if i > 0 {
      var c := CursorAt(g, Cursor(y0, 0, 0), i - 1);
      PlacedFits(g, c);
      var p := Placed(g, c);
      if p.col + 1 < g.cols {
        assert RowTop(g, Advance(g, c)) == RowTop(g, p);
      }
    }
  }

  /** Under the same condition, product `i` lands in column `i mod cols`. */
  lemma {:induction false} ColumnIsIndexModCols(g: Grid, y0: real, i: nat)
    requires g.height <= g.pageHeight - 2.0 * Margin
    ensures CursorAt(g, Cursor(y0, 0, 0), i).col == i % g.cols
  {
    if i > 0 {
      var c := CursorAt(g, Cursor(y0, 0, 0), i - 1);
      ColumnIsIndexModCols(g, y0, i - 1);
      BreakOnlyAtFirstColumn(g, y0, i - 1);
      assert Placed(g, c).col == c.col;
      ModSuccessor(i - 1, g.cols);
    }
  }

  lemma ModSuccessor(i: nat, m: GridColumns)
    ensures (i + 1) % m == if i % m + 1 < m then i % m + 1 else 0
  {
    if m == 3 {
    } else if m == 4 {
    } else {
    }
  }

  // -------------------------------------------------------------- cards

  /** The card the loop draws at cursor `c`: `x` comes from the column before
      any page break, the vertical position from the cursor after it. The text
      moves right by 35 whenever an image is requested and the product has a
      URL, whether or not the image loads. */
  function CardFor(g: Grid, c: Cursor, p: Product, env: Environment): Item
  {
    var x := Margin + Offset(c.col, g.width + Gap);
    var y := RowTop(g, Placed(g, c));
    var withImage := g.images && Truthy(p.image_url);
    var textX := if withImage then x + 35.0 else x;
    var textWidth := if withImage then g.width - 35.0 else g.width;
    var nameLines := env.lines(p.name, textWidth, TextSize);
    ProductCard(p.name, p.price, x, y, withImage && env.loads(p.image_url.value), textX, textWidth, nameLines,
                if Truthy(p.description)
                then Some(CardText(p.description.value, env.lines(p.description.value, textWidth, SmallTextSize),
                                   y + 8.0 + nameLines as real * 5.0))
                else None,
                y + g.height - 5.0)
  }

  /** A placed card lies inside the content area of its page: right of the
      left margin, left of the right margin and above the bottom margin. */
  lemma CardInsideMargins(cols: GridColumns, opts: ExportOptions, y0: real, i: nat, p: Product, env: Environment)
    requires y0 >= Margin
    ensures var g := GridOf(cols, opts); var card := CardFor(g, CursorAt(g, Cursor(y0, 0, 0), i), p, env);
      card.x >= Margin && card.x + g.width <= g.pageWidth - Margin &&
      card.y >= Margin && card.y + g.height <= g.pageHeight - Margin
  {
    var g := GridOf(cols, opts);
    var c := CursorAt(g, Cursor(y0, 0, 0), i);
    CardFitsEveryPage(cols, opts);
    ColumnInRange(g, Cursor(y0, 0, 0), i);
    ProductWidthFillsContent(g.pageWidth - 2.0 * Margin, cols);
    CursorYAtLeastMargin(g, y0, i);
    PlacedFits(g, c);
    PageOrientation(opts);
    OffsetMonotone(c.col, cols - 1, g.width + Gap);
    OffsetMonotone(0, Placed(g, c).row, g.height + Gap);
  }

  lemma {:induction false} CursorYAtLeastMargin(g: Grid, y0: real, i: nat)
    requires y0 >= Margin
    ensures CursorAt(g, Cursor(y0, 0, 0), i).y >= Margin
  {
    if i > 0 {
      CursorYAtLeastMargin(g, y0, i - 1);
    }
  }

  /** The pages after the first `|ps|` products have been laid out from the
      cursor `c0`, starting from `pages0`. */
  function GridPages(pages0: seq<seq<Item>>, g: Grid, c0: Cursor, ps: seq<Product>, env: Environment): (r: seq<seq<Item>>)
    requires |pages0| >= 1
    ensures |r| >= 1
    decreases |ps|
  {
    if ps == [] then pages0
    else
      var n := |ps| - 1;
      var before := GridPages(pages0, g, c0, ps[..n], env);
      var c := CursorAt(g, c0, n);
      AppendLast(if Overflows(g, c) then before + [[]] else before, CardFor(g, c, ps[n], env))
  }

  /** Laying out one more product: a new page when its row would overflow,
      then its card on the last page. */
  lemma GridPagesStep(pages0: seq<seq<Item>>, g: Grid, c0: Cursor, ps: seq<Product>, i: nat, env: Environment)
    requires |pages0| >= 1 && i < |ps|
    ensures var before := GridPages(pages0, g, c0, ps[..i], env);
      var c := CursorAt(g, c0, i);
      GridPages(pages0, g, c0, ps[..i + 1], env) ==
        AppendLast(if Overflows(g, c) then before + [[]] else before, CardFor(g, c, ps[i], env))
  {
    assert ps[..i + 1][..i] == ps[..i];
    assert ps[..i + 1][i] == ps[i];
  }

  /** A page is added exactly for each product whose row would overflow. */
  lemma {:induction false} GridPageCount(pages0: seq<seq<Item>>, g: Grid, c0: Cursor, ps: seq<Product>, env: Environment)
    requires |pages0| >= 1
    ensures |GridPages(pages0, g, c0, ps, env)| == |pages0| + BreaksIn(g, c0, |ps|)
    decreases |ps|
  {
    if ps != [] {
      GridPageCount(pages0, g, c0, ps[..|ps| - 1], env);
    }
  }

  /** The cards of the products `ps`, in order, laid out from `c0`. */
  function CardsOf(g: Grid, c0: Cursor, ps: seq<Product>, env: Environment): (r: seq<Item>)
    ensures |r| == |ps|
    decreases |ps|
  {
    if ps == [] then []
    else CardsOf(g, c0, ps[..|ps| - 1], env) + [CardFor(g, CursorAt(g, c0, |ps| - 1), ps[|ps| - 1], env)]
  }

  /** Layout loses no product and keeps their order: read page by page, the
      grid adds exactly one card per product. */
  lemma {:induction false} GridCardsInOrder(pages0: seq<seq<Item>>, g: Grid, c0: Cursor, ps: seq<Product>, env: Environment)
    requires |pages0| >= 1
    ensures Flatten(GridPages(pages0, g, c0, ps, env)) == Flatten(pages0) + CardsOf(g, c0, ps, env)
    decreases |ps|
  {
    if ps != [] {
      var n := |ps| - 1;
      var before := GridPages(pages0, g, c0, ps[..n], env);
      GridCardsInOrder(pages0, g, c0, ps[..n], env);
      var c := CursorAt(g, c0, n);
      var card := CardFor(g, c, ps[n], env);
      var page := if Overflows(g, c) then before + [[]] else before;
      assert GridPages(pages0, g, c0, ps, env) == AppendLast(page, card);
      FlattenNewPage(before);
      assert Flatten(page) == Flatten(before);
      FlattenAppendLast(page, card);
    }
  }

  // ------------------------------------------------------- whole catalog

  /** The document while it is built: its pages and `yPosition`. */
  datatype Layout = Layout(pages: seq<seq<Item>>, y: real)

  predicate Started(l: Layout) { |l.pages| >= 1 }

  /** The shop title on the first page. */
  function TitleLayout(shop: Shop): (r: Layout)
    ensures Started(r)
  {
    Layout([[TitleText(shop.name, Margin, Margin)]], Margin + 15.0)
  }

  /** The description block, when the shop has a non-empty description. */
  function DescriptionLayout(l: Layout, shop: Shop, env: Environment, contentWidth: real): (r: Layout)
    requires Started(l)
    ensures Started(r)
  {
    if Truthy(shop.description) then
      var n := env.lines(shop.description.value, contentWidth, TextSize);
      Layout(AppendLast(l.pages, DescriptionText(shop.description.value, n, Margin, l.y)), l.y + n as real * 6.0 + 10.0)
    else l
  }

  /** Whether the banner is drawn: images requested, a URL, and a load. */
  predicate BannerDrawn(shop: Shop, opts: ExportOptions, env: Environment)
  {
    opts.includeImages && Truthy(shop.banner_image_url) && env.loads(shop.banner_image_url.value)
  }

  function BannerLayout(l: Layout, shop: Shop, opts: ExportOptions, env: Environment, contentWidth: real, pageHeight: real): (r: Layout)
    requires Started(l)
    ensures Started(r)
  {
    if BannerDrawn(shop, opts, env) then
      var broke := l.y + BannerHeight > pageHeight - Margin;
      var pages := if broke then l.pages + [[]] else l.pages;
      var y := if broke then Margin else l.y;
      Layout(AppendLast(pages, BannerImage(shop.banner_image_url.value, Margin, y, contentWidth, BannerHeight)),
             y + BannerHeight + 15.0)
    else l
  }

  /** A failed or skipped banner leaves the layout as it was; a drawn banner
      adds a page exactly when it would cross the bottom margin, and moves the
      cursor 55 below where it was drawn. */
  lemma BannerStepSpec(l: Layout, shop: Shop, opts: ExportOptions, env: Environment, contentWidth: real, pageHeight: real)
    requires Started(l)
    ensures var r := BannerLayout(l, shop, opts, env, contentWidth, pageHeight);
      (!BannerDrawn(shop, opts, env) ==> r == l) &&
      (BannerDrawn(shop, opts, env) ==>
        (|r.pages| == |l.pages| + 1 <==> l.y + BannerHeight > pageHeight - Margin) &&
        (|r.pages| == |l.pages| || |r.pages| == |l.pages| + 1) &&
        r.y == (if l.y + BannerHeight > pageHeight - Margin then Margin else l.y) + 55.0)
  {
  }

  /** The "Products" heading, on a new page when it would cross the margin. */
  function HeadingLayout(l: Layout, pageHeight: real): (r: Layout)
    requires Started(l)
    ensures Started(r)
  {
    var broke := l.y + 20.0 > pageHeight - Margin;
    var pages := if broke then l.pages + [[]] else l.pages;
    var y := if broke then Margin else l.y;
    Layout(AppendLast(pages, ProductsHeading(Margin, y)), y + 15.0)
  }

  /** The products section: heading and grid, only when there are products. */
  function ProductsLayout(l: Layout, products: seq<Product>, g: Grid, env: Environment): (r: seq<seq<Item>>)
    requires Started(l)
    ensures |r| >= 1
  {
    if |products| > 0 then
      var h := HeadingLayout(l, g.pageHeight);
      GridPages(h.pages, g, Cursor(h.y, 0, 0), products, env)
    else l.pages
  }

  /** The footer pass: page `i` of `N` gets "Page i of N" at the bottom. */
  function Footers(pages: seq<seq<Item>>, date: string, pageHeight: real): (r: seq<seq<Item>>)
  {
    seq(|pages|, i requires 0 <= i < |pages| => pages[i] + [FooterText(date, i + 1, |pages|, Margin, pageHeight - 10.0)])
  }

  /** Title, description and banner. */
  function HeaderLayout(shop: Shop, opts: ExportOptions, env: Environment): (r: Layout)
    ensures Started(r)
  {
    BannerLayout(DescriptionLayout(TitleLayout(shop), shop, env, ContentWidth(opts)),
                 shop, opts, env, ContentWidth(opts), PageHeight(opts))
  }

  /** Everything but the footer pass. */
  function BodyPages(shop: Shop, products: seq<Product>, opts: ExportOptions, env: Environment): (r: seq<seq<Item>>)
    ensures |r| >= 1
  {
    ProductsLayout(HeaderLayout(shop, opts, env), products, GridOf(shop.grid_columns, opts), env)
  }

  /** The whole catalog of `exportShop`. */
  function CatalogPages(shop: Shop, products: seq<Product>, opts: ExportOptions, env: Environment, date: string): seq<seq<Item>>
  {
    Footers(BodyPages(shop, products, opts, env), date, PageHeight(opts))
  }

  /** Every page carries, as its last item, the footer numbering it among the
      final page count; nothing else is added to the pages. */
  lemma FootersNumberEveryPage(pages: seq<seq<Item>>, date: string, pageHeight: real)
    ensures |Footers(pages, date, pageHeight)| == |pages|
    ensures forall i :: 0 <= i < |pages| ==>
      var page := Footers(pages, date, pageHeight)[i];
      page[..|page| - 1] == pages[i] &&
      page[|page| - 1] == FooterText(date, i + 1, |pages|, Margin, pageHeight - 10.0)
  {
  }

  predicate IsProductItem(it: Item) { it.ProductsHeading? || it.ProductCard? }

  predicate NoProductItems(pages: seq<seq<Item>>)
  {
    forall i, k :: 0 <= i < |pages| && 0 <= k < |pages[i]| ==> !IsProductItem(pages[i][k])
  }

  /** The header takes one page, or two when a drawn banner would cross the
      bottom margin, and holds no product item. */
  lemma HeaderPages(shop: Shop, opts: ExportOptions, env: Environment)
    ensures var d := DescriptionLayout(TitleLayout(shop), shop, env, ContentWidth(opts));
      |HeaderLayout(shop, opts, env).pages| ==
        1 + (if BannerDrawn(shop, opts, env) && d.y + BannerHeight > PageHeight(opts) - Margin then 1 else 0)
    ensures NoProductItems(HeaderLayout(shop, opts, env).pages)
  {
    var d := DescriptionLayout(TitleLayout(shop), shop, env, ContentWidth(opts));
    assert NoProductItems(d.pages);
  }

  /** The products section adds a page for a heading that would cross the
      margin and one per grid break, and nothing when there are no products. */
  lemma ProductsPageCount(l: Layout, products: seq<Product>, g: Grid, env: Environment)
    requires Started(l)
    ensures |ProductsLayout(l, products, g, env)| == |l.pages| +
      (if |products| > 0
       then (if l.y + 20.0 > g.pageHeight - Margin then 1 else 0) +
            BreaksIn(g, Cursor(HeadingLayout(l, g.pageHeight).y, 0, 0), |products|)
       else 0)
  {
    if |products| > 0 {
      var h := HeadingLayout(l, g.pageHeight);
      GridPageCount(h.pages, g, Cursor(h.y, 0, 0), products, env);
    }
  }

  /** The final page count, which every footer reports. */
  lemma CatalogPageCount(shop: Shop, products: seq<Product>, opts: ExportOptions, env: Environment, date: string)
    ensures var hd := HeaderLayout(shop, opts, env);
      var d := DescriptionLayout(TitleLayout(shop), shop, env, ContentWidth(opts));
      |CatalogPages(shop, products, opts, env, date)| ==
        1 + (if BannerDrawn(shop, opts, env) && d.y + BannerHeight > PageHeight(opts) - Margin then 1 else 0) +
        (if |products| > 0
         then (if hd.y + 20.0 > PageHeight(opts) - Margin then 1 else 0) +
              BreaksIn(GridOf(shop.grid_columns, opts), Cursor(HeadingLayout(hd, PageHeight(opts)).y, 0, 0), |products|)
         else 0)
  {
    HeaderPages(shop, opts, env);
    ProductsPageCount(HeaderLayout(shop, opts, env), products, GridOf(shop.grid_columns, opts), env);
  }

  /** Without products there is neither a heading nor a card. */
  lemma NoProductsNoProductItems(shop: Shop, opts: ExportOptions, env: Environment)
    ensures NoProductItems(BodyPages(shop, [], opts, env))
  {
    HeaderPages(shop, opts, env);
  }

  /** With products, the body reads as the header, the heading, then exactly
      one card per product in list order. */
  lemma CatalogCardsInOrder(shop: Shop, products: seq<Product>, opts: ExportOptions, env: Environment)
    requires |products| > 0
    ensures var hd := HeaderLayout(shop, opts, env);
      var h := HeadingLayout(hd, PageHeight(opts));
      Flatten(BodyPages(shop, products, opts, env)) ==
        Flatten(hd.pages) + [ProductsHeading(Margin, h.y - 15.0)] +
        CardsOf(GridOf(shop.grid_columns, opts), Cursor(h.y, 0, 0), products, env)
  {
    var hd := HeaderLayout(shop, opts, env);
    HeadingFlatten(hd, PageHeight(opts));
    var h := HeadingLayout(hd, PageHeight(opts));
    GridCardsInOrder(h.pages, GridOf(shop.grid_columns, opts), Cursor(h.y, 0, 0), products, env);
  }

  lemma HeadingFlatten(l: Layout, pageHeight: real)
    requires Started(l)
    ensures Flatten(HeadingLayout(l, pageHeight).pages) ==
      Flatten(l.pages) + [ProductsHeading(Margin, HeadingLayout(l, pageHeight).y - 15.0)]
  {
    var broke := l.y + 20.0 > pageHeight - Margin;
    var pages := if broke then l.pages + [[]] else l.pages;
    FlattenNewPage(l.pages);
    FlattenAppendLast(pages, ProductsHeading(Margin, if broke then Margin else l.y));
  }

  // -------------------------------------------------------------- file name

  /** `name.replace(/[^a-z0-9]/gi, '_')`. */
  function ReplaceNonAlnum(name: string): (r: string)
    ensures |r| == |name|
  {
    seq(|name|, i requires 0 <= i < |name| => if IsAlnum(name[i]) then name[i] else '_')
  }

  /** The slug both PDF file names start with: replace, then lowercase. */
  function CatalogSlug(name: string): string
  {
    Lower(ReplaceNonAlnum(name))
  }

  function CatalogFileName(name: string): string
  {
    CatalogSlug(name) + "_catalog.pdf"
  }

  /** The slug maps the name one character for one: letters are lowercased,
      digits kept and every other character becomes `_`. */
  lemma CatalogSlugSpec(name: string)
    ensures |CatalogSlug(name)| == |name|
    ensures forall i :: 0 <= i < |name| ==>
      CatalogSlug(name)[i] == (if IsAlnum(name[i]) then ToLowerChar(name[i]) else '_')
    ensures forall i :: 0 <= i < |name| ==>
      IsLowerAscii(CatalogSlug(name)[i]) || IsDigit(CatalogSlug(name)[i]) || CatalogSlug(name)[i] == '_'
  {
  }

  lemma CatalogFileNameExample()
    ensures CatalogFileName("My Shop! 123") == "my_shop__123_catalog.pdf"
  {
    var slug := CatalogSlug("My Shop! 123");
    CatalogSlugSpec("My Shop! 123");
    assert slug == "my_shop__123";
  }

  // ---------------------------------------------------------------- snapshot

  const SnapshotWidth: real := 210.0
  const SnapshotPage: real := 295.0

  /** `canvas.height * 210 / canvas.width`: the rendered element scaled to the
      width of the page. */
  function SnapshotHeight(canvasWidth: nat, canvasHeight: nat): (r: real)
    requires canvasWidth > 0
    ensures r >= 0.0
  {
    canvasHeight as real * SnapshotWidth / canvasWidth as real
  }

  /** The number of pages the tiling loop makes for an image of height `h`. */
  function TileCount(h: real): (r: nat)
    requires h >= 0.0
  {
    1 + (h / SnapshotPage).Floor
  }

  /** The vertical offset of the image on page `j` (from 0): it is moved up by
      one page height per page. */
  function TileOffset(j: nat): real
  {
    -(j as real * SnapshotPage)
  }

  /** One copy of the image per page, each shifted by its page's offset. */
  function TilePages(h: real): seq<seq<Item>>
    requires h >= 0.0
  {
    seq(TileCount(h), j requires 0 <= j < TileCount(h) => [SnapshotImage(0.0, TileOffset(j), SnapshotWidth, h)])
  }

  /** The last page starts at or above the bottom of the image and the page
      after it would start below it: the loop stops as soon as the image is
      covered. */
  lemma TileCountCoversImage(h: real)
    requires h >= 0.0
    ensures (TileCount(h) - 1) as real * SnapshotPage <= h < TileCount(h) as real * SnapshotPage
  {
  }

  /** Every horizontal band of the image falls on exactly one page. */
  lemma EveryBandOnOnePage(h: real, t: real)
    requires 0.0 <= t < h
    ensures 0 <= (t / SnapshotPage).Floor < TileCount(h)
    ensures forall j: nat :: j < TileCount(h) ==>
      (-TileOffset(j) <= t < -TileOffset(j) + SnapshotPage <==> j == (t / SnapshotPage).Floor)
  {
    var f := (t / SnapshotPage).Floor;
    forall j: nat | j < TileCount(h)
      ensures -TileOffset(j) <= t < -TileOffset(j) + SnapshotPage <==> j == f
    {
      if j < f {
        assert (j + 1) as real <= f as real;
      } else if j > f {
        assert j as real >= (f + 1) as real;
      }
    }
  }

  /** When the height is an exact multiple of the page height the loop makes
      one page more than the image needs, and the image ends exactly at the
      top of that last page, so it stays blank. */
  lemma ExactMultipleAddsBlankPage(m: nat)
    requires m >= 1
    ensures TileCount(m as real * SnapshotPage) == m + 1
    ensures TileOffset(m) + m as real * SnapshotPage == 0.0
  {
    assert (m as real * SnapshotPage) / SnapshotPage == m as real;
  }
}
