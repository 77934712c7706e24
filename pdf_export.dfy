/** `pdfExport`: the catalog export, which lays a shop out page by page, and
    the snapshot export, which tiles one rendered image over as many pages as
    it needs. Each method builds a document and is proved to build exactly the
    pages its layout function describes. */
module PdfExport {
  import opened Records
  import opened Document
  import opened CatalogLayout

  /** The product loop of `exportShop`, from `yPosition = yStart` with column
      and row 0. */
  method LayOutGrid(pdf: PdfDoc, g: Grid, yStart: real, products: seq<Product>, env: Environment)
    requires pdf.Valid() && pdf.current == |pdf.pages| - 1
    modifies pdf
    ensures pdf.Valid() && pdf.current == |pdf.pages| - 1
    ensures pdf.pages == GridPages(old(pdf.pages), g, Cursor(yStart, 0, 0), products, env)
  {
    ghost var pages0 := pdf.pages;
    ghost var c0 := Cursor(yStart, 0, 0);
    var yPosition := yStart;
    var currentCol: nat := 0;
    var currentRow: nat := 0;
    for i := 0 to |products|
      invariant pdf.Valid() && pdf.current == |pdf.pages| - 1
      invariant Cursor(yPosition, currentCol, currentRow) == CursorAt(g, c0, i)
      invariant pdf.pages == GridPages(pages0, g, c0, products[..i], env)
    {
      GridPagesStep(pages0, g, c0, products, i, env);
      yPosition, currentCol, currentRow := PlaceProduct(pdf, g, yPosition, currentCol, currentRow, products[i], env);
    }
    assert products[..|products|] == products;
  }

  /** One iteration of the product loop: the page break check, the card, and
      the move to the next cell. */
  method PlaceProduct(pdf: PdfDoc, g: Grid, yPosition: real, currentCol: nat, currentRow: nat,
                      product: Product, env: Environment)
    returns (yNext: real, colNext: nat, rowNext: nat)
    requires pdf.Valid() && pdf.current == |pdf.pages| - 1
    modifies pdf
    ensures pdf.Valid() && pdf.current == |pdf.pages| - 1
    ensures var c := Cursor(yPosition, currentCol, currentRow);
      Cursor(yNext, colNext, rowNext) == Advance(g, c) &&
      pdf.pages == AppendLast(if Overflows(g, c) then old(pdf.pages) + [[]] else old(pdf.pages),
                              CardFor(g, c, product, env))
  {
    OffsetIsProduct(currentCol, g.width + Gap);
    OffsetIsProduct(currentRow, g.height + Gap);
    var x := Margin + currentCol as real * (g.width + Gap);
    var y := yPosition + currentRow as real * (g.height + Gap);
    yNext, colNext, rowNext := yPosition, currentCol, currentRow;
    if y + g.height > g.pageHeight - Margin {
      pdf.AddPage();
      yNext := Margin;
      rowNext := 0;
      colNext := 0;
    }
    OffsetIsProduct(rowNext, g.height + Gap);
    var actualY := yNext + rowNext as real * (g.height + Gap);
    var withImage := g.images && Truthy(product.image_url);
    var imageDrawn := withImage && env.loads(product.image_url.value);
    var textX := if withImage then x + 35.0 else x;
    var textWidth := if withImage then g.width - 35.0 else g.width;
    var nameLines := env.lines(product.name, textWidth, TextSize);
    var description := None;
    if Truthy(product.description) {
      description := Some(CardText(product.description.value, env.lines(product.description.value, textWidth, SmallTextSize),
                                   actualY + 8.0 + nameLines as real * 5.0));
    }
    ghost var c := Cursor(yPosition, currentCol, currentRow);
    assert Cursor(yNext, colNext, rowNext) == Placed(g, c);
    assert actualY == RowTop(g, Placed(g, c));
    assert pdf.pages == if Overflows(g, c) then old(pdf.pages) + [[]] else old(pdf.pages);
    assert x == Margin + Offset(c.col, g.width + Gap);
    var card := ProductCard(product.name, product.price, x, actualY, imageDrawn, textX, textWidth,
                            nameLines, description, actualY + g.height - 5.0);
    assert card.x == CardFor(g, c, product, env).x;
    assert card.y == CardFor(g, c, product, env).y;
    assert card.textX == CardFor(g, c, product, env).textX;
    assert card.description == CardFor(g, c, product, env).description;
    assert card == CardFor(g, c, product, env);
    pdf.Draw(card);
    colNext := colNext + 1;
    if colNext >= g.cols {
      colNext := 0;
      rowNext := rowNext + 1;
    }
  }

  /** The footer pass: `setPage(i)` and one footer for each page `i` in 1..N. */
  method AddFooters(pdf: PdfDoc, date: string)
    requires pdf.Valid()
    modifies pdf
    ensures pdf.Valid()
    ensures pdf.pages == Footers(old(pdf.pages), date, pdf.height)
  {
    var totalPages := pdf.PageCount();
    ghost var before := pdf.pages;
    for i := 1 to totalPages + 1
      invariant pdf.Valid() && |pdf.pages| == totalPages
      invariant forall k :: 0 <= k < totalPages ==>
        pdf.pages[k] == if k < i - 1
                        then before[k] + [FooterText(date, k + 1, totalPages, Margin, pdf.height - 10.0)]
                        else before[k]
    {
      pdf.SetPage(i);
      pdf.Draw(FooterText(date, i, totalPages, Margin, pdf.height - 10.0));
    }
  }

  /** The title and the description of `exportShop`. */
  method DrawTitle(pdf: PdfDoc, shop: Shop, env: Environment, contentWidth: real) returns (yPosition: real)
    requires pdf.pages == [[]] && pdf.current == 0
    modifies pdf
    ensures pdf.Valid() && pdf.current == |pdf.pages| - 1
    ensures Layout(pdf.pages, yPosition) == DescriptionLayout(TitleLayout(shop), shop, env, contentWidth)
  {
    yPosition := Margin;
    pdf.Draw(TitleText(shop.name, Margin, yPosition));
    assert pdf.pages[0] == [TitleText(shop.name, Margin, Margin)];
    yPosition := yPosition + 15.0;
    assert Layout(pdf.pages, yPosition) == TitleLayout(shop);
    if Truthy(shop.description) {
      var lines := env.lines(shop.description.value, contentWidth, TextSize);
      pdf.Draw(DescriptionText(shop.description.value, lines, Margin, yPosition));
      yPosition := yPosition + lines as real * 6.0 + 10.0;
    }
  }

  /** The banner step: nothing happens unless images are requested, the shop
      has a banner URL and the image loads. */
  method DrawBanner(pdf: PdfDoc, shop: Shop, opts: ExportOptions, env: Environment,
                    contentWidth: real, pageHeight: real, y: real)
    returns (yPosition: real)
    requires pdf.Valid() && pdf.current == |pdf.pages| - 1
    modifies pdf
    ensures pdf.Valid() && pdf.current == |pdf.pages| - 1
    ensures Layout(pdf.pages, yPosition) ==
      BannerLayout(Layout(old(pdf.pages), y), shop, opts, env, contentWidth, pageHeight)
  {
    yPosition := y;
    if opts.includeImages && Truthy(shop.banner_image_url) {
      var loaded := env.loads(shop.banner_image_url.value);
      if loaded {
        var bannerHeight := 40.0;
        var bannerWidth := contentWidth;
        if yPosition + bannerHeight > pageHeight - Margin {
          pdf.AddPage();
          yPosition := Margin;
        }
        pdf.Draw(BannerImage(shop.banner_image_url.value, Margin, yPosition, bannerWidth, bannerHeight));
        yPosition := yPosition + bannerHeight + 15.0;
      }
    }
  }

  /** The products section: heading and grid when the list is not empty. */
  method DrawProducts(pdf: PdfDoc, shop: Shop, products: seq<Product>, opts: ExportOptions, env: Environment,
                      contentWidth: real, pageWidth: real, pageHeight: real, y: real)
    requires pdf.Valid() && pdf.current == |pdf.pages| - 1
    requires contentWidth == ContentWidth(opts) && pageWidth == PageWidth(opts) && pageHeight == PageHeight(opts)
    modifies pdf
    ensures pdf.Valid()
    ensures pdf.pages == ProductsLayout(Layout(old(pdf.pages), y), products, GridOf(shop.grid_columns, opts), env)
  {
    var yPosition := y;
    if |products| > 0 {
      if yPosition + 20.0 > pageHeight - Margin {
        pdf.AddPage();
        yPosition := Margin;
      }
      pdf.Draw(ProductsHeading(Margin, yPosition));
      yPosition := yPosition + 15.0;
      assert Layout(pdf.pages, yPosition) == HeadingLayout(Layout(old(pdf.pages), y), pageHeight);

      var cols := shop.grid_columns;
      var productWidth := (contentWidth - (cols as int - 1) as real * 10.0) / cols as real;
      var productHeight := if opts.includeImages then 80.0 else 40.0;
      ProductWidthFormula(contentWidth, cols);
      assert Grid(cols, productWidth, productHeight, pageWidth, pageHeight, opts.includeImages) ==
        GridOf(shop.grid_columns, opts);
      LayOutGrid(pdf, Grid(cols, productWidth, productHeight, pageWidth, pageHeight, opts.includeImages),
                 yPosition, products, env);
    }
  }

  /** `exportShop`: the document it saves and the file name it saves it under.
      `date` is `new Date().toLocaleDateString()`. */
  method ExportShop(shop: Shop, products: seq<Product>, opts: ExportOptions, env: Environment, date: string)
    returns (pdf: PdfDoc, fileName: string)
    ensures fresh(pdf)
    ensures pdf.pages == CatalogPages(shop, products, opts, env, date)
    ensures fileName == CatalogFileName(shop.name)
  {
    pdf := new PdfDoc(PageWidth(opts), PageHeight(opts));
    var pageWidth := pdf.width;
    var pageHeight := pdf.height;
    var contentWidth := pageWidth - Margin * 2.0;
    var yPosition := DrawTitle(pdf, shop, env, contentWidth);
    yPosition := DrawBanner(pdf, shop, opts, env, contentWidth, pageHeight, yPosition);
    assert Layout(pdf.pages, yPosition) == HeaderLayout(shop, opts, env);
    DrawProducts(pdf, shop, products, opts, env, contentWidth, pageWidth, pageHeight, yPosition);
    AddFooters(pdf, date);
    fileName := CatalogSlug(shop.name) + "_catalog.pdf";
  }

  /** What html2canvas renders for the element: the canvas size in pixels. */
  datatype Canvas = Canvas(width: nat, height: nat)

  datatype ViewExport = ElementNotFound | Exported(pdf: PdfDoc, fileName: string)

  /** `exportCurrentView`: `canvas` is `None` when `getElementById` finds no
      element, which throws before any document exists. */
  method ExportCurrentView(canvas: Option<Canvas>, fileName: string) returns (r: ViewExport)
    requires canvas.Some? ==> canvas.value.width > 0
    ensures canvas.None? <==> r.ElementNotFound?
    ensures r.Exported? ==>
      fresh(r.pdf) && r.fileName == fileName &&
      r.pdf.pages == TilePages(SnapshotHeight(canvas.value.width, canvas.value.height))
  {
    if canvas.None? {
      return ElementNotFound;
    }
    var pdf := new PdfDoc(PageWidth(DefaultOptions), PageHeight(DefaultOptions));
    var imgWidth := 210.0;
    var imgHeight := (canvas.value.height as real * imgWidth) / canvas.value.width as real;
    assert imgHeight == SnapshotHeight(canvas.value.width, canvas.value.height);
    TileImage(pdf, imgWidth, imgHeight);
    r := Exported(pdf, fileName);
  }

  /** The tiling loop: the image at offset 0 on the first page, then one more
      page per 295 of height left, each with the image moved up by one page. */
  method TileImage(pdf: PdfDoc, imgWidth: real, imgHeight: real)
    requires pdf.pages == [[]] && pdf.current == 0
    requires imgWidth == SnapshotWidth && imgHeight >= 0.0
    modifies pdf
    ensures pdf.pages == TilePages(imgHeight)
  {
    var pageHeight := 295.0;
    var heightLeft := imgHeight;
    var position := 0.0;

    pdf.Draw(SnapshotImage(0.0, position, imgWidth, imgHeight));
    assert pdf.pages[0] == [SnapshotImage(0.0, TileOffset(0), SnapshotWidth, imgHeight)];
    assert pdf.pages == TilePages(imgHeight)[..1];
    heightLeft := heightLeft - pageHeight;
    ghost var k: nat := 1;
    while heightLeft >= 0.0
      invariant pdf.Valid() && pdf.current == |pdf.pages| - 1
      invariant 1 <= k <= TileCount(imgHeight)
      invariant heightLeft == imgHeight - k as real * SnapshotPage
      invariant pdf.pages == TilePages(imgHeight)[..k]
      decreases TileCount(imgHeight) - k
    {
      position := heightLeft - imgHeight;
      assert position == TileOffset(k);
      assert k as real <= imgHeight / SnapshotPage;
      assert k < TileCount(imgHeight);
      ghost var before := pdf.pages;
      pdf.AddPage();
      assert pdf.current == |before|;
      pdf.Draw(SnapshotImage(0.0, position, imgWidth, imgHeight));
      assert |pdf.pages| == |before| + 1;
      assert pdf.pages[|before|] == [SnapshotImage(0.0, TileOffset(k), SnapshotWidth, imgHeight)];
      assert pdf.pages[..|before|] == before;
      assert pdf.pages == before + [[SnapshotImage(0.0, TileOffset(k), SnapshotWidth, imgHeight)]];
      assert TilePages(imgHeight)[..k + 1] == TilePages(imgHeight)[..k] + [TilePages(imgHeight)[k]];
      heightLeft := heightLeft - pageHeight;
      k := k + 1;
    }
    assert TilePages(imgHeight)[..k] == TilePages(imgHeight);
  }
}
