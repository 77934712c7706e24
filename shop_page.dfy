/** The shop page: the shop and product list it shows, the handlers that
    merge edits into them and pass them on, the debounced auto-save of shop
    edits, and the two PDF export buttons. A missing `onShopUpdate` or
    `onProductsUpdate` callback is a `false` flag; what a callback receives is
    recorded in order. */
module ShopPage {
  import Utils
  import opened Records
  import opened ShopDb
  import opened CatalogLayout
  import opened PdfExport

  /** The delay of the page's debounced savers, in milliseconds. */
  const AutoSaveDelay: int := 1000

  /** The patch of `handleBannerUpdate`. */
  function BannerPatch(imageUrl: string): (r: ShopPatch)
    ensures ShopPatchFields(r) == {"banner_image_url"} && r.banner_image_url == Some(imageUrl)
  {
    NoShopChanges.(banner_image_url := Some(imageUrl))
  }

  /** The patch of `handleBannerHeightChange`. */
  function HeightPatch(height: int): (r: ShopPatch)
    ensures ShopPatchFields(r) == {"banner_height"} && r.banner_height == Some(height)
  {
    NoShopChanges.(banner_height := Some(height))
  }

  /** The patch of `handleGridColumnsChange`. */
  function ColumnsPatch(columns: GridColumns): (r: ShopPatch)
    ensures ShopPatchFields(r) == {"grid_columns"} && r.grid_columns == Some(columns)
  {
    NoShopChanges.(grid_columns := Some(columns))
  }

  /** Each single-field handler changes its own field of the shop and keeps
      every other one. */
  lemma SingleFieldPatches(s: Shop, imageUrl: string, height: int, columns: GridColumns)
    ensures MergeShop(s, BannerPatch(imageUrl)) == s.(banner_image_url := Some(imageUrl))
    ensures MergeShop(s, HeightPatch(height)) == s.(banner_height := height)
    ensures MergeShop(s, ColumnsPatch(columns)) == s.(grid_columns := columns)
  {
  }

  /** The file name of `handleExportCurrentView`. */
  function PreviewFileName(name: string): (r: string)
    ensures |r| == |name| + |"_preview.pdf"|
    ensures r[|name|..] == "_preview.pdf"
  {
    CatalogSlug(name) + "_preview.pdf"
  }

  /** The preview and the catalog are named after the same slug. */
  lemma PreviewAndCatalogShareSlug(name: string)
    ensures PreviewFileName(name)[..|name|] == CatalogFileName(name)[..|name|] == CatalogSlug(name)
  {
    CatalogSlugSpec(name);
  }

  /** The options of `handleExportPDF`. */
  const PageExportOptions := ExportOptions(true, A4, Portrait)

  class ShopPageState {
    /** The `shop` prop, whose id the auto-save uses. */
    const shop: Shop
    const isEditable: bool
    const hasShopCallback: bool
    const hasProductsCallback: bool
    const saver: AutoSaveDebouncer<(string, ShopPatch)>
    var currentShop: Shop
    var currentProducts: seq<Product>
    var isExporting: bool
    var editMode: bool
    /** The shops `onShopUpdate` received, oldest first. */
    var shopsForwarded: seq<Shop>
    /** The lists `onProductsUpdate` received, oldest first. */
    var productsForwarded: seq<seq<Product>>

    constructor (shop: Shop, products: seq<Product>, isEditable: bool, hasShopCallback: bool, hasProductsCallback: bool)
      ensures this.shop == shop && currentShop == shop && currentProducts == products
      ensures this.isEditable == isEditable && this.hasShopCallback == hasShopCallback
      ensures this.hasProductsCallback == hasProductsCallback
      ensures !isExporting && !editMode && shopsForwarded == [] && productsForwarded == []
      ensures fresh(saver) && saver.wait == AutoSaveDelay && saver.State() == Utils.DebounceState(None, [])
    {
      this.shop := shop;
      this.isEditable := isEditable;
      this.hasShopCallback := hasShopCallback;
      this.hasProductsCallback := hasProductsCallback;
      saver := new AutoSaveDebouncer(AutoSaveDelay);
      currentShop := shop;
      currentProducts := products;
      isExporting, editMode := false, false;
      shopsForwarded, productsForwarded := [], [];
    }

    /** `handleShopUpdate`: merge, forward the merged shop, and request an
        auto-save of the original id with the partial updates only. */
    method HandleShopUpdate(updates: ShopPatch)
      modifies this`currentShop, this`shopsForwarded, saver
      ensures currentShop == MergeShop(old(currentShop), updates)
      ensures shopsForwarded == old(shopsForwarded) + (if hasShopCallback then [currentShop] else [])
      ensures saver.State() ==
        if isEditable then Utils.DebounceCall(old(saver.State()), (shop.id, updates)) else old(saver.State())
    {
      currentShop := MergeShop(currentShop, updates);
      if hasShopCallback {
        shopsForwarded := shopsForwarded + [currentShop];
      }
      if isEditable {
        saver.Call((shop.id, updates));
      }
    }

    /** `handleProductsUpdate`: the list is replaced wholesale and the same
        list is forwarded. */
    method HandleProductsUpdate(newProducts: seq<Product>)
      modifies this`currentProducts, this`productsForwarded
      ensures currentProducts == newProducts
      ensures productsForwarded == old(productsForwarded) + (if hasProductsCallback then [newProducts] else [])
    {
      currentProducts := newProducts;
      if hasProductsCallback {
        productsForwarded := productsForwarded + [newProducts];
      }
    }

    method HandleBannerUpdate(imageUrl: string)
      modifies this`currentShop, this`shopsForwarded, saver
      ensures currentShop == old(currentShop).(banner_image_url := Some(imageUrl))
      ensures shopsForwarded == old(shopsForwarded) + (if hasShopCallback then [currentShop] else [])
      ensures saver.State() ==
        if isEditable then Utils.DebounceCall(old(saver.State()), (shop.id, BannerPatch(imageUrl))) else old(saver.State())
    {
      HandleShopUpdate(BannerPatch(imageUrl));
    }

    method HandleBannerHeightChange(height: int)
      modifies this`currentShop, this`shopsForwarded, saver
      ensures currentShop == old(currentShop).(banner_height := height)
      ensures shopsForwarded == old(shopsForwarded) + (if hasShopCallback then [currentShop] else [])
      ensures saver.State() ==
        if isEditable then Utils.DebounceCall(old(saver.State()), (shop.id, HeightPatch(height))) else old(saver.State())
    {
      HandleShopUpdate(HeightPatch(height));
    }

    method HandleGridColumnsChange(columns: GridColumns)
      modifies this`currentShop, this`shopsForwarded, saver
      ensures currentShop == old(currentShop).(grid_columns := columns)
      ensures shopsForwarded == old(shopsForwarded) + (if hasShopCallback then [currentShop] else [])
      ensures saver.State() ==
        if isEditable then Utils.DebounceCall(old(saver.State()), (shop.id, ColumnsPatch(columns))) else old(saver.State())
    {
      HandleShopUpdate(ColumnsPatch(columns));
    }

    /** The auto-save timer expires: the last scheduled `saveShop` runs once,
        against the store, with the id and the partial updates it was given. */
    method FireAutoSave(store: Store, outage: bool)
      requires store.Valid()
      modifies saver, store`log, store`shops
      ensures store.Valid()
      ensures saver.State() == Utils.DebounceFire(old(saver.State()))
      ensures old(saver.pending).None? ==> store.log == old(store.log) && store.shops == old(store.shops)
      ensures old(saver.pending).Some? ==>
        var shopId := old(saver.pending).value.0;
        var updates := old(saver.pending).value.1;
        var k := IndexOf(old(store.shops), ShopKey, shopId);
        store.log == old(store.log) + (if store.configured then [UpdateShopRow(shopId, updates)] else []) &&
        store.shops ==
          if store.configured && !outage && k.Some? then old(store.shops)[k.value := MergeShop(old(store.shops)[k.value], updates)]
          else old(store.shops)
    {
      var ran := saver.Fire();
      if ran.Some? {
        store.SaveShop(ran.value.0, ran.value.1, outage);
      }
    }

    /** The Edit / Preview button. */
    method ToggleEditMode()
      modifies this`editMode
      ensures editMode == !old(editMode)
    {
      editMode := !editMode;
    }

    /** `handleExportPDF`: the catalog of what the page currently shows, with
        images, on A4 portrait pages. */
    method HandleExportPDF(env: Environment, date: string) returns (fileName: string, pages: seq<seq<Document.Item>>)
      modifies this`isExporting
      ensures !isExporting
      ensures pages == CatalogPages(currentShop, currentProducts, PageExportOptions, env, date)
      ensures fileName == CatalogFileName(currentShop.name)
    {
      isExporting := true;
      var pdf;
      pdf, fileName := ExportShop(currentShop, currentProducts, PageExportOptions, env, date);
      pages := pdf.pages;
      isExporting := false;
    }

    /** `handleExportCurrentView`: a snapshot of the page content, named
        after the shop. */
    method HandleExportCurrentView(canvas: Option<Canvas>) returns (r: ViewExport)
      requires canvas.Some? ==> canvas.value.width > 0
      modifies this`isExporting
      ensures !isExporting
      ensures canvas.None? <==> r.ElementNotFound?
      ensures r.Exported? ==>
        r.fileName == PreviewFileName(currentShop.name) &&
        r.pdf.pages == TilePages(SnapshotHeight(canvas.value.width, canvas.value.height))
    {
      isExporting := true;
      r := ExportCurrentView(canvas, PreviewFileName(currentShop.name));
      isExporting := false;
    }
  }
}
