/** The two persisted entities of the storefront, the partial updates that are
    spread over them, and the optional-value wrapper used throughout. */
module Records {

  datatype Option<T> = None | Some(value: T) {
    function GetOr(default: T): T {
      match this
      case Some(v) => v
      case None => default
    }
  }

  /** JavaScript truthiness of an optional string: present and not empty. */
  predicate Truthy(o: Option<string>) {
    o.Some? && o.value != ""
  }

  /** The number of columns of a shop's product grid: 3, 4 or 5. */
  type GridColumns = c: nat | 3 <= c <= 5 witness 3

  datatype Shop = Shop(
    id: string,
    user_id: string,
    name: string,
    description: Option<string>,
    banner_image_url: Option<string>,
    banner_height: int,
    grid_columns: GridColumns,
    created_at: string,
    updated_at: string)

  datatype Product = Product(
    id: string,
    shop_id: string,
    name: string,
    description: Option<string>,
    price: real,
    image_url: Option<string>,
    position: int,
    is_active: bool,
    created_at: string,
    updated_at: string)

  /** A `Partial<Shop>` over the fields a client may change; a present field
      overrides, an absent one is kept. */
  datatype ShopPatch = ShopPatch(
    user_id: Option<string>,
    name: Option<string>,
    description: Option<string>,
    banner_image_url: Option<string>,
    banner_height: Option<int>,
    grid_columns: Option<GridColumns>)

  const NoShopChanges := ShopPatch(None, None, None, None, None, None)

  /** The fields of a shop patch that are present. */
  function ShopPatchFields(p: ShopPatch): set<string>
  {
    (if p.user_id.Some? then {"user_id"} else {}) +
    (if p.name.Some? then {"name"} else {}) +
    (if p.description.Some? then {"description"} else {}) +
    (if p.banner_image_url.Some? then {"banner_image_url"} else {}) +
    (if p.banner_height.Some? then {"banner_height"} else {}) +
    (if p.grid_columns.Some? then {"grid_columns"} else {})
  }

  /** The object spread `{ ...shop, ...updates }`. */
  function MergeShop(s: Shop, p: ShopPatch): Shop
  {
    s.(user_id := p.user_id.GetOr(s.user_id),
       name := p.name.GetOr(s.name),
       description := if p.description.Some? then p.description else s.description,
       banner_image_url := if p.banner_image_url.Some? then p.banner_image_url else s.banner_image_url,
       banner_height := p.banner_height.GetOr(s.banner_height),
       grid_columns := p.grid_columns.GetOr(s.grid_columns))
  }

  /** Spreading `q` after `p`: `q`'s present fields win. */
  function ThenShopPatch(p: ShopPatch, q: ShopPatch): ShopPatch
  {
    ShopPatch(
      if q.user_id.Some? then q.user_id else p.user_id,
      if q.name.Some? then q.name else p.name,
      if q.description.Some? then q.description else p.description,
      if q.banner_image_url.Some? then q.banner_image_url else p.banner_image_url,
      if q.banner_height.Some? then q.banner_height else p.banner_height,
      if q.grid_columns.Some? then q.grid_columns else p.grid_columns)
  }

  /** The merge overrides exactly the present fields and keeps every other
      field, identity and timestamps included. */
  lemma MergeShopOverridesPresentFields(s: Shop, p: ShopPatch)
    ensures var r := MergeShop(s, p);
      r.id == s.id && r.created_at == s.created_at && r.updated_at == s.updated_at &&
      (if p.user_id.Some? then r.user_id == p.user_id.value else r.user_id == s.user_id) &&
      (if p.name.Some? then r.name == p.name.value else r.name == s.name) &&
      (if p.description.Some? then r.description == p.description else r.description == s.description) &&
      (if p.banner_image_url.Some? then r.banner_image_url == p.banner_image_url
       else r.banner_image_url == s.banner_image_url) &&
      (if p.banner_height.Some? then r.banner_height == p.banner_height.value
       else r.banner_height == s.banner_height) &&
      (if p.grid_columns.Some? then r.grid_columns == p.grid_columns.value
       else r.grid_columns == s.grid_columns)
  {
  }

  lemma MergeShopNoChanges(s: Shop)
    ensures MergeShop(s, NoShopChanges) == s
  {
  }

  lemma MergeShopIdempotent(s: Shop, p: ShopPatch)
    ensures MergeShop(MergeShop(s, p), p) == MergeShop(s, p)
  {
  }

  /** Two successive merges are one merge of the combined patch. */
  lemma MergeShopTwice(s: Shop, p: ShopPatch, q: ShopPatch)
    ensures MergeShop(MergeShop(s, p), q) == MergeShop(s, ThenShopPatch(p, q))
  {
  }

  /** A `Partial<Product>` over the fields a client may change. */
  datatype ProductPatch = ProductPatch(
    shop_id: Option<string>,
    name: Option<string>,
    description: Option<string>,
    price: Option<real>,
    image_url: Option<string>,
    position: Option<int>,
    is_active: Option<bool>)

  const NoProductChanges := ProductPatch(None, None, None, None, None, None, None)

  /** The row the backend's `update(updates)` leaves: the present fields of
      the patch over the old row. */
  function MergeProduct(r: Product, p: ProductPatch): Product
  {
    r.(shop_id := p.shop_id.GetOr(r.shop_id),
       name := p.name.GetOr(r.name),
       description := if p.description.Some? then p.description else r.description,
       price := p.price.GetOr(r.price),
       image_url := if p.image_url.Some? then p.image_url else r.image_url,
       position := p.position.GetOr(r.position),
       is_active := p.is_active.GetOr(r.is_active))
  }

  /** The merge overrides exactly the present fields and keeps every other
      field, identity and timestamps included. */
  lemma MergeProductOverridesPresentFields(r: Product, p: ProductPatch)
    ensures var m := MergeProduct(r, p);
      m.id == r.id && m.created_at == r.created_at && m.updated_at == r.updated_at &&
      (if p.shop_id.Some? then m.shop_id == p.shop_id.value else m.shop_id == r.shop_id) &&
      (if p.name.Some? then m.name == p.name.value else m.name == r.name) &&
      (if p.description.Some? then m.description == p.description else m.description == r.description) &&
      (if p.price.Some? then m.price == p.price.value else m.price == r.price) &&
      (if p.image_url.Some? then m.image_url == p.image_url else m.image_url == r.image_url) &&
      (if p.position.Some? then m.position == p.position.value else m.position == r.position) &&
      (if p.is_active.Some? then m.is_active == p.is_active.value else m.is_active == r.is_active)
  {
  }

  lemma MergeProductNoChanges(r: Product)
    ensures MergeProduct(r, NoProductChanges) == r
  {
  }
}
