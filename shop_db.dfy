/** The record-store client: shop and product accessors, image storage paths,
    and auto-save. The hosted backend is an in-memory table; every request the
    client would send is appended to `log`, and a backend failure is an
    `outage` argument of the call. */
module ShopDb {
  import opened Strings
  import opened Records
  import Utils

  datatype Bucket = ProductImages | BannerImages

  /** `Omit<Shop, 'id' | 'created_at' | 'updated_at'>`. */
  datatype NewShop = NewShop(
    user_id: string,
    name: string,
    description: Option<string>,
    banner_image_url: Option<string>,
    banner_height: int,
    grid_columns: GridColumns)

  /** `Omit<Product, 'id' | 'created_at' | 'updated_at'>`. */
  datatype NewProduct = NewProduct(
    shop_id: string,
    name: string,
    description: Option<string>,
    price: real,
    image_url: Option<string>,
    position: int,
    is_active: bool)

  /** One record of the `reorderProducts` upsert. */
  datatype PositionUpdate = PositionUpdate(id: string, position: int)

  /** The requests the client sends to the backend. Both product listings send
      the same query. */
  datatype Request =
    | SelectShopById(shopId: string)
    | SelectShopOfUser(userId: string)
    | InsertShop(shopData: NewShop)
    | UpdateShopRow(shopId: string, shopUpdates: ShopPatch)
    | DeleteShopRow(shopId: string)
    | SelectActiveProducts(productsOf: string)
    | InsertProduct(productData: NewProduct)
    | UpdateProductRow(productId: string, productUpdates: ProductPatch)
    | DeleteProductRow(productId: string)
    | UpsertPositions(positions: seq<PositionUpdate>)
    | UploadObject(uploadBucket: Bucket, uploadPath: string)
    | RemoveObjects(removeBucket: Bucket, removePaths: seq<string>)

  // ------------------------------------------------------------ table queries

  /** The primary key of a shop row and of a product row. */
  function ShopKey(s: Shop): string { s.id }

  function ProductKey(p: Product): string { p.id }

  /** No two rows of a table share a key. */
  predicate UniqueKeys<T>(xs: seq<T>, key: T -> string) {
    forall i, j :: 0 <= i < j < |xs| ==> key(xs[i]) != key(xs[j])
  }

  /** `.eq('id', id)` on a table: the index of the row with that key, if any. */
  function IndexOf<T>(xs: seq<T>, key: T -> string, id: string): (r: Option<nat>)
    ensures r.Some? ==> r.value < |xs| && key(xs[r.value]) == id
    ensures r.None? ==> forall k :: 0 <= k < |xs| ==> key(xs[k]) != id
  {
    if xs == [] then None
    else if key(xs[0]) == id then Some(0)
    else match IndexOf(xs[1..], key, id)
      case Some(k) => Some(k + 1)
      case None => None
  }

  /** `.eq('user_id', userId)`: exactly the user's rows, in table order. */
  function ShopsOfUser(shops: seq<Shop>, userId: string): (r: seq<Shop>)
    ensures forall s :: s in r <==> s in shops && s.user_id == userId
  {
    if shops == [] then []
    else
      assert shops == [shops[0]] + shops[1..];
      (if shops[0].user_id == userId then [shops[0]] else []) + ShopsOfUser(shops[1..], userId)
  }

  lemma {:induction false} NoRowOfUser(shops: seq<Shop>, userId: string)
    requires forall j :: 0 <= j < |shops| ==> shops[j].user_id != userId
    ensures ShopsOfUser(shops, userId) == []
  {
    if shops != [] {
      NoRowOfUser(shops[1..], userId);
    }
  }

  /** When the user owns the row at `k` and no other, the selection is that
      one row. */
  lemma {:induction false} OnlyRowOfUser(shops: seq<Shop>, userId: string, k: nat)
    requires k < |shops| && shops[k].user_id == userId
    requires forall j :: 0 <= j < |shops| && j != k ==> shops[j].user_id != userId
    ensures ShopsOfUser(shops, userId) == [shops[k]]
  {
    if k == 0 {
      NoRowOfUser(shops[1..], userId);
    } else {
      OnlyRowOfUser(shops[1..], userId, k - 1);
    }
  }

  lemma TwoDistinctMembers<T>(r: seq<T>, a: T, b: T)
    requires a in r && b in r && a != b
    ensures |r| >= 2
  {
  }

  /** `.single()` over the user's rows gives the user's shop exactly when the
      user owns one row in a table with unique ids, and nothing when the user
      owns several. */
  lemma SingleUserShop(shops: seq<Shop>, userId: string, k: nat)
    requires UniqueKeys(shops, ShopKey)
    requires k < |shops| && shops[k].user_id == userId
    ensures Single(ShopsOfUser(shops, userId)) ==
      if forall j :: 0 <= j < |shops| && j != k ==> shops[j].user_id != userId then Some(shops[k]) else None
  {
    var r := ShopsOfUser(shops, userId);
    if forall j :: 0 <= j < |shops| && j != k ==> shops[j].user_id != userId {
      OnlyRowOfUser(shops, userId, k);
    } else {
      var j :| 0 <= j < |shops| && j != k && shops[j].user_id == userId;
      assert ShopKey(shops[j]) != ShopKey(shops[k]) by {
        if j < k { assert ShopKey(shops[j]) != ShopKey(shops[k]); } else { assert ShopKey(shops[k]) != ShopKey(shops[j]); }
      }
      assert shops[j] in r && shops[k] in r;
      TwoDistinctMembers(r, shops[j], shops[k]);
    }
  }

  /** `.single()`: the row when there is exactly one, an error otherwise. */
  function Single<T>(rows: seq<T>): Option<T>
  {
    if |rows| == 1 then Some(rows[0]) else None
  }

  /** `.eq('shop_id', shopId).eq('is_active', true)`. */
  function ActiveOfShop(ps: seq<Product>, shopId: string): seq<Product>
  {
    if ps == [] then []
    else (if ps[0].shop_id == shopId && ps[0].is_active then [ps[0]] else []) + ActiveOfShop(ps[1..], shopId)
  }

  predicate SortedByPosition(ps: seq<Product>) {
    forall i, j :: 0 <= i < j < |ps| ==> ps[i].position <= ps[j].position
  }

  function InsertByPosition(p: Product, sorted: seq<Product>): seq<Product>
  {
    if sorted == [] || p.position <= sorted[0].position then [p] + sorted
    else [sorted[0]] + InsertByPosition(p, sorted[1..])
  }

  /** `.order('position', { ascending: true })`; rows of equal position keep
      their table order, one of the orders the backend may return. */
  function SortByPosition(ps: seq<Product>): seq<Product>
  {
    if ps == [] then [] else InsertByPosition(ps[0], SortByPosition(ps[1..]))
  }

  /** The result of both product listings. */
  function ActiveListing(ps: seq<Product>, shopId: string): seq<Product>
  {
    SortByPosition(ActiveOfShop(ps, shopId))
  }

  /** Inserting keeps a lower bound on the positions. */
  lemma {:induction false} InsertByPositionBound(p: Product, sorted: seq<Product>, lo: int)
    requires p.position >= lo
    requires forall k :: 0 <= k < |sorted| ==> sorted[k].position >= lo
    ensures forall k :: 0 <= k < |InsertByPosition(p, sorted)| ==> InsertByPosition(p, sorted)[k].position >= lo
  {
    if sorted != [] && p.position > sorted[0].position {
      InsertByPositionBound(p, sorted[1..], lo);
    }
  }

  lemma {:induction false} InsertByPositionSorted(p: Product, sorted: seq<Product>)
    requires SortedByPosition(sorted)
    ensures SortedByPosition(InsertByPosition(p, sorted))
  {
    if sorted != [] && p.position > sorted[0].position {
      InsertByPositionSorted(p, sorted[1..]);
      InsertByPositionBound(p, sorted[1..], sorted[0].position);
    }
  }

  lemma {:induction false} InsertByPositionPermutes(p: Product, sorted: seq<Product>)
    ensures multiset(InsertByPosition(p, sorted)) == multiset(sorted) + multiset{p}
  {
    if sorted != [] && p.position > sorted[0].position {
      InsertByPositionPermutes(p, sorted[1..]);
      assert sorted == [sorted[0]] + sorted[1..];
    }
  }

  lemma {:induction false} SortByPositionCorrect(ps: seq<Product>)
    ensures SortedByPosition(SortByPosition(ps))
    ensures multiset(SortByPosition(ps)) == multiset(ps)
  {
    if ps != [] {
      SortByPositionCorrect(ps[1..]);
      InsertByPositionSorted(ps[0], SortByPosition(ps[1..]));
      InsertByPositionPermutes(ps[0], SortByPosition(ps[1..]));
      assert ps == [ps[0]] + ps[1..];
    }
  }

  lemma {:induction false} ActiveOfShopMembers(ps: seq<Product>, shopId: string, p: Product)
    ensures p in multiset(ActiveOfShop(ps, shopId)) <==> p in ps && p.shop_id == shopId && p.is_active
  {
    if ps != [] {
      ActiveOfShopMembers(ps[1..], shopId, p);
      assert ps == [ps[0]] + ps[1..];
    }
  }

  /** A listing holds exactly the active rows of the shop, each as often as in
      the table, in ascending position order. */
  lemma ActiveListingSpec(ps: seq<Product>, shopId: string)
    ensures SortedByPosition(ActiveListing(ps, shopId))
    ensures multiset(ActiveListing(ps, shopId)) == multiset(ActiveOfShop(ps, shopId))
    ensures forall p :: p in ActiveListing(ps, shopId) <==> p in ps && p.shop_id == shopId && p.is_active
  {
    SortByPositionCorrect(ActiveOfShop(ps, shopId));
    forall p ensures p in ActiveListing(ps, shopId) <==> p in ps && p.shop_id == shopId && p.is_active {
      ActiveOfShopMembers(ps, shopId, p);
      assert p in ActiveListing(ps, shopId) <==> p in multiset(ActiveListing(ps, shopId));
    }
  }

  /** An inactive product never appears in a listing, whatever its position. */
  lemma InactiveNeverListed(ps: seq<Product>, shopId: string, p: Product)
    requires !p.is_active
    ensures p !in ActiveListing(ps, shopId)
  {
    ActiveListingSpec(ps, shopId);
  }

  // -------------------------------------------------------------- reordering

  function SetPosition(ps: seq<Product>, u: PositionUpdate): (r: seq<Product>)
    ensures |r| == |ps|
  {
    seq(|ps|, i requires 0 <= i < |ps| => if ps[i].id == u.id then ps[i].(position := u.position) else ps[i])
  }

  /** The upsert, record by record. */
  function ApplyPositions(ps: seq<Product>, us: seq<PositionUpdate>): seq<Product>
    decreases |us|
  {
    if us == [] then ps else ApplyPositions(SetPosition(ps, us[0]), us[1..])
  }

  /** Reordering changes positions only: every row keeps its place, its id and
      every other field. */
  lemma {:induction false} ApplyPositionsTouchesOnlyPositions(ps: seq<Product>, us: seq<PositionUpdate>)
    ensures |ApplyPositions(ps, us)| == |ps|
    ensures forall i :: 0 <= i < |ps| ==>
      ApplyPositions(ps, us)[i] == ps[i].(position := ApplyPositions(ps, us)[i].position)
    decreases |us|
  {
    if us != [] {
      ApplyPositionsTouchesOnlyPositions(SetPosition(ps, us[0]), us[1..]);
    }
  }

  /** A row whose id no record names keeps its position. */
  lemma {:induction false} ApplyPositionsUnnamedRow(ps: seq<Product>, us: seq<PositionUpdate>, i: nat)
    requires i < |ps|
    requires forall k :: 0 <= k < |us| ==> us[k].id != ps[i].id
    ensures |ApplyPositions(ps, us)| == |ps| && ApplyPositions(ps, us)[i] == ps[i]
    decreases |us|
  {
    if us != [] {
      ApplyPositionsUnnamedRow(SetPosition(ps, us[0]), us[1..], i);
    }
  }

  lemma {:induction false} ApplyPositionsKeepsIds(ps: seq<Product>, us: seq<PositionUpdate>)
    requires UniqueKeys(ps, ProductKey)
    ensures UniqueKeys(ApplyPositions(ps, us), ProductKey)
  {
    ApplyPositionsTouchesOnlyPositions(ps, us);
  }

  // --------------------------------------------------------- storage paths

  /** `file.name.split('.').pop()`: the text after the last dot, or the whole
      name when there is none. */
  function FileExtension(fileName: string): string
  {
    var parts := Split(fileName, '.');
    parts[|parts| - 1]
  }

  lemma FileExtensionSpec(fileName: string)
    ensures '.' !in FileExtension(fileName)
    ensures '.' !in fileName ==> FileExtension(fileName) == fileName
    ensures '.' in fileName ==>
      exists stem :: fileName == stem + "." + FileExtension(fileName)
  {
    var parts := Split(fileName, '.');
    SplitPiecesHaveNoSeparator(fileName, '.');
    JoinSplit(fileName, '.');
    if |parts| == 1 {
      assert Join(parts, '.') == parts[0];
    } else {
      JoinSnoc(parts, '.');
      var stem := Join(parts[..|parts| - 1], '.');
      assert fileName == stem + "." + FileExtension(fileName);
      assert fileName[|stem|] == '.';
    }
  }

  /** `${userId}/${Date.now()}.${fileExt}`. */
  function UploadPath(userId: string, now: nat, ext: string): string
  {
    userId + "/" + NatToString(now) + "." + ext
  }

  /** A digit string ends at the first `.`, so it is fixed by what follows it. */
  lemma DigitsBeforeDot(t1: string, t2: string, e1: string, e2: string)
    requires forall i :: 0 <= i < |t1| ==> IsDigit(t1[i])
    requires forall i :: 0 <= i < |t2| ==> IsDigit(t2[i])
    ensures t1 + "." + e1 == t2 + "." + e2 ==> t1 == t2
  {
    var w1, w2 := t1 + "." + e1, t2 + "." + e2;
    assert w1[|t1|] == '.' && w2[|t2|] == '.';
    assert forall i :: 0 <= i < |t1| ==> w1[i] == t1[i];
    assert forall i :: 0 <= i < |t2| ==> w2[i] == t2[i];
    assert t1 == w1[..|t1|] && t2 == w2[..|t2|];
  }

  /** Uploads by the same user at different times go to different paths. */
  lemma UploadPathsDiffer(userId: string, now1: nat, now2: nat, ext: string)
    requires now1 != now2
    ensures UploadPath(userId, now1, ext) != UploadPath(userId, now2, ext)
  {
    var t1, t2 := NatToString(now1), NatToString(now2);
    NatToStringInjective(now1, now2);
    DigitsBeforeDot(t1, t2, ext, ext);
    var pre := userId + "/";
    var w1, w2 := t1 + "." + ext, t2 + "." + ext;
    assert UploadPath(userId, now1, ext) == pre + w1;
    assert UploadPath(userId, now2, ext) == pre + w2;
    assert (pre + w1)[|pre|..] == w1 && (pre + w2)[|pre|..] == w2;
  }

  function LastTwo(parts: seq<string>): seq<string>
  {
    if |parts| >= 2 then parts[|parts| - 2..] else parts
  }

  /** `url.split('/').slice(-2).join('/')`. */
  function DeletePath(url: string): string
  {
    Join(LastTwo(Split(url, '/')), '/')
  }

  /** A URL ending in `/dir/leaf`, with no `/` inside either, yields `dir/leaf`. */
  lemma DeletePathOfUrl(prefix: string, dir: string, leaf: string)
    requires '/' !in dir && '/' !in leaf
    ensures DeletePath(prefix + "/" + dir + "/" + leaf) == dir + "/" + leaf
  {
    SplitAtSeparator(prefix + "/" + dir, '/', leaf);
    SplitAtSeparator(prefix, '/', dir);
    SplitWithoutSeparator(dir, '/');
    SplitWithoutSeparator(leaf, '/');
    var parts := Split(prefix, '/') + [dir] + [leaf];
    assert prefix + "/" + dir + "/" + leaf == (prefix + ['/'] + dir) + ['/'] + leaf;
    assert Split(prefix + "/" + dir + "/" + leaf, '/') == parts;
    assert LastTwo(parts) == [dir, leaf];
    assert [dir, leaf][1..] == [leaf];
    assert Join([dir, leaf], '/') == dir + ['/'] + leaf;
  }

  /** The path removed for a public URL is the path that upload stored, as
      long as the user id and the file extension hold no `/`. */
  lemma DeleteFindsUploadPath(prefix: string, userId: string, now: nat, ext: string)
    requires '/' !in userId && '/' !in ext
    ensures DeletePath(prefix + "/" + UploadPath(userId, now, ext)) == UploadPath(userId, now, ext)
  {
    var leaf := NatToString(now) + "." + ext;
    var digits := NatToString(now);
    forall i | 0 <= i < |leaf| ensures leaf[i] != '/' {
      if i < |digits| {
        assert leaf[i] == digits[i];
      } else if i > |digits| {
        assert leaf[i] == ext[i - |digits| - 1];
      }
    }
    assert prefix + "/" + UploadPath(userId, now, ext) == prefix + "/" + userId + "/" + leaf;
    DeletePathOfUrl(prefix, userId, leaf);
  }

  /** Deleting the row at index `i` of a table with unique keys keeps exactly
      the rows with another key, and the keys stay unique. */
  lemma RemoveAtIndex<T>(xs: seq<T>, i: nat, key: T -> string)
    requires i < |xs|
    requires UniqueKeys(xs, key)
    ensures var ys := xs[..i] + xs[i + 1..];
      (forall x :: x in ys <==> x in xs && key(x) != key(xs[i])) && UniqueKeys(ys, key)
  {
    var ys := xs[..i] + xs[i + 1..];
    assert forall j :: 0 <= j < |ys| ==> ys[j] == if j < i then xs[j] else xs[j + 1];
    forall x | x in xs && key(x) != key(xs[i]) ensures x in ys {
      var j :| 0 <= j < |xs| && xs[j] == x;
      if j < i { assert ys[j] == x; } else { assert ys[j - 1] == x; }
    }
  }

  // ------------------------------------------------------------------ store

  /** The backend as seen by the client, with `isSupabaseConfigured()` fixed at
      construction. */
  class Store {
    const configured: bool
    const publicPrefix: Bucket -> string
    var shops: seq<Shop>
    var products: seq<Product>
    var objects: set<(Bucket, string)>
    var log: seq<Request>

    ghost predicate Valid()
      reads this
    {
      UniqueKeys(shops, ShopKey) && UniqueKeys(products, ProductKey)
    }

    constructor (configured: bool, publicPrefix: Bucket -> string)
      ensures Valid() && this.configured == configured && this.publicPrefix == publicPrefix
      ensures shops == [] && products == [] && objects == {} && log == []
    {
      this.configured := configured;
      this.publicPrefix := publicPrefix;
      shops, products, objects, log := [], [], {}, [];
    }

    /** `getPublicUrl(path)`. */
    function PublicUrl(bucket: Bucket, path: string): string
    {
      publicPrefix(bucket) + "/" + path
    }

    /** `shopDB.getShopById`. */
    method GetShopById(shopId: string, outage: bool) returns (r: Option<Shop>)
      requires Valid()
      modifies this`log
      ensures !configured ==> r == None && log == old(log)
      ensures configured ==> log == old(log) + [SelectShopById(shopId)]
      ensures configured ==> r == if outage then None else match IndexOf(shops, ShopKey, shopId)
        case Some(k) => Some(shops[k])
        case None => None
    {
      if !configured {
        return None;
      }
      log := log + [SelectShopById(shopId)];
      if outage {
        return None;
      }
      var k := IndexOf(shops, ShopKey, shopId);
      r := if k.Some? then Some(shops[k.value]) else None;
    }

    /** `shopDB.getUserShop`: no shop (`PGRST116`) and several shops both give null. */
    method GetUserShop(userId: string, outage: bool) returns (r: Option<Shop>)
      requires Valid()
      modifies this`log
      ensures !configured ==> r == None && log == old(log)
      ensures configured ==> log == old(log) + [SelectShopOfUser(userId)]
      ensures configured ==> r == if outage then None else Single(ShopsOfUser(shops, userId))
    {
      if !configured {
        return None;
      }
      log := log + [SelectShopOfUser(userId)];
      if outage {
        return None;
      }
      r := Single(ShopsOfUser(shops, userId));
    }

    /** `shopDB.createShop`; the backend picks `newId` and the timestamp `now`. */
    method CreateShop(shopData: NewShop, newId: string, now: string, outage: bool) returns (r: Option<Shop>)
      requires Valid()
      modifies this`log, this`shops
      ensures Valid()
      ensures !configured ==> r == None && log == old(log) && shops == old(shops)
      ensures configured ==> log == old(log) + [InsertShop(shopData)]
      ensures configured && (outage || IndexOf(old(shops), ShopKey, newId).Some?) ==> r == None && shops == old(shops)
      ensures configured && !outage && IndexOf(old(shops), ShopKey, newId).None? ==>
        r == Some(Shop(newId, shopData.user_id, shopData.name, shopData.description,
                       shopData.banner_image_url, shopData.banner_height, shopData.grid_columns, now, now)) &&
        shops == old(shops) + [r.value]
    {
      if !configured {
        return None;
      }
      log := log + [InsertShop(shopData)];
      if outage || IndexOf(shops, ShopKey, newId).Some? {
        return None;
      }
      var row := Shop(newId, shopData.user_id, shopData.name, shopData.description,
                      shopData.banner_image_url, shopData.banner_height, shopData.grid_columns, now, now);
      shops := shops + [row];
      r := Some(row);
    }

    /** `shopDB.updateShop`. */
    method UpdateShop(shopId: string, updates: ShopPatch, outage: bool) returns (r: Option<Shop>)
      requires Valid()
      modifies this`log, this`shops
      ensures Valid()
      ensures !configured ==> r == None && log == old(log) && shops == old(shops)
      ensures configured ==> log == old(log) + [UpdateShopRow(shopId, updates)]
      ensures configured && (outage || IndexOf(old(shops), ShopKey, shopId).None?) ==> r == None && shops == old(shops)
      ensures configured && !outage && IndexOf(old(shops), ShopKey, shopId).Some? ==>
        var k := IndexOf(old(shops), ShopKey, shopId).value;
        r == Some(MergeShop(old(shops)[k], updates)) && shops == old(shops)[k := r.value]
    {
      if !configured {
        return None;
      }
      log := log + [UpdateShopRow(shopId, updates)];
      var k := IndexOf(shops, ShopKey, shopId);
      if outage || k.None? {
        return None;
      }
      var row := MergeShop(shops[k.value], updates);
      shops := shops[k.value := row];
      r := Some(row);
    }

    /** `shopDB.deleteShop`: deleting an absent id is not an error. */
    method DeleteShop(shopId: string, outage: bool) returns (ok: bool)
      requires Valid()
      modifies this`log, this`shops
      ensures Valid()
      ensures ok == (configured && !outage)
      ensures !configured ==> log == old(log)
      ensures configured ==> log == old(log) + [DeleteShopRow(shopId)]
      ensures ok ==> forall s :: s in shops <==> s in old(shops) && s.id != shopId
      ensures !ok ==> shops == old(shops)
    {
      if !configured {
        return false;
      }
      log := log + [DeleteShopRow(shopId)];
      if outage {
        return false;
      }
      var k := IndexOf(shops, ShopKey, shopId);
      if k.Some? {
        RemoveAtIndex(shops, k.value, ShopKey);
        shops := shops[..k.value] + shops[k.value + 1..];
      }
      ok := true;
    }

    /** `productDB.getShopProductsPublic`. */
    method GetShopProductsPublic(shopId: string, outage: bool) returns (rows: seq<Product>)
      requires Valid()
      modifies this`log
      ensures !configured ==> rows == [] && log == old(log)
      ensures configured ==> log == old(log) + [SelectActiveProducts(shopId)]
      ensures configured ==> rows == if outage then [] else ActiveListing(products, shopId)
    {
      if !configured {
        return [];
      }
      log := log + [SelectActiveProducts(shopId)];
      if outage {
        return [];
      }
      rows := ActiveListing(products, shopId);
    }

    /** `productDB.getShopProducts`: the same query as the public listing. */
    method GetShopProducts(shopId: string, outage: bool) returns (rows: seq<Product>)
      requires Valid()
      modifies this`log
      ensures !configured ==> rows == [] && log == old(log)
      ensures configured ==> log == old(log) + [SelectActiveProducts(shopId)]
      ensures configured ==> rows == if outage then [] else ActiveListing(products, shopId)
    {
      if !configured {
        return [];
      }
      log := log + [SelectActiveProducts(shopId)];
      if outage {
        return [];
      }
      rows := ActiveListing(products, shopId);
    }

    /** `productDB.createProduct`. */
    method CreateProduct(productData: NewProduct, newId: string, now: string, outage: bool)
      returns (r: Option<Product>)
      requires Valid()
      modifies this`log, this`products
      ensures Valid()
      ensures !configured ==> r == None && log == old(log) && products == old(products)
      ensures configured ==> log == old(log) + [InsertProduct(productData)]
      ensures configured && (outage || IndexOf(old(products), ProductKey, newId).Some?) ==>
        r == None && products == old(products)
      ensures configured && !outage && IndexOf(old(products), ProductKey, newId).None? ==>
        r == Some(Product(newId, productData.shop_id, productData.name, productData.description,
                          productData.price, productData.image_url, productData.position,
                          productData.is_active, now, now)) &&
        products == old(products) + [r.value]
    {
      if !configured {
        return None;
      }
      log := log + [InsertProduct(productData)];
      if outage || IndexOf(products, ProductKey, newId).Some? {
        return None;
      }
      var row := Product(newId, productData.shop_id, productData.name, productData.description,
                         productData.price, productData.image_url, productData.position,
                         productData.is_active, now, now);
      products := products + [row];
      r := Some(row);
    }

    /** `productDB.updateProduct`. */
    method UpdateProduct(productId: string, updates: ProductPatch, outage: bool) returns (r: Option<Product>)
      requires Valid()
      modifies this`log, this`products
      ensures Valid()
      ensures !configured ==> r == None && log == old(log) && products == old(products)
      ensures configured ==> log == old(log) + [UpdateProductRow(productId, updates)]
      ensures configured && (outage || IndexOf(old(products), ProductKey, productId).None?) ==>
        r == None && products == old(products)
      ensures configured && !outage && IndexOf(old(products), ProductKey, productId).Some? ==>
        var k := IndexOf(old(products), ProductKey, productId).value;
        r == Some(MergeProduct(old(products)[k], updates)) && products == old(products)[k := r.value]
    {
      if !configured {
        return None;
      }
      log := log + [UpdateProductRow(productId, updates)];
      var k := IndexOf(products, ProductKey, productId);
      if outage || k.None? {
        return None;
      }
      var row := MergeProduct(products[k.value], updates);
      products := products[k.value := row];
      r := Some(row);
    }

    /** `productDB.deleteProduct`. */
    method DeleteProduct(productId: string, outage: bool) returns (ok: bool)
      requires Valid()
      modifies this`log, this`products
      ensures Valid()
      ensures ok == (configured && !outage)
      ensures !configured ==> log == old(log)
      ensures configured ==> log == old(log) + [DeleteProductRow(productId)]
      ensures ok ==> forall p :: p in products <==> p in old(products) && p.id != productId
      ensures !ok ==> products == old(products)
    {
      if !configured {
        return false;
      }
      log := log + [DeleteProductRow(productId)];
      if outage {
        return false;
      }
      var k := IndexOf(products, ProductKey, productId);
      if k.Some? {
        RemoveAtIndex(products, k.value, ProductKey);
        products := products[..k.value] + products[k.value + 1..];
      }
      ok := true;
    }

    /** `productDB.reorderProducts`: `updates.map(...)` copies each record's
        id and position, so the upsert carries the records as given, in order.
        Records whose id has no row are not modelled as inserts. */
    method ReorderProducts(updates: seq<PositionUpdate>, outage: bool) returns (ok: bool)
      requires Valid()
      modifies this`log, this`products
      ensures Valid()
      ensures ok == (configured && !outage)
      ensures !configured ==> log == old(log)
      ensures configured ==> log == old(log) + [UpsertPositions(updates)]
      ensures products == if ok then ApplyPositions(old(products), updates) else old(products)
      ensures |products| == |old(products)|
      ensures forall i :: 0 <= i < |products| ==> products[i] == old(products)[i].(position := products[i].position)
    {
      if !configured {
        return false;
      }
      log := log + [UpsertPositions(updates)];
      if outage {
        return false;
      }
      ApplyPositionsKeepsIds(products, updates);
      ApplyPositionsTouchesOnlyPositions(products, updates);
      products := ApplyPositions(products, updates);
      ok := true;
    }

    /** `imageDB.uploadImage`; `now` is `Date.now()`. An existing object at the
        same path makes the upload fail. */
    method UploadImage(fileName: string, bucket: Bucket, userId: string, now: nat, outage: bool)
      returns (url: Option<string>)
      requires Valid()
      modifies this`log, this`objects
      ensures !configured ==> url == None && log == old(log) && objects == old(objects)
      ensures configured ==>
        log == old(log) + [UploadObject(bucket, UploadPath(userId, now, FileExtension(fileName)))]
      ensures configured ==>
        var path := UploadPath(userId, now, FileExtension(fileName));
        if outage || (bucket, path) in old(objects) then url == None && objects == old(objects)
        else url == Some(PublicUrl(bucket, path)) && objects == old(objects) + {(bucket, path)}
    {
      if !configured {
        return None;
      }
      var path := UploadPath(userId, now, FileExtension(fileName));
      log := log + [UploadObject(bucket, path)];
      if outage || (bucket, path) in objects {
        return None;
      }
      objects := objects + {(bucket, path)};
      url := Some(PublicUrl(bucket, path));
    }

    /** `imageDB.deleteImage`. */
    method DeleteImage(url: string, bucket: Bucket, outage: bool) returns (ok: bool)
      requires Valid()
      modifies this`log, this`objects
      ensures ok == (configured && !outage)
      ensures !configured ==> log == old(log)
      ensures configured ==> log == old(log) + [RemoveObjects(bucket, [DeletePath(url)])]
      ensures objects == if ok then old(objects) - {(bucket, DeletePath(url))} else old(objects)
    {
      if !configured {
        return false;
      }
      var path := DeletePath(url);
      log := log + [RemoveObjects(bucket, [path])];
      if outage {
        return false;
      }
      objects := objects - {(bucket, path)};
      ok := true;
    }

    /** `autoSave.saveShop`. */
    method SaveShop(shopId: string, data: ShopPatch, outage: bool)
      requires Valid()
      modifies this`log, this`shops
      ensures Valid()
      ensures !configured ==> log == old(log) && shops == old(shops)
      ensures configured ==> log == old(log) + [UpdateShopRow(shopId, data)]
      ensures configured && (outage || IndexOf(old(shops), ShopKey, shopId).None?) ==> shops == old(shops)
      ensures configured && !outage && IndexOf(old(shops), ShopKey, shopId).Some? ==>
        var k := IndexOf(old(shops), ShopKey, shopId).value;
        shops == old(shops)[k := MergeShop(old(shops)[k], data)]
    {
      if !configured {
        return;
      }
      var _ := UpdateShop(shopId, data, outage);
    }

    /** `autoSave.saveProduct`. */
    method SaveProduct(productId: string, data: ProductPatch, outage: bool)
      requires Valid()
      modifies this`log, this`products
      ensures Valid()
      ensures !configured ==> log == old(log) && products == old(products)
      ensures configured ==> log == old(log) + [UpdateProductRow(productId, data)]
      ensures configured && (outage || IndexOf(old(products), ProductKey, productId).None?) ==> products == old(products)
      ensures configured && !outage && IndexOf(old(products), ProductKey, productId).Some? ==>
        var k := IndexOf(old(products), ProductKey, productId).value;
        products == old(products)[k := MergeProduct(old(products)[k], data)]
    {
      if !configured {
        return;
      }
      var _ := UpdateProduct(productId, data, outage);
    }
  }

  /** An upload followed by the deletion of the URL it returned removes the
      object it stored. */
  method UploadThenDelete(store: Store, fileName: string, bucket: Bucket, userId: string, now: nat)
    requires store.Valid() && store.configured
    requires '/' !in userId && '/' !in fileName
    requires (bucket, UploadPath(userId, now, FileExtension(fileName))) !in store.objects
    modifies store`log, store`objects
    ensures store.objects == old(store.objects)
  {
    var url := store.UploadImage(fileName, bucket, userId, now, false);
    var path := UploadPath(userId, now, FileExtension(fileName));
    assert url == Some(store.PublicUrl(bucket, path));
    assert '/' !in FileExtension(fileName) by {
      SplitPiecesHaveNoSeparator(fileName, '.');
      if '/' in FileExtension(fileName) {
        var i :| 0 <= i < |FileExtension(fileName)| && FileExtension(fileName)[i] == '/';
        FileExtensionSpec(fileName);
      }
    }
    DeleteFindsUploadPath(store.publicPrefix(bucket), userId, now, FileExtension(fileName));
    var ok := store.DeleteImage(url.value, bucket, false);
  }

  // --------------------------------------------------------------- auto-save

  /** `autoSave.debounce(func, wait)`: the closure's `timeout` is `pending`; it
      is cleared on every call, and every run of `func` is recorded in `invoked`. */
  class AutoSaveDebouncer<A> {
    const wait: int
    var pending: Option<A>
    var invoked: seq<A>

    function State(): Utils.DebounceState<A>
      reads this
    {
      Utils.DebounceState(pending, invoked)
    }

    constructor (wait: int)
      ensures this.wait == wait && State() == Utils.DebounceState(None, [])
    {
      this.wait := wait;
      pending := None;
      invoked := [];
    }

    method Call(args: A)
      modifies this
      ensures State() == Utils.DebounceCall(old(State()), args)
    {
      pending := Some(args);
    }

    method Fire() returns (ran: Option<A>)
      modifies this
      ensures ran == old(pending)
      ensures State() == Utils.DebounceFire(old(State()))
    {
      ran := pending;
      if pending.Some? {
        invoked := invoked + [pending.value];
        pending := None;
      }
    }
  }
}
