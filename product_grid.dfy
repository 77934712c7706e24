/** The product grid of a shop page: the list edits it hands to its
    `onProductsChange` callback, the "add product" form and the editable
    product card. A missing callback is `hasCallback == false`; the list
    handed to the callback is the result of a handler, `None` when it is not
    called. */
module ProductGrid {
  import opened Records
  import opened ShopDb

  // ------------------------------------------------------------ list edits

  /** `products.map(p => p.id === updated.id ? updated : p)`. */
  function ReplaceById(ps: seq<Product>, updated: Product): (r: seq<Product>)
  {
    if ps == [] then [] else [if ps[0].id == updated.id then updated else ps[0]] + ReplaceById(ps[1..], updated)
  }

  /** `products.filter(p => p.id !== id)`. */
  function RemoveById(ps: seq<Product>, id: string): (r: seq<Product>)
  {
    if ps == [] then [] else (if ps[0].id != id then [ps[0]] else []) + RemoveById(ps[1..], id)
  }

  /** The update keeps length and order: each entry with the updated id is
      replaced, every other entry is kept. */
  lemma {:induction false} ReplaceByIdSpec(ps: seq<Product>, updated: Product)
    ensures |ReplaceById(ps, updated)| == |ps|
    ensures forall i :: 0 <= i < |ps| ==>
      ReplaceById(ps, updated)[i] == if ps[i].id == updated.id then updated else ps[i]
  {
    if ps != [] {
      ReplaceByIdSpec(ps[1..], updated);
      assert forall i :: 1 <= i < |ps| ==> ps[1..][i - 1] == ps[i];
    }
  }

  /** Replacing twice with the same product is replacing once. */
  lemma ReplaceByIdIdempotent(ps: seq<Product>, updated: Product)
    ensures ReplaceById(ReplaceById(ps, updated), updated) == ReplaceById(ps, updated)
  {
    ReplaceByIdSpec(ps, updated);
    ReplaceByIdSpec(ReplaceById(ps, updated), updated);
  }

  /** The deletion keeps exactly the entries with another id. */
  lemma {:induction false} RemoveByIdMembers(ps: seq<Product>, id: string)
    ensures forall p :: p in RemoveById(ps, id) <==> p in ps && p.id != id
  {
    if ps != [] {
      RemoveByIdMembers(ps[1..], id);
      assert forall p :: p in ps <==> p == ps[0] || p in ps[1..];
    }
  }

  /** The deletion works piece by piece, so it keeps the relative order of
      what it keeps. */
  lemma {:induction false} RemoveByIdConcat(a: seq<Product>, b: seq<Product>, id: string)
    ensures RemoveById(a + b, id) == RemoveById(a, id) + RemoveById(b, id)
  {
    if a == [] {
      assert a + b == b;
    } else {
      var ab := a + b;
      assert ab[0] == a[0] && ab[1..] == a[1..] + b;
      var head := if a[0].id != id then [a[0]] else [];
      assert RemoveById(ab, id) == head + RemoveById(ab[1..], id);
      assert RemoveById(a, id) == head + RemoveById(a[1..], id);
      RemoveByIdConcat(a[1..], b, id);
    }
  }

  /** A list without the id is left as it is. */
  lemma {:induction false} RemoveAbsentId(ps: seq<Product>, id: string)
    requires forall k :: 0 <= k < |ps| ==> ps[k].id != id
    ensures RemoveById(ps, id) == ps
  {
    if ps != [] {
      RemoveAbsentId(ps[1..], id);
    }
  }

  /** Deleting a product just added, whose id was new, gives back the list. */
  lemma AddThenDelete(ps: seq<Product>, p: Product)
    requires forall k :: 0 <= k < |ps| ==> ps[k].id != p.id
    ensures RemoveById(ps + [p], p.id) == ps
  {
    RemoveByIdConcat(ps, [p], p.id);
    RemoveAbsentId(ps, p.id);
    assert RemoveById([p], p.id) == [];
  }

  // -------------------------------------------------------------- handlers

  /** `handleProductUpdate`. */
  function HandleProductUpdate(products: seq<Product>, hasCallback: bool, updated: Product): (r: Option<seq<Product>>)
    ensures r.Some? <==> hasCallback
    ensures r.Some? ==>
      |r.value| == |products| &&
      forall i :: 0 <= i < |products| ==> r.value[i] == if products[i].id == updated.id then updated else products[i]
  {
    ReplaceByIdSpec(products, updated);
    if hasCallback then Some(ReplaceById(products, updated)) else None
  }

  /** `handleProductAdd`: the old list followed by the new product. */
  function HandleProductAdd(products: seq<Product>, hasCallback: bool, added: Product): (r: Option<seq<Product>>)
    ensures r.Some? <==> hasCallback
    ensures r.Some? ==> |r.value| == |products| + 1 && r.value[..|products|] == products && r.value[|products|] == added
  {
    if hasCallback then Some(products + [added]) else None
  }

  /** `handleProductDelete`: the store call is always made; the list changes
      only when the store reports success and there is a callback. */
  method HandleProductDelete(store: Store, products: seq<Product>, hasCallback: bool, productId: string, outage: bool)
    returns (r: Option<seq<Product>>)
    requires store.Valid()
    modifies store`log, store`products
    ensures store.Valid()
    ensures store.log == old(store.log) + (if store.configured then [DeleteProductRow(productId)] else [])
    ensures r.Some? <==> hasCallback && store.configured && !outage
    ensures r.Some? ==> forall p :: p in r.value <==> p in products && p.id != productId
    ensures r.Some? ==> r.value == RemoveById(products, productId)
    ensures store.configured && !outage ==>
      forall p :: p in store.products <==> p in old(store.products) && p.id != productId
    ensures !(store.configured && !outage) ==> store.products == old(store.products)
  {
    var success := store.DeleteProduct(productId, outage);
    if success && hasCallback {
      RemoveByIdMembers(products, productId);
      r := Some(RemoveById(products, productId));
    } else {
      r := None;
    }
  }

  // ------------------------------------------------------ add product form

  /** `AddProductCard`'s state: whether the form is open and what it holds. */
  class AddProductForm {
    const shopId: string
    var isAdding: bool
    var name: string
    var description: string
    var price: real

    constructor (shopId: string)
      ensures this.shopId == shopId && !isAdding && name == "" && description == "" && price == 0.0
    {
      this.shopId := shopId;
      isAdding := false;
      name, description, price := "", "", 0.0;
    }

    /** The Add button's `disabled`, and the guard of `handleAdd`. */
    predicate AddDisabled()
      reads this
    {
      name == "" || price <= 0.0
    }

    /** What `handleAdd` sends to `createProduct`; `now` stands for `Date.now()`. */
    function Payload(now: nat): (r: NewProduct)
      reads this
      ensures r.shop_id == shopId && r.is_active && r.name == name &&
              r.description == Some(description) && r.price == price && r.image_url.None?
    {
      NewProduct(shopId, name, Some(description), price, None, now, true)
    }

    method Open()
      modifies this`isAdding
      ensures isAdding
    {
      isAdding := true;
    }

    method Edit(name: string, description: string, price: real)
      modifies this`name, this`description, this`price
      ensures this.name == name && this.description == description && this.price == price
    {
      this.name, this.description, this.price := name, description, price;
    }

    /** The Cancel button. */
    method Cancel()
      modifies this`isAdding, this`name, this`description, this`price
      ensures !isAdding && name == "" && description == "" && price == 0.0
    {
      isAdding := false;
      name, description, price := "", "", 0.0;
    }

    /** `handleAdd`; `newId` and `stamp` are what the backend assigns. */
    method HandleAdd(store: Store, now: nat, newId: string, stamp: string, outage: bool) returns (added: Option<Product>)
      requires store.Valid()
      modifies this`isAdding, this`name, this`description, this`price, store`log, store`products
      ensures store.Valid()
      ensures old(AddDisabled()) ==>
        added == None && store.log == old(store.log) && store.products == old(store.products) &&
        isAdding == old(isAdding) && name == old(name) && description == old(description) && price == old(price)
      ensures !old(AddDisabled()) ==>
        store.log == old(store.log) + (if store.configured then [InsertProduct(old(Payload(now)))] else [])
      ensures !old(AddDisabled()) ==>
        (added.Some? <==> store.configured && !outage && IndexOf(old(store.products), ProductKey, newId).None?)
      ensures store.products == old(store.products) + (if added.Some? then [added.value] else [])
      ensures added.Some? ==>
        added.value == Product(newId, shopId, old(name), Some(old(description)), old(price), None, now, true, stamp, stamp) &&
        !isAdding && name == "" && description == "" && price == 0.0
      ensures added.None? ==>
        isAdding == old(isAdding) && name == old(name) && description == old(description) && price == old(price)
    {
      if name == "" || price <= 0.0 {
        return None;
      }
      added := store.CreateProduct(Payload(now), newId, stamp, outage);
      if added.Some? {
        name, description, price := "", "", 0.0;
        isAdding := false;
      }
    }
  }

  // ----------------------------------------------------------- product card

  /** The patch of `handleImageChange`: `{ image_url: imageUrl }`. */
  function ImagePatch(imageUrl: string): (r: ProductPatch)
    ensures r.image_url == Some(imageUrl)
    ensures r.shop_id.None? && r.name.None? && r.description.None? && r.price.None? &&
            r.position.None? && r.is_active.None?
  {
    ProductPatch(None, None, None, None, Some(imageUrl), None, None)
  }

  /** The image update changes the row's image and nothing else. */
  lemma ImagePatchChangesOnlyImage(r: Product, imageUrl: string)
    ensures MergeProduct(r, ImagePatch(imageUrl)) == r.(image_url := Some(imageUrl))
  {
  }

  /** `ProductCard`'s state for one product. The card is keyed by the
      product's id, so it keeps its state across re-renders while its
      `product` prop follows the parent's list. */
  class ProductCardState {
    var product: Product
    var isEditing: bool
    var isUploading: bool
    var editName: string
    var editDescription: string
    var editPrice: real

    /** `editData` as the product shows it: a missing description is `''`. */
    predicate ShowsProduct()
      reads this
    {
      editName == product.name && editDescription == product.description.GetOr("") &&
      editPrice == product.price
    }

    constructor (product: Product)
      ensures this.product == product && !isEditing && !isUploading && ShowsProduct()
    {
      this.product := product;
      isEditing, isUploading := false, false;
      editName, editDescription, editPrice := product.name, product.description.GetOr(""), product.price;
    }

    /** A re-render whose list holds `p` at this card's key: the prop becomes
        `p`, and the editing state is kept. */
    method ReceiveProduct(p: Product)
      requires p.id == product.id
      modifies this`product
      ensures product == p
    {
      product := p;
    }

    /** The pencil button. */
    method StartEdit()
      modifies this`isEditing
      ensures isEditing
    {
      isEditing := true;
    }

    method Edit(name: string, description: string, price: real)
      modifies this`editName, this`editDescription, this`editPrice
      ensures editName == name && editDescription == description && editPrice == price
    {
      editName, editDescription, editPrice := name, description, price;
    }

    /** The Cancel button: leave edit mode and restore the product's values. */
    method Cancel()
      modifies this`isEditing, this`editName, this`editDescription, this`editPrice
      ensures !isEditing && ShowsProduct()
    {
      isEditing := false;
      editName, editDescription, editPrice := product.name, product.description.GetOr(""), product.price;
    }

    /** The patch `handleSave` sends: the three edited fields and nothing else. */
    function EditPatch(): (r: ProductPatch)
      reads this
      ensures r.name == Some(editName) && r.description == Some(editDescription) && r.price == Some(editPrice)
      ensures r.shop_id.None? && r.image_url.None? && r.position.None? && r.is_active.None?
    {
      ProductPatch(None, Some(editName), Some(editDescription), Some(editPrice), None, None, None)
    }

    /** `handleSave`: edit mode ends only when the store returns the row. */
    method HandleSave(store: Store, outage: bool) returns (updated: Option<Product>)
      requires store.Valid()
      modifies this`isEditing, store`log, store`products
      ensures store.Valid()
      ensures store.log == old(store.log) + (if store.configured then [UpdateProductRow(product.id, old(EditPatch()))] else [])
      ensures updated.Some? ==> !isEditing
      ensures updated.None? ==> isEditing == old(isEditing)
      ensures var k := IndexOf(old(store.products), ProductKey, product.id);
        if store.configured && !outage && k.Some? then
          updated == Some(MergeProduct(old(store.products)[k.value], old(EditPatch()))) &&
          store.products == old(store.products)[k.value := updated.value]
        else
          updated == None && store.products == old(store.products)
    {
      updated := store.UpdateProduct(product.id, EditPatch(), outage);
      if updated.Some? {
        isEditing := false;
      }
    }

    /** `handleImageChange`: `fileName` is `None` when no file was chosen. The
        upload comes first; the product row is updated only with a URL. */
    method HandleImageChange(store: Store, fileName: Option<string>, userId: string, now: nat,
                             uploadOutage: bool, updateOutage: bool)
      returns (updated: Option<Product>)
      requires store.Valid()
      modifies this`isUploading, store`log, store`products, store`objects
      ensures store.Valid()
      ensures fileName.None? ==> updated == None && store.log == old(store.log) && isUploading == old(isUploading)
      ensures fileName.Some? ==> !isUploading
      ensures fileName.None? || !store.configured ==>
        updated == None && store.log == old(store.log) &&
        store.objects == old(store.objects) && store.products == old(store.products)
      ensures fileName.Some? && store.configured ==>
        var path := UploadPath(userId, now, FileExtension(fileName.value));
        var patch := ImagePatch(store.PublicUrl(ProductImages, path));
        var uploaded := !uploadOutage && (ProductImages, path) !in old(store.objects);
        var k := IndexOf(old(store.products), ProductKey, product.id);
        store.log == old(store.log) + [UploadObject(ProductImages, path)] +
          (if uploaded then [UpdateProductRow(product.id, patch)] else []) &&
        store.objects == old(store.objects) + (if uploaded then {(ProductImages, path)} else {}) &&
        if uploaded && !updateOutage && k.Some? then
          updated == Some(MergeProduct(old(store.products)[k.value], patch)) &&
          store.products == old(store.products)[k.value := updated.value]
        else
          updated == None && store.products == old(store.products)
    {
      if fileName.None? {
        return None;
      }
      isUploading := true;
      var imageUrl := store.UploadImage(fileName.value, ProductImages, userId, now, uploadOutage);
      updated := None;
      if imageUrl.Some? {
        updated := store.UpdateProduct(product.id, ImagePatch(imageUrl.value), updateOutage);
      }
      isUploading := false;
    }
  }

  /** One card of the grid's render `products.map(product => <ProductCard
      key={product.id} product={product} />)`: the card keyed by its product's
      id receives the row of the new list with that id. A card whose row is
      gone is left as it is. */
  method RerenderCard(card: ProductCardState, products: seq<Product>)
    modifies card`product
    ensures var k := IndexOf(products, ProductKey, old(card.product.id));
      card.product == if k.Some? then products[k.value] else old(card.product)
  {
    var k := IndexOf(products, ProductKey, card.product.id);
    if k.Some? {
      card.ReceiveProduct(products[k.value]);
    }
  }

  /** The row a card hands to `onUpdate` comes back to that card: in the
      list `handleProductUpdate` makes, the card's key finds the updated row. */
  lemma ReplacedRowReachesCard(ps: seq<Product>, updated: Product)
    requires exists k :: 0 <= k < |ps| && ps[k].id == updated.id
    ensures var k := IndexOf(ReplaceById(ps, updated), ProductKey, updated.id);
      k.Some? && ReplaceById(ps, updated)[k.value] == updated
  {
    ReplaceByIdSpec(ps, updated);
    var j :| 0 <= j < |ps| && ps[j].id == updated.id;
    assert ProductKey(ReplaceById(ps, updated)[j]) == updated.id;
  }
}
