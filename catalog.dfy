/** The product record of backend/models/Product.js: its fields, the defaults a new document
    receives, the validators a save must pass and the two unique indexes (sku, barcode). */
module Catalog {

  import opened Common
  import opened Text

  /** A product document. Money is in cents; `stockQuantity` is the current count on hand.
      `barcode` is `None` when the document has no such field (the sparse index skips it). */
  datatype Product = Product(
    name: string,
    sku: string,
    category: string,
    price: int,
    cost: int,
    stockQuantity: int,
    minStockLevel: int,
    description: Option<string>,
    image: Option<string>,
    active: bool,
    barcode: Option<string>)

  /** A product as a client sees it in a listing: the document with its `_id`. */
  datatype ProductDoc = ProductDoc(id: ProductId, data: Product)

  const DefaultMinStockLevel: int := 10

  /** The schema validators a save runs: the required strings are non-empty and price, cost and
      stock are at least 0 (`min: 0`). `minStockLevel` has no lower bound. */
  predicate Admissible(p: Product) {
    && p.name != ""
    && p.sku != ""
    && p.category != ""
    && p.price >= 0
    && p.cost >= 0
    && p.stockQuantity >= 0
  }

  /** What a persisted document looks like: admissible, with the `trim` setters applied. */
  predicate Stored(p: Product) {
    && Admissible(p)
    && IsTrimmed(p.name)
    && (p.description.Some? ==> IsTrimmed(p.description.value))
  }

  /** Two documents that the unique indexes forbid from coexisting. */
  predicate SharesKey(p: Product, q: Product) {
    p.sku == q.sku || (p.barcode.Some? && p.barcode == q.barcode)
  }

  /** No document other than `id` shares a unique key with `p`. */
  predicate KeysFreeFor(products: map<ProductId, Product>, id: ProductId, p: Product) {
    forall other :: other in products && other != id ==> !SharesKey(products[other], p)
  }

  predicate UniqueKeys(products: map<ProductId, Product>) {
    forall a, b :: a in products && b in products && a != b ==> !SharesKey(products[a], products[b])
  }

  /** Writing a document whose keys are free keeps the indexes unique. */
  lemma {:induction false} UniqueKeysAfterWrite(products: map<ProductId, Product>, id: ProductId, p: Product)
    requires UniqueKeys(products) && KeysFreeFor(products, id, p)
    ensures UniqueKeys(products[id := p])
  {
    var m := products[id := p];
    forall a, b | a in m && b in m && a != b
      ensures !SharesKey(m[a], m[b])
    {
      if a == id {
        assert !SharesKey(products[b], p);
      } else if b == id {
        assert !SharesKey(products[a], p);
      } else {
        assert !SharesKey(products[a], products[b]);
      }
    }
  }

  /** The body of a create request; `None` is a field that was not sent. A required string that
      was not sent is the empty string, which the `required` validator refuses the same way. */
  datatype ProductInput = ProductInput(
    name: string,
    sku: string,
    category: string,
    price: Option<int>,
    cost: Option<int>,
    stockQuantity: Option<int>,
    minStockLevel: Option<int>,
    description: Option<string>,
    image: Option<string>,
    active: Option<bool>,
    barcode: Option<string>)

  /** `new Product(body)`: the defaults filled in and the `trim` setters applied; `None` when a
      required number is missing, which the `required` validator then refuses. */
  function NewProduct(input: ProductInput): (r: Option<Product>)
    ensures r.Some? <==> input.price.Some? && input.cost.Some? && input.stockQuantity.Some?
    ensures r.Some? ==> r.value.name == Trim(input.name) && r.value.sku == input.sku
    ensures r.Some? ==> r.value.category == input.category
    ensures r.Some? ==> r.value.price == input.price.value && r.value.cost == input.cost.value
    ensures r.Some? ==> r.value.stockQuantity == input.stockQuantity.value
    ensures r.Some? ==> r.value.minStockLevel == input.minStockLevel.GetOr(DefaultMinStockLevel)
    ensures r.Some? ==> r.value.active == input.active.GetOr(true)
    ensures r.Some? ==> r.value.description == if input.description.Some? then Some(Trim(input.description.value)) else None
    ensures r.Some? ==> r.value.image == input.image && r.value.barcode == input.barcode
    ensures r.Some? && Admissible(r.value) ==> Stored(r.value)
  {
    if input.price.None? || input.cost.None? || input.stockQuantity.None? then None
    else
      Some(Product(
        Trim(input.name),
        input.sku,
        input.category,
        input.price.value,
        input.cost.value,
        input.stockQuantity.value,
        input.minStockLevel.GetOr(DefaultMinStockLevel),
        if input.description.Some? then Some(Trim(input.description.value)) else None,
        input.image,
        input.active.GetOr(true),
        input.barcode))
  }

  /** The body of an update request: each field that was sent is copied onto the document. */
  datatype ProductPatch = ProductPatch(
    name: Option<string>,
    sku: Option<string>,
    category: Option<string>,
    price: Option<int>,
    cost: Option<int>,
    stockQuantity: Option<int>,
    minStockLevel: Option<int>,
    description: Option<string>,
    image: Option<string>,
    active: Option<bool>,
    barcode: Option<string>)

  /** Copying the sent fields of an update body onto the document; the trimmed fields are
      trimmed on the way in. */
  function ApplyPatch(p: Product, patch: ProductPatch): (r: Product)
    ensures r.name == if patch.name.Some? then Trim(patch.name.value) else p.name
    ensures r.sku == patch.sku.GetOr(p.sku) && r.category == patch.category.GetOr(p.category)
    ensures r.price == patch.price.GetOr(p.price) && r.cost == patch.cost.GetOr(p.cost)
    ensures r.stockQuantity == patch.stockQuantity.GetOr(p.stockQuantity)
    ensures r.minStockLevel == patch.minStockLevel.GetOr(p.minStockLevel)
    ensures r.active == patch.active.GetOr(p.active) && r.image == if patch.image.Some? then patch.image else p.image
    ensures r.barcode == if patch.barcode.Some? then patch.barcode else p.barcode
    ensures r.description == if patch.description.Some? then Some(Trim(patch.description.value)) else p.description
    ensures Stored(p) && Admissible(r) ==> Stored(r)
  {
    p.(
      name := if patch.name.Some? then Trim(patch.name.value) else p.name,
      sku := patch.sku.GetOr(p.sku),
      category := patch.category.GetOr(p.category),
      price := patch.price.GetOr(p.price),
      cost := patch.cost.GetOr(p.cost),
      stockQuantity := patch.stockQuantity.GetOr(p.stockQuantity),
      minStockLevel := patch.minStockLevel.GetOr(p.minStockLevel),
      description := if patch.description.Some? then Some(Trim(patch.description.value)) else p.description,
      image := if patch.image.Some? then patch.image else p.image,
      active := patch.active.GetOr(p.active),
      barcode := if patch.barcode.Some? then patch.barcode else p.barcode)
  }

  /** A body that sends nothing leaves the document as it is. */
  lemma EmptyPatchIsIdentity(p: Product)
    ensures ApplyPatch(p, ProductPatch(None, None, None, None, None, None, None, None, None, None, None)) == p
  {
  }

  /** The low-stock query: active documents at or below their reorder threshold. */
  predicate LowStock(p: Product) {
    p.active && p.stockQuantity <= p.minStockLevel
  }
}
