/** The server's persistent state as the product and sale handlers change it: the product
    collection, the inventory log, the sale collection and the id counter that stands for the
    store's `_id` generator. Each handler of backend/routes/products.js and the create-sale
    handler of backend/routes/sales.js (with the hooks of backend/models/Sale.js it triggers)
    is one method. */
module Store {

  import opened Common
  import opened Text
  import opened Catalog
  import opened Ledger
  import opened SaleNumber
  import opened SaleRecord
  import opened Checkout

  const ProductNotFound: string := "Product not found"
  const NegativeStock: string := "Stock cannot be negative"
  const ProductDeleted: string := "Product deleted successfully"
  const InitialStock: string := "Initial stock"
  const ManualAdjustment: string := "Manual adjustment"
  const StockAdjustment: string := "Stock adjustment"

  class PosStore {
    var products: map<ProductId, Product>
    var ledger: seq<InventoryLog>
    var sales: seq<Sale>
    var nextId: nat

    /** What every handler keeps: stored documents pass their validators and the unique indexes
        hold, every log entry is balanced and complete, and sale numbers are unique. */
    ghost predicate Valid()
      reads this
    {
      && (forall id :: id in products ==> id < nextId && Stored(products[id]))
      && UniqueKeys(products)
      && LedgerBalanced(ledger)
      && NumbersUnique(sales)
    }

    constructor ()
      ensures Valid()
      ensures products == map[] && ledger == [] && sales == [] && nextId == 0
    {
      products := map[];
      ledger := [];
      sales := [];
      nextId := 0;
    }

    /** POST /products: the document built from the body is validated and inserted, then one
        `purchase` entry records its whole stock as the initial delivery. */
    method CreateProduct(input: ProductInput, actor: UserId) returns (r: Result<ProductDoc>)
      requires Valid()
      modifies this
      ensures Valid()
      ensures sales == old(sales)
      ensures NewProduct(input).None? || !Admissible(NewProduct(input).value) ==>
                r == Err(ApiError(400, ValidationFailed)) && unchanged(this)
      ensures NewProduct(input).Some? && Admissible(NewProduct(input).value)
              && !KeysFreeFor(old(products), old(nextId), NewProduct(input).value) ==>
                r == Err(ApiError(400, DuplicateKey)) && unchanged(this)
      ensures NewProduct(input).Some? && Admissible(NewProduct(input).value)
              && KeysFreeFor(old(products), old(nextId), NewProduct(input).value) ==>
                var p := NewProduct(input).value;
                && r == Ok(ProductDoc(old(nextId), p))
                && products == old(products)[old(nextId) := p]
                && nextId == old(nextId) + 1
                && ledger == old(ledger) + [InventoryLog(old(nextId), Purchase, p.stockQuantity, 0,
                                                         p.stockQuantity, InitialStock, None, actor)]
    {
      var built := NewProduct(input);
      if built.None? || !Admissible(built.value) {
        return Err(ApiError(400, ValidationFailed));
      }
      var p := built.value;
      if !KeysFreeFor(products, nextId, p) {
        return Err(ApiError(400, DuplicateKey));
      }
      var id := nextId;
      UniqueKeysAfterWrite(products, id, p);
      products := products[id := p];
      nextId := nextId + 1;
      var e := InventoryLog(id, Purchase, p.stockQuantity, 0, p.stockQuantity, InitialStock, None, actor);
      AppendBalanced(ledger, [e]);
      ledger := ledger + [e];
      return Ok(ProductDoc(id, p));
    }

    /** PUT /products/:id: every field of the body is copied onto the document, which is saved;
        an `adjustment` entry is written only when the stock count changed. */
    method UpdateProduct(id: ProductId, patch: ProductPatch, actor: UserId) returns (r: Result<ProductDoc>)
      requires Valid()
      modifies this
      ensures Valid()
      ensures sales == old(sales) && nextId == old(nextId)
      ensures id !in old(products) ==> r == Err(ApiError(404, ProductNotFound)) && unchanged(this)
      ensures id in old(products) && !Admissible(ApplyPatch(old(products)[id], patch)) ==>
                r == Err(ApiError(400, ValidationFailed)) && unchanged(this)
      ensures id in old(products) && Admissible(ApplyPatch(old(products)[id], patch))
              && !KeysFreeFor(old(products), id, ApplyPatch(old(products)[id], patch)) ==>
                r == Err(ApiError(400, DuplicateKey)) && unchanged(this)
      ensures id in old(products) && Admissible(ApplyPatch(old(products)[id], patch))
              && KeysFreeFor(old(products), id, ApplyPatch(old(products)[id], patch)) ==>
                var before := old(products)[id].stockQuantity;
                var p := ApplyPatch(old(products)[id], patch);
                && r == Ok(ProductDoc(id, p))
                && products == old(products)[id := p]
                && ledger == old(ledger) + (if p.stockQuantity != before
                                            then [InventoryLog(id, Adjustment, p.stockQuantity - before, before,
                                                               p.stockQuantity, ManualAdjustment, None, actor)]
                                            else [])
    {
      if id !in products {
        return Err(ApiError(404, ProductNotFound));
      }
      var before := products[id].stockQuantity;
      var p := ApplyPatch(products[id], patch);
      if !Admissible(p) {
        return Err(ApiError(400, ValidationFailed));
      }
      if !KeysFreeFor(products, id, p) {
        return Err(ApiError(400, DuplicateKey));
      }
      UniqueKeysAfterWrite(products, id, p);
      products := products[id := p];
      if p.stockQuantity != before {
        var e := InventoryLog(id, Adjustment, p.stockQuantity - before, before, p.stockQuantity,
                              ManualAdjustment, None, actor);
        AppendBalanced(ledger, [e]);
        ledger := ledger + [e];
      }
      return Ok(ProductDoc(id, p));
    }

    /** DELETE /products/:id: a soft delete; the document and its history stay. */
    method DeleteProduct(id: ProductId) returns (r: Result<string>)
      requires Valid()
      modifies this
      ensures Valid()
      ensures ledger == old(ledger) && sales == old(sales) && nextId == old(nextId)
      ensures id !in old(products) ==> r == Err(ApiError(404, ProductNotFound)) && unchanged(this)
      ensures id in old(products) ==>
                && r == Ok(ProductDeleted)
                && products == old(products)[id := old(products)[id].(active := false)]
    {
      if id !in products {
        return Err(ApiError(404, ProductNotFound));
      }
      var p := products[id].(active := false);
      assert KeysFreeFor(products, id, p) by {
        assert forall other :: other in products && other != id ==>
                 (SharesKey(products[other], p) <==> SharesKey(products[other], products[id]));
      }
      UniqueKeysAfterWrite(products, id, p);
      products := products[id := p];
      return Ok(ProductDeleted);
    }

    /** POST /products/:id/stock: a signed delta (`None` when it does not parse as a number).
        A negative result is refused before anything is saved. Otherwise the product is saved
        first and the entry afterwards, with type `adjustment` and reference `Stock adjustment`
        when none is sent; a type outside the enum makes that second save fail, so the new stock
        stays while no entry records it. */
    method AdjustStock(id: ProductId, quantity: Option<int>, moveType: string, reference: string, actor: UserId)
      returns (r: Result<ProductDoc>)
      requires Valid()
      modifies this
      ensures Valid()
      ensures sales == old(sales) && nextId == old(nextId)
      ensures id !in old(products) ==> r == Err(ApiError(404, ProductNotFound)) && unchanged(this)
      ensures id in old(products) && quantity.None? ==>
                r == Err(ApiError(400, ValidationFailed)) && unchanged(this)
      ensures id in old(products) && quantity.Some? && old(products)[id].stockQuantity + quantity.value < 0 ==>
                r == Err(ApiError(400, NegativeStock)) && unchanged(this)
      ensures id in old(products) && quantity.Some? && old(products)[id].stockQuantity + quantity.value >= 0 ==>
                var before := old(products)[id].stockQuantity;
                var p := old(products)[id].(stockQuantity := before + quantity.value);
                var t := ParseMoveType(if moveType == "" then TypeName(Adjustment) else moveType);
                && products == old(products)[id := p]
                && (t.None? ==> r == Err(ApiError(400, ValidationFailed)) && ledger == old(ledger))
                && (t.Some? ==>
                      && r == Ok(ProductDoc(id, p))
                      && ledger == old(ledger) + [InventoryLog(id, t.value, quantity.value, before, p.stockQuantity,
                                                               if reference == "" then StockAdjustment else reference,
                                                               None, actor)])
    {
      if id !in products {
        return Err(ApiError(404, ProductNotFound));
      }
      if quantity.None? {
        return Err(ApiError(400, ValidationFailed));
      }
      var before := products[id].stockQuantity;
      var after := before + quantity.value;
      if after < 0 {
        return Err(ApiError(400, NegativeStock));
      }
      var p := products[id].(stockQuantity := after);
      UniqueKeysAfterWrite(products, id, p);
      products := products[id := p];
      var t := ParseMoveType(if moveType == "" then TypeName(Adjustment) else moveType);
      if t.None? {
        return Err(ApiError(400, ValidationFailed));
      }
      var e := InventoryLog(id, t.value, quantity.value, before, after,
                            if reference == "" then StockAdjustment else reference, None, actor);
      AppendBalanced(ledger, [e]);
      ledger := ledger + [e];
      return Ok(ProductDoc(id, p));
    }

    /** The create-sale handler's loop over the lines, with its early returns. */
    method CheckItems(items: seq<SaleItem>) returns (r: Option<ApiError>)
      ensures r == FirstItemError(products, items)
    {
      var i := 0;
      while i < |items|
        invariant 0 <= i <= |items|
        invariant FirstItemError(products, items[i..]) == FirstItemError(products, items)
      {
        var item := items[i];
        assert items[i..][0] == item && items[i..][1..] == items[i + 1..];
        if item.product !in products {
          return Some(ApiError(400, "Product not found: " + NatToString(item.product)));
        }
        if products[item.product].stockQuantity < item.quantity {
          return Some(ApiError(400, "Insufficient stock for " + products[item.product].name));
        }
        i := i + 1;
      }
      assert items[i..] == [];
      return None;
    }

    /** The post-save hook of a sale: walks the lines, takes each one's units off its product's
        stock and appends a `sale` entry; a missing product is skipped, and the first save the
        stock validator refuses ends the walk, its error swallowed. */
    method PostSaveHook(sale: Sale)
      requires Valid()
      modifies this
      ensures Valid()
      ensures sales == old(sales) && nextId == old(nextId)
      ensures products == PostSave(old(products), sale.items, SaleReference(sale.saleNumber), sale.cashier).0
      ensures ledger == old(ledger) + PostSave(old(products), sale.items, SaleReference(sale.saleNumber), sale.cashier).1
    {
      var reference := SaleReference(sale.saleNumber);
      var items := sale.items;
      var stock: map<ProductId, Product>, log: seq<InventoryLog> := products, ledger;
      ghost var written: seq<InventoryLog> := [];
      var i := 0;
      assert items[i..] == items;
      ghost var whole := PostSave(stock, items, reference, sale.cashier);
      assert written + whole.1 == whole.1;
      assert HookProgress(products, items, reference, sale.cashier, 0, stock, written);
      while i < |items|
        invariant 0 <= i <= |items|
        invariant unchanged(this)
        invariant log == ledger + written
        invariant HookProgress(products, items, reference, sale.cashier, i, stock, written)
      {
        var item := items[i];
        if item.product in stock {
          var before := stock[item.product].stockQuantity;
          var after := before - item.quantity;
          if after < 0 {
            break;
          }
          HookApply(products, items, reference, sale.cashier, i, stock, written);
          var e := SaleEntry(item, before, after, reference, sale.cashier);
          stock := stock[item.product := stock[item.product].(stockQuantity := after)];
          log := log + [e];
          written := written + [e];
        } else {
          HookSkip(products, items, reference, sale.cashier, i, stock, written);
        }
        i := i + 1;
      }
      HookDone(products, items, reference, sale.cashier, i, stock, written);
      PostSaveEntries(products, items, reference, sale.cashier);
      PostSaveOnlyStock(products, items, reference, sale.cashier);
      AppendBalanced(ledger, written);
      products, ledger := stock, log;
    }

    /** Inserting a numbered sale under the unique index, then running the post-save hook. */
    method Insert(s: Sale)
      requires Valid() && s.saleNumber !in Numbers(sales)
      modifies this
      ensures Valid()
      ensures nextId == old(nextId) && sales == old(sales) + [s]
      ensures products == PostSave(old(products), s.items, SaleReference(s.saleNumber), s.cashier).0
      ensures ledger == old(ledger) + PostSave(old(products), s.items, SaleReference(s.saleNumber), s.cashier).1
    {
      AppendUnique(sales, s);
      sales := sales + [s];
      PostSaveHook(s);
    }

    /** POST /sales: every line is checked against the current stock, then the sale is built,
        validated, numbered by the pre-save hook and inserted (the unique index refusing a number
        already taken), and the post-save hook updates stock and ledger. `lookupFails` stands for
        the hook's query throwing. */
    method CreateSale(request: SaleRequest, cashier: UserId, clock: Clock, lookupFails: bool)
      returns (r: Result<Sale>)
      requires Valid()
      modifies this
      ensures Valid()
      ensures nextId == old(nextId)
      ensures FirstItemError(old(products), request.items).Some? ==>
                r == Err(FirstItemError(old(products), request.items).value) && unchanged(this)
      ensures FirstItemError(old(products), request.items).None? && BuildSale(request, cashier, clock).None? ==>
                r == Err(ApiError(400, ValidationFailed)) && unchanged(this)
      ensures FirstItemError(old(products), request.items).None? && BuildSale(request, cashier, clock).Some? ==>
                var n := NextNumber(clock.local, Numbers(old(sales)), lookupFails, clock.ms);
                && (n in Numbers(old(sales)) ==> r == Err(ApiError(400, DuplicateKey)) && unchanged(this))
                && (n !in Numbers(old(sales)) ==>
                      var s := BuildSale(request, cashier, clock).value.(saleNumber := n);
                      && r == Ok(s)
                      && sales == old(sales) + [s]
                      && products == PostSave(old(products), request.items, SaleReference(n), cashier).0
                      && ledger == old(ledger) + PostSave(old(products), request.items, SaleReference(n), cashier).1)
    {
      var failure := CheckItems(request.items);
      if failure.Some? {
        return Err(failure.value);
      }
      var built := BuildSale(request, cashier, clock);
      if built.None? {
        return Err(ApiError(400, ValidationFailed));
      }
      var existing := Numbers(sales);
      var n := AssignNumber(true, "", clock.local, existing, lookupFails, clock.ms);
      assert n == NextNumber(clock.local, existing, lookupFails, clock.ms);
      if n in existing {
        return Err(ApiError(400, DuplicateKey));
      }
      var s := built.value.(saleNumber := n);
      Insert(s);
      return Ok(s);
    }
  }
}
