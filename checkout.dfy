/** The two halves of a checkout: the stock check of the create-sale handler
    (backend/routes/sales.js) and the post-save hook of backend/models/Sale.js that takes the
    sold units off the shelf and writes one `sale` entry per line. Both are specified here as
    functions of the product store; the store's methods are proved against them. */
module Checkout {

  import opened Common
  import opened Text
  import opened Catalog
  import opened Ledger
  import opened SaleRecord

  /** A line that passes the handler's check: its product exists and has at least as many
      units in stock as the line asks for. */
  predicate Sufficient(products: map<ProductId, Product>, item: SaleItem) {
    item.product in products && products[item.product].stockQuantity >= item.quantity
  }

  /** The reply for a line that fails the check. */
  function ItemError(products: map<ProductId, Product>, item: SaleItem): (e: ApiError)
    requires !Sufficient(products, item)
    ensures e.status == 400
    ensures item.product !in products ==> e.message == "Product not found: " + NatToString(item.product)
    ensures item.product in products ==> e.message == "Insufficient stock for " + products[item.product].name
  {
    if item.product !in products then ApiError(400, "Product not found: " + NatToString(item.product))
    else ApiError(400, "Insufficient stock for " + products[item.product].name)
  }

  /** The handler's loop: the lines in order, the first failing one answered. */
  function FirstItemError(products: map<ProductId, Product>, items: seq<SaleItem>): Option<ApiError> {
    if items == [] then None
    else if !Sufficient(products, items[0]) then Some(ItemError(products, items[0]))
    else FirstItemError(products, items[1..])
  }

  /** The check passes exactly when every line is sufficient; otherwise it answers for the first
      line that is not, and every earlier line is. */
  lemma {:induction false} FirstItemErrorIsFirst(products: map<ProductId, Product>, items: seq<SaleItem>)
    ensures FirstItemError(products, items).None? <==> forall i :: 0 <= i < |items| ==> Sufficient(products, items[i])
    ensures FirstItemError(products, items).Some? ==>
              exists i :: 0 <= i < |items| && !Sufficient(products, items[i])
                          && (forall j :: 0 <= j < i ==> Sufficient(products, items[j]))
                          && FirstItemError(products, items).value == ItemError(products, items[i])
  {
    if items != [] && Sufficient(products, items[0]) {
      var rest := FirstItemError(products, items[1..]);
      FirstItemErrorIsFirst(products, items[1..]);
      assert forall i :: 1 <= i < |items| ==> items[i] == items[1..][i - 1];
      if rest.Some? {
        var k :| 0 <= k < |items[1..]| && !Sufficient(products, items[1..][k])
                 && (forall j :: 0 <= j < k ==> Sufficient(products, items[1..][j]))
                 && rest.value == ItemError(products, items[1..][k]);
        assert items[k + 1] == items[1..][k];
      }
    }
  }

  /** The first failure wins: lines after it are never looked at. */
  lemma {:induction false} FirstFailureWins(products: map<ProductId, Product>, items: seq<SaleItem>, more: seq<SaleItem>)
    requires FirstItemError(products, items).Some?
    ensures FirstItemError(products, items + more) == FirstItemError(products, items)
  {
    var all := items + more;
    assert all[0] == items[0];
    if Sufficient(products, items[0]) {
      assert all[1..] == items[1..] + more;
      assert FirstItemError(products, items) == FirstItemError(products, items[1..]);
      FirstFailureWins(products, items[1..], more);
      assert FirstItemError(products, all) == FirstItemError(products, all[1..]);
    }
  }

  /** The entry the hook writes for a line whose product's stock goes from `before` to `after`. */
  function SaleEntry(item: SaleItem, before: int, after: int, reference: string, cashier: UserId): InventoryLog {
    InventoryLog(item.product, Ledger.Sale, -item.quantity, before, after, reference, None, cashier)
  }

  /** The reference every entry of a sale carries. */
  function SaleReference(saleNumber: string): (r: string)
    ensures r != ""
  {
    "Sale #" + saleNumber
  }

  /** The hook's loop: for each line whose product exists, its stock drops by the line's quantity
      and a `sale` entry is written; a missing product is skipped. A save the `min: 0` validator
      refuses throws, and the surrounding `catch` ends the loop there: that line and every later
      one leave stock and ledger alone. The result is the new store and the entries written. */
  function PostSave(products: map<ProductId, Product>, items: seq<SaleItem>, reference: string, cashier: UserId)
    : (r: (map<ProductId, Product>, seq<InventoryLog>))
    ensures r.0.Keys == products.Keys
    ensures |r.1| <= |items|
    decreases |items|
  {
    if items == [] then (products, [])
    else
      var item := items[0];
      if item.product !in products then PostSave(products, items[1..], reference, cashier)
      else
        var before := products[item.product].stockQuantity;
        var after := before - item.quantity;
        if after < 0 then (products, [])
        else
          var rest := PostSave(products[item.product := products[item.product].(stockQuantity := after)],
                                items[1..], reference, cashier);
          (rest.0, [SaleEntry(item, before, after, reference, cashier)] + rest.1)
  }

  /** One step of the hook's walk from line `i`. */
  lemma PostSaveUnfold(products: map<ProductId, Product>, items: seq<SaleItem>, i: nat,
                       reference: string, cashier: UserId)
    requires i < |items|
    ensures items[i].product !in products ==>
              PostSave(products, items[i..], reference, cashier) == PostSave(products, items[i + 1..], reference, cashier)
    ensures items[i].product in products && products[items[i].product].stockQuantity < items[i].quantity ==>
              PostSave(products, items[i..], reference, cashier) == (products, [])
    ensures items[i].product in products && products[items[i].product].stockQuantity >= items[i].quantity ==>
              var before := products[items[i].product].stockQuantity;
              var after := before - items[i].quantity;
              var rest := PostSave(products[items[i].product := products[items[i].product].(stockQuantity := after)],
                                   items[i + 1..], reference, cashier);
              PostSave(products, items[i..], reference, cashier)
                == (rest.0, [SaleEntry(items[i], before, after, reference, cashier)] + rest.1)
  {
    assert items[i..][0] == items[i] && items[i..][1..] == items[i + 1..];
  }

  /** The hook's walk has reached line `i` with the store at `products` and the entries
      `written` so far: finishing the walk from there gives what the whole walk gives. */
  ghost predicate HookProgress(start: map<ProductId, Product>, items: seq<SaleItem>, reference: string,
                               cashier: UserId, i: nat, products: map<ProductId, Product>,
                               written: seq<InventoryLog>)
    requires i <= |items|
  {
    var rest := PostSave(products, items[i..], reference, cashier);
    PostSave(start, items, reference, cashier) == (rest.0, written + rest.1)
  }

  /** A line whose product is missing moves the walk on and writes nothing. */
  lemma HookSkip(start: map<ProductId, Product>, items: seq<SaleItem>, reference: string, cashier: UserId,
                 i: nat, products: map<ProductId, Product>, written: seq<InventoryLog>)
    requires i < |items| && items[i].product !in products
    requires HookProgress(start, items, reference, cashier, i, products, written)
    ensures HookProgress(start, items, reference, cashier, i + 1, products, written)
  {
    PostSaveUnfold(products, items, i, reference, cashier);
  }

  /** A line whose product has the units moves the walk on with the stock lowered and one
      entry written. */
  lemma HookApply(start: map<ProductId, Product>, items: seq<SaleItem>, reference: string, cashier: UserId,
                  i: nat, products: map<ProductId, Product>, written: seq<InventoryLog>)
    requires i < |items| && items[i].product in products
    requires products[items[i].product].stockQuantity >= items[i].quantity
    requires HookProgress(start, items, reference, cashier, i, products, written)
    ensures var before := products[items[i].product].stockQuantity;
            var after := before - items[i].quantity;
            HookProgress(start, items, reference, cashier, i + 1,
                         products[items[i].product := products[items[i].product].(stockQuantity := after)],
                         written + [SaleEntry(items[i], before, after, reference, cashier)])
  {
    PostSaveUnfold(products, items, i, reference, cashier);
    var before := products[items[i].product].stockQuantity;
    var after := before - items[i].quantity;
    var e := SaleEntry(items[i], before, after, reference, cashier);
    var rest := PostSave(products[items[i].product := products[items[i].product].(stockQuantity := after)],
                         items[i + 1..], reference, cashier).1;
    assert written + ([e] + rest) == (written + [e]) + rest;
  }

  /** The walk ends at the last line or at a refused save, and then it has done everything. */
  lemma HookDone(start: map<ProductId, Product>, items: seq<SaleItem>, reference: string, cashier: UserId,
                 i: nat, products: map<ProductId, Product>, written: seq<InventoryLog>)
    requires i <= |items| && HookProgress(start, items, reference, cashier, i, products, written)
    requires i < |items| ==> items[i].product in products && products[items[i].product].stockQuantity < items[i].quantity
    ensures PostSave(start, items, reference, cashier) == (products, written)
  {
    if i < |items| {
      PostSaveUnfold(products, items, i, reference, cashier);
    } else {
      assert items[i..] == [];
    }
    assert PostSave(products, items[i..], reference, cashier) == (products, []);
    assert written + [] == written;
  }

  /** Every entry the hook writes is a balanced, complete `sale` entry of the cashier with the
      sale's reference. */
  lemma {:induction false} PostSaveEntries(products: map<ProductId, Product>, items: seq<SaleItem>,
                                           reference: string, cashier: UserId)
    requires reference != ""
    ensures LedgerBalanced(PostSave(products, items, reference, cashier).1)
    ensures forall e :: e in PostSave(products, items, reference, cashier).1 ==>
              e.moveType == Ledger.Sale && e.reference == reference && e.performedBy == cashier && e.note.None?
    ensures forall e :: e in PostSave(products, items, reference, cashier).1 ==> e.newStock >= 0
    decreases |items|
  {
    if items != [] {
      var item := items[0];
      if item.product !in products {
        PostSaveEntries(products, items[1..], reference, cashier);
      } else {
        var after := products[item.product].stockQuantity - item.quantity;
        if after >= 0 {
          var next := products[item.product := products[item.product].(stockQuantity := after)];
          PostSaveEntries(next, items[1..], reference, cashier);
          var rest := PostSave(next, items[1..], reference, cashier).1;
          var e := SaleEntry(item, products[item.product].stockQuantity, after, reference, cashier);
          assert PostSave(products, items, reference, cashier).1 == [e] + rest;
          forall i | 0 <= i < |[e] + rest|
            ensures Balanced(([e] + rest)[i]) && Complete(([e] + rest)[i])
          {
            if i > 0 {
              assert ([e] + rest)[i] == rest[i - 1];
            }
          }
        }
      }
    }
  }

  /** The store after the hook differs from the one before only in stock counts, every count
      stays at or above zero, and documents that were stored stay stored with unique keys. */
  lemma {:induction false} PostSaveOnlyStock(products: map<ProductId, Product>, items: seq<SaleItem>,
                                             reference: string, cashier: UserId)
    requires forall id :: id in products ==> Stored(products[id])
    requires UniqueKeys(products)
    ensures forall id :: id in products ==>
              PostSave(products, items, reference, cashier).0[id]
                == products[id].(stockQuantity := PostSave(products, items, reference, cashier).0[id].stockQuantity)
    ensures forall id :: id in products ==> Stored(PostSave(products, items, reference, cashier).0[id])
    ensures UniqueKeys(PostSave(products, items, reference, cashier).0)
    decreases |items|
  {
    if items != [] {
      var item := items[0];
      if item.product !in products {
        PostSaveOnlyStock(products, items[1..], reference, cashier);
      } else {
        var after := products[item.product].stockQuantity - item.quantity;
        if after >= 0 {
          var next := products[item.product := products[item.product].(stockQuantity := after)];
          UniqueKeysAfterWrite(products, item.product, products[item.product].(stockQuantity := after));
          PostSaveOnlyStock(next, items[1..], reference, cashier);
        }
      }
    }
  }

  /** The lines of a sale name distinct products. */
  predicate DistinctProducts(items: seq<SaleItem>) {
    forall i, j :: 0 <= i < j < |items| ==> items[i].product != items[j].product
  }

  /** The units the lines of `items` take from `id`. */
  function Demand(items: seq<SaleItem>, id: ProductId): int {
    if items == [] then 0
    else (if items[0].product == id then items[0].quantity else 0) + Demand(items[1..], id)
  }

  lemma {:induction false} DemandAbsent(items: seq<SaleItem>, id: ProductId)
    requires forall i :: 0 <= i < |items| ==> items[i].product != id
    ensures Demand(items, id) == 0
  {
    if items != [] {
      DemandAbsent(items[1..], id);
    }
  }

  /** When the lines name distinct products and all pass the handler's check, the hook applies
      every one of them: one entry per line, in order, recording the stock before and after the
      line, and each product's stock drops by exactly what the sale takes from it. */
  lemma PostSaveAppliesAll(products: map<ProductId, Product>, items: seq<SaleItem>,
                           reference: string, cashier: UserId)
    requires DistinctProducts(items)
    requires FirstItemError(products, items).None?
    ensures forall i :: 0 <= i < |items| ==> items[i].product in products
    ensures |PostSave(products, items, reference, cashier).1| == |items|
    ensures forall i :: 0 <= i < |items| ==>
              PostSave(products, items, reference, cashier).1[i]
                == SaleEntry(items[i], products[items[i].product].stockQuantity,
                             products[items[i].product].stockQuantity - items[i].quantity, reference, cashier)
    ensures forall id :: id in products ==>
              PostSave(products, items, reference, cashier).0[id].stockQuantity
                == products[id].stockQuantity - Demand(items, id)
  {
    FirstItemErrorIsFirst(products, items);
    AppliesAll(products, items, reference, cashier);
    AppliesAllStock(products, items, reference, cashier);
  }

  /** `log` holds one entry per line of `items`, in order, each taking the line's units from the
      stock `products` records for it. */
  ghost predicate EntriesFor(products: map<ProductId, Product>, items: seq<SaleItem>, log: seq<InventoryLog>,
                             reference: string, cashier: UserId)
  {
    && (forall i :: 0 <= i < |items| ==> items[i].product in products)
    && |log| == |items|
    && forall i :: 0 <= i < |items| ==>
         log[i] == SaleEntry(items[i], products[items[i].product].stockQuantity,
                             products[items[i].product].stockQuantity - items[i].quantity, reference, cashier)
  }

  /** The entries of `PostSaveAppliesAll`, over lines that are each known to have their units. */
  lemma {:induction false} AppliesAll(products: map<ProductId, Product>, items: seq<SaleItem>,
                                      reference: string, cashier: UserId)
    requires DistinctProducts(items)
    requires forall i :: 0 <= i < |items| ==> Sufficient(products, items[i])
    ensures EntriesFor(products, items, PostSave(products, items, reference, cashier).1, reference, cashier)
    decreases |items|
  {
    if items != [] {
      var item := items[0];
      assert Sufficient(products, items[0]);
      var after := products[item.product].stockQuantity - item.quantity;
      var next := products[item.product := products[item.product].(stockQuantity := after)];
      TailStillSufficient(products, items, next);
      AppliesAll(next, items[1..], reference, cashier);
      var e := SaleEntry(item, products[item.product].stockQuantity, after, reference, cashier);
      var rest := PostSave(next, items[1..], reference, cashier).1;
      assert PostSave(products, items, reference, cashier).1 == [e] + rest;
      EntriesCons(products, items, next, rest, reference, cashier);
    } else {
      assert EntriesFor(products, items, [], reference, cashier);
    }
  }

  /** The entry of the first line in front of the entries of the rest, taken against the stock
      the first line leaves, are the entries of all the lines. */
  lemma EntriesCons(products: map<ProductId, Product>, items: seq<SaleItem>, next: map<ProductId, Product>,
                    rest: seq<InventoryLog>, reference: string, cashier: UserId)
    requires items != [] && items[0].product in products
    requires forall i :: 1 <= i < |items| ==> items[i].product != items[0].product
    requires next.Keys == products.Keys
    requires forall id :: id in products && id != items[0].product ==> next[id] == products[id]
    requires EntriesFor(next, items[1..], rest, reference, cashier)
    ensures EntriesFor(products, items,
                       [SaleEntry(items[0], products[items[0].product].stockQuantity,
                                  products[items[0].product].stockQuantity - items[0].quantity,
                                  reference, cashier)] + rest,
                       reference, cashier)
  {
    forall i | 1 <= i < |items|
      ensures items[i].product in products
      ensures rest[i - 1] == SaleEntry(items[i], products[items[i].product].stockQuantity,
                                       products[items[i].product].stockQuantity - items[i].quantity,
                                       reference, cashier)
    {
      assert items[i] == items[1..][i - 1];
    }
  }

  /** The stock counts of `PostSaveAppliesAll`, over lines that are each known to have their
      units. */
  lemma {:induction false} AppliesAllStock(products: map<ProductId, Product>, items: seq<SaleItem>,
                                           reference: string, cashier: UserId)
    requires DistinctProducts(items)
    requires forall i :: 0 <= i < |items| ==> Sufficient(products, items[i])
    ensures forall id :: id in products ==>
              PostSave(products, items, reference, cashier).0[id].stockQuantity
                == products[id].stockQuantity - Demand(items, id)
    decreases |items|
  {
    if items != [] {
      var item := items[0];
      assert Sufficient(products, items[0]);
      var after := products[item.product].stockQuantity - item.quantity;
      var next := products[item.product := products[item.product].(stockQuantity := after)];
      TailStillSufficient(products, items, next);
      AppliesAllStock(next, items[1..], reference, cashier);
      DemandAbsent(items[1..], item.product);
      assert PostSave(products, items, reference, cashier).0 == PostSave(next, items[1..], reference, cashier).0;
    }
  }

  /** Lowering the stock of the first line's product leaves the later lines, which name other
      products, with their units. */
  lemma TailStillSufficient(products: map<ProductId, Product>, items: seq<SaleItem>,
                            next: map<ProductId, Product>)
    requires items != [] && DistinctProducts(items)
    requires forall i :: 0 <= i < |items| ==> Sufficient(products, items[i])
    requires next.Keys == products.Keys
    requires forall id :: id in products && id != items[0].product ==> next[id] == products[id]
    ensures DistinctProducts(items[1..])
    ensures forall i :: 0 <= i < |items[1..]| ==> Sufficient(next, items[1..][i])
    ensures forall i :: 1 <= i < |items| ==> items[i].product != items[0].product
  {
    forall i | 0 <= i < |items[1..]|
      ensures Sufficient(next, items[1..][i])
    {
      assert items[1..][i] == items[i + 1];
      assert Sufficient(products, items[i + 1]);
    }
  }

  /** The check looks at each line against the unchanged stock, so two lines of one product can
      both pass and sell more than there is: here two lines of one unit against a stock of one.
      The hook then applies the first line, the second save is refused, the sale stays recorded
      with two units and the ledger holds one entry. */
  lemma DuplicateLinesOversell(p: Product, reference: string, cashier: UserId)
    requires Stored(p) && p.stockQuantity == 1
    ensures FirstItemError(map[0 := p], [SaleItem(0, 1, Some(p.price), Some(p.price)), SaleItem(0, 1, Some(p.price), Some(p.price))]).None?
    ensures PostSave(map[0 := p], [SaleItem(0, 1, Some(p.price), Some(p.price)), SaleItem(0, 1, Some(p.price), Some(p.price))],
                     reference, cashier).0[0].stockQuantity == 0
    ensures |PostSave(map[0 := p], [SaleItem(0, 1, Some(p.price), Some(p.price)), SaleItem(0, 1, Some(p.price), Some(p.price))],
                      reference, cashier).1| == 1
  {
    var items := [SaleItem(0, 1, Some(p.price), Some(p.price)), SaleItem(0, 1, Some(p.price), Some(p.price))];
    var m := map[0 := p];
    assert Sufficient(m, items[0]) && Sufficient(m, items[1]);
    FirstItemErrorIsFirst(m, items);
    var next := m[0 := p.(stockQuantity := 0)];
    assert items[1..] == [items[1]];
    assert PostSave(next, items[1..], reference, cashier) == (next, []);
  }
}
