/** The cashier's cart of frontend/src/pages/cashier/Sales.jsx: the updaters that return a new
    cart, its total, the payload the checkout posts and the search filter over the listing. */
module Cart {

  import opened Common
  import opened Text
  import opened Catalog
  import opened SaleRecord

  /** A cart line: the product as it was when it was first added, and a count. */
  datatype CartLine = CartLine(product: ProductDoc, quantity: int)

  predicate InCart(cart: seq<CartLine>, id: ProductId) {
    exists i :: 0 <= i < |cart| && cart[i].product.id == id
  }

  /** Looking a product up in the listing: the first entry with that id. */
  function Find(products: seq<ProductDoc>, id: ProductId): (r: Option<ProductDoc>)
    ensures r.None? <==> forall i :: 0 <= i < |products| ==> products[i].id != id
    ensures r.Some? ==> r.value in products && r.value.id == id
  {
    if products == [] then None
    else if products[0].id == id then Some(products[0])
    else Find(products[1..], id)
  }

  /** Looking up the cart line of a product: the first line whose product has that id. */
  function FindLine(cart: seq<CartLine>, id: ProductId): (r: Option<CartLine>)
    ensures r.None? <==> !InCart(cart, id)
    ensures r.Some? ==> r.value in cart && r.value.product.id == id
  {
    if cart == [] then None
    else if cart[0].product.id == id then Some(cart[0])
    else
      assert forall i :: 1 <= i < |cart| ==> cart[i] == cart[1..][i - 1];
      FindLine(cart[1..], id)
  }

  /** Setting the quantity of a product's lines to `q`, leaving every other line as it is. */
  function SetQuantity(cart: seq<CartLine>, id: ProductId, q: int): (r: seq<CartLine>)
    ensures |r| == |cart|
    ensures forall i :: 0 <= i < |cart| ==>
              r[i] == if cart[i].product.id == id then cart[i].(quantity := q) else cart[i]
  {
    seq(|cart|, i requires 0 <= i < |cart| =>
      if cart[i].product.id == id then cart[i].(quantity := q) else cart[i])
  }

  /** The invariant the updaters keep: one line per product, and every count between 1 and the
      stock of the product the line holds. */
  predicate CartValid(cart: seq<CartLine>) {
    && (forall i, j :: 0 <= i < j < |cart| ==> cart[i].product.id != cart[j].product.id)
    && (forall i :: 0 <= i < |cart| ==> 1 <= cart[i].quantity <= cart[i].product.data.stockQuantity)
  }

  /** The listing entry the cashier clicks is the snapshot already held by its line, if any: the
      cart and the listing were loaded from the same product data. */
  predicate Consistent(cart: seq<CartLine>, product: ProductDoc) {
    forall i :: 0 <= i < |cart| && cart[i].product.id == product.id ==> cart[i].product == product
  }

  /** `addToCart`: nothing for an out-of-stock product; one more unit on the product's line
      while the count stays within stock; a new line of one unit at the end otherwise. The
      handler adds one to each matching line's own count, while this writes the found line's
      count plus one to every matching line: the two agree when a product has at most one
      line, which is what `CartValid` says and what every operation here keeps. */
  function AddToCart(cart: seq<CartLine>, product: ProductDoc): (r: seq<CartLine>)
    ensures product.data.stockQuantity <= 0 ==> r == cart
    ensures product.data.stockQuantity > 0 && !InCart(cart, product.id) ==> r == cart + [CartLine(product, 1)]
    ensures product.data.stockQuantity > 0 && InCart(cart, product.id) ==>
              if FindLine(cart, product.id).value.quantity >= product.data.stockQuantity then r == cart
              else r == SetQuantity(cart, product.id, FindLine(cart, product.id).value.quantity + 1)
  {
    if product.data.stockQuantity <= 0 then cart
    else
      match FindLine(cart, product.id)
      case None => cart + [CartLine(product, 1)]
      case Some(line) =>
        if line.quantity >= product.data.stockQuantity then cart
        else SetQuantity(cart, product.id, line.quantity + 1)
  }

  /** On a cart with one line per product, the found line is the line with that id. */
  lemma FindLineUnique(cart: seq<CartLine>, k: nat)
    requires CartValid(cart) && k < |cart|
    ensures FindLine(cart, cart[k].product.id) == Some(cart[k])
  {
    var r := FindLine(cart, cart[k].product.id);
    var i :| 0 <= i < |cart| && cart[i] == r.value;
    assert i == k;
  }

  /** When only the line at `k` holds its product, that line is the one found. */
  lemma FindLineOnly(cart: seq<CartLine>, k: nat)
    requires k < |cart|
    requires forall i :: 0 <= i < |cart| && i != k ==> cart[i].product.id != cart[k].product.id
    ensures FindLine(cart, cart[k].product.id) == Some(cart[k])
  {
    var r := FindLine(cart, cart[k].product.id);
    var i :| 0 <= i < |cart| && cart[i] == r.value;
  }

  /** `addToCart` keeps the cart invariant. */
  lemma AddKeepsValid(cart: seq<CartLine>, product: ProductDoc)
    requires CartValid(cart) && Consistent(cart, product)
    ensures CartValid(AddToCart(cart, product))
  {
    if product.data.stockQuantity > 0 && InCart(cart, product.id) {
      var k :| 0 <= k < |cart| && cart[k].product.id == product.id;
      FindLineUnique(cart, k);
    }
  }

  /** The updaters never produce a second line for a product. */
  lemma AddNeverDuplicates(cart: seq<CartLine>, product: ProductDoc)
    requires forall i, j :: 0 <= i < j < |cart| ==> cart[i].product.id != cart[j].product.id
    ensures forall i, j :: 0 <= i < j < |AddToCart(cart, product)| ==>
              AddToCart(cart, product)[i].product.id != AddToCart(cart, product)[j].product.id
  {
  }

  /** `removeFromCart`: a filter that drops the product's lines and keeps the others in order. */
  function RemoveFromCart(cart: seq<CartLine>, id: ProductId): (r: seq<CartLine>)
    ensures |r| <= |cart|
  {
    if cart == [] then []
    else
      var rest := RemoveFromCart(cart[1..], id);
      if cart[0].product.id == id then rest else [cart[0]] + rest
  }

  /** The filter keeps exactly the lines of the other products. */
  lemma {:induction false} RemoveFromCartLines(cart: seq<CartLine>, id: ProductId)
    ensures !InCart(RemoveFromCart(cart, id), id)
    ensures forall l :: l in RemoveFromCart(cart, id) <==> l in cart && l.product.id != id
  {
    if cart != [] {
      RemoveFromCartLines(cart[1..], id);
      assert cart == [cart[0]] + cart[1..];
      var rest := RemoveFromCart(cart[1..], id);
      if cart[0].product.id != id {
        assert forall i :: 1 <= i < |[cart[0]] + rest| ==> ([cart[0]] + rest)[i] == rest[i - 1];
      }
    }
  }

  /** Without a line for the product, removing it changes nothing. */
  lemma {:induction false} RemoveAbsent(cart: seq<CartLine>, id: ProductId)
    requires !InCart(cart, id)
    ensures RemoveFromCart(cart, id) == cart
  {
    if cart != [] {
      assert !InCart(cart[1..], id) by {
        forall i | 0 <= i < |cart[1..]|
          ensures cart[1..][i].product.id != id
        {
          assert cart[1..][i] == cart[i + 1];
        }
      }
      RemoveAbsent(cart[1..], id);
      assert cart == [cart[0]] + cart[1..];
    }
  }

  /** The lines after the first of a valid cart form a valid cart without the first product. */
  lemma ValidTail(cart: seq<CartLine>)
    requires CartValid(cart) && cart != []
    ensures CartValid(cart[1..]) && !InCart(cart[1..], cart[0].product.id)
  {
    var tail := cart[1..];
    assert forall i :: 0 <= i < |tail| ==> tail[i] == cart[i + 1];
  }

  /** When only the line at position `k` holds its product (as in a valid cart), removing that
      product cuts out exactly that line. */
  lemma {:induction false} RemoveAt(cart: seq<CartLine>, k: nat)
    requires k < |cart|
    requires forall i :: 0 <= i < |cart| && i != k ==> cart[i].product.id != cart[k].product.id
    ensures RemoveFromCart(cart, cart[k].product.id) == cart[..k] + cart[k + 1..]
  {
    var id := cart[k].product.id;
    var tail := cart[1..];
    assert forall i :: 0 <= i < |tail| ==> tail[i] == cart[i + 1];
    if k == 0 {
      assert !InCart(tail, id);
      RemoveAbsent(tail, id);
      assert cart[..0] + cart[1..] == tail;
    } else {
      assert cart[0].product.id != id;
      assert tail[k - 1] == cart[k];
      RemoveAt(tail, k - 1);
      assert RemoveFromCart(cart, id) == [cart[0]] + RemoveFromCart(tail, id);
      assert cart[..k] == [cart[0]] + tail[..k - 1];
      assert cart[k + 1..] == tail[k..];
    }
  }

  /** Removing a line keeps the cart invariant. */
  lemma {:induction false} RemoveKeepsValid(cart: seq<CartLine>, id: ProductId)
    requires CartValid(cart)
    ensures CartValid(RemoveFromCart(cart, id))
  {
    if cart != [] {
      var tail := cart[1..];
      ValidTail(cart);
      RemoveKeepsValid(tail, id);
      var rest := RemoveFromCart(tail, id);
      if cart[0].product.id != id {
        RemoveFromCartLines(tail, id);
        assert !InCart(rest, cart[0].product.id) by {
          forall i | 0 <= i < |rest|
            ensures rest[i].product.id != cart[0].product.id
          {
            assert rest[i] in tail;
          }
        }
        ConsValid(cart[0], rest);
      }
    }
  }

  /** A line in front of a valid cart that has no line of its product keeps it valid. */
  lemma ConsValid(line: CartLine, rest: seq<CartLine>)
    requires CartValid(rest) && !InCart(rest, line.product.id)
    requires 1 <= line.quantity <= line.product.data.stockQuantity
    ensures CartValid([line] + rest)
  {
    var r := [line] + rest;
    assert forall i :: 1 <= i < |r| ==> r[i] == rest[i - 1];
  }

  /** `updateQuantity`: a count of zero or less removes the line; a count above the listing's
      stock is refused; otherwise the product's line gets the new count. A product missing from
      the listing makes the source throw before the cart is touched, so the cart stays. */
  function UpdateQuantity(cart: seq<CartLine>, products: seq<ProductDoc>, id: ProductId, q: int): (r: seq<CartLine>)
    ensures q <= 0 ==> r == RemoveFromCart(cart, id)
    ensures q > 0 && Find(products, id).None? ==> r == cart
    ensures q > 0 && Find(products, id).Some? && q > Find(products, id).value.data.stockQuantity ==> r == cart
    ensures q > 0 && Find(products, id).Some? && q <= Find(products, id).value.data.stockQuantity ==>
              r == SetQuantity(cart, id, q)
  {
    if q <= 0 then RemoveFromCart(cart, id)
    else
      match Find(products, id)
      case None => cart
      case Some(p) => if q > p.data.stockQuantity then cart else SetQuantity(cart, id, q)
  }

  /** `updateQuantity` keeps the cart invariant when the cart's snapshot of the product is the
      listing's. */
  lemma UpdateKeepsValid(cart: seq<CartLine>, products: seq<ProductDoc>, id: ProductId, q: int)
    requires CartValid(cart)
    requires Find(products, id).Some? ==> Consistent(cart, Find(products, id).value)
    ensures CartValid(UpdateQuantity(cart, products, id, q))
  {
    if q <= 0 {
      RemoveKeepsValid(cart, id);
    }
  }

  /** `getTotal`: the sum of price times count over the lines. */
  function Total(cart: seq<CartLine>): int {
    if cart == [] then 0
    else Total(cart[..|cart| - 1]) + cart[|cart| - 1].product.data.price * cart[|cart| - 1].quantity
  }

  lemma {:induction false} TotalAppend(a: seq<CartLine>, b: seq<CartLine>)
    ensures Total(a + b) == Total(a) + Total(b)
    decreases |b|
  {
    if b == [] {
      assert a + b == a;
    } else {
      var c := a + b;
      assert c[..|c| - 1] == a + b[..|b| - 1];
      assert c[|c| - 1] == b[|b| - 1];
      TotalAppend(a, b[..|b| - 1]);
    }
  }

  /** Setting a count the cart holds for no line changes nothing. */
  lemma SetQuantityAbsent(cart: seq<CartLine>, id: ProductId, q: int)
    requires !InCart(cart, id)
    ensures SetQuantity(cart, id, q) == cart
  {
  }

  /** Setting the count of the one line that holds a product changes the total by the price
      times the change. */
  lemma {:induction false} TotalSetQuantity(cart: seq<CartLine>, k: nat, q: int)
    requires k < |cart|
    requires forall i :: 0 <= i < |cart| && i != k ==> cart[i].product.id != cart[k].product.id
    ensures Total(SetQuantity(cart, cart[k].product.id, q))
              == Total(cart) + cart[k].product.data.price * (q - cart[k].quantity)
    decreases |cart|
  {
    var id := cart[k].product.id;
    var n := |cart|;
    var init := cart[..n - 1];
    var r := SetQuantity(cart, id, q);
    SetQuantityInit(cart, id, q);
    assert forall i :: 0 <= i < |init| ==> init[i] == cart[i];
    if k == n - 1 {
      assert !InCart(init, id);
      SetQuantityAbsent(init, id, q);
      var p := cart[k].product.data.price;
      assert p * q - p * cart[k].quantity == p * (q - cart[k].quantity);
    } else {
      assert init[k] == cart[k];
      TotalSetQuantity(init, k, q);
      assert r[n - 1] == cart[n - 1];
    }
  }

  /** Setting a count commutes with dropping the last line. */
  lemma SetQuantityInit(cart: seq<CartLine>, id: ProductId, q: int)
    requires cart != []
    ensures SetQuantity(cart, id, q)[..|cart| - 1] == SetQuantity(cart[..|cart| - 1], id, q)
  {
  }

  lemma TotalAppendLine(cart: seq<CartLine>, line: CartLine)
    ensures Total(cart + [line]) == Total(cart) + line.product.data.price * line.quantity
  {
    assert (cart + [line])[..|cart|] == cart;
  }

  /** A click on a product in stock raises the total by its price exactly when a unit was added. */
  lemma AddToCartTotal(cart: seq<CartLine>, product: ProductDoc)
    requires CartValid(cart) && Consistent(cart, product)
    ensures Total(AddToCart(cart, product)) == Total(cart) + (if AddToCart(cart, product) == cart then 0 else product.data.price)
  {
    var r := AddToCart(cart, product);
    if product.data.stockQuantity > 0 {
      if !InCart(cart, product.id) {
        assert r == cart + [CartLine(product, 1)];
        TotalAppendLine(cart, CartLine(product, 1));
        assert |r| != |cart|;
      } else {
        var k :| 0 <= k < |cart| && cart[k].product.id == product.id;
        FindLineUnique(cart, k);
        AddExisting(cart, product, cart[k]);
        if cart[k].quantity < product.data.stockQuantity {
          OneMoreTotal(cart, product, k);
          assert r != cart by {
            assert r[k].quantity != cart[k].quantity;
          }
        }
      }
    } else {
      assert r == cart;
    }
  }

  /** One more unit on the only line of a product adds its price to the total. */
  lemma OneMoreTotal(cart: seq<CartLine>, product: ProductDoc, k: nat)
    requires k < |cart| && cart[k].product == product
    requires forall i :: 0 <= i < |cart| && i != k ==> cart[i].product.id != product.id
    ensures Total(SetQuantity(cart, product.id, cart[k].quantity + 1)) == Total(cart) + product.data.price
  {
    TotalSetQuantity(cart, k, cart[k].quantity + 1);
    assert cart[k].quantity + 1 - cart[k].quantity == 1;
  }

  /** `addToCart` on a product whose line was found. */
  lemma AddExisting(cart: seq<CartLine>, product: ProductDoc, line: CartLine)
    requires product.data.stockQuantity > 0 && FindLine(cart, product.id) == Some(line)
    ensures line.quantity >= product.data.stockQuantity ==> AddToCart(cart, product) == cart
    ensures line.quantity < product.data.stockQuantity ==>
              AddToCart(cart, product) == SetQuantity(cart, product.id, line.quantity + 1)
  {
  }

  /** A line of the payload the checkout posts. */
  function PayloadItem(line: CartLine): SaleItem {
    SaleItem(line.product.id, line.quantity, Some(line.product.data.price), Some(line.product.data.price * line.quantity))
  }

  function PayloadItems(cart: seq<CartLine>): (r: seq<SaleItem>)
    ensures |r| == |cart|
    ensures forall i :: 0 <= i < |cart| ==> r[i] == PayloadItem(cart[i])
  {
    seq(|cart|, i requires 0 <= i < |cart| => PayloadItem(cart[i]))
  }

  /** The sum of the line subtotals that were sent. */
  function SumSubtotals(items: seq<SaleItem>): int {
    if items == [] then 0 else SumSubtotals(items[..|items| - 1]) + items[|items| - 1].subtotal.GetOr(0)
  }

  /** The payload of `handleCheckout`: its lines and its subtotal; `None` for an empty cart,
      which is refused before anything is sent. The tax and grand total are left out. */
  function CheckoutPayload(cart: seq<CartLine>): (r: Option<(seq<SaleItem>, int)>)
    ensures r.None? <==> cart == []
    ensures r.Some? ==> r.value.0 == PayloadItems(cart) && r.value.1 == Total(cart)
  {
    if cart == [] then None else Some((PayloadItems(cart), Total(cart)))
  }

  /** The payload's subtotal is the sum of its line subtotals, and a payload built from a valid
      cart passes the sale validators: counts of at least one, price and subtotal present. */
  lemma {:induction false} PayloadConsistent(cart: seq<CartLine>)
    requires CartValid(cart)
    ensures SumSubtotals(PayloadItems(cart)) == Total(cart)
    ensures ItemsAdmissible(PayloadItems(cart))
    decreases |cart|
  {
    if cart != [] {
      var init := cart[..|cart| - 1];
      assert CartValid(init) by {
        assert forall i :: 0 <= i < |init| ==> init[i] == cart[i];
      }
      PayloadConsistent(init);
      assert PayloadItems(cart)[..|cart| - 1] == PayloadItems(init);
    }
  }

  /** The search predicate of `filteredProducts`: name or sku contains the term without regard to
      case, or the barcode (when there is a non-empty one) contains it as typed. */
  predicate Matches(p: ProductDoc, term: string) {
    || Contains(ToLower(p.data.name), ToLower(term))
    || Contains(ToLower(p.data.sku), ToLower(term))
    || (p.data.barcode.Some? && p.data.barcode.value != "" && Contains(p.data.barcode.value, term))
  }

  /** The listing entries that pass the filter, in listing order. */
  function Filtered(products: seq<ProductDoc>, term: string): (r: seq<ProductDoc>)
    ensures forall p :: p in r <==> p in products && Matches(p, term)
    ensures forall p :: multiset(r)[p] == if Matches(p, term) then multiset(products)[p] else 0
    ensures |r| <= |products|
  {
    if products == [] then []
    else
      var rest := Filtered(products[1..], term);
      assert products == [products[0]] + products[1..];
      if Matches(products[0], term) then [products[0]] + rest else rest
  }

  /** An empty search term keeps the whole listing in order. */
  lemma {:induction false} EmptyTermKeepsAll(products: seq<ProductDoc>)
    ensures Filtered(products, "") == products
  {
    if products != [] {
      assert ToLower("") == "";
      ContainsEmpty(ToLower(products[0].data.name));
      EmptyTermKeepsAll(products[1..]);
      assert products == [products[0]] + products[1..];
    }
  }
}
