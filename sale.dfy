/** The sale record of backend/models/Sale.js and the document the create-sale handler of
    backend/routes/sales.js builds from a request body. */
module SaleRecord {

  import opened Common
  import opened SaleNumber

  /** One line of a sale: the price and line subtotal are whatever the client sent; `None` is a
      field that was not sent. */
  datatype SaleItem = SaleItem(product: ProductId, quantity: int, priceAtSale: Option<int>, subtotal: Option<int>)

  /** The `paymentMethod` enum. */
  datatype PaymentMethod = Cash | Card | OtherMethod

  /** The `paymentStatus` enum. */
  datatype PaymentStatus = Pending | Completed | Refunded

  function MethodName(m: PaymentMethod): string {
    match m
    case Cash => "cash"
    case Card => "card"
    case OtherMethod => "other"
  }

  /** The enum validator of `paymentMethod`: `None` when the save is refused. */
  function ParseMethod(s: string): (r: Option<PaymentMethod>)
    ensures r.Some? <==> s in {"cash", "card", "other"}
    ensures r.Some? ==> MethodName(r.value) == s
  {
    if s == "cash" then Some(Cash)
    else if s == "card" then Some(Card)
    else if s == "other" then Some(OtherMethod)
    else None
  }

  lemma ParseMethodName(m: PaymentMethod)
    ensures ParseMethod(MethodName(m)) == Some(m)
  {
  }

  /** The moment a request is handled, as the code reads it: milliseconds since the epoch
      (`Date.now()`), the local calendar date (for the sale number) and the UTC day key
      `YYYY-MM-DD` of `createdAt` (for the reports). */
  datatype Clock = Clock(ms: nat, local: CalendarDate, isoDay: string)

  /** A sale document. */
  datatype Sale = Sale(
    saleNumber: string,
    cashier: UserId,
    items: seq<SaleItem>,
    subtotal: int,
    tax: int,
    discount: int,
    total: int,
    paymentMethod: PaymentMethod,
    paymentStatus: PaymentStatus,
    createdAt: nat,
    isoDay: string)

  /** The `items` validators: every line sells at least one unit (`min: 1`) and carries the
      required price and subtotal. */
  predicate ItemsAdmissible(items: seq<SaleItem>) {
    forall i :: 0 <= i < |items| ==> items[i].quantity >= 1 && items[i].priceAtSale.Some? && items[i].subtotal.Some?
  }

  /** The fields of a create-sale body; `None` is a field that was not sent, `paymentMethod` is
      the raw string. */
  datatype SaleRequest = SaleRequest(
    items: seq<SaleItem>,
    subtotal: Option<int>,
    tax: Option<int>,
    discount: Option<int>,
    total: Option<int>,
    paymentMethod: string)

  /** `new Sale({...})` followed by its validation: the cashier is the requester, the discount is
      the one sent or 0 (`discount || 0`), the tax defaults to 0, the status is always
      `completed`, and the numbers are stored as sent. `None` when a validator refuses the
      document. The sale number is still empty; the pre-save hook assigns it. */
  function BuildSale(request: SaleRequest, cashier: UserId, clock: Clock): (r: Option<Sale>)
    ensures r.Some? <==>
              && ItemsAdmissible(request.items)
              && request.subtotal.Some? && request.total.Some?
              && ParseMethod(request.paymentMethod).Some?
    ensures r.Some? ==>
              && r.value.cashier == cashier
              && r.value.items == request.items
              && r.value.subtotal == request.subtotal.value
              && r.value.total == request.total.value
              && r.value.tax == request.tax.GetOr(0)
              && r.value.discount == request.discount.GetOr(0)
              && r.value.paymentStatus == Completed
              && MethodName(r.value.paymentMethod) == request.paymentMethod
              && r.value.saleNumber == ""
              && r.value.createdAt == clock.ms && r.value.isoDay == clock.isoDay
  {
    var pm := ParseMethod(request.paymentMethod);
    if !ItemsAdmissible(request.items) || request.subtotal.None? || request.total.None? || pm.None? then None
    else
      Some(Sale("", cashier, request.items, request.subtotal.value, request.tax.GetOr(0),
                request.discount.GetOr(0), request.total.value, pm.value, Completed,
                clock.ms, clock.isoDay))
  }

  /** Nothing ties the stored amounts to the lines: whatever subtotal and total a valid body
      sends, they are stored as sent and the rest of the sale is the same. */
  lemma TotalsNotRecomputed(request: SaleRequest, cashier: UserId, clock: Clock, subtotal: int, total: int)
    requires BuildSale(request, cashier, clock).Some?
    ensures BuildSale(request.(subtotal := Some(subtotal), total := Some(total)), cashier, clock)
              == Some(BuildSale(request, cashier, clock).value.(subtotal := subtotal, total := total))
  {
  }

  function Numbers(sales: seq<Sale>): (r: seq<string>)
    ensures |r| == |sales|
    ensures forall i :: 0 <= i < |sales| ==> r[i] == sales[i].saleNumber
  {
    if sales == [] then [] else Numbers(sales[..|sales| - 1]) + [sales[|sales| - 1].saleNumber]
  }

  /** The unique index on `saleNumber`. */
  predicate NumbersUnique(sales: seq<Sale>) {
    forall i, j :: 0 <= i < j < |sales| ==> sales[i].saleNumber != sales[j].saleNumber
  }

  lemma {:induction false} AppendUnique(sales: seq<Sale>, s: Sale)
    requires NumbersUnique(sales) && s.saleNumber !in Numbers(sales)
    ensures NumbersUnique(sales + [s])
  {
    var t := sales + [s];
    forall i, j | 0 <= i < j < |t|
      ensures t[i].saleNumber != t[j].saleNumber
    {
      if j == |sales| {
        assert Numbers(sales)[i] == t[i].saleNumber;
      }
    }
  }
}
