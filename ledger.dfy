/** The inventory log of backend/models/InventoryLog.js: one entry per stock-changing event,
    with the stock before and after it. */
module Ledger {

  import opened Common

  /** The schema's `type` enum. */
  datatype MoveType = Purchase | Sale | Adjustment | Return

  function TypeName(t: MoveType): string {
    match t
    case Purchase => "purchase"
    case Sale => "sale"
    case Adjustment => "adjustment"
    case Return => "return"
  }

  /** The enum validator: the entry type a string names, or `None` when the save is refused. */
  function ParseMoveType(s: string): (r: Option<MoveType>)
    ensures r.Some? <==> s in {"purchase", "sale", "adjustment", "return"}
    ensures r.Some? ==> TypeName(r.value) == s
  {
    if s == "purchase" then Some(Purchase)
    else if s == "sale" then Some(Sale)
    else if s == "adjustment" then Some(Adjustment)
    else if s == "return" then Some(Return)
    else None
  }

  lemma ParseTypeName(t: MoveType)
    ensures ParseMoveType(TypeName(t)) == Some(t)
  {
  }

  /** A log entry. `quantity` is a signed delta (no `min`); `note` is optional; every other field
      is required. */
  datatype InventoryLog = InventoryLog(
    product: ProductId,
    moveType: MoveType,
    quantity: int,
    previousStock: int,
    newStock: int,
    reference: string,
    note: Option<string>,
    performedBy: UserId)

  /** The entry's snapshots agree with its delta. */
  predicate Balanced(e: InventoryLog) {
    e.newStock == e.previousStock + e.quantity
  }

  /** The `required` validator on the string field `reference` refuses the empty string. */
  predicate Complete(e: InventoryLog) {
    e.reference != ""
  }

  /** Every entry of the ledger is balanced and complete. */
  predicate LedgerBalanced(ledger: seq<InventoryLog>) {
    forall i :: 0 <= i < |ledger| ==> Balanced(ledger[i]) && Complete(ledger[i])
  }

  lemma AppendBalanced(ledger: seq<InventoryLog>, entries: seq<InventoryLog>)
    requires LedgerBalanced(ledger) && LedgerBalanced(entries)
    ensures LedgerBalanced(ledger + entries)
  {
    forall i | 0 <= i < |ledger + entries|
      ensures Balanced((ledger + entries)[i]) && Complete((ledger + entries)[i])
    {
      if i >= |ledger| {
        assert (ledger + entries)[i] == entries[i - |ledger|];
      }
    }
  }
}
