/** The inventory-movement page of frontend/src/pages/admin/InventoryMovement.jsx: the CSV
    export, the badge and icon chosen for a movement type, and how a quantity is shown.
    A movement is the ledger entry as the server sends it, with the product and the performer
    replaced by their names (either may be missing). The locale date text is an input. */
module MovementExport {

  import opened Common
  import opened Text
  import Ledger

  datatype Movement = Movement(
    date: string,
    productName: Option<string>,
    moveType: string,
    quantity: int,
    previousStock: int,
    newStock: int,
    performerName: Option<string>,
    reference: string)

  const Header: seq<string> :=
    ["Date", "Product", "Type", "Quantity", "Previous Stock", "New Stock", "Performed By", "Reference"]

  /** A name column: a missing or empty name gives the fallback. */
  function NameOr(name: Option<string>, fallback: string): (r: string)
    ensures name.Some? && name.value != "" ==> r == name.value
    ensures name.None? || name.value == "" ==> r == fallback
  {
    if name.Some? && name.value != "" then name.value else fallback
  }

  /** The eight cells of one movement, in header order. */
  function Fields(m: Movement): (r: seq<string>)
    ensures |r| == |Header|
    ensures r[0] == m.date && r[2] == m.moveType && r[7] == m.reference
    ensures r[1] == NameOr(m.productName, "N/A") && r[6] == NameOr(m.performerName, "System")
    ensures r[3] == IntToString(m.quantity) && r[4] == IntToString(m.previousStock)
    ensures r[5] == IntToString(m.newStock)
  {
    [m.date, NameOr(m.productName, "N/A"), m.moveType, IntToString(m.quantity),
     IntToString(m.previousStock), IntToString(m.newStock), NameOr(m.performerName, "System"),
     m.reference]
  }

  /** One CSV line: the cells joined by commas, with no quoting or escaping. */
  function Row(m: Movement): string {
    Join(Fields(m), ",")
  }

  function Rows(ms: seq<Movement>): (r: seq<string>)
    ensures |r| == |ms|
    ensures forall i :: 0 <= i < |ms| ==> r[i] == Row(ms[i])
  {
    seq(|ms|, i requires 0 <= i < |ms| => Row(ms[i]))
  }

  /** `exportToCSV`'s content: the header line, then one line per movement, joined by '\n'
      with no trailing newline. */
  function Csv(ms: seq<Movement>): string {
    Join([Join(Header, ",")] + Rows(ms), "\n")
  }

  /** The text cells of a movement. */
  predicate TextFree(m: Movement, c: char) {
    c !in m.date && c !in NameOr(m.productName, "N/A") && c !in m.moveType
    && c !in NameOr(m.performerName, "System") && c !in m.reference
  }

  lemma FieldsFree(m: Movement, c: char)
    requires TextFree(m, c) && c != '-' && !IsDigit(c)
    ensures forall k :: 0 <= k < |Fields(m)| ==> c !in Fields(m)[k]
  {
    IntToStringExcludes(m.quantity, c);
    IntToStringExcludes(m.previousStock, c);
    IntToStringExcludes(m.newStock, c);
  }

  /** The header line names the eight columns. */
  lemma HeaderColumns()
    ensures Split(Join(Header, ","), ',') == Header
  {
    forall k | 0 <= k < |Header|
      ensures ',' !in Header[k]
    {
    }
    SplitJoin(Header, ',');
  }

  /** The header line holds no line break. */
  lemma HeaderFree()
    ensures '\n' !in Join(Header, ",")
  {
    JoinExcludes(Header, ",", '\n');
  }

  /** A row holds no line break when its text cells hold none. */
  lemma RowFree(m: Movement)
    requires TextFree(m, '\n')
    ensures '\n' !in Row(m)
  {
    FieldsFree(m, '\n');
    JoinExcludes(Fields(m), ",", '\n');
  }

  /** Without line breaks in the text cells, no line of the export holds one. */
  lemma LinesFree(ms: seq<Movement>)
    requires forall i :: 0 <= i < |ms| ==> TextFree(ms[i], '\n')
    ensures forall k :: 0 <= k < |[Join(Header, ",")] + Rows(ms)| ==> '\n' !in ([Join(Header, ",")] + Rows(ms))[k]
  {
    var lines := [Join(Header, ",")] + Rows(ms);
    HeaderFree();
    forall k | 0 <= k < |lines|
      ensures '\n' !in lines[k]
    {
      if k > 0 {
        RowFree(ms[k - 1]);
      }
    }
  }

  /** When no text cell holds a line break, the export has exactly one line more than there
      are movements: the header first, then the rows in movement order. */
  lemma CsvLines(ms: seq<Movement>)
    requires forall i :: 0 <= i < |ms| ==> TextFree(ms[i], '\n')
    ensures Split(Csv(ms), '\n') == [Join(Header, ",")] + Rows(ms)
    ensures |Split(Csv(ms), '\n')| == |ms| + 1
  {
    LinesFree(ms);
    SplitJoin([Join(Header, ",")] + Rows(ms), '\n');
  }

  /** When no text cell holds a comma, a row splits back into its eight cells. */
  lemma RowColumns(m: Movement)
    requires TextFree(m, ',')
    ensures Split(Row(m), ',') == Fields(m)
  {
    FieldsFree(m, ',');
    SplitJoin(Fields(m), ',');
  }

  /** Cells are not quoted: a comma inside any cell (a product called "Nuts, salted", or a
      locale date such as "1/2/2024, 10:00:00 AM") shifts the columns of that row. */
  lemma CommaShiftsColumns(m: Movement, k: nat)
    requires k < |Fields(m)| && ',' in Fields(m)[k]
    ensures Split(Row(m), ',') != Fields(m)
  {
  }

  // ---------------------------------------------------------------- badges

  const DefaultBadge: string := "bg-gray-100 text-gray-800"
  const DefaultIcon: string := "\U{1F4E6}"

  /** The badge colours of a movement type, with a grey badge for a type outside the table. */
  function TypeBadge(t: string): (r: string)
    ensures r == DefaultBadge <==> Ledger.ParseMoveType(t).None?
  {
    if t == "purchase" then "bg-green-100 text-green-800"
    else if t == "sale" then "bg-blue-100 text-blue-800"
    else if t == "adjustment" then "bg-yellow-100 text-yellow-800"
    else if t == "return" then "bg-purple-100 text-purple-800"
    else DefaultBadge
  }

  /** The icon of a movement type, with a parcel for a type outside the table. */
  function TypeIcon(t: string): (r: string)
    ensures r == DefaultIcon <==> Ledger.ParseMoveType(t).None?
  {
    if t == "purchase" then "\U{1F4E5}"
    else if t == "sale" then "\U{1F4E4}"
    else if t == "adjustment" then "\U{2696}\U{FE0F}"
    else if t == "return" then "\U{21A9}\U{FE0F}"
    else DefaultIcon
  }

  /** The four entry types get four different badges and four different icons. */
  lemma BadgesDistinguishTypes(a: Ledger.MoveType, b: Ledger.MoveType)
    requires a != b
    ensures TypeBadge(Ledger.TypeName(a)) != TypeBadge(Ledger.TypeName(b))
    ensures TypeIcon(Ledger.TypeName(a)) != TypeIcon(Ledger.TypeName(b))
  {
  }

  // ---------------------------------------------------------------- quantity

  /** The quantity column: increases carry a plus sign, decreases their minus sign, and zero
      neither. */
  function QuantityText(q: int): (r: string)
    ensures |r| > 0
    ensures (r[0] == '+') <==> q > 0
    ensures (r[0] == '-') <==> q < 0
    ensures r == (if q > 0 then "+" else if q < 0 then "-" else "") + NatToString(if q < 0 then -q else q)
  {
    (if q > 0 then "+" else "") + IntToString(q)
  }

  /** The colour of the quantity: green exactly when the text carries a plus sign. */
  function QuantityColour(q: int): (r: string)
    ensures r == "text-green-600" <==> QuantityText(q)[0] == '+'
  {
    if q > 0 then "text-green-600" else "text-red-600"
  }
}
