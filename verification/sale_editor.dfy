/** The pharmacist's sale form: a list of rows, each a medicine, a quantity, the
    unit price taken from the stock list and the line total, plus the customer
    picker and the submit button. Prices are in cents. */
module SaleEditor {
  import opened Basics
  import opened Rows

  /** One entry of the inventory list the form loads, with the fields the
      form reads: the id it matches on, the name it shows and the price it copies. */
  datatype StockEntry = StockEntry(id: int, name: string, price: Money)

  datatype SaleItem = SaleItem(medicineId: int, quantity: int, price: Money, total: Money)

  /** The keys of a row `handleChange` may be called with. */
  datatype SaleField = MedicineIdField | QuantityField | PriceField | TotalField

  /** The row the "Add Item" button appends. */
  const BlankRow := SaleItem(0, 1, 0, 0)

  /** The invariant of the form: every line total is its price times its quantity. */
  predicate RowsConsistent(rows: seq<SaleItem>)
  {
    forall j :: 0 <= j < |rows| ==> rows[j].total == rows[j].price * rows[j].quantity
  }

  /** `grandTotal`: the line totals added up. */
  function GrandTotal(rows: seq<SaleItem>): Money
  {
    if rows == [] then 0 else rows[0].total + GrandTotal(rows[1..])
  }

  /** Reference sum: price times quantity over the rows, ignoring the stored totals. */
  function PriceTimesQuantity(rows: seq<SaleItem>): Money
  {
    if rows == [] then 0 else rows[0].price * rows[0].quantity + PriceTimesQuantity(rows[1..])
  }

  // ---------------------------------------------------------------------------
  // Row operations

  /** `handleAddRow`. */
  function AddRow(rows: seq<SaleItem>): (r: seq<SaleItem>)
    ensures |r| == |rows| + 1
    ensures forall j :: 0 <= j < |rows| ==> r[j] == rows[j]
    ensures r[|rows|] == SaleItem(0, 1, 0, 0)
    ensures RowsConsistent(rows) ==> RowsConsistent(r)
  {
    rows + [BlankRow]
  }

  /** A first match in the tail is a first match in the whole list when the
      head does not match. */
  lemma FirstMatchShifts(stock: seq<StockEntry>, id: int, r: Option<StockEntry>)
    requires stock != [] && stock[0].id != id
    requires r.Some? ==> exists i :: 0 <= i < |stock[1..]| && stock[1..][i] == r.value
                                    && forall j :: 0 <= j < i ==> stock[1..][j].id != id
    ensures r.Some? ==> exists i :: 0 <= i < |stock| && stock[i] == r.value
                                   && forall j :: 0 <= j < i ==> stock[j].id != id
  {
    if r.Some? {
      var i :| 0 <= i < |stock[1..]| && stock[1..][i] == r.value
               && forall j :: 0 <= j < i ==> stock[1..][j].id != id;
      assert stock[i + 1] == r.value;
      forall j | 0 <= j < i + 1 ensures stock[j].id != id {
        if j > 0 { assert stock[j] == stock[1..][j - 1]; }
      }
    }
  }

  /** `stock.find(m => m.id === id)`: the first entry with that id. */
  function FindMedicine(stock: seq<StockEntry>, id: int): (r: Option<StockEntry>)
    ensures r.None? <==> forall i :: 0 <= i < |stock| ==> stock[i].id != id
    ensures r.Some? ==> exists i :: 0 <= i < |stock| && stock[i] == r.value
                                   && forall j :: 0 <= j < i ==> stock[j].id != id
    ensures r.Some? ==> r.value.id == id
  {
    if stock == [] then None
    else if stock[0].id == id then Some(stock[0])
    else
      var r := FindMedicine(stock[1..], id);
      FirstMatchShifts(stock, id, r);
      r
  }

  /** `handleChange(index, field, value)` on a rendered row. */
  function Change(rows: seq<SaleItem>, stock: seq<StockEntry>, index: int, field: SaleField, value: int): (r: seq<SaleItem>)
    requires 0 <= index < |rows|
    ensures |r| == |rows|
    ensures forall j :: 0 <= j < |rows| && j != index ==> r[j] == rows[j]
    ensures field == MedicineIdField && FindMedicine(stock, value).Some? ==>
              var med := FindMedicine(stock, value).value;
              && r[index].medicineId == value
              && r[index].price == med.price
              && r[index].quantity == rows[index].quantity
              && r[index].total == med.price * rows[index].quantity
    ensures field == MedicineIdField && (forall i :: 0 <= i < |stock| ==> stock[i].id != value) ==> r == rows
    ensures field == QuantityField ==>
              && r[index].quantity == value
              && r[index].total == rows[index].price * value
              && r[index].medicineId == rows[index].medicineId
              && r[index].price == rows[index].price
    ensures field == PriceField || field == TotalField ==> r == rows
    ensures RowsConsistent(rows) ==> RowsConsistent(r)
  {
    match field
    case MedicineIdField =>
      (match FindMedicine(stock, value)
       case Some(med) =>
         var row := rows[index];
         rows[index := row.(medicineId := med.id, price := med.price, total := med.price * row.quantity)]
       case None => rows)
    case QuantityField =>
      var row := rows[index];
      rows[index := row.(quantity := value, total := row.price * value)]
    case _ => rows
  }

  /** `handleRemoveRow(index)`. */
  function RemoveRow(rows: seq<SaleItem>, index: int): (r: seq<SaleItem>)
    ensures 0 <= index < |rows| ==>
              && |r| == |rows| - 1
              && (forall j :: 0 <= j < index ==> r[j] == rows[j])
              && (forall j :: index <= j < |r| ==> r[j] == rows[j + 1])
    ensures RowsConsistent(rows) ==> RowsConsistent(r)
  {
    RemoveAt(rows, index)
  }

  // ---------------------------------------------------------------------------
  // The running total

  lemma {:induction false} GrandTotalAppend(rows: seq<SaleItem>, row: SaleItem)
    ensures GrandTotal(rows + [row]) == GrandTotal(rows) + row.total
  {
    if rows != [] {
      assert (rows + [row])[1..] == rows[1..] + [row];
      GrandTotalAppend(rows[1..], row);
    }
  }

  lemma {:induction false} GrandTotalConcat(a: seq<SaleItem>, b: seq<SaleItem>)
    ensures GrandTotal(a + b) == GrandTotal(a) + GrandTotal(b)
  {
    if a != [] {
      assert (a + b)[1..] == a[1..] + b;
      GrandTotalConcat(a[1..], b);
    } else {
      assert a + b == b;
    }
  }

  /** Replacing one row changes the total by the difference of the two line totals. */
  lemma {:induction false} GrandTotalUpdate(rows: seq<SaleItem>, i: nat, row: SaleItem)
    requires i < |rows|
    ensures GrandTotal(rows[i := row]) == GrandTotal(rows) - rows[i].total + row.total
  {
    if i > 0 {
      assert rows[i := row][1..] == rows[1..][i - 1 := row];
      GrandTotalUpdate(rows[1..], i - 1, row);
    }
  }

  /** Line totals that are all zero, or all non-negative, give a grand total
      that is zero, or non-negative. */
  lemma {:induction false} GrandTotalSign(rows: seq<SaleItem>)
    ensures (forall j :: 0 <= j < |rows| ==> rows[j].total >= 0) ==> GrandTotal(rows) >= 0
    ensures (forall j :: 0 <= j < |rows| ==> rows[j].total == 0) ==> GrandTotal(rows) == 0
  {
    if rows != [] {
      assert forall j :: 0 <= j < |rows[1..]| ==> rows[1..][j] == rows[j + 1];
      GrandTotalSign(rows[1..]);
    }
  }

  /** A new row adds nothing to the total. */
  lemma AddRowKeepsTotal(rows: seq<SaleItem>)
    ensures GrandTotal(AddRow(rows)) == GrandTotal(rows)
  {
    GrandTotalAppend(rows, BlankRow);
  }

  /** A change moves the total by exactly the change of the edited line. */
  lemma ChangeMovesTotal(rows: seq<SaleItem>, stock: seq<StockEntry>, index: int, field: SaleField, value: int)
    requires 0 <= index < |rows|
    ensures var r := Change(rows, stock, index, field, value);
            GrandTotal(r) == GrandTotal(rows) - rows[index].total + r[index].total
  {
    var r := Change(rows, stock, index, field, value);
    assert r == rows[index := r[index]];
    GrandTotalUpdate(rows, index, r[index]);
  }

  /** Removing a row takes exactly its line total off the grand total. */
  lemma RemoveRowTakesOffItsTotal(rows: seq<SaleItem>, index: int)
    requires 0 <= index < |rows|
    ensures GrandTotal(RemoveRow(rows, index)) == GrandTotal(rows) - rows[index].total
  {
    var a, x, b := rows[..index], rows[index], rows[index + 1..];
    RemoveAtSplit(rows, index);
    GrandTotalConcat(a + [x], b);
    GrandTotalAppend(a, x);
    GrandTotalConcat(a, b);
  }

  /** While the invariant holds, the grand total is the sum of price times quantity. */
  lemma {:induction false} GrandTotalIsPriceTimesQuantity(rows: seq<SaleItem>)
    requires RowsConsistent(rows)
    ensures GrandTotal(rows) == PriceTimesQuantity(rows)
  {
    if rows != [] {
      assert RowsConsistent(rows[1..]) by {
        forall j | 0 <= j < |rows[1..]| ensures rows[1..][j].total == rows[1..][j].price * rows[1..][j].quantity {
          assert rows[1..][j] == rows[j + 1];
        }
      }
      GrandTotalIsPriceTimesQuantity(rows[1..]);
    }
  }

  // ---------------------------------------------------------------------------
  // Submitting

  /** What the form holds between edits; `customer` is the picked customer id. */
  datatype Form = Form(customer: Option<int>, invoiceNumber: string, rows: seq<SaleItem>)

  /** The initial form: no customer, no rows. */
  function InitialForm(invoiceNumber: string): (f: Form)
    ensures f.customer.None? && f.rows == [] && RowsConsistent(f.rows)
  {
    Form(None, invoiceNumber, [])
  }

  datatype ItemPayload = ItemPayload(medicineId: int, quantity: int, price: Money)

  /** The body posted to the sales endpoint. */
  datatype SalePayload = SalePayload(customerId: int, invoiceNumber: string, items: seq<ItemPayload>)

  function Payload(row: SaleItem): (p: ItemPayload)
    ensures p.medicineId == row.medicineId && p.quantity == row.quantity && p.price == row.price
  {
    ItemPayload(row.medicineId, row.quantity, row.price)
  }

  /** The items posted: every row, in order, without its total. */
  function PayloadItems(rows: seq<SaleItem>): (items: seq<ItemPayload>)
    ensures |items| == |rows|
    ensures forall j :: 0 <= j < |rows| ==> items[j] == Payload(rows[j])
  {
    seq(|rows|, j requires 0 <= j < |rows| => Payload(rows[j]))
  }

  /** `handleSubmit` up to the post: nothing is sent without a customer (an
      unset picker and the id 0 both count as none); otherwise the rows go out
      as they are, even when there are none. */
  function SubmitRequest(f: Form): (r: Option<SalePayload>)
    ensures r.None? <==> f.customer.None? || f.customer.value == 0
    ensures r.Some? ==> && r.value.customerId == f.customer.value
                        && r.value.invoiceNumber == f.invoiceNumber
                        && |r.value.items| == |f.rows|
                        && forall j :: 0 <= j < |f.rows| ==>
                             r.value.items[j].medicineId == f.rows[j].medicineId
                             && r.value.items[j].quantity == f.rows[j].quantity
                             && r.value.items[j].price == f.rows[j].price
  {
    if f.customer.None? || f.customer.value == 0 then None
    else Some(SalePayload(f.customer.value, f.invoiceNumber, PayloadItems(f.rows)))
  }

  /** The form after `handleSubmit`: `posted` says whether the post succeeded,
      `nextInvoice` is the invoice number stamped afterwards. A refused or
      failed submit changes nothing; a successful one clears the rows and the
      customer. */
  function AfterSubmit(f: Form, posted: bool, nextInvoice: string): (g: Form)
    ensures SubmitRequest(f).None? || !posted ==> g == f
    ensures SubmitRequest(f).Some? && posted ==> g == InitialForm(nextInvoice)
    ensures RowsConsistent(f.rows) ==> RowsConsistent(g.rows)
  {
    if SubmitRequest(f).Some? && posted then Form(None, nextInvoice, []) else f
  }
}
