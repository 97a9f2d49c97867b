/** The pharmacist's daily-expense form: a date and a list of rows, each a
    title, an amount and free notes. Amounts are in cents. */
module ExpenseEditor {
  import opened Basics
  import opened Rows

  datatype ExpenseItem = ExpenseItem(title: string, amount: Money, notes: string)

  /** The keys of a row `handleChange` may be called with. */
  datatype ExpenseField = TitleField | AmountField | NotesField

  /** The row the "Add Expense" button appends. */
  const BlankExpense := ExpenseItem("", 0, "")

  /** `totalAmount`: the amounts added up. */
  function TotalAmount(items: seq<ExpenseItem>): Money
  {
    if items == [] then 0 else items[0].amount + TotalAmount(items[1..])
  }

  /** `handleAddRow`. */
  function AddRow(items: seq<ExpenseItem>): (r: seq<ExpenseItem>)
    ensures |r| == |items| + 1
    ensures forall j :: 0 <= j < |items| ==> r[j] == items[j]
    ensures r[|items|] == ExpenseItem("", 0, "")
  {
    items + [BlankExpense]
  }

  /** `handleChange(index, field, value)` on a rendered row. The input's text
      arrives as `value`; `toNumber` is the browser's `Number` conversion,
      applied to the amount only. */
  function Change(items: seq<ExpenseItem>, index: int, field: ExpenseField, value: string,
                  toNumber: string -> Money): (r: seq<ExpenseItem>)
    requires 0 <= index < |items|
    ensures |r| == |items|
    ensures forall j :: 0 <= j < |items| && j != index ==> r[j] == items[j]
    ensures field == TitleField ==> r[index] == items[index].(title := value)
    ensures field == AmountField ==> r[index] == items[index].(amount := toNumber(value))
    ensures field == NotesField ==> r[index] == items[index].(notes := value)
  {
    var item := items[index];
    match field
    case TitleField => items[index := item.(title := value)]
    case AmountField => items[index := item.(amount := toNumber(value))]
    case NotesField => items[index := item.(notes := value)]
  }

  /** `handleRemoveRow(index)`. */
  function RemoveRow(items: seq<ExpenseItem>, index: int): (r: seq<ExpenseItem>)
    ensures 0 <= index < |items| ==>
              && |r| == |items| - 1
              && (forall j :: 0 <= j < index ==> r[j] == items[j])
              && (forall j :: index <= j < |r| ==> r[j] == items[j + 1])
  {
    RemoveAt(items, index)
  }

  // ---------------------------------------------------------------------------
  // The running total

  lemma {:induction false} TotalAmountConcat(a: seq<ExpenseItem>, b: seq<ExpenseItem>)
    ensures TotalAmount(a + b) == TotalAmount(a) + TotalAmount(b)
  {
    if a != [] {
      assert (a + b)[1..] == a[1..] + b;
      TotalAmountConcat(a[1..], b);
    } else {
      assert a + b == b;
    }
  }

  lemma {:induction false} TotalAmountUpdate(items: seq<ExpenseItem>, i: nat, item: ExpenseItem)
    requires i < |items|
    ensures TotalAmount(items[i := item]) == TotalAmount(items) - items[i].amount + item.amount
  {
    if i > 0 {
      assert items[i := item][1..] == items[1..][i - 1 := item];
      TotalAmountUpdate(items[1..], i - 1, item);
    }
  }

  /** Amounts that are all zero, or all non-negative, give a total that is
      zero, or non-negative. */
  lemma {:induction false} TotalAmountSign(items: seq<ExpenseItem>)
    ensures (forall j :: 0 <= j < |items| ==> items[j].amount >= 0) ==> TotalAmount(items) >= 0
    ensures (forall j :: 0 <= j < |items| ==> items[j].amount == 0) ==> TotalAmount(items) == 0
  {
    if items != [] {
      assert forall j :: 0 <= j < |items[1..]| ==> items[1..][j] == items[j + 1];
      TotalAmountSign(items[1..]);
    }
  }

  /** A new row adds nothing to the total. */
  lemma AddRowKeepsTotal(items: seq<ExpenseItem>)
    ensures TotalAmount(AddRow(items)) == TotalAmount(items)
  {
    TotalAmountConcat(items, [BlankExpense]);
  }

  /** Editing a title or the notes leaves the total alone; editing an amount
      moves it by the difference. */
  lemma ChangeMovesTotal(items: seq<ExpenseItem>, index: int, field: ExpenseField, value: string,
                         toNumber: string -> Money)
    requires 0 <= index < |items|
    ensures var r := Change(items, index, field, value, toNumber);
            && (field != AmountField ==> TotalAmount(r) == TotalAmount(items))
            && (field == AmountField ==>
                  TotalAmount(r) == TotalAmount(items) - items[index].amount + toNumber(value))
  {
    var r := Change(items, index, field, value, toNumber);
    TotalAmountUpdate(items, index, r[index]);
  }

  /** Removing a row takes exactly its amount off the total. */
  lemma RemoveRowTakesOffItsAmount(items: seq<ExpenseItem>, index: int)
    requires 0 <= index < |items|
    ensures TotalAmount(RemoveRow(items, index)) == TotalAmount(items) - items[index].amount
  {
    var a, x, b := items[..index], items[index], items[index + 1..];
    RemoveAtSplit(items, index);
    TotalAmountConcat(a + [x], b);
    TotalAmountConcat(a, [x]);
    assert [x][1..] == [];
    TotalAmountConcat(a, b);
  }

  // ---------------------------------------------------------------------------
  // Submitting

  /** The form: the date as the date input's text, and the rows. */
  datatype Form = Form(date: string, items: seq<ExpenseItem>)

  /** The body posted to the expenses endpoint. */
  datatype ExpensePayload = ExpensePayload(date: string, items: seq<ExpenseItem>)

  /** `handleSubmit` up to the post: refused when the date is empty or there
      are no rows; otherwise the date and the rows go out unchanged. */
  function SubmitRequest(f: Form): (r: Option<ExpensePayload>)
    ensures r.None? <==> f.date == "" || f.items == []
    ensures r.Some? ==> r.value.date == f.date && r.value.items == f.items
    ensures r.Some? ==> TotalAmount(r.value.items) == TotalAmount(f.items)
  {
    if f.date == "" || |f.items| == 0 then None else Some(ExpensePayload(f.date, f.items))
  }

  /** The form after `handleSubmit`; `posted` says whether the post succeeded.
      Only a successful post changes the form, and it only empties the rows. */
  function AfterSubmit(f: Form, posted: bool): (g: Form)
    ensures SubmitRequest(f).None? || !posted ==> g == f
    ensures SubmitRequest(f).Some? && posted ==> g.items == [] && g.date == f.date
    ensures TotalAmount(g.items) == (if SubmitRequest(f).Some? && posted then 0 else TotalAmount(f.items))
  {
    if SubmitRequest(f).Some? && posted then f.(items := []) else f
  }
}
