/** Sale creation: the order header is saved first, then one detail per
    submitted item is added and the stock of every medicine the item names is
    decremented. Prices are the caller's; dangling medicine ids are skipped
    silently; stock has no floor. */
module Sales {
  import opened Basics
  import opened Store
  import opened Replies

  datatype OrderItemDto = OrderItemDto(medicineId: Int32, quantity: Int32, price: Money)

  /** The request body after binding: `status` defaults to "Pending" and
      `orderDate` to the time of the request when the client leaves them out. */
  datatype OrderCreateDto = OrderCreateDto(
    customerId: Int32,
    orderDate: Time,
    status: Option<string>,
    items: Option<seq<OrderItemDto>>)

  const StatusMaxLength: nat := 50
  const InvalidSale := "Invalid sale data."
  const SaleSaved := "Sale saved successfully"

  /** Model validation of the body: `Status` is required and at most 50
      UTF-16 code units, `Items` is required. `[Required]` on the value-typed
      fields can never fail. */
  predicate SaleModelValid(dto: OrderCreateDto)
  {
    RequiredString(dto.status) && WithinMaxLength(dto.status, StatusMaxLength) && dto.items.Some?
  }

  /** Model validation plus the action's own guard: the item list must not be empty. */
  predicate SaleRequestValid(dto: OrderCreateDto)
  {
    SaleModelValid(dto) && |dto.items.value| > 0
  }

  /** Sum of `Price * Quantity` over the items, with the prices as submitted. */
  function ItemsTotal(items: seq<OrderItemDto>): Money
  {
    if items == [] then 0 else items[0].price * items[0].quantity + ItemsTotal(items[1..])
  }

  /** The order total is not negative when no price or quantity is, and zero
      when every quantity is. */
  lemma {:induction false} ItemsTotalSign(items: seq<OrderItemDto>)
    ensures (forall j :: 0 <= j < |items| ==> items[j].price >= 0 && items[j].quantity >= 0) ==> ItemsTotal(items) >= 0
    ensures (forall j :: 0 <= j < |items| ==> items[j].quantity == 0) ==> ItemsTotal(items) == 0
  {
    if items != [] {
      assert forall j :: 0 <= j < |items[1..]| ==> items[1..][j] == items[j + 1];
      ItemsTotalSign(items[1..]);
    }
  }

  /** Sum of the quantities of the items that name medicine `id`. */
  function QuantityFor(items: seq<OrderItemDto>, id: Id): int
  {
    if items == [] then 0
    else (if items[0].medicineId == id then items[0].quantity else 0) + QuantityFor(items[1..], id)
  }

  function DetailFor(orderId: Id, item: OrderItemDto): (d: OrderDetail)
    ensures d.orderId == orderId
    ensures d.medicineId == item.medicineId && d.quantity == item.quantity && d.price == item.price
  {
    OrderDetail(orderId, item.medicineId, item.quantity, item.price)
  }

  /** What the item loop changes: the pending details and the tracked medicines. */
  datatype Ledger = Ledger(details: seq<OrderDetail>, medicines: map<Id, Medicine>)

  /** `medicine.Quantity -= item.Quantity` when the medicine exists (unchecked
      32-bit arithmetic); nothing at all when it does not. */
  function DecrementStock(medicines: map<Id, Medicine>, item: OrderItemDto): (r: map<Id, Medicine>)
    ensures r.Keys == medicines.Keys
    ensures forall id :: id in medicines && id != item.medicineId ==> r[id] == medicines[id]
    ensures item.medicineId in medicines ==>
              var m := medicines[item.medicineId];
              r[item.medicineId] == m.(quantity := Wrap32(m.quantity - item.quantity))
  {
    if item.medicineId in medicines then
      var m := medicines[item.medicineId];
      medicines[item.medicineId := m.(quantity := Wrap32(m.quantity - item.quantity))]
    else
      medicines
  }

  /** One detail per item, in item order, each carrying the order's id and the
      item's fields. */
  ghost predicate DetailsAppended(before: seq<OrderDetail>, after: seq<OrderDetail>, orderId: Id, items: seq<OrderItemDto>)
  {
    && |after| == |before| + |items|
    && after[..|before|] == before
    && forall j :: 0 <= j < |items| ==> after[|before| + j] == DetailFor(orderId, items[j])
  }

  /** Every medicine keeps its key and all its fields except the quantity, which
      drops by the total quantity of the items naming it (wrapping at 32 bits). */
  ghost predicate StockDecremented(before: map<Id, Medicine>, after: map<Id, Medicine>, items: seq<OrderItemDto>)
  {
    && after.Keys == before.Keys
    && forall id :: id in before ==>
         after[id] == before[id].(quantity := Wrap32(before[id].quantity - QuantityFor(items, id)))
  }

  lemma {:induction false} StockStep(medicines: map<Id, Medicine>, items: seq<OrderItemDto>, after: map<Id, Medicine>)
    requires items != []
    requires StockDecremented(DecrementStock(medicines, items[0]), after, items[1..])
    ensures StockDecremented(medicines, after, items)
  {
    var next := DecrementStock(medicines, items[0]);
    forall id | id in medicines
      ensures after[id] == medicines[id].(quantity := Wrap32(medicines[id].quantity - QuantityFor(items, id)))
    {
      if id == items[0].medicineId {
        WrapThenSubtract(medicines[id].quantity - items[0].quantity, QuantityFor(items[1..], id));
      }
    }
  }

  /** The item loop of `CreateSale`, one item at a time in submission order. */
  function PostItems(orderId: Id, items: seq<OrderItemDto>, l: Ledger): (r: Ledger)
    ensures DetailsAppended(l.details, r.details, orderId, items)
    ensures StockDecremented(l.medicines, r.medicines, items)
    decreases |items|
  {
    if items == [] then l
    else
      var next := Ledger(l.details + [DetailFor(orderId, items[0])], DecrementStock(l.medicines, items[0]));
      var r := PostItems(orderId, items[1..], next);
      StockStep(l.medicines, items, r.medicines);
      assert r.details[..|l.details|] == next.details[..|l.details|];
      r
  }

  function CreateSale(db: Db, dto: OrderCreateDto): (r: Step)
    requires db.Valid()
    ensures r.db.Valid()
    ensures r.reply.BadRequest? <==> !SaleRequestValid(dto)
    ensures !SaleModelValid(dto) ==> r.reply == BadRequest(InvalidModel)
    ensures SaleModelValid(dto) && dto.items.value == [] ==> r.reply == BadRequest(InvalidSale)
    ensures r.reply.BadRequest? ==> r.db == db
    ensures !r.reply.BadRequest? ==> r.reply.OkWithId? && r.reply.message == SaleSaved
    ensures r.reply.OkWithId? ==>
              var id := r.reply.id;
              var items := dto.items.value;
              // the header: a fresh order carrying the caller's total
              && id == db.orders.next && id !in db.orders.rows
              && r.db.orders.rows == db.orders.rows[id := Order(dto.customerId, dto.orderDate, dto.status.value, ItemsTotal(items))]
              // the details and the stock
              && DetailsAppended(db.details, r.db.details, id, items)
              && StockDecremented(db.medicines.rows, r.db.medicines.rows, items)
              && r.db.medicines.next == db.medicines.next
              // nothing else
              && r.db.users == db.users && r.db.categories == db.categories && r.db.suppliers == db.suppliers
  {
    if !SaleModelValid(dto) then
      Step(BadRequest(InvalidModel), db)
    else if |dto.items.value| == 0 then
      Step(BadRequest(InvalidSale), db)
    else
      var items := dto.items.value;
      var id := db.orders.next;
      var header := Order(dto.customerId, dto.orderDate, dto.status.value, ItemsTotal(items));
      var saved := db.(orders := db.orders.Insert(header));
      var l := PostItems(id, items, Ledger(saved.details, saved.medicines.rows));
      assert forall i :: 0 <= i < |l.details| ==> l.details[i].orderId in saved.orders.rows by {
        forall i | 0 <= i < |l.details| ensures l.details[i].orderId in saved.orders.rows {
          if i >= |db.details| {
            assert l.details[i] == DetailFor(id, items[i - |db.details|]);
          } else {
            assert l.details[i] == (l.details[..|db.details|])[i];
          }
        }
      }
      Step(OkWithId(SaleSaved, id),
           saved.(details := l.details, medicines := saved.medicines.(rows := l.medicines)))
  }

  // ---------------------------------------------------------------------------
  // Consequences for the stock

  /** Items that do not name `id` contribute nothing to its decrement. */
  lemma {:induction false} QuantityForUnnamed(items: seq<OrderItemDto>, id: Id)
    requires forall j :: 0 <= j < |items| ==> items[j].medicineId != id
    ensures QuantityFor(items, id) == 0
  {
    if items != [] {
      assert items[0].medicineId != id;
      assert forall j :: 0 <= j < |items[1..]| ==> items[1..][j].medicineId != id by {
        forall j | 0 <= j < |items[1..]| ensures items[1..][j].medicineId != id {
          assert items[1..][j] == items[j + 1];
        }
      }
      QuantityForUnnamed(items[1..], id);
    }
  }

  /** A medicine no item names comes out of a sale exactly as it went in. */
  lemma UnnamedMedicineUnchanged(db: Db, dto: OrderCreateDto, id: Id)
    requires db.Valid() && SaleRequestValid(dto)
    requires id in db.medicines.rows
    requires forall j :: 0 <= j < |dto.items.value| ==> dto.items.value[j].medicineId != id
    ensures CreateSale(db, dto).db.medicines.rows[id] == db.medicines.rows[id]
  {
    QuantityForUnnamed(dto.items.value, id);
  }

  /** When no item names an existing medicine the sale still succeeds and
      records its details, and the stock is left alone. */
  lemma DanglingItemsTouchNoStock(db: Db, dto: OrderCreateDto)
    requires db.Valid() && SaleRequestValid(dto)
    requires forall j :: 0 <= j < |dto.items.value| ==> dto.items.value[j].medicineId !in db.medicines.rows
    ensures var r := CreateSale(db, dto);
            && r.reply.OkWithId?
            && |r.db.details| == |db.details| + |dto.items.value|
            && r.db.medicines == db.medicines
  {
    var r := CreateSale(db, dto);
    forall id | id in db.medicines.rows ensures r.db.medicines.rows[id] == db.medicines.rows[id] {
      UnnamedMedicineUnchanged(db, dto, id);
    }
  }

  /** Nothing keeps stock from going below zero: one unit in stock, two sold,
      minus one left. */
  lemma StockCanGoNegative()
    ensures var med := Medicine("Panadol", 1, 1, 100, 0, 1, None, None, None);
            var db := Db(EmptyTable(), Table(map[1 := Category("Tablets")], 2),
                         Table(map[1 := Supplier("GSK", None, None)], 2),
                         Table(map[1 := med], 2), EmptyTable(), []);
            var r := CreateSale(db, OrderCreateDto(7, 0, Some("Pending"), Some([OrderItemDto(1, 2, 100)])));
            && r.reply.OkWithId?
            && r.db.medicines.rows[1].quantity == -1
  {
    var items := [OrderItemDto(1, 2, 100)];
    assert !IsWhiteSpace("Pending"[0]);
    assert QuantityFor(items, 1) == 2 by {
      assert items[1..] == [];
    }
  }

  /** Two items naming the same medicine both come off its stock. */
  lemma RepeatedItemsAccumulate(db: Db, dto: OrderCreateDto, a: OrderItemDto, b: OrderItemDto)
    requires db.Valid() && RequiredString(dto.status) && WithinMaxLength(dto.status, StatusMaxLength)
    requires dto.items == Some([a, b]) && a.medicineId == b.medicineId && a.medicineId in db.medicines.rows
    ensures var q := db.medicines.rows[a.medicineId].quantity;
            CreateSale(db, dto).db.medicines.rows[a.medicineId].quantity == Wrap32(q - a.quantity - b.quantity)
  {
    var items := [a, b];
    assert items[1..] == [b] && [b][1..] == [];
    assert QuantityFor([b], a.medicineId) == b.quantity;
    assert QuantityFor(items, a.medicineId) == a.quantity + b.quantity;
  }
}
