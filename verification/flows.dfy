/** How the pieces meet: the sale form's post as the sales endpoint binds it,
    what a sale does to the sale report, what a registration does to the
    customer list, and what a new medicine does to the overview. */
module Flows {
  import opened Basics
  import opened Store
  import opened Replies
  import opened Sales
  import opened Reports
  import opened MedicineDtos
  import Catalog
  import Auth
  import SaleEditor

  // ---------------------------------------------------------------------------
  // The sale form and the sales endpoint

  /** Can every number of the posted body be bound to a C# `int`? */
  predicate Bindable(p: SaleEditor.SalePayload)
  {
    && IsInt32(p.customerId)
    && forall j :: 0 <= j < |p.items| ==> IsInt32(p.items[j].medicineId) && IsInt32(p.items[j].quantity)
  }

  /** The request the sales endpoint sees for the form's post: the invoice
      number has no field to land in, `status` and `orderDate` take their
      defaults, and a number outside the `int` range fails binding. */
  function BindSale(p: SaleEditor.SalePayload, now: Time): (r: Option<OrderCreateDto>)
    ensures r.Some? <==> Bindable(p)
    ensures r.Some? ==>
              && r.value.customerId == p.customerId
              && r.value.orderDate == now
              && r.value.status == Some("Pending")
              && r.value.items.Some? && |r.value.items.value| == |p.items|
              && forall j :: 0 <= j < |p.items| ==>
                   r.value.items.value[j] == OrderItemDto(p.items[j].medicineId, p.items[j].quantity, p.items[j].price)
  {
    if !Bindable(p) then None
    else
      var items := seq(|p.items|, j requires 0 <= j < |p.items| =>
                         OrderItemDto(p.items[j].medicineId, p.items[j].quantity, p.items[j].price));
      Some(OrderCreateDto(p.customerId, now, Some("Pending"), Some(items)))
  }

  /** The order total the server computes from items that copy the rows'
      prices and quantities is the rows' price-times-quantity sum. */
  lemma {:induction false} ItemsTotalOfRows(items: seq<OrderItemDto>, rows: seq<SaleEditor.SaleItem>)
    requires |items| == |rows|
    requires forall j :: 0 <= j < |rows| ==> items[j].price == rows[j].price && items[j].quantity == rows[j].quantity
    ensures ItemsTotal(items) == SaleEditor.PriceTimesQuantity(rows)
  {
    if items != [] {
      assert forall j :: 0 <= j < |rows[1..]| ==>
        items[1..][j].price == rows[1..][j].price && items[1..][j].quantity == rows[1..][j].quantity by {
        forall j | 0 <= j < |rows[1..]|
          ensures items[1..][j].price == rows[1..][j].price && items[1..][j].quantity == rows[1..][j].quantity
        {
          assert items[1..][j] == items[j + 1] && rows[1..][j] == rows[j + 1];
        }
      }
      ItemsTotalOfRows(items[1..], rows[1..]);
    }
  }

  /** The total the form shows is the total the server stores: a form with a
      customer, at least one row and consistent line totals is saved, and the
      new order's amount is the form's grand total. */
  lemma FormTotalIsStoredTotal(db: Db, f: SaleEditor.Form, now: Time)
    requires db.Valid()
    requires SaleEditor.SubmitRequest(f).Some? && f.rows != []
    requires SaleEditor.RowsConsistent(f.rows)
    requires Bindable(SaleEditor.SubmitRequest(f).value)
    ensures var dto := BindSale(SaleEditor.SubmitRequest(f).value, now).value;
            var r := CreateSale(db, dto);
            && r.reply.OkWithId?
            && r.db.orders.rows[r.reply.id].totalAmount == SaleEditor.GrandTotal(f.rows)
            && r.db.orders.rows[r.reply.id].status == "Pending"
  {
    var dto := BindSale(SaleEditor.SubmitRequest(f).value, now).value;
    assert !IsWhiteSpace("Pending"[0]);
    SaleEditor.GrandTotalIsPriceTimesQuantity(f.rows);
    ItemsTotalOfRows(dto.items.value, f.rows);
  }

  /** The form does not stop a sale without rows; the server does, and
      nothing is stored. */
  lemma EmptyFormRejectedByServer(db: Db, f: SaleEditor.Form, now: Time)
    requires db.Valid()
    requires f.customer.Some? && f.customer.value != 0 && IsInt32(f.customer.value)
    requires f.rows == []
    ensures SaleEditor.SubmitRequest(f).Some?
    ensures var dto := BindSale(SaleEditor.SubmitRequest(f).value, now).value;
            CreateSale(db, dto) == Step(BadRequest(InvalidSale), db)
  {
    assert !IsWhiteSpace("Pending"[0]);
  }

  // ---------------------------------------------------------------------------
  // Sales and the sale report

  lemma {:induction false} JoinedTotalConcat(a: seq<OrderDetail>, b: seq<OrderDetail>, o: Id, m: map<Id, Medicine>)
    ensures JoinedDetailsTotal(a + b, o, m) == JoinedDetailsTotal(a, o, m) + JoinedDetailsTotal(b, o, m)
  {
    if a != [] {
      assert (a + b)[1..] == a[1..] + b;
      JoinedTotalConcat(a[1..], b, o, m);
    } else {
      assert a + b == b;
    }
  }

  lemma {:induction false} LinesConcat(a: seq<OrderDetail>, b: seq<OrderDetail>, o: Id, m: map<Id, Medicine>)
    ensures Lines(a + b, o, m) == Lines(a, o, m) + Lines(b, o, m)
  {
    if a != [] {
      assert (a + b)[1..] == a[1..] + b;
      LinesConcat(a[1..], b, o, m);
    } else {
      assert a + b == b;
    }
  }

  /** Details of other orders contribute no lines. */
  lemma {:induction false} LinesOfOtherOrder(ds: seq<OrderDetail>, o: Id, m: map<Id, Medicine>)
    requires forall j :: 0 <= j < |ds| ==> ds[j].orderId != o
    ensures Lines(ds, o, m) == []
  {
    if ds != [] {
      assert ds[0].orderId != o;
      assert forall j :: 0 <= j < |ds[1..]| ==> ds[1..][j].orderId != o by {
        forall j | 0 <= j < |ds[1..]| ensures ds[1..][j].orderId != o {
          assert ds[1..][j] == ds[j + 1];
        }
      }
      LinesOfOtherOrder(ds[1..], o, m);
    }
  }

  /** The report reads a medicine only for its existence and its name. */
  lemma {:induction false} LinesFrame(ds: seq<OrderDetail>, o: Id, m1: map<Id, Medicine>, m2: map<Id, Medicine>)
    requires m1.Keys == m2.Keys
    requires forall k :: k in m1 ==> m1[k].name == m2[k].name
    ensures Lines(ds, o, m1) == Lines(ds, o, m2)
    ensures JoinedDetailsTotal(ds, o, m1) == JoinedDetailsTotal(ds, o, m2)
  {
    if ds != [] {
      LinesFrame(ds[1..], o, m1, m2);
    }
  }

  /** The details a sale appends, all naming existing medicines, add up to
      the sale's item total. */
  lemma {:induction false} FreshDetailsTotal(ds: seq<OrderDetail>, items: seq<OrderItemDto>, id: Id, m: map<Id, Medicine>)
    requires |ds| == |items|
    requires forall j :: 0 <= j < |items| ==> ds[j] == DetailFor(id, items[j]) && items[j].medicineId in m
    ensures JoinedDetailsTotal(ds, id, m) == ItemsTotal(items)
  {
    if ds != [] {
      assert ds[0].quantity * ds[0].price == items[0].price * items[0].quantity;
      assert forall j :: 0 <= j < |items[1..]| ==>
        ds[1..][j] == DetailFor(id, items[1..][j]) && items[1..][j].medicineId in m by {
        forall j | 0 <= j < |items[1..]|
          ensures ds[1..][j] == DetailFor(id, items[1..][j]) && items[1..][j].medicineId in m
        {
          assert ds[1..][j] == ds[j + 1] && items[1..][j] == items[j + 1];
        }
      }
      FreshDetailsTotal(ds[1..], items[1..], id, m);
    }
  }

  /** What a successful sale does to the rows the report reads: the details
      gain one entry per item at the end, and every medicine keeps its key and
      its name. */
  lemma SaleExtendsDetails(db: Db, dto: OrderCreateDto) returns (added: seq<OrderDetail>)
    requires db.Valid() && SaleRequestValid(dto)
    ensures var r := CreateSale(db, dto);
            && r.reply.OkWithId?
            && r.db.details == db.details + added
            && |added| == |dto.items.value|
            && (forall j :: 0 <= j < |added| ==> added[j] == DetailFor(r.reply.id, dto.items.value[j]))
            && r.db.medicines.rows.Keys == db.medicines.rows.Keys
            && (forall k :: k in db.medicines.rows ==> r.db.medicines.rows[k].name == db.medicines.rows[k].name)
  {
    var r := CreateSale(db, dto);
    added := r.db.details[|db.details|..];
    assert r.db.details == db.details + added;
    forall j | 0 <= j < |added| ensures added[j] == DetailFor(r.reply.id, dto.items.value[j]) {
      assert added[j] == r.db.details[|db.details| + j];
    }
  }

  /** Appending the details of a new order, all naming existing medicines,
      gives that order a group with one line per detail and their sum as its
      total. */
  lemma {:induction false} AppendMakesGroup(db1: Db, db2: Db, added: seq<OrderDetail>, items: seq<OrderItemDto>, id: Id)
    requires id in db2.orders.rows
    requires db2.details == db1.details + added
    requires forall j :: 0 <= j < |db1.details| ==> db1.details[j].orderId != id
    requires |added| == |items| > 0
    requires forall j :: 0 <= j < |items| ==> added[j] == DetailFor(id, items[j]) && items[j].medicineId in db1.medicines.rows
    requires db2.medicines.rows.Keys == db1.medicines.rows.Keys
    requires forall k :: k in db1.medicines.rows ==> db2.medicines.rows[k].name == db1.medicines.rows[k].name
    ensures id in GetOrders(db2)
    ensures GetOrders(db2)[id].totalAmount == ItemsTotal(items)
    ensures |GetOrders(db2)[id].items| == |items|
  {
    var m := db1.medicines.rows;
    assert db2.details[|db1.details|] == added[0];
    LinesFrame(db2.details, id, db2.medicines.rows, m);
    JoinedTotalConcat(db1.details, added, id, m);
    JoinedTotalOfOtherOrder(db1.details, id, m);
    LinesConcat(db1.details, added, id, m);
    LinesOfOtherOrder(db1.details, id, m);
    FreshDetailsTotal(added, items, id, m);
    FreshLineCount(added, items, id, m);
  }

  /** A sale whose items all name existing medicines appears in the report
      with one line per item and the total it was stored with. */
  lemma SaleAppearsInReport(db: Db, dto: OrderCreateDto)
    requires db.Valid() && SaleRequestValid(dto)
    requires forall j :: 0 <= j < |dto.items.value| ==> dto.items.value[j].medicineId in db.medicines.rows
    ensures var r := CreateSale(db, dto);
            var id := r.reply.id;
            && r.reply.OkWithId?
            && id in GetOrders(r.db)
            && GetOrders(r.db)[id].totalAmount == ItemsTotal(dto.items.value) == r.db.orders.rows[id].totalAmount
            && |GetOrders(r.db)[id].items| == |dto.items.value|
  {
    var added := SaleExtendsDetails(db, dto);
    var r := CreateSale(db, dto);
    AppendMakesGroup(db, r.db, added, dto.items.value, r.reply.id);
  }

  /** An order's group depends only on its header, its lines and its total. */
  lemma GroupFrame(db1: Db, db2: Db, o: Id, i: nat)
    requires o in GetOrders(db1) && o in db2.orders.rows
    requires db2.orders.rows[o] == db1.orders.rows[o]
    requires i < |db2.details| && Joins(db2.details[i], o, db2.medicines.rows)
    requires Lines(db2.details, o, db2.medicines.rows) == Lines(db1.details, o, db1.medicines.rows)
    requires JoinedDetailsTotal(db2.details, o, db2.medicines.rows) == JoinedDetailsTotal(db1.details, o, db1.medicines.rows)
    ensures o in GetOrders(db2) && GetOrders(db2)[o] == GetOrders(db1)[o]
  {
  }

  /** Appending details of other orders, and changing medicines in anything
      but their names, leaves an order's group as it was. */
  lemma AppendKeepsGroup(db1: Db, db2: Db, added: seq<OrderDetail>, o: Id)
    requires o in GetOrders(db1) && o in db2.orders.rows
    requires db2.orders.rows[o] == db1.orders.rows[o]
    requires db2.details == db1.details + added
    requires forall j :: 0 <= j < |added| ==> added[j].orderId != o
    requires db2.medicines.rows.Keys == db1.medicines.rows.Keys
    requires forall k :: k in db1.medicines.rows ==> db2.medicines.rows[k].name == db1.medicines.rows[k].name
    ensures o in GetOrders(db2) && GetOrders(db2)[o] == GetOrders(db1)[o]
  {
    var m1, m2 := db1.medicines.rows, db2.medicines.rows;
    var i :| 0 <= i < |db1.details| && Joins(db1.details[i], o, m1);
    assert db2.details[i] == db1.details[i];
    LinesFrame(db2.details, o, m2, m1);
    LinesConcat(db1.details, added, o, m1);
    LinesOfOtherOrder(added, o, m1);
    JoinedTotalConcat(db1.details, added, o, m1);
    JoinedTotalOfOtherOrder(added, o, m1);
    GroupFrame(db1, db2, o, i);
  }

  /** Every order the report already showed keeps its group, lines and total
      included, after any successful sale. */
  lemma ReportedOrderUnchanged(db: Db, dto: OrderCreateDto, o: Id)
    requires db.Valid() && SaleRequestValid(dto)
    requires o in GetOrders(db)
    ensures var r := CreateSale(db, dto);
            o in GetOrders(r.db) && GetOrders(r.db)[o] == GetOrders(db)[o]
  {
    var added := SaleExtendsDetails(db, dto);
    var r := CreateSale(db, dto);
    assert o != r.reply.id;
    AppendKeepsGroup(db, r.db, added, o);
  }

  lemma {:induction false} JoinedTotalOfOtherOrder(ds: seq<OrderDetail>, o: Id, m: map<Id, Medicine>)
    requires forall j :: 0 <= j < |ds| ==> ds[j].orderId != o
    ensures JoinedDetailsTotal(ds, o, m) == 0
  {
    if ds != [] {
      assert ds[0].orderId != o;
      assert forall j :: 0 <= j < |ds[1..]| ==> ds[1..][j].orderId != o by {
        forall j | 0 <= j < |ds[1..]| ensures ds[1..][j].orderId != o {
          assert ds[1..][j] == ds[j + 1];
        }
      }
      JoinedTotalOfOtherOrder(ds[1..], o, m);
    }
  }

  lemma {:induction false} FreshLineCount(ds: seq<OrderDetail>, items: seq<OrderItemDto>, id: Id, m: map<Id, Medicine>)
    requires |ds| == |items|
    requires forall j :: 0 <= j < |items| ==> ds[j] == DetailFor(id, items[j]) && items[j].medicineId in m
    ensures |Lines(ds, id, m)| == |ds|
  {
    if ds != [] {
      assert forall j :: 0 <= j < |items[1..]| ==>
        ds[1..][j] == DetailFor(id, items[1..][j]) && items[1..][j].medicineId in m by {
        forall j | 0 <= j < |items[1..]|
          ensures ds[1..][j] == DetailFor(id, items[1..][j]) && items[1..][j].medicineId in m
        {
          assert ds[1..][j] == ds[j + 1] && items[1..][j] == items[j + 1];
        }
      }
      FreshLineCount(ds[1..], items[1..], id, m);
    }
  }

  // ---------------------------------------------------------------------------
  // Registration and the customer list

  /** A registration with the role "Customer" adds the new user, with no full
      name, to the customer list; any other role, and a refused registration,
      leave the list as it was. */
  lemma RegisterAndCustomers(db: Db, h: Auth.Hasher, salt: Auth.Salt, now: Time, dto: Auth.RegisterDto)
    requires db.Valid()
    ensures var r := Auth.Register(db, h, salt, now, dto);
            && (r.reply.Ok? && dto.role == CustomerRole ==> GetUsers(r.db) == GetUsers(db)[db.users.next := None])
            && (!r.reply.Ok? || dto.role != CustomerRole ==> GetUsers(r.db) == GetUsers(db))
  {
  }

  // ---------------------------------------------------------------------------
  // A new medicine and the overview

  /** An added medicine counts once more and adds its quantity to the stock
      figure; a refused one changes neither. */
  lemma AddMedicineGrowsOverview(db: Db, dto: MedicineDto)
    requires db.Valid()
    ensures var r := Catalog.AddMedicine(db, dto);
            && (r.reply.Ok? ==> |r.db.medicines.rows| == |db.medicines.rows| + 1
                                && TotalStock(r.db.medicines.rows) == TotalStock(db.medicines.rows) + dto.quantity)
            && (!r.reply.Ok? ==> r.db.medicines == db.medicines)
  {
    var r := Catalog.AddMedicine(db, dto);
    if r.reply.Ok? {
      var k := db.medicines.next;
      assert r.db.medicines.rows == db.medicines.rows[k := r.db.medicines.rows[k]];
      TotalStockInsert(db.medicines.rows, k, r.db.medicines.rows[k]);
    }
  }
}
