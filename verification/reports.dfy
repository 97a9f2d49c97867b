/** The read-only projections of the admin controller: the overview counts,
    the customer list and the per-order sale report. */
module Reports {
  import opened Basics
  import opened Store

  // ---------------------------------------------------------------------------
  // Overview

  datatype Overview = Overview(medicines: int, stock: int, users: int)

  /** Some element of a non-empty set; the same one every time it is asked. */
  ghost function Pick(s: set<Id>): (x: Id)
    requires s != {}
    ensures x in s
  {
    EmptyOrInhabited(s);
    var e :| e in s; e
  }

  /** The sum of the stock quantities of the medicines with keys in `keys`. */
  ghost function SumQuantities(m: map<Id, Medicine>, keys: set<Id>): int
    requires keys <= m.Keys
    decreases keys
  {
    if keys == {} then 0
    else
      var k := Pick(keys);
      m[k].quantity + SumQuantities(m, keys - {k})
  }

  /** The stock figure: every medicine's quantity, added up. */
  ghost function TotalStock(m: map<Id, Medicine>): int
  {
    SumQuantities(m, m.Keys)
  }

  /** The sum does not depend on the order in which the keys are taken. */
  lemma {:induction false} SumQuantitiesRemove(m: map<Id, Medicine>, keys: set<Id>, k: Id)
    requires keys <= m.Keys && k in keys
    ensures SumQuantities(m, keys) == m[k].quantity + SumQuantities(m, keys - {k})
    decreases keys
  {
    var p := Pick(keys);
    if p != k {
      SumQuantitiesRemove(m, keys - {p}, k);
      SumQuantitiesRemove(m, keys - {k}, p);
      assert keys - {p} - {k} == keys - {k} - {p};
    }
  }

  /** The sum reads only the quantities of the medicines it adds up. */
  lemma {:induction false} SumQuantitiesFrame(m1: map<Id, Medicine>, m2: map<Id, Medicine>, keys: set<Id>)
    requires keys <= m1.Keys && keys <= m2.Keys
    requires forall k :: k in keys ==> m1[k].quantity == m2[k].quantity
    ensures SumQuantities(m1, keys) == SumQuantities(m2, keys)
    decreases keys
  {
    if keys != {} {
      var k := Pick(keys);
      SumQuantitiesFrame(m1, m2, keys - {k});
    }
  }

  /** Adding a medicine under a new key adds its quantity to the stock figure. */
  lemma TotalStockInsert(m: map<Id, Medicine>, k: Id, v: Medicine)
    requires k !in m
    ensures TotalStock(m[k := v]) == TotalStock(m) + v.quantity
  {
    var m' := m[k := v];
    SumQuantitiesRemove(m', m'.Keys, k);
    assert m'.Keys - {k} == m.Keys;
    SumQuantitiesFrame(m', m, m.Keys);
  }

  /** `GetOverviewStats`: how many medicines, how much stock, how many users. */
  method GetOverviewStats(db: Db) returns (s: Overview)
    ensures s.medicines == |db.medicines.rows|
    ensures s.stock == TotalStock(db.medicines.rows)
    ensures s.users == |db.users.rows|
  {
    var m := db.medicines.rows;
    var remaining := m.Keys;
    var stock := 0;
    while remaining != {}
      invariant remaining <= m.Keys
      invariant stock + SumQuantities(m, remaining) == TotalStock(m)
      decreases remaining
    {
      EmptyOrInhabited(remaining);
      var k :| k in remaining;
      SumQuantitiesRemove(m, remaining, k);
      stock := stock + m[k].quantity;
      remaining := remaining - {k};
    }
    s := Overview(|m|, stock, |db.users.rows|);
  }

  // ---------------------------------------------------------------------------
  // Customers

  const CustomerRole := "Customer"

  /** `GetUsers`: id and full name of every user whose role is exactly "Customer". */
  function GetUsers(db: Db): (r: map<Id, Option<string>>)
    ensures forall id :: id in r <==> id in db.users.rows && db.users.rows[id].role == CustomerRole
    ensures forall id :: id in r ==> r[id] == db.users.rows[id].fullName
  {
    map id | id in db.users.rows && db.users.rows[id].role == CustomerRole :: db.users.rows[id].fullName
  }

  // ---------------------------------------------------------------------------
  // Orders

  datatype LineView = LineView(medicineName: string, quantity: Int32, price: Money, total: Money)

  /** One group of the sale report; `customerName` is the customer's id. */
  datatype OrderView = OrderView(id: Id, date: Time, customerName: Int32, items: seq<LineView>, totalAmount: Money)

  /** Does detail `d` survive the inner joins for order `orderId`? */
  predicate Joins(d: OrderDetail, orderId: Id, medicines: map<Id, Medicine>)
  {
    d.orderId == orderId && d.medicineId in medicines
  }

  /** The report lines of order `orderId`: its details that name an existing
      medicine, taken in saved order (the query itself fixes no order). */
  function Lines(details: seq<OrderDetail>, orderId: Id, medicines: map<Id, Medicine>): (r: seq<LineView>)
    ensures |r| <= |details|
    ensures forall i :: 0 <= i < |r| ==> r[i].total == r[i].quantity * r[i].price
  {
    if details == [] then []
    else
      var d := details[0];
      var rest := Lines(details[1..], orderId, medicines);
      if Joins(d, orderId, medicines) then
        [LineView(medicines[d.medicineId].name, d.quantity, d.price, d.quantity * d.price)] + rest
      else rest
  }

  function LinesTotal(lines: seq<LineView>): Money
  {
    if lines == [] then 0 else lines[0].total + LinesTotal(lines[1..])
  }

  /** Reference sum: `Quantity * Price` over the details of `orderId` whose
      medicine exists. */
  function JoinedDetailsTotal(details: seq<OrderDetail>, orderId: Id, medicines: map<Id, Medicine>): Money
  {
    if details == [] then 0
    else
      (if Joins(details[0], orderId, medicines) then details[0].quantity * details[0].price else 0)
      + JoinedDetailsTotal(details[1..], orderId, medicines)
  }

  /** `GetOrders`, keyed by order id: one group per order with at least one
      detail that survives the joins. */
  function GetOrders(db: Db): (r: map<Id, OrderView>)
    ensures forall id :: id in r <==>
              id in db.orders.rows && exists i :: 0 <= i < |db.details| && Joins(db.details[i], id, db.medicines.rows)
    ensures forall id :: id in r ==>
              && r[id].id == id
              && r[id].date == db.orders.rows[id].orderDate
              && r[id].customerName == db.orders.rows[id].customerId
              && r[id].items == Lines(db.details, id, db.medicines.rows)
              && r[id].totalAmount == JoinedDetailsTotal(db.details, id, db.medicines.rows)
  {
    var m := db.medicines.rows;
    forall id ensures |Lines(db.details, id, m)| > 0 <==> exists i :: 0 <= i < |db.details| && Joins(db.details[i], id, m) {
      LinesNonEmpty(db.details, id, m);
    }
    forall id ensures LinesTotal(Lines(db.details, id, m)) == JoinedDetailsTotal(db.details, id, m) {
      LinesTotalIsJoinedTotal(db.details, id, m);
    }
    map id | id in db.orders.rows && |Lines(db.details, id, m)| > 0 ::
      var lines := Lines(db.details, id, m);
      var o := db.orders.rows[id];
      OrderView(id, o.orderDate, o.customerId, lines, LinesTotal(lines))
  }

  lemma {:induction false} LinesNonEmpty(details: seq<OrderDetail>, orderId: Id, m: map<Id, Medicine>)
    ensures |Lines(details, orderId, m)| > 0 <==> exists i :: 0 <= i < |details| && Joins(details[i], orderId, m)
  {
    if details != [] {
      LinesNonEmpty(details[1..], orderId, m);
      if exists i :: 0 <= i < |details| && Joins(details[i], orderId, m) {
        var i :| 0 <= i < |details| && Joins(details[i], orderId, m);
        if i > 0 {
          assert Joins(details[1..][i - 1], orderId, m);
        }
      }
      if exists i :: 0 <= i < |details[1..]| && Joins(details[1..][i], orderId, m) {
        var i :| 0 <= i < |details[1..]| && Joins(details[1..][i], orderId, m);
        assert Joins(details[i + 1], orderId, m);
      }
    }
  }

  lemma {:induction false} LinesTotalIsJoinedTotal(details: seq<OrderDetail>, orderId: Id, m: map<Id, Medicine>)
    ensures LinesTotal(Lines(details, orderId, m)) == JoinedDetailsTotal(details, orderId, m)
  {
    if details != [] {
      LinesTotalIsJoinedTotal(details[1..], orderId, m);
    }
  }
}
