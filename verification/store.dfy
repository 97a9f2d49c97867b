/** The in-memory picture of the relational store: one identity-keyed table per
    entity, and the order details in the order they were saved. */
module Store {
  import opened Basics

  /** Primary keys handed out by identity columns. */
  type Id = int

  /** A set of keys that is not empty has an element. */
  lemma EmptyOrInhabited(s: set<Id>)
    ensures s == {} || exists e :: e in s
  {
    if forall e :: e !in s {
      assert s == {};
    }
  }

  /** A table with an identity column: `next` is the key the next insert
      receives, and every key already used lies below it. */
  datatype Table<T> = Table(rows: map<Id, T>, next: Id) {

    predicate Valid()
    {
      1 <= next && forall k :: k in rows ==> 1 <= k < next
    }

    /** Inserts `v` under a key no row uses yet (that key is `next`). */
    function Insert(v: T): (r: Table<T>)
      requires Valid()
      ensures r.Valid()
      ensures next !in rows && next in r.rows && r.rows[next] == v
      ensures r.rows.Keys == rows.Keys + {next}
      ensures |r.rows| == |rows| + 1
      ensures forall k :: k in rows ==> r.rows[k] == rows[k]
    {
      Table(rows[next := v], next + 1)
    }
  }

  function EmptyTable<T>(): (t: Table<T>)
    ensures t.Valid() && |t.rows| == 0
  {
    Table(map[], 1)
  }

  datatype Category = Category(name: string)

  datatype Supplier = Supplier(name: string, contactInfo: Option<string>, address: Option<string>)

  datatype Medicine = Medicine(
    name: string,
    categoryId: Int32,
    supplierId: Int32,
    price: Money,
    purchasePrice: Money,
    quantity: Int32,
    expiryDate: Option<Time>,
    description: Option<string>,
    rackNumber: Option<string>)

  /** An order header; `customerId` is a bare number, not checked against the users. */
  datatype Order = Order(customerId: Int32, orderDate: Time, status: string, totalAmount: Money)

  /** One line of an order, with the unit price copied at sale time. */
  datatype OrderDetail = OrderDetail(orderId: Id, medicineId: Int32, quantity: Int32, price: Money)

  datatype User = User(
    fullName: Option<string>,
    username: string,
    passwordHash: string,
    email: Option<string>,
    phone: Option<string>,
    role: string,
    isActive: bool,
    createdAt: Time)

  /** No two users share a username. */
  predicate UniqueUsernames(users: map<Id, User>)
  {
    forall a, b :: a in users && b in users && users[a].username == users[b].username ==> a == b
  }

  datatype Db = Db(
    users: Table<User>,
    categories: Table<Category>,
    suppliers: Table<Supplier>,
    medicines: Table<Medicine>,
    orders: Table<Order>,
    details: seq<OrderDetail>)
  {
    /** What every operation of the model keeps: identity columns behave,
        usernames are unique, medicines point at existing categories and
        suppliers, and every detail belongs to a saved order. */
    predicate Valid()
    {
      && users.Valid() && categories.Valid() && suppliers.Valid()
      && medicines.Valid() && orders.Valid()
      && UniqueUsernames(users.rows)
      && (forall k :: k in medicines.rows ==>
            medicines.rows[k].categoryId in categories.rows
            && medicines.rows[k].supplierId in suppliers.rows)
      && (forall i :: 0 <= i < |details| ==> details[i].orderId in orders.rows)
    }
  }
}

/** What a controller action answers, and the store it leaves behind. */
module Replies {
  import opened Store

  datatype Reply =
    | Ok(message: string)
    | OkWithId(message: string, id: Id)
    | BadRequest(reason: string)

  datatype Step = Step(reply: Reply, db: Db)

  /** The answer automatic model validation gives, before the action body
      runs, to a body that breaks a data annotation. */
  const InvalidModel := "One or more validation errors occurred."

}
