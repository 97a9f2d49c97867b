/** The catalog writes of the admin controller: categories, suppliers and
    medicines. Each either answers BadRequest and leaves the store as it was,
    or inserts exactly one row and touches no other table. */
module Catalog {
  import opened Basics
  import opened Store
  import opened Replies
  import opened MedicineDtos

  datatype CategoryDto = CategoryDto(name: Option<string>)

  datatype SupplierDto = SupplierDto(name: Option<string>, contactInfo: Option<string>, address: Option<string>)

  const CategoryNameRequired := "Category name is required."
  const CategoryAdded := "Category added successfully."
  const SupplierNameRequired := "Supplier name is required."
  const SupplierAdded := "Supplier added successfully."
  const InvalidCategoryId := "Invalid CategoryId"
  const InvalidSupplierId := "Invalid SupplierId"
  const MedicineAdded := "Medicine added successfully."

  function AddCategory(db: Db, dto: CategoryDto): (r: Step)
    requires db.Valid()
    ensures r.db.Valid()
    ensures r.reply.BadRequest? <==> (dto.name.None? || forall i :: 0 <= i < |dto.name.value| ==> IsWhiteSpace(dto.name.value[i]))
    ensures r.reply.BadRequest? ==> r.reply.reason == CategoryNameRequired && r.db == db
    ensures !r.reply.BadRequest? ==>
              && r.reply == Ok(CategoryAdded)
              && db.categories.next !in db.categories.rows
              && r.db.categories.rows == db.categories.rows[db.categories.next := Category(dto.name.value)]
              && r.db.(categories := db.categories) == db
  {
    if IsNullOrWhiteSpace(dto.name) then
      Step(BadRequest(CategoryNameRequired), db)
    else
      Step(Ok(CategoryAdded), db.(categories := db.categories.Insert(Category(dto.name.value))))
  }

  function AddSupplier(db: Db, dto: SupplierDto): (r: Step)
    requires db.Valid()
    ensures r.db.Valid()
    ensures r.reply.BadRequest? <==> (dto.name.None? || forall i :: 0 <= i < |dto.name.value| ==> IsWhiteSpace(dto.name.value[i]))
    ensures r.reply.BadRequest? ==> r.reply.reason == SupplierNameRequired && r.db == db
    ensures !r.reply.BadRequest? ==>
              && r.reply == Ok(SupplierAdded)
              && db.suppliers.next !in db.suppliers.rows
              && r.db.suppliers.rows
                 == db.suppliers.rows[db.suppliers.next := Supplier(dto.name.value, dto.contactInfo, dto.address)]
              && r.db.(suppliers := db.suppliers) == db
  {
    if IsNullOrWhiteSpace(dto.name) then
      Step(BadRequest(SupplierNameRequired), db)
    else
      var supplier := Supplier(dto.name.value, dto.contactInfo, dto.address);
      Step(Ok(SupplierAdded), db.(suppliers := db.suppliers.Insert(supplier)))
  }

  /** The row `AddMedicine` stores for a request: the purchase price and the
      rack number keep their defaults. */
  function NewMedicine(dto: MedicineDto): Medicine
    requires dto.name.Some?
  {
    Medicine(dto.name.value, dto.categoryId, dto.supplierId, dto.price, 0,
             dto.quantity, dto.expiryDate, dto.description, None)
  }

  function AddMedicine(db: Db, dto: MedicineDto): (r: Step)
    requires db.Valid()
    ensures r.db.Valid()
    ensures r.reply.Ok? <==>
              IsValid(dto) && dto.categoryId in db.categories.rows && dto.supplierId in db.suppliers.rows
    ensures !IsValid(dto) ==> r.reply == BadRequest(InvalidModel)
    ensures IsValid(dto) && dto.categoryId !in db.categories.rows ==> r.reply == BadRequest(InvalidCategoryId)
    ensures IsValid(dto) && dto.categoryId in db.categories.rows && dto.supplierId !in db.suppliers.rows ==>
              r.reply == BadRequest(InvalidSupplierId)
    ensures !r.reply.Ok? ==> r.db == db
    ensures r.reply.Ok? ==>
              && r.reply.message == MedicineAdded
              && db.medicines.next !in db.medicines.rows
              && r.db.medicines.rows.Keys == db.medicines.rows.Keys + {db.medicines.next}
              && (forall k :: k in db.medicines.rows ==> r.db.medicines.rows[k] == db.medicines.rows[k])
              && r.db.(medicines := db.medicines) == db
    ensures r.reply.Ok? ==>
              var m := r.db.medicines.rows[db.medicines.next];
              && 0 < |m.name| && Utf16Length(m.name) <= 150 && Some(m.name) == dto.name
              && m.categoryId == dto.categoryId && m.supplierId == dto.supplierId
              && 1 <= m.price == dto.price && 0 <= m.quantity == dto.quantity
              && m.expiryDate == dto.expiryDate && m.description == dto.description
              && m.purchasePrice == 0 && m.rackNumber.None?
              && (m.description.Some? ==> Utf16Length(m.description.value) <= 255)
  {
    if !IsValid(dto) then
      Step(BadRequest(InvalidModel), db)
    else if dto.categoryId !in db.categories.rows then
      Step(BadRequest(InvalidCategoryId), db)
    else if dto.supplierId !in db.suppliers.rows then
      Step(BadRequest(InvalidSupplierId), db)
    else
      Step(Ok(MedicineAdded), db.(medicines := db.medicines.Insert(NewMedicine(dto))))
  }
}
