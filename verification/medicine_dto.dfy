/** The data annotations of the medicine request body, as ASP.NET Core model
    validation checks them before `AddMedicine` runs. */
module MedicineDtos {
  import opened Basics

  datatype MedicineDto = MedicineDto(
    name: Option<string>,
    categoryId: Int32,
    supplierId: Int32,
    price: Money,
    quantity: Int32,
    expiryDate: Option<Time>,
    description: Option<string>)

  /** The annotated properties; `[Required]` on the value-typed ids can never
      fail, so they never appear in the errors. */
  datatype Field = Name | Price | Quantity | Description

  const NameMaxLength: nat := 150
  const DescriptionMaxLength: nat := 255
  /** `[Range(0.01, double.MaxValue)]`, in cents. */
  const MinPrice: Money := 1

  /** The properties whose annotations reject `d`: the model-state errors. */
  function Errors(d: MedicineDto): (errs: set<Field>)
    ensures Name !in errs <==>
              d.name.Some? && Utf16Length(d.name.value) <= 150
              && exists i :: 0 <= i < |d.name.value| && !IsWhiteSpace(d.name.value[i])
    ensures Price !in errs <==> d.price >= 1
    ensures Quantity !in errs <==> d.quantity >= 0
    ensures Description !in errs <==> (d.description.Some? ==> Utf16Length(d.description.value) <= 255)
  {
    (if RequiredString(d.name) && WithinMaxLength(d.name, NameMaxLength) then {} else {Name})
    + (if d.price >= MinPrice then {} else {Price})
    + (if d.quantity >= 0 then {} else {Quantity})
    + (if WithinMaxLength(d.description, DescriptionMaxLength) then {} else {Description})
  }

  /** The length bound counts UTF-16 code units: a name of more than 75
      characters all outside the Basic Multilingual Plane is too long. */
  lemma LongAstralNameRejected(d: MedicineDto)
    requires d.name.Some? && |d.name.value| > 75
    requires forall i :: 0 <= i < |d.name.value| ==> d.name.value[i] as int >= 0x1_0000
    ensures Name in Errors(d)
  {
    Utf16LengthAstral(d.name.value);
  }

  /** `ModelState.IsValid`. */
  predicate IsValid(d: MedicineDto)
  {
    Errors(d) == {}
  }

  /** The expiry date and the description are optional: leaving both out
      removes the description's error, if any, and changes nothing else. */
  lemma OptionalFieldsMayBeOmitted(d: MedicineDto)
    ensures Errors(d.(expiryDate := None, description := None)) == Errors(d) - {Description}
  {
  }
}
