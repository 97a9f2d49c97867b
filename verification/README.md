# Pharmacy web app: a Dafny model of its core

This project models the core of a small pharmacy web application. The back end
is an ASP.NET Core API and the front end is a Next.js client. The model covers
four areas.

- **Admin controller.** Catalog writes: categories, suppliers, and medicines
  with their request validation. Sale creation: an order header, one detail per
  item, and a stock decrement per existing medicine. Three read projections:
  the overview counts, the customer list and the per-order sale report.
- **Auth controller.** Registration, login, and the claims a login puts into
  its token.
- **Protected controller.** The role gate in front of its three endpoints.
- **The pharmacist's two client-side forms.** The sale row editor and the
  daily-expense row editor, with their running totals, submit guards and
  post-submit resets.

## How the model is built

- **The store.** The relational store is one `Table` per entity. A table is a
  map from identity key to row, plus the next key its identity column will hand
  out.
- **Order details** are a sequence, in the order they were saved.
- **Operations** are pure functions from a store and a request to a `Step`.
  A `Step` holds the reply kind with its message, and the store left behind.
- **Store invariant.** `Db.Valid` holds that:
  - identity keys lie below `next`;
  - usernames are unique;
  - medicines point at existing categories and suppliers;
  - every detail belongs to a saved order.

  Every write preserves it.
- **Money** is an integer number of cents. The price and total columns are
  `decimal(10,2)`, and the client only multiplies and adds them.
- **C# `int` fields** have the type `Int32`. The unchecked `medicine.Quantity -=
  item.Quantity` is written out as 32-bit wrap-around (`Wrap32`).
- **Password hashing** is a `Hasher` record: a salted `hash` and a `verify`. Its
  one promise, `Sound`, says a password verifies against every hash of itself.
  Lemmas that need the promise take it as a precondition.
- **A token** is its claims record: claims, issuer, audience and expiry.
- **Parameters.** The issue time, the fresh `jti`, the BCrypt salt, the
  browser's `Number` conversion and the outcome of the HTTP post are all
  parameters.
- **`[Required]` on a string** follows the data-annotations default, which
  disallows empty strings. A null, empty or all-white-space value fails it,
  using .NET's own white-space set.

- **`[MaxLength(n)]`** compares .NET's `string.Length`, which counts UTF-16
  code units, so the model measures strings with `Utf16Length`: a character
  outside the Basic Multilingual Plane counts twice.
- **Validation order.** The admin controller is an `[ApiController]`, so a body
  that breaks a data annotation is answered with the automatic validation
  BadRequest before the action runs. Only what passes reaches the action's own
  guards.

Two behaviours of the code are worth stating plainly.

- A duplicate username is answered with BadRequest ("Username already
  exists.").
- Stock has no floor, so a sale larger than the stock drives the quantity
  negative (`Sales.StockCanGoNegative`).

## Model

| member | source | states |
|---|---|---|
| Basics.Wrap32 | WebAPI/Controllers/AdminController.cs:141 | the unchecked `-=` yields the one 32-bit value congruent to the exact result, and the exact result whenever that is in range |
| Basics.IsNullOrWhiteSpace | WebAPI/Controllers/AdminController.cs:29 | .NET `string.IsNullOrWhiteSpace`: null, or every character in .NET's white-space set (so also the empty string) |
| Basics.Utf16LengthBounds | WebAPI/Dtos/MedicinesDto.cs:9 | `string.Length` counts between one and two code units per character, and exactly one per character inside the Basic Multilingual Plane |
| Basics.Utf16LengthAstral | WebAPI/Dtos/MedicinesDto.cs:9 | a string of characters outside the Basic Multilingual Plane has two code units per character |
| Basics.WrapThenSubtract | WebAPI/Controllers/AdminController.cs:138-142 | wrapping after every decrement equals wrapping the accumulated decrement once |
| MedicineDtos.Errors | WebAPI/Dtos/MedicinesDto.cs:8-29 | Name passes exactly when present, at most 150 UTF-16 code units long and not blank; Price exactly when at least 0.01; Quantity exactly when at least 0; Description exactly when absent or at most 255 code units |
| MedicineDtos.IsValid | WebAPI/Controllers/AdminController.cs:71 | `ModelState.IsValid`: no annotated property of the body reports an error |
| MedicineDtos.LongAstralNameRejected | WebAPI/Dtos/MedicinesDto.cs:9 | a name of more than 75 characters all outside the Basic Multilingual Plane breaks the 150-unit bound |
| MedicineDtos.OptionalFieldsMayBeOmitted | WebAPI/Dtos/MedicinesDto.cs:26-29 | dropping the expiry date and the description removes only the description's error |
| Catalog.AddCategory | WebAPI/Controllers/AdminController.cs:29-42 | BadRequest exactly when the name is null, empty or white space, and then nothing changes; otherwise one category with that name is added under a fresh key and no other table changes |
| Catalog.AddSupplier | WebAPI/Controllers/AdminController.cs:49-64 | same shape as categories: a blank name inserts nothing; otherwise one supplier with the given name, contact and address is added under a fresh key and nothing else changes |
| Catalog.AddMedicine | WebAPI/Controllers/AdminController.cs:69-101 | Ok exactly when the body is valid and both referenced rows exist; an invalid body is reported first, then an unknown category, then an unknown supplier; a refusal changes nothing; success adds one medicine copying the request, with valid name, price, quantity and description, purchase price 0 and no rack number |
| Store.Table.Insert | WebAPI/Controllers/AdminController.cs:39-40 | an identity insert puts the row under the next key, which no row used, keeps every other row and grows the table by one |
| Sales.ItemsTotal | WebAPI/Controllers/AdminController.cs:110 | the order total: the sum of price times quantity over the items as submitted, with the caller's prices |
| Sales.ItemsTotalSign | WebAPI/Controllers/AdminController.cs:110 | the order total is not negative when no price or quantity is, and zero when every quantity is |
| Sales.SaleModelValid | WebAPI/Dtos/OrderCreateDto.cs:7-17 | model validation of the sale body: Status present, not blank and at most 50 code units, Items present |
| Sales.SaleRequestValid | WebAPI/Controllers/AdminController.cs:106 | model validation passed and the item list is not empty |
| Sales.DecrementStock | WebAPI/Controllers/AdminController.cs:138-142 | an existing medicine loses the item's quantity, with 32-bit wrap-around; a dangling id changes nothing; no other medicine changes |
| Sales.StockStep | WebAPI/Controllers/AdminController.cs:138-142 | one decrement followed by the rest of the items gives the accumulated decrement for every medicine |
| Sales.PostItems | WebAPI/Controllers/AdminController.cs:125-143 | the item loop appends one detail per item, in order, carrying the order id and the item's fields, and takes each medicine's total named quantity off its stock |
| Sales.CreateSale | WebAPI/Controllers/AdminController.cs:103-148 | BadRequest exactly when the body fails model validation or the item list is empty, and then nothing changes; a body failing validation gets the automatic validation answer and only an empty list gets "Invalid sale data."; otherwise one header under a fresh id with the caller-priced total, one detail per item, the stock decremented, and users, categories and suppliers unchanged |
| Sales.QuantityForUnnamed | WebAPI/Controllers/AdminController.cs:138-142 | items that do not name a medicine decrement it by nothing |
| Sales.UnnamedMedicineUnchanged | WebAPI/Controllers/AdminController.cs:138-142 | a medicine no item names is left exactly as it was |
| Sales.DanglingItemsTouchNoStock | WebAPI/Controllers/AdminController.cs:125-142 | items naming no existing medicine still produce a saved sale and their details, with no error and no stock change |
| Sales.StockCanGoNegative | WebAPI/Controllers/AdminController.cs:138-142 | selling two units of a medicine with one in stock succeeds and leaves minus one |
| Sales.RepeatedItemsAccumulate | WebAPI/Controllers/AdminController.cs:138-142 | two items naming the same medicine both come off its stock |
| Reports.SumQuantitiesRemove | WebAPI/Controllers/AdminController.cs:154 | the stock sum does not depend on the order the medicines are taken in |
| Reports.SumQuantitiesFrame | WebAPI/Controllers/AdminController.cs:154 | the stock sum reads only the quantities it adds |
| Reports.TotalStockInsert | WebAPI/Controllers/AdminController.cs:154 | a medicine under a new key adds its quantity to the stock figure |
| Reports.GetOverviewStats | WebAPI/Controllers/AdminController.cs:153-161 | the overview reports the number of medicines, the sum of all medicine quantities and the number of users |
| Reports.GetUsers | WebAPI/Controllers/AdminController.cs:224-236 | exactly the users whose role is "Customer", each with their full name |
| Reports.Lines | WebAPI/Controllers/AdminController.cs:258-264 | every report line's total is its quantity times its price |
| Reports.LinesNonEmpty | WebAPI/Controllers/AdminController.cs:242-252 | an order has report lines exactly when one of its details names an existing medicine |
| Reports.LinesTotalIsJoinedTotal | WebAPI/Controllers/AdminController.cs:258-265 | the group total equals the sum of quantity times price over the order's joined details |
| Reports.GetOrders | WebAPI/Controllers/AdminController.cs:242-267 | one group per saved order with at least one joined detail, carrying the order's id, date and customer id, its lines, and the sum of quantity times price over those details |
| Auth.GenerateToken | WebAPI/Controllers/AuthController.cs:87-103 | four claims: subject and name equal the username, role the stored role, jti the fresh id; every role claim carries the stored role; expiry is one hour after issue; issuer and audience from the settings |
| Auth.Register | WebAPI/Controllers/AuthController.cs:59-75 | BadRequest exactly when the username is taken, and then nothing changes; otherwise one user is added under a fresh key with the username, role and salted hash of the password, no full name, e-mail or phone, active, and stamped with the request time; usernames stay unique, and no other table changes |
| Auth.Login | WebAPI/Controllers/AuthController.cs:27-52 | a server error exactly when two users share the name; an unknown name is refused as invalid credentials; a token is issued only for a matching user whose stored hash verifies the password; for a single match, a token exactly when it verifies |
| Auth.ClaimTypesDistinct | WebAPI/Controllers/AuthController.cs:89-95 | the four claim types the login writes are pairwise different strings, so each claim kind names exactly one claim type |
| Auth.LookupByTypeIsLookupByKind | WebAPI/Controllers/AuthController.cs:89-95 | looking a claim up by the type string written into the token finds the same value as looking it up by kind, for every claim list |
| Auth.IssuedTokenByType | WebAPI/Controllers/AuthController.cs:87-103 | a reader of an issued token finds, under the role claim type, the stored role, and under the name and subject types, the username, and under jti the fresh id |
| Auth.LoginClaimsLookup | WebAPI/Controllers/AuthController.cs:89-95 | in the login claim list, the subject and name claims carry the username, the role claim the role and the jti claim the fresh id |
| AuthProperties.LoginNeverFailsOnValidStore | WebAPI/Controllers/AuthController.cs:32 | with unique usernames the single-row lookup never throws |
| AuthProperties.UnknownUserLooksLikeWrongPassword | WebAPI/Controllers/AuthController.cs:36-40 | an unknown username and a wrong password get the same Unauthorized answer |
| AuthProperties.RegisterThenLogin | WebAPI/Controllers/AuthController.cs:36-44 | after a successful registration, logging in with the same name and password yields a token whose subject, name and role are the registered ones and whose expiry is an hour after the login |
| Protected.Authorize | WebAPI/Controllers/ProtectedController.cs:6-20 | an anonymous caller is challenged on every endpoint; `Get` admits every authenticated caller; `admin-data` exactly the "Admin" role; `manager-data` exactly "Manager" or "Admin"; a refusal of an authenticated caller is a 403 and happens only on the gated endpoints |
| Protected.IsInRole | WebAPI/Controllers/ProtectedController.cs:13-20 | the role check behind `[Authorize(Roles = …)]`: an authenticated caller with a role claim carrying exactly that role |
| Protected.AccessIsNested | WebAPI/Controllers/ProtectedController.cs:13-20 | whoever reaches `admin-data` reaches `manager-data`, and whoever reaches that reaches `Get` |
| Protected.TokenRoleDecidesAccess | WebAPI/Controllers/ProtectedController.cs:6-20 | for a login token, `Get` is always allowed, `admin-data` exactly for role "Admin", `manager-data` exactly for "Manager" or "Admin", and any other role is forbidden the gated endpoints |
| Rows.RemoveAt | front-end/app/pharmacist/sale/page.tsx:135-139 | `splice(index, 1)` removes exactly the row at the start position and keeps the others in order; a start past the end removes nothing |
| Rows.RemoveAtIsOneRowLess | front-end/app/pharmacist/expense/page.tsx:42-46 | removing a row removes that row and nothing else (as a multiset) |
| SaleEditor.AddRow | front-end/app/pharmacist/sale/page.tsx:75-77 | appends the row {medicine 0, quantity 1, price 0, total 0}, keeps every other row, and keeps the total invariant |
| SaleEditor.FindMedicine | front-end/app/pharmacist/sale/page.tsx:86 | the first stock entry with the id; none exactly when no entry has it |
| SaleEditor.Change | front-end/app/pharmacist/sale/page.tsx:79-101 | only the edited row changes and the length is kept; a known medicine sets its id and price and total = price times the current quantity; an unknown one changes nothing; a quantity sets quantity and total = price times the value; other fields change nothing; the invariant is kept |
| SaleEditor.RemoveRow | front-end/app/pharmacist/sale/page.tsx:135-139 | deletes exactly the indexed row, keeps the others in order, and keeps the invariant |
| SaleEditor.GrandTotal | front-end/app/pharmacist/sale/page.tsx:220 | `grandTotal`: the line totals added up |
| SaleEditor.GrandTotalSign | front-end/app/pharmacist/sale/page.tsx:220 | the grand total is not negative when no line total is, and zero when every line total is |
| SaleEditor.GrandTotalUpdate | front-end/app/pharmacist/sale/page.tsx:220 | replacing a row moves the grand total by the difference of the two line totals |
| SaleEditor.AddRowKeepsTotal | front-end/app/pharmacist/sale/page.tsx:75-77 | a new row adds nothing to the grand total |
| SaleEditor.ChangeMovesTotal | front-end/app/pharmacist/sale/page.tsx:79-101 | every change moves the grand total by exactly the change of the edited line |
| SaleEditor.RemoveRowTakesOffItsTotal | front-end/app/pharmacist/sale/page.tsx:135-139 | removing a row takes exactly its line total off the grand total |
| SaleEditor.GrandTotalIsPriceTimesQuantity | front-end/app/pharmacist/sale/page.tsx:220 | while the invariant holds, the grand total is the sum of price times quantity |
| SaleEditor.InitialForm | front-end/app/pharmacist/sale/page.tsx:35-38 | the form starts with no customer and no rows, so the invariant holds initially |
| SaleEditor.PayloadItems | front-end/app/pharmacist/sale/page.tsx:111-115 | the posted items are the rows, in order, with medicine, quantity and price and without the total |
| SaleEditor.SubmitRequest | front-end/app/pharmacist/sale/page.tsx:103-121 | nothing is sent exactly when no customer is picked (unset or 0); otherwise the customer, the invoice number and one item per row go out |
| SaleEditor.AfterSubmit | front-end/app/pharmacist/sale/page.tsx:123-132 | a refused or failed submit changes nothing; a successful one clears the rows and the customer and stamps a new invoice number |
| ExpenseEditor.AddRow | front-end/app/pharmacist/expense/page.tsx:24-26 | appends {title "", amount 0, notes ""} and keeps the other rows |
| ExpenseEditor.Change | front-end/app/pharmacist/expense/page.tsx:28-40 | sets only the chosen field of the chosen row: the amount as the number conversion of the input, title and notes as the text; every other row is unchanged |
| ExpenseEditor.RemoveRow | front-end/app/pharmacist/expense/page.tsx:42-46 | deletes exactly the indexed row and keeps the others in order |
| ExpenseEditor.TotalAmount | front-end/app/pharmacist/expense/page.tsx:67 | `totalAmount`: the amounts added up |
| ExpenseEditor.TotalAmountSign | front-end/app/pharmacist/expense/page.tsx:67 | the total is not negative when no amount is, and zero when every amount is |
| ExpenseEditor.TotalAmountUpdate | front-end/app/pharmacist/expense/page.tsx:67 | replacing a row moves the total by the difference of the two amounts |
| ExpenseEditor.AddRowKeepsTotal | front-end/app/pharmacist/expense/page.tsx:24-26 | a new row adds nothing to the total |
| ExpenseEditor.ChangeMovesTotal | front-end/app/pharmacist/expense/page.tsx:28-40 | editing a title or notes keeps the total; editing an amount moves it by the difference |
| ExpenseEditor.RemoveRowTakesOffItsAmount | front-end/app/pharmacist/expense/page.tsx:42-46 | removing a row takes exactly its amount off the total |
| ExpenseEditor.SubmitRequest | front-end/app/pharmacist/expense/page.tsx:48-58 | refused exactly when the date is empty or there are no rows; otherwise the date and the rows go out unchanged |
| ExpenseEditor.AfterSubmit | front-end/app/pharmacist/expense/page.tsx:54-64 | only a successful post changes the form: the rows become empty, the date is kept and the total drops to zero |
| Flows.BindSale | WebAPI/Dtos/OrderCreateDto.cs:5-18 | the posted sale binds with status "Pending", the request time as order date and one item per posted row; a number outside the `int` range fails binding |
| Flows.ItemsTotalOfRows | WebAPI/Controllers/AdminController.cs:110 | the server's total over items copying the rows equals the rows' price-times-quantity sum |
| Flows.FormTotalIsStoredTotal | WebAPI/Controllers/AdminController.cs:106-121 | a form with a customer and consistent rows is saved as a pending order whose amount is the grand total the form showed |
| Flows.EmptyFormRejectedByServer | WebAPI/Controllers/AdminController.cs:106-107 | the form posts a sale without rows, and the server refuses it and stores nothing |
| Flows.FreshDetailsTotal | WebAPI/Controllers/AdminController.cs:265 | the details a sale appends, when all name existing medicines, sum to the sale's item total |
| Flows.SaleExtendsDetails | WebAPI/Controllers/AdminController.cs:125-142 | a successful sale appends exactly its details at the end and keeps every medicine's key and name |
| Flows.AppendMakesGroup | WebAPI/Controllers/AdminController.cs:242-267 | details appended for a new order, all naming existing medicines, form a report group with one line per item whose total is the item total |
| Flows.SaleAppearsInReport | WebAPI/Controllers/AdminController.cs:242-267 | a sale whose items all name existing medicines appears in the report with one line per item and the total it was stored with |
| Flows.AppendKeepsGroup | WebAPI/Controllers/AdminController.cs:242-267 | appending other orders' details leaves an order's report group unchanged |
| Flows.ReportedOrderUnchanged | WebAPI/Controllers/AdminController.cs:242-267 | every order already in the report keeps its group after any sale |
| Flows.RegisterAndCustomers | WebAPI/Controllers/AdminController.cs:228 | registering with role "Customer" adds the user, without a full name, to the customer list; any other outcome leaves the list unchanged |
| Flows.AddMedicineGrowsOverview | WebAPI/Controllers/AdminController.cs:153-154 | an added medicine raises the medicine count by one and the stock figure by its quantity; a refused one changes neither |

## Left out

- **Database behaviour.** Entity Framework's change tracking, `SaveChanges`
  failures and the database's own foreign-key checks are left out. A sale
  naming a medicine that does not exist is modelled as the controller sees it:
  the detail is recorded and the stock is skipped. Whether the final save then
  fails depends on the database.
- **The two saves of a sale** are one state transition. There is no
  transaction and no partial failure.
- **Concurrency** is left out; requests run one after another. The lost
  update on stock is therefore not modelled.
- **JWT encoding, HMAC-SHA256 signing and token validation** are left out.
  The token is its claims record, and the middleware's check of signature,
  lifetime, issuer and audience is left out too.
- **Protected.Authorize** takes the caller as already authenticated or not.
- **BCrypt** stays an abstract hasher. Its salt and its soundness are
  parameters.
- **Auth.Register** does not model the server error its catch-all returns when
  the save fails. An example is the database rejecting the user row, whose
  full name, e-mail and phone are left null.
- **Auth.Login** does not model the logging or the catch-all for faults other
  than the duplicate-row exception.
- **Reports.GetOverviewStats** sums the stock as an unbounded integer. The
  database's 32-bit `SUM` overflow is not modelled.
- **Reports.GetOrders** returns a map keyed by order id. The order of the
  groups in the response list, and the date's text format, are not modelled.
  The query has no `orderby`, so the order of the lines inside a group is
  whatever the database returns. The model takes them in saved order, and
  `Flows.AppendKeepsGroup` and `Flows.ReportedOrderUnchanged` compare groups
  in that order.
- **Reports.GetUsers** returns a map keyed by user id. The order of the
  response list, which the query leaves to the database, is not modelled.
- **Sales.CreateSale** computes the total as an unbounded integer of cents.
  Overflow of `decimal` and the rounding of the `decimal(10,2)` column are not
  modelled.
- **Sales.CreateSale** cannot express a null element of `Items`. `[Required]`
  covers only the list itself, so a body like `"items": [null]` passes
  validation and the empty-list guard. Summing the total then throws a null
  reference, the caller gets a 500, and nothing is stored.
- **Catalog.AddCategory** and **Catalog.AddSupplier** read request types that
  are not part of this model. The model takes their `Name` to be a nullable
  string without annotations, so a missing or blank name reaches the action's
  own check and gets its message. If nullable reference types gave `Name` an
  implicit `[Required]`, the automatic validation answer would come first
  instead.
- **SQL string comparison** is exact. The database collation may compare
  usernames and role names case-insensitively.
- **Identity keys** grow without bound, and detail ids are not modelled.
- **SaleEditor.Change** and **ExpenseEditor.Change** require the index of a
  rendered row. The form only calls them that way. Out of range, the
  JavaScript throws a `TypeError` on the missing row, and that is not
  modelled.
- **Unpaired surrogates.** A Dafny `string` holds Unicode scalar values, so
  a .NET string with a lone surrogate code unit cannot be written down.
- **Parsing of form input.** `parseInt` results are integers and the
  `Number` conversion is a parameter. NaN and fractional amounts are not
  modelled.
- **The rest of the page UI** is left out: rendering, toasts, navigation, the
  printable report, invoice-number formatting and the data loading on mount.
  The stock list and the customer choice are inputs.
- **The expense endpoint** the expense form posts to is not part of this
  model. Only the form side is modelled.
- **Other admin endpoints.** `GetCategories`, `GetSuppliers`,
  `GetAllMedicines`, `GetInventory` and `Ping` are plain projections or a
  constant answer, so they are left out. The admin controller has no
  authorization attribute except on `Ping`, so the model puts no role check in
  front of its operations.
