# Inventory management: entities, store rules and first-run seeder

A Dafny model of the data layer of a small inventory and invoicing web
application (ASP.NET Core with Entity Framework Core over SQLite). It covers
three parts:

- **The four entities and their derived fields.** These are `User` with
  `FullName`, `Product` with `IsLowStock` and `ProfitMargin`, `Invoice` with
  `IsOverdue` and `ItemCount`, and `InvoiceItem` with `LineTotal` and
  `TotalDiscount`. The four enumerations and their integer codes are
  included too.
- **The relational rules of the database context (`DbContext`).** The
  unique indexes cover username, email, SKU and invoice number. Every
  required foreign key must point at an existing row. Deleting a user who
  created an invoice is blocked (restrict), and so is deleting a product an
  invoice item sells. Deleting an invoice also deletes its items (cascade).
  `SaveChanges` first runs the `UpdateTimestamps` hook, then commits the
  change set as one transaction. The store is a value with one map per
  table and a next-key counter per table. `Valid` is the invariant that
  every successful operation keeps.
- **The first-run seeder (`Seeder`, `SeedRows`).** It seeds users, then
  products, then invoices with their items. Each step is skipped when its
  table already has rows. The `First` lookups for the Admin and Manager
  creators, the invoice numbers and the product SKUs fail when nothing
  matches. The seed rows are the ones the code writes: four users, eleven
  products, four invoices and six invoice items.

Modelling choices:

- **Money** is a whole number of cents (`decimal(18,2)`).
- **Time** is a count of 100-nanosecond ticks. The clock is a `now`
  parameter.
- **Passwords:** the password hash function is a parameter `hash`.
- **Failures** are values, not exceptions. A store operation returns
  `Result<Store, DbError>`, whose error is `ConstraintViolation`,
  `ReferentialBlock` or `NotFound`. A seeding run returns the store it
  leaves behind and an optional failure: `NoMatchingElement` for a failed
  `First`, `StoreError` for a failed save.

Two facts about the code shape the store's rules:

- **Required and bounded-length fields.** `IsRequired` only means NOT NULL,
  and SQLite does not enforce `HasMaxLength`. So the store accepts empty
  strings and strings longer than the configured length. The length limits
  are kept as `WithinLengths` predicates only.
- **Invoices with no items.** Nothing in the code requires an invoice to own
  an item, and the seeded draft invoice `INV-2025-004` has none. The store
  allows an invoice with no items.

The seed data is not self-consistent in one place, and the model states
this rather than hiding it (`SeedRows.FreshSubtotals`). Invoice 001's
subtotal and discount match its items. The subtotals of invoices 002 and
003 (399.96 and 159.98) do not match their items' gross amounts (599.85
and 149.97). The subtotals are seeded figures; nothing computes them.

## Model

| member | source | states |
|---|---|---|
| Scalars.AddDays | InventoryManagement.Data/Seeders/DbSeeder.cs:298-299 | moving a time by a positive, negative or zero number of days moves it later, earlier, or not at all |
| Enums.CategoryCode | InventoryManagement.Data/Enums/ProductCategory.cs:3-13 | every category's stored code lies in 0..7 |
| Enums.CategoryOfCode | InventoryManagement.Data/Enums/ProductCategory.cs:3-13 | a stored integer names a category exactly when it lies in 0..7 |
| Enums.CategoryCodeRoundTrip | InventoryManagement.Data/Enums/ProductCategory.cs:3-13 | encoding then decoding a category gives it back, and decoding then encoding a valid code gives the code back |
| Enums.UnitCode | InventoryManagement.Data/Enums/ProductUnit.cs:3-13 | every unit's stored code lies in 1..8 |
| Enums.UnitOfCode | InventoryManagement.Data/Enums/ProductUnit.cs:3-13 | a stored integer names a unit exactly when it lies in 1..8 |
| Enums.UnitCodeRoundTrip | InventoryManagement.Data/Enums/ProductUnit.cs:3-13 | unit codes round-trip both ways |
| Enums.StatusCode | InventoryManagement.Data/Enums/InvoiceStatus.cs:3-11 | every invoice status's stored code lies in 1..6 |
| Enums.StatusOfCode | InventoryManagement.Data/Enums/InvoiceStatus.cs:3-11 | a stored integer names a status exactly when it lies in 1..6 |
| Enums.StatusCodeRoundTrip | InventoryManagement.Data/Enums/InvoiceStatus.cs:3-11 | status codes round-trip both ways |
| Enums.RoleCode | InventoryManagement.Data/Enums/UserRoles.cs:3-9 | every role's stored code lies in 1..4 |
| Enums.RoleOfCode | InventoryManagement.Data/Enums/UserRoles.cs:3-9 | a stored integer names a role exactly when it lies in 1..4 |
| Enums.RoleCodeRoundTrip | InventoryManagement.Data/Enums/UserRoles.cs:3-9 | role codes round-trip both ways |
| Text.LeadingWhiteSpace | InventoryManagement.Data/Entities/User.cs:43 | the count it returns is the longest white-space prefix: all of it is white space and the next character is not |
| Text.TrailingWhiteSpace | InventoryManagement.Data/Entities/User.cs:43 | the count it returns is the longest white-space suffix |
| Text.Trim | InventoryManagement.Data/Entities/User.cs:43 | the trimmed string is no longer than the input and neither starts nor ends with white space |
| Text.TrimUnique | InventoryManagement.Data/Entities/User.cs:43 | any split of a string into white space, a core with no outer white space, and white space has that core as its trim |
| Text.TrimSplits | InventoryManagement.Data/Entities/User.cs:43 | every string is its trim wrapped in white space on both sides |
| Text.TrimIdempotent | InventoryManagement.Data/Entities/User.cs:43 | trimming twice is trimming once |
| Users.NewUser | InventoryManagement.Data/Entities/User.cs:14-37 | a user built from the property initialisers alone is an active plain User created at the clock reading, whose full name is empty |
| Users.NewUserDefaults | InventoryManagement.Data/Entities/User.cs:31-37 | a new user has role User, is active, has no update time and was created at the clock reading |
| Users.FullName | InventoryManagement.Data/Entities/User.cs:43 | the full name has no outer white space and is at most first name, one space and last name long |
| Users.FullNameShapes | InventoryManagement.Data/Entities/User.cs:43 | with trimmed parts, the full name is empty, the one non-empty part, or both parts joined by one space |
| Products.NewProduct | InventoryManagement.Data/Entities/Products.cs:14-49 | a product built from the property initialisers alone is active, created at the clock reading, low on stock and has margin 0 |
| Products.IsLowStock | InventoryManagement.Data/Entities/Products.cs:55 | an empty shelf is low on stock at any minimum of 0 or more, and a negative minimum never flags a product that has stock |
| Products.NewProductDefaults | InventoryManagement.Data/Entities/Products.cs:34-49 | a new product has minimum stock 0, category Other, unit Piece, is active and has no update time |
| Products.ProfitMargin | InventoryManagement.Data/Entities/Products.cs:58 | the margin is 0 for a price at or below zero; otherwise margin times price equals 100 times price less cost |
| Products.LowStockAtDefaultMinimum | InventoryManagement.Data/Entities/Products.cs:34 | at the default minimum of 0, a product is low on stock exactly when it has none or less |
| Products.LowStockDownwardClosed | InventoryManagement.Data/Entities/Products.cs:55 | a low-stock product stays low when its stock falls further |
| Products.ProfitMarginBounds | InventoryManagement.Data/Entities/Products.cs:58 | a positive price gives margin 0 at cost equal to price and 100 at zero cost, and stays within 0..100 when cost lies in 0..price |
| Products.PercentBounds | InventoryManagement.Data/Entities/Products.cs:58 | a percentage m with m times price equal to 100 times (price less cost) lies in 0..100 when cost lies in 0..price |
| Products.CostFromMargin | InventoryManagement.Data/Entities/Products.cs:58 | for a positive price the cost is recovered from the margin as price times (1 less margin over 100) |
| Products.DerivedFieldsIgnoreDescriptiveFields | InventoryManagement.Data/Entities/Products.cs:55-58 | renaming, re-branding or re-categorising a product changes neither its low-stock flag nor its margin |
| Products.ProfitMarginExample | InventoryManagement.Data/Entities/Products.cs:58 | price 100.00 and cost 60.00 give a 40% margin, and a zero price gives 0 |
| Invoices.NewInvoice | InventoryManagement.Data/Entities/Invoice.cs:14-55 | an invoice built from the property initialisers alone is a Draft whose total adds up and which is never overdue, whatever the clock says |
| Invoices.IsOverdue | InventoryManagement.Data/Entities/Invoice.cs:68 | without a due date an invoice is never overdue; past its due date it is overdue exactly when it is not paid |
| Invoices.NewInvoiceDefaults | InventoryManagement.Data/Entities/Invoice.cs:36-55 | a new invoice is a Draft with all four amounts 0 and no update time |
| Invoices.NeverOverdueWithoutDueDateOrWhenPaid | InventoryManagement.Data/Entities/Invoice.cs:68 | an invoice with no due date, a paid one, or one due exactly now is not overdue |
| Invoices.OverdueMonotone | InventoryManagement.Data/Entities/Invoice.cs:68 | an overdue invoice stays overdue as the clock advances |
| Invoices.OverdueFlagIgnoresOverdueStatus | InventoryManagement.Data/Entities/Invoice.cs:68 | the derived flag and the stored Overdue status disagree both ways: an Overdue-status invoice not yet due is not overdue, and a past-due Draft or Cancelled one is |
| InvoiceItems.LineTotal | InventoryManagement.Data/Entities/InvoiceItem.cs:41 | the line total is negative exactly when the discount exceeds the gross amount, and with no discount it is the gross amount |
| InvoiceItems.TotalDiscount | InventoryManagement.Data/Entities/InvoiceItem.cs:44 | the total discount is what separates the line total from the gross amount |
| InvoiceItems.LineTotalPlusDiscountIsGross | InventoryManagement.Data/Entities/InvoiceItem.cs:41-44 | line total plus total discount is the gross amount |
| InvoiceItems.LineTotalExample | InventoryManagement.Data/Entities/InvoiceItem.cs:41 | three at 19.99 with 5.00 off come to 54.97 |
| InvoiceItems.LineTotalMonotoneInQuantity | InventoryManagement.Data/Entities/InvoiceItem.cs:41 | at a non-negative unit price, more units never lower the line total |
| DbContext.EmptyIsValid | InventoryManagement.Data/Context/InventoryManagementDbContext.cs:37-314 | the empty database satisfies every index and foreign-key rule |
| DbContext.ItemsOfPartition | InventoryManagement.Data/Context/InventoryManagementDbContext.cs:291-313 | in a valid store every item belongs to an existing invoice, the item sets of two different invoices are disjoint, and an invoice key not in the store owns no item |
| DbContext.ItemCount | InventoryManagement.Data/Entities/Invoice.cs:71 | the count is at most the item table's size and is 0 exactly when no item names the invoice |
| DbContext.InsertUser | InventoryManagement.Data/Context/InventoryManagementDbContext.cs:78-84 | inserting a user fails exactly when its username or email is taken, and reports the username clash first; on success only the user table and its counter change, the row sits under a fresh key and validity is kept |
| DbContext.UpdateUser | InventoryManagement.Data/Context/InventoryManagementDbContext.cs:78-84 | updating fails exactly when the key is missing or another user holds the username or email; on success only that row changes |
| DbContext.DeleteUser | InventoryManagement.Data/Context/InventoryManagementDbContext.cs:90-93 | deleting a user fails exactly when the key is missing or some invoice names the user as creator; on success only that row goes |
| DbContext.InsertProduct | InventoryManagement.Data/Context/InventoryManagementDbContext.cs:150-152 | inserting a product fails exactly when its SKU is taken; on success the row sits under a fresh key and validity is kept |
| DbContext.UpdateProduct | InventoryManagement.Data/Context/InventoryManagementDbContext.cs:150-152 | updating fails exactly when the key is missing or another product holds the SKU; on success only that row changes |
| DbContext.DeleteProduct | InventoryManagement.Data/Context/InventoryManagementDbContext.cs:167-170 | deleting a product fails exactly when the key is missing or some item sells it; on success only that row goes |
| DbContext.InsertInvoice | InventoryManagement.Data/Context/InventoryManagementDbContext.cs:233-257 | inserting an invoice fails exactly when its number is taken or its creator does not exist; on success the row sits under a fresh key and validity is kept |
| DbContext.UpdateInvoice | InventoryManagement.Data/Context/InventoryManagementDbContext.cs:233-257 | updating fails exactly when the key is missing, another invoice holds the number or the creator does not exist; on success only that row changes |
| DbContext.DeleteInvoice | InventoryManagement.Data/Context/InventoryManagementDbContext.cs:259-262 | deleting an invoice fails only for a missing key; on success exactly that invoice and exactly the items it owns are removed and nothing else changes |
| DbContext.InsertItem | InventoryManagement.Data/Context/InventoryManagementDbContext.cs:291-313 | inserting an item fails exactly when its invoice or product does not exist, naming the missing one; on success the row sits under a fresh key and validity is kept |
| DbContext.UpdateItem | InventoryManagement.Data/Context/InventoryManagementDbContext.cs:291-313 | updating an item fails exactly when its key, invoice or product is missing; on success only that row changes |
| DbContext.DeleteItem | InventoryManagement.Data/Context/InventoryManagementDbContext.cs:305-308 | deleting an item fails exactly when its key is missing; on success only that row goes |
| DbContext.InsertItemCounts | InventoryManagement.Data/Entities/Invoice.cs:71 | adding an item raises its own invoice's item count by one and leaves every other invoice's count alone |
| DbContext.OwnedAfterAdd | InventoryManagement.Data/Entities/Invoice.cs:65-71 | after a row is added under a new key, an invoice owns its old items plus the new key exactly when the row names it |
| DbContext.DeleteInvoiceCounts | InventoryManagement.Data/Context/InventoryManagementDbContext.cs:259-262 | after the cascade the deleted invoice owns no items and every other invoice keeps its count |
| DbContext.UpdateTimestamps | InventoryManagement.Data/Context/InventoryManagementDbContext.cs:328-348 | the hook keeps the change set's length; it stamps `UpdatedAt` with the clock on exactly the modified users, products and invoices, changing nothing else in them, and leaves every other entry as it was |
| DbContext.NoModifiedNoStamps | InventoryManagement.Data/Context/InventoryManagementDbContext.cs:330-331 | a change set with no modified entries passes through the hook unchanged |
| DbContext.Apply | InventoryManagement.Data/Context/InventoryManagementDbContext.cs:316-320 | applying one entry to a valid store leaves it valid when it succeeds |
| DbContext.ApplyAll | InventoryManagement.Data/Context/InventoryManagementDbContext.cs:316-320 | committing a change set to a valid store leaves it valid when it succeeds |
| DbContext.Save | InventoryManagement.Data/Context/InventoryManagementDbContext.cs:316-326 | a successful save of a valid store gives a valid store |
| DbContext.ApplyAllAppend | InventoryManagement.Data/Context/InventoryManagementDbContext.cs:316-320 | in the model's in-order commit, committing two change sets together is committing the first, then the second unless the first failed |
| DbContext.ApplyAllSingle | InventoryManagement.Data/Context/InventoryManagementDbContext.cs:316-320 | committing one entry is applying it |
| DbContext.SaveModifiedUser | InventoryManagement.Data/Context/InventoryManagementDbContext.cs:335-338 | saving an updated user writes the caller's row with `UpdatedAt` set to the clock, keeps `CreatedAt`, and leaves the other tables alone |
| DbContext.SaveModifiedProduct | InventoryManagement.Data/Context/InventoryManagementDbContext.cs:339-342 | saving an updated product writes it with `UpdatedAt` set to the clock and leaves the other tables alone |
| DbContext.SaveModifiedInvoice | InventoryManagement.Data/Context/InventoryManagementDbContext.cs:343-346 | saving an updated invoice writes it with `UpdatedAt` set to the clock and leaves the other tables alone |
| DbContext.SaveModifiedItem | InventoryManagement.Data/Context/InventoryManagementDbContext.cs:333-347 | items get no stamp: saving a modified item is exactly updating it |
| DbContext.UserTimestampDiscipline | InventoryManagement.Data/Context/InventoryManagementDbContext.cs:328-348 | a created user has no update time; a later update of it stamps the later clock and keeps the creation time |
| DbContext.StoredActiveFlagAsWritten | InventoryManagement.Data/Context/InventoryManagementDbContext.cs:67-69 | with the database default `true` configured, the flag stored for a new row is always true |
| DbContext.InsertUserAsWritten | InventoryManagement.Data/Context/InventoryManagementDbContext.cs:67-69 | the configured user insert succeeds exactly when the intended one does, and into a valid store it writes the row with its active flag set |
| DbContext.InsertProductAsWritten | InventoryManagement.Data/Context/InventoryManagementDbContext.cs:139-141 | the configured product insert succeeds exactly when the intended one does, and into a valid store it writes the row with its active flag set |
| DbContext.InactiveUserStoredActive | InventoryManagement.Data/Context/InventoryManagementDbContext.cs:67-69 | as configured, inserting an inactive user stores an active row, which differs from the row inserted |
| DbContext.InactiveProductStoredActive | InventoryManagement.Data/Context/InventoryManagementDbContext.cs:139-141 | as configured, inserting an inactive product stores an active row |
| DbContext.InsertKeepsUserActiveFlag | InventoryManagement.Data/Context/InventoryManagementDbContext.cs:67-69 | the intended user insert stores the row given with its active flag unchanged |
| DbContext.InsertKeepsProductActiveFlag | InventoryManagement.Data/Context/InventoryManagementDbContext.cs:139-141 | the intended product insert stores the row given with its active flag unchanged |
| DbContext.AddedUsers | InventoryManagement.Data/Seeders/DbSeeder.cs:83 | `AddRange` of users tracks one Added entry per user, in order |
| DbContext.AddedProducts | InventoryManagement.Data/Seeders/DbSeeder.cs:274 | `AddRange` of products tracks one Added entry per product, in order |
| DbContext.AddedInvoices | InventoryManagement.Data/Seeders/DbSeeder.cs:375 | `AddRange` of invoices tracks one Added entry per invoice, in order |
| DbContext.AddedItems | InventoryManagement.Data/Seeders/DbSeeder.cs:452 | `AddRange` of items tracks one Added entry per item, in order |
| DbContext.InsertUsersSucceeds | InventoryManagement.Data/Context/InventoryManagementDbContext.cs:78-84 | inserting users whose usernames and emails are new and pairwise distinct succeeds, keeps validity, changes only the user table and its counter, and places the users under consecutive fresh keys |
| DbContext.InsertProductsSucceeds | InventoryManagement.Data/Context/InventoryManagementDbContext.cs:150-152 | inserting products with new, pairwise distinct SKUs succeeds and places them under consecutive fresh keys |
| DbContext.InsertInvoicesSucceeds | InventoryManagement.Data/Context/InventoryManagementDbContext.cs:233-239 | inserting invoices with new, pairwise distinct numbers and existing creators succeeds and places them under consecutive fresh keys |
| DbContext.AddUsersSucceeds | InventoryManagement.Data/Seeders/DbSeeder.cs:83-84 | saving such a batch of added users succeeds with the same outcome |
| DbContext.AddProductsSucceeds | InventoryManagement.Data/Seeders/DbSeeder.cs:274-275 | saving such a batch of added products succeeds with the same outcome |
| DbContext.AddInvoicesSucceeds | InventoryManagement.Data/Seeders/DbSeeder.cs:375-376 | saving such a batch of added invoices succeeds with the same outcome |
| DbContext.AddItemsSucceeds | InventoryManagement.Data/Seeders/DbSeeder.cs:452-453 | saving added items whose invoices and products exist succeeds, keeps validity and places them under consecutive fresh keys |
| DbContext.SaveInsertsIsApplyAll | InventoryManagement.Data/Context/InventoryManagementDbContext.cs:316-348 | an insert-only change set passes the hook untouched, so saving it is committing it |
| Seeder.FirstKey | InventoryManagement.Data/Seeders/DbSeeder.cs:289-290 | the key found is the smallest key in range whose row matches; no key found means no row in range matches |
| Seeder.FirstUserWithRole | InventoryManagement.Data/Seeders/DbSeeder.cs:289-290 | the user found has the role and no smaller key has it; in a valid store, none found means no user has the role |
| Seeder.FirstUserIs | InventoryManagement.Data/Seeders/DbSeeder.cs:289-290 | the lookup returns exactly the user with the role that no smaller key beats |
| Seeder.ProductWithSku | InventoryManagement.Data/Seeders/DbSeeder.cs:389 | the product found has the SKU; in a valid store, none found means no product has it |
| Seeder.IndexOfNumber | InventoryManagement.Data/Seeders/DbSeeder.cs:379-381 | the position found is the first invoice in the list with the number; none found means no invoice has it |
| Seeder.InvoiceRowsCreatedBy | InventoryManagement.Data/Seeders/DbSeeder.cs:289-373 | given the first Admin's and first Manager's keys, each invoice row is its seed with a creator who exists, has the role the seed asks for and is the first user with it |
| Seeder.SaveInvoicesAndItems | InventoryManagement.Data/Seeders/DbSeeder.cs:292-453 | a run that ends without failure had every item lookup succeed, and a run that ends with no match had one fail |
| Seeder.ItemRows | InventoryManagement.Data/Seeders/DbSeeder.cs:383-450 | the items are built exactly when every item's invoice and product lookups succeed, and each built row carries its seed's figures and points at the looked-up invoice and product |
| Seeder.ItemRowsReadOnlyProducts | InventoryManagement.Data/Seeders/DbSeeder.cs:284 | building the items reads only the product table loaded before the invoices were saved |
| Seeder.SavedItemsBuilt | InventoryManagement.Data/Seeders/DbSeeder.cs:452-453 | items appended from the built rows sit under consecutive keys, each built from its seed |
| Seeder.SavedItemsPointAt | InventoryManagement.Data/Seeders/DbSeeder.cs:379-450 | with unique numbers and SKUs, each saved item points at the one invoice and the one product its seed names |
| Seeder.SeedUsers | InventoryManagement.Data/Seeders/DbSeeder.cs:30-85 | the user step does nothing when any user exists, and a failure leaves the store as it was |
| Seeder.SeedProducts | InventoryManagement.Data/Seeders/DbSeeder.cs:87-276 | the product step does nothing when any product exists, and a failure leaves the store as it was |
| Seeder.SeedInvoices | InventoryManagement.Data/Seeders/DbSeeder.cs:278-290 | the invoice step does nothing when invoices exist or users or products are missing, and fails with no match, changing nothing, when there is no Admin or no Manager |
| Seeder.SaveItems | InventoryManagement.Data/Seeders/DbSeeder.cs:383-453 | a failed product lookup stops the run with no match and the invoices already saved stay saved |
| Seeder.SeedWith | InventoryManagement.Data/Seeders/DbSeeder.cs:12-28 | when users, products and invoices all exist already, a run changes nothing and succeeds |
| Seeder.SeedUsersOnValid | InventoryManagement.Data/Seeders/DbSeeder.cs:30-85 | on a valid store the user step never fails, keeps validity, leaves the other tables alone and, into an empty user table, appends the seed users from the next key on |
| Seeder.SeedProductsOnValid | InventoryManagement.Data/Seeders/DbSeeder.cs:87-276 | on a valid store the product step never fails and, into an empty product table, appends the seed products from the next key on |
| Seeder.SaveItemsOnValid | InventoryManagement.Data/Seeders/DbSeeder.cs:383-453 | saving built items keeps validity and changes only the item table; it succeeds exactly when every lookup succeeds |
| Seeder.SaveInvoicesAndItemsOnValid | InventoryManagement.Data/Seeders/DbSeeder.cs:292-453 | with both creators present the invoices are saved under fresh keys; the items follow exactly when every lookup succeeds, and otherwise the item table is untouched |
| Seeder.SeedInvoicesOnValid | InventoryManagement.Data/Seeders/DbSeeder.cs:278-454 | the invoice step keeps validity, leaves users and products alone and fails only at a lookup; when it saves no invoice into an empty invoice table, the store is unchanged and a creator was missing |
| Seeder.SeedWithOnValid | InventoryManagement.Data/Seeders/DbSeeder.cs:12-28 | a whole run on a valid store keeps it valid, fails only at a lookup, and leaves users and products non-empty |
| Seeder.SeedWithIdempotent | InventoryManagement.Data/Seeders/DbSeeder.cs:32-33 | a second run, with any seed data and any clock, leaves the store as the first run left it |
| Seeder.SeededCreatorsFound | InventoryManagement.Data/Seeders/DbSeeder.cs:289-290 | seeded users that include an Admin and a Manager make both creator lookups succeed |
| Seeder.SeededItemsFound | InventoryManagement.Data/Seeders/DbSeeder.cs:379-450 | seeded products that carry every item's SKU make every item lookup succeed |
| Seeder.SeedWithOnEmpty | InventoryManagement.Data/Seeders/DbSeeder.cs:12-454 | on an empty database, consistent seed data is saved in full from key 1 on: users, products, invoices created by the first Admin and Manager, and items built from their seeds |
| Seeder.SeedWithoutAdminFails | InventoryManagement.Data/Seeders/DbSeeder.cs:289 | with users but no Admin and no invoices yet, the run fails with no match and saves no invoice |
| SeedRows.UserSeeds | InventoryManagement.Data/Seeders/DbSeeder.cs:35-81 | four accounts are seeded |
| SeedRows.ProductSeeds | InventoryManagement.Data/Seeders/DbSeeder.cs:92-272 | eleven products are seeded |
| SeedRows.InvoiceSeeds | InventoryManagement.Data/Seeders/DbSeeder.cs:292-373 | four invoices are seeded |
| SeedRows.UserSeedsDistinct | InventoryManagement.Data/Seeders/DbSeeder.cs:35-81 | the seeded usernames and emails are pairwise distinct |
| SeedRows.ProductSeedsDistinct | InventoryManagement.Data/Seeders/DbSeeder.cs:92-272 | the seeded SKUs are pairwise distinct |
| SeedRows.InvoiceSeedsDistinct | InventoryManagement.Data/Seeders/DbSeeder.cs:292-373 | the seeded invoice numbers are pairwise distinct |
| SeedRows.SeedDataConsistent | InventoryManagement.Data/Seeders/DbSeeder.cs:35-373 | the seed data passes every unique index |
| SeedRows.ItemSeedsNameSeededInvoices | InventoryManagement.Data/Seeders/DbSeeder.cs:379-450 | every seeded item names one of the seeded invoice numbers |
| SeedRows.ItemSeedsNameSeededProducts | InventoryManagement.Data/Seeders/DbSeeder.cs:383-450 | every seeded item names one of the seeded SKUs |
| SeedRows.SeedDataSelfContained | InventoryManagement.Data/Seeders/DbSeeder.cs:289-450 | the seed users include an Admin and a Manager, and every item lookup finds its target among the seed rows |
| SeedRows.Seed | InventoryManagement.Data/Seeders/DbSeeder.cs:12-28 | seeding a database that already has users, products and invoices changes nothing and succeeds |
| SeedRows.SeedOnValid | InventoryManagement.Data/Seeders/DbSeeder.cs:12-28 | seeding a valid database keeps it valid and fails only at a lookup |
| SeedRows.SeedIdempotent | InventoryManagement.Data/Seeders/DbSeeder.cs:32-33 | seeding twice, with any password hash and any clock the second time, is seeding once |
| SeedRows.SeedWithoutAdmin | InventoryManagement.Data/Seeders/DbSeeder.cs:289 | with users but no Admin and no invoices, seeding fails with no match and writes no invoice |
| SeedRows.SeededCreators | InventoryManagement.Data/Seeders/DbSeeder.cs:289-290 | in the seeded users the first Admin is user 1 and the first Manager is user 2 |
| SeedRows.SeedFreshStore | InventoryManagement.Data/Seeders/DbSeeder.cs:12-454 | seeding an empty database succeeds and leaves every seed row in place: users, products and invoices from key 1 on in list order, and the items built from their seeds |
| SeedRows.ProductSeedsLowStock | InventoryManagement.Data/Seeders/DbSeeder.cs:256-271 | of the seeded products exactly the last, TECH-MOUSE-001 with stock 2 and minimum 5, is low on stock |
| SeedRows.FreshLowStock | InventoryManagement.Data/Seeders/DbSeeder.cs:256-271 | in a freshly seeded database a product is low on stock exactly when it is product 11, TECH-MOUSE-001 |
| SeedRows.InvoiceSeedsFigures | InventoryManagement.Data/Seeders/DbSeeder.cs:292-373 | each seeded invoice's total is subtotal plus tax less discount, and only the third, INV-2025-003, is overdue |
| SeedRows.FreshInvoices | InventoryManagement.Data/Seeders/DbSeeder.cs:289-376 | a fresh database holds invoices 1 to 4, created by users 1, 2, 1 and 2; each total adds up, and exactly invoice 3 is overdue |
| SeedRows.FreshItemInvoiceKeys | InventoryManagement.Data/Seeders/DbSeeder.cs:379-381 | each seeded item's invoice is under key 1, 1, 2, 2, 3 or 3 in list order |
| SeedRows.FreshItemProductKeys | InventoryManagement.Data/Seeders/DbSeeder.cs:389-443 | each seeded item's product is under key 1, 3, 4, 5, 7 or 9 in list order |
| SeedRows.FreshItems | InventoryManagement.Data/Seeders/DbSeeder.cs:383-453 | the six items sit under keys 1 to 6, each built from its seed with those invoice and product keys |
| SeedRows.FreshItemCounts | InventoryManagement.Data/Entities/Invoice.cs:71 | in a fresh database invoices 1, 2 and 3 own items 1-2, 3-4 and 5-6, two each, and invoice 4 owns none |
| SeedRows.FreshSubtotals | InventoryManagement.Data/Seeders/DbSeeder.cs:305-450 | invoice 1's subtotal and discount match its items; invoices 2 and 3 carry subtotals 399.96 and 159.98 while their items gross 599.85 and 149.97; invoice 4 has subtotal 0 and no items |

## Left out

- Password hashing (SHA-256 with a salt, then Base64) is not modelled. It becomes the `hash` parameter of the user seeds.
- Database creation (`EnsureCreatedAsync`), async I/O and cancellation are left out. So are connection failures and concurrency between requests. Each save is treated as one atomic transaction.
- The clock: every `DateTime.UtcNow` read during one seeding run or one save is the same `now`. In the code, successive reads can differ by a few ticks.
- `HasDefaultValueSql("datetime('now')")` on `CreatedAt` is left out. The entities set `CreatedAt` from their initialisers, so the database default applies only if a caller sets `CreatedAt` to `default(DateTime)`, which nothing in this code does.
- The other database defaults for status, amounts, minimum stock and unit are left out. They equal the property initialisers, which `NewUser`, `NewProduct` and `NewInvoice` model.
- Non-unique indexes are left out. They affect only performance.
- Column lengths are not enforced, because SQLite ignores `HasMaxLength`. The limits are stated only as `WithinLengths` predicates.
- The store does not model `decimal` rounding to two places. Amounts are whole cents from the start.
- The store does not model the range of `int`. Quantities, stock levels and keys are unbounded, and overflow of quantity times unit price is not modelled.
- Products.ProfitMargin: uses exact real division. `decimal` division rounds to 28 significant digits, so the margin the code computes can differ in the last digits.
- Enum values outside their declared range, which C# allows in a variable, are represented as a failed decode (`None`) rather than as values of the type.
- DbContext.ItemCount: counts the items the store holds for the invoice. The code counts the loaded `InvoiceItems` navigation collection, which is empty when the items were not loaded.
- Seeder.FirstUserWithRole: takes the list from `ToListAsync` in key order. The code does not order the query, and SQLite returns rows of a single table in key order.
- DbContext.ApplyAll: commits a change set in list order and stops at the first entry that fails. EF Core sorts the commands of one `SaveChanges` by their dependencies, and the database checks constraints against the whole transaction. So `[Deleted(User 1), Deleted(Invoice 1)]`, where invoice 1 is user 1's only invoice, succeeds in the program but is blocked by the model. Likewise a user inserted with user 2's username, listed before the deletion of user 2, succeeds in the program but is refused by the model.
- DbContext.Save: inherits the list-order commit of `ApplyAll`. A change set that succeeds in some order of its entries but fails in the given order is reported as failed.
- DbContext.ApplyAllAppend: is a law of the in-order commit only. Under EF Core's sorted commit, saving `a + b` together is not always saving `a` and then `b`.
- DbContext.Apply: commits an added user or product through the intended insert, which keeps the given `IsActive`. The configured database default, which turns an unset `false` into `true`, is modelled only by `InsertUserAsWritten` and `InsertProductAsWritten` (see Findings).
- DbContext.InsertUser: stores the given `IsActive` flag as is, which is the intended behaviour. As configured, a `false` flag is stored as `true`; `InsertUserAsWritten` models that.
- DbContext.InsertProduct: stores the given `IsActive` flag as is, which is the intended behaviour. As configured, a `false` flag is stored as `true`; `InsertProductAsWritten` models that.
- Users.WithinLengths: measures a string in Unicode characters. .NET's `string.Length`, which `StringLength` checks, counts UTF-16 code units, so a string with characters outside the Basic Multilingual Plane is longer in the code than in the model.
- Products.WithinLengths: measures lengths in Unicode characters, not UTF-16 code units, for the same reason.
- Invoices.WithinLengths: measures lengths in Unicode characters, not UTF-16 code units, for the same reason.
- Foreign-key failures on insert are reported as the constraint they break. SQLite reports only a generic foreign-key failure.
- The final `SaveChangesAsync` in `SeedAsync` commits nothing in the model. Every step has already saved its own rows.
- The web pages, migrations helper and application startup are not part of this model.

## Findings

| source | as written | input that shows it | evidently intended | confidence | as-written member | corrected member |
|---|---|---|---|---|---|---|
| InventoryManagement.Data/Context/InventoryManagementDbContext.cs:67-69 | `IsActive` is a non-nullable bool with database default `true`. EF Core treats the CLR default `false` as unset and lets the database default apply. | A new `User` with `IsActive = false`, inserted. | The row is stored inactive, as given. | medium, not executed | DbContext.InactiveUserStoredActive | DbContext.InsertKeepsUserActiveFlag |
| InventoryManagement.Data/Context/InventoryManagementDbContext.cs:139-141 | Same configuration for `Product.IsActive`. | A new `Product` with `IsActive = false`, inserted. | The row is stored inactive, as given. | medium, not executed | DbContext.InactiveProductStoredActive | DbContext.InsertKeepsProductActiveFlag |
