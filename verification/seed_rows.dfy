/** The rows the seeder writes on first run, and what they promise: four
    accounts (one per role), eleven products of which only the wireless
    mouse is low on stock, four invoices in different states, and six
    invoice items for the first three invoices. */
module SeedRows {
  import opened Wrappers
  import opened Scalars
  import opened Enums
  import Users
  import opened Products
  import opened Invoices
  import opened InvoiceItems
  import opened DbContext
  import opened Seeder

  /** The four accounts; `hash` stands for the password hash, which is
      computed outside this model. */
  function UserSeeds(hash: string -> string, now: Time): (us: seq<Users.User>)
    ensures |us| == 4
  {
    [ Users.User("admin", "admin@inventorymanagement.com", hash("Admin123!"),
                 "System", "Administrator", Admin, true, now, None),
      Users.User("manager", "manager@inventorymanagement.com", hash("Manager123!"),
                 "John", "Manager", Manager, true, now, None),
      Users.User("user1", "user1@inventorymanagement.com", hash("User123!"),
                 "Jane", "Smith", UserRole.User, true, now, None),
      Users.User("viewer", "viewer@inventorymanagement.com", hash("Viewer123!"),
                 "Bob", "Viewer", Viewer, true, now, None) ]
  }

  /** The eleven products, prices and costs in cents. The longer texts
      are written as short literals joined with `+`, which is the same
      string and keeps proofs that unfold the list small. */
  function ProductSeeds(now: Time): (ps: seq<Product>)
    ensures |ps| == 11
  {
    [ Product("Laptop Dell XPS 13", "High-performance " + "ultrabook with " + "Intel Core i7",
              "DELL-XPS13-001", 129999, 89999, 25, 5, Electronics, "Dell", Piece, true, now, None),
      Product("iPhone 15 Pro", "Latest iPhone " + "with advanced " + "camera system",
              "APPLE-IP15P-001", 99999, 69999, 50, 10, Electronics, "Apple", Piece, true, now, None),
      Product("Samsung 4K Monitor", "32-inch 4K UHD " + "monitor with " + "HDR support",
              "SAMSUNG-MON32-001", 34999, 24999, 15, 3, Electronics, "Samsung", Piece, true, now, None),
      Product("Men's Cotton T-Shirt", "Comfortable " + "100% cotton " + "t-shirt in " + "various colors",
              "CLOTH-TSHIRT-001", 1999, 899, 100, 20, Clothing, "BasicWear", Piece, true, now, None),
      Product("Women's Jeans", "Slim-fit denim " + "jeans with " + "stretch fabric",
              "CLOTH-JEANS-001", 7999, 3999, 75, 15, Clothing, "DenimCo", Piece, true, now, None),
      Product("C# Programming Guide", "Comprehensive " + "guide to C# " + "programming " + "language",
              "BOOK-CSHARP-001", 4999, 2499, 30, 5, Books, "TechBooks", Piece, true, now, None),
      Product("Coffee Maker", "Programmable " + "coffee maker " + "with thermal " + "carafe",
              "HOME-COFFEE-001", 8999, 5499, 20, 5, HomeAndGarden, "BrewMaster", Piece, true, now, None),
      Product("Garden Hose 50ft", "Heavy-duty " + "garden hose " + "with spray " + "nozzle",
              "GARDEN-HOSE-001", 3999, 1999, 40, 8, HomeAndGarden, "GardenPro", Piece, true, now, None),
      Product("Yoga Mat", "Non-slip " + "exercise yoga " + "mat with " + "carrying strap",
              "SPORT-YOGA-001", 2999, 1499, 60, 12, SportsAndOutdoors, "FitLife", Piece, true, now, None),
      Product("Face Moisturizer", "Daily " + "hydrating face " + "moisturizer " + "with SPF 30",
              "BEAUTY-MOIST-001", 2499, 1299, 80, 15, HealthAndBeauty, "SkinCare Pro", Piece, true, now, None),
      Product("Wireless Mouse", "Ergonomic " + "wireless mouse " + "with long " + "battery life",
              "TECH-MOUSE-001", 2599, 1599, 2, 5, Electronics, "TechGear", Piece, true, now, None) ]
  }

  /** The four invoices: paid, sent, overdue and draft. The creator key is
      filled in from the Admin or Manager lookup. Longer texts are split
      as in `ProductSeeds`. */
  function InvoiceSeeds(now: Time): (vs: seq<InvoiceSeed>)
    ensures |vs| == 4
  {
    [ InvoiceSeed(Invoice("INV-2025-001", AddDays(now, -30), Some(AddDays(now, -15)),
                          "ABC Corporation", "orders@abccorp.com", "+1-555-0123",
                          "123 Business " + "Ave, City, " + "State 12345",
                          Paid, 164998, 16498, 5000, 176496,
                          "Bulk order for " + "office " + "equipment",
                          AddDays(now, -30), None, 0), AdminUser),
      InvoiceSeed(Invoice("INV-2025-002", AddDays(now, -15), Some(AddDays(now, 15)),
                          "XYZ Retail Store", "purchasing@xyzstore.com", "+1-555-0456",
                          "456 Retail " + "Blvd, City, " + "State 67890",
                          Sent, 39996, 3999, 0, 43995,
                          "Monthly " + "inventory " + "restocking",
                          AddDays(now, -15), None, 0), ManagerUser),
      InvoiceSeed(Invoice("INV-2025-003", AddDays(now, -45), Some(AddDays(now, -10)),
                          "Small Business LLC", "finance@smallbiz.com", "+1-555-0789",
                          "789 Commerce " + "St, City, " + "State 13579",
                          Overdue, 15998, 1599, 0, 17597,
                          "Follow up " + "required for " + "payment",
                          AddDays(now, -45), None, 0), AdminUser),
      InvoiceSeed(Invoice("INV-2025-004", now, Some(AddDays(now, 30)),
                          "Tech Startup Inc", "orders@techstartup.com", "+1-555-0321",
                          "321 Innovation " + "Dr, City, " + "State 24680",
                          Draft, 0, 0, 0, 0,
                          "Draft - pending " + "item selection",
                          now, None, 0), ManagerUser) ]
  }

  /** The six invoice lines: two each for the paid, sent and overdue
      invoices, none for the draft. Longer texts are split as in
      `ProductSeeds`. */
  const ItemSeeds: seq<ItemSeed> := [
    ItemSeed("INV-2025-001", "DELL-XPS13-001", 1, 129999, 5000, "Laptop for " + "office use", 30),
    ItemSeed("INV-2025-001", "SAMSUNG-MON32-001", 1, 34999, 0, "Monitor for " + "workstation", 30),
    ItemSeed("INV-2025-002", "CLOTH-TSHIRT-001", 10, 1999, 0, "Staff uniforms", 15),
    ItemSeed("INV-2025-002", "CLOTH-JEANS-001", 5, 7999, 0, "Staff uniforms", 15),
    ItemSeed("INV-2025-003", "HOME-COFFEE-001", 1, 8999, 0, "Office coffee " + "maker", 45),
    ItemSeed("INV-2025-003", "SPORT-YOGA-001", 2, 2999, 0, "Employee " + "wellness " + "program", 45)]

  function TheSeedData(hash: string -> string, now: Time): SeedData {
    SeedData(UserSeeds(hash, now), ProductSeeds(now), InvoiceSeeds(now), ItemSeeds)
  }

  /** `DbSeeder.SeedAsync`. */
  function Seed(s: Store, hash: string -> string, now: Time): (r: SeedRun)
    ensures s.users != map[] && s.products != map[] && s.invoices != map[] ==> r == SeedRun(s, None)
  {
    SeedWith(s, TheSeedData(hash, now), now)
  }

  // ---------------------------------------------------------------------
  // The seed data agrees with the unique indexes and with itself

  lemma UserSeedsDistinct(hash: string -> string, now: Time)
    ensures var us := UserSeeds(hash, now);
            forall i, j | 0 <= i < j < |us| :: us[i].username != us[j].username && us[i].email != us[j].email
  {
  }

  lemma ProductSeedsDistinct(now: Time)
    ensures var ps := ProductSeeds(now);
            forall i, j | 0 <= i < j < |ps| :: ps[i].sku != ps[j].sku
  {
  }

  lemma InvoiceSeedsDistinct(now: Time)
    ensures var vs := InvoiceSeeds(now);
            forall i, j | 0 <= i < j < |vs| :: vs[i].invoice.invoiceNumber != vs[j].invoice.invoiceNumber
  {
  }

  lemma SeedDataConsistent(hash: string -> string, now: Time)
    ensures ConsistentSeed(TheSeedData(hash, now))
  {
    UserSeedsDistinct(hash, now);
    ProductSeedsDistinct(now);
    InvoiceSeedsDistinct(now);
  }

  /** Every item names one of invoices 001 to 003. */
  lemma ItemSeedsNameSeededInvoices(now: Time)
    ensures ItemsNameInvoices(ItemSeeds, InvoiceSeeds(now))
  {
    var vs := InvoiceSeeds(now);
    assert vs[0].invoice.invoiceNumber == ItemSeeds[0].invoiceNumber == ItemSeeds[1].invoiceNumber;
    assert vs[1].invoice.invoiceNumber == ItemSeeds[2].invoiceNumber == ItemSeeds[3].invoiceNumber;
    assert vs[2].invoice.invoiceNumber == ItemSeeds[4].invoiceNumber == ItemSeeds[5].invoiceNumber;
  }

  /** Every item's SKU is a seeded product's. */
  lemma ItemSeedsNameSeededProducts(now: Time)
    ensures ItemsNameProducts(ItemSeeds, ProductSeeds(now))
  {
    var ps := ProductSeeds(now);
    assert ps[0].sku == ItemSeeds[0].sku;
    assert ps[2].sku == ItemSeeds[1].sku;
    assert ps[3].sku == ItemSeeds[2].sku;
    assert ps[4].sku == ItemSeeds[3].sku;
    assert ps[6].sku == ItemSeeds[4].sku;
    assert ps[8].sku == ItemSeeds[5].sku;
  }

  /** Both creators exist among the seeded users, and every item's lookups
      find a seeded row. */
  lemma SeedDataSelfContained(hash: string -> string, now: Time)
    ensures SelfContainedSeed(TheSeedData(hash, now))
  {
    var d := TheSeedData(hash, now);
    assert d.users[0].role == Admin && d.users[1].role == Manager;
    ItemSeedsNameSeededInvoices(now);
    ItemSeedsNameSeededProducts(now);
  }

  // ---------------------------------------------------------------------
  // Seeding any valid store

  /** `SeedAsync` leaves a valid store valid and fails only at a lookup. */
  lemma SeedOnValid(s: Store, hash: string -> string, now: Time)
    requires Valid(s)
    ensures var r := Seed(s, hash, now);
            && Valid(r.store)
            && (r.failure == None || r.failure == Some(NoMatchingElement))
            && r.store.users != map[] && r.store.products != map[]
  {
    SeedDataConsistent(hash, now);
    SeedWithOnValid(s, TheSeedData(hash, now), now);
  }

  /** Running `SeedAsync` a second time, with any password hash and any
      clock, changes nothing. */
  lemma SeedIdempotent(s: Store, hash: string -> string, now: Time, hash2: string -> string, later: Time)
    requires Valid(s)
    ensures Seed(Seed(s, hash, now).store, hash2, later).store == Seed(s, hash, now).store
  {
    SeedDataConsistent(hash, now);
    SeedWithIdempotent(s, TheSeedData(hash, now), now, TheSeedData(hash2, later), later);
  }

  /** With users present but no Admin among them, and no invoices yet,
      `SeedAsync` throws at the Admin lookup and writes no invoice. */
  lemma SeedWithoutAdmin(s: Store, hash: string -> string, now: Time)
    requires Valid(s) && s.users != map[] && s.invoices == map[]
    requires forall k | k in s.users :: s.users[k].role != Admin
    ensures var r := Seed(s, hash, now);
            r.failure == Some(NoMatchingElement) && r.store.invoices == map[] && r.store.users == s.users
  {
    SeedDataConsistent(hash, now);
    SeedWithoutAdminFails(s, TheSeedData(hash, now), now);
  }

  // ---------------------------------------------------------------------
  // Seeding an empty store

  /** The seeded users sit under keys 1 to 4 in list order. */
  predicate SeededUsers(t: Store, hash: string -> string, now: Time) {
    AppendedRows(map[], t.users, 1, UserSeeds(hash, now))
  }

  /** The seeded products sit under keys 1 to 11 in list order. */
  predicate SeededProducts(t: Store, now: Time) {
    AppendedRows(map[], t.products, 1, ProductSeeds(now))
  }

  /** The seeded invoices sit under keys 1 to 4 in list order, created by
      users 1 (the Admin) and 2 (the Manager). */
  predicate SeededInvoices(t: Store, now: Time) {
    AppendedRows(map[], t.invoices, 1, InvoiceRows(InvoiceSeeds(now), 1, 2))
  }

  /** The seeded items sit under keys 1 to 6 in list order, built against
      those invoices and the store's products. */
  predicate SeededItems(t: Store, now: Time) {
    ItemsSavedFrom(t, 1, ItemSeeds, InvoiceRows(InvoiceSeeds(now), 1, 2), 1, now)
  }

  /** The store holds the seed rows the way a fresh database gets them. */
  predicate FreshlySeeded(t: Store, hash: string -> string, now: Time) {
    SeededUsers(t, hash, now) && SeededProducts(t, now) && SeededInvoices(t, now) && SeededItems(t, now)
  }

  /** In the seeded users, the first Admin is user 1 and the first Manager
      user 2. */
  lemma SeededCreators(t: Store, hash: string -> string, now: Time)
    requires Valid(t) && SeededUsers(t, hash, now)
    ensures FirstUserWithRole(t, Admin) == Some(1) && FirstUserWithRole(t, Manager) == Some(2)
  {
    var us := UserSeeds(hash, now);
    assert 1 in t.users && t.users[1] == us[0];
    assert 2 in t.users && t.users[2] == us[1];
    FirstUserIs(t, Admin, 1);
    FirstUserIs(t, Manager, 2);
  }

  /** Seeding an empty store succeeds and leaves every seed row in place. */
  lemma SeedFreshStore(hash: string -> string, now: Time)
    ensures var r := Seed(Empty, hash, now);
            r.failure == None && Valid(r.store) && FreshlySeeded(r.store, hash, now)
  {
    var d := TheSeedData(hash, now);
    SeedDataConsistent(hash, now);
    SeedDataSelfContained(hash, now);
    SeedWithOnEmpty(d, now);
    var t := SeedWith(Empty, d, now).store;
    SeededCreators(t, hash, now);
    SavedItemsBuilt(t, 1, ItemSeeds, InvoiceRows(InvoiceSeeds(now), 1, 2), 1, now);
  }

  /** Only the wireless mouse is at or below its minimum stock level. */
  lemma ProductSeedsLowStock(now: Time)
    ensures var ps := ProductSeeds(now);
            && (forall i | 0 <= i < |ps| :: IsLowStock(ps[i]) <==> i == 10)
            && ps[10].sku == "TECH-MOUSE-001" && ps[10].stockQuantity == 2 && ps[10].minimumStockLevel == 5
  {
  }

  /** In a freshly seeded store exactly one product is low on stock:
      TECH-MOUSE-001, under key 11. */
  lemma FreshLowStock(t: Store, now: Time)
    requires SeededProducts(t, now)
    ensures forall k | k in t.products :: IsLowStock(t.products[k]) <==> k == 11
    ensures 11 in t.products && t.products[11].sku == "TECH-MOUSE-001"
  {
    var ps := ProductSeeds(now);
    ProductSeedsLowStock(now);
    forall k | k in t.products
      ensures IsLowStock(t.products[k]) <==> k == 11
    {
      assert t.products[k] == ps[k - 1];
    }
    assert t.products[11] == ps[10];
  }

  /** Every seeded invoice's total is its subtotal plus tax less discount,
      and at seeding time only INV-2025-003 is past due and unpaid. */
  lemma InvoiceSeedsFigures(now: Time)
    ensures var vs := InvoiceSeeds(now);
            forall i | 0 <= i < |vs| ::
              && vs[i].invoice.totalAmount
                   == vs[i].invoice.subTotal + vs[i].invoice.taxAmount - vs[i].invoice.discountAmount
              && (IsOverdue(vs[i].invoice, now) <==> i == 2)
  {
  }

  /** In a freshly seeded store the invoices sit under keys 1 to 4,
      created by the Admin (key 1) and the Manager (key 2) in turn; each
      total adds up, and at seeding time only invoice 3 is overdue. */
  lemma FreshInvoices(t: Store, now: Time)
    requires SeededInvoices(t, now)
    ensures forall k :: k in t.invoices <==> 1 <= k <= 4
    ensures t.invoices[1].createdByUserId == 1 && t.invoices[2].createdByUserId == 2
    ensures t.invoices[3].createdByUserId == 1 && t.invoices[4].createdByUserId == 2
    ensures forall k | k in t.invoices ::
              && t.invoices[k].totalAmount
                   == t.invoices[k].subTotal + t.invoices[k].taxAmount - t.invoices[k].discountAmount
              && (IsOverdue(t.invoices[k], now) <==> k == 3)
  {
    var seeds := InvoiceSeeds(now);
    var vs := InvoiceRows(seeds, 1, 2);
    InvoiceSeedsFigures(now);
    forall k | k in t.invoices
      ensures 1 <= k <= 4
      ensures t.invoices[k] == seeds[k - 1].invoice.(createdByUserId := vs[k - 1].createdByUserId)
    {
      assert t.invoices[k] == vs[k - 1];
    }
    assert 1 in t.invoices && 2 in t.invoices && 3 in t.invoices && 4 in t.invoices;
  }

  /** The invoice key of each seeded item, in list order. */
  const ItemInvoiceKeys: seq<Id> := [1, 1, 2, 2, 3, 3]

  /** The product key of each seeded item, in list order: the laptop, the
      monitor, the t-shirt, the jeans, the coffee maker and the yoga mat. */
  const ItemProductKeys: seq<Id> := [1, 3, 4, 5, 7, 9]

  /** Item `i` names the invoice under `ItemInvoiceKeys[i]`. */
  lemma FreshItemInvoiceKeys(t: Store, now: Time)
    requires SeededInvoices(t, now)
    ensures |ItemInvoiceKeys| == |ItemSeeds|
    ensures forall i | 0 <= i < |ItemSeeds| ::
              ItemInvoiceKeys[i] in t.invoices && t.invoices[ItemInvoiceKeys[i]].invoiceNumber == ItemSeeds[i].invoiceNumber
  {
    var vs := InvoiceRows(InvoiceSeeds(now), 1, 2);
    assert t.invoices[1] == vs[0] && t.invoices[2] == vs[1] && t.invoices[3] == vs[2];
  }

  /** Item `i` sells the product under `ItemProductKeys[i]`. */
  predicate ItemProductsAt(t: Store) {
    forall i | 0 <= i < |ItemSeeds| ::
      ItemProductKeys[i] in t.products && t.products[ItemProductKeys[i]].sku == ItemSeeds[i].sku
  }

  lemma FreshItemProductKeys(t: Store, now: Time)
    requires SeededProducts(t, now)
    ensures ItemProductsAt(t)
  {
    var ps := ProductSeeds(now);
    assert t.products[1] == ps[0] && t.products[3] == ps[2] && t.products[4] == ps[3];
    assert t.products[5] == ps[4] && t.products[7] == ps[6] && t.products[9] == ps[8];
  }

  /** The items sit under keys 1 to 6, item `i + 1` built from item seed
      `i` with the invoice and product keys listed for it. */
  predicate ItemsAsSeeded(t: Store, now: Time) {
    && (forall k | k in t.items :: 1 <= k <= 6)
    && (forall k | 1 <= k <= 6 ::
          k in t.items && t.items[k] == BuildItem(ItemSeeds[k - 1], ItemInvoiceKeys[k - 1], ItemProductKeys[k - 1], now))
  }

  /** In a freshly seeded store the six items point at the invoices and
      products their numbers and SKUs name. */
  lemma FreshItems(t: Store, now: Time)
    requires Valid(t) && ItemProductsAt(t) && SeededInvoices(t, now) && SeededItems(t, now)
    ensures ItemsAsSeeded(t, now)
  {
    FreshItemInvoiceKeys(t, now);
    SavedItemsPointAt(t, InvoiceRows(InvoiceSeeds(now), 1, 2), 1, 1, ItemSeeds, ItemInvoiceKeys, ItemProductKeys, now);
    ItemsAsSeededFrom(t, now);
  }

  /** The item keys and rows in the form the seeder's lemmas give them are
      the six seeded items. */
  lemma ItemsAsSeededFrom(t: Store, now: Time)
    requires SeededItems(t, now)
    requires forall k | 1 <= k < 1 + |ItemSeeds| ::
               var i := k - 1;
               k in t.items && t.items[k] == BuildItem(ItemSeeds[i], ItemInvoiceKeys[i], ItemProductKeys[i], now)
    ensures ItemsAsSeeded(t, now)
  {
  }

  /** In a freshly seeded store invoices 1 to 3 own two items each and the
      draft invoice 4 owns none. */
  lemma FreshItemCounts(t: Store, now: Time)
    requires ItemsAsSeeded(t, now)
    ensures ItemsOf(t, 1) == {1, 2} && ItemsOf(t, 2) == {3, 4} && ItemsOf(t, 3) == {5, 6}
    ensures ItemCount(t, 1) == 2 && ItemCount(t, 2) == 2 && ItemCount(t, 3) == 2
    ensures ItemCount(t, 4) == 0
  {
    assert t.items[1] == BuildItem(ItemSeeds[0], 1, 1, now);
    assert t.items[2] == BuildItem(ItemSeeds[1], 1, 3, now);
    assert t.items[3] == BuildItem(ItemSeeds[2], 2, 4, now);
    assert t.items[4] == BuildItem(ItemSeeds[3], 2, 5, now);
    assert t.items[5] == BuildItem(ItemSeeds[4], 3, 7, now);
    assert t.items[6] == BuildItem(ItemSeeds[5], 3, 9, now);
  }

  /** The seeded amounts of invoice 1 agree with its items: its subtotal is
      the sum of their gross amounts and its discount the sum of theirs.
      Those of invoices 2 and 3 do not: the items of INV-2025-002 come to
      599.85 against a subtotal of 399.96, those of INV-2025-003 to 149.97
      against 159.98. */
  lemma FreshSubtotals(t: Store, now: Time)
    requires SeededInvoices(t, now) && ItemsAsSeeded(t, now)
    ensures 1 in t.invoices && 2 in t.invoices && 3 in t.invoices && 4 in t.invoices
    ensures forall k | 1 <= k <= 6 :: k in t.items
    ensures t.invoices[1].subTotal == Gross(t.items[1]) + Gross(t.items[2])
    ensures t.invoices[1].discountAmount == TotalDiscount(t.items[1]) + TotalDiscount(t.items[2])
    ensures t.invoices[2].subTotal == 39996 && Gross(t.items[3]) + Gross(t.items[4]) == 59985
    ensures t.invoices[3].subTotal == 15998 && Gross(t.items[5]) + Gross(t.items[6]) == 14997
    ensures t.invoices[4].subTotal == 0 && ItemCount(t, 4) == 0
  {
    FreshItemCounts(t, now);
    var vs := InvoiceRows(InvoiceSeeds(now), 1, 2);
    assert t.invoices[1] == vs[0] && t.invoices[2] == vs[1] && t.invoices[3] == vs[2] && t.invoices[4] == vs[3];
    assert t.items[1] == BuildItem(ItemSeeds[0], 1, 1, now);
    assert t.items[2] == BuildItem(ItemSeeds[1], 1, 3, now);
    assert t.items[3] == BuildItem(ItemSeeds[2], 2, 4, now);
    assert t.items[4] == BuildItem(ItemSeeds[3], 2, 5, now);
    assert t.items[5] == BuildItem(ItemSeeds[4], 3, 7, now);
    assert t.items[6] == BuildItem(ItemSeeds[5], 3, 9, now);
  }
}
