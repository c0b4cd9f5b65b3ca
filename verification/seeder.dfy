/** The first-run seeder's logic: users, then products, then invoices with
    their items, each table seeded only while it is empty. The rows to seed
    come in as a `SeedData` value; module `SeedRows` holds the concrete
    ones. */
module Seeder {
  import opened Wrappers
  import opened Scalars
  import opened Enums
  import Users
  import opened Products
  import opened Invoices
  import opened InvoiceItems
  import opened DbContext

  /** Why a seeding run stopped: a `First` lookup found no matching element,
      or the store rejected a save. */
  datatype SeedError = NoMatchingElement | StoreError(error: DbError)

  /** The store a seeding step leaves behind and the exception it raised,
      if any. Saves made before the exception stay committed. */
  datatype SeedRun = SeedRun(store: Store, failure: Option<SeedError>)

  /** Which looked-up user an invoice names as its creator. */
  datatype Creator = AdminUser | ManagerUser

  /** A seeded invoice; its creator key is filled in once the users are
      looked up. */
  datatype InvoiceSeed = InvoiceSeed(invoice: Invoice, creator: Creator)

  /** One seeded invoice line: the invoice it belongs to (by number), the
      product it sells (by SKU), and its figures; `daysAgo` dates it. */
  datatype ItemSeed = ItemSeed(
    invoiceNumber: string,
    sku: string,
    quantity: int,
    unitPrice: Cents,
    discount: Cents,
    description: string,
    daysAgo: int)

  datatype SeedData = SeedData(
    users: seq<Users.User>,
    products: seq<Product>,
    invoices: seq<InvoiceSeed>,
    items: seq<ItemSeed>)

  /** What the seed data must satisfy for its saves to go through: every
      list is non-empty and the rows agree with the unique indexes among
      themselves. */
  predicate ConsistentSeed(d: SeedData) {
    && |d.users| > 0 && |d.products| > 0 && |d.invoices| > 0
    && (forall i, j | 0 <= i < j < |d.users| ::
          d.users[i].username != d.users[j].username && d.users[i].email != d.users[j].email)
    && (forall i, j | 0 <= i < j < |d.products| :: d.products[i].sku != d.products[j].sku)
    && (forall i, j | 0 <= i < j < |d.invoices| ::
          d.invoices[i].invoice.invoiceNumber != d.invoices[j].invoice.invoiceNumber)
  }

  /** Some seeded user has the role. */
  predicate HasRole(us: seq<Users.User>, role: UserRole) {
    exists i | 0 <= i < |us| :: us[i].role == role
  }

  /** Every item's invoice number is a seeded invoice's. */
  predicate ItemsNameInvoices(items: seq<ItemSeed>, vs: seq<InvoiceSeed>) {
    forall i | 0 <= i < |items| ::
      exists j | 0 <= j < |vs| :: vs[j].invoice.invoiceNumber == items[i].invoiceNumber
  }

  /** Every item's SKU is a seeded product's. */
  predicate ItemsNameProducts(items: seq<ItemSeed>, ps: seq<Product>) {
    forall i | 0 <= i < |items| :: exists j | 0 <= j < |ps| :: ps[j].sku == items[i].sku
  }

  /** What the seed data must hold for every lookup to succeed on a store
      it seeded itself: an Admin and a Manager among the users, and every
      item's invoice number and SKU among the seeded ones. */
  predicate SelfContainedSeed(d: SeedData) {
    && HasRole(d.users, Admin)
    && HasRole(d.users, Manager)
    && ItemsNameInvoices(d.items, d.invoices)
    && ItemsNameProducts(d.items, d.products)
  }

  // ---------------------------------------------------------------------
  // Lookups

  /** The smallest key in `[from, bound)` whose row satisfies `P`: the row
      `First(P)` returns when it scans a table in key order. */
  function FirstKey<T>(m: map<Id, T>, P: T -> bool, from: nat, bound: nat): (r: Option<Id>)
    ensures r.Some? ==> from <= r.value < bound && r.value in m && P(m[r.value])
    ensures r.Some? ==> forall k | from <= k < r.value && k in m :: !P(m[k])
    ensures r.None? ==> forall k | from <= k < bound && k in m :: !P(m[k])
    decreases bound - from
  {
    if from >= bound then None
    else if from in m && P(m[from]) then Some(from)
    else FirstKey(m, P, from + 1, bound)
  }

  /** `users.First(u => u.Role == role)`. In a valid store every key lies
      below `nextUserId`, so the scan sees every row. */
  function FirstUserWithRole(s: Store, role: UserRole): (r: Option<Id>)
    ensures r.Some? ==> r.value in s.users && s.users[r.value].role == role
    ensures r.Some? ==> forall k | k in s.users && k < r.value :: s.users[k].role != role
    ensures Valid(s) && r.None? ==> forall k | k in s.users :: s.users[k].role != role
  {
    FirstKey(s.users, (u: Users.User) => u.role == role, 0, s.nextUserId)
  }

  /** The first user with a role is the one no smaller key beats. */
  lemma FirstUserIs(s: Store, role: UserRole, k: Id)
    requires Valid(s) && k in s.users && s.users[k].role == role
    requires forall j | j in s.users && j < k :: s.users[j].role != role
    ensures FirstUserWithRole(s, role) == Some(k)
  {
    var r := FirstUserWithRole(s, role);
    assert r.Some?;
    assert r.value <= k;
  }

  /** `products.First(p => p.SKU == sku)`. */
  function ProductWithSku(s: Store, sku: string): (r: Option<Id>)
    ensures r.Some? ==> r.value in s.products && s.products[r.value].sku == sku
    ensures Valid(s) && r.None? ==> forall k | k in s.products :: s.products[k].sku != sku
  {
    FirstKey(s.products, (p: Product) => p.sku == sku, 0, s.nextProductId)
  }

  /** `invoices.First(i => i.InvoiceNumber == number)` over the list just
      saved: the position of the first invoice with this number. */
  function IndexOfNumber(vs: seq<Invoice>, number: string): (r: Option<nat>)
    ensures r.Some? ==> r.value < |vs| && vs[r.value].invoiceNumber == number
    ensures r.Some? ==> forall j | 0 <= j < r.value :: vs[j].invoiceNumber != number
    ensures r.None? ==> forall j | 0 <= j < |vs| :: vs[j].invoiceNumber != number
  {
    if vs == [] then None
    else if vs[0].invoiceNumber == number then Some(0)
    else match IndexOfNumber(vs[1..], number)
      case None => None
      case Some(i) => Some(i + 1)
  }

  // ---------------------------------------------------------------------
  // Building the rows

  /** The invoices with their creator keys filled in. */
  function InvoiceRows(seeds: seq<InvoiceSeed>, admin: Id, manager: Id): (vs: seq<Invoice>)
    ensures |vs| == |seeds|
    ensures forall i | 0 <= i < |seeds| ::
              && vs[i].invoiceNumber == seeds[i].invoice.invoiceNumber
              && vs[i].createdByUserId == (if seeds[i].creator == AdminUser then admin else manager)
              && vs[i] == seeds[i].invoice.(createdByUserId := vs[i].createdByUserId)
  {
    seq(|seeds|, i requires 0 <= i < |seeds| =>
      seeds[i].invoice.(createdByUserId := if seeds[i].creator == AdminUser then admin else manager))
  }

  /** With the keys of the first Admin and the first Manager passed in, every
      invoice row is its seed with a creator who exists and holds the role
      the seed asks for: the first Admin or the first Manager. */
  lemma InvoiceRowsCreatedBy(s: Store, seeds: seq<InvoiceSeed>, admin: Id, manager: Id)
    requires FirstUserWithRole(s, Admin) == Some(admin) && FirstUserWithRole(s, Manager) == Some(manager)
    ensures var vs := InvoiceRows(seeds, admin, manager);
            forall i | 0 <= i < |seeds| ::
              && vs[i].createdByUserId in s.users
              && s.users[vs[i].createdByUserId].role == (if seeds[i].creator == AdminUser then Admin else Manager)
              && FirstUserWithRole(s, s.users[vs[i].createdByUserId].role) == Some(vs[i].createdByUserId)
              && vs[i].(createdByUserId := seeds[i].invoice.createdByUserId) == seeds[i].invoice
  {
  }

  /** Both lookups an item seed needs succeed. */
  predicate SeedFound(e: ItemSeed, vs: seq<Invoice>, s: Store) {
    IndexOfNumber(vs, e.invoiceNumber).Some? && ProductWithSku(s, e.sku).Some?
  }

  /** `it` is the row built for `e`: it sells the product with `e`'s SKU,
      belongs to the saved invoice with `e`'s number (the invoices sit from
      key `firstInvoice` on, in list order) and carries `e`'s figures. */
  predicate BuiltFrom(it: InvoiceItem, e: ItemSeed, vs: seq<Invoice>, firstInvoice: Id, s: Store, now: Time) {
    && it.productId in s.products
    && s.products[it.productId].sku == e.sku
    && firstInvoice <= it.invoiceId < firstInvoice + |vs|
    && vs[it.invoiceId - firstInvoice].invoiceNumber == e.invoiceNumber
    && it.quantity == e.quantity
    && it.unitPrice == e.unitPrice
    && it.discountAmount == e.discount
    && it.description == e.description
    && it.createdAt == AddDays(now, -e.daysAgo)
  }

  /** The row an item seed becomes once its invoice and product keys are
      known; it is dated `daysAgo` days before `now`. */
  function BuildItem(e: ItemSeed, invoiceId: Id, productId: Id, now: Time): InvoiceItem {
    InvoiceItem(e.quantity, e.unitPrice, e.discount, e.description, AddDays(now, -e.daysAgo), invoiceId, productId)
  }

  /** The item rows for `seeds`; `None` when a lookup finds nothing. */
  function ItemRows(seeds: seq<ItemSeed>, vs: seq<Invoice>, firstInvoice: Id, s: Store, now: Time)
    : (r: Option<seq<InvoiceItem>>)
    ensures r.Some? <==> forall i | 0 <= i < |seeds| :: SeedFound(seeds[i], vs, s)
    ensures r.Some? ==> |r.value| == |seeds|
    ensures r.Some? ==> forall i | 0 <= i < |seeds| :: BuiltFrom(r.value[i], seeds[i], vs, firstInvoice, s, now)
  {
    if seeds == [] then Some([])
    else
      var e := seeds[0];
      var v, p := IndexOfNumber(vs, e.invoiceNumber), ProductWithSku(s, e.sku);
      if v.None? || p.None? then None
      else
        var row := BuildItem(e, firstInvoice + v.value, p.value, now);
        assert BuiltFrom(row, e, vs, firstInvoice, s, now);
        var rest := ItemRows(seeds[1..], vs, firstInvoice, s, now);
        if rest.None? then None
        else Some([row] + rest.value)
  }

  /** Building the items reads only the product table of the store. */
  lemma {:induction false} ItemRowsReadOnlyProducts(seeds: seq<ItemSeed>, vs: seq<Invoice>, firstInvoice: Id,
                                                    s: Store, s': Store, now: Time)
    requires s'.products == s.products && s'.nextProductId == s.nextProductId
    ensures ItemRows(seeds, vs, firstInvoice, s', now) == ItemRows(seeds, vs, firstInvoice, s, now)
  {
    if seeds != [] {
      ItemRowsReadOnlyProducts(seeds[1..], vs, firstInvoice, s, s', now);
    }
  }

  /** The store holds one item per seed from key `firstItem` on, in list
      order and under no other key, each built from its seed against the
      invoices `vs` saved from key `firstInvoice` on. */
  predicate ItemsSavedFrom(t: Store, firstItem: Id, items: seq<ItemSeed>, vs: seq<Invoice>, firstInvoice: Id, now: Time) {
    && (forall k | k in t.items :: firstItem <= k < firstItem + |items|)
    && (forall k | firstItem <= k < firstItem + |items| ::
          k in t.items && BuiltFrom(t.items[k], items[k - firstItem], vs, firstInvoice, t, now))
  }

  /** Items appended from the built rows are saved from their seeds. */
  lemma SavedItemsBuilt(t: Store, firstItem: Id, items: seq<ItemSeed>, vs: seq<Invoice>, firstInvoice: Id, now: Time)
    requires var its := ItemRows(items, vs, firstInvoice, t, now);
             its.Some? && AppendedRows(map[], t.items, firstItem, its.value)
    ensures ItemsSavedFrom(t, firstItem, items, vs, firstInvoice, now)
  {
    var its := ItemRows(items, vs, firstInvoice, t, now).value;
    forall k | firstItem <= k < firstItem + |items|
      ensures k in t.items && BuiltFrom(t.items[k], items[k - firstItem], vs, firstInvoice, t, now)
    {
      assert t.items[k] == its[k - firstItem];
    }
  }

  /** In a store holding the saved invoices and items under unique
      invoice numbers and SKUs, each item
      points at the invoice with its number and the product with its SKU:
      given keys of such rows, those are the keys the item holds. */
  lemma SavedItemsPointAt(t: Store, vs: seq<Invoice>, firstInvoice: Id, firstItem: Id, items: seq<ItemSeed>,
                          invoiceKeys: seq<Id>, productKeys: seq<Id>, now: Time)
    requires UniqueInvoiceNumbers(t.invoices) && UniqueSkus(t.products)
    requires RowsFrom(t.invoices, firstInvoice, vs)
    requires ItemsSavedFrom(t, firstItem, items, vs, firstInvoice, now)
    requires |invoiceKeys| == |items| && |productKeys| == |items|
    requires forall i | 0 <= i < |items| ::
               invoiceKeys[i] in t.invoices && t.invoices[invoiceKeys[i]].invoiceNumber == items[i].invoiceNumber
    requires forall i | 0 <= i < |items| ::
               productKeys[i] in t.products && t.products[productKeys[i]].sku == items[i].sku
    ensures forall k | firstItem <= k < firstItem + |items| ::
              var i := k - firstItem;
              k in t.items && t.items[k] == BuildItem(items[i], invoiceKeys[i], productKeys[i], now)
  {
    forall k | firstItem <= k < firstItem + |items|
      ensures var i := k - firstItem;
              k in t.items && t.items[k] == BuildItem(items[i], invoiceKeys[i], productKeys[i], now)
    {
      var i := k - firstItem;
      assert k in t.items && BuiltFrom(t.items[k], items[i], vs, firstInvoice, t, now);
      var it := t.items[k];
      assert invoiceKeys[i] in t.invoices && productKeys[i] in t.products;
      assert t.invoices[it.invoiceId] == vs[it.invoiceId - firstInvoice];
    }
  }

  // ---------------------------------------------------------------------
  // The seeding steps

  /** `SeedUsersAsync`: skip when any user exists, else add the users. */
  function SeedUsers(s: Store, us: seq<Users.User>, now: Time): (r: SeedRun)
    ensures s.users != map[] ==> r == SeedRun(s, None)
    ensures r.failure.Some? ==> r.store == s && r.failure.value.StoreError?
  {
    if s.users != map[] then SeedRun(s, None)
    else
      match Save(s, AddedUsers(us), now)
      case Failure(e) => SeedRun(s, Some(StoreError(e)))
      case Success(t) => SeedRun(t, None)
  }

  /** `SeedProductsAsync`: skip when any product exists, else add the
      products. */
  function SeedProducts(s: Store, ps: seq<Product>, now: Time): (r: SeedRun)
    ensures s.products != map[] ==> r == SeedRun(s, None)
    ensures r.failure.Some? ==> r.store == s && r.failure.value.StoreError?
  {
    if s.products != map[] then SeedRun(s, None)
    else
      match Save(s, AddedProducts(ps), now)
      case Failure(e) => SeedRun(s, Some(StoreError(e)))
      case Success(t) => SeedRun(t, None)
  }

  /** `SeedInvoicesAsync`: skip when any invoice exists or when there are no
      users or no products; otherwise find the first Admin and the first
      Manager and save the invoices and their items. */
  function SeedInvoices(s: Store, d: SeedData, now: Time): (r: SeedRun)
    ensures s.invoices != map[] || s.users == map[] || s.products == map[] ==> r == SeedRun(s, None)
    ensures s.invoices == map[] && s.users != map[] && s.products != map[]
            && (FirstUserWithRole(s, Admin).None? || FirstUserWithRole(s, Manager).None?)
            ==> r == SeedRun(s, Some(NoMatchingElement))
  {
    if s.invoices != map[] then SeedRun(s, None)
    else if s.users == map[] || s.products == map[] then SeedRun(s, None)
    else
      var admin, manager := FirstUserWithRole(s, Admin), FirstUserWithRole(s, Manager);
      if admin.None? || manager.None? then SeedRun(s, Some(NoMatchingElement))
      else SaveInvoicesAndItems(s, d, admin.value, manager.value, now)
  }

  /** Save the invoices with their creators filled in, then build and save
      the items against the products of `s`. */
  function SaveInvoicesAndItems(s: Store, d: SeedData, admin: Id, manager: Id, now: Time): (r: SeedRun)
    ensures var its := ItemRows(d.items, InvoiceRows(d.invoices, admin, manager), s.nextInvoiceId, s, now);
            && (r.failure.None? ==> its.Some?)
            && (r.failure == Some(NoMatchingElement) ==> its.None?)
  {
    var vs := InvoiceRows(d.invoices, admin, manager);
    match Save(s, AddedInvoices(vs), now)
    case Failure(e) => SeedRun(s, Some(StoreError(e)))
    case Success(t) => SaveItems(t, ItemRows(d.items, vs, s.nextInvoiceId, s, now), now)
  }

  /** Save the items once they are built; a lookup that found nothing
      stops the run with the invoices already saved. */
  function SaveItems(t: Store, its: Option<seq<InvoiceItem>>, now: Time): (r: SeedRun)
    ensures its.None? ==> r == SeedRun(t, Some(NoMatchingElement))
    ensures r.failure.None? ==> its.Some?
  {
    match its
    case None => SeedRun(t, Some(NoMatchingElement))
    case Some(rows) =>
      match Save(t, AddedItems(rows), now)
      case Failure(e) => SeedRun(t, Some(StoreError(e)))
      case Success(u) => SeedRun(u, None)
  }

  /** `SeedAsync` with the given rows: users, then products, then invoices;
      an exception ends the run. The closing save has nothing to write. */
  function SeedWith(s: Store, d: SeedData, now: Time): (r: SeedRun)
    ensures s.users != map[] && s.products != map[] && s.invoices != map[] ==> r == SeedRun(s, None)
  {
    var r1 := SeedUsers(s, d.users, now);
    if r1.failure.Some? then r1
    else
      var r2 := SeedProducts(r1.store, d.products, now);
      if r2.failure.Some? then r2
      else
        var r3 := SeedInvoices(r2.store, d, now);
        if r3.failure.Some? then r3
        else
          match Save(r3.store, [], now)
          case Failure(e) => SeedRun(r3.store, Some(StoreError(e)))
          case Success(t) => SeedRun(t, None)
  }

  // ---------------------------------------------------------------------
  // The steps on a valid store

  /** Seeding users into a valid store never fails: either users exist and
      nothing changes, or the users are appended under fresh keys and no
      other table changes. */
  lemma SeedUsersOnValid(s: Store, d: SeedData, now: Time)
    requires Valid(s) && ConsistentSeed(d)
    ensures var r := SeedUsers(s, d.users, now);
            && r.failure == None
            && Valid(r.store)
            && r.store.users != map[]
            && r.store == s.(users := r.store.users, nextUserId := r.store.nextUserId)
            && (s.users == map[] ==>
                  && r.store.nextUserId == s.nextUserId + |d.users|
                  && AppendedRows(s.users, r.store.users, s.nextUserId, d.users))
  {
    if s.users == map[] {
      SaveInsertsIsApplyAll(s, AddedUsers(d.users), now);
      AddUsersSucceeds(s, d.users);
      var t := ApplyAll(s, AddedUsers(d.users)).value;
      assert s.nextUserId in t.users;
    }
  }

  /** Seeding products into a valid store never fails either. */
  lemma SeedProductsOnValid(s: Store, d: SeedData, now: Time)
    requires Valid(s) && ConsistentSeed(d)
    ensures var r := SeedProducts(s, d.products, now);
            && r.failure == None
            && Valid(r.store)
            && r.store.products != map[]
            && r.store == s.(products := r.store.products, nextProductId := r.store.nextProductId)
            && (s.products == map[] ==>
                  && r.store.nextProductId == s.nextProductId + |d.products|
                  && AppendedRows(s.products, r.store.products, s.nextProductId, d.products))
  {
    if s.products == map[] {
      SaveInsertsIsApplyAll(s, AddedProducts(d.products), now);
      AddProductsSucceeds(s, d.products);
      var t := ApplyAll(s, AddedProducts(d.products)).value;
      assert s.nextProductId in t.products;
    }
  }

  /** The item rows built against the products of `s`, for invoices `vs`
      saved from `s`'s next invoice key on, save without error; when a
      lookup found nothing, no item is saved. */
  lemma SaveItemsOnValid(s: Store, t: Store, vs: seq<Invoice>, seeds: seq<ItemSeed>, now: Time)
    requires Valid(t) && t.products == s.products
    requires RowsFrom(t.invoices, s.nextInvoiceId, vs)
    ensures var its := ItemRows(seeds, vs, s.nextInvoiceId, s, now);
            var r := SaveItems(t, its, now);
            && Valid(r.store)
            && r.store == t.(items := r.store.items, nextItemId := r.store.nextItemId)
            && (r.failure.None? <==> its.Some?)
            && (r.failure.Some? ==> r == SeedRun(t, Some(NoMatchingElement)))
            && (r.failure.None? ==> AppendedRows(t.items, r.store.items, t.nextItemId, its.value))
  {
    var its := ItemRows(seeds, vs, s.nextInvoiceId, s, now);
    if its.Some? {
      var rows := its.value;
      forall i | 0 <= i < |rows|
        ensures rows[i].invoiceId in t.invoices && rows[i].productId in t.products
      {
        assert BuiltFrom(rows[i], seeds[i], vs, s.nextInvoiceId, s, now);
      }
      SaveInsertsIsApplyAll(t, AddedItems(rows), now);
      AddItemsSucceeds(t, rows);
    }
  }

  /** With both creators present, the invoices are saved under fresh keys;
      the items follow exactly when every lookup they need succeeds, and
      otherwise the run stops with the invoices saved and no item. */
  lemma SaveInvoicesAndItemsOnValid(s: Store, d: SeedData, admin: Id, manager: Id, now: Time)
    requires Valid(s) && ConsistentSeed(d) && s.invoices == map[]
    requires admin in s.users && manager in s.users
    ensures var vs := InvoiceRows(d.invoices, admin, manager);
            var its := ItemRows(d.items, vs, s.nextInvoiceId, s, now);
            var r := SaveInvoicesAndItems(s, d, admin, manager, now);
            && Valid(r.store)
            && r.store == s.(invoices := r.store.invoices, nextInvoiceId := r.store.nextInvoiceId,
                             items := r.store.items, nextItemId := r.store.nextItemId)
            && r.store.nextInvoiceId == s.nextInvoiceId + |vs|
            && AppendedRows(s.invoices, r.store.invoices, s.nextInvoiceId, vs)
            && (r.failure.None? <==> its.Some?)
            && (r.failure.Some? ==> r.failure == Some(NoMatchingElement) && r.store.items == s.items)
            && (r.failure.None? ==> AppendedRows(s.items, r.store.items, s.nextItemId, its.value))
  {
    var vs := InvoiceRows(d.invoices, admin, manager);
    assert forall i, j | 0 <= i < j < |vs| :: vs[i].invoiceNumber != vs[j].invoiceNumber;
    assert forall i | 0 <= i < |vs| :: vs[i].createdByUserId in s.users;
    SaveInsertsIsApplyAll(s, AddedInvoices(vs), now);
    AddInvoicesSucceeds(s, vs);
    var t := ApplyAll(s, AddedInvoices(vs)).value;
    SaveItemsOnValid(s, t, vs, d.items, now);
  }

  /** Seeding invoices into a valid store fails only at a lookup, keeps the
      users and products, and leaves the invoice table empty only when it
      changed nothing because the Admin or the Manager is missing. */
  lemma SeedInvoicesOnValid(s: Store, d: SeedData, now: Time)
    requires Valid(s) && ConsistentSeed(d)
    ensures var r := SeedInvoices(s, d, now);
            && Valid(r.store)
            && r.store.users == s.users && r.store.products == s.products
            && (r.failure == None || r.failure == Some(NoMatchingElement))
            && (s.invoices == map[] && s.users != map[] && s.products != map[] && r.store.invoices == map[] ==>
                  && r.store == s
                  && (FirstUserWithRole(s, Admin).None? || FirstUserWithRole(s, Manager).None?))
  {
    if s.invoices == map[] && s.users != map[] && s.products != map[]
       && FirstUserWithRole(s, Admin).Some? && FirstUserWithRole(s, Manager).Some? {
      var admin, manager := FirstUserWithRole(s, Admin).value, FirstUserWithRole(s, Manager).value;
      SaveInvoicesAndItemsOnValid(s, d, admin, manager, now);
      assert s.nextInvoiceId in SaveInvoicesAndItems(s, d, admin, manager, now).store.invoices;
    }
  }

  /** A whole run on a valid store keeps it valid, fails only at a lookup,
      and leaves users and products behind. */
  lemma SeedWithOnValid(s: Store, d: SeedData, now: Time)
    requires Valid(s) && ConsistentSeed(d)
    ensures var r := SeedWith(s, d, now);
            && Valid(r.store)
            && (r.failure == None || r.failure == Some(NoMatchingElement))
            && r.store.users != map[] && r.store.products != map[]
  {
    SeedUsersOnValid(s, d, now);
    var r1 := SeedUsers(s, d.users, now);
    SeedProductsOnValid(r1.store, d, now);
    var r2 := SeedProducts(r1.store, d.products, now);
    SeedInvoicesOnValid(r2.store, d, now);
  }

  /** Seeding is idempotent: a second run, with any seed data and any clock,
      leaves the store as the first run left it. */
  lemma {:induction false} SeedWithIdempotent(s: Store, d: SeedData, now: Time, d2: SeedData, later: Time)
    requires Valid(s) && ConsistentSeed(d)
    ensures SeedWith(SeedWith(s, d, now).store, d2, later).store == SeedWith(s, d, now).store
  {
    SeedUsersOnValid(s, d, now);
    var r1 := SeedUsers(s, d.users, now);
    SeedProductsOnValid(r1.store, d, now);
    var r2 := SeedProducts(r1.store, d.products, now);
    SeedInvoicesOnValid(r2.store, d, now);
    var r3 := SeedInvoices(r2.store, d, now);
    var t := SeedWith(s, d, now).store;
    assert t == r3.store;
    assert SeedUsers(t, d2.users, later) == SeedRun(t, None);
    assert SeedProducts(t, d2.products, later) == SeedRun(t, None);
    if t.invoices == map[] {
      assert t == r2.store;
    }
  }

  /** A store holding self-contained seed data's users from key 1 on has
      an Admin and a Manager. */
  lemma SeededCreatorsFound(s: Store, d: SeedData)
    requires Valid(s) && SelfContainedSeed(d)
    requires AppendedRows(map[], s.users, 1, d.users)
    ensures FirstUserWithRole(s, Admin).Some? && FirstUserWithRole(s, Manager).Some?
  {
    assert HasRole(d.users, Admin) && HasRole(d.users, Manager);
    var ia :| 0 <= ia < |d.users| && d.users[ia].role == Admin;
    var im :| 0 <= im < |d.users| && d.users[im].role == Manager;
    assert 1 + ia in s.users && s.users[1 + ia] == d.users[ia];
    assert 1 + im in s.users && s.users[1 + im] == d.users[im];
  }

  /** A store holding self-contained seed data's products from key 1 on
      satisfies every lookup the seeded items need. */
  lemma SeededItemsFound(s: Store, d: SeedData, admin: Id, manager: Id, firstInvoice: Id, now: Time)
    requires Valid(s) && SelfContainedSeed(d)
    requires AppendedRows(map[], s.products, 1, d.products)
    ensures ItemRows(d.items, InvoiceRows(d.invoices, admin, manager), firstInvoice, s, now).Some?
  {
    var vs := InvoiceRows(d.invoices, admin, manager);
    assert ItemsNameInvoices(d.items, d.invoices) && ItemsNameProducts(d.items, d.products);
    forall i | 0 <= i < |d.items|
      ensures SeedFound(d.items[i], vs, s)
    {
      var j :| 0 <= j < |d.invoices| && d.invoices[j].invoice.invoiceNumber == d.items[i].invoiceNumber;
      assert vs[j].invoiceNumber == d.items[i].invoiceNumber;
      var k :| 0 <= k < |d.products| && d.products[k].sku == d.items[i].sku;
      assert 1 + k in s.products && s.products[1 + k] == d.products[k];
    }
  }

  /** On an empty store, seed data that is consistent and self-contained
      seeds every table without error: users, products, invoices and items
      sit under keys 1, 2, ... in list order, and the invoices name the
      first Admin and the first Manager as their creators. */
  lemma SeedWithOnEmpty(d: SeedData, now: Time)
    requires ConsistentSeed(d) && SelfContainedSeed(d)
    ensures var r := SeedWith(Empty, d, now);
            var t := r.store;
            var admin, manager := FirstUserWithRole(t, Admin), FirstUserWithRole(t, Manager);
            && r.failure == None
            && Valid(t)
            && AppendedRows(map[], t.users, 1, d.users)
            && AppendedRows(map[], t.products, 1, d.products)
            && admin.Some? && manager.Some?
            && AppendedRows(map[], t.invoices, 1, InvoiceRows(d.invoices, admin.value, manager.value))
            && var its := ItemRows(d.items, InvoiceRows(d.invoices, admin.value, manager.value), 1, t, now);
               its.Some? && AppendedRows(map[], t.items, 1, its.value)
  {
    EmptyIsValid();
    SeedUsersOnValid(Empty, d, now);
    var s1 := SeedUsers(Empty, d.users, now).store;
    SeedProductsOnValid(s1, d, now);
    var s2 := SeedProducts(s1, d.products, now).store;
    assert s2 == Empty.(users := s1.users, nextUserId := s1.nextUserId,
                        products := s2.products, nextProductId := s2.nextProductId);
    SeededCreatorsFound(s2, d);
    var admin, manager := FirstUserWithRole(s2, Admin), FirstUserWithRole(s2, Manager);
    SeededItemsFound(s2, d, admin.value, manager.value, 1, now);
    SaveInvoicesAndItemsOnValid(s2, d, admin.value, manager.value, now);
    var t := SaveInvoicesAndItems(s2, d, admin.value, manager.value, now).store;
    assert SeedWith(Empty, d, now) == SeedRun(t, None);
    assert FirstUserWithRole(t, Admin) == admin && FirstUserWithRole(t, Manager) == manager;
    var vs := InvoiceRows(d.invoices, admin.value, manager.value);
    ItemRowsReadOnlyProducts(d.items, vs, 1, s2, t, now);
  }

  /** When users exist but none is an Admin and no invoice exists yet, the
      run stops at the Admin lookup: no invoice is written and the users are
      left as they were. */
  lemma SeedWithoutAdminFails(s: Store, d: SeedData, now: Time)
    requires Valid(s) && ConsistentSeed(d)
    requires s.users != map[] && s.invoices == map[]
    requires forall k | k in s.users :: s.users[k].role != Admin
    ensures var r := SeedWith(s, d, now);
            && r.failure == Some(NoMatchingElement)
            && r.store.invoices == map[]
            && r.store.users == s.users
  {
    SeedProductsOnValid(s, d, now);
    var s2 := SeedProducts(s, d.products, now).store;
    assert FirstUserWithRole(s2, Admin).None?;
  }
}
