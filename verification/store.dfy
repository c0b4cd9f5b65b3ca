/** The relational store behind the database context: four tables keyed by
    surrogate id, the unique indexes, the required foreign keys with their
    restrict/cascade delete rules, and the pre-save hook that stamps
    `UpdatedAt` on modified rows.

    Every write returns either the new store or the error that rejected it;
    a rejected write yields no store, so the caller keeps the one it had. */
module DbContext {
  import opened Wrappers
  import opened Scalars
  import opened Users
  import opened Products
  import opened Invoices
  import opened InvoiceItems

  datatype Store = Store(
    users: map<Id, User>,
    products: map<Id, Product>,
    invoices: map<Id, Invoice>,
    items: map<Id, InvoiceItem>,
    // the next key each table hands out; keys are never reused
    nextUserId: Id,
    nextProductId: Id,
    nextInvoiceId: Id,
    nextItemId: Id)

  const Empty: Store := Store(map[], map[], map[], map[], 1, 1, 1, 1)

  datatype EntityKind = UserKind | ProductKind | InvoiceKind | ItemKind

  /** The write-time rules a row can break. */
  datatype Constraint =
    | UniqueUsername            // IX_Users_Username
    | UniqueEmail               // IX_Users_Email
    | UniqueSku                 // IX_Products_SKU
    | UniqueInvoiceNumber       // IX_Invoices_InvoiceNumber
    | InvoiceCreatorExists      // Invoice.CreatedByUserId -> Users
    | ItemInvoiceExists         // InvoiceItem.InvoiceId -> Invoices
    | ItemProductExists         // InvoiceItem.ProductId -> Products

  /** The restrict-on-delete relationships. */
  datatype Relationship = InvoicesOfUser | ItemsOfProduct

  datatype DbError =
    | ConstraintViolation(constraint: Constraint)
    | ReferentialBlock(relationship: Relationship)
    | NotFound(kind: EntityKind, id: Id)

  // ---------------------------------------------------------------------
  // Well-formedness

  /** Every key is positive and below the next one to be handed out. */
  predicate KeysBelow<T>(m: map<Id, T>, next: Id) {
    0 < next && forall k | k in m :: 0 < k < next
  }

  predicate UniqueUsernames(users: map<Id, User>) {
    forall a, b | a in users && b in users && a != b :: users[a].username != users[b].username
  }

  predicate UniqueEmails(users: map<Id, User>) {
    forall a, b | a in users && b in users && a != b :: users[a].email != users[b].email
  }

  predicate UniqueSkus(products: map<Id, Product>) {
    forall a, b | a in products && b in products && a != b :: products[a].sku != products[b].sku
  }

  predicate UniqueInvoiceNumbers(invoices: map<Id, Invoice>) {
    forall a, b | a in invoices && b in invoices && a != b ::
      invoices[a].invoiceNumber != invoices[b].invoiceNumber
  }

  predicate CreatorsExist(s: Store) {
    forall k | k in s.invoices :: s.invoices[k].createdByUserId in s.users
  }

  predicate ItemReferencesExist(s: Store) {
    forall k | k in s.items :: s.items[k].invoiceId in s.invoices && s.items[k].productId in s.products
  }

  /** The store invariant: fresh keys are fresh, the four unique indexes
      hold, and every required foreign key points at an existing row. */
  predicate Valid(s: Store) {
    && KeysBelow(s.users, s.nextUserId)
    && KeysBelow(s.products, s.nextProductId)
    && KeysBelow(s.invoices, s.nextInvoiceId)
    && KeysBelow(s.items, s.nextItemId)
    && UniqueUsernames(s.users)
    && UniqueEmails(s.users)
    && UniqueSkus(s.products)
    && UniqueInvoiceNumbers(s.invoices)
    && CreatorsExist(s)
    && ItemReferencesExist(s)
  }

  lemma EmptyIsValid()
    ensures Valid(Empty)
  {
  }

  // ---------------------------------------------------------------------
  // How a table changes

  /** `m'` is `m` with `row` added under the fresh key `key`. */
  predicate Inserted<T(==)>(m: map<Id, T>, m': map<Id, T>, key: Id, row: T) {
    && key !in m
    && m'.Keys == m.Keys + {key}
    && m'[key] == row
    && forall j | j in m :: m'[j] == m[j]
  }

  /** `m'` is `m` with the row under `key` replaced by `row`. */
  predicate Replaced<T(==)>(m: map<Id, T>, m': map<Id, T>, key: Id, row: T) {
    && key in m
    && m'.Keys == m.Keys
    && m'[key] == row
    && forall j | j in m && j != key :: m'[j] == m[j]
  }

  /** `m'` is `m` without the rows under `keys`. */
  predicate Removed<T(==)>(m: map<Id, T>, m': map<Id, T>, keys: set<Id>) {
    && m'.Keys == m.Keys - keys
    && forall j | j in m' :: m'[j] == m[j]
  }

  // ---------------------------------------------------------------------
  // Lookups the rules need

  /** Some user other than `except` already has this username. */
  predicate UsernameTaken(users: map<Id, User>, name: string, except: Option<Id>) {
    exists k | k in users && Some(k) != except :: users[k].username == name
  }

  predicate EmailTaken(users: map<Id, User>, email: string, except: Option<Id>) {
    exists k | k in users && Some(k) != except :: users[k].email == email
  }

  predicate SkuTaken(products: map<Id, Product>, sku: string, except: Option<Id>) {
    exists k | k in products && Some(k) != except :: products[k].sku == sku
  }

  predicate InvoiceNumberTaken(invoices: map<Id, Invoice>, number: string, except: Option<Id>) {
    exists k | k in invoices && Some(k) != except :: invoices[k].invoiceNumber == number
  }

  /** Some invoice names this user as its creator. */
  predicate HasInvoices(s: Store, userId: Id) {
    exists k | k in s.invoices :: s.invoices[k].createdByUserId == userId
  }

  /** Some invoice item references this product. */
  predicate HasItems(s: Store, productId: Id) {
    exists k | k in s.items :: s.items[k].productId == productId
  }

  /** The keys of the items that belong to an invoice: its `InvoiceItems`
      navigation collection. */
  function ItemsOf(s: Store, invoiceId: Id): (r: set<Id>)
    ensures r <= s.items.Keys
    ensures forall k | k in s.items :: k in r <==> s.items[k].invoiceId == invoiceId
  {
    set k | k in s.items && s.items[k].invoiceId == invoiceId
  }

  /** `Invoice.ItemCount`: how many items the invoice owns. */
  function ItemCount(s: Store, invoiceId: Id): (n: nat)
    ensures n <= |s.items|
    ensures n == 0 <==> forall k | k in s.items :: s.items[k].invoiceId != invoiceId
  {
    var owned := ItemsOf(s, invoiceId);
    SubsetCardinality(owned, s.items.Keys);
    |owned|
  }

  /** In a valid store the invoices partition the items: every item belongs
      to an existing invoice, no item to two, and an invoice that does not
      exist owns nothing. */
  lemma ItemsOfPartition(s: Store, v: Id, w: Id)
    requires Valid(s)
    ensures forall k | k in s.items :: s.items[k].invoiceId in s.invoices && k in ItemsOf(s, s.items[k].invoiceId)
    ensures v != w ==> ItemsOf(s, v) !! ItemsOf(s, w)
    ensures v !in s.invoices ==> ItemsOf(s, v) == {}
  {
  }

  lemma {:induction false} SubsetCardinality<T>(a: set<T>, b: set<T>)
    requires a <= b
    ensures |a| <= |b|
  {
    if a != {} {
      var x :| x in a;
      SubsetCardinality(a - {x}, b - {x});
    }
  }

  // ---------------------------------------------------------------------
  // Users

  function InsertUser(s: Store, u: User): (r: Result<Store, DbError>)
    ensures r.Failure? <==> UsernameTaken(s.users, u.username, None) || EmailTaken(s.users, u.email, None)
    ensures UsernameTaken(s.users, u.username, None) ==> r == Failure(ConstraintViolation(UniqueUsername))
    ensures r.Failure? ==> r.error.ConstraintViolation?
    ensures r.Success? ==> r.value == s.(users := r.value.users, nextUserId := s.nextUserId + 1)
    ensures Valid(s) && r.Success? ==> Valid(r.value) && Inserted(s.users, r.value.users, s.nextUserId, u)
  {
    if UsernameTaken(s.users, u.username, None) then Failure(ConstraintViolation(UniqueUsername))
    else if EmailTaken(s.users, u.email, None) then Failure(ConstraintViolation(UniqueEmail))
    else Success(s.(users := s.users[s.nextUserId := u], nextUserId := s.nextUserId + 1))
  }

  function UpdateUser(s: Store, id: Id, u: User): (r: Result<Store, DbError>)
    ensures r.Failure? <==>
              id !in s.users || UsernameTaken(s.users, u.username, Some(id)) || EmailTaken(s.users, u.email, Some(id))
    ensures id !in s.users ==> r == Failure(NotFound(UserKind, id))
    ensures r.Success? ==> r.value == s.(users := r.value.users) && Replaced(s.users, r.value.users, id, u)
    ensures Valid(s) && r.Success? ==> Valid(r.value)
  {
    if id !in s.users then Failure(NotFound(UserKind, id))
    else if UsernameTaken(s.users, u.username, Some(id)) then Failure(ConstraintViolation(UniqueUsername))
    else if EmailTaken(s.users, u.email, Some(id)) then Failure(ConstraintViolation(UniqueEmail))
    else Success(s.(users := s.users[id := u]))
  }

  /** Restrict: a user who created an invoice cannot be deleted. */
  function DeleteUser(s: Store, id: Id): (r: Result<Store, DbError>)
    ensures r.Failure? <==> id !in s.users || HasInvoices(s, id)
    ensures id in s.users && HasInvoices(s, id) ==> r == Failure(ReferentialBlock(InvoicesOfUser))
    ensures r.Success? ==> r.value == s.(users := r.value.users) && Removed(s.users, r.value.users, {id})
    ensures Valid(s) && r.Success? ==> Valid(r.value)
  {
    if id !in s.users then Failure(NotFound(UserKind, id))
    else if HasInvoices(s, id) then Failure(ReferentialBlock(InvoicesOfUser))
    else Success(s.(users := s.users - {id}))
  }

  // ---------------------------------------------------------------------
  // Products

  function InsertProduct(s: Store, p: Product): (r: Result<Store, DbError>)
    ensures r.Failure? <==> SkuTaken(s.products, p.sku, None)
    ensures r.Failure? ==> r.error == ConstraintViolation(UniqueSku)
    ensures r.Success? ==> r.value == s.(products := r.value.products, nextProductId := s.nextProductId + 1)
    ensures Valid(s) && r.Success? ==> Valid(r.value) && Inserted(s.products, r.value.products, s.nextProductId, p)
  {
    if SkuTaken(s.products, p.sku, None) then Failure(ConstraintViolation(UniqueSku))
    else Success(s.(products := s.products[s.nextProductId := p], nextProductId := s.nextProductId + 1))
  }

  function UpdateProduct(s: Store, id: Id, p: Product): (r: Result<Store, DbError>)
    ensures r.Failure? <==> id !in s.products || SkuTaken(s.products, p.sku, Some(id))
    ensures id !in s.products ==> r == Failure(NotFound(ProductKind, id))
    ensures r.Success? ==> r.value == s.(products := r.value.products) && Replaced(s.products, r.value.products, id, p)
    ensures Valid(s) && r.Success? ==> Valid(r.value)
  {
    if id !in s.products then Failure(NotFound(ProductKind, id))
    else if SkuTaken(s.products, p.sku, Some(id)) then Failure(ConstraintViolation(UniqueSku))
    else Success(s.(products := s.products[id := p]))
  }

  /** Restrict: a product some invoice item references cannot be deleted. */
  function DeleteProduct(s: Store, id: Id): (r: Result<Store, DbError>)
    ensures r.Failure? <==> id !in s.products || HasItems(s, id)
    ensures id in s.products && HasItems(s, id) ==> r == Failure(ReferentialBlock(ItemsOfProduct))
    ensures r.Success? ==> r.value == s.(products := r.value.products) && Removed(s.products, r.value.products, {id})
    ensures Valid(s) && r.Success? ==> Valid(r.value)
  {
    if id !in s.products then Failure(NotFound(ProductKind, id))
    else if HasItems(s, id) then Failure(ReferentialBlock(ItemsOfProduct))
    else Success(s.(products := s.products - {id}))
  }

  // ---------------------------------------------------------------------
  // Invoices

  function InsertInvoice(s: Store, v: Invoice): (r: Result<Store, DbError>)
    ensures r.Failure? <==> InvoiceNumberTaken(s.invoices, v.invoiceNumber, None) || v.createdByUserId !in s.users
    ensures InvoiceNumberTaken(s.invoices, v.invoiceNumber, None) ==> r == Failure(ConstraintViolation(UniqueInvoiceNumber))
    ensures r.Failure? ==> r.error.ConstraintViolation?
    ensures r.Success? ==> r.value == s.(invoices := r.value.invoices, nextInvoiceId := s.nextInvoiceId + 1)
    ensures Valid(s) && r.Success? ==> Valid(r.value) && Inserted(s.invoices, r.value.invoices, s.nextInvoiceId, v)
  {
    if InvoiceNumberTaken(s.invoices, v.invoiceNumber, None) then Failure(ConstraintViolation(UniqueInvoiceNumber))
    else if v.createdByUserId !in s.users then Failure(ConstraintViolation(InvoiceCreatorExists))
    else Success(s.(invoices := s.invoices[s.nextInvoiceId := v], nextInvoiceId := s.nextInvoiceId + 1))
  }

  function UpdateInvoice(s: Store, id: Id, v: Invoice): (r: Result<Store, DbError>)
    ensures r.Failure? <==>
              id !in s.invoices || InvoiceNumberTaken(s.invoices, v.invoiceNumber, Some(id)) || v.createdByUserId !in s.users
    ensures id !in s.invoices ==> r == Failure(NotFound(InvoiceKind, id))
    ensures r.Success? ==> r.value == s.(invoices := r.value.invoices) && Replaced(s.invoices, r.value.invoices, id, v)
    ensures Valid(s) && r.Success? ==> Valid(r.value)
  {
    if id !in s.invoices then Failure(NotFound(InvoiceKind, id))
    else if InvoiceNumberTaken(s.invoices, v.invoiceNumber, Some(id)) then Failure(ConstraintViolation(UniqueInvoiceNumber))
    else if v.createdByUserId !in s.users then Failure(ConstraintViolation(InvoiceCreatorExists))
    else Success(s.(invoices := s.invoices[id := v]))
  }

  /** Cascade: deleting an invoice deletes exactly the items it owns. */
  function DeleteInvoice(s: Store, id: Id): (r: Result<Store, DbError>)
    ensures r.Failure? <==> id !in s.invoices
    ensures r.Failure? ==> r.error == NotFound(InvoiceKind, id)
    ensures r.Success? ==> r.value == s.(invoices := r.value.invoices, items := r.value.items)
    ensures r.Success? ==> Removed(s.invoices, r.value.invoices, {id})
    ensures r.Success? ==> Removed(s.items, r.value.items, ItemsOf(s, id))
    ensures Valid(s) && r.Success? ==> Valid(r.value)
  {
    if id !in s.invoices then Failure(NotFound(InvoiceKind, id))
    else
      var kept := map k | k in s.items && s.items[k].invoiceId != id :: s.items[k];
      Success(s.(invoices := s.invoices - {id}, items := kept))
  }

  // ---------------------------------------------------------------------
  // Invoice items

  function InsertItem(s: Store, it: InvoiceItem): (r: Result<Store, DbError>)
    ensures r.Failure? <==> it.invoiceId !in s.invoices || it.productId !in s.products
    ensures it.invoiceId !in s.invoices ==> r == Failure(ConstraintViolation(ItemInvoiceExists))
    ensures it.invoiceId in s.invoices && it.productId !in s.products
            ==> r == Failure(ConstraintViolation(ItemProductExists))
    ensures r.Success? ==> r.value == s.(items := r.value.items, nextItemId := s.nextItemId + 1)
    ensures Valid(s) && r.Success? ==> Valid(r.value) && Inserted(s.items, r.value.items, s.nextItemId, it)
  {
    if it.invoiceId !in s.invoices then Failure(ConstraintViolation(ItemInvoiceExists))
    else if it.productId !in s.products then Failure(ConstraintViolation(ItemProductExists))
    else Success(s.(items := s.items[s.nextItemId := it], nextItemId := s.nextItemId + 1))
  }

  function UpdateItem(s: Store, id: Id, it: InvoiceItem): (r: Result<Store, DbError>)
    ensures r.Failure? <==> id !in s.items || it.invoiceId !in s.invoices || it.productId !in s.products
    ensures id !in s.items ==> r == Failure(NotFound(ItemKind, id))
    ensures r.Success? ==> r.value == s.(items := r.value.items) && Replaced(s.items, r.value.items, id, it)
    ensures Valid(s) && r.Success? ==> Valid(r.value)
  {
    if id !in s.items then Failure(NotFound(ItemKind, id))
    else if it.invoiceId !in s.invoices then Failure(ConstraintViolation(ItemInvoiceExists))
    else if it.productId !in s.products then Failure(ConstraintViolation(ItemProductExists))
    else Success(s.(items := s.items[id := it]))
  }

  function DeleteItem(s: Store, id: Id): (r: Result<Store, DbError>)
    ensures r.Failure? <==> id !in s.items
    ensures r.Success? ==> r.value == s.(items := r.value.items) && Removed(s.items, r.value.items, {id})
    ensures Valid(s) && r.Success? ==> Valid(r.value)
  {
    if id !in s.items then Failure(NotFound(ItemKind, id))
    else Success(s.(items := s.items - {id}))
  }

  // ---------------------------------------------------------------------
  // Item counts under the writes that change them

  /** Adding an item raises its invoice's count by one and no other. */
  lemma {:induction false} InsertItemCounts(s: Store, it: InvoiceItem, invoiceId: Id)
    requires Valid(s) && InsertItem(s, it).Success?
    ensures var t := InsertItem(s, it).value;
            ItemCount(t, invoiceId) == ItemCount(s, invoiceId) + (if invoiceId == it.invoiceId then 1 else 0)
  {
    var n := s.nextItemId;
    assert n !in s.items;
    assert InsertItem(s, it).value.items == s.items[n := it];
    OwnedAfterAdd(s, InsertItem(s, it).value, n, it, invoiceId);
  }

  lemma OwnedAfterAdd(s: Store, t: Store, n: Id, it: InvoiceItem, invoiceId: Id)
    requires n !in s.items && t.items == s.items[n := it]
    ensures ItemsOf(t, invoiceId) == ItemsOf(s, invoiceId) + (if invoiceId == it.invoiceId then {n} else {})
    ensures ItemCount(t, invoiceId) == ItemCount(s, invoiceId) + (if invoiceId == it.invoiceId then 1 else 0)
  {
    var before, after := ItemsOf(s, invoiceId), ItemsOf(t, invoiceId);
    var added: set<Id> := if invoiceId == it.invoiceId then {n} else {};
    forall k | k in t.items
      ensures k in after <==> k in before + added
    {
      if k != n { assert k in s.items && t.items[k] == s.items[k]; }
    }
    assert after == before + added;
    assert n !in before;
  }

  /** After the cascade the deleted invoice owns nothing, and every other
      invoice keeps all its items. */
  lemma {:induction false} DeleteInvoiceCounts(s: Store, id: Id, other: Id)
    requires DeleteInvoice(s, id).Success? && other != id
    ensures ItemCount(DeleteInvoice(s, id).value, id) == 0
    ensures ItemCount(DeleteInvoice(s, id).value, other) == ItemCount(s, other)
  {
    var t := DeleteInvoice(s, id).value;
    assert ItemsOf(t, other) == ItemsOf(s, other);
  }

  // ---------------------------------------------------------------------
  // Change sets and SaveChanges

  /** A tracked row as handed to a save. */
  datatype Row =
    | UserRow(user: User)
    | ProductRow(product: Product)
    | InvoiceRow(invoice: Invoice)
    | ItemRow(item: InvoiceItem)

  /** A change-tracker entry: a row to add, a keyed row to write back, or a
      key to delete. */
  datatype Entry =
    | Added(row: Row)
    | Modified(id: Id, row: Row)
    | Deleted(kind: EntityKind, id: Id)

  function KindOf(row: Row): EntityKind {
    match row
    case UserRow(_) => UserKind
    case ProductRow(_) => ProductKind
    case InvoiceRow(_) => InvoiceKind
    case ItemRow(_) => ItemKind
  }

  function CreatedAtOf(row: Row): Time {
    match row
    case UserRow(u) => u.createdAt
    case ProductRow(p) => p.createdAt
    case InvoiceRow(v) => v.createdAt
    case ItemRow(it) => it.createdAt
  }

  /** Items have no `UpdatedAt` column. */
  function UpdatedAtOf(row: Row): Option<Time> {
    match row
    case UserRow(u) => u.updatedAt
    case ProductRow(p) => p.updatedAt
    case InvoiceRow(v) => v.updatedAt
    case ItemRow(_) => None
  }

  /** The row with its `UpdatedAt` column blanked: what a stamp must leave
      alone. */
  function WithoutUpdatedAt(row: Row): Row {
    match row
    case UserRow(u) => UserRow(u.(updatedAt := None))
    case ProductRow(p) => ProductRow(p.(updatedAt := None))
    case InvoiceRow(v) => InvoiceRow(v.(updatedAt := None))
    case ItemRow(_) => row
  }

  /** The entries the hook stamps: modified users, products and invoices. */
  predicate Stamped(e: Entry) {
    e.Modified? && !e.row.ItemRow?
  }

  function Stamp(e: Entry, now: Time): Entry {
    match e
    case Modified(id, UserRow(u)) => Modified(id, UserRow(u.(updatedAt := Some(now))))
    case Modified(id, ProductRow(p)) => Modified(id, ProductRow(p.(updatedAt := Some(now))))
    case Modified(id, InvoiceRow(v)) => Modified(id, InvoiceRow(v.(updatedAt := Some(now))))
    case _ => e
  }

  /** The pre-save hook: every modified user, product and invoice gets
      `UpdatedAt := now`; nothing else in any entry changes. */
  function UpdateTimestamps(es: seq<Entry>, now: Time): (r: seq<Entry>)
    ensures |r| == |es|
    ensures forall i | 0 <= i < |es| :: !Stamped(es[i]) ==> r[i] == es[i]
    ensures forall i | 0 <= i < |es| :: Stamped(es[i]) ==>
              && r[i].Modified? && r[i].id == es[i].id && KindOf(r[i].row) == KindOf(es[i].row)
              && UpdatedAtOf(r[i].row) == Some(now)
              && CreatedAtOf(r[i].row) == CreatedAtOf(es[i].row)
              && WithoutUpdatedAt(r[i].row) == WithoutUpdatedAt(es[i].row)
  {
    if es == [] then [] else [Stamp(es[0], now)] + UpdateTimestamps(es[1..], now)
  }

  /** A change set without modified rows passes through the hook as is. */
  lemma NoModifiedNoStamps(es: seq<Entry>, now: Time)
    requires forall i | 0 <= i < |es| :: !es[i].Modified?
    ensures UpdateTimestamps(es, now) == es
  {
  }

  function Apply(s: Store, e: Entry): (r: Result<Store, DbError>)
    ensures Valid(s) && r.Success? ==> Valid(r.value)
  {
    match e
    case Added(UserRow(u)) => InsertUser(s, u)
    case Added(ProductRow(p)) => InsertProduct(s, p)
    case Added(InvoiceRow(v)) => InsertInvoice(s, v)
    case Added(ItemRow(it)) => InsertItem(s, it)
    case Modified(id, UserRow(u)) => UpdateUser(s, id, u)
    case Modified(id, ProductRow(p)) => UpdateProduct(s, id, p)
    case Modified(id, InvoiceRow(v)) => UpdateInvoice(s, id, v)
    case Modified(id, ItemRow(it)) => UpdateItem(s, id, it)
    case Deleted(UserKind, id) => DeleteUser(s, id)
    case Deleted(ProductKind, id) => DeleteProduct(s, id)
    case Deleted(InvoiceKind, id) => DeleteInvoice(s, id)
    case Deleted(ItemKind, id) => DeleteItem(s, id)
  }

  /** Apply the entries in order inside one transaction: the first failure
      rolls the whole change set back. */
  function ApplyAll(s: Store, es: seq<Entry>): (r: Result<Store, DbError>)
    ensures Valid(s) && r.Success? ==> Valid(r.value)
    decreases |es|
  {
    if es == [] then Success(s)
    else
      match Apply(s, es[0])
      case Failure(e) => Failure(e)
      case Success(t) => ApplyAll(t, es[1..])
  }

  /** `SaveChanges`: run the timestamp hook, then commit the change set. */
  function Save(s: Store, es: seq<Entry>, now: Time): (r: Result<Store, DbError>)
    ensures Valid(s) && r.Success? ==> Valid(r.value)
  {
    ApplyAll(s, UpdateTimestamps(es, now))
  }

  /** Committing `a + b` is committing `a`, then `b` on the result. */
  lemma {:induction false} ApplyAllAppend(s: Store, a: seq<Entry>, b: seq<Entry>)
    ensures ApplyAll(s, a + b) == (if ApplyAll(s, a).Failure? then ApplyAll(s, a) else ApplyAll(ApplyAll(s, a).value, b))
    decreases |a|
  {
    if a == [] {
      assert a + b == b;
    } else {
      assert (a + b)[0] == a[0];
      assert (a + b)[1..] == a[1..] + b;
      var r := Apply(s, a[0]);
      if r.Success? {
        ApplyAllAppend(r.value, a[1..], b);
      }
    }
  }

  lemma ApplyAllSingle(s: Store, e: Entry)
    ensures ApplyAll(s, [e]) == Apply(s, e)
  {
    assert [e][1..] == [];
  }

  /** Saving an update to a user writes the caller's row with `UpdatedAt`
      set to the clock, and keeps the row's `CreatedAt`. */
  lemma SaveModifiedUser(s: Store, id: Id, u: User, now: Time)
    requires Save(s, [Modified(id, UserRow(u))], now).Success?
    ensures var t := Save(s, [Modified(id, UserRow(u))], now).value;
            && id in t.users
            && t.users[id] == u.(updatedAt := Some(now))
            && t.users[id].createdAt == u.createdAt
            && t.products == s.products && t.invoices == s.invoices && t.items == s.items
  {
    var e := Modified(id, UserRow(u.(updatedAt := Some(now))));
    assert UpdateTimestamps([Modified(id, UserRow(u))], now) == [e];
    ApplyAllSingle(s, e);
  }

  lemma SaveModifiedProduct(s: Store, id: Id, p: Product, now: Time)
    requires Save(s, [Modified(id, ProductRow(p))], now).Success?
    ensures var t := Save(s, [Modified(id, ProductRow(p))], now).value;
            && id in t.products
            && t.products[id] == p.(updatedAt := Some(now))
            && t.users == s.users && t.invoices == s.invoices && t.items == s.items
  {
    var e := Modified(id, ProductRow(p.(updatedAt := Some(now))));
    assert UpdateTimestamps([Modified(id, ProductRow(p))], now) == [e];
    ApplyAllSingle(s, e);
  }

  lemma SaveModifiedInvoice(s: Store, id: Id, v: Invoice, now: Time)
    requires Save(s, [Modified(id, InvoiceRow(v))], now).Success?
    ensures var t := Save(s, [Modified(id, InvoiceRow(v))], now).value;
            && id in t.invoices
            && t.invoices[id] == v.(updatedAt := Some(now))
            && t.users == s.users && t.products == s.products && t.items == s.items
  {
    var e := Modified(id, InvoiceRow(v.(updatedAt := Some(now))));
    assert UpdateTimestamps([Modified(id, InvoiceRow(v))], now) == [e];
    ApplyAllSingle(s, e);
  }

  /** Items carry no `UpdatedAt`: saving a modified item writes it as is. */
  lemma SaveModifiedItem(s: Store, id: Id, it: InvoiceItem, now: Time)
    ensures Save(s, [Modified(id, ItemRow(it))], now) == UpdateItem(s, id, it)
  {
    assert UpdateTimestamps([Modified(id, ItemRow(it))], now) == [Modified(id, ItemRow(it))];
    ApplyAllSingle(s, Modified(id, ItemRow(it)));
  }

  /** Creating a user leaves `UpdatedAt` unset; a later update of the same
      row stamps it with that save's clock and leaves `CreatedAt` alone. */
  lemma {:induction false} UserTimestampDiscipline(s: Store, u: User, created: Time, u2: User, later: Time)
    requires Valid(s) && u.updatedAt == None
    requires Save(s, [Added(UserRow(u))], created).Success?
    requires u2.createdAt == u.createdAt
    ensures var t := Save(s, [Added(UserRow(u))], created).value;
            && s.nextUserId in t.users
            && t.users[s.nextUserId].updatedAt == None
            && (Save(t, [Modified(s.nextUserId, UserRow(u2))], later).Success? ==>
                  var t2 := Save(t, [Modified(s.nextUserId, UserRow(u2))], later).value;
                  && s.nextUserId in t2.users
                  && t2.users[s.nextUserId].updatedAt == Some(later)
                  && t2.users[s.nextUserId].createdAt == u.createdAt)
  {
    assert UpdateTimestamps([Added(UserRow(u))], created) == [Added(UserRow(u))];
    ApplyAllSingle(s, Added(UserRow(u)));
    var t := Save(s, [Added(UserRow(u))], created).value;
    assert t == InsertUser(s, u).value;
    if Save(t, [Modified(s.nextUserId, UserRow(u2))], later).Success? {
      SaveModifiedUser(t, s.nextUserId, u2, later);
    }
  }

  // ---------------------------------------------------------------------
  // The `IsActive` column default

  /** What an insert writes for a bool column that carries a database
      default of `true` (`IsActive` on users and on products): the CLR
      default `false` is taken to mean "not set", the column is left out of
      the INSERT, and the database default `true` takes its place. */
  function StoredActiveFlagAsWritten(flag: bool): (stored: bool)
    ensures stored
  {
    if flag then flag else true
  }

  /** The configured user insert: it fails exactly when the intended one
      does, and on success it stores the row with `IsActive` set. */
  function InsertUserAsWritten(s: Store, u: User): (r: Result<Store, DbError>)
    ensures r.Success? <==> InsertUser(s, u).Success?
    ensures Valid(s) && r.Success? ==>
              && s.nextUserId in r.value.users
              && r.value.users[s.nextUserId] == u.(isActive := true)
  {
    InsertUser(s, u.(isActive := StoredActiveFlagAsWritten(u.isActive)))
  }

  /** The configured product insert, likewise. */
  function InsertProductAsWritten(s: Store, p: Product): (r: Result<Store, DbError>)
    ensures r.Success? <==> InsertProduct(s, p).Success?
    ensures Valid(s) && r.Success? ==>
              && s.nextProductId in r.value.products
              && r.value.products[s.nextProductId] == p.(isActive := true)
  {
    InsertProduct(s, p.(isActive := StoredActiveFlagAsWritten(p.isActive)))
  }

  /** As configured, an inactive user is stored as active: the row read back
      differs from the row inserted. */
  lemma InactiveUserStoredActive(s: Store, u: User)
    requires Valid(s) && !u.isActive && InsertUserAsWritten(s, u).Success?
    ensures var t := InsertUserAsWritten(s, u).value;
            s.nextUserId in t.users && t.users[s.nextUserId].isActive && t.users[s.nextUserId] != u
  {
  }

  /** As configured, an inactive product is stored as active. */
  lemma InactiveProductStoredActive(s: Store, p: Product)
    requires Valid(s) && !p.isActive && InsertProductAsWritten(s, p).Success?
    ensures var t := InsertProductAsWritten(s, p).value;
            s.nextProductId in t.products && t.products[s.nextProductId].isActive
            && t.products[s.nextProductId] != p
  {
  }

  /** The intended behaviour, which `InsertUser` models: the row read back
      is the row inserted, `IsActive` included. */
  lemma InsertKeepsUserActiveFlag(s: Store, u: User)
    requires Valid(s)
    ensures InsertUser(s, u).Success? ==>
              s.nextUserId in InsertUser(s, u).value.users
              && InsertUser(s, u).value.users[s.nextUserId].isActive == u.isActive
  {
  }

  /** The same for `InsertProduct`. */
  lemma InsertKeepsProductActiveFlag(s: Store, p: Product)
    requires Valid(s)
    ensures InsertProduct(s, p).Success? ==>
              s.nextProductId in InsertProduct(s, p).value.products
              && InsertProduct(s, p).value.products[s.nextProductId].isActive == p.isActive
  {
  }

  // ---------------------------------------------------------------------
  // AddRange: a change set of inserts of one kind

  function AddedUsers(us: seq<User>): (es: seq<Entry>)
    ensures |es| == |us|
    ensures forall i | 0 <= i < |us| :: es[i] == Added(UserRow(us[i]))
  {
    if us == [] then [] else [Added(UserRow(us[0]))] + AddedUsers(us[1..])
  }

  function AddedProducts(ps: seq<Product>): (es: seq<Entry>)
    ensures |es| == |ps|
    ensures forall i | 0 <= i < |ps| :: es[i] == Added(ProductRow(ps[i]))
  {
    if ps == [] then [] else [Added(ProductRow(ps[0]))] + AddedProducts(ps[1..])
  }

  function AddedInvoices(vs: seq<Invoice>): (es: seq<Entry>)
    ensures |es| == |vs|
    ensures forall i | 0 <= i < |vs| :: es[i] == Added(InvoiceRow(vs[i]))
  {
    if vs == [] then [] else [Added(InvoiceRow(vs[0]))] + AddedInvoices(vs[1..])
  }

  function AddedItems(its: seq<InvoiceItem>): (es: seq<Entry>)
    ensures |es| == |its|
    ensures forall i | 0 <= i < |its| :: es[i] == Added(ItemRow(its[i]))
  {
    if its == [] then [] else [Added(ItemRow(its[0]))] + AddedItems(its[1..])
  }

  /** One step of a commit that succeeds. */
  lemma ApplyAllStep(s: Store, es: seq<Entry>)
    requires es != [] && Apply(s, es[0]).Success?
    ensures ApplyAll(s, es) == ApplyAll(Apply(s, es[0]).value, es[1..])
  {
  }

  /** `rows` sit in `m` under the consecutive keys `n`, `n + 1`, ... */
  predicate RowsFrom<T(==)>(m: map<Id, T>, n: Id, rows: seq<T>) {
    forall k | n <= k < n + |rows| :: k in m && m[k] == rows[k - n]
  }

  /** `m'` is `m` with `rows` added under the keys `n`, `n + 1`, ...: the
      older rows stay and every other key is one of the new ones. */
  predicate AppendedRows<T(==)>(m: map<Id, T>, m': map<Id, T>, n: Id, rows: seq<T>) {
    && (forall k | k in m :: k in m' && m'[k] == m[k])
    && (forall k | k in m' :: k in m || n <= k < n + |rows|)
    && RowsFrom(m', n, rows)
  }

  /** A row inserted under `n`, then `rows[1..]` appended from `n + 1` on:
      together, `rows` are appended from `n` on. */
  lemma InsertThenRows<T>(m: map<Id, T>, m1: map<Id, T>, last: map<Id, T>, n: Id, rows: seq<T>)
    requires |rows| > 0
    requires Inserted(m, m1, n, rows[0])
    requires AppendedRows(m1, last, n + 1, rows[1..])
    ensures AppendedRows(m, last, n, rows)
  {
    forall k | n <= k < n + |rows|
      ensures k in last && last[k] == rows[k - n]
    {
      if k > n {
        assert rows[1..][k - (n + 1)] == rows[k - n];
      }
    }
  }

  /** Inserting a batch of users one after the other, stopping at the first
      failure. */
  function InsertUsers(s: Store, us: seq<User>): Result<Store, DbError>
    decreases |us|
  {
    if us == [] then Success(s)
    else
      match InsertUser(s, us[0])
      case Failure(e) => Failure(e)
      case Success(t) => InsertUsers(t, us[1..])
  }

  function InsertProducts(s: Store, ps: seq<Product>): Result<Store, DbError>
    decreases |ps|
  {
    if ps == [] then Success(s)
    else
      match InsertProduct(s, ps[0])
      case Failure(e) => Failure(e)
      case Success(t) => InsertProducts(t, ps[1..])
  }

  function InsertInvoices(s: Store, vs: seq<Invoice>): Result<Store, DbError>
    decreases |vs|
  {
    if vs == [] then Success(s)
    else
      match InsertInvoice(s, vs[0])
      case Failure(e) => Failure(e)
      case Success(t) => InsertInvoices(t, vs[1..])
  }

  /** Committing a change set of added users is inserting them in order. */
  lemma {:induction false} AddedUsersAreInserted(s: Store, us: seq<User>)
    ensures ApplyAll(s, AddedUsers(us)) == InsertUsers(s, us)
    decreases |us|
  {
    if us != [] {
      var es := AddedUsers(us);
      assert es[0] == Added(UserRow(us[0]));
      assert es[1..] == AddedUsers(us[1..]);
      if InsertUser(s, us[0]).Success? {
        ApplyAllStep(s, es);
        AddedUsersAreInserted(InsertUser(s, us[0]).value, us[1..]);
      }
    }
  }

  lemma {:induction false} AddedProductsAreInserted(s: Store, ps: seq<Product>)
    ensures ApplyAll(s, AddedProducts(ps)) == InsertProducts(s, ps)
    decreases |ps|
  {
    if ps != [] {
      var es := AddedProducts(ps);
      assert es[0] == Added(ProductRow(ps[0]));
      assert es[1..] == AddedProducts(ps[1..]);
      if InsertProduct(s, ps[0]).Success? {
        ApplyAllStep(s, es);
        AddedProductsAreInserted(InsertProduct(s, ps[0]).value, ps[1..]);
      }
    }
  }

  lemma {:induction false} AddedInvoicesAreInserted(s: Store, vs: seq<Invoice>)
    ensures ApplyAll(s, AddedInvoices(vs)) == InsertInvoices(s, vs)
    decreases |vs|
  {
    if vs != [] {
      var es := AddedInvoices(vs);
      assert es[0] == Added(InvoiceRow(vs[0]));
      assert es[1..] == AddedInvoices(vs[1..]);
      if InsertInvoice(s, vs[0]).Success? {
        ApplyAllStep(s, es);
        AddedInvoicesAreInserted(InsertInvoice(s, vs[0]).value, vs[1..]);
      }
    }
  }

  /** After the first of a batch of users with new, pairwise distinct
      usernames and emails is inserted, the rest are still new and distinct. */
  lemma UsersStayFresh(m: map<Id, User>, m1: map<Id, User>, n: Id, us: seq<User>)
    requires us != [] && Inserted(m, m1, n, us[0])
    requires forall k, i | k in m && 0 <= i < |us| ::
               m[k].username != us[i].username && m[k].email != us[i].email
    requires forall i, j | 0 <= i < j < |us| ::
               us[i].username != us[j].username && us[i].email != us[j].email
    ensures forall k, i | k in m1 && 0 <= i < |us| - 1 ::
              m1[k].username != us[1..][i].username && m1[k].email != us[1..][i].email
    ensures forall i, j | 0 <= i < j < |us| - 1 ::
              us[1..][i].username != us[1..][j].username && us[1..][i].email != us[1..][j].email
  {
    var rest := us[1..];
    forall k, i | k in m1 && 0 <= i < |rest|
      ensures m1[k].username != rest[i].username && m1[k].email != rest[i].email
    {
      assert rest[i] == us[i + 1];
    }
    forall i, j | 0 <= i < j < |rest|
      ensures rest[i].username != rest[j].username && rest[i].email != rest[j].email
    {
      assert rest[i] == us[i + 1] && rest[j] == us[j + 1];
    }
  }

  /** The same for products and their SKUs. */
  lemma ProductsStayFresh(m: map<Id, Product>, m1: map<Id, Product>, n: Id, ps: seq<Product>)
    requires ps != [] && Inserted(m, m1, n, ps[0])
    requires forall k, i | k in m && 0 <= i < |ps| :: m[k].sku != ps[i].sku
    requires forall i, j | 0 <= i < j < |ps| :: ps[i].sku != ps[j].sku
    ensures forall k, i | k in m1 && 0 <= i < |ps| - 1 :: m1[k].sku != ps[1..][i].sku
    ensures forall i, j | 0 <= i < j < |ps| - 1 :: ps[1..][i].sku != ps[1..][j].sku
  {
    var rest := ps[1..];
    forall k, i | k in m1 && 0 <= i < |rest| ensures m1[k].sku != rest[i].sku {
      assert rest[i] == ps[i + 1];
    }
    forall i, j | 0 <= i < j < |rest| ensures rest[i].sku != rest[j].sku {
      assert rest[i] == ps[i + 1] && rest[j] == ps[j + 1];
    }
  }

  /** The same for invoices and their numbers. */
  lemma InvoicesStayFresh(m: map<Id, Invoice>, m1: map<Id, Invoice>, n: Id, vs: seq<Invoice>)
    requires vs != [] && Inserted(m, m1, n, vs[0])
    requires forall k, i | k in m && 0 <= i < |vs| :: m[k].invoiceNumber != vs[i].invoiceNumber
    requires forall i, j | 0 <= i < j < |vs| :: vs[i].invoiceNumber != vs[j].invoiceNumber
    ensures forall k, i | k in m1 && 0 <= i < |vs| - 1 :: m1[k].invoiceNumber != vs[1..][i].invoiceNumber
    ensures forall i, j | 0 <= i < j < |vs| - 1 :: vs[1..][i].invoiceNumber != vs[1..][j].invoiceNumber
  {
    var rest := vs[1..];
    forall k, i | k in m1 && 0 <= i < |rest| ensures m1[k].invoiceNumber != rest[i].invoiceNumber {
      assert rest[i] == vs[i + 1];
    }
    forall i, j | 0 <= i < j < |rest| ensures rest[i].invoiceNumber != rest[j].invoiceNumber {
      assert rest[i] == vs[i + 1] && rest[j] == vs[j + 1];
    }
  }

  /** Inserting users whose usernames and emails are new and pairwise
      distinct succeeds, under consecutive fresh keys. */
  lemma {:induction false} InsertUsersSucceeds(s: Store, us: seq<User>)
    requires Valid(s)
    requires forall k, i | k in s.users && 0 <= i < |us| ::
               s.users[k].username != us[i].username && s.users[k].email != us[i].email
    requires forall i, j | 0 <= i < j < |us| ::
               us[i].username != us[j].username && us[i].email != us[j].email
    ensures InsertUsers(s, us).Success?
    ensures var t := InsertUsers(s, us).value;
            && Valid(t)
            && t == s.(users := t.users, nextUserId := s.nextUserId + |us|)
            && AppendedRows(s.users, t.users, s.nextUserId, us)
    decreases |us|
  {
    if us != [] {
      var n := s.nextUserId;
      assert !UsernameTaken(s.users, us[0].username, None);
      assert !EmailTaken(s.users, us[0].email, None);
      var s1 := InsertUser(s, us[0]).value;
      assert Valid(s1) && Inserted(s.users, s1.users, n, us[0]);
      assert s1 == s.(users := s1.users, nextUserId := n + 1);
      UsersStayFresh(s.users, s1.users, n, us);
      InsertUsersSucceeds(s1, us[1..]);
      var t := InsertUsers(s1, us[1..]).value;
      assert t == s.(users := t.users, nextUserId := n + |us|);
      InsertThenRows(s.users, s1.users, t.users, n, us);
    }
  }

  /** Inserting products whose SKUs are new and pairwise distinct succeeds,
      under consecutive fresh keys. */
  lemma {:induction false} InsertProductsSucceeds(s: Store, ps: seq<Product>)
    requires Valid(s)
    requires forall k, i | k in s.products && 0 <= i < |ps| :: s.products[k].sku != ps[i].sku
    requires forall i, j | 0 <= i < j < |ps| :: ps[i].sku != ps[j].sku
    ensures InsertProducts(s, ps).Success?
    ensures var t := InsertProducts(s, ps).value;
            && Valid(t)
            && t == s.(products := t.products, nextProductId := s.nextProductId + |ps|)
            && AppendedRows(s.products, t.products, s.nextProductId, ps)
    decreases |ps|
  {
    if ps != [] {
      var n := s.nextProductId;
      assert !SkuTaken(s.products, ps[0].sku, None);
      var s1 := InsertProduct(s, ps[0]).value;
      assert Valid(s1) && Inserted(s.products, s1.products, n, ps[0]);
      assert s1 == s.(products := s1.products, nextProductId := n + 1);
      assert InsertProducts(s, ps) == InsertProducts(s1, ps[1..]);
      ProductsStayFresh(s.products, s1.products, n, ps);
      InsertProductsSucceeds(s1, ps[1..]);
      var t := InsertProducts(s1, ps[1..]).value;
      assert t == s.(products := t.products, nextProductId := n + |ps|);
      InsertThenRows(s.products, s1.products, t.products, n, ps);
    }
  }

  /** Inserting invoices whose numbers are new and pairwise distinct, each
      created by an existing user, succeeds under consecutive fresh keys. */
  lemma {:induction false} InsertInvoicesSucceeds(s: Store, vs: seq<Invoice>)
    requires Valid(s)
    requires forall k, i | k in s.invoices && 0 <= i < |vs| :: s.invoices[k].invoiceNumber != vs[i].invoiceNumber
    requires forall i, j | 0 <= i < j < |vs| :: vs[i].invoiceNumber != vs[j].invoiceNumber
    requires forall i | 0 <= i < |vs| :: vs[i].createdByUserId in s.users
    ensures InsertInvoices(s, vs).Success?
    ensures var t := InsertInvoices(s, vs).value;
            && Valid(t)
            && t == s.(invoices := t.invoices, nextInvoiceId := s.nextInvoiceId + |vs|)
            && AppendedRows(s.invoices, t.invoices, s.nextInvoiceId, vs)
    decreases |vs|
  {
    if vs != [] {
      var n, rest := s.nextInvoiceId, vs[1..];
      assert !InvoiceNumberTaken(s.invoices, vs[0].invoiceNumber, None);
      var s1 := InsertInvoice(s, vs[0]).value;
      assert Valid(s1) && Inserted(s.invoices, s1.invoices, n, vs[0]);
      assert s1 == s.(invoices := s1.invoices, nextInvoiceId := n + 1);
      InvoicesStayFresh(s.invoices, s1.invoices, n, vs);
      forall i | 0 <= i < |rest|
        ensures rest[i].createdByUserId in s1.users
      {
        assert rest[i] == vs[i + 1];
      }
      InsertInvoicesSucceeds(s1, rest);
      var t := InsertInvoices(s1, rest).value;
      assert t == s.(invoices := t.invoices, nextInvoiceId := n + |vs|);
      InsertThenRows(s.invoices, s1.invoices, t.invoices, n, vs);
    }
  }

  /** Committing the users of the previous lemma succeeds the same way. */
  lemma AddUsersSucceeds(s: Store, us: seq<User>)
    requires Valid(s)
    requires forall k, i | k in s.users && 0 <= i < |us| ::
               s.users[k].username != us[i].username && s.users[k].email != us[i].email
    requires forall i, j | 0 <= i < j < |us| ::
               us[i].username != us[j].username && us[i].email != us[j].email
    ensures ApplyAll(s, AddedUsers(us)).Success?
    ensures var t := ApplyAll(s, AddedUsers(us)).value;
            && Valid(t)
            && t == s.(users := t.users, nextUserId := s.nextUserId + |us|)
            && AppendedRows(s.users, t.users, s.nextUserId, us)
  {
    AddedUsersAreInserted(s, us);
    InsertUsersSucceeds(s, us);
  }

  lemma AddProductsSucceeds(s: Store, ps: seq<Product>)
    requires Valid(s)
    requires forall k, i | k in s.products && 0 <= i < |ps| :: s.products[k].sku != ps[i].sku
    requires forall i, j | 0 <= i < j < |ps| :: ps[i].sku != ps[j].sku
    ensures ApplyAll(s, AddedProducts(ps)).Success?
    ensures var t := ApplyAll(s, AddedProducts(ps)).value;
            && Valid(t)
            && t == s.(products := t.products, nextProductId := s.nextProductId + |ps|)
            && AppendedRows(s.products, t.products, s.nextProductId, ps)
  {
    AddedProductsAreInserted(s, ps);
    InsertProductsSucceeds(s, ps);
  }

  lemma AddInvoicesSucceeds(s: Store, vs: seq<Invoice>)
    requires Valid(s)
    requires forall k, i | k in s.invoices && 0 <= i < |vs| :: s.invoices[k].invoiceNumber != vs[i].invoiceNumber
    requires forall i, j | 0 <= i < j < |vs| :: vs[i].invoiceNumber != vs[j].invoiceNumber
    requires forall i | 0 <= i < |vs| :: vs[i].createdByUserId in s.users
    ensures ApplyAll(s, AddedInvoices(vs)).Success?
    ensures var t := ApplyAll(s, AddedInvoices(vs)).value;
            && Valid(t)
            && t == s.(invoices := t.invoices, nextInvoiceId := s.nextInvoiceId + |vs|)
            && AppendedRows(s.invoices, t.invoices, s.nextInvoiceId, vs)
  {
    AddedInvoicesAreInserted(s, vs);
    InsertInvoicesSucceeds(s, vs);
  }

  /** Adding a batch of items starts by inserting the first. */
  lemma AddItemStep(s: Store, its: seq<InvoiceItem>)
    requires its != [] && InsertItem(s, its[0]).Success?
    ensures ApplyAll(s, AddedItems(its)) == ApplyAll(InsertItem(s, its[0]).value, AddedItems(its[1..]))
  {
    var es := AddedItems(its);
    assert es[0] == Added(ItemRow(its[0]));
    assert es[1..] == AddedItems(its[1..]);
    ApplyAllStep(s, es);
  }

  /** Inserting items whose invoices and products exist succeeds, under
      consecutive fresh keys. */
  lemma {:induction false} AddItemsSucceeds(s: Store, its: seq<InvoiceItem>)
    requires Valid(s)
    requires forall i | 0 <= i < |its| :: its[i].invoiceId in s.invoices && its[i].productId in s.products
    ensures ApplyAll(s, AddedItems(its)).Success?
    ensures var t := ApplyAll(s, AddedItems(its)).value;
            && Valid(t)
            && t == s.(items := t.items, nextItemId := s.nextItemId + |its|)
            && AppendedRows(s.items, t.items, s.nextItemId, its)
    decreases |its|
  {
    if its != [] {
      var n, rest := s.nextItemId, its[1..];
      AddItemStep(s, its);
      var s1 := InsertItem(s, its[0]).value;
      forall i | 0 <= i < |rest|
        ensures rest[i].invoiceId in s1.invoices && rest[i].productId in s1.products
      {
        assert rest[i] == its[i + 1];
      }
      AddItemsSucceeds(s1, rest);
      var t := ApplyAll(s1, AddedItems(rest)).value;
      assert s1.nextItemId == n + 1;
      InsertThenRows(s.items, s1.items, t.items, n, its);
    }
  }

  /** An insert-only change set passes through the timestamp hook unchanged,
      so saving it is committing it. */
  lemma SaveInsertsIsApplyAll(s: Store, es: seq<Entry>, now: Time)
    requires forall i | 0 <= i < |es| :: es[i].Added?
    ensures Save(s, es, now) == ApplyAll(s, es)
  {
    NoModifiedNoStamps(es, now);
  }
}
