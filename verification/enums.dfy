/** The four closed enumerations of the data model and their integer codes.
    Roles and statuses are persisted as their integer code; a code outside
    the enumeration decodes to `None`. */
module Enums {
  import opened Wrappers

  datatype ProductCategory =
    | Other | Electronics | Clothing | Books | HomeAndGarden
    | SportsAndOutdoors | HealthAndBeauty | Automotive

  datatype ProductUnit =
    | Piece | Kilogram | Gram | Liter | Meter | Centimeter | Box | Pack

  datatype InvoiceStatus = Draft | Pending | Sent | Paid | Overdue | Cancelled

  datatype UserRole = Viewer | User | Manager | Admin

  // ProductCategory: codes 0..7

  function CategoryCode(c: ProductCategory): (n: int)
    ensures 0 <= n <= 7
  {
    match c
    case Other => 0
    case Electronics => 1
    case Clothing => 2
    case Books => 3
    case HomeAndGarden => 4
    case SportsAndOutdoors => 5
    case HealthAndBeauty => 6
    case Automotive => 7
  }

  function CategoryOfCode(n: int): (r: Option<ProductCategory>)
    ensures r.Some? <==> 0 <= n <= 7
  {
    if n == 0 then Some(Other)
    else if n == 1 then Some(Electronics)
    else if n == 2 then Some(Clothing)
    else if n == 3 then Some(Books)
    else if n == 4 then Some(HomeAndGarden)
    else if n == 5 then Some(SportsAndOutdoors)
    else if n == 6 then Some(HealthAndBeauty)
    else if n == 7 then Some(Automotive)
    else None
  }

  lemma CategoryCodeRoundTrip(c: ProductCategory, n: int)
    ensures CategoryOfCode(CategoryCode(c)) == Some(c)
    ensures CategoryOfCode(n).Some? ==> CategoryCode(CategoryOfCode(n).value) == n
  {
  }

  // ProductUnit: codes 1..8

  function UnitCode(u: ProductUnit): (n: int)
    ensures 1 <= n <= 8
  {
    match u
    case Piece => 1
    case Kilogram => 2
    case Gram => 3
    case Liter => 4
    case Meter => 5
    case Centimeter => 6
    case Box => 7
    case Pack => 8
  }

  function UnitOfCode(n: int): (r: Option<ProductUnit>)
    ensures r.Some? <==> 1 <= n <= 8
  {
    if n == 1 then Some(Piece)
    else if n == 2 then Some(Kilogram)
    else if n == 3 then Some(Gram)
    else if n == 4 then Some(Liter)
    else if n == 5 then Some(Meter)
    else if n == 6 then Some(Centimeter)
    else if n == 7 then Some(Box)
    else if n == 8 then Some(Pack)
    else None
  }

  lemma UnitCodeRoundTrip(u: ProductUnit, n: int)
    ensures UnitOfCode(UnitCode(u)) == Some(u)
    ensures UnitOfCode(n).Some? ==> UnitCode(UnitOfCode(n).value) == n
  {
  }

  // InvoiceStatus: codes 1..6

  function StatusCode(s: InvoiceStatus): (n: int)
    ensures 1 <= n <= 6
  {
    match s
    case Draft => 1
    case Pending => 2
    case Sent => 3
    case Paid => 4
    case Overdue => 5
    case Cancelled => 6
  }

  function StatusOfCode(n: int): (r: Option<InvoiceStatus>)
    ensures r.Some? <==> 1 <= n <= 6
  {
    if n == 1 then Some(Draft)
    else if n == 2 then Some(Pending)
    else if n == 3 then Some(Sent)
    else if n == 4 then Some(Paid)
    else if n == 5 then Some(Overdue)
    else if n == 6 then Some(Cancelled)
    else None
  }

  lemma StatusCodeRoundTrip(s: InvoiceStatus, n: int)
    ensures StatusOfCode(StatusCode(s)) == Some(s)
    ensures StatusOfCode(n).Some? ==> StatusCode(StatusOfCode(n).value) == n
  {
  }

  // UserRole: codes 1..4

  function RoleCode(r: UserRole): (n: int)
    ensures 1 <= n <= 4
  {
    match r
    case Viewer => 1
    case User => 2
    case Manager => 3
    case Admin => 4
  }

  function RoleOfCode(n: int): (r: Option<UserRole>)
    ensures r.Some? <==> 1 <= n <= 4
  {
    if n == 1 then Some(Viewer)
    else if n == 2 then Some(User)
    else if n == 3 then Some(Manager)
    else if n == 4 then Some(Admin)
    else None
  }

  lemma RoleCodeRoundTrip(r: UserRole, n: int)
    ensures RoleOfCode(RoleCode(r)) == Some(r)
    ensures RoleOfCode(n).Some? ==> RoleCode(RoleOfCode(n).value) == n
  {
  }
}
