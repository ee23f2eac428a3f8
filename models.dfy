/** Records of the inventory app: products, stock transactions, the
    timestamps Django assigns to them, and the cascade deletions that the
    foreign keys of a transaction imply. */
module Models {

  datatype Option<T> = None | Some(value: T) {
    function GetOr(default: T): T {
      match this
      case Some(v) => v
      case None => default
    }
  }

  type ProductId = nat
  type UserId = nat
  type TransactionId = nat

  // ---------------------------------------------------------------------------
  // Timestamps

  /** A calendar day, as `datetime.date`. */
  datatype Date = Date(year: int, month: int, day: int)

  /** A `DateTimeField` value: a calendar day and a time of day counted in
      microseconds since midnight. */
  datatype DateTime = DateTime(year: int, month: int, day: int, clock: int)

  const MicrosPerDay: int := 86_400_000_000

  predicate IsLeapYear(y: int) {
    y % 4 == 0 && (y % 100 != 0 || y % 400 == 0)
  }

  function DaysInMonth(y: int, m: int): (n: int)
    requires 1 <= m <= 12
    ensures 28 <= n <= 31
    ensures m == 2 <==> n < 30
  {
    if m == 2 then (if IsLeapYear(y) then 29 else 28)
    else if m == 4 || m == 6 || m == 9 || m == 11 then 30
    else 31
  }

  predicate ValidDateTime(t: DateTime) {
    && 1 <= t.month <= 12
    && 1 <= t.day <= DaysInMonth(t.year, t.month)
    && 0 <= t.clock < MicrosPerDay
  }

  /** The `__date` lookup: the calendar day a timestamp falls on. */
  function DateOf(t: DateTime): Date {
    Date(t.year, t.month, t.day)
  }

  /** Strict chronological order of timestamps. */
  predicate Before(a: DateTime, b: DateTime) {
    || a.year < b.year
    || (a.year == b.year && a.month < b.month)
    || (a.year == b.year && a.month == b.month && a.day < b.day)
    || (a.year == b.year && a.month == b.month && a.day == b.day && a.clock < b.clock)
  }

  /** `t.replace(day=1)`: the first day of t's month at t's own time of day,
      which is midnight only when t is at midnight. */
  function FirstOfMonth(t: DateTime): (f: DateTime)
    ensures ValidDateTime(t) ==> ValidDateTime(f) && !Before(t, f)
    ensures f.day == 1 && f.clock == t.clock
    ensures DateOf(f).year == t.year && DateOf(f).month == t.month
  {
    t.(day := 1)
  }

  // ---------------------------------------------------------------------------
  // Product

  /** Largest magnitude a `DecimalField(max_digits=10, decimal_places=2)`
      holds, in hundredths: ten digits in all, so fewer than 10^10 cents. */
  const PriceCentsBound: int := 10_000_000_000

  const NameMaxLength: nat := 200

  /** `unit_price` kept as integer cents. */
  datatype Product = Product(
    id: ProductId,
    name: string,
    description: string,
    quantity: int,
    unitPrice: int,
    createdAt: DateTime,
    updatedAt: DateTime)

  predicate ValidPrice(cents: int) {
    -PriceCentsBound < cents < PriceCentsBound
  }

  /** The field constraints of `Product`. Neither `quantity` nor `unit_price`
      is constrained to be non-negative. */
  predicate ValidProduct(p: Product) {
    && |p.name| <= NameMaxLength
    && ValidPrice(p.unitPrice)
  }

  /** A freshly created product: a missing `quantity` takes the default 0, a
      missing `description` is blank, and both timestamps are the time of
      creation. */
  function NewProduct(id: ProductId, name: string, description: Option<string>,
                      quantity: Option<int>, unitPrice: int, now: DateTime): (p: Product)
    requires |name| <= NameMaxLength && ValidPrice(unitPrice)
    ensures ValidProduct(p) && p.id == id
    ensures quantity.None? ==> p.quantity == 0
    ensures quantity.Some? ==> p.quantity == quantity.value
    ensures description.None? ==> p.description == ""
    ensures p.createdAt == now && p.updatedAt == now
  {
    Product(id, name, description.GetOr(""), quantity.GetOr(0), unitPrice, now, now)
  }

  /** `product.save()`: `auto_now` refreshes `updated_at`; every other field,
      `created_at` included, is written as it is. */
  function Saved(p: Product, now: DateTime): (s: Product)
    ensures s.updatedAt == now
    ensures s.(updatedAt := p.updatedAt) == p
  {
    p.(updatedAt := now)
  }

  // ---------------------------------------------------------------------------
  // Transaction

  /** `TRANSACTION_TYPES`: a transaction is a stock-in or a stock-out. */
  datatype TxType = In | Out

  const TypeMaxLength: nat := 3

  /** The value stored in the `transaction_type` column. */
  function TypeCode(ty: TxType): (code: string)
    ensures 0 < |code| <= TypeMaxLength
  {
    match ty
    case In => "IN"
    case Out => "OUT"
  }

  /** The human-readable label of each choice. */
  function TypeLabel(ty: TxType): string {
    match ty
    case In => "Stock In"
    case Out => "Stock Out"
  }

  /** Reads a `transaction_type` column back: only the two choice codes are
      accepted. */
  function ParseType(code: string): (r: Option<TxType>)
    ensures r.Some? <==> (code == "IN" || code == "OUT")
    ensures r.Some? ==> TypeCode(r.value) == code
    ensures forall ty :: code == TypeCode(ty) ==> r == Some(ty)
  {
    if code == "IN" then Some(In)
    else if code == "OUT" then Some(Out)
    else None
  }

  /** A stock transaction. `date` is `transaction_date`, set once when the row
      is created; no operation of this model rewrites a stored transaction. */
  datatype Transaction = Transaction(
    id: TransactionId,
    product: ProductId,
    txType: TxType,
    quantity: int,
    date: DateTime,
    createdBy: UserId,
    notes: string)

  // ---------------------------------------------------------------------------
  // Cascade deletion

  /** Deleting product `pid` (`on_delete=CASCADE` on `Transaction.product`):
      every transaction that references it goes, every other one stays, in
      its order. */
  function CascadeProduct(log: seq<Transaction>, pid: ProductId): (r: seq<Transaction>)
    ensures |r| <= |log|
    ensures forall t :: t in r <==> t in log && t.product != pid
    ensures forall t {:trigger multiset(r)[t]} ::
              multiset(r)[t] == if t.product == pid then 0 else multiset(log)[t]
  {
    if log == [] then []
    else
      var rest := CascadeProduct(log[1..], pid);
      assert log == [log[0]] + log[1..];
      if log[0].product == pid then rest else [log[0]] + rest
  }

  /** Deleting user `u` (`on_delete=CASCADE` on `Transaction.created_by`):
      every transaction that user created goes, every other one stays. */
  function CascadeUser(log: seq<Transaction>, u: UserId): (r: seq<Transaction>)
    ensures |r| <= |log|
    ensures forall t :: t in r <==> t in log && t.createdBy != u
    ensures forall t {:trigger multiset(r)[t]} ::
              multiset(r)[t] == if t.createdBy == u then 0 else multiset(log)[t]
  {
    if log == [] then []
    else
      var rest := CascadeUser(log[1..], u);
      assert log == [log[0]] + log[1..];
      if log[0].createdBy == u then rest else [log[0]] + rest
  }

  /** Every transaction references a product of the table. */
  predicate ReferencesExist(products: map<ProductId, Product>, log: seq<Transaction>) {
    forall t :: t in log ==> t.product in products
  }

  /** Deleting a product row together with its transactions. */
  function DeleteProduct(products: map<ProductId, Product>, log: seq<Transaction>, pid: ProductId)
    : (r: (map<ProductId, Product>, seq<Transaction>))
    ensures r.0.Keys == products.Keys - {pid}
    ensures forall k :: k in r.0 ==> r.0[k] == products[k]
    ensures r.1 == CascadeProduct(log, pid)
  {
    (products - {pid}, CascadeProduct(log, pid))
  }

  /** The cascade keeps the foreign key of every surviving transaction valid. */
  lemma DeleteProductKeepsReferences(products: map<ProductId, Product>, log: seq<Transaction>, pid: ProductId)
    requires ReferencesExist(products, log)
    ensures ReferencesExist(DeleteProduct(products, log, pid).0, DeleteProduct(products, log, pid).1)
  {
  }
}
