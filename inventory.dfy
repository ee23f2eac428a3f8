/** The stock mutator of `ProductViewSet`: `stock_in` and `stock_out` check
    the requested quantity, update the product's quantity in place, save the
    product and append one audit transaction. */
module Inventory {
  import opened Models
  import opened Aggregates

  const UpdatedMessage: string := "Stock updated successfully"
  const InvalidQuantityError: string := "Invalid quantity"
  const InsufficientStockError: string := "Invalid quantity or insufficient stock"

  /** The body of a stock request; an absent `quantity` reads as 0 and an
      absent `notes` as the empty string. */
  datatype StockRequest = StockRequest(quantity: Option<int>, notes: Option<string>)

  /** The response of a stock action: 200 with a message, 400 with an error,
      or 404 when the product id is unknown. */
  datatype Response = Updated(message: string) | BadRequest(error: string) | NotFound

  function StatusCode(r: Response): (code: int)
    ensures r.Updated? <==> code == 200
    ensures r.BadRequest? <==> code == 400
    ensures r.NotFound? <==> code == 404
  {
    match r
    case Updated(_) => 200
    case BadRequest(_) => 400
    case NotFound => 404
  }

  /** The quantity a request asks for. */
  function Requested(req: StockRequest): (q: int)
    ensures req.quantity.None? ==> q == 0
    ensures req.quantity.Some? ==> q == req.quantity.value
  {
    req.quantity.GetOr(0)
  }

  /** Whether `stock_out` accepts quantity `q` against a balance of `onHand`. */
  predicate CanStockOut(q: int, onHand: int) {
    q > 0 && onHand >= q
  }

  /** The store's invariant: every transaction refers to a product of the
      table, has a positive quantity and an id below `nextId`, ids grow along
      the log, each product's quantity equals its starting value plus its
      logged movements, and whenever the starting value was non-negative
      every intermediate balance along the log was too. */
  ghost predicate Consistent(products: map<ProductId, Product>, log: seq<Transaction>,
                             nextId: TransactionId, baseline: map<ProductId, int>)
  {
    && baseline.Keys == products.Keys
    && (forall k :: k in products ==> products[k].id == k)
    && ReferencesExist(products, log)
    && AllPositive(log)
    && (forall i :: 0 <= i < |log| ==> log[i].id < nextId)
    && (forall i, j :: 0 <= i < j < |log| ==> log[i].id < log[j].id)
    && (forall k :: k in products ==> products[k].quantity == baseline[k] + NetFlow(log, k))
    && (forall k, n :: k in products && 0 <= n <= |log| && baseline[k] >= 0 ==>
          baseline[k] + NetFlow(log[..n], k) >= 0)
  }

  /** A product whose starting quantity was non-negative still has a
      non-negative quantity. */
  lemma {:induction false} ConsistentNonNegative(products: map<ProductId, Product>, log: seq<Transaction>,
                                nextId: TransactionId, baseline: map<ProductId, int>, k: ProductId)
    requires Consistent(products, log, nextId, baseline) && k in products
    ensures baseline[k] >= 0 ==> products[k].quantity >= 0
  {
    assert log[..|log|] == log;
  }

  /** Logging transaction `t` (with the next id and a positive quantity) and
      storing `p` as its product, whose quantity is the old one moved by
      `t`'s signed quantity and never negative when its starting value was
      not, keeps the invariant. */
  lemma {:induction false} AppendKeepsConsistent(products: map<ProductId, Product>, log: seq<Transaction>,
                                nextId: TransactionId, baseline: map<ProductId, int>,
                                t: Transaction, p: Product)
    requires Consistent(products, log, nextId, baseline)
    requires t.product in products && t.quantity > 0 && t.id == nextId
    requires p.id == t.product
    requires p.quantity == products[t.product].quantity + Delta(t, t.product)
    requires baseline[t.product] >= 0 ==> p.quantity >= 0
    ensures Consistent(products[t.product := p], log + [t], nextId + 1, baseline)
  {
    var log' := log + [t];
    forall k | k in products
      ensures products[t.product := p][k].quantity == baseline[k] + NetFlow(log', k)
    {
      NetFlowAppend(log, t, k);
    }
    forall k, n | k in products && 0 <= n <= |log'| && baseline[k] >= 0
      ensures baseline[k] + NetFlow(log'[..n], k) >= 0
    {
      if n <= |log| {
        assert log'[..n] == log[..n];
      } else {
        assert log'[..n] == log';
        assert log[..|log|] == log;
        NetFlowAppend(log, t, k);
      }
    }
    assert forall x :: x in log' ==> x in log || x == t;
  }

  /** The product table and the transaction table. */
  class Store {
    var products: map<ProductId, Product>
    var log: seq<Transaction>
    /** The id the next transaction row receives. */
    var nextId: TransactionId
    /** Each product's quantity before the first logged transaction. */
    ghost var baseline: map<ProductId, int>

    ghost predicate Valid()
      reads this
    {
      Consistent(products, log, nextId, baseline)
    }

    /** A store over an existing product table with an empty transaction table. */
    constructor (table: map<ProductId, Product>)
      requires forall k :: k in table ==> table[k].id == k
      ensures Valid()
      ensures products == table && log == [] && nextId == 1
      ensures forall k :: k in table ==> baseline[k] == table[k].quantity
    {
      products := table;
      log := [];
      nextId := 1;
      baseline := map k | k in table :: table[k].quantity;
    }

    /** `product.save()` followed by `Transaction.objects.create(...)`, the
        tail both stock actions share: store `t`'s product with its quantity
        moved by `t`'s signed quantity and `updated_at` refreshed, then append
        `t` under the next id. */
    method SaveAndLog(t: Transaction)
      requires Valid()
      requires t.product in products && t.quantity > 0 && t.id == nextId
      requires baseline[t.product] >= 0 ==> products[t.product].quantity + Delta(t, t.product) >= 0
      modifies this
      ensures Valid() && baseline == old(baseline)
      ensures products == old(products)[t.product := Saved(
                old(products)[t.product].(quantity := old(products)[t.product].quantity + Delta(t, t.product)), t.date)]
      ensures log == old(log) + [t] && nextId == old(nextId) + 1
    {
      var product := products[t.product];
      var saved := Saved(product.(quantity := product.quantity + Delta(t, t.product)), t.date);
      AppendKeepsConsistent(products, log, nextId, baseline, t, saved);
      products := products[t.product := saved];
      log := log + [t];
      nextId := nextId + 1;
    }

    /** `stock_in`: for a positive quantity q, raise the product's quantity by
        q, save it and log one IN transaction of q; otherwise change nothing
        and answer "Invalid quantity". */
    method StockIn(pid: ProductId, req: StockRequest, user: UserId, now: DateTime) returns (r: Response)
      requires Valid()
      modifies this
      ensures Valid()
      ensures baseline == old(baseline)
      ensures pid !in old(products) ==> r == NotFound && unchanged(this)
      ensures pid in old(products) && Requested(req) <= 0 ==>
                r == BadRequest(InvalidQuantityError) && unchanged(this)
      ensures pid in old(products) && Requested(req) > 0 ==>
                && r == Updated(UpdatedMessage)
                && products == old(products)[pid := Saved(old(products)[pid].(quantity := old(products)[pid].quantity + Requested(req)), now)]
                && log == old(log) + [Transaction(old(nextId), pid, In, Requested(req), now, user, req.notes.GetOr(""))]
                && nextId == old(nextId) + 1
      ensures pid in old(products) && Requested(req) > 0 ==>
                && products[pid].quantity == old(products)[pid].quantity + Requested(req)
                && products[pid].createdAt == old(products)[pid].createdAt
                && (old(products)[pid].quantity >= 0 ==> products[pid].quantity >= 0)
                && StockValue(products) == old(StockValue(products)) + Requested(req) * old(products)[pid].unitPrice
    {
      if pid !in products {
        return NotFound;
      }
      var quantity := req.quantity.GetOr(0);
      if quantity > 0 {
        ConsistentNonNegative(products, log, nextId, baseline, pid);
        StockValueMove(products, pid, quantity, now);
        SaveAndLog(Transaction(nextId, pid, In, quantity, now, user, req.notes.GetOr("")));
        return Updated(UpdatedMessage);
      }
      return BadRequest(InvalidQuantityError);
    }

    /** `stock_out`: for a quantity q with 0 < q <= current quantity, lower
        the product's quantity by q, save it and log one OUT transaction of q;
        otherwise change nothing and answer "Invalid quantity or insufficient
        stock". */
    method StockOut(pid: ProductId, req: StockRequest, user: UserId, now: DateTime) returns (r: Response)
      requires Valid()
      modifies this
      ensures Valid()
      ensures baseline == old(baseline)
      ensures pid !in old(products) ==> r == NotFound && unchanged(this)
      ensures pid in old(products) && !CanStockOut(Requested(req), old(products)[pid].quantity) ==>
                r == BadRequest(InsufficientStockError) && unchanged(this)
      ensures pid in old(products) && CanStockOut(Requested(req), old(products)[pid].quantity) ==>
                && r == Updated(UpdatedMessage)
                && products == old(products)[pid := Saved(old(products)[pid].(quantity := old(products)[pid].quantity - Requested(req)), now)]
                && log == old(log) + [Transaction(old(nextId), pid, Out, Requested(req), now, user, req.notes.GetOr(""))]
                && nextId == old(nextId) + 1
      ensures pid in old(products) && CanStockOut(Requested(req), old(products)[pid].quantity) ==>
                && products[pid].quantity == old(products)[pid].quantity - Requested(req)
                && products[pid].createdAt == old(products)[pid].createdAt
                && 0 <= products[pid].quantity < old(products)[pid].quantity
                && StockValue(products) == old(StockValue(products)) - Requested(req) * old(products)[pid].unitPrice
    {
      if pid !in products {
        return NotFound;
      }
      var quantity := req.quantity.GetOr(0);
      if CanStockOut(quantity, products[pid].quantity) {
        StockValueMove(products, pid, quantity, now);
        SaveAndLog(Transaction(nextId, pid, Out, quantity, now, user, req.notes.GetOr("")));
        return Updated(UpdatedMessage);
      }
      return BadRequest(InsufficientStockError);
    }
  }

  /** A product holding 5 units: taking out 3 leaves 2 and logs one OUT of
      3; then asking for 10 fails and leaves 2 on hand and one log entry. */
  method StockOutScenario(p: Product, user: UserId, now: DateTime)
    requires p.id == 7 && p.quantity == 5
  {
    var store := new Store(map[7 := p]);
    var r := store.StockOut(7, StockRequest(Some(3), None), user, now);
    assert r == Updated(UpdatedMessage);
    assert store.products[7].quantity == 2;
    assert |store.log| == 1 && store.log[0].txType == Out && store.log[0].quantity == 3;
    r := store.StockOut(7, StockRequest(Some(10), None), user, now);
    assert r == BadRequest(InsufficientStockError);
    assert store.products[7].quantity == 2 && |store.log| == 1;
  }
}
