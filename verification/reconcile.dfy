/** The checkout-completed transaction as one atomic state transition
    `Reconcile(store, session, lineItems) -> store'`.

    Snapshot semantics: every product read inside the line-item loop sees the
    catalog as it was when the transaction began, and stock writes are staged
    in a map that is applied at commit. If two line items resolve to the same
    product, both compute their new stock from the original value and the
    later staged write replaces the earlier one. */
module Reconcile {
  import opened Options
  import opened Text
  import opened Checkout

  /** What the loop has accumulated: the order lines, in line-item order, and
      the staged stock writes, the later write for a product winning. */
  datatype Staged = Staged(items: seq<OrderItem>, writes: map<ProductId, int>)

  /** The line-item loop over `lineItems`, reading from `snapshot`. */
  ghost function Stage(snapshot: map<ProductId, Product>, lineItems: seq<LineItem>): (r: Staged)
    ensures |r.items| <= |lineItems|
    ensures r.writes.Keys <= snapshot.Keys
    ensures forall k :: k in r.writes ==> r.writes[k] >= 0
    decreases |lineItems|
  {
    if |lineItems| == 0 then Staged([], map[])
    else
      Step(Stage(snapshot, lineItems[..|lineItems| - 1]), Resolve(snapshot, lineItems[|lineItems| - 1]))
  }

  /** One loop iteration's effect on the accumulated state: nothing for an
      unresolved line item; otherwise its order line is appended and its
      stock write staged, replacing any earlier write for that product. */
  function Step(prev: Staged, res: Option<Resolution>): (r: Staged)
    ensures res.None? ==> r == prev
    ensures |r.items| == |prev.items| + (if res.Some? then 1 else 0)
    ensures r.items[..|prev.items|] == prev.items
    ensures res.Some? ==>
      && r.items[|prev.items|] == res.value.item
      && r.writes.Keys == prev.writes.Keys + {res.value.productId}
      && r.writes[res.value.productId] == res.value.nextStock
    ensures forall k :: k in prev.writes && (res.None? || k != res.value.productId) ==>
      k in r.writes && r.writes[k] == prev.writes[k]
  {
    match res
    case None => prev
    case Some(r) => Staged(prev.items + [r.item], prev.writes[r.productId := r.nextStock])
  }

  /** A step taken after two accumulations are joined is the step taken on
      the second one, then joined. */
  lemma StepJoin(a: Staged, b: Staged, res: Option<Resolution>)
    ensures Step(Staged(a.items + b.items, a.writes + b.writes), res)
      == Staged(a.items + Step(b, res).items, a.writes + Step(b, res).writes)
  {
  }

  /** Commit of the staged stock writes: a written product gets its new stock
      and keeps every other field; the rest of the catalog is untouched. */
  function ApplyStock(products: map<ProductId, Product>, writes: map<ProductId, int>): (r: map<ProductId, Product>)
    ensures r.Keys == products.Keys
    ensures forall k :: k in products && k in writes ==> r[k] == products[k].(stock := Some(writes[k]))
    ensures forall k :: k in products && k !in writes ==> r[k] == products[k]
  {
    map k | k in products :: if k in writes then products[k].(stock := Some(writes[k])) else products[k]
  }

  /** `handleCheckoutCompleted` inside its transaction. */
  ghost function Reconcile(store: Store, session: Session, lineItems: seq<LineItem>): (r: Store)
    // Idempotence: an order already recorded for this session short-circuits.
    ensures session.id in store.orders ==> r == store
    // The ledger gains exactly this session's order; no recorded order changes.
    ensures r.orders.Keys == store.orders.Keys + {session.id}
    ensures forall sid :: sid in store.orders ==> r.orders[sid] == store.orders[sid]
    ensures session.id !in store.orders ==>
      && r.orders[session.id].stripeSessionId == session.id
      && r.orders[session.id].userId == UserIdOf(session)
    // Dual write: the per-user copy is the very same order, and only when a
    // user id is known.
    ensures session.id !in store.orders && UserIdOf(session).Some? ==>
      && r.userOrders.Keys == store.userOrders.Keys + {(UserIdOf(session).value, session.id)}
      && r.userOrders[(UserIdOf(session).value, session.id)] == r.orders[session.id]
      && forall key :: key in store.userOrders && key != (UserIdOf(session).value, session.id) ==>
           r.userOrders[key] == store.userOrders[key]
    ensures UserIdOf(session).None? ==> r.userOrders == store.userOrders
    // The catalog keeps its products; every stock written is non-negative.
    ensures r.products.Keys == store.products.Keys
    ensures forall k :: k in r.products && r.products[k] != store.products[k] ==>
      r.products[k] == store.products[k].(stock := r.products[k].stock)
      && r.products[k].stock.Some? && r.products[k].stock.value >= 0
  {
    if session.id in store.orders then store
    else
      var staged := Stage(store.products, lineItems);
      var order := BuildOrder(session, staged.items);
      var userId := UserIdOf(session);
      Store(
        ApplyStock(store.products, staged.writes),
        store.orders[session.id := order],
        if userId.Some? then store.userOrders[(userId.value, session.id) := order] else store.userOrders)
  }

  // ---------------------------------------------------------------------
  // Lemmas

  /** Running the transaction a second time for the same session is a no-op:
      re-delivery of the event records no second order and decrements no
      stock twice. */
  lemma ReconcileIdempotent(store: Store, session: Session, lineItems: seq<LineItem>)
    ensures Reconcile(Reconcile(store, session, lineItems), session, lineItems)
      == Reconcile(store, session, lineItems)
  {
  }

  /** The loop over `a + b` is the loop over `a` followed by the loop over
      `b`: order lines are concatenated in line-item order, and a write staged
      by `b` replaces one staged by `a` for the same product. */
  lemma {:induction false} StageAppend(snapshot: map<ProductId, Product>, a: seq<LineItem>, b: seq<LineItem>)
    ensures Stage(snapshot, a + b).items == Stage(snapshot, a).items + Stage(snapshot, b).items
    ensures Stage(snapshot, a + b).writes == Stage(snapshot, a).writes + Stage(snapshot, b).writes
    decreases |b|
  {
    var A := Stage(snapshot, a);
    if |b| == 0 {
      assert a + b == a;
      assert A.items + [] == A.items;
      assert A.writes + map[] == A.writes;
    } else {
      var b' := b[..|b| - 1];
      var x := b[|b| - 1];
      assert (a + b)[..|a + b| - 1] == a + b';
      assert (a + b)[|a + b| - 1] == x;
      StageAppend(snapshot, a, b');
      StepJoin(A, Stage(snapshot, b'), Resolve(snapshot, x));
    }
  }

  /** Reference definition of the order lines: the resolved line items' lines,
      taken front to back. */
  ghost function ResolvedItems(snapshot: map<ProductId, Product>, lineItems: seq<LineItem>): seq<OrderItem> {
    if |lineItems| == 0 then []
    else
      LineOf(snapshot, lineItems[0]) + ResolvedItems(snapshot, lineItems[1..])
  }

  /** The order lines contributed by one line item on its own. */
  ghost function LineOf(snapshot: map<ProductId, Product>, li: LineItem): seq<OrderItem> {
    match Resolve(snapshot, li)
    case None => []
    case Some(res) => [res.item]
  }

  lemma StageSingle(snapshot: map<ProductId, Product>, li: LineItem)
    ensures Stage(snapshot, [li]).items == LineOf(snapshot, li)
  {
  }

  /** The order holds one line per resolved line item, in line-item order,
      and nothing for the others. */
  lemma {:induction false} StageItems(snapshot: map<ProductId, Product>, lineItems: seq<LineItem>)
    ensures Stage(snapshot, lineItems).items == ResolvedItems(snapshot, lineItems)
  {
    if |lineItems| > 0 {
      var head := [lineItems[0]];
      assert lineItems == head + lineItems[1..];
      StageAppend(snapshot, head, lineItems[1..]);
      StageItems(snapshot, lineItems[1..]);
      StageSingle(snapshot, lineItems[0]);
      assert ResolvedItems(snapshot, lineItems)
        == LineOf(snapshot, lineItems[0]) + ResolvedItems(snapshot, lineItems[1..]);
    }
  }

  /** Under snapshot reads, a line item with no usable price id, or whose
      price id matches no product, changes neither the order lines nor the
      staged stock, wherever it appears. (As written, the handler's query for
      such an item after a staged write is refused by the store; see
      `ReconcileAsWritten`.) */
  lemma UnresolvedIgnored(snapshot: map<ProductId, Product>, a: seq<LineItem>, li: LineItem, b: seq<LineItem>)
    requires Resolve(snapshot, li).None?
    ensures Stage(snapshot, a + [li] + b) == Stage(snapshot, a + b)
  {
    StageAppend(snapshot, a + [li], b);
    StageAppend(snapshot, a, [li]);
    StageAppend(snapshot, a, b);
    assert [li][..0] == [];
    assert Stage(snapshot, [li]) == Staged([], map[]);
    assert Stage(snapshot, a).items + [] == Stage(snapshot, a).items;
    assert Stage(snapshot, a).writes + map[] == Stage(snapshot, a).writes;
  }

  /** A product gets a staged write exactly when some line item resolves to
      it. */
  lemma {:induction false} StageWritesDomain(snapshot: map<ProductId, Product>, lineItems: seq<LineItem>, k: ProductId)
    ensures k in Stage(snapshot, lineItems).writes <==>
      exists i :: 0 <= i < |lineItems| && ResolvesTo(snapshot, lineItems[i], k)
    decreases |lineItems|
  {
    if |lineItems| > 0 {
      var n := |lineItems| - 1;
      var prefix := lineItems[..n];
      StageWritesDomain(snapshot, prefix, k);
      if !ResolvesTo(snapshot, lineItems[n], k) {
        if exists i :: 0 <= i < |lineItems| && ResolvesTo(snapshot, lineItems[i], k) {
          var i :| 0 <= i < |lineItems| && ResolvesTo(snapshot, lineItems[i], k);
          assert prefix[i] == lineItems[i];
        }
        if exists i :: 0 <= i < |prefix| && ResolvesTo(snapshot, prefix[i], k) {
          var i :| 0 <= i < |prefix| && ResolvesTo(snapshot, prefix[i], k);
          assert prefix[i] == lineItems[i];
        }
      }
    }
  }

  /** The stock staged for a product is the one computed by the LAST line
      item resolving to it, from the product's pre-transaction stock: earlier
      line items for the same product are overwritten, not accumulated. */
  lemma {:induction false} StageWritesLast(snapshot: map<ProductId, Product>, lineItems: seq<LineItem>, k: ProductId)
    requires k in Stage(snapshot, lineItems).writes
    ensures exists i ::
      && 0 <= i < |lineItems|
      && IsLastFor(snapshot, lineItems, i, k)
      && Stage(snapshot, lineItems).writes[k] == NextStock(StockOf(snapshot[k]), QuantityOf(lineItems[i]))
    decreases |lineItems|
  {
    var n := |lineItems| - 1;
    var prefix := lineItems[..n];
    var prev := Stage(snapshot, prefix);
    assert Stage(snapshot, lineItems) == Step(prev, Resolve(snapshot, lineItems[n]));
    if ResolvesTo(snapshot, lineItems[n], k) {
      ResolveLine(snapshot, lineItems[n]);
      assert IsLastFor(snapshot, lineItems, n, k);
    } else {
      assert k in prev.writes && Stage(snapshot, lineItems).writes[k] == prev.writes[k];
      StageWritesLast(snapshot, prefix, k);
      var i :| 0 <= i < |prefix| && IsLastFor(snapshot, prefix, i, k)
        && Stage(snapshot, prefix).writes[k] == NextStock(StockOf(snapshot[k]), QuantityOf(prefix[i]));
      assert prefix[i] == lineItems[i];
      assert IsLastFor(snapshot, lineItems, i, k);
    }
  }

  /** Line item `i` resolves to `k` and no later line item does. */
  ghost predicate IsLastFor(snapshot: map<ProductId, Product>, lineItems: seq<LineItem>, i: int, k: ProductId)
    requires 0 <= i < |lineItems|
  {
    ResolvesTo(snapshot, lineItems[i], k)
    && forall j :: i < j < |lineItems| ==> !ResolvesTo(snapshot, lineItems[j], k)
  }

  /** For a new session the recorded order is built from the session and
      holds exactly the resolved line items' lines, in line-item order. */
  lemma ReconcileOrder(store: Store, session: Session, lineItems: seq<LineItem>)
    requires session.id !in store.orders
    ensures Reconcile(store, session, lineItems).orders[session.id]
      == BuildOrder(session, ResolvedItems(store.products, lineItems))
  {
    StageItems(store.products, lineItems);
  }

  /** For a new session, a product that no line item resolves to is left
      exactly as it was. */
  lemma ReconcileUntouched(store: Store, session: Session, lineItems: seq<LineItem>, k: ProductId)
    requires session.id !in store.orders
    requires k in store.products
    requires forall i :: 0 <= i < |lineItems| ==> !ResolvesTo(store.products, lineItems[i], k)
    ensures Reconcile(store, session, lineItems).products[k] == store.products[k]
  {
    StageWritesDomain(store.products, lineItems, k);
  }

  /** For a new session, a product some line item resolves to keeps every
      field but its stock, which becomes the floored decrement of its stock
      before the transaction by the quantity of the LAST line item resolving
      to it. */
  lemma ReconcileResolved(store: Store, session: Session, lineItems: seq<LineItem>, k: ProductId, j: int)
    requires session.id !in store.orders
    requires k in store.products
    requires 0 <= j < |lineItems| && ResolvesTo(store.products, lineItems[j], k)
    ensures exists i ::
      && 0 <= i < |lineItems|
      && IsLastFor(store.products, lineItems, i, k)
      && Reconcile(store, session, lineItems).products[k]
           == store.products[k].(stock := Some(NextStock(StockOf(store.products[k]), QuantityOf(lineItems[i]))))
  {
    StageWritesDomain(store.products, lineItems, k);
    StageWritesLast(store.products, lineItems, k);
  }

  /** Every stock recorded in the catalog is non-negative. */
  ghost predicate NonNegativeStock(products: map<ProductId, Product>) {
    forall k :: k in products && products[k].stock.Some? ==> products[k].stock.value >= 0
  }

  /** Reconciliation keeps the catalog's stock non-negative. */
  lemma ReconcileKeepsStockNonNegative(store: Store, session: Session, lineItems: seq<LineItem>)
    requires NonNegativeStock(store.products)
    ensures NonNegativeStock(Reconcile(store, session, lineItems).products)
  {
  }

  /** With non-negative quantities and stock, reconciliation never raises a
      product's stock. */
  lemma ReconcileNeverRaisesStock(store: Store, session: Session, lineItems: seq<LineItem>, k: ProductId)
    requires NonNegativeStock(store.products)
    requires forall i :: 0 <= i < |lineItems| ==> QuantityOf(lineItems[i]) >= 0
    requires k in store.products
    ensures StockOf(Reconcile(store, session, lineItems).products[k]) <= StockOf(store.products[k])
  {
    if session.id !in store.orders {
      if j :| 0 <= j < |lineItems| && ResolvesTo(store.products, lineItems[j], k) {
        ReconcileResolved(store, session, lineItems, k, j);
      } else {
        ReconcileUntouched(store, session, lineItems, k);
      }
    }
  }

  /** Snapshot semantics made explicit: when two line items resolve to the
      same product, the product ends with the stock computed from its
      original value by the second line item alone; the first decrement is
      lost. */
  lemma SameProductTwice(store: Store, session: Session, first: LineItem, second: LineItem, k: ProductId)
    requires session.id !in store.orders
    requires k in store.products
    requires ResolvesTo(store.products, first, k) && ResolvesTo(store.products, second, k)
    ensures Reconcile(store, session, [first, second]).products[k].stock
      == Some(NextStock(StockOf(store.products[k]), QuantityOf(second)))
  {
  }

  // ---------------------------------------------------------------------
  // Worked examples

  function WidgetStore(stock: int): Store {
    Store(map["p1" := Product(Some("Widget"), Some(stock), Some("price_A"))], map[], map[])
  }

  function WidgetSession(): Session {
    Session("cs_1", None, None, None, None, Some(3000), Some("eur"), Some("paid"))
  }

  function WidgetLine(quantity: int): LineItem {
    LineItem(Some(Price(Some("price_A"), None, Some(1500), Some("eur"))), Some(quantity))
  }

  lemma WidgetResolves(stock: int, quantity: int)
    ensures Resolve(WidgetStore(stock).products, WidgetLine(quantity))
      == Some(Resolution("p1", OrderItem("p1", "Widget", quantity, 1500, "EUR", "price_A"),
                         NextStock(stock, quantity)))
  {
    var products := WidgetStore(stock).products;
    FindUnique(products, "price_A", "p1");
    DefaultCurrencyUpper();
  }

  /** Two units of a product in stock 10 bought in session cs_1: the stock
      becomes 8 and the ledger records the one-line order in EUR, status paid;
      no per-user copy is written, as the session names no user. */
  lemma WidgetExample()
    ensures
      var r := Reconcile(WidgetStore(10), WidgetSession(), [WidgetLine(2)]);
      && r.products["p1"].stock == Some(8)
      && r.orders["cs_1"] == Order("cs_1", None, None,
           [OrderItem("p1", "Widget", 2, 1500, "EUR", "price_A")], 3000, "EUR", "paid")
      && r.userOrders == map[]
  {
    WidgetResolves(10, 2);
    DefaultCurrencyUpper();
    assert [WidgetLine(2)][..0] == [];
  }

  /** Buying 5 units of a product with stock 2 leaves stock 0, not -3. */
  lemma StockFloorExample()
    ensures Reconcile(WidgetStore(2), WidgetSession(), [WidgetLine(5)]).products["p1"].stock == Some(0)
  {
    WidgetResolves(2, 5);
    assert [WidgetLine(5)][..0] == [];
  }

  /** One unresolvable and then one resolvable line item: the order has
      exactly one line, and only the resolvable item's product changes. */
  lemma DropPolicyExample()
    ensures
      var r := Reconcile(WidgetStore(10), WidgetSession(), [UnknownLine(), WidgetLine(2)]);
      && |r.orders["cs_1"].items| == 1
      && r.products["p1"].stock == Some(8)
  {
    ResolveNone(WidgetStore(10).products, UnknownLine());
    WidgetResolves(10, 2);
    UnresolvedIgnored(WidgetStore(10).products, [], UnknownLine(), [WidgetLine(2)]);
    assert [] + [UnknownLine()] + [WidgetLine(2)] == [UnknownLine(), WidgetLine(2)];
    assert [] + [WidgetLine(2)] == [WidgetLine(2)];
    assert [WidgetLine(2)][..0] == [];
  }

  /** A line item whose price id no catalog product carries. */
  function UnknownLine(): LineItem {
    LineItem(Some(Price(Some("price_Z"), Some("Gadget"), Some(900), None)), None)
  }

  // ---------------------------------------------------------------------
  // The loop as written against the store's transaction rules

  /** The store's server library refuses a read issued inside a transaction
      once that transaction has staged a write. */
  datatype TxError = ReadAfterWriteRefused

  /** Line item `i` stages a stock write and the later line item `j` issues a
      catalog query: as written, the loop queries for every line item with a
      usable price id, before knowing whether it resolves. */
  ghost predicate WriteThenRead(snapshot: map<ProductId, Product>, lineItems: seq<LineItem>, i: int, j: int)
    requires 0 <= i < j < |lineItems|
  {
    Resolve(snapshot, lineItems[i]).Some? && PriceIdOf(lineItems[j]).Some?
  }

  /** Whether the loop, run front to back with `wrote` recording whether a
      write is already staged, issues a query after a staged write. */
  ghost predicate ReadsAfterWrite(snapshot: map<ProductId, Product>, lineItems: seq<LineItem>, wrote: bool)
    decreases |lineItems|
  {
    if |lineItems| == 0 then false
    else if PriceIdOf(lineItems[0]).Some? && wrote then true
    else ReadsAfterWrite(snapshot, lineItems[1..], wrote || Resolve(snapshot, lineItems[0]).Some?)
  }

  /** The loop queries after a write exactly when some line item with a usable
      price id follows a resolved one (or follows the start, when a write was
      already staged). */
  lemma {:induction false} ReadsAfterWriteIff(snapshot: map<ProductId, Product>, lineItems: seq<LineItem>, wrote: bool)
    ensures ReadsAfterWrite(snapshot, lineItems, wrote) <==>
      || (wrote && exists j :: 0 <= j < |lineItems| && PriceIdOf(lineItems[j]).Some?)
      || (exists i, j :: 0 <= i < j < |lineItems| && WriteThenRead(snapshot, lineItems, i, j))
    decreases |lineItems|
  {
    if |lineItems| > 0 {
      var x := lineItems[0];
      var t := lineItems[1..];
      var w' := wrote || Resolve(snapshot, x).Some?;
      if !(PriceIdOf(x).Some? && wrote) {
        ReadsAfterWriteIff(snapshot, t, w');
        // Priced items of the whole list beyond the head are those of the tail.
        if exists j :: 0 <= j < |t| && PriceIdOf(t[j]).Some? {
          var j :| 0 <= j < |t| && PriceIdOf(t[j]).Some?;
          assert PriceIdOf(lineItems[j + 1]).Some?;
          if Resolve(snapshot, x).Some? {
            assert WriteThenRead(snapshot, lineItems, 0, j + 1);
          }
        }
        if exists j :: 0 <= j < |lineItems| && PriceIdOf(lineItems[j]).Some? {
          var j :| 0 <= j < |lineItems| && PriceIdOf(lineItems[j]).Some?;
          if wrote {
            assert j > 0 && PriceIdOf(t[j - 1]).Some?;
          }
        }
        if exists i, j :: 0 <= i < j < |t| && WriteThenRead(snapshot, t, i, j) {
          var i, j :| 0 <= i < j < |t| && WriteThenRead(snapshot, t, i, j);
          assert WriteThenRead(snapshot, lineItems, i + 1, j + 1);
        }
        if exists i, j :: 0 <= i < j < |lineItems| && WriteThenRead(snapshot, lineItems, i, j) {
          var i, j :| 0 <= i < j < |lineItems| && WriteThenRead(snapshot, lineItems, i, j);
          if i == 0 {
            assert PriceIdOf(t[j - 1]).Some?;
          } else {
            assert WriteThenRead(snapshot, t, i - 1, j - 1);
          }
        }
      } else {
        assert PriceIdOf(lineItems[0]).Some?;
      }
    }
  }

  /** `handleCheckoutCompleted` as written, with the store's rule applied: the
      transaction fails, so no order is recorded and no stock changes, as soon
      as a line item with a usable price id follows a resolved one. Otherwise
      it commits exactly what `Reconcile` describes. */
  ghost function ReconcileAsWritten(store: Store, session: Session, lineItems: seq<LineItem>): (r: Result<Store, TxError>)
    ensures session.id in store.orders ==> r == Success(store)
    ensures session.id !in store.orders ==>
      (r.Failure? <==> exists i, j :: 0 <= i < j < |lineItems| && WriteThenRead(store.products, lineItems, i, j))
    ensures r.Success? ==> r.value == Reconcile(store, session, lineItems)
  {
    ReadsAfterWriteIff(store.products, lineItems, false);
    if session.id in store.orders then Success(store)
    else if ReadsAfterWrite(store.products, lineItems, false) then Failure(ReadAfterWriteRefused)
    else Success(Reconcile(store, session, lineItems))
  }

  /** A session buying one known product and then one unknown product: as
      written the transaction is refused and no order is recorded, while the
      snapshot-read reconciliation records a one-line order and stock 8. */
  lemma ReadAfterWriteExample()
    ensures ReconcileAsWritten(WidgetStore(10), WidgetSession(), [WidgetLine(2), UnknownLine()])
      == Failure(ReadAfterWriteRefused)
    ensures
      var r := Reconcile(WidgetStore(10), WidgetSession(), [WidgetLine(2), UnknownLine()]);
      && "cs_1" in r.orders
      && |r.orders["cs_1"].items| == 1
      && r.products["p1"].stock == Some(8)
  {
    var lineItems := [WidgetLine(2), UnknownLine()];
    WidgetResolves(10, 2);
    assert WriteThenRead(WidgetStore(10).products, lineItems, 0, 1);
    ResolveNone(WidgetStore(10).products, UnknownLine());
    UnresolvedIgnored(WidgetStore(10).products, [WidgetLine(2)], UnknownLine(), []);
    assert [WidgetLine(2)] + [UnknownLine()] + [] == lineItems;
    assert [WidgetLine(2)] + [] == [WidgetLine(2)];
    assert [WidgetLine(2)][..0] == [];
  }
}
