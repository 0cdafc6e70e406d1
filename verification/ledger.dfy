/** The order ledger and the revenue report (`OrderManager` and `Report` in
    Untitled-1.py). Revenue is recomputed from live prices at every call. */
module Ledger {
  import opened Catalog
  import opened Orders

  /** Every line of every order of the ledger references an existing product object. */
  predicate AllLinesIn(heap: seq<Product>, orders: seq<Order>) {
    forall i :: 0 <= i < |orders| ==> LinesIn(heap, orders[i].items)
  }

  /** `OrderManager.add_order`: appends in submission order. */
  function AddOrder(orders: seq<Order>, o: Order): (r: seq<Order>)
    ensures |r| == |orders| + 1 && r[..|orders|] == orders && r[|orders|] == o
  {
    orders + [o]
  }

  /** The sum of the orders' totals, accumulated front to back like `sum`;
      never negative while every order is sensibly priced. */
  function Revenue(heap: seq<Product>, orders: seq<Order>): (r: real)
    requires AllLinesIn(heap, orders)
    ensures (forall i :: 0 <= i < |orders| ==> WellPriced(heap, orders[i])) ==> r >= 0.0
  {
    if |orders| == 0 then 0.0
    else Revenue(heap, orders[..|orders| - 1]) + TotalPrice(heap, orders[|orders| - 1])
  }

  /** `Report.calculate_revenue`: one pass over the orders. */
  method CalculateRevenue(heap: seq<Product>, orders: seq<Order>) returns (total: real)
    requires AllLinesIn(heap, orders)
    ensures total == Revenue(heap, orders)
  {
    total := 0.0;
    var i := 0;
    while i < |orders|
      invariant 0 <= i <= |orders|
      invariant total == Revenue(heap, orders[..i])
    {
      assert orders[..i + 1][..i] == orders[..i];
      total := total + TotalPrice(heap, orders[i]);
      i := i + 1;
    }
    assert orders[..i] == orders;
  }

  /** No orders, no revenue. */
  lemma RevenueEmpty(heap: seq<Product>)
    ensures Revenue(heap, []) == 0.0
  {
  }

  /** Revenue is additive over concatenation of order lists. */
  lemma {:induction false} RevenueConcat(heap: seq<Product>, a: seq<Order>, b: seq<Order>)
    requires AllLinesIn(heap, a) && AllLinesIn(heap, b)
    ensures AllLinesIn(heap, a + b)
    ensures Revenue(heap, a + b) == Revenue(heap, a) + Revenue(heap, b)
  {
    if |b| > 0 {
      var b' := b[..|b| - 1];
      assert (a + b)[..|a + b| - 1] == a + b';
      RevenueConcat(heap, a, b');
    } else {
      assert a + b == a;
    }
  }

  /** Recording an order adds exactly its total to the revenue. */
  lemma RevenueAddOrder(heap: seq<Product>, orders: seq<Order>, o: Order)
    requires AllLinesIn(heap, orders) && LinesIn(heap, o.items)
    ensures AllLinesIn(heap, AddOrder(orders, o))
    ensures Revenue(heap, AddOrder(orders, o)) == Revenue(heap, orders) + TotalPrice(heap, o)
  {
    assert AddOrder(orders, o)[..|orders|] == orders;
  }
}
