/** An order under construction (`Order` in Untitled-1.py): lines that reference
    product objects, plus a discount percentage. Lines hold `ProductId`s, so
    pricing always reads the product's price at the time of the call. */
module Orders {
  import opened Wrappers
  import opened Catalog

  /** One `(product, quantity)` pair of `Order.items`. */
  datatype Line = Line(product: ProductId, quantity: int)

  datatype Order = Order(items: seq<Line>, discount: real)

  /** `Order()`: no lines, discount 0. */
  const EmptyOrder := Order([], 0.0)

  /** Every line references an existing product object. */
  predicate LinesIn(heap: seq<Product>, items: seq<Line>) {
    forall i :: 0 <= i < |items| ==> items[i].product < |heap|
  }

  /** `item.price * quantity` for one line, at the current price. */
  function Amount(heap: seq<Product>, l: Line): real
    requires l.product < |heap|
  {
    heap[l.product].price * (l.quantity as real)
  }

  /** The undiscounted sum over the lines, accumulated front to back like `sum`. */
  function Subtotal(heap: seq<Product>, items: seq<Line>): real
    requires LinesIn(heap, items)
  {
    if |items| == 0 then 0.0
    else Subtotal(heap, items[..|items| - 1]) + Amount(heap, items[|items| - 1])
  }

  /** How many units of product `id` the lines take together. */
  function Ordered(items: seq<Line>, id: ProductId): int {
    if |items| == 0 then 0
    else
      var l := items[|items| - 1];
      Ordered(items[..|items| - 1], id) + (if l.product == id then l.quantity else 0)
  }

  /** Outcome of `add_item`: the heap and order afterwards, and whether the line went in. */
  datatype Added = Added(heap: seq<Product>, order: Order, ok: bool)

  /** `add_item`: with enough stock the line is appended and the shared product's
      stock drops by the quantity; otherwise nothing changes. */
  function AddItem(heap: seq<Product>, o: Order, id: ProductId, q: int): (r: Added)
    requires id < |heap|
    ensures r.ok <==> heap[id].stock >= q
    ensures |r.heap| == |heap| && r.order.discount == o.discount
    ensures r.ok ==> r.order.items == o.items + [Line(id, q)]
    ensures r.ok ==> r.heap[id].stock == heap[id].stock - q >= 0
    ensures r.ok ==> r.heap[id].name == heap[id].name && r.heap[id].price == heap[id].price
    ensures forall k :: 0 <= k < |heap| && k != id ==> r.heap[k] == heap[k]
    ensures !r.ok ==> r.heap == heap && r.order == o
    ensures LinesIn(heap, o.items) ==> LinesIn(r.heap, r.order.items)
  {
    if heap[id].stock >= q then
      Added(heap[id := heap[id].(stock := heap[id].stock - q)], o.(items := o.items + [Line(id, q)]), true)
    else
      Added(heap, o, false)
  }

  /** `apply_discount`: the new percentage replaces the old one. */
  function ApplyDiscount(o: Order, d: real): (r: Order)
    ensures r.items == o.items && r.discount == d
  {
    o.(discount := d)
  }

  /** `total_price`: the subtotal, scaled by `1 - discount/100` when a discount is set.
      Skipping the scaling at discount 0 gives the same value, so the total is the
      subtotal times `1 - d/100` for every `d`; for a sensible order it lies between
      0 and the subtotal. */
  function TotalPrice(heap: seq<Product>, o: Order): (r: real)
    requires LinesIn(heap, o.items)
    ensures r == Subtotal(heap, o.items) * (1.0 - o.discount / 100.0)
    ensures WellPriced(heap, o) ==> 0.0 <= r <= Subtotal(heap, o.items)
  {
    var total := Subtotal(heap, o.items);
    SubtotalNonNegative(heap, o.items);
    if o.discount != 0.0 then total * (1.0 - o.discount / 100.0) else total
  }

  /** The subtotal of a concatenation is the sum of the subtotals. */
  lemma {:induction false} SubtotalConcat(heap: seq<Product>, a: seq<Line>, b: seq<Line>)
    requires LinesIn(heap, a) && LinesIn(heap, b)
    ensures LinesIn(heap, a + b)
    ensures Subtotal(heap, a + b) == Subtotal(heap, a) + Subtotal(heap, b)
  {
    if |b| > 0 {
      var b' := b[..|b| - 1];
      assert (a + b)[..|a + b| - 1] == a + b';
      SubtotalConcat(heap, a, b');
    } else {
      assert a + b == a;
    }
  }

  /** The subtotal reads prices only: two heaps with the same prices agree on it. */
  lemma {:induction false} SubtotalReadsPrices(h1: seq<Product>, h2: seq<Product>, items: seq<Line>)
    requires |h1| == |h2| && forall k :: 0 <= k < |h1| ==> h1[k].price == h2[k].price
    requires LinesIn(h1, items)
    ensures LinesIn(h2, items)
    ensures Subtotal(h1, items) == Subtotal(h2, items)
  {
    if |items| > 0 {
      SubtotalReadsPrices(h1, h2, items[..|items| - 1]);
    }
  }

  /** Live pricing: changing the price of product `id` shifts the subtotal of every
      order by the price difference times the units of `id` it holds. */
  lemma {:induction false} SubtotalAfterReprice(heap: seq<Product>, items: seq<Line>, id: ProductId, price: real)
    requires id < |heap| && LinesIn(heap, items)
    ensures LinesIn(heap[id := heap[id].(price := price)], items)
    ensures Subtotal(heap[id := heap[id].(price := price)], items)
         == Subtotal(heap, items) + (price - heap[id].price) * (Ordered(items, id) as real)
  {
    var heap' := heap[id := heap[id].(price := price)];
    if |items| > 0 {
      var init := items[..|items| - 1];
      var l := items[|items| - 1];
      SubtotalAfterReprice(heap, init, id, price);
      if l.product == id {
        calc {
          Amount(heap', l);
          price * (l.quantity as real);
          heap[id].price * (l.quantity as real) + (price - heap[id].price) * (l.quantity as real);
        }
      }
    }
  }

  /** `update_product` with a new price reprices every order that holds the
      product found, by the price difference times the units it holds. */
  lemma {:induction false} UpdatePriceReprices(s: Store, name: string, price: real, items: seq<Line>)
    requires LinesIn(s.heap, items) && FindProduct(s, name).Some?
    ensures var id := FindProduct(s, name).value;
      LinesIn(UpdateProduct(s, name, Some(price), None).heap, items) &&
      Subtotal(UpdateProduct(s, name, Some(price), None).heap, items)
        == Subtotal(s.heap, items) + (price - s.heap[id].price) * (Ordered(items, id) as real)
  {
    var id := FindProduct(s, name).value;
    assert UpdateProduct(s, name, Some(price), None).heap == s.heap[id := s.heap[id].(price := price)];
    SubtotalAfterReprice(s.heap, items, id, price);
  }

  /** The same for the order's price: a price update through `update_product`
      moves `total_price` by the price difference times the units held, scaled
      by the order's discount. */
  lemma UpdatePriceRepricesTotal(s: Store, name: string, price: real, o: Order)
    requires LinesIn(s.heap, o.items) && FindProduct(s, name).Some?
    ensures var id := FindProduct(s, name).value;
      LinesIn(UpdateProduct(s, name, Some(price), None).heap, o.items) &&
      TotalPrice(UpdateProduct(s, name, Some(price), None).heap, o)
        == TotalPrice(s.heap, o)
           + (price - s.heap[id].price) * (Ordered(o.items, id) as real) * (1.0 - o.discount / 100.0)
  {
    UpdatePriceReprices(s, name, price, o.items);
  }

  /** A successful `add_item` raises the subtotal by exactly the new line's amount. */
  lemma AddItemSubtotal(heap: seq<Product>, o: Order, id: ProductId, q: int)
    requires id < |heap| && LinesIn(heap, o.items)
    ensures var r := AddItem(heap, o, id, q);
      r.ok ==> Subtotal(r.heap, r.order.items) == Subtotal(heap, o.items) + heap[id].price * (q as real)
  {
    if heap[id].stock >= q {
      var h' := heap[id := heap[id].(stock := heap[id].stock - q)];
      assert AddItem(heap, o, id, q) == Added(h', o.(items := o.items + [Line(id, q)]), true);
      DecrementAndAppend(heap, o.items, id, q);
    }
  }

  /** Lowering one product's stock and appending a line for it raises the
      subtotal by that line's amount at the unchanged price. */
  lemma DecrementAndAppend(heap: seq<Product>, items: seq<Line>, id: ProductId, q: int)
    requires id < |heap| && LinesIn(heap, items)
    ensures var h' := heap[id := heap[id].(stock := heap[id].stock - q)];
      LinesIn(h', items + [Line(id, q)]) &&
      Subtotal(h', items + [Line(id, q)]) == Subtotal(heap, items) + heap[id].price * (q as real)
  {
    var h' := heap[id := heap[id].(stock := heap[id].stock - q)];
    var l := Line(id, q);
    SubtotalReadsPrices(heap, h', items);
    SubtotalAppend(h', items, l);
    assert Amount(h', l) == heap[id].price * (q as real);
  }

  /** Appending a line adds its amount to the subtotal. */
  lemma SubtotalAppend(heap: seq<Product>, items: seq<Line>, l: Line)
    requires LinesIn(heap, items) && l.product < |heap|
    ensures LinesIn(heap, items + [l])
    ensures Subtotal(heap, items + [l]) == Subtotal(heap, items) + Amount(heap, l)
  {
    assert (items + [l])[..|items|] == items;
  }

  /** Stock is conserved: for every product, units in stock plus units on the
      order is the same before and after `add_item`. */
  lemma AddItemConservesStock(heap: seq<Product>, o: Order, id: ProductId, q: int)
    requires id < |heap|
    ensures var r := AddItem(heap, o, id, q);
      forall k :: 0 <= k < |heap| ==>
        r.heap[k].stock + Ordered(r.order.items, k) == heap[k].stock + Ordered(o.items, k)
  {
    var r := AddItem(heap, o, id, q);
    if r.ok {
      assert r.order.items[..|r.order.items| - 1] == o.items;
    }
  }

  /** `add_item` on one order leaves the total of every other order as it was:
      it changes stock, never prices. */
  lemma AddItemKeepsOtherTotals(heap: seq<Product>, o: Order, id: ProductId, q: int, other: Order)
    requires id < |heap| && LinesIn(heap, other.items)
    ensures LinesIn(AddItem(heap, o, id, q).heap, other.items)
    ensures TotalPrice(AddItem(heap, o, id, q).heap, other) == TotalPrice(heap, other)
  {
    SubtotalReadsPrices(heap, AddItem(heap, o, id, q).heap, other.items);
  }

  /** An empty order costs nothing, whatever its discount. */
  lemma TotalPriceEmpty(heap: seq<Product>, d: real)
    ensures TotalPrice(heap, ApplyDiscount(EmptyOrder, d)) == 0.0
  {
  }

  /** Only the last `apply_discount` counts. */
  lemma DiscountNotCumulative(heap: seq<Product>, o: Order, d1: real, d2: real)
    requires LinesIn(heap, o.items)
    ensures TotalPrice(heap, ApplyDiscount(ApplyDiscount(o, d1), d2)) == TotalPrice(heap, ApplyDiscount(o, d2))
  {
  }

  /** Lines with non-negative prices and quantities. */
  predicate NonNegativeLines(heap: seq<Product>, items: seq<Line>)
    requires LinesIn(heap, items)
  {
    forall i :: 0 <= i < |items| ==> heap[items[i].product].price >= 0.0 && items[i].quantity >= 0
  }

  /** The sum cannot go below zero while no price or quantity does. */
  lemma {:induction false} SubtotalNonNegative(heap: seq<Product>, items: seq<Line>)
    requires LinesIn(heap, items)
    ensures NonNegativeLines(heap, items) ==> Subtotal(heap, items) >= 0.0
  {
    if |items| > 0 {
      SubtotalNonNegative(heap, items[..|items| - 1]);
    }
  }

  /** Non-negative prices and quantities, and a discount between 0 and 100. */
  predicate WellPriced(heap: seq<Product>, o: Order)
    requires LinesIn(heap, o.items)
  {
    NonNegativeLines(heap, o.items) && 0.0 <= o.discount <= 100.0
  }
}
