/** A worked session: one product, one order, a discount, a refused line. */
module Scenarios {
  import opened Wrappers
  import opened Catalog
  import opened Orders
  import Ledger

  const Pen := Product("Pen", 10.0, 5)

  /** An empty store given a Pen lists it under id 0, and finds it by name. */
  lemma PenStocked()
    ensures AddProduct(EmptyStore, Pen) == Store([Pen], [0])
    ensures FindProduct(Store([Pen], [0]), "Pen") == Some(0)
  {
    var s := Store([Pen], [0]);
    assert IsNamed(s.heap, s.products[0], "Pen");
  }

  /** Taking 3 of the 5 pens leaves 2; asking for 10 more is refused and changes nothing. */
  lemma PenTaken()
    ensures AddItem([Pen], EmptyOrder, 0, 3) == Added([Pen.(stock := 2)], Order([Line(0, 3)], 0.0), true)
    ensures AddItem([Pen.(stock := 2)], Order([Line(0, 3)], 0.0), 0, 10)
         == Added([Pen.(stock := 2)], Order([Line(0, 3)], 0.0), false)
  {
  }

  /** The 3 pens cost 30.0, and 27.0 after a 10% discount; a ledger holding only
      the discounted order reports 27.0 of revenue. */
  lemma PenPriced()
    ensures TotalPrice([Pen.(stock := 2)], Order([Line(0, 3)], 0.0)) == 30.0
    ensures TotalPrice([Pen.(stock := 2)], Order([Line(0, 3)], 10.0)) == 27.0
    ensures Ledger.Revenue([Pen.(stock := 2)], [Order([Line(0, 3)], 10.0)]) == 27.0
  {
    var heap := [Pen.(stock := 2)];
    var items := [Line(0, 3)];
    assert items[..0] == [];
    assert Subtotal(heap, items) == 30.0;
    var orders := [Order(items, 10.0)];
    assert orders[..0] == [];
  }
}
