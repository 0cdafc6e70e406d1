/** The product catalogue (`Product` and `Store` in Untitled-1.py).

    Python products are mutable objects shared by reference: the store's list and
    every order line point at the same object, so a stock decrement or a price
    update made through one is seen through the others. The model makes that
    sharing explicit with a heap: `heap` holds every product object ever created,
    addressed by its `ProductId`, and the store's list holds ids. The heap only
    grows, so an id handed out once stays meaningful, even after the store drops
    the product from its list (in Python the object lives on in the orders that
    reference it). */
module Catalog {
  import opened Wrappers
  import Seqs

  datatype Product = Product(name: string, price: real, stock: int)

  /** A reference to a product object: its address in the heap. */
  type ProductId = nat

  /** `heap`: all product objects; `products`: the store's list, in insertion order. */
  datatype Store = Store(heap: seq<Product>, products: seq<ProductId>)

  /** Every reference on the store's list points at an existing object. */
  predicate Valid(s: Store) {
    forall i :: 0 <= i < |s.products| ==> s.products[i] < |s.heap|
  }

  /** The store starts with nothing on its list (the snapshot file is not modelled). */
  const EmptyStore := Store([], [])

  /** The object `id` exists and is called `name`. */
  predicate IsNamed(heap: seq<Product>, id: ProductId, name: string) {
    id < |heap| && heap[id].name == name
  }

  /** `IsNamed` for a fixed heap and name, as a value to filter and search with. */
  function Named(heap: seq<Product>, name: string): ProductId -> bool {
    (id: ProductId) => IsNamed(heap, id, name)
  }

  /** The test `remove_product` applies to each product. */
  function HasName(name: string): Product -> bool {
    (p: Product) => p.name == name
  }

  /** The products the ids refer to, in list order: what `list_products` shows. */
  function Deref(heap: seq<Product>, ids: seq<ProductId>): (r: seq<Product>)
    requires forall i :: 0 <= i < |ids| ==> ids[i] < |heap|
    ensures |r| == |ids|
    ensures forall i :: 0 <= i < |ids| ==> r[i] == heap[ids[i]]
  {
    if |ids| == 0 then [] else [heap[ids[0]]] + Deref(heap, ids[1..])
  }

  /** The catalogue as its owner sees it. */
  function Listing(s: Store): seq<Product>
    requires Valid(s)
  {
    Deref(s.heap, s.products)
  }

  /** `add_product`: a new product object is created and its reference appended. */
  function AddProduct(s: Store, p: Product): (r: Store)
    ensures |r.heap| == |s.heap| + 1 && r.heap[..|s.heap|] == s.heap
    ensures r.heap[|s.heap|] == p
    ensures |r.products| == |s.products| + 1 && r.products[..|s.products|] == s.products
    ensures r.products[|s.products|] == |s.heap|
    ensures Valid(s) ==> Valid(r)
    ensures Valid(s) ==> |r.products| == |s.products| + 1 && Listing(r) == Listing(s) + [p]
    ensures Valid(s) ==> r.products[|s.products|] !in s.products
  {
    Store(s.heap + [p], s.products + [|s.heap|])
  }

  /** `remove_product`: every reference to a product with that name leaves the list;
      the objects themselves stay on the heap. */
  function RemoveProduct(s: Store, name: string): (r: Store)
    ensures r.heap == s.heap
    ensures forall i :: 0 <= i < |r.products| ==> !IsNamed(s.heap, r.products[i], name)
    ensures forall id :: id in r.products <==> id in s.products && !IsNamed(s.heap, id, name)
    ensures forall id {:trigger multiset(r.products)[id]} ::
      multiset(r.products)[id] == if IsNamed(s.heap, id, name) then 0 else multiset(s.products)[id]
    ensures Seqs.IsSubsequence(r.products, s.products)
    ensures Valid(s) ==> Valid(r)
  {
    s.(products := Seqs.RemoveWhere(s.products, Named(s.heap, name)))
  }

  /** `find_product`: the first product on the list with that name, or `None`. */
  function FindProduct(s: Store, name: string): (r: Option<ProductId>)
    ensures r.Some? ==> IsNamed(s.heap, r.value, name)
    ensures r.Some? ==> exists i :: 0 <= i < |s.products| && s.products[i] == r.value
                            && forall j :: 0 <= j < i ==> !IsNamed(s.heap, s.products[j], name)
    ensures r.None? <==> forall i :: 0 <= i < |s.products| ==> !IsNamed(s.heap, s.products[i], name)
  {
    match Seqs.FirstWhere(s.products, Named(s.heap, name))
    case None => None
    case Some(i) => Some(s.products[i])
  }

  /** `update_product`: the first product with that name gets the fields that were
      passed (`Some`); nothing changes when no product has that name. */
  function UpdateProduct(s: Store, name: string, price: Option<real>, stock: Option<int>): (r: Store)
    ensures r.products == s.products && |r.heap| == |s.heap|
    ensures FindProduct(s, name).None? ==> r == s
    ensures FindProduct(s, name).Some? ==>
      var id := FindProduct(s, name).value;
      && r.heap[id].name == s.heap[id].name
      && r.heap[id].price == (if price.Some? then price.value else s.heap[id].price)
      && r.heap[id].stock == (if stock.Some? then stock.value else s.heap[id].stock)
      && forall k :: 0 <= k < |s.heap| && k != id ==> r.heap[k] == s.heap[k]
  {
    match FindProduct(s, name)
    case None => s
    case Some(id) =>
      var p := s.heap[id];
      var p1 := if price.Some? then p.(price := price.value) else p;
      var p2 := if stock.Some? then p1.(stock := stock.value) else p1;
      s.(heap := s.heap[id := p2])
  }

  /** The visible catalogue after `remove_product` is the old one with every
      product of that name filtered out, the rest in their original order. */
  lemma {:induction false} RemoveProductListing(s: Store, name: string)
    requires Valid(s)
    ensures Listing(RemoveProduct(s, name)) == Seqs.RemoveWhere(Listing(s), HasName(name))
  {
    DerefRemove(s.heap, s.products, name);
  }

  lemma {:induction false} DerefRemove(heap: seq<Product>, ids: seq<ProductId>, name: string)
    requires forall i :: 0 <= i < |ids| ==> ids[i] < |heap|
    ensures Deref(heap, Seqs.RemoveWhere(ids, Named(heap, name)))
         == Seqs.RemoveWhere(Deref(heap, ids), HasName(name))
  {
    if |ids| > 0 {
      DerefRemove(heap, ids[1..], name);
      assert Deref(heap, ids)[1..] == Deref(heap, ids[1..]);
    }
  }

  /** Adding a product and then removing its name leaves the same references on
      the list as removing that name without the addition. */
  lemma RemoveAfterAdd(s: Store, p: Product)
    requires Valid(s)
    ensures RemoveProduct(AddProduct(s, p), p.name).products == RemoveProduct(s, p.name).products
  {
    assert AddProduct(s, p).products == s.products + [|s.heap|];
    RemoveNewId(s.heap, s.products, p);
    RemoveOnGrownHeap(s.heap, s.products, p);
  }

  /** The id of the new product is removed with its name. */
  lemma RemoveNewId(heap: seq<Product>, ids: seq<ProductId>, p: Product)
    ensures Seqs.RemoveWhere<ProductId>(ids + [|heap|], Named(heap + [p], p.name))
         == Seqs.RemoveWhere(ids, Named(heap + [p], p.name))
  {
    Seqs.RemoveWhereDropLast<ProductId>(ids, |heap|, Named(heap + [p], p.name));
  }

  /** Growing the heap does not change which existing ids carry the new product's name. */
  lemma RemoveOnGrownHeap(heap: seq<Product>, ids: seq<ProductId>, p: Product)
    requires forall i :: 0 <= i < |ids| ==> ids[i] < |heap|
    ensures Seqs.RemoveWhere(ids, Named(heap + [p], p.name))
         == Seqs.RemoveWhere(ids, Named(heap, p.name))
  {
    Seqs.RemoveWhereAgree(ids, Named(heap + [p], p.name), Named(heap, p.name));
  }

  /** Names are not unique: after `add_product`, `find_product` still returns an
      earlier product of the same name, and returns the new one only when it is
      the first of its name. */
  lemma FindAfterAdd(s: Store, p: Product, name: string)
    requires Valid(s)
    ensures FindProduct(AddProduct(s, p), name)
         == if FindProduct(s, name).Some? then FindProduct(s, name)
            else if p.name == name then Some(|s.heap|)
            else None
  {
    var r := AddProduct(s, p);
    forall i | 0 <= i < |s.products|
      ensures r.products[i] == s.products[i]
      ensures IsNamed(r.heap, r.products[i], name) == IsNamed(s.heap, s.products[i], name)
    {
    }
    FindAfterAppend(s, r, name);
  }

  /** Appending one reference to the list changes what `find_product` returns
      only when no earlier reference carries the name. */
  lemma FindAfterAppend(s: Store, t: Store, name: string)
    requires |t.products| == |s.products| + 1
    requires forall i :: 0 <= i < |s.products| ==> t.products[i] == s.products[i]
    requires forall i :: 0 <= i < |s.products| ==>
      IsNamed(t.heap, t.products[i], name) == IsNamed(s.heap, s.products[i], name)
    ensures FindProduct(t, name)
         == if FindProduct(s, name).Some? then FindProduct(s, name)
            else if IsNamed(t.heap, t.products[|s.products|], name) then Some(t.products[|s.products|])
            else None
  {
    match FindProduct(s, name)
    case Some(id) =>
      var i :| 0 <= i < |s.products| && s.products[i] == id
               && forall j :: 0 <= j < i ==> !IsNamed(s.heap, s.products[j], name);
      FindIsFirst(t, name, i);
    case None =>
      if IsNamed(t.heap, t.products[|s.products|], name) {
        FindIsFirst(t, name, |s.products|);
      }
  }

  /** `find_product` returns the reference at the first position of that name. */
  lemma FindIsFirst(s: Store, name: string, i: nat)
    requires i < |s.products| && IsNamed(s.heap, s.products[i], name)
    requires forall j :: 0 <= j < i ==> !IsNamed(s.heap, s.products[j], name)
    ensures FindProduct(s, name) == Some(s.products[i])
  {
  }

  /** Updating never renames, so the same product is found afterwards. */
  lemma UpdateKeepsFind(s: Store, name: string, price: Option<real>, stock: Option<int>)
    ensures FindProduct(UpdateProduct(s, name, price, stock), name) == FindProduct(s, name)
  {
    var r := UpdateProduct(s, name, price, stock);
    assert forall id :: IsNamed(r.heap, id, name) <==> IsNamed(s.heap, id, name);
  }

  /** Repeating an update changes nothing more. */
  lemma UpdateIdempotent(s: Store, name: string, price: Option<real>, stock: Option<int>)
    ensures UpdateProduct(UpdateProduct(s, name, price, stock), name, price, stock)
         == UpdateProduct(s, name, price, stock)
  {
    UpdateKeepsFind(s, name, price, stock);
  }

  /** An update that passes no field leaves the store as it is. */
  lemma UpdateNothing(s: Store, name: string)
    ensures UpdateProduct(s, name, None, None) == s
  {
  }
}
