/** Customers and their registry (`Customer` and `CustomerManager` in Untitled-1.py).
    Outside the registry, a customer object is held only by the `customer`
    variable of `main`, which is left out together with `main`; so customers
    can be plain values. */
module Customers {
  import opened Wrappers
  import Seqs
  import opened Orders

  datatype Customer = Customer(name: string, phone: string, history: seq<Order>)

  /** `Customer(name, phone)`: a customer starts with no orders. */
  function NewCustomer(name: string, phone: string): (c: Customer)
    ensures c.name == name && c.phone == phone && |c.history| == 0
  {
    Customer(name, phone, [])
  }

  /** `Customer.add_order`: the history only ever grows at its end. */
  function AddOrder(c: Customer, o: Order): (r: Customer)
    ensures r.name == c.name && r.phone == c.phone
    ensures |r.history| == |c.history| + 1 && r.history[..|c.history|] == c.history
    ensures r.history[|c.history|] == o
  {
    c.(history := c.history + [o])
  }

  /** The registry's test for `remove_customer`. */
  function HasPhone(phone: string): Customer -> bool {
    (c: Customer) => c.phone == phone
  }

  /** `add_customer`: appends, with no check for an existing phone number, so a
      customer registered earlier under the same phone keeps shadowing the new one. */
  function AddCustomer(cs: seq<Customer>, c: Customer): (r: seq<Customer>)
    ensures |r| == |cs| + 1 && r[..|cs|] == cs && r[|cs|] == c
    ensures FindCustomer(cs, c.phone).Some? ==> FindCustomer(r, c.phone) == FindCustomer(cs, c.phone)
    ensures FindCustomer(cs, c.phone).None? ==> FindCustomer(r, c.phone) == Some(|cs|)
  {
    cs + [c]
  }

  /** `remove_customer`: every customer with that phone number leaves the registry,
      the others stay in their original order. */
  function RemoveCustomer(cs: seq<Customer>, phone: string): (r: seq<Customer>)
    ensures forall i :: 0 <= i < |r| ==> r[i].phone != phone
    ensures forall c :: c in r <==> c in cs && c.phone != phone
    ensures forall c {:trigger multiset(r)[c]} :: multiset(r)[c] == if c.phone == phone then 0 else multiset(cs)[c]
    ensures Seqs.IsSubsequence(r, cs)
  {
    Seqs.RemoveWhere(cs, HasPhone(phone))
  }

  /** The first customer with that phone number, as a registry position (the
      lookup the order flow performs before attaching an order to a customer). */
  function FindCustomer(cs: seq<Customer>, phone: string): (r: Option<nat>)
    ensures r.Some? ==> r.value < |cs| && cs[r.value].phone == phone
    ensures r.Some? ==> forall j :: 0 <= j < r.value ==> cs[j].phone != phone
    ensures r.None? <==> forall j :: 0 <= j < |cs| ==> cs[j].phone != phone
  {
    Seqs.FirstWhere(cs, HasPhone(phone))
  }

  /** Adding a customer and removing their phone number leaves the registry as
      removing that phone number alone would. */
  lemma RemoveCustomerAfterAdd(cs: seq<Customer>, c: Customer)
    ensures RemoveCustomer(AddCustomer(cs, c), c.phone) == RemoveCustomer(cs, c.phone)
  {
    Seqs.RemoveWhereDropLast(cs, c, HasPhone(c.phone));
  }

  /** Removing a phone number twice removes nothing more. */
  lemma RemoveCustomerIdempotent(cs: seq<Customer>, phone: string)
    ensures RemoveCustomer(RemoveCustomer(cs, phone), phone) == RemoveCustomer(cs, phone)
  {
    Seqs.RemoveWhereIdempotent(cs, HasPhone(phone));
  }

  /** Removing a phone number nobody has leaves the registry as it is. */
  lemma RemoveUnknownCustomer(cs: seq<Customer>, phone: string)
    requires FindCustomer(cs, phone).None?
    ensures RemoveCustomer(cs, phone) == cs
  {
    Seqs.RemoveWhereNothing(cs, HasPhone(phone));
  }
}
