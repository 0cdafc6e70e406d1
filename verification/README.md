# Inventory and order core, modelled in Dafny

This project models the in-memory part of a small shop-management program:
the product catalogue (`Store`), the customer registry (`CustomerManager`,
`Customer`), orders (`Order`), the order ledger (`OrderManager`) and the
revenue report (`Report.calculate_revenue`), all in `Untitled-1.py`.

Python products are mutable objects shared by reference. The catalogue's list
and every order line point at the same object. A stock decrement made by
`add_item`, or a price change made by `update_product`, is therefore visible to
every order holding that product, and `total_price` always reads the current
price. The model makes this sharing explicit:

- `Catalog.Store` pairs a `heap` with the store's list `products`. The heap holds
  every product object ever created, addressed by a `ProductId`. The list holds ids.
- The heap only grows. `remove_product` filters the list and leaves the object in
  place, as Python does for an object that an order still references.
- An order line (`Orders.Line`) holds a `ProductId` and a quantity.
- `Orders.AddItem` and `Catalog.UpdateProduct` write through `heap[id]`.
- `Orders.TotalPrice` and `Ledger.Revenue` read prices from the heap at the time
  they are called.

Everything is a pure function over immutable values. An operation returns the
new store, order or registry instead of mutating one.

Modules, one per component:

- `Wrappers`: `Option`, which stands in for `None`.
- `Seqs`: the two list idioms the program uses. `RemoveWhere` is the comprehension
  `[x for x in xs if not drop(x)]`. `FirstWhere` is the loop that returns the first hit.
- `Catalog`: `Product`, `Store`, and `add_product`, `remove_product`,
  `find_product`, `update_product`.
- `Orders`: `Order`, `add_item`, `apply_discount`, `total_price`.
- `Customers`: `Customer`, `add_order`, `add_customer`, `remove_customer`, and
  the lookup by phone number.
- `Ledger`: `OrderManager.add_order` and `Report.calculate_revenue`.
- `Scenarios`: one worked session tying the pieces together.

Types:

- Prices and discounts are Dafny `real`. This abstracts Python `float`.
- Stock and quantities are unbounded `int`, as in Python. The code does not
  validate them, so negative values are allowed.
- `if self.discount:` is read as `discount != 0`.

Product names and phone numbers are not unique keys: `add_product` and
`add_customer` append unconditionally, so the model admits duplicates. Find and
update act on the first match only; remove drops every match.

## Model

| member | source | states |
|---|---|---|
| Seqs.RemoveWhere | Untitled-1.py:36-37 | The comprehension keeps exactly the entries not dropped. Each kept entry keeps its multiplicity, and the result is a subsequence of the input, so relative order is preserved. |
| Seqs.FirstWhere | Untitled-1.py:46-50 | The scan returns the position of an entry that matches, with no match before it. It returns `None` exactly when no entry matches. |
| Seqs.RemoveWhereConcat | Untitled-1.py:36-37 | Filtering distributes over concatenation. |
| Seqs.RemoveWhereDropLast | Untitled-1.py:36-37 | An appended entry that matches the filter leaves no trace after filtering. |
| Seqs.RemoveWhereNothing | Untitled-1.py:36-37 | A list with no matching entry comes back unchanged. |
| Seqs.RemoveWhereIdempotent | Untitled-1.py:36-37 | Filtering twice equals filtering once. |
| Seqs.RemoveWhereAgree | Untitled-1.py:36-37 | Two tests that agree on every entry filter the same way. |
| Catalog.Deref | Untitled-1.py:39-44 | The visible catalogue has one product per reference on the list, in list order. |
| Catalog.AddProduct | Untitled-1.py:32-33 | `add_product` appends one reference to the new product at the end of the list. Every earlier reference stays in place as the same id, and the new reference is distinct from all of them. Earlier heap objects are untouched, and the visible catalogue is the old one followed by the new product. |
| Catalog.RemoveProduct | Untitled-1.py:36-37 | After `remove_product` no remaining reference names that product. Every reference to a differently named product survives as often as it occurred before, and references of that name occur zero times. The survivors keep their relative order, and no product object is destroyed. |
| Catalog.FindProduct | Untitled-1.py:46-50 | `find_product` returns a product with that name that sits on the list, with no earlier list entry of that name. It returns `None` exactly when no listed product has that name. |
| Catalog.UpdateProduct | Untitled-1.py:52-61 | `update_product` changes only the first product found. Its price changes only when a price is given, and its stock only when a stock is given. Its name, every other product and the list stay as they were. When nothing is found, nothing changes. |
| Catalog.RemoveProductListing | Untitled-1.py:36-37 | The visible catalogue after `remove_product(name)` is the old catalogue with every product of that name filtered out. |
| Catalog.DerefRemove | Untitled-1.py:36-37 | Filtering references by name and then dereferencing equals dereferencing and then filtering products by name. |
| Catalog.RemoveAfterAdd | Untitled-1.py:32-37 | Adding a product and then removing its name leaves the same references as removing that name without the addition. |
| Catalog.RemoveNewId | Untitled-1.py:32-37 | The reference created by `add_product` is removed together with its name. |
| Catalog.RemoveOnGrownHeap | Untitled-1.py:32-37 | Creating a new product object does not change which existing references match the new product's name. |
| Catalog.FindAfterAdd | Untitled-1.py:32-50 | Names are not unique. After `add_product`, `find_product` still returns an earlier product of that name if there is one. It returns the new product only when it is the first of its name, and `None` otherwise. |
| Catalog.FindAfterAppend | Untitled-1.py:46-50 | Appending one reference to the list changes what `find_product` returns only when no earlier reference carries the name. |
| Catalog.FindIsFirst | Untitled-1.py:46-50 | When position i holds the first product with a given name, `find_product` returns the reference at position i. |
| Catalog.UpdateKeepsFind | Untitled-1.py:52-58 | After an update, `find_product` of the same name finds the same product, because updates never rename. |
| Catalog.UpdateIdempotent | Untitled-1.py:52-58 | Repeating the same update changes nothing more. |
| Catalog.UpdateNothing | Untitled-1.py:52-58 | An update that passes neither price nor stock leaves the store unchanged. |
| Orders.AddItem | Untitled-1.py:108-114 | The line goes in exactly when stock is at least the quantity. On success, exactly one `(product, quantity)` line is appended at the end, and that product's stock becomes the old stock minus the quantity, which is at least 0. Its name and price are kept. On failure, the heap and the order are unchanged. No other product changes either way, and line references stay valid. |
| Orders.ApplyDiscount | Untitled-1.py:116-117 | The discount is replaced, not accumulated. The lines are kept. |
| Orders.SubtotalConcat | Untitled-1.py:121 | The sum over a concatenation of lines is the sum of the two sums. |
| Orders.SubtotalReadsPrices | Untitled-1.py:121 | The sum depends only on prices. Two heaps with equal prices give equal sums, whatever the stock. |
| Orders.SubtotalAfterReprice | Untitled-1.py:121 | Live pricing. Changing one product's price shifts the sum by the price difference times the units of that product on the lines. |
| Orders.UpdatePriceReprices | Untitled-1.py:52-56 | A price update through `update_product` retroactively reprices every order holding the product found: the order's undiscounted sum changes by the price difference times the units the order holds. |
| Orders.UpdatePriceRepricesTotal | Untitled-1.py:52-56 | The same holds for the order's `total_price`: it changes by the price difference times the units held, times `1 - d/100` for the order's discount d. |
| Orders.SubtotalAppend | Untitled-1.py:121 | Appending one line raises the sum by exactly that line's price times quantity. This holds by definition, after one unfolding of the sum. |
| Orders.DecrementAndAppend | Untitled-1.py:109-111 | Lowering a product's stock and appending a line for it raises the order's sum by exactly the product's price times the quantity. |
| Orders.AddItemSubtotal | Untitled-1.py:108-111 | A successful `add_item` raises the order's sum by exactly the product's price times the quantity. |
| Orders.AddItemConservesStock | Untitled-1.py:108-111 | For every product, stock plus units on the order is the same before and after `add_item`. This holds whether the call succeeds or fails. |
| Orders.AddItemKeepsOtherTotals | Untitled-1.py:111 | The stock decrement made by `add_item` leaves the total of every other order unchanged. |
| Orders.TotalPrice | Untitled-1.py:120-124 | The total equals the sum of price times quantity over the lines, times `1 - d/100`, for every discount d. This covers d = 0, where the scaling is skipped and the total is the plain sum. With non-negative prices and quantities and a discount between 0 and 100, the total lies between 0 and the undiscounted sum. |
| Orders.TotalPriceEmpty | Untitled-1.py:120-124 | An order with no lines totals 0 for any discount. |
| Orders.DiscountNotCumulative | Untitled-1.py:116-124 | After two calls to `apply_discount`, the total is the one the last discount alone gives. |
| Orders.SubtotalNonNegative | Untitled-1.py:121 | If every line has a non-negative price and quantity, the sum is non-negative. |
| Customers.NewCustomer | Untitled-1.py:64-67 | A new customer has the given name and phone and an empty order history. |
| Customers.AddOrder | Untitled-1.py:69-70 | The order history only grows at its end: the old history is a prefix and the new order is last. Name and phone are kept. |
| Customers.AddCustomer | Untitled-1.py:88-89 | The customer is appended and earlier entries are unchanged. There is no duplicate check, so a customer registered earlier under the same phone keeps being the one the lookup finds. The new customer is found only when no earlier customer has that phone. |
| Customers.RemoveCustomer | Untitled-1.py:92-93 | No remaining customer has that phone number. Every customer with a different phone number survives as often as they occurred before, including equal duplicates. Survivors keep their relative order. |
| Customers.FindCustomer | Untitled-1.py:215 | The lookup by phone returns the first customer with that phone, or `None` exactly when there is none. |
| Customers.RemoveCustomerAfterAdd | Untitled-1.py:88-93 | Adding a customer and removing their phone number gives the same registry as only removing it. |
| Customers.RemoveCustomerIdempotent | Untitled-1.py:92-93 | Removing a phone number twice removes nothing more. |
| Customers.RemoveUnknownCustomer | Untitled-1.py:92-93 | Removing a phone number nobody has leaves the registry unchanged. |
| Ledger.AddOrder | Untitled-1.py:136-137 | Orders are kept in submission order, and the new one is last. |
| Ledger.CalculateRevenue | Untitled-1.py:151-153 | The one-pass sum over the orders equals the revenue, the sum of every order's total. |
| Ledger.Revenue | Untitled-1.py:152 | The revenue is the sum of every order's total, read from the current product prices. It is never negative when every order has non-negative prices and quantities and a discount between 0 and 100. |
| Ledger.RevenueEmpty | Untitled-1.py:151-153 | The revenue of no orders is 0. This holds by definition. |
| Ledger.RevenueConcat | Untitled-1.py:151-153 | Revenue is additive over concatenation of order lists. |
| Ledger.RevenueAddOrder | Untitled-1.py:136-153 | Recording an order raises the revenue by exactly that order's total. This holds by definition, after one unfolding of the revenue. |
| Scenarios.PenStocked | Untitled-1.py:32-50 | Adding a Pen to an empty store lists it under id 0, and `find_product("Pen")` finds it. |
| Scenarios.PenTaken | Untitled-1.py:108-114 | Ordering 3 of 5 pens leaves stock 2. A further request for 10 is refused and changes nothing. |
| Scenarios.PenPriced | Untitled-1.py:120-124 | Three pens at 10.0 total 30.0, or 27.0 with a 10% discount. A ledger holding that one order reports revenue of 27.0. |

## Left out

- The interactive menu loop (`main`, lines 155-256) is console input parsing and dispatch. Only the customer lookup it performs inline (line 215) is modelled, as `Customers.FindCustomer`. Also left out:
  - its mapping of an empty or zero price or stock to "no change" (line 195);
  - an order entered with no phone reuses `customer` from an earlier menu choice (lines 200, 215) and is attached to that customer at line 237, or raises `UnboundLocalError` when nothing was bound.
- Loading and saving `products.json` (lines 17-30) is file I/O. The store starts from `Catalog.EmptyStore`. The loader's reference to an undefined `product_data` (line 21) is not reproduced.
- Printing, `__str__` and the `list_*` methods are output text. `Catalog.Deref` models only the order in which `list_products` shows the catalogue.
- IEEE floating-point rounding is not modelled. Prices and discounts are exact reals.
- `Catalog.AddProduct` always creates a fresh product object. Python could append the same object twice, but the program never does.
- Recorded orders are values. The ledger and a customer's history hold equal copies rather than one shared object. This is indistinguishable here, because no code mutates an order once it is recorded.
