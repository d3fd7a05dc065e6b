/** The inventory store: per-product available quantities and the one
    conditional update that consumes them (ProductRepository). */
module Inventory {

  /** Available quantity per product id; an id that is not a key has no row. */
  type Stock = map<int, int>

  /** The guard of the update: the row exists and its quantity is positive. */
  predicate InStock(s: Stock, id: int)
  {
    id in s && s[id] > 0
  }

  /** No product holds a negative quantity. */
  predicate NonNegative(s: Stock)
  {
    forall id :: id in s ==> s[id] >= 0
  }

  /** The store after an update, with the number of rows the update touched. */
  datatype Update = Update(stock: Stock, rows: int)

  /** The conditional update `available := available - 1` on the row with the
      given id, restricted to rows whose quantity is positive. */
  function Decrement(s: Stock, id: int): (r: Update)
    ensures r.rows == 1 <==> InStock(s, id)
    ensures r.rows == 0 <==> !InStock(s, id)
    ensures r.stock.Keys == s.Keys
    ensures InStock(s, id) ==> r.stock[id] == s[id] - 1
    ensures !InStock(s, id) ==> r.stock == s
    ensures forall other :: other in s && other != id ==> r.stock[other] == s[other]
    ensures NonNegative(s) ==> NonNegative(r.stock)
  {
    if InStock(s, id) then Update(s[id := s[id] - 1], 1) else Update(s, 0)
  }

  function Min(a: int, b: int): int
  {
    if a <= b then a else b
  }

  /** Units the update can still hand out for a product. */
  function Units(s: Stock, id: int): nat
  {
    if InStock(s, id) then s[id] else 0
  }

  /** The store and the number of successful updates after `n` updates on
      the same product, one after another. */
  datatype Run = Run(stock: Stock, successes: nat)

  function Repeated(s: Stock, id: int, n: nat): Run
  {
    if n == 0 then Run(s, 0)
    else
      var prev := Repeated(s, id, n - 1);
      var u := Decrement(prev.stock, id);
      Run(u.stock, prev.successes + (if u.rows > 0 then 1 else 0))
  }

  /** `n` successive updates on a product with `k` units succeed exactly
      `min(n, k)` times and leave `k - min(n, k)` units; no other product
      changes and a missing product stays missing. */
  lemma {:induction false} RepeatedDecrements(s: Stock, id: int, n: nat)
    ensures Repeated(s, id, n).successes == Min(n, Units(s, id))
    ensures Repeated(s, id, n).stock ==
              if id in s then s[id := s[id] - Min(n, Units(s, id))] else s
  {
    if n > 0 {
      RepeatedDecrements(s, id, n - 1);
      var prev := Repeated(s, id, n - 1);
      if id in s {
        assert prev.stock[id] == s[id] - Min(n - 1, Units(s, id));
        assert InStock(prev.stock, id) <==> n - 1 < Units(s, id);
      }
    }
  }

  /** Sequential counterpart of firing 100 updates at a product holding 9
      units: 9 succeed, 91 fail, and the product ends with 0 units. */
  lemma NineUnitsHundredCalls(id: int)
    ensures Repeated(map[id := 9], id, 100).successes == 9
    ensures Repeated(map[id := 9], id, 100).stock == map[id := 0]
  {
    RepeatedDecrements(map[id := 9], id, 100);
    assert map[id := 9][id := 0] == map[id := 0];
  }

  /** The product table as the service sees it. */
  class ProductRepository {
    var stock: Stock

    constructor (initial: Stock)
      ensures stock == initial
    {
      stock := initial;
    }

    /** Decrements the product's quantity by one when it is positive and
        reports the number of rows updated (1 or 0). */
    method DecrementStockIfAvailable(id: int) returns (rows: int)
      modifies this
      ensures Update(stock, rows) == Decrement(old(stock), id)
      ensures rows == 1 <==> InStock(old(stock), id)
      ensures NonNegative(old(stock)) ==> NonNegative(stock)
    {
      if id in stock && stock[id] > 0 {
        stock := stock[id := stock[id] - 1];
        rows := 1;
      } else {
        rows := 0;
      }
    }
  }
}
