/** The order-fulfilment policy engine (OrderProcessingService): for each item
    of an order, a per-type decision whether to consume one unit of stock and
    which collaborator to notify when the item cannot be fulfilled. */
module Fulfilment {
  import opened Inventory

  /** The closed set of product types; every match over it is exhaustive. */
  datatype ProductType = Normal | Seasonal | Expirable

  /** A product as the engine reads it. Dates are day numbers. */
  datatype Product = Product(
    id: int,
    kind: ProductType,
    leadTime: int,
    seasonStart: int,
    seasonEnd: int,
    expiryDate: int)

  /** An order, as its items: the product set in the set's iteration order. */
  datatype Order = Order(items: seq<Product>)

  /** One call from the engine to a collaborator: the conditional stock
      update, or one of the three fire-and-forget notifications. */
  datatype Call =
    | DecrementStock(productId: int)
    | NotifyDelay(leadTime: int, productId: int)
    | HandleSeasonal(productId: int)
    | HandleExpired(productId: int)

  datatype ProcessingError = OrderNotFound(orderId: int)

  datatype Result<T> = Success(value: T) | Failure(error: ProcessingError)

  /** What processing leaves behind: the store and the calls made, in order. */
  datatype Effect = Effect(stock: Stock, calls: seq<Call>)

  /** Number of stock update attempts among the calls. */
  function Attempts(calls: seq<Call>): (n: nat)
    ensures n <= |calls|
    ensures n == 0 <==> forall i :: 0 <= i < |calls| ==> !calls[i].DecrementStock?
  {
    if calls == [] then 0
    else (if calls[0].DecrementStock? then 1 else 0) + Attempts(calls[1..])
  }

  /** Number of times `c` occurs among the calls. */
  function Occurrences(calls: seq<Call>, c: Call): (n: nat)
    ensures n <= |calls|
    ensures n > 0 <==> c in calls
  {
    if calls == [] then 0
    else (if calls[0] == c then 1 else 0) + Occurrences(calls[1..], c)
  }

  /** Number of notifications among the calls: every call that is not an
      update attempt. */
  function Notifications(calls: seq<Call>): nat
  {
    |calls| - Attempts(calls)
  }

  lemma {:induction false} AttemptsAppend(a: seq<Call>, b: seq<Call>)
    ensures Attempts(a + b) == Attempts(a) + Attempts(b)
  {
    if a != [] {
      assert (a + b)[0] == a[0];
      assert (a + b)[1..] == a[1..] + b;
      AttemptsAppend(a[1..], b);
    } else {
      assert a + b == b;
    }
  }

  /** `updateStock` reports success exactly when a row was updated. */
  predicate Updated(rows: int)
  {
    rows > 0
  }

  /** Seasonal eligibility: strictly after the season start and strictly
      before the season end. */
  predicate InSeason(p: Product, today: int)
  {
    p.seasonStart < today && today < p.seasonEnd
  }

  /** Expirable eligibility: the expiry date is strictly after today, so a
      product expiring today counts as expired. */
  predicate NotExpired(p: Product, today: int)
  {
    p.expiryDate > today
  }

  /** handleNormalProduct: always one update attempt; the delay notification
      follows only a failed attempt with a positive lead time. */
  function NormalEffect(s: Stock, p: Product): Effect
  {
    var u := Decrement(s, p.id);
    var notify := if !Updated(u.rows) && p.leadTime > 0 then [NotifyDelay(p.leadTime, p.id)] else [];
    Effect(u.stock, [DecrementStock(p.id)] + notify)
  }

  /** handleSeasonalProduct: the season check comes first and short-circuits
      the update attempt; the seasonal fallback follows a failed check or a
      failed attempt. */
  function SeasonalEffect(s: Stock, p: Product, today: int): Effect
  {
    if InSeason(p, today) then
      var u := Decrement(s, p.id);
      if Updated(u.rows) then Effect(u.stock, [DecrementStock(p.id)])
      else Effect(u.stock, [DecrementStock(p.id), HandleSeasonal(p.id)])
    else Effect(s, [HandleSeasonal(p.id)])
  }

  /** handleExpirableProduct: the expiry check comes first and short-circuits
      the update attempt; the expired fallback follows a failed check or a
      failed attempt. */
  function ExpirableEffect(s: Stock, p: Product, today: int): Effect
  {
    if NotExpired(p, today) then
      var u := Decrement(s, p.id);
      if Updated(u.rows) then Effect(u.stock, [DecrementStock(p.id)])
      else Effect(u.stock, [DecrementStock(p.id), HandleExpired(p.id)])
    else Effect(s, [HandleExpired(p.id)])
  }

  /** processProduct: dispatch on the product type. The match is exhaustive,
      so the source's "unknown product type" branch has no counterpart. */
  function ProductEffect(s: Stock, p: Product, today: int): Effect
  {
    match p.kind
    case Normal => NormalEffect(s, p)
    case Seasonal => SeasonalEffect(s, p, today)
    case Expirable => ExpirableEffect(s, p, today)
  }

  /** A normal item makes exactly one update attempt. A successful attempt
      sends nothing; a failed one sends one delay notification carrying the
      lead time when that is positive, and nothing otherwise. */
  lemma NormalPolicy(s: Stock, p: Product)
    ensures var r := NormalEffect(s, p);
      && Attempts(r.calls) == 1 && Occurrences(r.calls, DecrementStock(p.id)) == 1
      && (InStock(s, p.id) ==> Notifications(r.calls) == 0)
      && (!InStock(s, p.id) && p.leadTime > 0 ==>
            Notifications(r.calls) == 1 && Occurrences(r.calls, NotifyDelay(p.leadTime, p.id)) == 1)
      && (!InStock(s, p.id) && p.leadTime <= 0 ==> Notifications(r.calls) == 0)
      && r.stock == Decrement(s, p.id).stock
  {
  }

  /** A seasonal item makes one update attempt when strictly inside its
      season and none otherwise (the store is then untouched). The seasonal
      fallback, its only possible notification, is sent exactly once unless
      the item is in season and the attempt succeeds. The first and the last
      day of the season are outside it. */
  lemma SeasonalPolicy(s: Stock, p: Product, today: int)
    ensures var r := SeasonalEffect(s, p, today);
      && Attempts(r.calls) == (if InSeason(p, today) then 1 else 0)
      && Occurrences(r.calls, DecrementStock(p.id)) == Attempts(r.calls)
      && (!InSeason(p, today) ==> r.stock == s)
      && (InSeason(p, today) ==> r.stock == Decrement(s, p.id).stock)
      && Notifications(r.calls) == (if InSeason(p, today) && InStock(s, p.id) then 0 else 1)
      && Notifications(r.calls) == Occurrences(r.calls, HandleSeasonal(p.id))
      && (today == p.seasonStart || today == p.seasonEnd ==>
            Attempts(r.calls) == 0 && r.stock == s && Occurrences(r.calls, HandleSeasonal(p.id)) == 1)
  {
  }

  /** An expirable item makes one update attempt when its expiry date is
      after today and none otherwise (the store is then untouched). The
      expired fallback, its only possible notification, is sent exactly once
      unless the item is unexpired and the attempt succeeds. A product whose
      expiry date is today counts as expired. */
  lemma ExpirablePolicy(s: Stock, p: Product, today: int)
    ensures var r := ExpirableEffect(s, p, today);
      && Attempts(r.calls) == (if NotExpired(p, today) then 1 else 0)
      && Occurrences(r.calls, DecrementStock(p.id)) == Attempts(r.calls)
      && (!NotExpired(p, today) ==> r.stock == s)
      && (NotExpired(p, today) ==> r.stock == Decrement(s, p.id).stock)
      && Notifications(r.calls) == (if NotExpired(p, today) && InStock(s, p.id) then 0 else 1)
      && Notifications(r.calls) == Occurrences(r.calls, HandleExpired(p.id))
      && (p.expiryDate == today ==>
            Attempts(r.calls) == 0 && r.stock == s && Occurrences(r.calls, HandleExpired(p.id)) == 1)
  {
  }

  /** Whatever the type, one item makes at most one update attempt and at
      most one notification, and every call concerns that item's product. */
  lemma ProductEffectCalls(s: Stock, p: Product, today: int)
    ensures var r := ProductEffect(s, p, today);
      && Attempts(r.calls) <= 1 && Notifications(r.calls) <= 1
      && (forall i :: 0 <= i < |r.calls| ==> r.calls[i].productId == p.id)
  {
    match p.kind
    case Normal => NormalPolicy(s, p);
    case Seasonal => SeasonalPolicy(s, p, today);
    case Expirable => ExpirablePolicy(s, p, today);
  }

  /** Whether the item's type lets it attempt the update today. */
  predicate Eligible(p: Product, today: int)
  {
    match p.kind
    case Normal => true
    case Seasonal => InSeason(p, today)
    case Expirable => NotExpired(p, today)
  }

  /** An item takes exactly one unit of its product when it is eligible and
      the product is in stock, and leaves the store as it was otherwise. */
  lemma ProductEffectStock(s: Stock, p: Product, today: int)
    ensures ProductEffect(s, p, today).stock ==
              if Eligible(p, today) && InStock(s, p.id) then s[p.id := s[p.id] - 1] else s
  {
    match p.kind
    case Normal =>
    case Seasonal =>
    case Expirable =>
  }

  /** One item changes no product but its own and no quantity becomes
      negative. */
  lemma ProductEffectFrame(s: Stock, p: Product, today: int)
    ensures var r := ProductEffect(s, p, today);
      && r.stock.Keys == s.Keys
      && (forall other :: other in s && other != p.id ==> r.stock[other] == s[other])
      && (NonNegative(s) ==> NonNegative(r.stock))
  {
    ProductEffectStock(s, p, today);
  }

  /** The calls an item makes depend on the store only through its own
      product's row. */
  lemma ProductEffectLocal(s: Stock, t: Stock, p: Product, today: int)
    requires p.id in s <==> p.id in t
    requires p.id in s ==> s[p.id] == t[p.id]
    ensures ProductEffect(s, p, today).calls == ProductEffect(t, p, today).calls
  {
    assert InStock(s, p.id) == InStock(t, p.id);
    match p.kind
    case Normal =>
      assert NormalEffect(s, p).calls == NormalEffect(t, p).calls;
    case Seasonal =>
      assert SeasonalEffect(s, p, today).calls == SeasonalEffect(t, p, today).calls;
    case Expirable =>
      assert ExpirableEffect(s, p, today).calls == ExpirableEffect(t, p, today).calls;
  }

  /** Processing the items one after another, in the given order, each by
      `step` from the store the previous one left. */
  function Sequenced(s: Stock, items: seq<Product>, step: (Stock, Product) -> Effect): Effect
  {
    if items == [] then Effect(s, [])
    else
      var before := Sequenced(s, items[..|items| - 1], step);
      var last := step(before.stock, items[|items| - 1]);
      Effect(last.stock, before.calls + last.calls)
  }

  /** The per-item step of processOrder on a given day. */
  function Step(today: int): (Stock, Product) -> Effect
  {
    (st: Stock, p: Product) => ProductEffect(st, p, today)
  }

  /** The loop of processOrder over the items of an order. */
  function ItemsEffect(s: Stock, items: seq<Product>, today: int): Effect
  {
    Sequenced(s, items, Step(today))
  }

  /** Processing `xs + ys` leaves the store that processing `ys` leaves
      when started from where `xs` left it. */
  lemma {:induction false} SequencedStockAppend(s: Stock, xs: seq<Product>, ys: seq<Product>, step: (Stock, Product) -> Effect)
    ensures Sequenced(s, xs + ys, step).stock == Sequenced(Sequenced(s, xs, step).stock, ys, step).stock
  {
    if ys == [] {
      assert xs + ys == xs;
    } else {
      var ys', y := ys[..|ys| - 1], ys[|ys| - 1];
      assert (xs + ys)[..|xs + ys| - 1] == xs + ys' && (xs + ys)[|xs + ys| - 1] == y;
      SequencedStockAppend(s, xs, ys', step);
    }
  }

  /** Processing `xs + ys` makes the calls of `xs`, then those of `ys`
      started from where `xs` left the store. */
  lemma {:induction false} SequencedCallsAppend(s: Stock, xs: seq<Product>, ys: seq<Product>, step: (Stock, Product) -> Effect)
    ensures Sequenced(s, xs + ys, step).calls ==
              Sequenced(s, xs, step).calls + Sequenced(Sequenced(s, xs, step).stock, ys, step).calls
  {
    if ys == [] {
      assert xs + ys == xs;
    } else {
      var ys', y := ys[..|ys| - 1], ys[|ys| - 1];
      assert (xs + ys)[..|xs + ys| - 1] == xs + ys' && (xs + ys)[|xs + ys| - 1] == y;
      SequencedCallsAppend(s, xs, ys', step);
      SequencedStockAppend(s, xs, ys', step);
    }
  }

  /** The ids of the products among the items. */
  function Ids(items: seq<Product>): set<int>
  {
    set i | 0 <= i < |items| :: items[i].id
  }

  /** A whole order makes at most one update attempt and at most one
      notification per item. */
  lemma {:induction false} ItemsEffectCounts(s: Stock, items: seq<Product>, today: int)
    ensures Attempts(ItemsEffect(s, items, today).calls) <= |items|
    ensures Notifications(ItemsEffect(s, items, today).calls) <= |items|
  {
    if items != [] {
      var init := items[..|items| - 1];
      ItemsEffectCounts(s, init, today);
      var before := ItemsEffect(s, init, today);
      var last := ProductEffect(before.stock, items[|items| - 1], today);
      ProductEffectCalls(before.stock, items[|items| - 1], today);
      AttemptsAppend(before.calls, last.calls);
    }
  }

  /** A whole order changes no product outside it, and no quantity becomes
      negative. */
  lemma {:induction false} ItemsEffectFrame(s: Stock, items: seq<Product>, today: int)
    ensures ItemsEffect(s, items, today).stock.Keys == s.Keys
    ensures forall id :: id in s && id !in Ids(items) ==> ItemsEffect(s, items, today).stock[id] == s[id]
    ensures NonNegative(s) ==> NonNegative(ItemsEffect(s, items, today).stock)
  {
    if items != [] {
      var init := items[..|items| - 1];
      ItemsEffectFrame(s, init, today);
      var before := ItemsEffect(s, init, today);
      ProductEffectFrame(before.stock, items[|items| - 1], today);
      assert Ids(items) == Ids(init) + {items[|items| - 1].id} by {
        assert forall i :: 0 <= i < |init| ==> init[i] == items[i];
      }
    }
  }

  /** Processing two items is processing the first, then the second. */
  lemma ItemsEffectPair(s: Stock, p: Product, q: Product, today: int)
    ensures ItemsEffect(s, [p, q], today) ==
              var a := ProductEffect(s, p, today);
              var b := ProductEffect(a.stock, q, today);
              Effect(b.stock, a.calls + b.calls)
  {
    assert [p, q][..1] == [p] && [p][..0] == [];
    var a := ProductEffect(s, p, today);
    assert ItemsEffect(s, [], today) == Effect(s, []);
    assert ItemsEffect(s, [p], today) == Effect(a.stock, [] + a.calls);
    assert [] + a.calls == a.calls;
  }

  /** Items of different products leave the same store in either order. */
  lemma StockCommutes(s: Stock, p: Product, q: Product, today: int)
    requires p.id != q.id
    ensures ProductEffect(ProductEffect(s, p, today).stock, q, today).stock ==
            ProductEffect(ProductEffect(s, q, today).stock, p, today).stock
  {
    var sp := ProductEffect(s, p, today).stock;
    var sq := ProductEffect(s, q, today).stock;
    ProductEffectStock(s, p, today);
    ProductEffectStock(s, q, today);
    ProductEffectStock(sp, q, today);
    ProductEffectStock(sq, p, today);
    var pq := ProductEffect(sp, q, today).stock;
    var qp := ProductEffect(sq, p, today).stock;
    assert pq.Keys == qp.Keys;
    forall k | k in pq
      ensures pq[k] == qp[k]
    {
    }
  }

  /** Two items of different products commute: the store ends the same and
      the same calls are made, only in another order. */
  lemma SwapItems(s: Stock, p: Product, q: Product, today: int)
    requires p.id != q.id
    ensures ItemsEffect(s, [p, q], today).stock == ItemsEffect(s, [q, p], today).stock
    ensures multiset(ItemsEffect(s, [p, q], today).calls) == multiset(ItemsEffect(s, [q, p], today).calls)
  {
    ItemsEffectPair(s, p, q, today);
    ItemsEffectPair(s, q, p, today);
    StockCommutes(s, p, q, today);
    var sp := ProductEffect(s, p, today);
    var sq := ProductEffect(s, q, today);
    ProductEffectStock(s, p, today);
    ProductEffectStock(s, q, today);
    ProductEffectLocal(sp.stock, s, q, today);
    ProductEffectLocal(sq.stock, s, p, today);
  }

  /** The items of an order form a set with no defined iteration order: when
      two neighbouring items are of different products, exchanging them
      changes neither the final store nor which calls are made. */
  lemma {:induction false} ItemOrderIrrelevant(s: Stock, xs: seq<Product>, p: Product, q: Product, ys: seq<Product>, today: int)
    requires p.id != q.id
    ensures ItemsEffect(s, xs + [p, q] + ys, today).stock == ItemsEffect(s, xs + [q, p] + ys, today).stock
    ensures multiset(ItemsEffect(s, xs + [p, q] + ys, today).calls) ==
            multiset(ItemsEffect(s, xs + [q, p] + ys, today).calls)
  {
    var a := ItemsEffect(s, xs, today);
    var step := Step(today);
    SequencedStockAppend(s, xs, [p, q], step);
    SequencedStockAppend(s, xs, [q, p], step);
    SequencedStockAppend(s, xs + [p, q], ys, step);
    SequencedStockAppend(s, xs + [q, p], ys, step);
    SequencedCallsAppend(s, xs, [p, q], step);
    SequencedCallsAppend(s, xs, [q, p], step);
    SequencedCallsAppend(s, xs + [p, q], ys, step);
    SequencedCallsAppend(s, xs + [q, p], ys, step);
    SwapItems(a.stock, p, q, today);
  }

  /** processOrder: look the order up, then process its items. */
  function OrderEffect(orders: map<int, Order>, s: Stock, orderId: int, today: int): (r: Result<Effect>)
    ensures r.Failure? <==> orderId !in orders
    ensures r.Failure? ==> r.error == OrderNotFound(orderId)
    ensures r.Success? ==> Attempts(r.value.calls) <= |orders[orderId].items|
    ensures r.Success? ==> Notifications(r.value.calls) <= |orders[orderId].items|
    ensures r.Success? && NonNegative(s) ==> NonNegative(r.value.stock)
  {
    if orderId !in orders then Failure(OrderNotFound(orderId))
    else
      ItemsEffectCounts(s, orders[orderId].items, today);
      ItemsEffectFrame(s, orders[orderId].items, today);
      Success(ItemsEffect(s, orders[orderId].items, today))
  }

  class OrderProcessingService {
    /** The order table, read-only to the engine. */
    const orders: map<int, Order>
    const repository: ProductRepository
    /** Every call the engine has made to its collaborators, oldest first. */
    var calls: seq<Call>

    constructor (orders: map<int, Order>, repository: ProductRepository)
      ensures this.orders == orders && this.repository == repository && calls == []
    {
      this.orders := orders;
      this.repository := repository;
      calls := [];
    }

    /** Fails with OrderNotFound, touching nothing, when the order does not
        exist; otherwise processes every item of the order in turn. */
    method ProcessOrder(orderId: int, today: int) returns (r: Result<()>)
      modifies this, repository
      ensures r.Failure? <==> orderId !in orders
      ensures r.Failure? ==> r.error == OrderNotFound(orderId)
      ensures r.Failure? ==> repository.stock == old(repository.stock) && calls == old(calls)
      ensures r.Success? ==>
                var e := OrderEffect(orders, old(repository.stock), orderId, today).value;
                repository.stock == e.stock && calls == old(calls) + e.calls
    {
      if orderId !in orders {
        return Failure(OrderNotFound(orderId));
      }
      var items := orders[orderId].items;
      ghost var s0, c0 := repository.stock, calls;
      for i := 0 to |items|
        invariant repository.stock == ItemsEffect(s0, items[..i], today).stock
        invariant calls == c0 + ItemsEffect(s0, items[..i], today).calls
      {
        ProcessProduct(items[i], today);
        assert items[..i + 1][..i] == items[..i];
      }
      assert items[..|items|] == items;
      r := Success(());
    }

    method ProcessProduct(p: Product, today: int)
      modifies this, repository
      ensures var e := ProductEffect(old(repository.stock), p, today);
              repository.stock == e.stock && calls == old(calls) + e.calls
    {
      match p.kind
      case Normal => HandleNormalProduct(p);
      case Seasonal => HandleSeasonalProduct(p, today);
      case Expirable => HandleExpirableProduct(p, today);
    }

    method HandleNormalProduct(p: Product)
      modifies this, repository
      ensures var e := NormalEffect(old(repository.stock), p);
              repository.stock == e.stock && calls == old(calls) + e.calls
    {
      var ok := UpdateStock(p);
      if !ok {
        if p.leadTime > 0 {
          calls := calls + [NotifyDelay(p.leadTime, p.id)];
        }
      }
    }

    method HandleSeasonalProduct(p: Product, today: int)
      modifies this, repository
      ensures var e := SeasonalEffect(old(repository.stock), p, today);
              repository.stock == e.stock && calls == old(calls) + e.calls
    {
      if InSeason(p, today) {
        var ok := UpdateStock(p);
        if ok {
          return;
        }
      }
      calls := calls + [HandleSeasonal(p.id)];
    }

    method HandleExpirableProduct(p: Product, today: int)
      modifies this, repository
      ensures var e := ExpirableEffect(old(repository.stock), p, today);
              repository.stock == e.stock && calls == old(calls) + e.calls
    {
      if NotExpired(p, today) {
        var ok := UpdateStock(p);
        if ok {
          return;
        }
      }
      calls := calls + [HandleExpired(p.id)];
    }

    /** One update attempt; true exactly when a row was updated. */
    method UpdateStock(p: Product) returns (ok: bool)
      modifies this, repository
      ensures ok <==> InStock(old(repository.stock), p.id)
      ensures repository.stock == Decrement(old(repository.stock), p.id).stock
      ensures calls == old(calls) + [DecrementStock(p.id)]
    {
      calls := calls + [DecrementStock(p.id)];
      var updatedRows := repository.DecrementStockIfAvailable(p.id);
      ok := Updated(updatedRows);
    }
  }

  /** Sequential counterpart of firing `n` stock updates for one product:
      the calls are made one after another and the successes counted. */
  method UpdateStockTimes(service: OrderProcessingService, p: Product, n: nat) returns (successes: nat)
    modifies service, service.repository
    ensures Run(service.repository.stock, successes) == Repeated(old(service.repository.stock), p.id, n)
    ensures successes == Min(n, Units(old(service.repository.stock), p.id))
    ensures service.calls == old(service.calls) + seq(n, _ => DecrementStock(p.id))
  {
    ghost var s0, c0 := service.repository.stock, service.calls;
    successes := 0;
    for i := 0 to n
      invariant Run(service.repository.stock, successes) == Repeated(s0, p.id, i)
      invariant service.calls == c0 + seq(i, _ => DecrementStock(p.id))
    {
      var ok := service.UpdateStock(p);
      if ok {
        successes := successes + 1;
      }
      assert seq(i + 1, _ => DecrementStock(p.id)) == seq(i, _ => DecrementStock(p.id)) + [DecrementStock(p.id)];
    }
    RepeatedDecrements(s0, p.id, n);
  }
}
