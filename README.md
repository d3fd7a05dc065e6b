# Order fulfilment policy engine: a Dafny model

This project models the order-fulfilment core of a Spring service. It covers
two pieces:

- `OrderProcessingService` looks an order up and walks its items. It
  dispatches each item on its product type: NORMAL, SEASONAL or EXPIRABLE.
  Each type has its own rule for whether to consume one unit of stock, and a
  collaborator call to make when the item cannot be fulfilled. Those calls are
  a delay notification, the seasonal fallback and the expired fallback.
- `ProductRepository.decrementStockIfAvailable` is the conditional update
  `available := available - 1` on the product row. It applies only when
  `available > 0` and returns the number of rows it updated.

The model has two modules:

- `Inventory` (`inventory.dfy`) holds the stock as a `map<int, int>` from
  product id to available quantity. An id that is not a key has no row. The
  pure specification of the update is `Decrement`. The class
  `ProductRepository` holds the map and updates it in place with
  `DecrementStockIfAvailable`. `Repeated` and its lemmas describe N successive
  updates, the sequential counterpart of the repository's concurrency test.
- `Fulfilment` (`fulfilment.dfy`) defines the product, the order and the log
  of collaborator calls (`Call`). The per-type effect functions
  (`NormalEffect`, `SeasonalEffect`, `ExpirableEffect`), the dispatch
  (`ProductEffect`) and the loop over an order's items (`ItemsEffect`) are the
  specification. The class `OrderProcessingService` carries the stock
  repository and an append-only log `calls` of every call made to a
  collaborator. That log holds the update attempts and the three
  notifications, and it is how "exactly one attempt" or "the fallback is
  called once" is stated. Each handler method is proved against its effect
  function, and the policy properties are proved as lemmas about those
  functions.

Dates are whole day numbers. `LocalDate.now()` becomes a parameter `today`,
and `isAfter` / `isBefore` become strict `<`. An order's item set becomes a
sequence in the set's iteration order. The lemma `ItemOrderIrrelevant` shows
that this order does not matter: exchanging two neighbouring items of
different products changes neither the final stock nor which calls are made.

## Model

| member | source | states |
|---|---|---|
| Inventory.Repeated | api/src/test/java/com/nimbleways/springboilerplate/services/implementations/StockUpdateIntegrationTest.java:40-59 | Reference definition, no ensures of its own: N updates on one product, one after another, with the count of successes. `RepeatedDecrements` states its closed form. |
| Fulfilment.Updated | api/src/main/java/com/nimbleways/springboilerplate/services/implementations/OrderProcessingService.java:72-75 | Reference definition, no ensures of its own: `updatedRows > 0`. `UpdateStock` and `NormalPolicy` state what it decides. |
| Fulfilment.InSeason | api/src/main/java/com/nimbleways/springboilerplate/services/implementations/OrderProcessingService.java:56-58 | Reference definition, no ensures of its own: today is strictly after the season start and strictly before the season end. `SeasonalPolicy` states its consequences, including both boundary days. |
| Fulfilment.NotExpired | api/src/main/java/com/nimbleways/springboilerplate/services/implementations/OrderProcessingService.java:66 | Reference definition, no ensures of its own: the expiry date is strictly after today. `ExpirablePolicy` states its consequences, including expiry today. |
| Fulfilment.NormalEffect | api/src/main/java/com/nimbleways/springboilerplate/services/implementations/OrderProcessingService.java:47-53 | Reference definition, no ensures of its own: the stock and calls of handleNormalProduct. `NormalPolicy` states its properties and `HandleNormalProduct` is proved equal to it. |
| Fulfilment.SeasonalEffect | api/src/main/java/com/nimbleways/springboilerplate/services/implementations/OrderProcessingService.java:55-63 | Reference definition, no ensures of its own: the stock and calls of handleSeasonalProduct, with the season check short-circuiting the update. `SeasonalPolicy` states its properties and `HandleSeasonalProduct` is proved equal to it. |
| Fulfilment.ExpirableEffect | api/src/main/java/com/nimbleways/springboilerplate/services/implementations/OrderProcessingService.java:65-70 | Reference definition, no ensures of its own: the stock and calls of handleExpirableProduct, with the expiry check short-circuiting the update. `ExpirablePolicy` states its properties and `HandleExpirableProduct` is proved equal to it. |
| Fulfilment.ProductEffect | api/src/main/java/com/nimbleways/springboilerplate/services/implementations/OrderProcessingService.java:31-45 | Reference definition, no ensures of its own: the exhaustive dispatch of processProduct. `ProductEffectCalls`, `ProductEffectStock`, `ProductEffectFrame` and `ProductEffectLocal` state its properties. |
| Fulfilment.Eligible | api/src/main/java/com/nimbleways/springboilerplate/services/implementations/OrderProcessingService.java:57-58 | Reference definition, no ensures of its own: whether the item's type lets it attempt the update (always for NORMAL, the season check for SEASONAL, the expiry check for EXPIRABLE). `ProductEffectStock` uses it. |
| Fulfilment.Sequenced | api/src/main/java/com/nimbleways/springboilerplate/services/implementations/OrderProcessingService.java:26-28 | Reference definition, no ensures of its own: walking items in order, each from the store the previous one left. `SequencedStockAppend` and `SequencedCallsAppend` state how it splits. |
| Fulfilment.Step | api/src/main/java/com/nimbleways/springboilerplate/services/implementations/OrderProcessingService.java:26-28 | Reference definition, no ensures of its own: the loop body of processOrder on a given day, `processProduct` of one item. |
| Fulfilment.ItemsEffect | api/src/main/java/com/nimbleways/springboilerplate/services/implementations/OrderProcessingService.java:25-28 | Reference definition, no ensures of its own: the loop of processOrder over an order's items. `ItemsEffectCounts`, `ItemsEffectFrame` and `ItemOrderIrrelevant` state its properties, and `ProcessOrder`'s loop is proved to follow it. |
| Inventory.Decrement | api/src/main/java/com/nimbleways/springboilerplate/repositories/ProductRepository.java:19-22 | The update touches one row exactly when the product exists with a positive quantity. In that case it lowers that quantity by exactly 1 and reports 1. Otherwise it changes nothing and reports 0. No other product changes, no row appears or disappears, and a store without negative quantities stays without them. |
| Inventory.ProductRepository.DecrementStockIfAvailable | api/src/main/java/com/nimbleways/springboilerplate/repositories/ProductRepository.java:21-22 | The in-place update leaves the store and the row count that `Decrement` gives for the old store. It returns 1 iff the product was in stock, and it preserves non-negativity. |
| Inventory.RepeatedDecrements | api/src/test/java/com/nimbleways/springboilerplate/services/implementations/StockUpdateIntegrationTest.java:29-62 | N successive updates on a product with K units succeed exactly min(N, K) times. They leave K - min(N, K) units and change nothing else. A missing product stays missing and no update on it succeeds. |
| Inventory.NineUnitsHundredCalls | api/src/test/java/com/nimbleways/springboilerplate/services/implementations/StockUpdateIntegrationTest.java:31-62 | 100 updates on a product holding 9 units: 9 succeed and the product ends with 0 units. |
| Fulfilment.Attempts | api/src/test/java/com/nimbleways/springboilerplate/services/implementations/OrderProcessingTests.java:99-100 | The number of update attempts in a call log is at most the log's length. It is zero iff no call in the log is an update attempt. This is the count of `decrementStockIfAvailable` calls that the unit tests check with "times(n)" (also OrderProcessingTests.java:154); each `updateStock` call (OrderProcessingService.java:72-75) adds one. |
| Fulfilment.Occurrences | api/src/test/java/com/nimbleways/springboilerplate/services/implementations/OrderProcessingTests.java:99-100 | The number of times a given call occurs in the log is at most the log's length. It is positive iff the call is in the log. This is the "times(n)" of the unit tests. |
| Fulfilment.AttemptsAppend | api/src/main/java/com/nimbleways/springboilerplate/services/implementations/OrderProcessingService.java:26-28 | Attempts in two consecutive stretches of the log add up. |
| Fulfilment.NormalPolicy | api/src/main/java/com/nimbleways/springboilerplate/services/implementations/OrderProcessingService.java:47-53 | A NORMAL item makes exactly one update attempt. If the product is in stock, nothing is notified. If it is not in stock and the lead time is positive, exactly one delay notification with that lead time is sent. If the lead time is 0 or less, nothing is sent. The stock is what the update leaves. |
| Fulfilment.SeasonalPolicy | api/src/main/java/com/nimbleways/springboilerplate/services/implementations/OrderProcessingService.java:55-63 | A SEASONAL item makes one update attempt iff season start < today < season end, and none otherwise. Out of season the stock is untouched. The seasonal fallback is its only notification and is sent exactly once unless the item is in season and in stock. On the first and the last day of the season there are zero attempts, the stock is unchanged and the fallback is called once. |
| Fulfilment.ExpirablePolicy | api/src/main/java/com/nimbleways/springboilerplate/services/implementations/OrderProcessingService.java:65-70 | An EXPIRABLE item makes one update attempt iff expiry date > today, and none otherwise. Once expired, the stock is untouched. The expired fallback is its only notification and is sent exactly once unless the item is unexpired and in stock. A product expiring today counts as expired. |
| Fulfilment.ProductEffectCalls | api/src/main/java/com/nimbleways/springboilerplate/services/implementations/OrderProcessingService.java:31-45 | Whatever its type, one item makes at most one update attempt and at most one notification, and every call concerns the item's own product. |
| Fulfilment.ProductEffectStock | api/src/main/java/com/nimbleways/springboilerplate/services/implementations/OrderProcessingService.java:31-75 | An item takes exactly one unit of its product iff its type's eligibility check passes and the product is in stock. Otherwise the store is unchanged. |
| Fulfilment.ProductEffectFrame | api/src/main/java/com/nimbleways/springboilerplate/services/implementations/OrderProcessingService.java:31-45 | One item changes no product but its own and makes no quantity negative. |
| Fulfilment.ProductEffectLocal | api/src/main/java/com/nimbleways/springboilerplate/services/implementations/OrderProcessingService.java:72-75 | The calls an item makes depend on the store only through its own product's row. |
| Fulfilment.SequencedStockAppend | api/src/main/java/com/nimbleways/springboilerplate/services/implementations/OrderProcessingService.java:26-28 | Walking `xs + ys` leaves the same store as walking `xs` and then `ys` from where `xs` left it. |
| Fulfilment.SequencedCallsAppend | api/src/main/java/com/nimbleways/springboilerplate/services/implementations/OrderProcessingService.java:26-28 | Walking `xs + ys` makes the calls of `xs` followed by the calls of `ys`. |
| Fulfilment.ItemsEffectCounts | api/src/main/java/com/nimbleways/springboilerplate/services/implementations/OrderProcessingService.java:25-28 | An order makes at most one update attempt and at most one notification per item. |
| Fulfilment.ItemsEffectFrame | api/src/main/java/com/nimbleways/springboilerplate/services/implementations/OrderProcessingService.java:25-28 | An order changes no product outside it, keeps the set of rows, and makes no quantity negative. |
| Fulfilment.ItemsEffectPair | api/src/main/java/com/nimbleways/springboilerplate/services/implementations/OrderProcessingService.java:26-28 | Two items are processed one after the other, the second from the store the first left. |
| Fulfilment.StockCommutes | api/src/main/java/com/nimbleways/springboilerplate/services/implementations/OrderProcessingService.java:26-28 | Two items of different products leave the same store in either order. |
| Fulfilment.SwapItems | api/src/main/java/com/nimbleways/springboilerplate/services/implementations/OrderProcessingService.java:26-28 | Two items of different products, processed in either order, leave the same store and make the same multiset of calls. |
| Fulfilment.ItemOrderIrrelevant | api/src/main/java/com/nimbleways/springboilerplate/services/implementations/OrderProcessingService.java:25-28 | The item set has no defined order. Exchanging two neighbouring items of different products anywhere in the walk leaves the same final store and the same multiset of calls. |
| Fulfilment.OrderEffect | api/src/main/java/com/nimbleways/springboilerplate/services/implementations/OrderProcessingService.java:21-29 | The result is a failure iff the order id is unknown, and the failure is OrderNotFound carrying that id. A found order makes at most one attempt and one notification per item and keeps stock non-negative. |
| Fulfilment.OrderProcessingService.ProcessOrder | api/src/main/java/com/nimbleways/springboilerplate/services/implementations/OrderProcessingService.java:21-29 | An unknown order fails with OrderNotFound(id) and touches neither the stock nor the call log. Otherwise the stock and the appended calls are those of `OrderEffect`. |
| Fulfilment.OrderProcessingService.ProcessProduct | api/src/main/java/com/nimbleways/springboilerplate/services/implementations/OrderProcessingService.java:31-45 | The exhaustive dispatch leaves the stock and the appended calls that `ProductEffect` gives. |
| Fulfilment.OrderProcessingService.HandleNormalProduct | api/src/main/java/com/nimbleways/springboilerplate/services/implementations/OrderProcessingService.java:47-53 | The in-place handler leaves the stock and appended calls that `NormalEffect` gives. |
| Fulfilment.OrderProcessingService.HandleSeasonalProduct | api/src/main/java/com/nimbleways/springboilerplate/services/implementations/OrderProcessingService.java:55-63 | The in-place handler, with the short-circuiting season check, leaves what `SeasonalEffect` gives. |
| Fulfilment.OrderProcessingService.HandleExpirableProduct | api/src/main/java/com/nimbleways/springboilerplate/services/implementations/OrderProcessingService.java:65-70 | The in-place handler, with the short-circuiting expiry check, leaves what `ExpirableEffect` gives. |
| Fulfilment.OrderProcessingService.UpdateStock | api/src/main/java/com/nimbleways/springboilerplate/services/implementations/OrderProcessingService.java:72-75 | One logged update attempt. It reports success iff the product was in stock, that is iff the update touched a row. |
| Fulfilment.UpdateStockTimes | api/src/test/java/com/nimbleways/springboilerplate/services/implementations/StockUpdateIntegrationTest.java:37-62 | N successive `updateStock` calls succeed min(N, K) times on a product with K units, and leave the store that `Repeated` gives. The call log gains exactly N update attempts on that product and nothing else. |

## Left out

- The default branch of the type switch, which throws "Unknown product type": the product type is a closed datatype and every match over it is exhaustive, so that branch cannot be reached. A null product type is not modelled.
- The text of the "Order not found: <id>" message: the failure carries the order id but no message string.
- `LocalDate.now()` and calendar arithmetic: dates are integer day numbers, and one `today` is passed to `ProcessOrder`. The source reads the clock separately in each handler, so an order processed across midnight could see two dates. The model does not capture that.
- Concurrency: the concurrency test fires 100 updates from a thread pool. The model proves the sequential outcome (`RepeatedDecrements`, `UpdateStockTimes`). Atomicity of the update under concurrent callers is the database's guarantee and is not modelled.
- JPA and Spring machinery: repository inheritance, `findById`, `findFirstByName`, transactions, entity mapping and dependency injection. The order table is a read-only `map<int, Order>` and the product table a `map<int, int>` of quantities.
- The internal behaviour of `ProductService.notifyDelay`, `handleSeasonalProduct` and `handleExpiredProduct`: they are recorded as entries of the call log and do nothing else.
- `OrdersController`: it only forwards to `processOrder` and wraps the id in a response.
- Integer width: quantities, ids, lead times and dates are unbounded integers. The guard `available > 0` means a decrement can never wrap around.
- The unit tests stub the repository's return value with a mock. The model instead derives the result from the stock, so "stub returns 1" corresponds to a product in stock and "stub returns 0" to one out of stock.
