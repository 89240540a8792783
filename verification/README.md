# jpashop order domain in Dafny

This project models the order domain of the jpashop tutorial shop, a Spring/JPA
backend. It covers three parts:

- **Item stock accounting.** `Item.addStock` and `Item.removeStock` maintain each item's stock counter. `removeStock` refuses, with `NotEnoughStock`, any decrement that would take the stock below zero.
- **OrderItem.** An order line records a snapshot of the unit price and the quantity. Creating a line takes its quantity out of the item's stock. Cancelling the line gives the quantity back.
- **Order.** An order aggregates order lines, a delivery and a member. It is created in status `ORDER`. `cancel` moves it to `CANCEL` unless the delivery is `COMP`, and gives back every line's stock. Its total price is the sum of the line totals.

In Java, several OrderItems can share one Item object. The model replaces
those object references with an item store, `Items.ItemStore = map<ItemId, Item>`.
An `OrderItem` holds an `ItemId`. Each operation is a pure function, except `getTotalPrice`, which is a method with a loop proved equal to a recursive sum:

- an operation that changes stock takes a store and returns the new store;
- an operation that can throw returns `Result`, either the new state or the exception (`NotEnoughStock`, `IllegalState`);
- a failure carries no new state, so the store the caller still holds is the unchanged state, as in the Java code, where the check comes before the assignment.

Modules:

- `Wrappers` (wrappers.dfy): `Option` and `Result`.
- `Ids` and `Errors` (common.dfy): the identities and exceptions.
- `Items` (items.dfy): Item, Book and the store.
- `OrderItems` (order_items.dfy).
- `Deliveries` (delivery.dfy): Delivery, reduced to its status and its order.
- `Members` (members.dfy): Member, reduced to the orders list that `setMember` appends to.
- `Orders` (orders.dfy).
- `OrderLifecycle` (lifecycle.dfy): creating several lines, then cancelling.
- `OrderScenarios` (scenarios.dfy): the order-service test cases.

The model keeps the following behaviour of the code, although a cleaner design would differ:

- `Delivery`'s constructor never sets the status, so a delivery's status is `Option<DeliveryStatus>` and may be absent. An absent status is "not `COMP`", so such an order can be cancelled.
- `Order.cancel` has no guard against an order that is already cancelled. A second call succeeds and gives the stock back again (`Orders.CancelTwice`). The model does not make it idempotent.
- `createOrder` accepts zero lines, so an order built by it may be empty.
- `cancel` sets `CANCEL` from any status, and `status` has a public setter. No ORDER-to-CANCEL-only rule is enforced.
- `createOrder` passes the member and delivery through the constructor. It does not call `setMember` or `setDelivery`, so it sets neither `Member.orders` nor `Delivery.order`. Only the order lines get their back-reference.
- `removeStock` and `addStock` do not check the sign of the quantity. A negative removal raises the stock. A negative addition can take it below zero.

## Model

| member | source | states |
|---|---|---|
| Items.NewBook | src/main/java/jpabook/jpashop/domain/item/Book.java:18-23 | A new book has exactly the given name, price and stock (forwarded to Item) and the given author and isbn |
| Items.ChangeItem | src/main/java/jpabook/jpashop/domain/item/Item.java:40-44 | changeItem replaces name, price and stock with the request's values unvalidated; the item's kind (author, isbn) is kept |
| Items.AddStock | src/main/java/jpabook/jpashop/domain/item/Item.java:50-52 | addStock raises the stock by exactly the quantity, with no failure case, and leaves name, price and kind alone |
| Items.RemoveStock | src/main/java/jpabook/jpashop/domain/item/Item.java:54-60 | removeStock succeeds iff quantity ≤ stock, then lowers the stock by the quantity and nothing else; otherwise NotEnoughStock; a success never leaves negative stock |
| Items.RemoveThenAddRestores | src/main/java/jpabook/jpashop/domain/item/Item.java:50-60 | A successful removeStock(q) followed by addStock(q) gives back the original item |
| Items.AddThenRemove | src/main/java/jpabook/jpashop/domain/item/Item.java:50-60 | addStock(q) then removeStock(q) gives back the item when its stock was non-negative, and fails with NotEnoughStock otherwise |
| Items.AddStockTwice | src/main/java/jpabook/jpashop/domain/item/Item.java:50-52 | Two additions equal one addition of their sum |
| Items.ChangeItemKeepsInvariantIff | src/main/java/jpabook/jpashop/domain/item/Item.java:40-44 | changeItem does not validate: the store keeps no-negative-stock exactly when the requested stock is non-negative |
| Items.NewBookKeepsInvariantIff | src/main/java/jpabook/jpashop/domain/item/Item.java:34-38 | The constructor does not validate: adding a new book keeps no-negative-stock exactly when its initial stock is non-negative |
| Items.RemoveStockKeepsInvariant | src/main/java/jpabook/jpashop/domain/item/Item.java:55-59 | A successful removeStock keeps every stock in the store non-negative |
| OrderItems.CreateOrderItem | src/main/java/jpabook/jpashop/domain/OrderItem.java:34-45 | createOrderItem succeeds iff count ≤ the item's stock; the line records item, price and count unchanged, and only that item's stock drops by count; otherwise NotEnoughStock and no line |
| OrderItems.SetOrder | src/main/java/jpabook/jpashop/domain/OrderItem.java:24-28 | Setting the back-reference points the line at the order and keeps its snapshot |
| OrderItems.Cancel | src/main/java/jpabook/jpashop/domain/OrderItem.java:48-50 | Cancelling a line raises its item's stock by the line's count; no other item changes |
| OrderItems.CreateThenCancelRestores | src/main/java/jpabook/jpashop/domain/OrderItem.java:41-50 | A successful create followed by cancel leaves the whole store as it was |
| OrderItems.CancelTwice | src/main/java/jpabook/jpashop/domain/OrderItem.java:48-50 | Line cancel is not idempotent: two calls raise the stock by twice the count |
| OrderItems.LineTotal | src/main/java/jpabook/jpashop/domain/OrderItem.java:55-57 | getTotalPrice is the snapshot orderPrice times count, read from the line only: zero iff either factor is zero, positive iff both factors have the same sign and neither is zero |
| OrderItems.CreatedLineTotal | src/main/java/jpabook/jpashop/domain/OrderItem.java:55-57 | A created line's total is the snapshot price times the count, whatever the item's current price |
| Deliveries.NewDelivery | src/main/java/jpabook/jpashop/domain/Delivery.java:28-30 | A new delivery has no status and no order |
| Orders.NewOrder | src/main/java/jpabook/jpashop/domain/Order.java:41-44 | The constructor keeps member and delivery, with no lines, date or status |
| Orders.CreateStatus | src/main/java/jpabook/jpashop/domain/Order.java:46-49 | createStatus sets status and date and keeps lines, member and delivery |
| Orders.SetMember | src/main/java/jpabook/jpashop/domain/Order.java:52-55 | setMember points the order at the member and appends the order's id to the end of the member's orders, keeping the earlier ones |
| Orders.SetMemberTwice | src/main/java/jpabook/jpashop/domain/Order.java:52-55 | setMember has no duplicate check: a second call leaves the order as it is and lists the order's id twice in the member's orders |
| Orders.AddOrderItem | src/main/java/jpabook/jpashop/domain/Order.java:57-60 | addOrderItem grows the list by one, keeps the earlier lines, puts the line at the end with its back-reference set, and changes nothing else |
| Orders.SetDelivery | src/main/java/jpabook/jpashop/domain/Order.java:62-65 | setDelivery stores the delivery with its back-reference pointing at this order |
| Orders.AddOrderItems | src/main/java/jpabook/jpashop/domain/Order.java:73 | Adding each line in turn appends all of them, in order, each pointing back at the order |
| Orders.CreateOrder | src/main/java/jpabook/jpashop/domain/Order.java:71-76 | createOrder yields status ORDER at the given time, keeps member and delivery, and holds exactly the given lines in order, each pointing back at it |
| Orders.CancelLines | src/main/java/jpabook/jpashop/domain/Order.java:87 | Cancelling every line raises each item's stock by the sum of the counts of the lines on that item |
| Orders.Cancel | src/main/java/jpabook/jpashop/domain/Order.java:82-88 | cancel fails with IllegalState iff the delivery is COMP; otherwise the status becomes CANCEL and each item's stock rises by the order's count of it |
| Orders.GetTotalPrice | src/main/java/jpabook/jpashop/domain/Order.java:95-99 | getTotalPrice equals the sum over the lines of price × count |
| Orders.TotalPriceAppend | src/main/java/jpabook/jpashop/domain/Order.java:95-99 | The total of two lists of lines joined is the sum of their totals |
| Orders.AddOrderItemTotal | src/main/java/jpabook/jpashop/domain/Order.java:57-60 | Adding a line raises the order's total by that line's total |
| Orders.CreateOrderTotal | src/main/java/jpabook/jpashop/domain/Order.java:71-76 | A created order's total is the total of the given lines; the back-reference does not change it |
| Orders.EmptyOrderTotal | src/main/java/jpabook/jpashop/domain/Order.java:95-99 | An order with no lines costs 0 |
| Orders.CancelTwice | src/main/java/jpabook/jpashop/domain/Order.java:82-88 | A cancelled order can be cancelled again; its status stays CANCEL and each stock ends up raised by twice the order's count |
| Orders.CancelKeepsStockNonNegative | src/main/java/jpabook/jpashop/domain/Order.java:86-87 | With non-negative counts, cancelling keeps every stock non-negative |
| OrderLifecycle.CreateOrderItems | src/main/java/jpabook/jpashop/domain/OrderItem.java:41-45 | Creating the lines one after another either fails with NotEnoughStock or lowers each item's stock by the total count the requested lines hold of it and yields exactly those lines, in request order |
| OrderLifecycle.CreateOrderItemsSucceedsIff | src/main/java/jpabook/jpashop/domain/item/Item.java:54-59 | With non-negative stock and counts, creating the lines succeeds iff for every item the total requested is within its stock |
| OrderLifecycle.CreateOrderItemsKeepsStockNonNegative | src/main/java/jpabook/jpashop/domain/OrderItem.java:41-45 | With non-negative stock and counts, creating the lines keeps every stock non-negative |
| OrderLifecycle.CreateThenCancelRestores | src/main/java/jpabook/jpashop/domain/Order.java:82-88 | Create the lines, build the order, then cancel it (delivery not COMP): the store is exactly the original, and the order is in CANCEL |
| OrderScenarios.OrderTwo | src/test/java/jpabook/jpashop/service/OrderServiceTest.java:30-57 | Ordering 2 of a book priced 10000 with stock 10 leaves stock 8, status ORDER, one line, total 20000 |
| OrderScenarios.OrderElevenFails | src/test/java/jpabook/jpashop/service/OrderServiceTest.java:59-71 | Ordering 11 of that book fails with NotEnoughStock |
| OrderScenarios.CancelOrderTwo | src/test/java/jpabook/jpashop/service/OrderServiceTest.java:73-94 | Cancelling the order of 2 brings the stock back to 10 and sets status CANCEL |

## Left out

- Items.AddStock, Items.RemoveStock, OrderItems.LineTotal, Orders.GetTotalPrice: the model uses unbounded integers. Java's 32-bit `int` wrap-around in stock, price and total arithmetic is not modelled. The properties hold on the Java code only while no intermediate value overflows.
- Null references are not modelled. Lookups into the store carry `requires id in s`, which plays the part of the non-null item reference that `createOrderItem` and `OrderItem.cancel` dereference. An order's `delivery` is a plain `Delivery`, although `Order.cancel` dereferences it (Order.java:83) and it could be null in Java. `SetMember` takes a plain `Member`, although `setMember` dereferences it (Order.java:54). A null in any of these places would be a NullPointerException in Java, not a domain error.
- `LocalDateTime.now()` in `createOrder` is a clock read. It is passed in as the parameter `now`.
- OrderService is not part of this model. Its `order` and `cancelOrder` are replayed as the scenario lemmas over `CreateOrderItem`, `CreateOrder` and `Cancel`. Repository lookups, `NotFound` and transactions are left out. `OrderLifecycle.CreateOrderItems` models a failed multi-line creation as yielding no new store, which stands for the enclosing transaction's rollback.
- Member.java is not part of this model. Only `Member.orders`, as `setMember` uses it at Order.java:54, is modelled, so a member is its id and its list of order ids. Address and Member's other fields are left out.
- These JPA concerns are left out: entity ids, lazy fetch, cascades, single-table inheritance and its discriminator, `categories`, protected no-argument constructors. They change no domain state.
- Java `null` names are not modelled. Book author and isbn are `Option`, because the builder may leave them unset.
- MemberApiController, BookForm, OrderFlatDto and OrderQueryService are left out. They are routing, DTOs and an empty class, with no domain logic.
