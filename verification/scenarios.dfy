/**
 * The order-service test scenarios, replayed on the model: one book priced
 * 10000 with 10 in stock, ordered by one member with a fresh delivery.
 */
module OrderScenarios {
  import opened Wrappers
  import opened Errors
  import opened Ids
  import opened Items
  import opened OrderItems
  import opened Deliveries
  import opened Orders

  const BookId: ItemId := 1
  const MemberOne: MemberId := 1
  const OrderOne: OrderId := 1

  /** The store right after the book is created. */
  function BookStore(): (s: ItemStore)
    ensures BookId in s && s[BookId].price == 10000 && s[BookId].stockQuantity == 10
  {
    map[BookId := NewBook("JPA book", 10000, 10, None, None)]
  }

  /** Ordering 2: stock drops to 8, the order is in ORDER with one line costing 20000. */
  lemma OrderTwo(now: DateTime)
    ensures var r := CreateOrderItem(BookStore(), BookId, BookStore()[BookId].price, 2);
            && r.Success?
            && r.value.0[BookId].stockQuantity == 8
            && var o := CreateOrder(OrderOne, MemberOne, NewDelivery(), [r.value.1], now);
               && o.status == Some(ORDER)
               && |o.orderItems| == 1
               && TotalPrice(o.orderItems) == 10000 * 2
  {
    var r := CreateOrderItem(BookStore(), BookId, 10000, 2);
    CreateOrderTotal(OrderOne, MemberOne, NewDelivery(), [r.value.1], now);
    assert [r.value.1][..0] == [];
  }

  /** Ordering 11 of the 10 in stock raises NotEnoughStock. */
  lemma OrderElevenFails()
    ensures CreateOrderItem(BookStore(), BookId, BookStore()[BookId].price, 11) == Failure(NotEnoughStock)
  {
  }

  /** Cancelling the order of 2 brings the stock back to 10 and the status to CANCEL. */
  lemma CancelOrderTwo(now: DateTime)
    ensures var r := CreateOrderItem(BookStore(), BookId, BookStore()[BookId].price, 2);
            && r.Success?
            && var o := CreateOrder(OrderOne, MemberOne, NewDelivery(), [r.value.1], now);
               && Resolves(r.value.0, o.orderItems)
               && Orders.Cancel(r.value.0, o).Success?
               && Orders.Cancel(r.value.0, o).value.0[BookId].stockQuantity == 10
               && Orders.Cancel(r.value.0, o).value.1.status == Some(CANCEL)
  {
    var r := CreateOrderItem(BookStore(), BookId, 10000, 2);
    var o := CreateOrder(OrderOne, MemberOne, NewDelivery(), [r.value.1], now);
    assert o.orderItems[0].item == BookId;
    assert CountOf(o.orderItems, BookId) == 2;
  }
}
