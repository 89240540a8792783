/**
 * Order: aggregates order lines, a delivery and a member reference. Created
 * in status ORDER, moved to CANCEL unless the delivery is complete, priced
 * as the sum of its lines.
 */
module Orders {
  import opened Wrappers
  import opened Errors
  import opened Ids
  import opened Items
  import opened OrderItems
  import opened Deliveries
  import opened Members

  /** Order lifecycle states. */
  datatype OrderStatus = ORDER | CANCEL

  /** An order. orderDate and status stay absent until createStatus sets them. */
  datatype Order = Order(id: OrderId, member: MemberId, delivery: Delivery,
                         orderItems: seq<OrderItem>, orderDate: Option<DateTime>,
                         status: Option<OrderStatus>)

  /** Every line of the order refers to an item of the store. */
  ghost predicate Resolves(s: ItemStore, lines: seq<OrderItem>)
  {
    forall i :: 0 <= i < |lines| ==> lines[i].item in s
  }

  /** s' is s with each item's stock raised by what the lines hold of it. */
  ghost predicate Restocked(s: ItemStore, s': ItemStore, lines: seq<OrderItem>)
  {
    && s'.Keys == s.Keys
    && forall id :: id in s ==> s'[id] == s[id].(stockQuantity := s[id].stockQuantity + CountOf(lines, id))
  }

  /** The (member, delivery) constructor: no lines, no date, no status. */
  function NewOrder(id: OrderId, member: MemberId, delivery: Delivery): (o: Order)
    ensures o.id == id && o.member == member && o.delivery == delivery
    ensures o.orderItems == [] && o.orderDate == None && o.status == None
  {
    Order(id, member, delivery, [], None, None)
  }

  /** Sets status and order date together, leaving everything else. */
  function CreateStatus(o: Order, status: OrderStatus, orderDate: DateTime): (r: Order)
    ensures r.status == Some(status) && r.orderDate == Some(orderDate)
    ensures r.id == o.id && r.member == o.member && r.delivery == o.delivery
    ensures r.orderItems == o.orderItems
  {
    o.(status := Some(status), orderDate := Some(orderDate))
  }

  /** Points the order at the member and appends the order to the member's list. */
  function SetMember(o: Order, m: Member): (r: (Order, Member))
    ensures r.0 == o.(member := m.id)
    ensures r.1.id == m.id
    ensures |r.1.orders| == |m.orders| + 1
    ensures r.1.orders[..|m.orders|] == m.orders && r.1.orders[|m.orders|] == o.id
  {
    (o.(member := m.id), m.(orders := m.orders + [o.id]))
  }

  /**
   * setMember has no duplicate check: setting the same member twice lists
   * the order twice in the member's orders, and the order itself is unchanged
   * by the second call.
   */
  lemma SetMemberTwice(o: Order, m: Member)
    ensures var (o1, m1) := SetMember(o, m);
            var (o2, m2) := SetMember(o1, m1);
            && o2 == o1
            && m2.id == m.id
            && m2.orders == m.orders + [o.id, o.id]
  {
  }

  /** Appends the line and sets its back-reference to this order. */
  function AddOrderItem(o: Order, line: OrderItem): (r: Order)
    ensures |r.orderItems| == |o.orderItems| + 1
    ensures r.orderItems[..|o.orderItems|] == o.orderItems
    ensures r.orderItems[|o.orderItems|] == SetOrder(line, o.id)
    ensures r == o.(orderItems := r.orderItems)
  {
    o.(orderItems := o.orderItems + [SetOrder(line, o.id)])
  }

  /** Stores the delivery and sets its back-reference to this order. */
  function SetDelivery(o: Order, d: Delivery): (r: Order)
    ensures r.delivery.order == Some(o.id) && r.delivery.status == d.status
    ensures r == o.(delivery := r.delivery)
  {
    o.(delivery := d.(order := Some(o.id)))
  }

  /** addOrderItem applied to each line in turn. */
  function AddOrderItems(o: Order, lines: seq<OrderItem>): (r: Order)
    ensures |r.orderItems| == |o.orderItems| + |lines|
    ensures r.orderItems[..|o.orderItems|] == o.orderItems
    ensures forall i :: 0 <= i < |lines| ==> r.orderItems[|o.orderItems| + i] == SetOrder(lines[i], o.id)
    ensures r == o.(orderItems := r.orderItems)
    decreases |lines|
  {
    if |lines| == 0 then o
    else AddOrderItems(AddOrderItem(o, lines[0]), lines[1..])
  }

  /**
   * The factory: a new order holding exactly the given lines in order, each
   * pointing back at it, in status ORDER and dated now.
   */
  function CreateOrder(id: OrderId, member: MemberId, delivery: Delivery,
                       lines: seq<OrderItem>, now: DateTime): (o: Order)
    ensures o.status == Some(ORDER) && o.orderDate == Some(now)
    ensures o.id == id && o.member == member && o.delivery == delivery
    ensures |o.orderItems| == |lines|
    ensures forall i :: 0 <= i < |lines| ==> o.orderItems[i] == SetOrder(lines[i], id)
  {
    var o := AddOrderItems(NewOrder(id, member, delivery), lines);
    CreateStatus(o, ORDER, now)
  }

  /** OrderItem.cancel applied to each line in turn. */
  function CancelLines(s: ItemStore, lines: seq<OrderItem>): (s': ItemStore)
    requires Resolves(s, lines)
    ensures Restocked(s, s', lines)
    decreases |lines|
  {
    if |lines| == 0 then s
    else CancelLines(OrderItems.Cancel(s, lines[0]), lines[1..])
  }

  /**
   * Refuses with IllegalState when the delivery is complete. Otherwise moves
   * to CANCEL and gives every line's count back to its item. There is no
   * guard against an order that is already cancelled.
   */
  function Cancel(s: ItemStore, o: Order): (r: Result<(ItemStore, Order), Error>)
    requires Resolves(s, o.orderItems)
    ensures r.Failure? <==> o.delivery.status == Some(COMP)
    ensures r.Failure? ==> r.error == IllegalState
    ensures r.Success? ==> r.value.1 == o.(status := Some(CANCEL))
    ensures r.Success? ==> Restocked(s, r.value.0, o.orderItems)
  {
    if o.delivery.status == Some(COMP) then Failure(IllegalState)
    else Success((CancelLines(s, o.orderItems), o.(status := Some(CANCEL))))
  }

  /** Reference definition of the order total: the sum of the line totals. */
  function TotalPrice(lines: seq<OrderItem>): (total: int)
  {
    if |lines| == 0 then 0
    else TotalPrice(lines[..|lines| - 1]) + LineTotal(lines[|lines| - 1])
  }

  /** getTotalPrice: accumulates the line totals in list order. */
  method GetTotalPrice(o: Order) returns (total: int)
    ensures total == TotalPrice(o.orderItems)
  {
    total := 0;
    var i := 0;
    while i < |o.orderItems|
      invariant 0 <= i <= |o.orderItems|
      invariant total == TotalPrice(o.orderItems[..i])
    {
      assert o.orderItems[..i + 1][..i] == o.orderItems[..i];
      total := total + LineTotal(o.orderItems[i]);
      i := i + 1;
    }
    assert o.orderItems[..i] == o.orderItems;
  }

  /** The total of a concatenation is the sum of the totals. */
  lemma {:induction false} TotalPriceAppend(a: seq<OrderItem>, b: seq<OrderItem>)
    ensures TotalPrice(a + b) == TotalPrice(a) + TotalPrice(b)
    decreases |b|
  {
    if |b| > 0 {
      var b' := b[..|b| - 1];
      assert (a + b)[..|a + b| - 1] == a + b';
      TotalPriceAppend(a, b');
    } else {
      assert a + b == a;
    }
  }

  /** Adding a line raises the order total by that line's total. */
  lemma AddOrderItemTotal(o: Order, line: OrderItem)
    ensures TotalPrice(AddOrderItem(o, line).orderItems) == TotalPrice(o.orderItems) + LineTotal(line)
  {
    var r := AddOrderItem(o, line);
    assert r.orderItems[..|r.orderItems| - 1] == o.orderItems;
  }

  /** Totals agree for two lists whose lines agree pointwise on their totals. */
  lemma {:induction false} TotalPriceOfSnapshots(a: seq<OrderItem>, b: seq<OrderItem>)
    requires |a| == |b|
    requires forall i :: 0 <= i < |a| ==> LineTotal(a[i]) == LineTotal(b[i])
    ensures TotalPrice(a) == TotalPrice(b)
    decreases |a|
  {
    if |a| > 0 {
      TotalPriceOfSnapshots(a[..|a| - 1], b[..|b| - 1]);
    }
  }

  /** A created order costs the sum of its lines' snapshot totals. */
  lemma CreateOrderTotal(id: OrderId, member: MemberId, delivery: Delivery,
                         lines: seq<OrderItem>, now: DateTime)
    ensures TotalPrice(CreateOrder(id, member, delivery, lines, now).orderItems) == TotalPrice(lines)
  {
    var items := CreateOrder(id, member, delivery, lines, now).orderItems;
    forall i | 0 <= i < |lines|
      ensures LineTotal(items[i]) == LineTotal(lines[i])
    {
      assert items[i] == SetOrder(lines[i], id);
    }
    TotalPriceOfSnapshots(items, lines);
  }

  /** An order with no lines costs nothing. */
  lemma EmptyOrderTotal(o: Order)
    requires o.orderItems == []
    ensures TotalPrice(o.orderItems) == 0
  {
  }

  /**
   * Cancel has no re-entrancy guard: cancelling a cancelled order succeeds
   * again and gives every line's count back a second time.
   */
  lemma CancelTwice(s: ItemStore, o: Order)
    requires Resolves(s, o.orderItems)
    requires Cancel(s, o).Success?
    ensures var (s1, o1) := Cancel(s, o).value;
            && Cancel(s1, o1).Success?
            && Cancel(s1, o1).value.1 == o1
            && forall id :: id in s ==> Cancel(s1, o1).value.0[id].stockQuantity
                                         == s[id].stockQuantity + 2 * CountOf(o.orderItems, id)
  {
  }

  /** With non-negative line counts, cancelling keeps every stock non-negative. */
  lemma CancelKeepsStockNonNegative(s: ItemStore, o: Order)
    requires Resolves(s, o.orderItems)
    requires StockNonNegative(s)
    requires forall i :: 0 <= i < |o.orderItems| ==> o.orderItems[i].count >= 0
    ensures Cancel(s, o).Success? ==> StockNonNegative(Cancel(s, o).value.0)
  {
    forall id | id in s {
      CountOfNonNegative(o.orderItems, id);
    }
  }
}
