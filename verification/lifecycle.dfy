/**
 * An order's whole life against the item store: creating its lines one
 * after another (as a caller evaluates createOrderItem for each argument of
 * createOrder), then cancelling it. A failed creation yields no new store,
 * which models the enclosing transaction rolling back earlier decrements.
 */
module OrderLifecycle {
  import opened Wrappers
  import opened Errors
  import opened Ids
  import opened Items
  import opened OrderItems
  import opened Deliveries
  import opened Orders

  /**
   * The arguments of one createOrderItem call. Kept apart from OrderItem
   * because a request has no order to point back at; Snapshots turns
   * requests into the lines they create.
   */
  datatype LineRequest = LineRequest(item: ItemId, orderPrice: int, count: int)

  /** Every request refers to an item of the store. */
  ghost predicate RequestsResolve(s: ItemStore, reqs: seq<LineRequest>)
  {
    forall i :: 0 <= i < |reqs| ==> reqs[i].item in s
  }

  /** The lines the requests create: one snapshot per request, not yet in an order. */
  function Snapshots(reqs: seq<LineRequest>): (lines: seq<OrderItem>)
    ensures |lines| == |reqs|
    ensures forall i :: 0 <= i < |reqs| ==>
              lines[i] == OrderItem(reqs[i].item, None, reqs[i].orderPrice, reqs[i].count)
  {
    seq(|reqs|, i requires 0 <= i < |reqs| => OrderItem(reqs[i].item, None, reqs[i].orderPrice, reqs[i].count))
  }

  /** s' is s with each item's stock lowered by what the requests ask for of it. */
  ghost predicate Withdrawn(s: ItemStore, s': ItemStore, reqs: seq<LineRequest>)
  {
    && s'.Keys == s.Keys
    && forall id :: id in s ==>
         s'[id] == s[id].(stockQuantity := s[id].stockQuantity - CountOf(Snapshots(reqs), id))
  }

  /** The snapshots of the requests after the first are the snapshots after the first. */
  lemma SnapshotsTail(reqs: seq<LineRequest>)
    requires |reqs| > 0
    ensures Snapshots(reqs)[1..] == Snapshots(reqs[1..])
  {
  }

  /**
   * createOrderItem for each request in turn. Stops at the first
   * NotEnoughStock; otherwise returns the lowered store and the requests'
   * snapshot lines, in order.
   */
  function CreateOrderItems(s: ItemStore, reqs: seq<LineRequest>)
    : (r: Result<(ItemStore, seq<OrderItem>), Error>)
    requires RequestsResolve(s, reqs)
    ensures r.Failure? ==> r.error == NotEnoughStock
    ensures r.Success? ==> Withdrawn(s, r.value.0, reqs)
    ensures r.Success? ==> r.value.1 == Snapshots(reqs)
    decreases |reqs|
  {
    if |reqs| == 0 then Success((s, []))
    else
      var q := reqs[0];
      match CreateOrderItem(s, q.item, q.orderPrice, q.count)
      case Failure(e) => Failure(e)
      case Success((s1, line)) =>
        SnapshotsTail(reqs);
        match CreateOrderItems(s1, reqs[1..])
        case Failure(e) => Failure(e)
        case Success((s2, rest)) => Success((s2, [line] + rest))
  }

  /**
   * With no negative stock and no negative count, the lines can all be
   * created exactly when, for every item, the total asked for is within
   * its stock: the order in which they are created does not matter.
   */
  lemma {:induction false} CreateOrderItemsSucceedsIff(s: ItemStore, reqs: seq<LineRequest>)
    requires RequestsResolve(s, reqs)
    requires StockNonNegative(s)
    requires forall i :: 0 <= i < |reqs| ==> reqs[i].count >= 0
    ensures CreateOrderItems(s, reqs).Success?
            <==> forall id :: id in s ==> CountOf(Snapshots(reqs), id) <= s[id].stockQuantity
    decreases |reqs|
  {
    if |reqs| > 0 {
      var q := reqs[0];
      var rest := reqs[1..];
      SnapshotsTail(reqs);
      CountOfNonNegative(Snapshots(rest), q.item);
      var first := CreateOrderItem(s, q.item, q.orderPrice, q.count);
      if first.Success? {
        var s1 := first.value.0;
        CreateOrderItemsSucceedsIff(s1, rest);
      } else {
        assert CountOf(Snapshots(reqs), q.item) > s[q.item].stockQuantity;
      }
    }
  }

  /** With non-negative counts, creating the lines keeps every stock non-negative. */
  lemma CreateOrderItemsKeepsStockNonNegative(s: ItemStore, reqs: seq<LineRequest>)
    requires RequestsResolve(s, reqs)
    requires StockNonNegative(s)
    requires forall i :: 0 <= i < |reqs| ==> reqs[i].count >= 0
    ensures CreateOrderItems(s, reqs).Success? ==> StockNonNegative(CreateOrderItems(s, reqs).value.0)
  {
    CreateOrderItemsSucceedsIff(s, reqs);
  }

  /**
   * Stock conservation: creating the lines, building the order and
   * cancelling it (delivery not complete) gives back the original store
   * and the order in status CANCEL.
   */
  lemma CreateThenCancelRestores(s: ItemStore, reqs: seq<LineRequest>, id: OrderId,
                                 member: MemberId, delivery: Delivery, now: DateTime)
    requires RequestsResolve(s, reqs)
    requires delivery.status != Some(COMP)
    ensures var r := CreateOrderItems(s, reqs);
            r.Success? ==>
              var o := CreateOrder(id, member, delivery, r.value.1, now);
              Resolves(r.value.0, o.orderItems)
              && Orders.Cancel(r.value.0, o) == Success((s, o.(status := Some(CANCEL))))
  {
    var r := CreateOrderItems(s, reqs);
    if r.Success? {
      var (s1, lines) := r.value;
      var o := CreateOrder(id, member, delivery, lines, now);
      assert Resolves(s1, o.orderItems) by {
        forall i | 0 <= i < |o.orderItems|
          ensures o.orderItems[i].item in s1
        {
          assert o.orderItems[i] == SetOrder(lines[i], id);
        }
      }
      var s2 := Orders.Cancel(s1, o).value.0;
      forall k | k in s
        ensures s2[k] == s[k]
      {
        forall i | 0 <= i < |lines|
          ensures o.orderItems[i].item == lines[i].item && o.orderItems[i].count == lines[i].count
        {
          assert o.orderItems[i] == SetOrder(lines[i], id);
        }
        CountOfIgnoresOrder(lines, o.orderItems, k);
      }
      assert s2 == s;
    }
  }
}
