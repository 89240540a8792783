/**
 * OrderItem: one line of an order, a snapshot of the unit price and the
 * quantity ordered, tied to one item of the store.
 */
module OrderItems {
  import opened Wrappers
  import opened Errors
  import opened Ids
  import opened Items

  /** An order line. order is the back-reference an Order sets when it adopts the line. */
  datatype OrderItem = OrderItem(item: ItemId, order: Option<OrderId>, orderPrice: int, count: int)

  /**
   * Records the snapshot and removes count from the item's stock. On
   * NotEnoughStock no line exists and the store is the one the caller holds.
   */
  function CreateOrderItem(s: ItemStore, item: ItemId, orderPrice: int, count: int)
    : (r: Result<(ItemStore, OrderItem), Error>)
    requires item in s
    ensures r.Success? <==> count <= s[item].stockQuantity
    ensures r.Failure? ==> r.error == NotEnoughStock
    ensures r.Success? ==> r.value.1 == OrderItem(item, None, orderPrice, count)
    ensures r.Success? ==> Shifted(s, r.value.0, item, -count)
    ensures r.Success? ==> r.value.0[item].stockQuantity >= 0
  {
    match RemoveStock(s[item], count)
    case Failure(e) => Failure(e)
    case Success(it) => Success((s[item := it], OrderItem(item, None, orderPrice, count)))
  }

  /** Sets the back-reference to the owning order; the snapshot is untouched. */
  function SetOrder(line: OrderItem, order: OrderId): (r: OrderItem)
    ensures r.order == Some(order)
    ensures r.item == line.item && r.orderPrice == line.orderPrice && r.count == line.count
  {
    line.(order := Some(order))
  }

  /** Gives the line's count back to its item. Calling it again gives it back again. */
  function Cancel(s: ItemStore, line: OrderItem): (s': ItemStore)
    requires line.item in s
    ensures Shifted(s, s', line.item, line.count)
  {
    s[line.item := AddStock(s[line.item], line.count)]
  }

  /** The price of the line: the snapshot unit price times the quantity. */
  function LineTotal(line: OrderItem): (t: int)
    ensures t == 0 <==> line.orderPrice == 0 || line.count == 0
    ensures t > 0 <==> (line.orderPrice > 0 && line.count > 0) || (line.orderPrice < 0 && line.count < 0)
  {
    line.orderPrice * line.count
  }

  /** Sum of the counts of the lines that refer to item id. */
  function CountOf(lines: seq<OrderItem>, id: ItemId): (n: int)
  {
    if |lines| == 0 then 0
    else (if lines[0].item == id then lines[0].count else 0) + CountOf(lines[1..], id)
  }

  /** Creating a line and cancelling it leaves the store exactly as it was. */
  lemma CreateThenCancelRestores(s: ItemStore, item: ItemId, orderPrice: int, count: int)
    requires item in s
    ensures var r := CreateOrderItem(s, item, orderPrice, count);
            r.Success? ==> Cancel(r.value.0, r.value.1) == s
  {
    var r := CreateOrderItem(s, item, orderPrice, count);
    if r.Success? {
      var s' := Cancel(r.value.0, r.value.1);
      assert forall j :: j in s ==> s'[j] == s[j];
    }
  }

  /** Cancel is not idempotent: a second call gives the count back once more. */
  lemma CancelTwice(s: ItemStore, line: OrderItem)
    requires line.item in s
    ensures Shifted(s, Cancel(Cancel(s, line), line), line.item, 2 * line.count)
  {
  }

  /** The line's price comes from the snapshot, whatever the item's own price is. */
  lemma CreatedLineTotal(s: ItemStore, item: ItemId, orderPrice: int, count: int)
    requires item in s
    ensures var r := CreateOrderItem(s, item, orderPrice, count);
            r.Success? ==> LineTotal(r.value.1) == orderPrice * count
  {
  }

  /** The back-reference does not change how much of an item the lines hold. */
  lemma {:induction false} CountOfIgnoresOrder(lines: seq<OrderItem>, linked: seq<OrderItem>, id: ItemId)
    requires |linked| == |lines|
    requires forall i :: 0 <= i < |lines| ==> linked[i].item == lines[i].item && linked[i].count == lines[i].count
    ensures CountOf(linked, id) == CountOf(lines, id)
  {
    if |lines| > 0 {
      CountOfIgnoresOrder(lines[1..], linked[1..], id);
    }
  }

  /** Lines with non-negative counts hold a non-negative amount of every item. */
  lemma {:induction false} CountOfNonNegative(lines: seq<OrderItem>, id: ItemId)
    requires forall i :: 0 <= i < |lines| ==> lines[i].count >= 0
    ensures CountOf(lines, id) >= 0
  {
    if |lines| > 0 {
      CountOfNonNegative(lines[1..], id);
    }
  }
}
