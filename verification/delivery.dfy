/** Delivery, reduced to what the order core reads: its status and its order. */
module Deliveries {
  import opened Wrappers
  import opened Ids

  /** Shipping progress. COMP means delivered. */
  datatype DeliveryStatus = READY | COMP

  /**
   * A delivery. The constructor never sets the status, so it may be absent;
   * order is the back-reference an Order sets through setDelivery.
   */
  datatype Delivery = Delivery(order: Option<OrderId>, status: Option<DeliveryStatus>)

  /** The address constructor: no status and no order yet. */
  function NewDelivery(): (d: Delivery)
    ensures d.status == None && d.order == None
  {
    Delivery(None, None)
  }
}
