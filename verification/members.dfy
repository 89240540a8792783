/** Member, reduced to the orders list that Order.setMember appends to. */
module Members {
  import opened Ids

  /** A member and the ids of the orders attached to it, in attachment order. */
  datatype Member = Member(id: MemberId, orders: seq<OrderId>)
}
