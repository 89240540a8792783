/** Identities of the entities, standing in for object references. */
module Ids {

  /** Identity of an Item in the item store. */
  type ItemId = nat

  /** Identity of an Order, used by the back-references that point at it. */
  type OrderId = nat

  /** Identity of a Member, held by the Order that references it. */
  type MemberId = nat

  /** An instant, supplied by the caller in place of a clock read. */
  type DateTime = int
}

/** The exceptions the domain core raises. */
module Errors {

  /** NotEnoughStock is thrown by Item.removeStock; IllegalState by Order.cancel. */
  datatype Error = NotEnoughStock | IllegalState
}
