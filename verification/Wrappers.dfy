/** The failure-carrying results used throughout the model. */
module Wrappers {

  datatype Option<+T> = None | Some(value: T)

  datatype Result<+T, +E> = Success(value: T) | Failure(error: E)

  /** How a command sent to a store ended for its caller: answered, or lost, whether or not it ran. */
  datatype Delivery = Answered | Lost(ran: bool)
}
