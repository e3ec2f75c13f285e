/** The exceptions the core raises, as values, and the two result shapes that
    carry them: `Result<T>` for operations that return something and
    `Outcome` for `void` operations. */
module Errors {

  datatype Error =
    | IllegalArgument(message: string)
    | IllegalState(message: string)
      // InsufficientTicketStockException(remainingQuantity, requestQuantity)
    | InsufficientTicketStock(remainingQuantity: int, requestQuantity: int)
    | AlreadyInQueue(message: string)
    | QueueAccessDenied(message: string)
      // LockAcquisitionException(key): the lock was not obtained in time
    | LockAcquisition(key: string)

  datatype Result<T> = Success(value: T) | Failure(error: Error)

  datatype Outcome = Pass | Fail(error: Error)

  datatype Option<T> = None | Some(value: T)
}
