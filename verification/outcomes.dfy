/** Values shared by the whole model: Java's nullable references, the
    exceptions the services throw, and the outcome of a service call. */
module Outcomes {

  /** A Java reference that may be null: `None` stands for null. */
  datatype Option<T> = None | Some(value: T)

  /** The exceptions raised by the service layer, each carrying the key that
      was looked up. */
  datatype Failure =
    | ProductNotFound(id: int)
    | UserNotFound(id: int)
    | EmailDuplication(email: Option<string>)

  /** What a service call returned, or the exception it threw. */
  datatype Result<T> = Ok(value: T) | Err(failure: Failure)

  /** One service call: its result together with the store it leaves behind. */
  datatype Step<T, S> = Step(result: Result<T>, store: S)
}
