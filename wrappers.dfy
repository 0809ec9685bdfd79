/**
 * Option, Result and Outcome, and the error variants that stand for the
 * exceptions the core throws. `:-` works on Result and Outcome.
 */
module Wrappers {
  import opened EntityStates

  datatype Option<+T> = None | Some(value: T)

  /** One variant per exception the modelled code can raise. */
  datatype Error =
    | InvalidField(fieldName: string)                           // InvalidFieldException
    | FieldNotFound(fieldName: string)                          // FieldNotFoundException
    | InvalidEntityAction(state: EntityState, action: string)   // InvalidEntityActionException(state, action)
    | EntityNotFound                                            // EntityNotFoundException
    | OriginalEntityNotSet                                      // OriginalEntityNotSetException
    | AbortedInvalidEntity                                      // CommandBuilderAbortedException.InvalidEntity
    | AbortedInvalidCommand                                     // CommandBuilderAbortedException.InvalidCommand
    | NotTableEntity                                            // NotTableEntityException
    | NotSupported                                              // NotSupportedException
    | InvalidCast                                               // InvalidCastException
    | NullReference                                             // NullReferenceException (unboxing null)
    | KeyNotFound                                               // KeyNotFoundException (dictionary lookup)
    | ArgumentOutOfRange                                        // an argument index the call does not have
    | TargetException                                           // PropertyInfo.GetValue on a null target
    | InvalidOperation                                          // InvalidOperationException (empty stack, list changed while enumerated)

  datatype Result<+T> = Ok(value: T) | Err(error: Error) {
    predicate IsFailure() { Err? }
    function PropagateFailure<U>(): Result<U> requires Err? { Err(error) }
    function Extract(): T requires Ok? { value }
  }

  datatype Outcome = Pass | Fail(error: Error) {
    predicate IsFailure() { Fail? }
    function PropagateFailure(): Outcome requires Fail? { this }
  }
}
