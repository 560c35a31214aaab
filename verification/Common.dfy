/** Names and result types used throughout the model. */
module Common {

  /** An account name; the empty name belongs to nobody. */
  type Name = string

  /** The two liquid tokens. */
  datatype Symbol = Delta | Dbd

  datatype Option<+T> = None | Some(value: T)

  /**
   The outcome of an operation. A failed assertion aborts it, and the undo session
   around it then restores the state it started from.
   */
  datatype Outcome<+T> = Ok(value: T) | Aborted
}
