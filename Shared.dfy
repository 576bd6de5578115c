/** Types more than one screen declares the same way. */
module Shared {

  /** An optional field (`notes?`, `liked?`, `category?`). */
  datatype Option<T> = None | Some(value: T)

  /** The daily state of a medication reminder: `'pending' | 'taken' | 'missed'`. */
  datatype DoseStatus = Pending | Taken | Missed
}
