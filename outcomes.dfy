/** Option, and the outcome of a call that may raise, shared by every module of the model. */
module Outcomes {

  /** A value that may be absent (Python's `None`). */
  datatype Option<+T> = None | Some(value: T)

  /** The outcome of a Python call: it either returns a value or raises an
      exception, of which the model keeps the text `str(e)`. */
  datatype Call<+T> = Returns(value: T) | Raises(message: string)
}
