/** The Python exceptions the modelled code raises, and a computation that either returns or raises one. */
module Exceptions {

  datatype PyError = TypeError | ValueError | AttributeError

  datatype Result<T> = Ok(value: T) | Raise(error: PyError)
}
