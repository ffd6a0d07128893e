/** The two result shapes shared by every module: a value that may be missing
    and a call that either returns or raises. */
module Wrappers {

  datatype Option<+T> = None | Some(value: T)

  /** `Raised` stands for any exception the source lets escape. */
  datatype Result<+T> = Returned(value: T) | Raised
}
