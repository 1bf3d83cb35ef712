/** Optional values and results that may carry an error. */
module Wrappers {

  datatype Option<+T> = None | Some(value: T)

  /** The exceptions thrown by the shared-memory layer. */
  datatype Error =
    | TooSmall          // the key is listed with a smaller size than requested
    | AllocationFailed  // the operating system refused the segment, or the name exists
    | AlreadyOpen       // the entry holds a handle, and was asked to open another
    | MappingFailed     // the name is gone, or the operating system refused the mapping
    | NotMapped         // the key is not listed in this process
    | NoFreeId          // every id is in use

  datatype Result<+T> = Ok(value: T) | Err(error: Error)
}
