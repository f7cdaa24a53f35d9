/** Option and Result, used for PHP's "false / null on failure" returns and for WP_Error. */
module Wrappers {

  datatype Option<+T> = None | Some(value: T)

  datatype Result<+R, +E> = Ok(value: R) | Err(error: E)
}
