/** Optional values and the error codes the modelled functions return. */
module Wrappers {

  datatype Option<+T> = None | Some(value: T)

  datatype Error = ENOMEM | EINVAL | ENOENT | ECLOSED | EAGAIN | EMSGSIZE | ETIMEDOUT | ECANCELED

  datatype Result<+T> = Ok(value: T) | Err(error: Error)
}
