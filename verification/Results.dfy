// The two small carrier types shared by every module.
module Results {
  datatype Option<+T> = None | Some(value: T)

  // A thrown error of the original is an Err; a returned value is an Ok.
  datatype Result<+T, +E> = Ok(value: T) | Err(error: E)
}
