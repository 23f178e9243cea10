/**
  The two failure-carrying shapes the modelled Rust code returns: `Option` for an empty
  slot or an unset variable, `Result` for `anyhow::Result` and the oneshot receive.
*/
module Options {

  datatype Option<+T> = None | Some(value: T)

  datatype Result<+T, +E> = Ok(value: T) | Err(error: E)
}
