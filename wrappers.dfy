/** Option and Result, the shapes the shell's Rust code uses for "absent" and
    for operations that can fail with a message. */
module Wrappers {

  datatype Option<+T> = None | Some(value: T)

  /** `Err` carries the user-visible message the Rust code builds with `anyhow!`. */
  datatype Result<+T> = Ok(value: T) | Err(msg: string)
}
