/** Small datatypes shared by every module of the model. */
module Common {
  datatype Option<+T> = None | Some(value: T)

  /** What an operation makes of a file's loaded contents, what it returns, and whether it rewrites the file. */
  datatype Effect<+C, +R> = Effect(contents: C, reply: R, writes: bool)
}
