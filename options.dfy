/** An optional value: `None` stands for the program's "no number" answers. */
module Options {
  datatype Option<+T> = None | Some(value: T)
}
