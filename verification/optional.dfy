/** An optional value: `None` stands for PHP's `null` / "not found". */
module Optional {

  datatype Option<+T> = None | Some(value: T)
}
