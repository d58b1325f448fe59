/** What several of the machines use. */
module Common {

  datatype Option<T> = None | Some(value: T)

  /** One when it holds, to count with. */
  function One(b: bool): nat { if b then 1 else 0 }
}
