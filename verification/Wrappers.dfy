module Wrappers {
  datatype Option<+T> = None | Some(value: T)

  function OrEmpty(v: Option<string>): string { match v case None => "" case Some(s) => s }
}
