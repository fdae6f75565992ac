module Wrappers {
  datatype Option<T> = None | Some(value: T)

  predicate NoDup(names: seq<string>) {
    forall i, j :: 0 <= i < j < |names| ==> names[i] != names[j]
  }
}
