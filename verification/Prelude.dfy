/**
 The few types that several components share.
 */
module Prelude {

  datatype Option<+T> = None | Some(value: T)

  type byte = i: int | 0 <= i < 256

  lemma Regroup<T>(a: seq<T>, b: seq<T>, c: seq<T>)
    ensures a + (b + c) == a + b + c
  {
  }
}
