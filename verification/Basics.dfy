/** Odds and ends shared by the other modules. */
module Basics {

  datatype Option<T> = None | Some(value: T)

  lemma ConcatAssoc<T>(xs: seq<T>, ys: seq<T>, zs: seq<T>)
    ensures xs + (ys + zs) == xs + ys + zs
  {
  }
}
