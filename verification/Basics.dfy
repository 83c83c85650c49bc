/** What several modules need. */
module Basics {
  datatype Option<T> = None | Some(value: T)

  function Least(x: nat, y: nat): nat { if x <= y then x else y }

  lemma Associate<T>(a: seq<T>, b: seq<T>, c: seq<T>)
    ensures a + b + c == a + (b + c)
  {
  }
}
