/** Small sequence helpers shared by the layout modules. */
module Seqs {

  function Min(a: int, b: int): int {
    if a <= b then a else b
  }

  /** Concatenation of a sequence of sequences, defined by its last element so that
      loops that append left to right can keep it as an invariant. */
  function Flatten<T>(xss: seq<seq<T>>): seq<T> {
    if xss == [] then [] else Flatten(xss[..|xss| - 1]) + xss[|xss| - 1]
  }

  lemma FlattenSnoc<T>(xss: seq<seq<T>>, xs: seq<T>)
    ensures Flatten(xss + [xs]) == Flatten(xss) + xs
  {
    assert (xss + [xs])[..|xss|] == xss;
  }

  /** A prefix of a prefix is a prefix. */
  lemma PrefixOfPrefix<T>(all: seq<T>, shorter: seq<T>, extra: seq<T>)
    requires |shorter + extra| <= |all| && all[..|shorter + extra|] == shorter + extra
    ensures |shorter| <= |all| && all[..|shorter|] == shorter
  {
    assert all[..|shorter|] == all[..|shorter + extra|][..|shorter|];
  }
}
