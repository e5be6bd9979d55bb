/** Sequences as indexes: no entry comes twice. */
module Sequences {

  ghost predicate NoDup<T(!new)>(xs: seq<T>) { forall i, j :: 0 <= i < j < |xs| ==> xs[i] != xs[j] }
}
