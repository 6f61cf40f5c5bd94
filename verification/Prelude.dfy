/** Small shared datatypes, and places in a list. */
module Prelude {

  type Byte = x: int | 0 <= x < 0x100

  datatype Option<+T> = None | Some(value: T)

  datatype Result<+T> = Ok(value: T) | Err(error: string)

  // ----- places in a list -----

  /** Places below `n`, in order and without repetition. */
  ghost predicate Ascends(places: seq<nat>, n: nat) {
    && (forall i, j :: 0 <= i < j < |places| ==> places[i] < places[j])
    && (forall i :: 0 <= i < |places| ==> places[i] < n)
  }

  lemma AscendsMore(places: seq<nat>, n: nat)
    requires Ascends(places, n)
    ensures Ascends(places, n + 1) && Ascends(places + [n], n + 1)
    ensures forall k :: k in places + [n] <==> k in places || k == n
    ensures n !in places
  {
  }
}
