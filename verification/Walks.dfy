/** What a pass over a map or a queue draws from outside, and the walks of an unordered map. */
module Walks {

  /** The outcome a random behaviour draws at each question of a pass. */
  type Coins = nat -> bool

  /** A fill is of 1 to 10 hundred shares. */
  type Roll = r: int | 1 <= r <= 10 witness 1

  type Rolls = nat -> Roll

  predicate Distinct<T(==)>(order: seq<T>) {
    forall i, j :: 0 <= i < j < |order| ==> order[i] != order[j]
  }

  function Elements<T>(tokens: seq<T>): set<T> {
    set t | t in tokens
  }

  /** A walk of a map: every key once. */
  predicate IsOrder<T(==)>(order: seq<T>, keys: set<T>) {
    && Distinct(order)
    && (forall k :: k in keys ==> k in order)
    && (forall i :: 0 <= i < |order| ==> order[i] in keys)
  }
}
