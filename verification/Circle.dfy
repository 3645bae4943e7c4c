/**
  The identifier circle of the Chord ring and the wrap-around interval tests that every
  routing and stabilization decision rests on (chord/util.go).

  The source tests intervals with comparisons on machine integers. Here the tests are kept as
  written, and characterised by the clockwise distance on a circle of `size` identifiers.
 */
module Circle {

  type Id = nat

  /** `id` lies strictly inside the clockwise interval from `left` to `right`. */
  predicate Between(id: Id, left: Id, right: Id) {
    if right > left then id > left && id < right
    else if right < left then id < right || id > left
    else false
  }

  /** `id` lies in the clockwise interval from `left` (excluded) to `right` (included). */
  predicate BetweenRightInclude(id: Id, left: Id, right: Id) {
    Between(id, left, right) || id == right
  }

  /** The number of clockwise steps from `x` to `y` on a circle of `size` identifiers. */
  function Dist(size: nat, x: Id, y: Id): (d: nat)
    requires x < size && y < size
    ensures d < size
    ensures d == 0 <==> x == y
  {
    if x <= y then y - x else y + size - x
  }

  /** The interval test is a comparison of clockwise distances from the left end. */
  lemma BetweenIsDistance(size: nat, id: Id, left: Id, right: Id)
    requires id < size && left < size && right < size
    ensures Between(id, left, right) <==> 0 < Dist(size, left, id) < Dist(size, left, right)
    ensures left != right ==>
              (BetweenRightInclude(id, left, right) <==> 0 < Dist(size, left, id) <= Dist(size, left, right))
  {
  }

  /** Distances add up along the circle unless the second leg overshoots. */
  lemma DistAdds(size: nat, x: Id, y: Id, z: Id)
    requires x < size && y < size && z < size
    requires Dist(size, x, y) <= Dist(size, x, z)
    ensures Dist(size, x, y) + Dist(size, y, z) == Dist(size, x, z)
  {
  }

  /** Walking from `x` to a different `y` and back goes round exactly once. */
  lemma DistRoundTrip(size: nat, x: Id, y: Id)
    requires x < size && y < size && x != y
    ensures Dist(size, x, y) + Dist(size, y, x) == size
  {
  }
}
