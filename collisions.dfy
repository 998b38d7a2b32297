/** The tile classifier: which collision codes block movement and which
    ones can be climbed. */
module Collisions {
  import opened Geometry

  /** Collision codes of the level's collision map. */
  const OUTSIDE: int := -1
  const EMPTY: int := 0
  const DIRT: int := 1
  const LADDER: int := 2
  const STONE: int := 3

  /** A tile that neither horizontal nor falling movement may enter.
      The direction of travel is accepted but not consulted. */
  predicate IsSolid(tile: int, direction: Vec) {
    tile == DIRT || tile == STONE || tile == OUTSIDE
  }

  /** A tile the player can climb. The direction is not consulted either. */
  predicate IsLadder(tile: int, direction: Vec) {
    tile == LADDER
  }

  /** The classification of each named collision code, and that every other
      code is neither solid nor a ladder. */
  lemma ClassifierTable(tile: int, direction: Vec)
    ensures IsSolid(OUTSIDE, direction) && IsSolid(DIRT, direction) && IsSolid(STONE, direction)
    ensures !IsSolid(EMPTY, direction) && !IsSolid(LADDER, direction)
    ensures IsLadder(LADDER, direction)
    ensures tile != LADDER ==> !IsLadder(tile, direction)
    ensures tile !in {OUTSIDE, DIRT, STONE} ==> !IsSolid(tile, direction)
  {
  }

  /** No collision code is both solid and a ladder. */
  lemma SolidAndLadderExclusive(tile: int, d1: Vec, d2: Vec)
    ensures !(IsSolid(tile, d1) && IsLadder(tile, d2))
  {
  }

  /** The direction argument never changes a classification. */
  lemma DirectionIgnored(tile: int, d1: Vec, d2: Vec)
    ensures IsSolid(tile, d1) == IsSolid(tile, d2)
    ensures IsLadder(tile, d1) == IsLadder(tile, d2)
  {
  }
}
