/**
 * Board object flags (src/open_tt/board_object.rs). A board object is
 * modelled as its flag byte.
 */
module BoardObjects {

  type Flags = bv8

  const INPASSABLE: Flags := 0x01
  const BLOCK_SIGHT: Flags := 0x02
  const DESTRUCTABLE: Flags := 0x04

  /** Forest: hides what is behind it and can be shot away. */
  const FOREST: Flags := DESTRUCTABLE + BLOCK_SIGHT

  /** Water: cannot be crossed. */
  const WATER: Flags := INPASSABLE

  predicate IsSingleBit(f: Flags) { f != 0 && f & (f - 1) == 0 }

  /** An object stops movement when its INPASSABLE bit is set. */
  predicate Blocks(f: Flags) { f & INPASSABLE != 0 }

  /** An object is removed by a shot when its DESTRUCTABLE bit is set. */
  predicate Destructable(f: Flags) { f & DESTRUCTABLE != 0 }

  lemma FlagsAreDistinctBits()
    ensures IsSingleBit(INPASSABLE) && IsSingleBit(BLOCK_SIGHT) && IsSingleBit(DESTRUCTABLE)
    ensures INPASSABLE & BLOCK_SIGHT == 0 && INPASSABLE & DESTRUCTABLE == 0 && BLOCK_SIGHT & DESTRUCTABLE == 0
  {
  }

  /** Adding disjoint flags is their bitwise union. */
  lemma DisjointSumIsUnion(f: Flags, g: Flags)
    requires f & g == 0
    ensures f + g == f | g
  {
  }

  lemma PresetFlags()
    ensures FOREST == DESTRUCTABLE | BLOCK_SIGHT && !Blocks(FOREST) && Destructable(FOREST)
    ensures WATER & (BLOCK_SIGHT | DESTRUCTABLE) == 0 && Blocks(WATER) && !Destructable(WATER)
  {
    DisjointSumIsUnion(DESTRUCTABLE, BLOCK_SIGHT);
  }
}
