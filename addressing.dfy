/**
 * Address decomposition of a cache with `sets` sets of lines of `lineSize` bytes.
 * The source shifts by log2(lineSize) and log2(sets) and masks; for power-of-two
 * geometry that is integer division and remainder, which is what is modelled here.
 */
module Addressing {

  /** The memory block an address falls in. */
  function Block(addr: nat, lineSize: nat): (b: nat)
    requires lineSize > 0
    ensures b * lineSize <= addr < b * lineSize + lineSize
  {
    addr / lineSize
  }

  /** calcTag: the bits above the index. */
  function Tag(addr: nat, lineSize: nat, sets: nat): (t: nat)
    requires lineSize > 0 && sets > 0
    ensures t * sets <= Block(addr, lineSize) < t * sets + sets
  {
    Block(addr, lineSize) / sets
  }

  /** calcIndex: the set an address maps to. */
  function Index(addr: nat, lineSize: nat, sets: nat): (i: nat)
    requires lineSize > 0 && sets > 0
    ensures i < sets
    ensures Block(addr, lineSize) == Tag(addr, lineSize, sets) * sets + i
  {
    Block(addr, lineSize) % sets
  }

  /** Tag, index and offset together give the address back. */
  lemma Decompose(addr: nat, lineSize: nat, sets: nat)
    requires lineSize > 0 && sets > 0
    ensures addr == (Tag(addr, lineSize, sets) * sets + Index(addr, lineSize, sets)) * lineSize + addr % lineSize
  {
    var b := Block(addr, lineSize);
    assert b == (b / sets) * sets + b % sets;
    assert addr == b * lineSize + addr % lineSize;
  }

  /** Two addresses share a (tag, index) pair exactly when they lie in the same block. */
  lemma SameLine(a: nat, b: nat, lineSize: nat, sets: nat)
    requires lineSize > 0 && sets > 0
    ensures (Tag(a, lineSize, sets) == Tag(b, lineSize, sets) && Index(a, lineSize, sets) == Index(b, lineSize, sets))
            <==> Block(a, lineSize) == Block(b, lineSize)
  {
    var x, y := Block(a, lineSize), Block(b, lineSize);
    assert x == (x / sets) * sets + x % sets;
    assert y == (y / sets) * sets + y % sets;
  }
}
