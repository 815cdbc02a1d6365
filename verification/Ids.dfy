/** The split of the id space between the two ends of a connection, on machine words
    (core/src/utils/id_space.rs). */
module IdBits {

  datatype IdSpace = Client | Server

  const MASK: bv32 := 0x8000_0000

  function Marker(space: IdSpace): bv32 {
    match space
    case Client => 0
    case Server => MASK
  }

  function PlaceBits(space: IdSpace, id: bv32): bv32 {
    (id & !MASK) | Marker(space)
  }

  lemma HighBitSet(id: bv32)
    requires id >= 0x8000_0000
    ensures (id - 0x8000_0000) as int == id as int - 0x8000_0000
  {
  }

  lemma HighBitAdded(id: bv32)
    requires id < 0x8000_0000
    ensures (id + 0x8000_0000) as int == id as int + 0x8000_0000
  {
  }

  lemma HighBitOr(id: bv32)
    requires id < 0x8000_0000
    ensures id | 0x8000_0000 == id + 0x8000_0000
  {
  }

  lemma Word(id: bv32)
    ensures 0 <= id as int < 0x1_0000_0000
  {
  }

  lemma HighBitIsHalf(id: bv32)
    ensures if id < 0x8000_0000 then id as int < 0x8000_0000 else id as int >= 0x8000_0000
  {
    if id < 0x8000_0000 {
      HighBitAdded(id);
      Word(id + 0x8000_0000);
    } else {
      HighBitSet(id);
      Word(id - 0x8000_0000);
    }
  }

  lemma LowBitsSmall(id: bv32)
    requires id < 0x8000_0000
    ensures id & 0x7FFF_FFFF == id
  {
  }

  lemma LowBitsLarge(id: bv32)
    requires id >= 0x8000_0000
    ensures id & 0x7FFF_FFFF == id - 0x8000_0000 && id & 0x7FFF_FFFF < 0x8000_0000
  {
  }

  lemma LowNumber(x: int)
    requires 0 <= x < 0x1_0000_0000
    ensures x % 0x8000_0000 == if x < 0x8000_0000 then x else x - 0x8000_0000
  {
  }

  lemma LowBitsNumber(id: bv32)
    ensures id & 0x7FFF_FFFF < 0x8000_0000
    ensures (id & 0x7FFF_FFFF) as int == id as int % 0x8000_0000
  {
    HighBitIsHalf(id);
    Word(id);
    LowNumber(id as int);
    if id < 0x8000_0000 {
      LowBitsSmall(id);
    } else {
      LowBitsLarge(id);
      HighBitSet(id);
    }
  }

  /** Placing an id keeps its low 31 bits and sets the top one on the server side. */
  lemma PlacedNumber(space: IdSpace, id: bv32)
    ensures 0 <= id as int < 0x1_0000_0000
    ensures PlaceBits(space, id) as int == id as int % 0x8000_0000 + if space == Client then 0 else 0x8000_0000
  {
    Word(id);
    LowBitsNumber(id);
    var low := id & 0x7FFF_FFFF;
    if space == Client {
      assert PlaceBits(space, id) == low;
    } else {
      HighBitOr(low);
      HighBitAdded(low);
      assert PlaceBits(space, id) == low | 0x8000_0000;
    }
  }
}

/** Request and stream ids: a process-wide counter, and the split of the id space between the two
    ends of a connection (core/src/utils/increment_u32_id.rs and core/src/utils/id_space.rs). */
module Ids {
  import opened Bytes
  import opened IdBits

  /** The id of `PlaceBits` as a number: the low 31 bits, plus 2^31 on the server side. */
  function Place(space: IdSpace, id: U32): U32 {
    id % TWO_31 + if space == Client then 0 else TWO_31
  }

  predicate InHalf(space: IdSpace, id: U32) {
    space == Server <==> id >= TWO_31
  }

  function Other(space: IdSpace): IdSpace {
    if space == Client then Server else Client
  }

  /** The arithmetic of `Place` is the bit arithmetic of the source. */
  lemma PlaceIsPlaceBits(space: IdSpace, id: bv32)
    ensures 0 <= id as int < TWO_32 && PlaceBits(space, id) as int == Place(space, id as int)
  {
    PlacedNumber(space, id);
  }

  // ---------------------------------------------------------------- the counter

  /** The id handed out by draw number `n` of the process. */
  function Draw(n: nat): U32 {
    n % TWO_32
  }

  /** The counter counts: the first 2^32 draws are the numbers from zero on. */
  lemma EarlyDraws(n: nat)
    requires n < TWO_32
    ensures Draw(n) == n
  {
  }

  /** The `i`-th of the ids that are used one after the other, each drawn one step ahead: first `next`,
      which was drawn before, then those drawn on the way. */
  function NthId(space: IdSpace, next: U32, draws: nat, i: nat): U32 {
    Place(space, if i == 0 then next else Draw(draws + i - 1))
  }

  lemma NextId(space: IdSpace, next: U32, draws: nat, i: nat)
    ensures NthId(space, next, draws, i + 1) == Place(space, Draw(draws + i))
  {
    assert draws + (i + 1) - 1 == draws + i;
  }

  /** The global counter, a wrapping 64-bit word truncated to 32 bits. */
  class IdCounter {
    var counter: U64
    ghost var draws: nat

    ghost predicate Valid()
      reads this
    {
      counter == draws % TWO_64
    }

    constructor ()
      ensures Valid() && draws == 0
    {
      counter, draws := 0, 0;
    }

    method Increment() returns (id: U32)
      requires Valid()
      modifies this
      ensures Valid() && draws == old(draws) + 1 && id == Draw(old(draws))
    {
      id := counter % TWO_32;
      Truncate(draws);
      NextWord(draws);
      counter := if counter + 1 == TWO_64 then 0 else counter + 1;
      draws := draws + 1;
    }
  }

  lemma Truncate(n: nat)
    ensures (n % TWO_64) % TWO_32 == n % TWO_32
  {
    var q := n / TWO_64;
    assert n == q * TWO_64 + n % TWO_64;
    assert q * TWO_64 == (q * TWO_32) * TWO_32;
    Cancel(q * TWO_32, n % TWO_64);
  }

  lemma Cancel(q: nat, r: nat)
    ensures (q * TWO_32 + r) % TWO_32 == r % TWO_32
  {
    var d := r / TWO_32;
    assert q * TWO_32 + r == (q + d) * TWO_32 + r % TWO_32;
  }

  lemma NextWord(n: nat)
    ensures (n + 1) % TWO_64 == if n % TWO_64 + 1 == TWO_64 then 0 else n % TWO_64 + 1
  {
    var q := n / TWO_64;
    assert n == q * TWO_64 + n % TWO_64;
    assert n % TWO_64 + 1 == TWO_64 ==> n + 1 == (q + 1) * TWO_64;
  }

  lemma DrawLow(n: nat)
    ensures Draw(n) % TWO_31 == n % TWO_31
  {
    var q := n / TWO_32;
    assert n == q * TWO_32 + Draw(n) == (2 * q) * TWO_31 + Draw(n);
    DropMultiple(2 * q, Draw(n));
  }

  lemma DropMultiple(q: nat, r: nat)
    ensures (q * TWO_31 + r) % TWO_31 == r % TWO_31
  {
    var d := r / TWO_31;
    assert q * TWO_31 + r == (q + d) * TWO_31 + r % TWO_31;
  }

  lemma Residue(x: int, q: int, r: nat)
    requires x == q * TWO_31 + r && r < TWO_31
    ensures x % TWO_31 == r
  {
  }

  lemma SameResidue(i: nat, j: nat)
    requires i % TWO_31 == j % TWO_31
    ensures (i - j) % TWO_31 == 0
  {
    Residue(i - j, i / TWO_31 - j / TWO_31, 0);
  }

  lemma MultipleApart(i: nat, j: nat)
    requires (i - j) % TWO_31 == 0
    ensures i % TWO_31 == j % TWO_31
  {
    Residue(i, (i - j) / TWO_31 + j / TWO_31, j % TWO_31);
  }

  lemma InOneHalf(s1: IdSpace, a: U32, s2: IdSpace, b: U32)
    ensures Place(s1, a) == Place(s2, b) <==> s1 == s2 && a % TWO_31 == b % TWO_31
    ensures InHalf(s1, Place(s1, a))
  {
  }

  /** Freshness of ids: two draws collide within one half exactly when they are a multiple of
      2^31 draws apart, and never across halves. */
  lemma IdsCollideOnlyAfterHalf(s1: IdSpace, i: nat, s2: IdSpace, j: nat)
    ensures Place(s1, Draw(i)) == Place(s2, Draw(j)) <==> s1 == s2 && (i - j) % TWO_31 == 0
    ensures InHalf(s1, Place(s1, Draw(i)))
  {
    InOneHalf(s1, Draw(i), s2, Draw(j));
    DrawLow(i);
    DrawLow(j);
    if i % TWO_31 == j % TWO_31 {
      SameResidue(i, j);
    }
    if (i - j) % TWO_31 == 0 {
      MultipleApart(i, j);
    }
  }

  lemma FreshWithinHalf(space: IdSpace, i: nat, j: nat)
    requires i < j < i + TWO_31
    ensures Place(space, Draw(i)) != Place(space, Draw(j))
  {
    IdsCollideOnlyAfterHalf(space, i, space, j);
  }
}
