/** Bits of bytes and machine words, and the masks that test them. */
module ByteBits {
  import opened Types

  // ---------------------------------------------------------------- bits of a word

  function Mask(j: bv32): bv32
    requires j < 32
  {
    (0x8000_0000 as bv32) >> j
  }

  /** Clearing and setting one bit of a word leaves the others alone. */
  lemma MaskApart(w: bv32, b: bv32, j: bv32)
    requires b < 32 && j < 32
    ensures w & !Mask(b) & Mask(j) != 0 <==> w & Mask(j) != 0 && b != j
    ensures (w | Mask(b)) & Mask(j) != 0 <==> w & Mask(j) != 0 || b == j
  {
  }

  // ---------------------------------------------------------------- bits of a byte

  /** This mask if the number has the bit of weight `w`. */
  function If(n: nat, w: nat, m: bv8): bv8
    requires w > 0
  {
    if n / w % 2 == 1 then m else 0
  }

  /** The bits of a byte. */
  function Bits8(b: byte): bv8 {
    var n := b as nat;
    If(n, 128, 0x80) | If(n, 64, 0x40) | If(n, 32, 0x20) | If(n, 16, 0x10) | If(n, 8, 0x08) | If(n, 4, 0x04)
    | If(n, 2, 0x02) | If(n, 1, 0x01)
  }

  function Index(k: nat): bv32
    requires k < 32
  {
    k as bv32
  }

  predicate Meets(x: bv32, k: bv32)
    requires k < 32
  {
    x & Mask(k) != 0
  }

  predicate Meets8(x: bv8, k: bv32)
    requires k < 8
  {
    x & ((0x80 as bv8) >> (k as bv8)) != 0
  }

  lemma IndexIs(k: nat)
    requires k < 32
    ensures Index(k) < 32
  {
  }

  /** How readers and allocator test bit `j` of a word. */
  predicate Tests(x: bv32, j: nat)
    requires j < 32
  {
    IndexIs(j);
    Meets(x, Index(j))
  }

  predicate Tests8(x: bv8, k: nat)
    requires k < 8
  {
    Indexes(k);
    Meets8(x, Index(k))
  }

  /** Bit `k` of a byte, the highest one first. */
  predicate BitSet(b: byte, k: nat)
    requires k < 8
  {
    Tests8(Bits8(b), k)
  }

  lemma MeetsBits(b: bv8)
    ensures (Meets8(b, 0) <==> b & 0x80 != 0) && (Meets8(b, 1) <==> b & 0x40 != 0) && (Meets8(b, 2) <==> b & 0x20 != 0)
    ensures (Meets8(b, 3) <==> b & 0x10 != 0) && (Meets8(b, 4) <==> b & 0x08 != 0) && (Meets8(b, 5) <==> b & 0x04 != 0)
    ensures (Meets8(b, 6) <==> b & 0x02 != 0) && (Meets8(b, 7) <==> b & 0x01 != 0)
  {
  }

  lemma SmallIndexes()
    ensures Index(0) == 0 && Index(1) == 1 && Index(2) == 2 && Index(3) == 3 && Index(4) == 4 && Index(5) == 5
            && Index(6) == 6 && Index(7) == 7
  {
  }

  /** The weight of bit `k` of a byte. */
  function Weight(k: nat): nat
    requires k < 8
    ensures Weight(k) > 0
  {
    if k == 0 then 128 else if k == 1 then 64 else if k == 2 then 32 else if k == 3 then 16 else if k == 4 then 8
    else if k == 5 then 4 else if k == 6 then 2 else 1
  }

  lemma OredBits(a: bv8, b: bv8, c: bv8, d: bv8, e: bv8, f: bv8, g: bv8, h: bv8)
    requires (a == 0 || a == 0x80) && (b == 0 || b == 0x40) && (c == 0 || c == 0x20) && (d == 0 || d == 0x10)
    requires (e == 0 || e == 0x08) && (f == 0 || f == 0x04) && (g == 0 || g == 0x02) && (h == 0 || h == 0x01)
    ensures var x := a | b | c | d | e | f | g | h;
            && (x & 0x80 != 0 <==> a != 0) && (x & 0x40 != 0 <==> b != 0) && (x & 0x20 != 0 <==> c != 0)
            && (x & 0x10 != 0 <==> d != 0) && (x & 0x08 != 0 <==> e != 0) && (x & 0x04 != 0 <==> f != 0)
            && (x & 0x02 != 0 <==> g != 0) && (x & 0x01 != 0 <==> h != 0)
  {
  }

  /** Bit `k` of a byte is set exactly when the number has its weight. */
  lemma BitSetIff(b: byte, k: nat)
    requires k < 8
    ensures BitSet(b, k) <==> b as nat / Weight(k) % 2 == 1
  {
    var n := b as nat;
    OredBits(If(n, 128, 0x80), If(n, 64, 0x40), If(n, 32, 0x20), If(n, 16, 0x10), If(n, 8, 0x08), If(n, 4, 0x04),
             If(n, 2, 0x02), If(n, 1, 0x01));
    var x := Bits8(b);
    MeetsBits(x);
    SmallIndexes();
    hide Meets8, Index, Bits8;
    if k == 0 { } else if k == 1 { } else if k == 2 { } else if k == 3 { } else if k == 4 { } else if k == 5 { }
      else if k == 6 { } else { assert k == 7; }
  }

  function Joined(a: bv8, b: bv8, c: bv8, d: bv8): bv32 {
    ((a as bv32) << 24) | ((b as bv32) << 16) | ((c as bv32) << 8) | (d as bv32)
  }

  lemma JoinedMasks(a: bv8, b: bv8, c: bv8, d: bv8, k: bv32)
    requires k < 8
    ensures var x, m := ((a as bv32) << 24) | ((b as bv32) << 16) | ((c as bv32) << 8) | (d as bv32),
            (0x80 as bv8) >> (k as bv8);
            && (x & ((0x8000_0000 as bv32) >> k) != 0 <==> a & m != 0)
            && (x & ((0x8000_0000 as bv32) >> (8 + k)) != 0 <==> b & m != 0)
            && (x & ((0x8000_0000 as bv32) >> (16 + k)) != 0 <==> c & m != 0)
            && (x & ((0x8000_0000 as bv32) >> (24 + k)) != 0 <==> d & m != 0)
  {
  }

  lemma MeetsIs(x: bv32, k: bv32, b: bv8)
    requires k < 32
    ensures Meets(x, k) <==> x & ((0x8000_0000 as bv32) >> k) != 0
    ensures k < 8 ==> (Meets8(b, k) <==> b & ((0x80 as bv8) >> (k as bv8)) != 0)
  {
  }

  lemma JoinedBits(a: bv8, b: bv8, c: bv8, d: bv8, k: bv32)
    requires k < 8
    ensures var x := Joined(a, b, c, d);
            && (Meets(x, k) <==> Meets8(a, k)) && (Meets(x, 8 + k) <==> Meets8(b, k))
            && (Meets(x, 16 + k) <==> Meets8(c, k)) && (Meets(x, 24 + k) <==> Meets8(d, k))
  {
    JoinedMasks(a, b, c, d, k);
    var x := Joined(a, b, c, d);
    hide Joined, Meets, Meets8;
    MeetsIs(x, k, a);
    MeetsIs(x, 8 + k, b);
    MeetsIs(x, 16 + k, c);
    MeetsIs(x, 24 + k, d);
    MeetsIs(x, k, b);
    MeetsIs(x, k, c);
    MeetsIs(x, k, d);
  }

  lemma Indexes(k: nat)
    requires k < 8
    ensures Index(k) < 8 && Index(8 + k) == 8 + Index(k) && Index(16 + k) == 16 + Index(k)
            && Index(24 + k) == 24 + Index(k)
  {
    if k == 0 { } else if k == 1 { } else if k == 2 { } else if k == 3 { } else if k == 4 { } else if k == 5 { }
      else if k == 6 { } else { assert k == 7; }
  }

  /** The tests of the four bytes of a word, bit by bit. */
  lemma MasksOf(a: bv8, b: bv8, c: bv8, d: bv8, k: nat)
    requires k < 8
    ensures var x := Joined(a, b, c, d);
            && (Tests(x, k) <==> Tests8(a, k)) && (Tests(x, 8 + k) <==> Tests8(b, k))
            && (Tests(x, 16 + k) <==> Tests8(c, k)) && (Tests(x, 24 + k) <==> Tests8(d, k))
  {
    hide Joined, Meets, Meets8, Index;
    Indexes(k);
    JoinedBits(a, b, c, d, Index(k));
  }
}
