/** Fixed-size records in reserved blocks: anode slots, index entries and bitmap words in a byte
    buffer, bits in a machine word, and blocks spread over sectors. */
module Records {
  import opened Types
  import opened Codec
  import opened Ownership
  import opened SectorData
  import Compose

  // ---------------------------------------------------------------- anode slots

  const ANODE_HEADER: nat := 16
  const ANODE_BYTES: nat := 12

  function SlotBase(o: nat): nat {
    ANODE_HEADER + o * ANODE_BYTES
  }

  /** The record of slot `o` in the bytes of an anode block. */
  function GetSlot(d: Bytes, o: nat): Slot
    requires SlotBase(o) + ANODE_BYTES <= |d|
  {
    var b := SlotBase(o);
    Slot(Get32(d, b), Get32(d, b + 4), Get32(d, b + 8))
  }

  /** Write the three fields of slot `o`, then the block's datestamp. */
  function PutSlot(d: Bytes, o: nat, x: Slot, ds: nat): (r: Bytes)
    requires SlotBase(o) + ANODE_BYTES <= |d|
    ensures |r| == |d|
  {
    var b := SlotBase(o);
    Put(Put(Put(Put(d, b, Be32(x.size)), b + 4, Be32(x.blk)), b + 8, Be32(x.next)), 4, Be32(ds))
  }

  predicate Fits32(x: Slot) {
    x.size < U32 && x.blk < U32 && x.next < U32
  }

  /** Writing a slot is a point update of the table the block encodes. */
  lemma PutSlotGet(d: Bytes, o: nat, x: Slot, ds: nat, p: nat)
    requires Fits32(x) && SlotBase(o) + ANODE_BYTES <= |d| && SlotBase(p) + ANODE_BYTES <= |d|
    ensures GetSlot(PutSlot(d, o, x, ds), p) == if p == o then x else GetSlot(d, p)
  {
    SlotField(d, o, x, ds, p, 0);
    SlotField(d, o, x, ds, p, 4);
    SlotField(d, o, x, ds, p, 8);
  }

  /** One field of one slot after writing slot `o`. */
  lemma SlotField(d: Bytes, o: nat, x: Slot, ds: nat, p: nat, k: nat)
    requires Fits32(x) && SlotBase(o) + ANODE_BYTES <= |d| && SlotBase(p) + ANODE_BYTES <= |d| && k in {0, 4, 8}
    ensures Get32(PutSlot(d, o, x, ds), SlotBase(p) + k)
         == if p != o then Get32(d, SlotBase(p) + k) else if k == 0 then x.size else if k == 4 then x.blk else x.next
  {
    hide Get32, Put, Be32;
    var b, c := SlotBase(o), SlotBase(p) + k;
    var d1 := Put(d, b, Be32(x.size));
    var d2 := Put(d1, b + 4, Be32(x.blk));
    var d3 := Put(d2, b + 8, Be32(x.next));
    Put32Get(d3, 4, ds, c);
    Put32Get(d2, b + 8, x.next, c);
    Put32Get(d1, b + 4, x.blk, c);
    Put32Get(d, b, x.size, c);
  }

  // ---------------------------------------------------------------- blocks over sectors

  /** Write a reserved block of `n` sectors, the last ones padded with zeros. */
  method WriteReservedBlocks(dev: Sectors, blk: nat, data: Bytes, n: nat, ss: nat) returns (r: Sectors)
    ensures r == WriteSome(ss, dev, Expand(Slot(n, blk, 0)), data, 0, n)
  {
    hide Pad;
    r := dev;
    var bl := Expand(Slot(n, blk, 0));
    for i := 0 to n
      invariant r == WriteSome(ss, dev, bl, data, 0, i)
    {
      r := r[blk + i := Pad(data, i * ss, ss)];
    }
  }

  /** Reading the sectors of a reserved block gives back what was written, and no other sector
      has changed. */
  lemma ReservedReadsBack(dev: Sectors, blk: nat, data: Bytes, n: nat, ss: nat, x: nat)
    requires |data| == n * ss
    ensures var r := WriteSome(ss, dev, Expand(Slot(n, blk, 0)), data, 0, n);
            && Concat(r, Expand(Slot(n, blk, 0))) == data
            && (!(blk <= x < blk + n) ==> (x in r <==> x in dev) && (x in dev ==> r[x] == dev[x]))
  {
    var bl := Expand(Slot(n, blk, 0));
    var r := WriteSome(ss, dev, bl, data, 0, n);
    hide Pad;
    Compose.WrittenHolds(ss, dev, bl, data, 0);
    ConcatPad(ss, r, bl, data, 0);
    PadAll(data);
    if !(blk <= x < blk + n) { WriteElsewhere(ss, dev, bl, data, n, x); }
  }

  lemma PadAll(data: Bytes)
    ensures Pad(data, 0, |data|) == data
  {
  }

  lemma {:induction false} WriteElsewhere(ss: nat, dev: Sectors, bl: seq<nat>, data: Bytes, k: nat, x: nat)
    requires k <= |bl| && x !in bl
    ensures var r := WriteSome(ss, dev, bl, data, 0, k); (x in r <==> x in dev) && (x in dev ==> r[x] == dev[x])
  {
    hide Pad;
    if k > 0 { WriteElsewhere(ss, dev, bl, data, k - 1, x); }
  }
}
