/** Formatting: how many reserved blocks a disk gets, the allocator that hands them out, and the
    volume the formatter lays down on small disks with 512-byte sectors. */
module Format {
  import opened Types
  import opened Bitmap
  import opened Anodes
  import opened Ownership
  import opened Table
  import opened Transitions
  import opened Runs
  import opened Layout
  import opened Steps
  import opened VolumeImage
  import opened Counting
  import opened Sets

  const MAX_NUM_RESERVED: nat := 4096 + 255 * 1024 * 8
  const MAX_SMALL_DISK: nat := 5 * 253 * 253 * 32

  /** One doubling of the disk size: seven eighths more reserved blocks, from half a million on five eighths. */
  function Grown(taken: nat, i: nat): (r: nat)
    ensures taken <= r <= 2 * taken
  {
    taken + taken * (if i >= 512 * 2048 then 10 else 14) / 16
  }

  /** The reserved blocks before rounding, starting from `taken` for disks of up to `i / 2` blocks. */
  function Doubled(taken: nat, i: nat, total: nat): (r: nat)
    requires i > 0
    ensures r >= taken
    decreases 2 * total - i
  {
    if i / 2 < total then Doubled(Grown(taken, i), 2 * i, total) else taken
  }

  /** Rounded up to whole bitmap words, within limits. */
  function Rounded(taken: nat): (r: nat)
    ensures r % 32 == 0 && 32 <= r <= MAX_NUM_RESERVED + 31
    ensures taken <= MAX_NUM_RESERVED ==> r >= taken - 1
    ensures taken > 32 ==> r < taken + 31
  {
    var t := if taken > 0 then taken - 1 else 0;
    var u := (if t <= MAX_NUM_RESERVED then t else MAX_NUM_RESERVED) + 31;
    if u / 32 * 32 < 32 then 32 else u / 32 * 32
  }

  /** As many larger blocks as these blocks of a kilobyte fill. */
  function Whole(n: nat, resblocksize: nat): nat
    requires resblocksize >= 1024
  {
    n / (resblocksize / 1024)
  }

  /** Reserved blocks for a disk of this size. */
  function NumReserved(total: nat, resblocksize: nat): (r: nat)
    requires resblocksize >= 1024
    ensures r % 32 == 0 && 32 <= r <= MAX_NUM_RESERVED + 31
  {
    Rounded(Whole(Doubled(32, 2048, total), resblocksize))
  }

  method CalcNumReserved(total: nat, resblocksize: nat) returns (r: nat)
    requires resblocksize >= 1024
    ensures r == NumReserved(total, resblocksize)
    ensures total <= MAX_SMALL_DISK && resblocksize == 1024 ==> r == ReservedFor(total)
    ensures total <= U32 ==> InWords(r, Whole(Taken(total), resblocksize))
  {
    NumReservedIs(total, resblocksize);
    hide Doubled, Taken, ReservedFor, InWords, Rounded, Whole;
    var taken := CalcTaken(total);
    WholeIs(taken, resblocksize);
    r := RoundUp(taken / (resblocksize / 1024));
  }

  lemma WholeIs(n: nat, resblocksize: nat)
    requires resblocksize >= 1024
    ensures n / (resblocksize / 1024) == Whole(n, resblocksize)
  {
  }

  /** Double the size, seven or five eighths more each time. */
  method CalcTaken(total: nat) returns (taken: nat)
    ensures taken == Doubled(32, 2048, total)
  {
    hide Doubled;
    taken := 32;
    var i := 2048;
    while i / 2 < total
      invariant i > 0 && Doubled(taken, i, total) == Doubled(32, 2048, total)
      decreases 2 * total - i
    {
      Once(taken, i, total);
      var m := if i >= 512 * 2048 then 10 else 14;
      taken := taken + taken * m / 16;
      i := i * 2;
    }
    Once(taken, i, total);
  }

  method RoundUp(n: nat) returns (r: nat)
    ensures r == Rounded(n)
  {
    var taken := if n > 0 then n - 1 else 0;
    taken := if taken <= MAX_NUM_RESERVED then taken else MAX_NUM_RESERVED;
    taken := (taken + 31) / 32 * 32;
    r := if taken < 32 then 32 else taken;
  }

  /** Larger disks get no fewer reserved blocks. */
  lemma {:induction false} DoubledMore(taken: nat, i: nat, total: nat, more: nat)
    requires i > 0 && total <= more
    ensures Doubled(taken, i, total) <= Doubled(taken, i, more)
    decreases 2 * total - i
  {
    if i / 2 < total { DoubledMore(Grown(taken, i), 2 * i, total, more); }
  }

  lemma RoundedMore(n: nat, m: nat)
    requires n <= m
    ensures Rounded(n) <= Rounded(m)
  {
  }

  lemma ReservedMonotone(total: nat, more: nat)
    requires total <= more
    ensures NumReserved(total, 1024) <= NumReserved(more, 1024)
  {
    DoubledMore(32, 2048, total, more);
    hide Doubled, Rounded;
    RoundedMore(Doubled(32, 2048, total), Doubled(32, 2048, more));
  }

  /** The first eight doublings. */
  lemma FirstDoublings(total: nat)
    ensures total <= 131072 ==> total <= 140 * Doubled(32, 2048, total) - 140
                                && Doubled(32, 2048, total) <= MAX_NUM_RESERVED
                                && Doubled(32, 2048, total) == Taken(total)
    ensures total > 131072 ==> Doubled(32, 2048, total) == Doubled(4850, 524288, total)
  {
    hide Doubled;
    Once(32, 2048, total);
    Once(60, 4096, total);
    Once(112, 8192, total);
    Once(210, 16384, total);
    Once(393, 32768, total);
    Once(736, 65536, total);
    Once(1380, 131072, total);
    Once(2587, 262144, total);
  }

  /** What the doublings give: at least one reserved block for every 140 blocks of a small disk. */
  lemma DoublingTable(total: nat)
    requires total <= MAX_SMALL_DISK
    ensures total <= 140 * Doubled(32, 2048, total) - 140 && Doubled(32, 2048, total) <= MAX_NUM_RESERVED
  {
    hide Doubled;
    FirstDoublings(total);
    Once(4850, 524288, total);
    Once(9093, 1048576, total);
    Once(14776, 2097152, total);
    Once(24011, 4194304, total);
    Once(39017, 8388608, total);
    Once(63402, 16777216, total);
    Once(103028, 33554432, total);
  }

  /** Reserved blocks of a small disk, by its size. */
  function ReservedFor(total: nat): (r: nat)
    ensures r >= 32
  {
    if total <= 1024 then 32
    else if total <= 2048 then 64
    else if total <= 4096 then 128
    else if total <= 8192 then 224
    else if total <= 16384 then 416
    else if total <= 32768 then 736
    else if total <= 65536 then 1408
    else if total <= 131072 then 2592
    else if total <= 262144 then 4864
    else if total <= 524288 then 9120
    else if total <= 1048576 then 14784
    else if total <= 2097152 then 24032
    else if total <= 4194304 then 39040
    else if total <= 8388608 then 63424
    else 103040
  }

  /** What all doublings give, before reserved blocks of more than a kilobyte, limits and whole words. */
  function Taken(total: nat): nat {
    if total <= 1024 then 32
    else if total <= 2048 then 60
    else if total <= 4096 then 112
    else if total <= 8192 then 210
    else if total <= 16384 then 393
    else if total <= 32768 then 736
    else if total <= 65536 then 1380
    else if total <= 131072 then 2587
    else if total <= 262144 then 4850
    else if total <= 524288 then 9093
    else if total <= 1048576 then 14776
    else if total <= 2097152 then 24011
    else if total <= 4194304 then 39017
    else if total <= 8388608 then 63402
    else if total <= 16777216 then 103028
    else if total <= 33554432 then 167420
    else if total <= 67108864 then 272057
    else if total <= 134217728 then 442092
    else if total <= 268435456 then 718399
    else if total <= 536870912 then 1167398
    else if total <= 1073741824 then 1897021
    else if total <= 2147483648 then 3082659
    else 5009320
  }

  /** The result of the doublings for every disk whose blocks have 32-bit numbers. */
  lemma TakenTable(total: nat)
    requires total <= U32
    ensures Doubled(32, 2048, total) == Taken(total)
  {
    hide Doubled;
    FirstDoublings(total);
    Once(4850, 524288, total);
    Once(9093, 1048576, total);
    Once(14776, 2097152, total);
    Once(24011, 4194304, total);
    Once(39017, 8388608, total);
    Once(63402, 16777216, total);
    Once(103028, 33554432, total);
    Once(167420, 67108864, total);
    Once(272057, 134217728, total);
    Once(442092, 268435456, total);
    Once(718399, 536870912, total);
    Once(1167398, 1073741824, total);
    Once(1897021, 2147483648, total);
    Once(3082659, 4294967296, total);
    Once(5009320, 8589934592, total);
  }

  /** The number of reserved blocks of every small disk. */
  lemma ReservedTable(total: nat)
    requires total <= MAX_SMALL_DISK
    ensures NumReserved(total, 1024) == ReservedFor(total)
  {
    hide Doubled;
    TakenTable(total);
  }

  /** `r` is `taken`, less one, in whole bitmap words and within limits. */
  predicate InWords(r: nat, taken: nat) {
    && r % 32 == 0
    && if taken <= 33 then r == 32
       else if taken <= MAX_NUM_RESERVED then taken - 1 <= r < taken + 31
       else MAX_NUM_RESERVED <= r < MAX_NUM_RESERVED + 32
  }

  /** The number of reserved blocks, whatever the size of a reserved block. */
  lemma NumReservedIs(total: nat, resblocksize: nat)
    requires resblocksize >= 1024
    ensures total <= MAX_SMALL_DISK ==> NumReserved(total, 1024) == ReservedFor(total)
    ensures total <= U32 ==> InWords(NumReserved(total, resblocksize), Whole(Taken(total), resblocksize))
  {
    hide Taken, ReservedFor, Doubled, Whole;
    if total <= U32 { TakenTable(total); }
    if total <= MAX_SMALL_DISK { ReservedTable(total); }
  }

  lemma Once(taken: nat, i: nat, total: nat)
    requires i > 0
    ensures Doubled(taken, i, total) == if i / 2 < total then Doubled(Grown(taken, i), 2 * i, total) else taken
  {
  }

  /** The reserved area always suffices for the root cluster and the structures the formatter lays down,
      with some blocks to spare. */
  lemma ReservedSuffices(total: nat, kb: nat)
    requires total <= MAX_SMALL_DISK && (kb > 1 ==> 125 + 256 * (kb - 2) < NumReserved(total, 1024) / 32)
    ensures var n := NumReserved(total, 1024);
            && kb < n
            && (total > 2 + 2 * n ==> var bm := CeilTo(total - 2 - 2 * n, BITS);
                                      kb + 4 + bm + CeilTo(bm, IPB) + 16 <= n)
  {
    var n := NumReserved(total, 1024);
    DoublingTable(total);
    hide Doubled, NumReserved, CeilTo;
    assert total <= 140 * n;
    if total > 2 + 2 * n {
      CeilIs(total - 2 - 2 * n, BITS);
      CeilIs(CeilTo(total - 2 - 2 * n, BITS), IPB);
    }
  }

  /** Kilobytes the root cluster needs so that the reserved bitmap fits behind the root block. */
  method BitmapKilobytes(numReserved: nat) returns (k: nat)
    ensures k >= 1 && numReserved / 32 <= 125 + 256 * (k - 1)
    ensures k > 1 ==> 125 + 256 * (k - 2) < numReserved / 32
  {
    k := 1;
    var i := 125;
    while i < numReserved / 32
      invariant k >= 1 && i == 125 + 256 * (k - 1) && (k > 1 ==> 125 + 256 * (k - 2) < numReserved / 32)
      decreases numReserved / 32 - i
    {
      k := k + 1;
      i := i + 256;
    }
  }

  // ---------------------------------------------------------------- the reserved-block allocator

  /** Indices of the free blocks. */
  ghost function FreeIn(bits: seq<bool>): set<nat> {
    set q | 0 <= q < |bits| && bits[q]
  }

  function Wrap(start: nat, j: nat, n: nat): (r: nat)
    requires n > 0
    ensures r < n
  {
    (start + j) % n
  }

  class ReservedAllocator {
    var bits: seq<bool>
    var roving: nat

    /** All blocks free but those of the root cluster. */
    constructor (numReserved: nat, cluster: nat)
      ensures |bits| == numReserved && forall q :: 0 <= q < numReserved ==> (bits[q] <==> q >= cluster)
      ensures cluster <= numReserved ==> |FreeIn(bits)| == numReserved - cluster
    {
      bits := seq(numReserved, q => q >= cluster);
      roving := cluster;
      new;
      assert FreeIn(bits) == Range(cluster, numReserved);
      if cluster <= numReserved { RangeSize(cluster, numReserved); }
    }

    /** The first free block from the roving position on, wrapping around. Fails only when none is free. */
    method Alloc() returns (r: Result<nat>)
      modifies this
      ensures r.Ok? <==> FreeIn(old(bits)) != {}
      ensures r.Ok? ==> r.value in FreeIn(old(bits)) && bits == old(bits)[r.value := false]
      ensures r.Err? ==> bits == old(bits) && r.error == DiskFull
    {
      hide Wrap;
      var n := |bits|;
      for i := 0 to n
        invariant unchanged(this) && (n > 0 ==> forall j :: 0 <= j < i ==> !bits[Wrap(roving, j, n)])
      {
        var idx := Wrap(roving, i, n);
        if bits[idx] {
          bits := bits[idx := false];
          roving := Wrap(idx, 1, n);
          assert idx in FreeIn(old(bits));
          return Ok(idx);
        }
      }
      forall q | 0 <= q < n ensures !bits[q] { var j := WrapIndex(roving, q, n); }
      assert FreeIn(bits) == {};
      return Err(DiskFull);
    }

    /** `n` blocks, one after the other, as block numbers; `given` are the ids handed out before. */
    method AllocBlocks(n: nat, ghost given: seq<nat>, ghost cluster: nat)
        returns (r: Result<seq<nat>>, ghost ids: seq<nat>)
      requires HandedOut(bits, given, cluster)
      modifies this
      ensures r.Ok? <==> n <= |FreeIn(old(bits))|
      ensures r.Ok? ==> |ids| == n && r.value == BlocksAt(ids) && |bits| == |old(bits)|
                        && HandedOut(bits, given + ids, cluster)
      ensures r.Ok? ==> |FreeIn(bits)| == |FreeIn(old(bits))| - n
      ensures r.Err? ==> r.error == DiskFull
    {
      var got: seq<nat> := [];
      ids := [];
      hide BitBlock, HandedOut;
      assert given + ids == given;
      for i := 0 to n
        invariant |ids| == i && got == BlocksAt(ids) && |bits| == |old(bits)| && HandedOut(bits, given + ids, cluster)
        invariant |FreeIn(bits)| == |FreeIn(old(bits))| - i
      {
        ghost var had := bits;
        var q := Alloc();
        if q.Err? { return Err(DiskFull), ids; }
        assert FreeIn(bits) == FreeIn(had) - {q.value};
        HandOut(had, q.value, given + ids, cluster);
        assert given + (ids + [q.value]) == given + ids + [q.value];
        ids := ids + [q.value];
        got := got + [BitBlock(2, 2, q.value)];
      }
      return Ok(got), ids;
    }
  }

  /** Ids handed out so far: distinct, behind the root cluster, and exactly those no longer free. */
  ghost predicate HandedOut(bits: seq<bool>, ids: seq<nat>, cluster: nat) {
    && NoDup(ids) && (forall q :: 0 <= q < |bits| && bits[q] ==> q >= cluster)
    && (forall i :: 0 <= i < |ids| ==> cluster <= ids[i] < |bits| && !bits[ids[i]])
    && (forall q :: cluster <= q < |bits| && !bits[q] ==> q in ids)
  }

  lemma HandOut(bits: seq<bool>, q: nat, ids: seq<nat>, cluster: nat)
    requires HandedOut(bits, ids, cluster) && q in FreeIn(bits)
    ensures HandedOut(bits[q := false], ids + [q], cluster)
  {
  }

  ghost function BlocksAt(ids: seq<nat>): (bl: seq<nat>)
    ensures |bl| == |ids|
  {
    seq(|ids|, i requires 0 <= i < |ids| => BitBlock(2, 2, ids[i]))
  }

  lemma WrapIndex(roving: nat, q: nat, n: nat) returns (j: nat)
    requires q < n
    ensures j < n && Wrap(roving, j, n) == q
  {
    DivMod(roving, n);
    var k, r := Quot(roving, n), roving % n;
    Multiple(k, n);
    if r <= q {
      j := q - r;
      DivModOf(k, n, q);
    } else {
      j := q + n - r;
      DivModOf(k + 1, n, q);
    }
  }

  lemma Multiple(k: nat, n: nat)
    ensures (k + 1) * n == k * n + n
  {
  }

  // ---------------------------------------------------------------- the formatted volume

  const IPB: nat := 253
  const BITS: nat := 8096
  const APB: nat := 84

  /** Where the formatter put everything: all block numbers, and the free bits left over. */
  datatype Plan = Plan(total: nat, numRes: nat, rext: nat, bm: seq<nat>, bmi: seq<nat>, anidx: nat, anode: nat,
                       rootdir: nat,
                       bits: seq<bool>, spare: bool, cluster: nat)

  function Zeros(n: nat): seq<nat> {
    seq(n, _ => 0)
  }

  function BmStart(p: Plan): nat {
    2 + 2 * p.numRes
  }

  ghost function DataBlocks(p: Plan): int {
    p.total - BmStart(p)
  }

  function GeoOf(p: Plan): Geo {
    Geo(512, 1024, IPB, APB, 65536, 2, 2, 2 * p.cluster, p.numRes, BmStart(p), p.total, [p.anidx] + Zeros(98),
        p.bmi + Zeros(if |p.bmi| <= 5 then 5 - |p.bmi| else 0))
  }

  /** The words of bitmap block `k` when `data` blocks are free. */
  function BitmapWords(k: nat, data: int): (ws: seq<Word>)
    ensures |ws| == IPB && WordsOk(ws)
  {
    seq(IPB, j requires 0 <= j < IPB => seq(32, b requires 0 <= b < 32 => k * BITS + 32 * j + b < data))
  }

  /** The allocator's bits in words. */
  function PackBits(bits: seq<bool>): (ws: seq<Word>)
    requires |bits| % 32 == 0
    ensures |ws| == |bits| / 32 && WordsOk(ws)
  {
    seq(|bits| / 32, j requires 0 <= j < |bits| / 32 => bits[32 * j..32 * j + 32])
  }

  function NoBits(): (w: Word)
    ensures |w| == 32
  {
    seq(32, _ => false)
  }

  /** The reserved bitmap as it will be loaded: one spare word where the root cluster has room. */
  function ResWords(p: Plan): seq<Word>
    requires |p.bits| % 32 == 0
  {
    PackBits(p.bits) + if p.spare then [NoBits()] else []
  }

  function BmiEntries(bm: seq<nat>, j: nat): (es: seq<nat>)
    ensures |es| == IPB
  {
    seq(IPB, i requires 0 <= i < IPB => if IPB * j + i < |bm| then bm[IPB * j + i] else 0)
  }

  function RootSlots(rootdir: nat): (ss: seq<Slot>)
    ensures |ss| == APB
  {
    seq(APB, _ => EMPTY_SLOT)[ANODE_ROOTDIR := Slot(1, rootdir, ANODE_EOF)]
  }

  ghost function BmOf(p: Plan): seq<BmBlock> {
    seq(|p.bm|, k requires 0 <= k < |p.bm| => BmBlock(p.bm[k], BitmapWords(k, DataBlocks(p))))
  }

  /** All blocks handed out, in order. */
  ghost function Given(p: Plan): seq<nat> {
    [p.rext] + p.bm + p.bmi + [p.anidx, p.anode, p.rootdir]
  }

  ghost function ResFreeOf(p: Plan): set<nat> {
    set q | 0 <= q < |p.bits| && p.bits[q] :: BitBlock(2, 2, q)
  }

  ghost function FlatOf(p: Plan): Flat {
    Flat(map[ANODE_ROOTDIR := Slot(1, p.rootdir, ANODE_EOF)], map[p.rootdir := []], Range(BmStart(p), p.total),
         ResFreeOf(p))
  }

  ghost function WitOf(p: Plan): Wit {
    Wit(map[ANODE_ROOTDIR := [ANODE_ROOTDIR]], map[ANODE_ROOTDIR := ANODE_ROOTDIR], map[p.rootdir := ANODE_ROOTDIR],
        map[], map[], map[],
        {ANODE_ROOTDIR}, map[ANODE_ROOTDIR := 0], map[])
  }

  ghost function OwnOf(p: Plan): Own {
    Own(FlatOf(p), WitOf(p), map[], {}, Elems(Given(p)) - {p.rootdir})
  }

  /** Reserved blocks in use, outside the root cluster. */
  ghost predicate InUse(p: Plan, b: nat) {
    exists q :: p.cluster <= q < |p.bits| && !p.bits[q] && b == BitBlock(2, 2, q)
  }

  /** The root cluster is not free, and every block behind it that is not free was handed out. */
  ghost predicate AllGiven(p: Plan) {
    && (forall q :: 0 <= q < |p.bits| && p.bits[q] ==> q >= p.cluster)
    && (forall q :: p.cluster <= q < |p.bits| && !p.bits[q] ==> BitBlock(2, 2, q) in Given(p))
  }

  /** The reserved blocks behind the root cluster. */
  ghost function ReservedBlocks(p: Plan): set<nat> {
    set q | p.cluster <= q < |p.bits| :: BitBlock(2, 2, q)
  }

  /** On a fresh volume each of them is free, the root directory, or a system block. */
  lemma AllReserved(p: Plan)
    requires PlanOk(p) && AllGiven(p)
    ensures ReserveOf(FlatOf(p), OwnOf(p).sys) == ReservedBlocks(p)
  {
    hide BitBlock;
    var all := ReserveOf(FlatOf(p), OwnOf(p).sys);
    assert Given(p)[|Given(p)| - 1] == p.rootdir;
    assert p.rootdir in Given(p);
    assert all == ResFreeOf(p) + Elems(Given(p));
    hide Given, PlanOk, ReserveOf;
    forall b | b in Elems(Given(p)) ensures b in ReservedBlocks(p) { UsedBlock(p, b); }
    forall b | b in ReservedBlocks(p) ensures b in all {
      var q :| p.cluster <= q < |p.bits| && b == BitBlock(2, 2, q);
    }
  }

  ghost predicate PlanOk(p: Plan) {
    && BmStart(p) < p.total <= MAX_SMALL_DISK && p.numRes % 32 == 0 && |p.bits| == p.numRes && p.numRes > 0
    && DataBlocks(p) <= |p.bm| * BITS && |p.bm| <= |p.bmi| * IPB && |p.bmi| <= 5 && |p.bm| * BITS < p.total + BITS
    && NoDup(Given(p)) && (forall i :: 0 <= i < |Given(p)| ==> InUse(p, Given(p)[i])) && ClusterKept(p)
  }

  /** The root cluster lies in the reserved area, and none of it is free. */
  ghost predicate ClusterKept(p: Plan) {
    p.cluster <= p.numRes && forall q :: 0 <= q < |p.bits| && p.bits[q] ==> q >= p.cluster
  }

  /** The reserved bitmap ends within the root cluster. */
  ghost predicate RootFits(p: Plan) {
    |p.bits| % 32 == 0 && |ResWords(p)| + 131 <= 256 * p.cluster
  }

  /** What the formatter wrote. */
  ghost predicate Written(p: Plan, dev: Store) {
    && (forall k :: 0 <= k < |p.bm| ==> p.bm[k] in dev && dev[p.bm[k]] == BitmapBlk(BitmapWords(k, DataBlocks(p))))
    && (forall j :: 0 <= j < |p.bmi| ==> p.bmi[j] in dev && dev[p.bmi[j]] == IndexBlk(BmiEntries(p.bm, j)))
    && p.anidx in dev && dev[p.anidx] == IndexBlk([p.anode] + Zeros(252))
    && p.anode in dev && dev[p.anode] == AnodeBlk(RootSlots(p.rootdir))
    && p.rootdir in dev && dev[p.rootdir] == DirBlk([])
  }

  // ---------------------------------------------------------------- why it is a consistent volume

  lemma GeoIsOk(p: Plan)
    requires PlanOk(p)
    ensures GeoOk(GeoOf(p))
  {
    hide Given, InUse;
  }

  lemma UsedBlock(p: Plan, b: nat)
    requires PlanOk(p) && b in Given(p)
    ensures InUse(p, b) && b >= 2 && b !in ResFreeOf(p) && b < BmStart(p) && ResAligned(GeoOf(p), b, |ResWords(p)|)
  {
    hide InUse, ResFreeOf, Given;
    var i :| 0 <= i < |Given(p)| && Given(p)[i] == b;
    assert InUse(p, Given(p)[i]);
    hide NoDup;
    InUseBlock(p, b);
  }

  lemma InUseBlock(p: Plan, b: nat)
    requires InUse(p, b) && |p.bits| == p.numRes && p.numRes % 32 == 0
    ensures b >= 2 && b !in ResFreeOf(p) && b < BmStart(p) && ResAligned(GeoOf(p), b, |ResWords(p)|)
  {
    hide ResFreeOf, ResAligned, ResWords;
    var q :| p.cluster <= q < |p.bits| && !p.bits[q] && b == BitBlock(2, 2, q);
    hide InUse;
    FreeIndex(p, q);
    AlignedAt(p, q);
  }

  lemma AlignedAt(p: Plan, q: nat)
    requires q < |p.bits| && |p.bits| % 32 == 0
    ensures ResAligned(GeoOf(p), BitBlock(2, 2, q), |ResWords(p)|)
  {
    IndexIs(p, q);
    hide ResIndex, PackBits;
  }

  lemma IndexIs(p: Plan, q: nat)
    ensures ResIndex(GeoOf(p), BitBlock(2, 2, q)) == q
  {
  }

  lemma FreeBits(p: Plan, k: nat, q: nat)
    requires PlanOk(p) && k < |p.bm| && q < PerBlock(GeoOf(p))
    ensures q < 32 * |BitmapWords(k, DataBlocks(p))|
    ensures BitAt(BitmapWords(k, DataBlocks(p)), q) <==> Base(GeoOf(p), k) + q in FlatOf(p).free
  {
    hide Given, InUse, ResFreeOf;
    assert 32 * (q / 32) + q % 32 == q;
    assert PerBlock(GeoOf(p)) == BITS;
    assert BitAt(BitmapWords(k, DataBlocks(p)), q) <==> k * BITS + q < DataBlocks(p);
    RangeMember(BmStart(p), p.total, Base(GeoOf(p), k) + q);
  }

  lemma FreeTied(p: Plan)
    requires PlanOk(p)
    ensures FreeTie(GeoOf(p), BmOf(p), FlatOf(p).free) && p.total <= Base(GeoOf(p), |p.bm|) && Nonzero(BmOf(p))
  {
    hide BitAt, BitmapWords, InUse, ResFreeOf;
    var g, bm := GeoOf(p), BmOf(p);
    assert PerBlock(g) == BITS;
    forall k, q | 0 <= k < |bm| && 0 <= q < PerBlock(g) ensures BitAt(bm[k].words, q) <==>
      Base(g, k) + q in FlatOf(p).free {
      FreeBits(p, k, q);
    }
    forall k | 0 <= k < |bm| ensures bm[k].blk != 0 {
      assert p.bm[k] == Given(p)[1 + k];
      UsedBlock(p, p.bm[k]);
    }
    hide Given;
    forall x | x in FlatOf(p).free ensures g.bmStart <= x < Base(g, |bm|) { RangeMember(BmStart(p), p.total, x); }
  }

  lemma PackedBit(bits: seq<bool>, q: nat)
    requires |bits| % 32 == 0 && q < |bits|
    ensures q < 32 * |PackBits(bits)| && BitAt(PackBits(bits), q) == bits[q]
  {
    assert 32 * (q / 32) + q % 32 == q;
  }

  lemma ResBit(p: Plan, q: nat)
    requires |p.bits| % 32 == 0 && q < 32 * |ResWords(p)|
    ensures WordsOk(ResWords(p)) && (BitAt(ResWords(p), q) <==> q < |p.bits| && p.bits[q])
  {
    var ws := PackBits(p.bits);
    if q < |p.bits| {
      PackedBit(p.bits, q);
      assert ResWords(p)[q / 32] == ws[q / 32];
    } else {
      assert q / 32 == |ws|;
    }
  }

  lemma ResTied(p: Plan)
    requires PlanOk(p)
    ensures ResTie(GeoOf(p), ResWords(p), ResFreeOf(p))
  {
    assert |p.bits| % 32 == 0 && |p.bits| == p.numRes;
    hide PlanOk, BitAt, PackBits, BitBlock, ResFreeOf, ResAligned, ResWords;
    var g, ws := GeoOf(p), ResWords(p);
    forall q | 0 <= q < 32 * |ws| ensures BitAt(ws, q) <==> BitBlock(g.first, g.rescluster, q) in ResFreeOf(p) {
      ResBit(p, q);
      FreeIndex(p, q);
    }
    if |ws| > 0 { ResBit(p, 0); }
    forall b | b in ResFreeOf(p) ensures ResAligned(g, b, |ws|) { FreeAligned(p, b); }
  }

  lemma FreeAligned(p: Plan, b: nat)
    requires |p.bits| % 32 == 0 && |p.bits| == p.numRes && b in ResFreeOf(p)
    ensures ResAligned(GeoOf(p), b, |ResWords(p)|)
  {
    var q :| 0 <= q < |p.bits| && p.bits[q] && b == BitBlock(2, 2, q);
    IndexIs(p, q);
  }

  lemma FreeIndex(p: Plan, q: nat)
    ensures BitBlock(2, 2, q) in ResFreeOf(p) <==> q < |p.bits| && p.bits[q]
  {
  }

  lemma Places(p: Plan)
    ensures p.anidx in Given(p) && p.anode in Given(p) && p.rootdir in Given(p)
    ensures forall k :: 0 <= k < |p.bm| ==> p.bm[k] in Given(p)
    ensures forall j :: 0 <= j < |p.bmi| ==> p.bmi[j] in Given(p)
  {
    var n := |p.bm| + |p.bmi|;
    assert Given(p)[n + 1] == p.anidx && Given(p)[n + 2] == p.anode && Given(p)[n + 3] == p.rootdir;
    forall k | 0 <= k < |p.bm| ensures p.bm[k] in Given(p) { assert Given(p)[1 + k] == p.bm[k]; }
    forall j | 0 <= j < |p.bmi| ensures p.bmi[j] in Given(p) { assert Given(p)[1 + |p.bm| + j] == p.bmi[j]; }
  }

  lemma Separate(p: Plan)
    requires NoDup(Given(p))
    ensures p.anidx != p.anode && p.anidx != p.rootdir && p.anode != p.rootdir
    ensures forall k :: 0 <= k < |p.bm| ==> p.bm[k] !in {p.anidx, p.anode, p.rootdir}
    ensures forall j :: 0 <= j < |p.bmi| ==> p.bmi[j] !in {p.anidx, p.anode, p.rootdir}
    ensures forall j, k :: 0 <= j < |p.bmi| && 0 <= k < |p.bm| ==> p.bmi[j] != p.bm[k]
    ensures forall j, k :: 0 <= j < k < |p.bm| ==> p.bm[j] != p.bm[k]
    ensures forall j, k :: 0 <= j < k < |p.bmi| ==> p.bmi[j] != p.bmi[k]
  {
    var s, n, m := Given(p), |p.bm| + |p.bmi|, |p.bm|;
    assert s[n + 1] == p.anidx && s[n + 2] == p.anode && s[n + 3] == p.rootdir;
    forall k | 0 <= k < |p.bm| ensures p.bm[k] !in {p.anidx, p.anode, p.rootdir} { assert s[1 + k] == p.bm[k]; }
    forall j | 0 <= j < |p.bmi| ensures p.bmi[j] !in {p.anidx, p.anode, p.rootdir} { assert s[1 + m + j] == p.bmi[j]; }
    forall j, k | 0 <= j < |p.bmi| && 0 <= k < |p.bm|
      ensures p.bmi[j] != p.bm[k] { assert s[1 + m + j] == p.bmi[j] && s[1 + k] == p.bm[k]; }
    forall j, k | 0 <= j < k < |p.bm| ensures p.bm[j] != p.bm[k] { assert s[1 + j] == p.bm[j] && s[1 + k] == p.bm[k]; }
    forall j, k | 0 <= j < k < |p.bmi|
      ensures p.bmi[j] != p.bmi[k] { assert s[1 + m + j] == p.bmi[j] && s[1 + m + k] == p.bmi[k]; }
  }

  ghost function AbkOf(p: Plan): Link {
    map[0 := p.anode]
  }

  lemma ResolveFormatted(p: Plan, dev: Store, s: nat)
    requires Written(p, dev) && p.anidx != 0
    ensures Resolve(GeoOf(p), dev, s) == if s == 0 then p.anode else 0
  {
    hide RootSlots, BmiEntries, BitmapWords, Quot, Rem;
    assert Quot(s, IPB) == 0 <==> s < IPB by { SmallQuot(s, IPB); }
    if s < IPB { assert Rem(s, IPB) == s by { SmallQuot(s, IPB); } }
  }

  lemma SmallQuot(s: nat, n: nat)
    requires n > 0
    ensures Quot(s, n) == 0 <==> s < n
    ensures s < n ==> Rem(s, n) == s
  {
    DivMod(s, n);
    if s < n { DivModOf(0, n, s); }
    MulLe(1, s / n, n);
  }

  lemma TabTied(p: Plan, dev: Store)
    requires PlanOk(p) && Written(p, dev)
    ensures TabTie(GeoOf(p), dev, AbkOf(p), FlatOf(p).tab)
  {
    Places(p);
    UsedBlock(p, p.anidx);
    UsedBlock(p, p.anode);
    hide PlanOk, Given, InUse, ResFreeOf, BmiEntries, BitmapWords, ResWords, ResAligned;
    var g := GeoOf(p);
    assert IndexTie(g, dev, AbkOf(p)) by {
      forall s ensures Resolve(g, dev, s) == if s in AbkOf(p) then AbkOf(p)[s] else 0 { ResolveFormatted(p, dev, s); }
    }
    assert BlocksTie(g, dev, AbkOf(p));
    SlotsTied(p, dev);
  }

  lemma SlotsTied(p: Plan, dev: Store)
    requires Written(p, dev)
    ensures SlotsTie(GeoOf(p), dev, AbkOf(p), FlatOf(p).tab)
  {
    hide BmiEntries, BitmapWords;
    var g, tab := GeoOf(p), FlatOf(p).tab;
    assert SeqOf(g, ANODE_ROOTDIR) == 0 && OffOf(g, ANODE_ROOTDIR) == ANODE_ROOTDIR
      by { EncInverse(g, 0, ANODE_ROOTDIR); }
    forall s, o | s in AbkOf(p) && 0 <= o < g.apb
      ensures var nr := Enc(g, s, o);
              if Vacant(SlotAt(dev, AbkOf(p)[s], o)) then nr !in tab else nr in tab
                                                                          && tab[nr] == SlotAt(dev, AbkOf(p)[s], o)
    {
      assert Enc(g, s, o) == o;
      assert SlotAt(dev, p.anode, o) == if o == ANODE_ROOTDIR then Slot(1, p.rootdir, ANODE_EOF) else EMPTY_SLOT;
    }
  }

  lemma BmIndexTied(p: Plan, dev: Store)
    requires PlanOk(p) && Written(p, dev)
    ensures BmIndexTie(GeoOf(p), dev, OwnOf(p).sys, BmOf(p))
  {
    var g := GeoOf(p);
    Places(p);
    Separate(p);
    forall b | b in g.bmIndex && b != 0 ensures b in OwnOf(p).sys && b in dev && dev[b].IndexBlk?
    && b !in g.indexblocks {
      assert b in p.bmi;
    }
    EnoughBlocks(p);
    hide Given, InUse, ResFreeOf, BitmapWords, ResWords, RootSlots, BmBlocks;
    forall k | 0 <= k < BmBlocks(g) ensures BmResolve(g, dev, k) == if k < |BmOf(p)| then BmOf(p)[k].blk else 0 {
      ResolveBitmap(p, dev, k);
    }
  }

  lemma EnoughBlocks(p: Plan)
    requires PlanOk(p)
    ensures |p.bm| <= BmBlocks(GeoOf(p))
  {
    hide Given, InUse;
    var g := GeoOf(p);
    assert PerBlock(g) == BITS;
    DivMod(p.total + BITS - 1, BITS);
    MulLe(Quot(p.total + BITS - 1, BITS) + 1, |p.bm|, BITS);
  }

  lemma ResolveBitmap(p: Plan, dev: Store, k: nat)
    requires PlanOk(p) && Written(p, dev) && p.anidx != 0 && forall j :: 0 <= j < |p.bmi| ==> p.bmi[j] != 0
    ensures BmResolve(GeoOf(p), dev, k) == if k < |p.bm| then p.bm[k] else 0
  {
    hide Given, InUse, BitmapWords, RootSlots, Quot, Rem;
    var j, i := Quot(k, IPB), Rem(k, IPB);
    assert k == IPB * j + i by { QuotRem(k, IPB); }
    var top := Top(GeoOf(p).bmIndex, j);
    if j < |p.bmi| {
      assert top == p.bmi[j];
    } else {
      assert top == 0;
      assert k >= |p.bm|;
    }
  }

  lemma QuotRem(k: nat, n: nat)
    requires n > 0
    ensures k == n * Quot(k, n) + Rem(k, n)
  {
    DivMod(k, n);
  }

  lemma BmTied(p: Plan, dev: Store)
    requires PlanOk(p) && Written(p, dev)
    ensures BmTie(dev, BmOf(p)) && DirTie(dev, FlatOf(p).dirs)
  {
    Separate(p);
    hide Given, InUse, ResFreeOf, BitmapWords, BmiEntries, RootSlots;
  }

  lemma SysTied(p: Plan)
    requires PlanOk(p)
    ensures SysTie(GeoOf(p), AbkOf(p), OwnOf(p).sys, BmOf(p))
  {
    Separate(p);
    Places(p);
    hide Given, InUse, ResFreeOf, BitmapWords;
  }

  lemma Separated(p: Plan)
    requires PlanOk(p)
    ensures Sep(GeoOf(p), FlatOf(p), OwnOf(p).sys, |ResWords(p)|)
  {
    Places(p);
    hide InUse, ResFreeOf, Given, ResWords, ResAligned;
    forall b | b in Elems(Given(p)) ensures b !in ResFreeOf(p) { UsedBlock(p, b); }
    UsedBlock(p, p.rootdir);
    forall x | x in FlatOf(p).free ensures x < p.total { RangeMember(BmStart(p), p.total, x); }
  }

  /** The empty volume satisfies the ownership invariant, whatever the data sectors hold. */
  lemma EmptyInv(p: Plan, sect: Sectors)
    requires PlanOk(p) && SectorsOk(GeoOf(p), sect)
    ensures Inv(GeoOf(p), OwnOf(p), sect)
  {
    hide Chains, Nodes, Cover, Kinds, Entries, Heads, Parents, Names, Contents, Ranked, Area, SectorsOk, PlanOk,
         ResFreeOf, Given;
    EmptyArea(p);
    EmptyChains(GeoOf(p), p.rootdir);
    EmptyCover(GeoOf(p), p.rootdir);
    EmptyNames(GeoOf(p), p.rootdir, sect);
  }

  ghost function RootTab(b: nat): Tab {
    map[ANODE_ROOTDIR := Slot(1, b, ANODE_EOF)]
  }

  const ROOT_PATH: map<nat, seq<nat>> := map[ANODE_ROOTDIR := [ANODE_ROOTDIR]]
  const ROOT_NODE: Link := map[ANODE_ROOTDIR := ANODE_ROOTDIR]

  lemma EmptyChains(g: Geo, b: nat)
    ensures Chains(RootTab(b), ROOT_PATH)
    ensures Nodes(RootTab(b), ROOT_PATH, ROOT_NODE)
  {
    OneAnodePath(b);
    hide IsPath;
  }

  lemma OneAnodePath(b: nat)
    ensures IsPath(RootTab(b), ANODE_ROOTDIR, [ANODE_ROOTDIR])
  {
  }

  lemma EmptyCover(g: Geo, b: nat)
    ensures Cover(RootTab(b), map[b := ANODE_ROOTDIR])
    ensures Kinds(g, RootTab(b), map[b := []], ROOT_NODE, {ANODE_ROOTDIR})
  {
  }

  lemma EmptyNames(g: Geo, b: nat, sect: Sectors)
    ensures var tab: Tab, path := map[ANODE_ROOTDIR := Slot(1, b, ANODE_EOF)], map[ANODE_ROOTDIR := [ANODE_ROOTDIR]];
            && Entries(map[b := []], map[], map[]) && Heads(path, map[], {ANODE_ROOTDIR}, {})
            && Parents(map[ANODE_ROOTDIR := ANODE_ROOTDIR], map[b := ANODE_ROOTDIR], map[], map[], {ANODE_ROOTDIR})
            && Names(map[], map[], map[], map[]) && Contents(g, tab, path, map[], map[], sect)
            && Ranked(map[], map[], {ANODE_ROOTDIR}, map[ANODE_ROOTDIR := 0])
  {
  }

  lemma EmptyArea(p: Plan)
    requires PlanOk(p)
    ensures Area(GeoOf(p), FlatOf(p), map[p.rootdir := ANODE_ROOTDIR], OwnOf(p).sys)
  {
    Places(p);
    hide InUse, ResFreeOf, Given, ResWords, ResAligned;
    UsedBlock(p, p.rootdir);
    forall b | b in Elems(Given(p)) ensures b !in ResFreeOf(p) { UsedBlock(p, b); }
    forall x: nat ensures x in FlatOf(p).free <==> InData(GeoOf(p), x)
                                                   && x != p.rootdir { RangeMember(BmStart(p), p.total, x); }
    hide InReserved;
    forall b | b in ResFreeOf(p) ensures b < BmStart(p) && InReserved(GeoOf(p), b) { FreeBelow(p, b); }
    forall b | b in Elems(Given(p)) ensures b < BmStart(p) && InReserved(GeoOf(p), b) {
      UsedBlock(p, b);
      UsedBelow(p, b);
    }
  }

  lemma AtIndex(p: Plan, q: nat)
    requires p.cluster <= q < p.numRes
    ensures InReserved(GeoOf(p), BitBlock(2, 2, q)) && BitBlock(2, 2, q) < BmStart(p)
  {
    assert BitBlock(2, 2, q) == ReservedAt(GeoOf(p), q);
  }

  lemma FreeBelow(p: Plan, b: nat)
    requires b in ResFreeOf(p) && |p.bits| == p.numRes && ClusterKept(p)
    ensures b < BmStart(p) && InReserved(GeoOf(p), b)
  {
    hide BitBlock, InReserved;
    var q :| 0 <= q < |p.bits| && p.bits[q] && BitBlock(2, 2, q) == b;
    AtIndex(p, q);
  }

  lemma UsedBelow(p: Plan, b: nat)
    requires InUse(p, b) && |p.bits| == p.numRes
    ensures b < BmStart(p) && InReserved(GeoOf(p), b)
  {
    hide BitBlock, InReserved;
    var q :| p.cluster <= q < |p.bits| && !p.bits[q] && b == BitBlock(2, 2, q);
    AtIndex(p, q);
  }

  lemma {:induction false} RangeSize(a: nat, b: nat)
    requires a <= b
    ensures |Range(a, b)| == b - a
    decreases b
  {
    if a == b {
      EmptyRange(a);
    } else {
      RangeSize(a, b - 1);
      assert Range(a, b) == Range(a, b - 1) + {b - 1};
    }
  }

  /** The words of a root cluster of `kb` kilobytes behind the first `n`: nothing is set. */
  function RestWords(kb: nat, n: nat): (ws: seq<Word>)
    ensures AllClear(ws)
  {
    seq(if 256 * kb >= n + 131 then 256 * kb - n - 131 else 0, _ => NoBits())
  }

  /** The root cluster the formatter writes. */
  ghost function RootOf(p: Plan, free: nat): Root
    requires |p.bits| % 32 == 0
  {
    Root(1, free, if DataBlocks(p) >= 0 then DataBlocks(p) else 0, ResWords(p), RestWords(p.cluster, |ResWords(p)|))
  }

  lemma CommTied(p: Plan, dev: Store)
    requires TabTie(GeoOf(p), dev, AbkOf(p), FlatOf(p).tab) && DirTie(dev, FlatOf(p).dirs)
    ensures CommOk(GeoOf(p), dev, FlatOf(p), AbkOf(p), 1) && Extends(AbkOf(p), AbkOf(p), 1)
  {
    hide TabTie, DirTie;
  }

  /** Formatting establishes the writer's invariant: a volume with no names, every data block free
      and counted, the reserved counter equal to its bits. */
  lemma FormattedImage(p: Plan, dev: Store, sect: Sectors, free: nat)
    requires PlanOk(p) && Written(p, dev) && SectorsOk(GeoOf(p), sect) && free == |ResFreeOf(p)|
    ensures |p.bits| % 32 == 0 && Image(GeoOf(p), dev, RootOf(p, free), sect, BmOf(p), AbkOf(p), 1, OwnOf(p))
  {
    GeoIsOk(p);
    TabTied(p, dev);
    BmTied(p, dev);
    FreeTied(p);
    ResTied(p);
    SysTied(p);
    Separated(p);
    BmIndexTied(p, dev);
    CommTied(p, dev);
    EmptyInv(p, sect);
    RangeSize(BmStart(p), p.total);
    hide TabTie, DirTie, BmTie, FreeTie, ResTie, SysTie, Sep, BmIndexTie, CommOk, Extends, Inv, GeoOk, Base, Nonzero,
         Given, InUse, ResFreeOf, Written,
         ResWords, BmOf, AbkOf, SectorsOk, Range;
  }

  // ---------------------------------------------------------------- laying it down

  /** One bitmap block: a set bit for each data block there is. */
  method BuildBitmap(k: nat, data: nat) returns (ws: seq<Word>)
    ensures ws == BitmapWords(k, data)
  {
    ws := [];
    for j := 0 to IPB
      invariant |ws| == j && forall i :: 0 <= i < j ==> ws[i] == BitmapWords(k, data)[i]
    {
      var first := k * BITS + j * 32;
      var remaining := if first < data then (if data - first < 32 then data - first else 32) else 0;
      var w := seq(32, b requires 0 <= b < 32 => b < remaining);
      assert w == BitmapWords(k, data)[j];
      ws := ws + [w];
    }
  }

  /** Words of the allocator's bits. */
  method BuildReserved(bits: seq<bool>) returns (ws: seq<Word>)
    requires |bits| % 32 == 0
    ensures ws == PackBits(bits)
  {
    ws := [];
    for j := 0 to |bits| / 32
      invariant |ws| == j && forall i :: 0 <= i < j ==> ws[i] == PackBits(bits)[i]
    {
      ws := ws + [bits[32 * j..32 * j + 32]];
    }
  }

  /** The blocks the formatter fills, the extension of the root block aside. */
  ghost function Laid(p: Plan): set<nat> {
    Elems(p.bm) + Elems(p.bmi) + {p.anidx, p.anode, p.rootdir}
  }

  lemma ElemsNext(s: seq<nat>, i: nat)
    requires i < |s|
    ensures Elems(s[..i + 1]) == Elems(s[..i]) + {s[i]}
  {
    assert s[..i + 1] == s[..i] + [s[i]];
  }

  /** The bitmap index leads to these blocks. */
  ghost predicate IndexLaid(bm: seq<nat>, bmi: seq<nat>, dev: Store, n: nat)
    requires n <= |bmi|
  {
    forall i :: 0 <= i < n ==> bmi[i] in dev && dev[bmi[i]] == IndexBlk(BmiEntries(bm, i))
  }

  ghost predicate BitmapLaid(bm: seq<nat>, data: int, dev: Store, n: nat)
    requires n <= |bm|
  {
    forall i :: 0 <= i < n ==> bm[i] in dev && dev[bm[i]] == BitmapBlk(BitmapWords(i, data))
  }

  ghost predicate Distinct(s: seq<nat>) {
    forall j, k :: 0 <= j < k < |s| ==> s[j] != s[k]
  }

  method LayIndex(bm: seq<nat>, bmi: seq<nat>) returns (dev: Store)
    requires Distinct(bmi)
    ensures IndexLaid(bm, bmi, dev, |bmi|) && dev.Keys == Elems(bmi)
  {
    hide BmiEntries;
    dev := map[];
    for j := 0 to |bmi|
      invariant dev.Keys == Elems(bmi[..j]) && IndexLaid(bm, bmi, dev, j)
    {
      dev := dev[bmi[j] := IndexBlk(BmiEntries(bm, j))];
      ElemsNext(bmi, j);
    }
    assert bmi[..|bmi|] == bmi;
  }

  method LayBitmaps(bm: seq<nat>, bmi: seq<nat>, data: nat, index: Store) returns (dev: Store)
    requires Distinct(bm) && (forall j, k :: 0 <= j < |bmi| && 0 <= k < |bm| ==> bmi[j] != bm[k])
    requires IndexLaid(bm, bmi, index, |bmi|)
    ensures IndexLaid(bm, bmi, dev, |bmi|) && BitmapLaid(bm, data, dev, |bm|) && dev.Keys == index.Keys + Elems(bm)
  {
    hide BmiEntries, BitmapWords;
    dev := index;
    for k := 0 to |bm|
      invariant dev.Keys == index.Keys + Elems(bm[..k]) && IndexLaid(bm, bmi, dev, |bmi|)
                && BitmapLaid(bm, data, dev, k)
    {
      var ws := BuildBitmap(k, data);
      dev := dev[bm[k] := BitmapBlk(ws)];
      ElemsNext(bm, k);
    }
    assert bm[..|bm|] == bm;
  }

  /** Write bitmap index, bitmap, anode index, anode block and root directory, and nothing else. */
  method LayDown(p: Plan, data: nat) returns (dev: Store)
    requires NoDup(Given(p)) && data == DataBlocks(p)
    ensures Written(p, dev) && dev.Keys == Laid(p)
  {
    Separate(p);
    hide Given, NoDup, BitmapWords, BmiEntries, RootSlots, BmStart, Zeros, Elems;
    dev := LayIndex(p.bm, p.bmi);
    dev := LayBitmaps(p.bm, p.bmi, data, dev);
    dev := dev[p.anidx := IndexBlk([p.anode] + Zeros(252))];
    dev := dev[p.anode := AnodeBlk(RootSlots(p.rootdir))];
    dev := dev[p.rootdir := DirBlk([])];
  }

  lemma GivenOk(p: Plan, ids: seq<nat>)
    requires HandedOut(p.bits, ids, p.cluster) && Given(p) == BlocksAt(ids)
    ensures NoDup(Given(p)) && forall i :: 0 <= i < |Given(p)| ==> InUse(p, Given(p)[i])
    ensures AllGiven(p)
  {
    hide Given;
    forall q | p.cluster <= q < |p.bits| && !p.bits[q] ensures BitBlock(2, 2, q) in Given(p) {
      var i :| 0 <= i < |ids| && ids[i] == q;
      assert Given(p)[i] == BitBlock(2, 2, q);
    }
    forall i | 0 <= i < |Given(p)| ensures InUse(p, Given(p)[i]) { assert Given(p)[i] == BitBlock(2, 2, ids[i]); }
  }

  method CountFree(bits: seq<bool>) returns (n: nat)
    ensures n == |FreeIn(bits)| && n <= |bits|
  {
    n := 0;
    for i := 0 to |bits|
      invariant n == |FreeIn(bits[..i])| && n <= i
    {
      FreeInMore(bits, i);
      if bits[i] { n := n + 1; }
    }
    assert bits[..|bits|] == bits;
  }

  lemma FreeInMore(bits: seq<bool>, i: nat)
    requires i < |bits|
    ensures |FreeIn(bits[..i + 1])| == |FreeIn(bits[..i])| + if bits[i] then 1 else 0
  {
    assert FreeIn(bits[..i + 1]) == FreeIn(bits[..i]) + if bits[i] then {i} else {};
  }

  lemma {:induction false} SameCount(s: set<nat>)
    ensures |set q | q in s :: BitBlock(2, 2, q)| == |s|
  {
    if s != {} {
      var x :| x in s;
      SameCount(s - {x});
      assert (set q | q in s :: BitBlock(2, 2, q)) == (set q | q in s - {x} :: BitBlock(2, 2, q)) + {BitBlock(2, 2, x)};
    }
  }

  lemma FreeCounted(p: Plan)
    ensures |ResFreeOf(p)| == |FreeIn(p.bits)|
  {
    hide BitBlock;
    SameCount(FreeIn(p.bits));
    assert ResFreeOf(p) == set q | q in FreeIn(p.bits) :: BitBlock(2, 2, q);
  }

  /** Every sector of the disk is there, 512 bytes each. */
  ghost predicate Disk(sect: Sectors, total: nat) {
    forall x :: 0 <= x < total ==> x in sect && |sect[x]| == 512
  }

  function CeilTo(n: nat, k: nat): nat
    requires k > 0
  {
    Quot(n + k - 1, k)
  }

  lemma CeilIs(n: nat, k: nat)
    requires k > 0
    ensures n <= CeilTo(n, k) * k < n + k
  {
    DivMod(n + k - 1, k);
  }

  lemma FewIndexBlocks(total: nat, data: nat, nb: nat, ni: nat)
    requires data < total <= MAX_SMALL_DISK && nb * BITS < data + BITS && ni * IPB < nb + IPB
    ensures ni <= 5
  {
  }

  lemma KeptCluster(p: Plan, ids: seq<nat>)
    requires HandedOut(p.bits, ids, p.cluster) && p.cluster <= p.numRes
    ensures ClusterKept(p)
  {
  }

  lemma PlanIsOk(p: Plan, ids: seq<nat>)
    requires BmStart(p) < p.total <= MAX_SMALL_DISK && p.numRes % 32 == 0 && |p.bits| == p.numRes && p.numRes > 0
    requires p.cluster <= p.numRes
    requires |p.bm| == CeilTo(p.total - BmStart(p), BITS) && |p.bmi| == CeilTo(|p.bm|, IPB)
    requires HandedOut(p.bits, ids, p.cluster) && Given(p) == BlocksAt(ids)
    ensures PlanOk(p)
  {
    hide Given, HandedOut, BlocksAt, NoDup, InUse, CeilTo;
    GivenOk(p, ids);
    assert ClusterKept(p) by { KeptCluster(p, ids); }
    hide ClusterKept;
    CeilIs(p.total - BmStart(p), BITS);
    CeilIs(|p.bm|, IPB);
    FewIndexBlocks(p.total, p.total - BmStart(p), |p.bm|, |p.bmi|);
  }

  lemma GivenIs(p: Plan, i0: seq<nat>, i1: seq<nat>, i2: seq<nat>, i3: seq<nat>, first: seq<nat>, last: seq<nat>)
    requires |i0| == 1 && first == BlocksAt(i0) && p.rext == first[0] && p.bm == BlocksAt(i1) && p.bmi == BlocksAt(i2)
    requires |i3| == 3 && last == BlocksAt(i3) && p.anidx == last[0] && p.anode == last[1] && p.rootdir == last[2]
    ensures Given(p) == BlocksAt([] + i0 + i1 + i2 + i3)
  {
    hide BitBlock;
    assert [] + i0 + i1 + i2 + i3 == i0 + i1 + i2 + i3;
    assert BlocksAt(i0 + i1 + i2 + i3) == BlocksAt(i0) + BlocksAt(i1) + BlocksAt(i2) + BlocksAt(i3);
    assert first == [p.rext] && last == [p.anidx, p.anode, p.rootdir];
  }

  lemma DiskSectors(p: Plan, sect: Sectors)
    requires Disk(sect, p.total)
    ensures SectorsOk(GeoOf(p), sect)
  {
  }

  lemma AllFree(p: Plan, g: Geo, dev: Store, root: Root, sect: Sectors)
    requires PlanOk(p) && g == GeoOf(p) && Image(g, dev, root, sect, BmOf(p), AbkOf(p), 1, OwnOf(p))
    ensures root.blocksFree == p.total - g.bmStart
  {
    hide SnapOk, CommOk, Inv, GeoOk, Given, InUse;
    RangeSize(BmStart(p), p.total);
  }

  /** Decide where everything goes. */
  method Allocate(total: nat) returns (r: Result<Plan>)
    requires total <= MAX_SMALL_DISK
    ensures r.Ok? <==> total > 2 + 2 * NumReserved(total, 1024)
    ensures r.Ok? ==> PlanOk(r.value) && r.value.total == total && r.value.numRes == NumReserved(total, 1024)
                      && |FreeIn(r.value.bits)| >= 16
    ensures r.Ok? ==> AllGiven(r.value) && RootFits(r.value)
    ensures r.Err? ==> r.error == DiskFull
  {
    hide BitBlock, PlanOk, Given, HandedOut, BlocksAt, CeilTo, NumReserved, FreeIn, AllGiven;
    var numRes := CalcNumReserved(total, 1024);
    var kb := BitmapKilobytes(numRes);
    ReservedSuffices(total, kb);
    var alloc := new ReservedAllocator(numRes, kb);
    NoneHandedOut(alloc.bits, kb);
    var rext, i0 := alloc.AllocBlocks(1, [], kb);
    if rext.Err? { return Err(DiskFull); }
    var bmStart := 2 + 2 * numRes;
    if total <= bmStart { return Err(DiskFull); }
    var bm, i1 := alloc.AllocBlocks(CeilTo(total - bmStart, BITS), [] + i0, kb);
    if bm.Err? { return Err(DiskFull); }
    var bmi, i2 := alloc.AllocBlocks(CeilTo(|bm.value|, IPB), [] + i0 + i1, kb);
    if bmi.Err? { return Err(DiskFull); }
    var last, i3 := alloc.AllocBlocks(3, [] + i0 + i1 + i2, kb);
    if last.Err? { return Err(DiskFull); }
    var p := Plan(total, numRes, rext.value[0], bm.value, bmi.value, last.value[0], last.value[1], last.value[2],
                  alloc.bits,
                  numRes / 32 + 1 <= 125 + 256 * (kb - 1), kb);
    GivenIs(p, i0, i1, i2, i3, rext.value, last.value);
    PlanIsOk(p, [] + i0 + i1 + i2 + i3);
    GivenOk(p, [] + i0 + i1 + i2 + i3);
    return Ok(p);
  }

  lemma NoneHandedOut(bits: seq<bool>, cluster: nat)
    requires forall q :: 0 <= q < |bits| ==> (bits[q] <==> q >= cluster)
    ensures HandedOut(bits, [], cluster)
  {
  }

  lemma PlanDistinct(p: Plan)
    requires PlanOk(p)
    ensures NoDup(Given(p)) && |p.bits| % 32 == 0 && BmStart(p) < p.total
  {
    hide Given, NoDup, InUse;
  }

  /** What formatting produces: the geometry, the reserved blocks and the root cluster. */
  datatype Formatted = Formatted(g: Geo, dev: Store, root: Root)

  /** Format a small disk with 512-byte sectors. Success gives a consistent volume with nothing in it:
      every block behind the reserved area is free, and nothing else is. */
  method FormatDisk(total: nat, ghost sect: Sectors) returns (r: Result<Formatted>, p: Plan)
    requires total <= MAX_SMALL_DISK && Disk(sect, total)
    ensures r.Ok? <==> total > 2 + 2 * ReservedFor(total)
    ensures r.Ok? ==> PlanOk(p) && p.total == total && p.numRes == ReservedFor(total) && r.value.g == GeoOf(p)
                      && |ResFreeOf(p)| >= 16
    ensures r.Ok? ==> Written(p, r.value.dev) && r.value.dev.Keys == Laid(p)
    ensures r.Ok? ==> RootFits(p) && r.value.root == RootOf(p, |FreeIn(p.bits)|)
    ensures r.Ok? ==> ReserveOf(FlatOf(p), OwnOf(p).sys) == ReservedBlocks(p)
    ensures r.Ok? ==> Image(r.value.g, r.value.dev, r.value.root, sect, BmOf(p), AbkOf(p), 1, OwnOf(p))
    ensures r.Ok? ==> AllClear(r.value.root.rest)
    ensures r.Err? ==> r.error == DiskFull
  {
    hide Image, PlanOk, Written, Given, FreeIn, NoDup, NumReserved, ReservedFor, Laid;
    p := Plan(0, 0, 0, [], [], 0, 0, 0, [], false, 0);
    ReservedTable(total);
    var plan := Allocate(total);
    if plan.Err? { return Err(DiskFull), p; }
    p := plan.value;
    PlanDistinct(p);
    AllReserved(p);
    hide AllGiven, ReserveOf;
    var free := CountFree(plan.value.bits);
    FreeCounted(p);
    var data := total - BmStart(plan.value);
    var dev := LayDown(plan.value, data);
    var words := BuildReserved(plan.value.bits);
    var res := words + if plan.value.spare then [NoBits()] else [];
    DiskSectors(p, sect);
    FormattedImage(p, dev, sect, free);
    return Ok(Formatted(GeoOf(plan.value), dev, Root(1, free, data, res, RestWords(plan.value.cluster, |res|)))), p;
  }
}
