/** One device: root cluster, reserved blocks and data blocks as sectors of a single disk, in bytes. */
module OneDevice {
  import opened Types
  import opened Ownership
  import opened Transitions
  import opened SectorData
  import opened Table
  import opened Overlay
  import opened Records
  import opened Refine

  // ---------------------------------------------------------------- where things lie

  /** The sectors of a reserved block. */
  function Footprint(g: Geo, b: nat): seq<nat> {
    Expand(Slot(g.rescluster, b, ANODE_EOF))
  }

  /** The sectors of the root cluster. */
  function RootPrint(g: Geo): seq<nat> {
    Expand(Slot(g.cluster, g.first, ANODE_EOF))
  }

  lemma PrintMember(n: nat, b: nat, x: nat)
    ensures x in Expand(Slot(n, b, ANODE_EOF)) <==> b <= x < b + n
  {
    var e := Expand(Slot(n, b, ANODE_EOF));
    if b <= x < b + n { assert e[x - b] == x; }
  }

  lemma StepsApart(q: nat, r: nat, n: nat)
    requires q < r
    ensures q * n + n <= r * n
  {
    assert (q + 1) * n <= r * n;
  }

  /** Two reserved blocks, the root cluster and the data area have no sector in common. */
  lemma Apart(g: Geo, a: nat, b: nat, x: nat)
    requires GeoOk(g) && InReserved(g, a) && InReserved(g, b)
    ensures x in Footprint(g, a) && x in Footprint(g, b) ==> a == b
    ensures x in Footprint(g, a) ==> x !in RootPrint(g) && !InData(g, x)
    ensures x in RootPrint(g) ==> !InData(g, x)
  {
    hide ReservedAt, Expand, GeoOk;
    PrintMember(g.rescluster, a, x);
    PrintMember(g.rescluster, b, x);
    PrintMember(g.cluster, g.first, x);
    assert g.first + g.cluster <= g.bmStart by { ClusterBelow(g); }
    var q: nat :| a == ReservedAt(g, q);
    var r: nat :| b == ReservedAt(g, r);
    AtApart(g, q, r);
    AtApart(g, r, q);
  }

  lemma ClusterBelow(g: Geo)
    requires GeoOk(g)
    ensures g.first + g.cluster <= g.bmStart && g.rbs == g.rescluster * g.bs && g.bs > 0 && g.bmStart <= g.dataEnd
  {
  }

  lemma AtApart(g: Geo, q: nat, r: nat)
    ensures q < r ==> ReservedAt(g, q) + g.rescluster <= ReservedAt(g, r)
    ensures q == r ==> ReservedAt(g, q) == ReservedAt(g, r)
  {
    if q < r { StepsApart(q, r, g.rescluster); }
  }

  // ---------------------------------------------------------------- what the disk holds

  /** Every sector of the disk is there. */
  ghost predicate DiskOk(g: Geo, disk: Sectors) {
    forall x :: 0 <= x < g.dataEnd ==> x in disk && |disk[x]| == g.bs
  }

  function BlockBytes(g: Geo, disk: Sectors, b: nat): Bytes {
    Concat(disk, Footprint(g, b))
  }

  function RootBytes(g: Geo, disk: Sectors): Bytes {
    Concat(disk, RootPrint(g))
  }

  /** The bytes of these reserved blocks hold what the store says. */
  ghost predicate Shows(g: Geo, disk: Sectors, dev: Store, blocks: set<nat>) {
    forall b :: b in blocks ==> b in dev && Represents(BlockBytes(g, disk, b), dev[b])
  }

  /** The disk holds the store in its reserved blocks, `root` in its root cluster and `sect` in its data area. */
  ghost predicate OneDisk(g: Geo, disk: Sectors, dev: Store, root: Bytes, sect: Sectors, blocks: set<nat>) {
    && DiskOk(g, disk) && RootBytes(g, disk) == root && Shows(g, disk, dev, blocks)
    && forall x :: InData(g, x) ==> x in sect && disk[x] == sect[x]
  }

  /** All reserved blocks in use that the store holds. */
  ghost function InUseBlocks(o: Own, dev: Store): set<nat> {
    (o.sys + o.f.dirs.Keys) * dev.Keys
  }

  /** A disk that holds more blocks of the store holds these. */
  lemma HoldsFewer(g: Geo, disk: Sectors, dev: Store, root: Bytes, sect: Sectors, blocks: set<nat>, fewer: set<nat>)
    requires OneDisk(g, disk, dev, root, sect, blocks) && fewer <= blocks
    ensures OneDisk(g, disk, dev, root, sect, fewer)
  {
    hide Represents, BlockBytes;
  }

  /** `disk'` differs from `disk` at most in the sectors `xs`. */
  ghost predicate Differs(g: Geo, disk: Sectors, disk': Sectors, xs: seq<nat>) {
    forall x :: 0 <= x < g.dataEnd && x !in xs ==> x in disk && x in disk' && disk'[x] == disk[x]
  }

  /** Sectors elsewhere do not matter to a reserved block. */
  lemma BlockKept(g: Geo, disk: Sectors, disk': Sectors, xs: seq<nat>, b: nat)
    requires Differs(g, disk, disk', xs) && b + g.rescluster <= g.dataEnd
             && forall x :: x in xs ==> x !in Footprint(g, b)
    ensures BlockBytes(g, disk', b) == BlockBytes(g, disk, b)
  {
    var bl := Footprint(g, b);
    forall i | 0 <= i < |bl| ensures bl[i] in disk && bl[i] in disk' && disk[bl[i]] == disk'[bl[i]] {
      assert bl[i] in bl;
      PrintMember(g.rescluster, b, bl[i]);
    }
    ConcatFrame(disk, disk', bl);
  }

  lemma RootKept(g: Geo, disk: Sectors, disk': Sectors, xs: seq<nat>)
    requires Differs(g, disk, disk', xs) && g.first + g.cluster <= g.dataEnd
             && forall x :: x in xs ==> x !in RootPrint(g)
    ensures RootBytes(g, disk') == RootBytes(g, disk)
  {
    var bl := RootPrint(g);
    forall i | 0 <= i < |bl| ensures bl[i] in disk && bl[i] in disk' && disk[bl[i]] == disk'[bl[i]] {
      assert bl[i] in bl;
      PrintMember(g.cluster, g.first, bl[i]);
    }
    ConcatFrame(disk, disk', bl);
  }

  ghost predicate AllReserved(g: Geo, blocks: set<nat>) {
    forall b :: b in blocks ==> InReserved(g, b)
  }

  // ---------------------------------------------------------------- writes

  /** Data sectors written: root cluster and every reserved block, in use or free, keep their bytes. */
  lemma DataWritten(g: Geo, disk: Sectors, disk': Sectors, xs: seq<nat>, b: nat)
    requires GeoOk(g) && Differs(g, disk, disk', xs) && (forall x :: x in xs ==> InData(g, x)) && InReserved(g, b)
    ensures BlockBytes(g, disk', b) == BlockBytes(g, disk, b) && RootBytes(g, disk') == RootBytes(g, disk)
  {
    hide Differs, Footprint, RootPrint, GeoOk;
    ClusterBelow(g);
    assert b + g.rescluster <= g.bmStart;
    hide InReserved;
    forall x | x in xs ensures x !in Footprint(g, b) && x !in RootPrint(g) { Apart(g, b, b, x); }
    BlockKept(g, disk, disk', xs, b);
    RootKept(g, disk, disk', xs);
  }

  lemma RootAlone(g: Geo, disk: Sectors, disk': Sectors, xs: seq<nat>)
    requires GeoOk(g) && Differs(g, disk, disk', xs) && forall x :: x in xs ==> InData(g, x)
    ensures RootBytes(g, disk') == RootBytes(g, disk)
  {
    hide Differs, GeoOk;
    ClusterBelow(g);
    forall x | x in xs ensures x !in RootPrint(g) { PrintMember(g.cluster, g.first, x); }
    RootKept(g, disk, disk', xs);
  }

  lemma {:induction false} WriteDiffers(g: Geo, disk: Sectors, bl: seq<nat>, data: Bytes, off: nat, k: nat)
    requires DiskOk(g, disk) && k <= |bl|
    ensures var disk' := WriteSome(g.bs, disk, bl, data, off, k); Differs(g, disk, disk', bl) && DiskOk(g, disk')
  {
    hide Pad;
    if k > 0 {
      WriteDiffers(g, disk, bl, data, off, k - 1);
      PadLength(data, off + (k - 1) * g.bs, g.bs);
      assert bl[k - 1] in bl;
    }
  }

  lemma PadLength(data: Bytes, off: nat, n: nat)
    ensures |Pad(data, off, n)| == n
  {
  }

  /** Stopping after any prefix of the data writes of an operation, all to blocks that are free in the
      committed state: on the one disk the root cluster and every reserved block, in use or free, have the
      bytes they had, so the store read from them is the committed one, and every name reads as
      committed. */
  lemma CrashSafe(g: Geo, o: Own, disk: Sectors, dev: Store, bl: seq<nat>, data: Bytes, off: nat, k: nat)
    requires GeoOk(g) && Inv(g, o, disk) && k <= |bl| && Elems(bl) <= o.f.free
    requires OneDisk(g, disk, dev, RootBytes(g, disk), disk, InUseBlocks(o, dev))
    ensures var disk' := WriteSome(g.bs, disk, bl, data, off, k);
            && Inv(g, o, disk') && OneDisk(g, disk', dev, RootBytes(g, disk), disk', InUseBlocks(o, dev))
            && forall b :: InReserved(g, b) ==> BlockBytes(g, disk', b) == BlockBytes(g, disk, b)
  {
    hide Inv, GeoOk, WriteSome, Represents, BlockBytes, RootBytes, InReserved, Elems;
    var disk' := WriteSome(g.bs, disk, bl, data, off, k);
    SectorData.CrashSafe(g, o, disk, bl, data, off, k);
    WriteDiffers(g, disk, bl, data, off, k);
    FreeIsData(g, o, disk, bl);
    BlocksPlaced(g, o, disk);
    forall b | InReserved(g, b) ensures BlockBytes(g, disk', b) == BlockBytes(g, disk, b) {
      DataWritten(g, disk, disk', bl, b);
    }
    RootAlone(g, disk, disk', bl);
    DataThere(g, disk');
  }

  /** The same for a volume whose file sectors are kept apart. */
  lemma CrashSafeApart(g: Geo, o: Own, sect: Sectors, disk: Sectors, dev: Store, bl: seq<nat>, data: Bytes, off: nat,
                       k: nat)
    requires GeoOk(g) && Inv(g, o, sect) && k <= |bl| && Elems(bl) <= o.f.free
    requires OneDisk(g, disk, dev, RootBytes(g, disk), sect, InUseBlocks(o, dev))
    ensures var disk' := WriteSome(g.bs, disk, bl, data, off, k);
            Inv(g, o, disk') && OneDisk(g, disk', dev, RootBytes(g, disk), disk', InUseBlocks(o, dev))
  {
    hide Chains, Nodes, Cover, Area, Kinds, Entries, Heads, Parents, Names, SectorsOk, Contents, Ranked, GeoOk,
         WriteSome,
         BlockBytes, RootBytes, InReserved, Shows;
    assert ChangedIn(g, sect, disk, {}) && SectorsOk(g, disk) by { SameData(g, sect, disk); }
    WriteFreeKeeps(g, o, sect, disk, {});
    hide Inv;
    CrashSafe(g, o, disk, dev, bl, data, off, k);
  }

  lemma SameData(g: Geo, sect: Sectors, disk: Sectors)
    requires DiskOk(g, disk) && forall x :: InData(g, x) ==> x in sect && disk[x] == sect[x]
    ensures ChangedIn(g, sect, disk, {}) && SectorsOk(g, disk)
  {
  }

  lemma DataThere(g: Geo, disk: Sectors)
    requires DiskOk(g, disk)
    ensures forall x :: InData(g, x) ==> x in disk
  {
  }

  lemma FreeIsData(g: Geo, o: Own, sect: Sectors, bl: seq<nat>)
    requires Inv(g, o, sect) && Elems(bl) <= o.f.free
    ensures forall x :: x in bl ==> InData(g, x)
  {
    hide Chains, Nodes, Cover, Kinds, Entries, Heads, Parents, Names, SectorsOk, Contents, Ranked;
    forall x | x in bl ensures InData(g, x) { assert x in Elems(bl); }
  }

  lemma BlocksPlaced(g: Geo, o: Own, sect: Sectors)
    requires Inv(g, o, sect)
    ensures AllReserved(g, o.sys + o.f.dirs.Keys + o.f.resFree)
  {
    hide Chains, Nodes, Cover, Kinds, Entries, Heads, Parents, Names, SectorsOk, Contents, Ranked, InReserved;
  }

  /** Writing one reserved block changes that block alone: all others, the root cluster and the data area
      keep their bytes. */
  lemma BlockWritten(g: Geo, disk: Sectors, dev: Store, root: Bytes, sect: Sectors, blocks: set<nat>, b: nat,
                     bytes: Bytes,
                     blk: Block)
    requires GeoOk(g) && OneDisk(g, disk, dev, root, sect, blocks) && AllReserved(g, blocks) && InReserved(g, b)
    requires |bytes| == g.rbs && Represents(bytes, blk)
    ensures var disk' := WriteSome(g.bs, disk, Footprint(g, b), bytes, 0, g.rescluster);
            OneDisk(g, disk', dev[b := blk], root, sect, blocks + {b})
  {
    hide Represents, WriteSome, GeoOk, InReserved, BlockBytes, RootBytes;
    ClusterBelow(g);
    HoldsFewer(g, disk, dev, root, sect, blocks, blocks - {b});
    OtherWritten(g, disk, dev, root, sect, blocks - {b}, b, bytes);
    HoldsWritten(g, disk, b, bytes);
    hide DiskOk;
  }

  lemma HoldsWritten(g: Geo, disk: Sectors, b: nat, bytes: Bytes)
    requires |bytes| == g.rescluster * g.bs
    ensures BlockBytes(g, WriteSome(g.bs, disk, Footprint(g, b), bytes, 0, g.rescluster), b) == bytes
  {
    ReservedReadsBack(disk, b, bytes, g.rescluster, g.bs, 0);
  }

  /** Neither does a block whose contents are not shown. */
  lemma OtherWritten(g: Geo, disk: Sectors, dev: Store, root: Bytes, sect: Sectors, blocks: set<nat>, b: nat,
                     bytes: Bytes)
    requires GeoOk(g) && OneDisk(g, disk, dev, root, sect, blocks) && AllReserved(g, blocks) && InReserved(g, b)
    requires |bytes| == g.rbs && b !in blocks
    ensures OneDisk(g, WriteSome(g.bs, disk, Footprint(g, b), bytes, 0, g.rescluster), dev, root, sect, blocks)
  {
    hide Represents, WriteSome, GeoOk, InReserved;
    ClusterBelow(g);
    var bl := Footprint(g, b);
    var disk' := WriteSome(g.bs, disk, bl, bytes, 0, g.rescluster);
    WriteDiffers(g, disk, bl, bytes, 0, g.rescluster);
    hide Footprint, RootPrint, DiskOk;
    Within(g, b);
    forall c | c in blocks ensures c in dev && Represents(BlockBytes(g, disk', c), dev[c]) {
      forall x | x in bl ensures x !in Footprint(g, c) { Apart(g, b, c, x); }
      Within(g, c);
      BlockKept(g, disk, disk', bl, c);
    }
    forall x | x in bl ensures x !in RootPrint(g) && !InData(g, x) { Apart(g, b, b, x); }
    RootKept(g, disk, disk', bl);
    DataKept(g, disk, disk', bl, sect);
  }

  lemma Within(g: Geo, b: nat)
    requires InReserved(g, b) && GeoOk(g)
    ensures b + g.rescluster <= g.dataEnd
  {
  }

  lemma DataKept(g: Geo, disk: Sectors, disk': Sectors, xs: seq<nat>, sect: Sectors)
    requires Differs(g, disk, disk', xs) && (forall x :: x in xs ==> !InData(g, x))
             && forall x :: InData(g, x) ==> x in disk && x in sect && disk[x] == sect[x]
    ensures forall x :: InData(g, x) ==> x in disk' && x in sect && disk'[x] == sect[x]
  {
  }

  // ---------------------------------------------------------------- a commit

  /** Bytes for each staged block. */
  ghost predicate Encodes(g: Geo, p: Staged<Block>, bytes: seq<Bytes>) {
    && |bytes| == |p|
    && forall i :: 0 <= i < |p| ==> InReserved(g, p[i].0) && |bytes[i]| == g.rbs && Represents(bytes[i], p[i].1)
  }

  ghost function Keys(p: Staged<Block>): set<nat> {
    set i | 0 <= i < |p| :: p[i].0
  }

  /** The disk once the first `k` staged blocks are written, sector by sector. */
  ghost function Flushed(g: Geo, disk: Sectors, p: Staged<Block>, bytes: seq<Bytes>, k: nat): Sectors
    requires k <= |p| == |bytes|
  {
    if k == 0 then disk
    else WriteSome(g.bs, Flushed(g, disk, p, bytes, k - 1), Footprint(g, p[k - 1].0), bytes[k - 1], 0, g.rescluster)
  }

  /** Flushing the staged blocks on the one disk: its reserved blocks come to hold the combined view, and
      neither the root cluster nor any data block changes on the way. */
  lemma {:induction false} FlushedShows(g: Geo, disk: Sectors, dev: Store, root: Bytes, sect: Sectors, blocks: set<nat>,
                                        p: Staged<Block>, bytes: seq<Bytes>, k: nat)
    requires GeoOk(g) && OneDisk(g, disk, dev, root, sect, blocks) && AllReserved(g, blocks) && Encodes(g, p, bytes)
    requires k <= |p|
    ensures OneDisk(g, Flushed(g, disk, p, bytes, k), View(dev, p[..k]), root, sect, blocks + Keys(p[..k]))
    ensures AllReserved(g, blocks + Keys(p[..k]))
    decreases k
  {
    hide OneDisk, Represents, GeoOk, InReserved;
    if k == 0 {
      assert blocks + Keys(p[..0]) == blocks;
    } else {
      FlushedShows(g, disk, dev, root, sect, blocks, p, bytes, k - 1);
      BlockWritten(g, Flushed(g, disk, p, bytes, k - 1), View(dev, p[..k - 1]), root, sect, blocks + Keys(p[..k - 1]),
                   p[k - 1].0, bytes[k - 1], p[k - 1].1);
      assert p[..k][..k - 1] == p[..k - 1];
      KeysNext(p, k);
      assert blocks + Keys(p[..k - 1]) + {p[k - 1].0} == blocks + Keys(p[..k]);
    }
  }

  lemma KeysNext(p: Staged<Block>, k: nat)
    requires 0 < k <= |p|
    ensures Keys(p[..k]) == Keys(p[..k - 1]) + {p[k - 1].0}
  {
    var a, b := p[..k], p[..k - 1];
    forall x | x in Keys(a) ensures x in Keys(b) + {p[k - 1].0} {
      var i :| 0 <= i < |a| && a[i].0 == x;
      if i < k - 1 { assert b[i].0 == x; }
    }
    forall x | x in Keys(b) ensures x in Keys(a) {
      var i :| 0 <= i < |b| && b[i].0 == x;
      assert a[i].0 == x;
    }
    assert a[k - 1].0 == p[k - 1].0;
  }

  /** Writing the root cluster changes no reserved block and no data block. */
  lemma RootWritten(g: Geo, disk: Sectors, dev: Store, root: Bytes, sect: Sectors, blocks: set<nat>, bytes: Bytes)
    requires GeoOk(g) && OneDisk(g, disk, dev, root, sect, blocks) && AllReserved(g, blocks)
    requires |bytes| == g.cluster * g.bs
    ensures OneDisk(g, WriteSome(g.bs, disk, RootPrint(g), bytes, 0, g.cluster), dev, bytes, sect, blocks)
  {
    hide Represents, WriteSome, GeoOk, InReserved;
    ClusterBelow(g);
    var bl := RootPrint(g);
    var disk' := WriteSome(g.bs, disk, bl, bytes, 0, g.cluster);
    WriteDiffers(g, disk, bl, bytes, 0, g.cluster);
    ReservedReadsBack(disk, g.first, bytes, g.cluster, g.bs, 0);
    hide Footprint, DiskOk;
    forall c | c in blocks ensures c in dev && Represents(BlockBytes(g, disk', c), dev[c]) {
      forall x | x in bl ensures x !in Footprint(g, c) { Apart(g, c, c, x); }
      Within(g, c);
      BlockKept(g, disk, disk', bl, c);
    }
    forall x | x in bl ensures !InData(g, x) { PrintMember(g.cluster, g.first, x); }
    DataKept(g, disk, disk', bl, sect);
  }
}
