/** The formatted disk in bytes: what is written to its sectors shows the volume that was laid down. */
module DiskBytes {
  import opened Types
  import opened Codec
  import opened Bitmap
  import opened Ownership
  import opened Transitions
  import opened Runs
  import opened Table
  import opened Steps
  import opened SectorData
  import opened Records
  import opened Refine
  import opened ByteBits
  import opened WordBits
  import opened OneDevice
  import Overlay
  import DirBlocks
  import Format

  const AT_DATESTAMP: nat := 0x08
  const AT_RESERVED_FREE: nat := 0x3C
  const AT_BLOCKS_FREE: nat := 0x44

  // ---------------------------------------------------------------- the root cluster

  ghost predicate CountersAre(d: Bytes, ds: nat, reservedFree: nat, blocksFree: nat) {
    && |d| >= 0x48 && Get32(d, AT_DATESTAMP) == ds && Get32(d, AT_RESERVED_FREE) == reservedFree
    && Get32(d, AT_BLOCKS_FREE) == blocksFree
  }

  /** Where the reserved bitmap starts: behind the root block and a header. */
  function BitmapAt(bs: nat): nat {
    bs + 12
  }

  /** The bytes of a root cluster hold counters, datestamp, reserved bitmap and the words behind it. */
  ghost predicate RootShown(d: Bytes, bs: nat, root: Root) {
    && bs >= 0x48 && CountersAre(d, root.datestamp, root.reservedFree, root.blocksFree)
    && WordsAt(d, BitmapAt(bs), root.res) && WordsAt(d, BitmapAt(bs) + 4 * |root.res|, root.rest)
  }

  lemma WordsKept(d: Bytes, at: nat, v: nat, base: nat, ws: seq<Word>)
    requires WordsAt(d, base, ws) && at + 4 <= |d| && (at + 4 <= base || base + 4 * |ws| <= at)
    ensures WordsAt(Put(d, at, Be32(v)), base, ws)
  {
    hide Get32, Put, Be32, Value;
    forall i | 0 <= i < |ws| ensures Get32(Put(d, at, Be32(v)), base + 4 * i) == Value(ws[i]) {
      Put32Get(d, at, v, base + 4 * i);
    }
  }

  lemma CountersPut(d: Bytes, ds: nat, reservedFree: nat, blocksFree: nat)
    requires |d| >= 0x48 && ds < U32 && reservedFree < U32 && blocksFree < U32
    ensures var d1 := Put(d, AT_DATESTAMP, Be32(ds));
            var d2 := Put(d1, AT_RESERVED_FREE, Be32(reservedFree));
            CountersAre(Put(d2, AT_BLOCKS_FREE, Be32(blocksFree)), ds, reservedFree, blocksFree)
  {
    hide Get32, Put, Be32;
    var d1 := Put(d, AT_DATESTAMP, Be32(ds));
    var d2 := Put(d1, AT_RESERVED_FREE, Be32(reservedFree));
    Put32Get(d, AT_DATESTAMP, ds, AT_DATESTAMP);
    Put32Get(d1, AT_RESERVED_FREE, reservedFree, AT_DATESTAMP);
    Put32Get(d1, AT_RESERVED_FREE, reservedFree, AT_RESERVED_FREE);
    Put32Get(d2, AT_BLOCKS_FREE, blocksFree, AT_DATESTAMP);
    Put32Get(d2, AT_BLOCKS_FREE, blocksFree, AT_RESERVED_FREE);
    Put32Get(d2, AT_BLOCKS_FREE, blocksFree, AT_BLOCKS_FREE);
  }

  lemma CountersKept(d: Bytes, at: nat, v: nat, ds: nat, reservedFree: nat, blocksFree: nat)
    requires CountersAre(d, ds, reservedFree, blocksFree) && 0x48 <= at && at + 4 <= |d|
    ensures CountersAre(Put(d, at, Be32(v)), ds, reservedFree, blocksFree)
  {
    hide Get32, Put, Be32;
    Put32Get(d, at, v, AT_DATESTAMP);
    Put32Get(d, at, v, AT_RESERVED_FREE);
    Put32Get(d, at, v, AT_BLOCKS_FREE);
  }

  lemma WordPut(d: Bytes, base: nat, ws: seq<Word>, i: nat, w: Word)
    requires WordsAt(d, base, ws) && i < |ws| && |w| == 32
    ensures base + 4 * i + 4 <= |d| && WordsAt(Put(d, base + 4 * i, Be32(Value(w))), base, ws[i := w])
  {
    hide Get32, Put, Be32, Value;
    WordBound(w);
    forall j | 0 <= j < |ws|
      ensures Get32(Put(d, base + 4 * i, Be32(Value(w))), base + 4 * j) == Value(ws[i := w][j]) {
      Put32Get(d, base + 4 * i, Value(w), base + 4 * j);
    }
  }

  /** A commit's last step in bytes: datestamp, counters and reserved bitmap are rewritten in the root
      cluster as it was read, and everything behind the bitmap stays. */
  method UpdateRoot(d: Bytes, bs: nat, ds: nat, reservedFree: nat, blocksFree: nat, res: seq<Word>, ghost root: Root)
      returns (r: Bytes)
    requires RootShown(d, bs, root) && |res| == |root.res| && WordsOk(res)
    requires ds < U32 && reservedFree < U32 && blocksFree < U32
    ensures |r| == |d| && RootShown(r, bs, Root(ds, reservedFree, blocksFree, res, root.rest))
    ensures BitsAt(r, BitmapAt(bs), res)
  {
    assert |d| >= 0x48;
    hide Get32, Put, Be32, Value, WordsAt, CountersAre;
    var d1 := Put(d, AT_DATESTAMP, Be32(ds));
    var d2 := Put(d1, AT_RESERVED_FREE, Be32(reservedFree));
    r := Put(d2, AT_BLOCKS_FREE, Be32(blocksFree));
    CountersPut(d, ds, reservedFree, blocksFree);
    BehindCounters(d, BitmapAt(bs), root.res, ds, reservedFree, blocksFree);
    BehindCounters(d, BitmapAt(bs) + 4 * |res|, root.rest, ds, reservedFree, blocksFree);
    r := PutBitmap(r, bs, res, Root(ds, reservedFree, blocksFree, root.res, root.rest));
    WordsBits(r, BitmapAt(bs), res);
  }

  /** One word of the reserved bitmap. */
  lemma BitmapPut(d: Bytes, bs: nat, root: Root, i: nat, w: Word)
    requires RootShown(d, bs, root) && i < |root.res| && |w| == 32
    ensures BitmapAt(bs) + 4 * i + 4 <= |d|
    ensures RootShown(Put(d, BitmapAt(bs) + 4 * i, Be32(Value(w))), bs, root.(res := root.res[i := w]))
  {
    hide Get32, Put, Be32, Value, WordsAt, CountersAre;
    var at := BitmapAt(bs) + 4 * i;
    WordPut(d, BitmapAt(bs), root.res, i, w);
    WordsKept(d, at, Value(w), BitmapAt(bs) + 4 * |root.res|, root.rest);
    CountersKept(d, at, Value(w), root.datestamp, root.reservedFree, root.blocksFree);
  }

  method PutBitmap(d: Bytes, bs: nat, res: seq<Word>, ghost root: Root) returns (r: Bytes)
    requires RootShown(d, bs, root) && |res| == |root.res| && WordsOk(res)
    ensures |r| == |d| && RootShown(r, bs, root.(res := res))
  {
    hide Put, Be32, Value, RootShown;
    r := d;
    ghost var now := root.res;
    for i := 0 to |res|
      invariant |r| == |d| && |now| == |res| && RootShown(r, bs, root.(res := now))
      invariant forall j :: 0 <= j < i ==> now[j] == res[j]
    {
      BitmapPut(r, bs, root.(res := now), i, res[i]);
      r := Put(r, BitmapAt(bs) + 4 * i, Be32(Value(res[i])));
      now := now[i := res[i]];
    }
    assert now == res;
  }

  lemma BehindCounters(d: Bytes, base: nat, ws: seq<Word>, ds: nat, reservedFree: nat, blocksFree: nat)
    requires WordsAt(d, base, ws) && 0x48 <= base && 0x48 <= |d|
    ensures var d1 := Put(d, AT_DATESTAMP, Be32(ds));
            var d2 := Put(d1, AT_RESERVED_FREE, Be32(reservedFree));
            WordsAt(Put(d2, AT_BLOCKS_FREE, Be32(blocksFree)), base, ws)
  {
    hide Get32, Put, Be32, Value, WordsAt;
    var d1 := Put(d, AT_DATESTAMP, Be32(ds));
    var d2 := Put(d1, AT_RESERVED_FREE, Be32(reservedFree));
    WordsKept(d, AT_DATESTAMP, ds, base, ws);
    WordsKept(d1, AT_RESERVED_FREE, reservedFree, base, ws);
    WordsKept(d2, AT_BLOCKS_FREE, blocksFree, base, ws);
  }

  ghost function NoWords(n: nat): (ws: seq<Word>)
    ensures |ws| == n && forall i :: 0 <= i < n ==> ws[i] == Format.NoBits()
  {
    seq(n, _ => Format.NoBits())
  }

  lemma {:induction false} ValueClear(w: Word)
    requires forall i :: 0 <= i < |w| ==> !w[i]
    ensures Value(w) == 0
  {
    if |w| > 0 { ValueClear(w[..|w| - 1]); }
  }

  /** Zeros hold words without a bit. */
  lemma ZeroWords(d: Bytes, base: nat, ws: seq<Word>)
    requires (forall i :: base <= i < |d| ==> d[i] == 0) && base + 4 * |ws| <= |d|
    requires forall i :: 0 <= i < |ws| ==> ws[i] == Format.NoBits()
    ensures WordsAt(d, base, ws)
  {
    ValueClear(Format.NoBits());
  }

  /** The root cluster the formatter writes: `block` holds the fields of the root block that are not
      modelled, and behind it come a header and the reserved bitmap. */
  method RootCluster(block: Bytes, kb: nat, ds: nat, reservedFree: nat, blocksFree: nat, res: seq<Word>)
      returns (r: Bytes)
    requires |block| == 512 && WordsOk(res) && |res| + 131 <= 256 * kb
    requires ds < U32 && reservedFree < U32 && blocksFree < U32
    ensures |r| == 1024 * kb
    ensures RootShown(r, 512, Root(ds, reservedFree, blocksFree, res, Format.RestWords(kb, |res|)))
    ensures BitsAt(r, 524, res)
  {
    hide Get32, Be16, Value, WordsAt;
    var d := block + Be16(BITMAP_ID) + DirBlocks.Zeros(1024 * kb - 514);
    ghost var rest := Format.RestWords(kb, |res|);
    assert forall i :: 514 <= i < |d| ==> d[i] == 0;
    ZeroWords(d, BitmapAt(512), NoWords(|res|));
    ZeroWords(d, BitmapAt(512) + 4 * |res|, rest);
    ghost var root := Root(Get32(d, AT_DATESTAMP), Get32(d, AT_RESERVED_FREE), Get32(d, AT_BLOCKS_FREE),
                           NoWords(|res|), rest);
    r := UpdateRoot(d, 512, ds, reservedFree, blocksFree, res, root);
  }

  // ---------------------------------------------------------------- single blocks

  /** Identifier, datestamp and sequence number. */
  function BlockHeader(id: nat, seqnr: nat): (r: Bytes)
    ensures |r| == INDEX_HEADER
  {
    Be16(id) + [0, 0] + Be32(1) + Be32(seqnr)
  }

  lemma HeaderId(id: nat, seqnr: nat, n: nat)
    requires id < U16
    ensures Get16(BlockHeader(id, seqnr) + DirBlocks.Zeros(n), 0) == id
  {
    hide Be32;
    Put16Get([0, 0], 0, id, 0);
    var b := Put([0, 0], 0, Be16(id));
    assert b == Be16(id);
  }

  predicate Fits32s(es: seq<nat>) {
    forall i :: 0 <= i < |es| ==> es[i] < U32
  }

  lemma LinkNext(d: Bytes, es: seq<nat>, i: nat)
    requires i < |es| && es[i] < U32 && LinksAre(d, es[..i]) && EntryBase(i) + 4 <= |d|
    ensures LinksAre(Put(d, EntryBase(i), Be32(es[i])), es[..i + 1])
    ensures Get16(Put(d, EntryBase(i), Be32(es[i])), 0) == Get16(d, 0)
  {
    hide Get32, Get16, Put, Be32;
    PutKeepsId(d, EntryBase(i), Be32(es[i]));
    var d' := Put(d, EntryBase(i), Be32(es[i]));
    forall j | 0 <= j < i + 1 ensures Get32(d', EntryBase(j)) == es[j] {
      Put32Get(d, EntryBase(i), es[i], EntryBase(j));
      if j < i { assert es[..i][j] == es[j]; }
    }
  }

  /** A new index block with these entries. */
  method IndexBytes(rbs: nat, id: nat, seqnr: nat, es: seq<nat>) returns (r: Bytes)
    requires Fits32s(es) && EntryBase(|es|) <= rbs && id in {INDEX_ID, BITMAP_INDEX_ID}
    ensures |r| == rbs && Represents(r, IndexBlk(es)) && Get16(r, 0) == id
  {
    hide Get32, Get16, Put, Be32, BlockHeader, LinksAre;
    HeaderId(id, seqnr, rbs - INDEX_HEADER);
    r := BlockHeader(id, seqnr) + DirBlocks.Zeros(rbs - INDEX_HEADER);
    assert LinksAre(r, es[..0]) by { NoLinks(r); }
    for i := 0 to |es|
      invariant |r| == rbs && LinksAre(r, es[..i]) && Get16(r, 0) == id
    {
      LinkNext(r, es, i);
      r := Put(r, EntryBase(i), Be32(es[i]));
    }
    assert es[..|es|] == es;
  }

  lemma NoLinks(d: Bytes)
    ensures LinksAre(d, [])
  {
  }

  /** A new bitmap block with these words. */
  method BitmapBytes(rbs: nat, seqnr: nat, ws: seq<Word>) returns (r: Bytes)
    requires WordsOk(ws) && EntryBase(|ws|) <= rbs
    ensures |r| == rbs && Represents(r, BitmapBlk(ws)) && BitsAt(r, INDEX_HEADER, ws)
  {
    hide BlockHeader, WordsAre, Get16;
    HeaderId(BITMAP_ID, seqnr, rbs - INDEX_HEADER);
    r := PutAllWords(BlockHeader(BITMAP_ID, seqnr) + DirBlocks.Zeros(rbs - INDEX_HEADER), ws, 1);
  }

  /** The first anode block: the root directory alone. */
  method RootAnodes(rootdir: nat) returns (r: Bytes)
    requires rootdir < U32
    ensures |r| == 1024 && Represents(r, AnodeBlk(Format.RootSlots(rootdir)))
  {
    hide Represents;
    var d := Refine.FreshAnodes(1024, Format.APB, 1, 0);
    ghost var blk := AnodeBlk(seq(Format.APB, _ => EMPTY_SLOT));
    var q := EditBytes(d, PutAnode(ANODE_ROOTDIR, Slot(1, rootdir, ANODE_EOF)), 1, blk);
    r := q.value;
  }

  // ---------------------------------------------------------------- the whole disk

  /** Write one reserved block of the store. */
  method WriteBlock(g: Geo, disk: Sectors, b: nat, bytes: Bytes, ghost dev: Store, ghost root: Bytes,
                    ghost sect: Sectors, ghost blocks: set<nat>)
      returns (r: Sectors)
    requires GeoOk(g) && OneDisk(g, disk, dev, root, sect, blocks) && AllReserved(g, blocks) && InReserved(g, b)
    requires b in dev && |bytes| == g.rbs && Represents(bytes, dev[b])
    ensures OneDisk(g, r, dev, root, sect, blocks + {b}) && AllReserved(g, blocks + {b})
  {
    hide OneDisk, Represents, GeoOk, InReserved, WriteSome;
    r := WriteReservedBlocks(disk, b, bytes, g.rescluster, g.bs);
    BlockWritten(g, disk, dev, root, sect, blocks, b, bytes, dev[b]);
    assert dev[b := dev[b]] == dev;
  }

  lemma GivenPlaced(p: Format.Plan, b: nat)
    requires Format.PlanOk(p) && b in Format.Given(p)
    ensures InReserved(Format.GeoOf(p), b) && b < U32
  {
    hide Format.InUse, Format.Given, Format.ResFreeOf, NoDup, InReserved;
    Format.UsedBlock(p, b);
    Format.UsedBelow(p, b);
  }

  lemma Placed(p: Format.Plan)
    requires Format.PlanOk(p)
    ensures InReserved(Format.GeoOf(p), p.rext) && AllReserved(Format.GeoOf(p), Format.Laid(p))
    ensures p.anode < U32 && p.rootdir < U32 && Fits32s(p.bm)
  {
    hide Format.PlanOk, InReserved, Format.GeoOf;
    Format.Places(p);
    assert p.rext in Format.Given(p) by { assert Format.Given(p)[0] == p.rext; }
    hide Format.Given;
    GivenPlaced(p, p.rext);
    forall b | b in Format.Given(p) ensures InReserved(Format.GeoOf(p), b) && b < U32 { GivenPlaced(p, b); }
  }

  /** Bitmap index blocks. */
  method WriteIndex(p: Format.Plan, disk: Sectors, ghost dev: Store, ghost root: Bytes, ghost sect: Sectors)
      returns (r: Sectors)
    requires Format.Written(p, dev) && GeoOk(Format.GeoOf(p)) && Fits32s(p.bm)
             && AllReserved(Format.GeoOf(p), Format.Laid(p))
    requires OneDisk(Format.GeoOf(p), disk, dev, root, sect, {})
    ensures OneDisk(Format.GeoOf(p), r, dev, root, sect, Elems(p.bmi))
  {
    hide OneDisk, GeoOk, InReserved, Represents, Format.Zeros, Format.BmStart;
    r := disk;
    assert Elems(p.bmi[..0]) == {};
    for j := 0 to |p.bmi|
      invariant OneDisk(Format.GeoOf(p), r, dev, root, sect, Elems(p.bmi[..j]))
    {
      assert p.bmi[j] in Elems(p.bmi);
      Format.ElemsNext(p.bmi, j);
      var d := IndexBytes(1024, BITMAP_INDEX_ID, j, Format.BmiEntries(p.bm, j));
      r := WriteBlock(Format.GeoOf(p), r, p.bmi[j], d, dev, root, sect, Elems(p.bmi[..j]));
    }
    assert p.bmi[..|p.bmi|] == p.bmi;
  }

  /** Bitmap blocks: every data block is free. */
  method WriteBitmaps(p: Format.Plan, disk: Sectors, ghost dev: Store, ghost root: Bytes, ghost sect: Sectors)
      returns (r: Sectors)
    requires Format.Written(p, dev) && GeoOk(Format.GeoOf(p)) && Format.BmStart(p) <= p.total
             && AllReserved(Format.GeoOf(p), Format.Laid(p))
    requires OneDisk(Format.GeoOf(p), disk, dev, root, sect, Elems(p.bmi))
    ensures OneDisk(Format.GeoOf(p), r, dev, root, sect, Elems(p.bmi) + Elems(p.bm))
  {
    hide OneDisk, GeoOk, InReserved, Represents, Format.Zeros, Format.BmiEntries, Format.BitmapWords;
    r := disk;
    assert Elems(p.bmi) + Elems(p.bm[..0]) == Elems(p.bmi);
    for k := 0 to |p.bm|
      invariant OneDisk(Format.GeoOf(p), r, dev, root, sect, Elems(p.bmi) + Elems(p.bm[..k]))
    {
      assert p.bm[k] in Elems(p.bm);
      Format.ElemsNext(p.bm, k);
      var ws := Format.BuildBitmap(k, p.total - Format.BmStart(p));
      var d := BitmapBytes(1024, k, ws);
      ghost var done := Elems(p.bmi) + Elems(p.bm[..k]);
      r := WriteBlock(Format.GeoOf(p), r, p.bm[k], d, dev, root, sect, done);
      assert done + {p.bm[k]} == Elems(p.bmi) + Elems(p.bm[..k + 1]);
    }
    assert p.bm[..|p.bm|] == p.bm;
  }

  /** Anode index, the anode block and the root directory. */
  method WriteRootDir(p: Format.Plan, disk: Sectors, ghost dev: Store, ghost root: Bytes, ghost sect: Sectors)
      returns (r: Sectors)
    requires Format.Written(p, dev) && GeoOk(Format.GeoOf(p)) && p.anode < U32 && p.rootdir < U32
             && AllReserved(Format.GeoOf(p), Format.Laid(p))
    requires OneDisk(Format.GeoOf(p), disk, dev, root, sect, Elems(p.bmi) + Elems(p.bm))
    ensures OneDisk(Format.GeoOf(p), r, dev, root, sect, Format.Laid(p))
  {
    hide OneDisk, GeoOk, InReserved, Represents, Format.BmiEntries, Format.BitmapWords, Elems, Format.RootSlots,
         Format.BmStart;
    ghost var done := Elems(p.bmi) + Elems(p.bm);
    var d := IndexBytes(1024, INDEX_ID, 0, [p.anode] + Format.Zeros(252));
    r := WriteBlock(Format.GeoOf(p), disk, p.anidx, d, dev, root, sect, done);
    d := RootAnodes(p.rootdir);
    r := WriteBlock(Format.GeoOf(p), r, p.anode, d, dev, root, sect, done + {p.anidx});
    d := FreshDir(1024, 1, ANODE_ROOTDIR, ANODE_ROOTDIR);
    r := WriteBlock(Format.GeoOf(p), r, p.rootdir, d, dev, root, sect, done + {p.anidx} + {p.anode});
    assert done + {p.anidx} + {p.anode} + {p.rootdir} == Format.Laid(p);
  }

  /** Root cluster and its extension, `block` and `ext` holding their fields that are not modelled. */
  method WriteRoot(p: Format.Plan, block: Bytes, ext: Bytes, sect: Sectors, ghost dev: Store)
      returns (r: Sectors, ghost root: Bytes)
    requires Format.PlanOk(p) && Format.RootFits(p) && Format.Disk(sect, p.total) && |block| == 512 && |ext| == 1024
    ensures OneDisk(Format.GeoOf(p), r, dev, root, sect, {})
    ensures RootShown(root, 512, Format.RootOf(p, |Format.FreeIn(p.bits)|)) && BitsAt(root, 524, Format.ResWords(p))
  {
    hide Format.PlanOk, GeoOk, InReserved, WriteSome, RootShown, Format.FreeIn;
    assert WordsOk(Format.ResWords(p));
    hide Format.ResWords;
    Format.GeoIsOk(p);
    Placed(p);
    var g := Format.GeoOf(p);
    var free := Format.CountFree(p.bits);
    SmallNumbers(p);
    var d := RootCluster(block, p.cluster, 1, free, p.total - Format.BmStart(p), Format.ResWords(p));
    root := d;
    assert OneDisk(g, sect, dev, RootBytes(g, sect), sect, {});
    hide OneDisk;
    r := WriteReservedBlocks(sect, g.first, d, g.cluster, g.bs);
    RootWritten(g, sect, dev, RootBytes(g, sect), sect, {}, d);
    ghost var before := r;
    r := WriteReservedBlocks(r, p.rext, ext, g.rescluster, g.bs);
    OtherWritten(g, before, dev, d, sect, {}, p.rext, ext);
  }

  /** Bit `q % 8` of byte `q / 8` behind the header says whether reserved block `q` is free. */
  ghost predicate ReservedBits(d: Bytes, bits: seq<bool>) {
    forall q :: 0 <= q < |bits| ==> 524 + q / 8 < |d| && (BitSet(d[524 + q / 8], q % 8) <==> bits[q])
  }

  lemma PackedBits(p: Format.Plan, d: Bytes)
    requires |p.bits| % 32 == 0 && BitsAt(d, 524, Format.ResWords(p))
    ensures ReservedBits(d, p.bits)
  {
    hide BitSet, BitsAt;
    var ws := Format.ResWords(p);
    forall q | 0 <= q < |p.bits| ensures 524 + q / 8 < |d| && (BitSet(d[524 + q / 8], q % 8) <==> p.bits[q]) {
      assert ws[q / 32] == Format.PackBits(p.bits)[q / 32];
      assert ws[q / 32][q % 32] == p.bits[q];
      OneBit(d, 524, ws, q / 32, q % 32);
    }
  }

  lemma SmallNumbers(p: Format.Plan)
    requires Format.PlanOk(p)
    ensures Format.BmStart(p) <= p.total < U32 && |p.bits| < U32
  {
    hide Format.InUse, Format.Given, NoDup;
  }

  /** Format a disk, sector by sector. Its reserved blocks then hold what was laid down, its root cluster
      the counters and the reserved bitmap, and no data block has changed. */
  method FormatBytes(p: Format.Plan, block: Bytes, ext: Bytes, sect: Sectors, ghost dev: Store) returns (disk: Sectors)
    requires Format.PlanOk(p) && Format.RootFits(p) && Format.Written(p, dev) && Format.Disk(sect, p.total)
    requires |block| == 512 && |ext| == 1024
    ensures OneDisk(Format.GeoOf(p), disk, dev, RootBytes(Format.GeoOf(p), disk), sect, Format.Laid(p))
    ensures RootShown(RootBytes(Format.GeoOf(p), disk), 512, Format.RootOf(p, |Format.FreeIn(p.bits)|))
            && ReservedBits(RootBytes(Format.GeoOf(p), disk), p.bits)
  {
    hide GeoOk, InReserved, Format.PlanOk, Format.Written, Format.Laid, RootShown, Format.FreeIn, Format.Disk,
         Format.ResWords, BitsAt, ReservedBits;
    Format.GeoIsOk(p);
    Placed(p);
    SmallNumbers(p);
    ghost var root;
    disk, root := WriteRoot(p, block, ext, sect, dev);
    disk := WriteIndex(p, disk, dev, root, sect);
    disk := WriteBitmaps(p, disk, dev, root, sect);
    disk := WriteRootDir(p, disk, dev, root, sect);
    PackedBits(p, root);
  }

  // ---------------------------------------------------------------- a commit

  /** A commit on the one disk: the staged blocks are written one after the other, then the root cluster is
      read, updated and written back. The disk then holds the combined view, the new counters and the new
      reserved bitmap; the words behind the bitmap and all data blocks are as they were. */
  method CommitBytes(g: Geo, disk: Sectors, p: Overlay.Staged<Block>, bytes: seq<Bytes>, ds: nat, reservedFree: nat,
                     blocksFree: nat, res: seq<Word>, ghost dev: Store, ghost root: Root, ghost sect: Sectors)
      returns (r: Sectors)
    requires GeoOk(g) && OneDisk(g, disk, dev, RootBytes(g, disk), sect, dev.Keys) && AllReserved(g, dev.Keys)
    requires RootShown(RootBytes(g, disk), g.bs, root)
    requires Encodes(g, p, bytes) && |res| == |root.res| && WordsOk(res)
    requires ds < U32 && reservedFree < U32 && blocksFree < U32
    ensures OneDisk(g, r, Overlay.View(dev, p), RootBytes(g, r), sect, Overlay.View(dev, p).Keys)
            && AllReserved(g, Overlay.View(dev, p).Keys)
    ensures RootShown(RootBytes(g, r), g.bs, Root(ds, reservedFree, blocksFree, res, root.rest))
            && BitsAt(RootBytes(g, r), g.bs + 12, res)
  {
    hide GeoOk, WriteSome, RootShown, Encodes, Shows, DiskOk, Footprint;
    r := disk;
    assert |bytes| == |p| by { EachEncoded(g, p, bytes); }
    ClusterSize(g, disk);
    for i := 0 to |p|
      invariant r == Flushed(g, disk, p, bytes, i)
    {
      r := WriteFootprint(g, r, p[i].0, bytes[i]);
    }
    FlushedShows(g, disk, dev, RootBytes(g, disk), sect, dev.Keys, p, bytes, |p|);
    assert p[..|p|] == p;
    KeysView(dev, p);
    ghost var flushed := r;
    var d := UpdateRoot(RootBytes(g, r), g.bs, ds, reservedFree, blocksFree, res, root);
    r := WriteReservedBlocks(r, g.first, d, g.cluster, g.bs);
    RootWritten(g, flushed, Overlay.View(dev, p), RootBytes(g, disk), sect, dev.Keys + Keys(p), d);
  }

  lemma {:induction false} KeysView(dev: Store, p: Overlay.Staged<Block>)
    ensures Overlay.View(dev, p).Keys == dev.Keys + Keys(p)
  {
    if |p| > 0 {
      var n := |p| - 1;
      KeysView(dev, p[..n]);
      KeysNext(p, |p|);
      assert p[..|p|] == p;
    }
  }

  lemma ClusterSize(g: Geo, disk: Sectors)
    requires GeoOk(g) && DiskOk(g, disk)
    ensures |RootBytes(g, disk)| == g.cluster * g.bs
  {
    hide GeoOk;
    ClusterBelow(g);
    var bl := RootPrint(g);
    forall i | 0 <= i < |bl| ensures bl[i] in disk && |disk[bl[i]]| == g.bs {
      assert bl[i] in bl;
      PrintMember(g.cluster, g.first, bl[i]);
    }
    ConcatLength(g.bs, disk, bl);
  }

  lemma EachEncoded(g: Geo, p: Overlay.Staged<Block>, bytes: seq<Bytes>)
    requires Encodes(g, p, bytes)
    ensures |bytes| == |p|
  {
  }

  method WriteFootprint(g: Geo, disk: Sectors, b: nat, bytes: Bytes) returns (r: Sectors)
    ensures r == WriteSome(g.bs, disk, Footprint(g, b), bytes, 0, g.rescluster)
  {
    r := WriteReservedBlocks(disk, b, bytes, g.rescluster, g.bs);
  }
}
