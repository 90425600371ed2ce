/** Readers of the disk in bytes: what they find is what the store says. */
module ByteReader {
  import opened Types
  import opened Codec
  import opened Bitmap
  import opened Anodes
  import opened Ownership
  import opened Table
  import opened Layout
  import opened Steps
  import opened Compose
  import opened DirBlocks
  import opened Directory
  import opened Records
  import opened Refine
  import opened OneDevice
  import opened Descent
  import Certify

  // ---------------------------------------------------------------- reading

  /** Entry `off` of an index block, 0 past its end. */
  function IndexAt(d: Bytes, off: nat): nat {
    if EntryBase(off) + 4 <= |d| then Get32(d, EntryBase(off)) else 0
  }

  /** The block of anode sequence number `s`, 0 when there is none. */
  function FindBlock(g: Geo, disk: Sectors, s: nat): nat
    requires g.ipb > 0
  {
    var top := Top(g.indexblocks, Quot(s, g.ipb));
    if top == 0 then 0 else IndexAt(BlockBytes(g, disk, top), Rem(s, g.ipb))
  }

  /** An anode by its number. Blocks that do not carry the identifier of anode blocks are refused. */
  function ByteAnode(g: Geo, disk: Sectors, nr: nat): Option<Slot>
    requires g.ipb > 0 && g.stride > 0
  {
    var b := FindBlock(g, disk, SeqOf(g, nr));
    if b == 0 then None
    else
      var d := BlockBytes(g, disk, b);
      if |d| < ANODE_HEADER || Get16(d, 0) != ANODE_ID || SlotBase(OffOf(g, nr)) + ANODE_BYTES > |d| then None
      else Some(GetSlot(d, OffOf(g, nr)))
  }

  /** The entries of a block; none unless it carries the identifier of directory blocks. */
  function BlockEntries(d: Bytes): seq<Entry> {
    if |d| < DIR_HEADER + 1 || Get16(d, 0) != DIR_ID then [] else ParseFrom(d, DIR_HEADER)
  }

  function EntriesIn(g: Geo, disk: Sectors, bl: seq<nat>): seq<Entry> {
    if |bl| == 0 then []
    else EntriesIn(g, disk, bl[..|bl| - 1]) + BlockEntries(BlockBytes(g, disk, bl[|bl| - 1]))
  }

  function DiskReader(g: Geo, disk: Sectors): nat -> Option<Slot>
    requires g.ipb > 0 && g.stride > 0
  {
    (n: nat) => ByteAnode(g, disk, n)
  }

  /** What the scan of a disk reads. */
  function DiskVol(g: Geo, disk: Sectors): Vol
    requires g.ipb > 0 && g.stride > 0
  {
    var t := DiskReader(g, disk);
    Vol(t, (d: nat) => match Certify.Follow(t, d, MAX_CHAIN_LEN)
                       case None => None
                       case Some(c) => Some(EntriesIn(g, disk, BlockList(c))),
        g.bs)
  }

  lemma {:induction false} FollowGives(t: nat -> Option<Slot>, nr: nat, left: nat, c: seq<Anode>)
    requires IsRun(t, nr, Nrs(c)) && |c| <= left
    requires forall i :: 0 <= i < |c| ==> t(c[i].nr) == Some(c[i].slot)
    ensures Certify.Follow(t, nr, left) == Some(c)
    decreases left
  {
    if |c| > 0 {
      assert Nrs(c)[1..] == Nrs(c[1..]);
      FollowGives(t, t(nr).value.next, left - 1, c[1..]);
      assert c == [c[0]] + c[1..];
    }
  }

  /** List a directory, block by block. */
  method ListEntries(g: Geo, disk: Sectors, dir: nat) returns (r: Option<seq<Entry>>)
    requires g.ipb > 0 && g.stride > 0
    ensures r == DiskVol(g, disk).list(dir)
  {
    hide BlockBytes, IsRun, Certify.Follow, BlockList, DiskReader, ParseFrom;
    var t := DiskReader(g, disk);
    var c := GetChain(t, dir);
    Certify.FollowIff(t, dir, MAX_CHAIN_LEN, []);
    if c.Err? { return None; }
    ShortRun(t, dir, c.value);
    FollowGives(t, dir, MAX_CHAIN_LEN, c.value);
    var bl := BlockList(c.value);
    var es := [];
    for i := 0 to |bl|
      invariant es == EntriesIn(g, disk, bl[..i])
    {
      assert bl[..i + 1][..i] == bl[..i];
      var d := BlockBytes(g, disk, bl[i]);
      if |d| >= DIR_HEADER + 1 && Get16(d, 0) == DIR_ID {
        var more := ParseBlock(d);
        es := es + more;
      }
    }
    assert bl[..|bl|] == bl;
    return Some(es);
  }

  lemma ShortRun(t: nat -> Option<Slot>, nr: nat, c: seq<Anode>)
    requires IsRun(t, nr, Nrs(c)) && exists p :: IsRun(t, nr, p) && |p| <= MAX_CHAIN_LEN
    ensures |c| <= MAX_CHAIN_LEN
  {
    hide IsRun;
    var p :| IsRun(t, nr, p) && |p| <= MAX_CHAIN_LEN;
    RunUnique(t, nr, p, Nrs(c));
  }

  // ---------------------------------------------------------------- what the bytes show

  /** Slots fill an anode block, but for less than one more. */
  predicate SlotsFill(g: Geo) {
    SlotBase(g.apb) <= g.rbs < SlotBase(g.apb + 1)
  }

  lemma BlockLength(g: Geo, disk: Sectors, b: nat)
    requires GeoOk(g) && DiskOk(g, disk) && InReserved(g, b)
    ensures |BlockBytes(g, disk, b)| == g.rbs
  {
    OneDevice.Within(g, b);
    hide InReserved;
    var bl := Footprint(g, b);
    forall i | 0 <= i < |bl| ensures bl[i] in disk && |disk[bl[i]]| == g.bs {
      assert bl[i] in bl;
      PrintMember(g.rescluster, b, bl[i]);
    }
    ConcatLength(g.bs, disk, bl);
  }

  /** The disk shows every block of the store. */
  ghost predicate AllOnDisk(g: Geo, disk: Sectors, dev: Store) {
    DiskOk(g, disk) && OneDevice.Shows(g, disk, dev, dev.Keys) && AllReserved(g, dev.Keys)
  }

  lemma Shown(g: Geo, disk: Sectors, dev: Store, b: nat)
    requires AllOnDisk(g, disk, dev) && b in dev && GeoOk(g)
    ensures Represents(BlockBytes(g, disk, b), dev[b]) && |BlockBytes(g, disk, b)| == g.rbs
  {
    hide Represents, BlockBytes, DiskOk, InReserved, GeoOk;
    BlockLength(g, disk, b);
  }

  lemma IndexShown(g: Geo, disk: Sectors, dev: Store, b: nat, off: nat)
    requires AllOnDisk(g, disk, dev) && GeoOk(g) && IsIndex(dev, b, g.ipb) && off < g.ipb
    ensures IndexAt(BlockBytes(g, disk, b), off) == IndexEntry(dev, b, off)
  {
    Shown(g, disk, dev, b);
    hide AllOnDisk, GeoOk, Get32, BlockBytes;
    assert LinksAre(BlockBytes(g, disk, b), dev[b].entries);
  }

  /** Sequence numbers lead to the same blocks. */
  lemma BlockShown(g: Geo, disk: Sectors, dev: Store, abk: Link, s: nat)
    requires AllOnDisk(g, disk, dev) && GeoOk(g) && IndexTie(g, dev, abk)
    ensures FindBlock(g, disk, s) == Resolve(g, dev, s) == if s in abk then abk[s] else 0
  {
    hide AllOnDisk, GeoOk, IndexAt, Quot, Rem;
    DivMod(s, g.ipb);
    var top := Top(g.indexblocks, Quot(s, g.ipb));
    if top != 0 {
      assert IsIndex(dev, top, g.ipb);
      IndexShown(g, disk, dev, top, Rem(s, g.ipb));
    }
    assert Resolve(g, dev, s) == if s in abk then abk[s] else 0;
  }

  lemma SlotShown(d: Bytes, slots: seq<Slot>, o: nat)
    requires Represents(d, AnodeBlk(slots)) && SlotBase(|slots|) <= |d| < SlotBase(|slots| + 1)
    ensures |d| >= ANODE_HEADER && Get16(d, 0) == ANODE_ID
    ensures SlotBase(o) + ANODE_BYTES <= |d| <==> o < |slots|
    ensures o < |slots| ==> GetSlot(d, o) == slots[o]
  {
    hide GetSlot, Get16;
    assert SlotsAre(d, slots);
  }

  /** Every anode number reads as the store says. */
  lemma AnodeShown(g: Geo, disk: Sectors, dev: Store, abk: Link, nr: nat)
    requires AllOnDisk(g, disk, dev) && GeoOk(g) && g.stride > 0 && IndexTie(g, dev, abk) && BlocksTie(g, dev, abk)
             && SlotsFill(g)
    ensures ByteAnode(g, disk, nr) == ReadAnode(g, dev, nr)
  {
    var s := SeqOf(g, nr);
    BlockShown(g, disk, dev, abk, s);
    hide IndexTie, FindBlock, Resolve, Represents, AllOnDisk, GeoOk, OffOf, SeqOf, BlockBytes, GetSlot, Get16;
    if s in abk && abk[s] != 0 {
      Shown(g, disk, dev, abk[s]);
      SlotShown(BlockBytes(g, disk, abk[s]), dev[abk[s]].slots, OffOf(g, nr));
    }
  }

  /** A directory block reads as its entries. */
  lemma EntriesShown(d: Bytes, es: seq<Entry>)
    requires Represents(d, DirBlk(es)) && |d| > DIR_HEADER
    ensures BlockEntries(d) == es
  {
    hide Packed, EntriesOf, ParseFrom, Get16;
    var raws, rest :| RecordsAre(d, raws, rest, es);
    ParsePacked(d, raws, rest);
  }

  lemma {:induction false} ListingShown(g: Geo, disk: Sectors, dev: Store, dirs: Dirs, bl: seq<nat>)
    requires AllOnDisk(g, disk, dev) && GeoOk(g) && DirTie(dev, dirs) && AllIn(bl, dirs)
    ensures EntriesIn(g, disk, bl) == Listing(dirs, bl)
  {
    if |bl| > 0 {
      var n := |bl| - 1;
      ListingShown(g, disk, dev, dirs, bl[..n]);
      assert bl[n] in dirs;
      assert g.rbs >= 1024;
      hide AllOnDisk, GeoOk, BlockEntries, BlockBytes, Represents;
      Shown(g, disk, dev, bl[n]);
      EntriesShown(BlockBytes(g, disk, bl[n]), dirs[bl[n]]);
    }
  }

  // ---------------------------------------------------------------- whole chains

  lemma {:induction false} SameRun(t: nat -> Option<Slot>, t': nat -> Option<Slot>, nr: nat, p: seq<nat>)
    requires forall n :: t(n) == t'(n)
    ensures IsRun(t, nr, p) <==> IsRun(t', nr, p)
    ensures PathBlocks(t, p) == PathBlocks(t', p)
    decreases |p|
  {
    if |p| > 0 {
      SameRun(t, t', match t(nr) case Some(x) => x.next case None => 0, p[1..]);
    }
  }

  lemma {:induction false} SameFollow(t: nat -> Option<Slot>, t': nat -> Option<Slot>, nr: nat, left: nat)
    requires forall n :: t(n) == t'(n)
    ensures Certify.Follow(t, nr, left) == Certify.Follow(t', nr, left)
    decreases left
  {
    if nr != ANODE_EOF && left > 0 && t(nr).Some? { SameFollow(t, t', t(nr).value.next, left - 1); }
  }

  lemma SameReadable(t: nat -> Option<Slot>, t': nat -> Option<Slot>, nr: nat)
    requires forall n :: t(n) == t'(n)
    ensures ReadableBlocks(t, nr) == ReadableBlocks(t', nr)
  {
    hide IsRun, PathBlocks;
    forall p ensures (Reads(t, nr, p) <==> Reads(t', nr, p)) && PathBlocks(t, p) == PathBlocks(t', p) {
      SameRun(t, t', nr, p);
    }
    if p :| Reads(t, nr, p) {
      assert Reads(t', nr, p);
      ReadableBlocksIff(t, nr, p);
      ReadableBlocksIff(t', nr, p);
    } else {
      assert forall q :: Reads(t', nr, q) ==> Reads(t, nr, q);
    }
  }

  lemma SameAnodes(g: Geo, disk: Sectors, dev: Store, abk: Link)
    requires AllOnDisk(g, disk, dev) && GeoOk(g) && g.ipb > 0 && g.stride > 0 && IndexTie(g, dev, abk)
             && BlocksTie(g, dev, abk)
             && SlotsFill(g)
    ensures forall n :: DiskReader(g, disk)(n) == Steps.Reader(g, dev)(n)
  {
    hide AllOnDisk, GeoOk, IndexTie, BlocksTie, SlotsFill, ByteAnode, ReadAnode;
    forall n ensures DiskReader(g, disk)(n) == Steps.Reader(g, dev)(n) { AnodeShown(g, disk, dev, abk, n); }
  }

  lemma DirShown(g: Geo, disk: Sectors, dev: Store, abk: Link, miss: nat, f: Flat, d: nat, p: seq<nat>)
    requires AllOnDisk(g, disk, dev) && GeoOk(g) && g.ipb > 0 && g.stride > 0 && SlotsFill(g)
             && CommOk(g, dev, f, abk, miss) && IsPath(f.tab, d, p) && ANODE_EOF !in f.tab
             && AllIn(Blocks(f.tab, p), f.dirs)
    ensures DiskVol(g, disk).list(d) == Some(Listing(f.dirs, Blocks(f.tab, p)))
  {
    SameAnodes(g, disk, dev, abk);
    assert DirTie(dev, f.dirs);
    hide AllOnDisk, GeoOk, CommOk, SlotsFill, DiskReader, Steps.Reader, Certify.Follow, BlockList, IsPath, Blocks,
         AllIn,
         EntriesIn, Listing, DirTie;
    Certify.DirFollowed(g, dev, f, abk, miss, d, p);
    SameFollow(DiskReader(g, disk), Steps.Reader(g, dev), d, MAX_CHAIN_LEN);
    ListingShown(g, disk, dev, f.dirs, Blocks(f.tab, p));
  }

  lemma ChainShown(g: Geo, disk: Sectors, dev: Store, abk: Link, miss: nat, o: Own, sect: Sectors, h: nat)
    requires AllOnDisk(g, disk, dev) && GeoOk(g) && g.ipb > 0 && g.stride > 0 && SlotsFill(g)
             && CommOk(g, dev, o.f, abk, miss) && h in o.w.path && Inv(g, o, sect)
    ensures ReadableBlocks(DiskVol(g, disk).t, h) == Some(Blocks(o.f.tab, o.w.path[h]))
  {
    SameAnodes(g, disk, dev, abk);
    hide AllOnDisk, GeoOk, CommOk, SlotsFill, DiskReader, Steps.Reader, Inv, ReadableBlocks, Blocks;
    SameReadable(DiskReader(g, disk), Steps.Reader(g, dev), h);
    HeadInTab(g, o, sect, h);
    Certify.DeviceShows(g, dev, o.f, abk, miss, h, o.w.path[h]);
  }

  /** The bytes of a consistent volume show the volume: chains, and listings of its directories. */
  lemma BytesShow(g: Geo, disk: Sectors, dev: Store, abk: Link, miss: nat, o: Own, sect: Sectors)
    requires AllOnDisk(g, disk, dev) && GeoOk(g) && g.ipb > 0 && g.stride > 0 && SlotsFill(g)
             && CommOk(g, dev, o.f, abk, miss) && Inv(g, o, sect)
    ensures Certify.Shows(DiskVol(g, disk), g, o)
  {
    hide AllOnDisk, GeoOk, CommOk, SlotsFill, Inv, ReadableBlocks, Listing, Blocks, IsPath, AllIn, Agree;
    var vol := DiskVol(g, disk);
    assert vol.bs == g.bs;
    hide DiskVol;
    forall h | h in o.w.path ensures ReadableBlocks(vol.t, h) == Some(Blocks(o.f.tab, o.w.path[h])) {
      ChainShown(g, disk, dev, abk, miss, o, sect, h);
    }
    forall d | d in o.w.dh && d in o.w.path
      ensures vol.list(d) == Some(Listing(o.f.dirs, Blocks(o.f.tab, o.w.path[d]))) {
      DirChainFacts(g, o, sect, d);
      DirShown(g, disk, dev, abk, miss, o.f, d, o.w.path[d]);
    }
  }
}
