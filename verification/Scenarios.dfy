/** Runs on freshly formatted disks that show what goes wrong where the source does not look. */
module Scenarios {
  import opened Types
  import opened Bitmap
  import opened Anodes
  import opened Ownership
  import opened Table
  import opened Overlay
  import opened Runs
  import opened Layout
  import opened Transitions
  import opened Directory
  import opened Steps
  import opened SectorData
  import opened Guarantees
  import opened Compose
  import opened Outcomes
  import opened Overwriting
  import opened Renaming
  import opened LongNames
  import opened History
  import opened Sets
  import opened VolumeImage
  import OneDevice
  import ByteReader
  import DiskBytes
  import Format
  import opened WriterModel

  lemma FirstSlot(g: Geo, nr: nat)
    requires ANODE_USERFIRST <= nr < g.apb <= g.stride
    ensures nr in CapSet(g, 1)
  {
    EncInverse(g, 0, nr);
  }

  /** On a fresh volume at least three anode slots are vacant. */
  lemma FirstSlotLeft(p: Format.Plan)
    requires Format.PlanOk(p)
    ensures Left(Format.GeoOf(p), 1, Format.FlatOf(p).tab) >= 3
  {
    hide Format.PlanOk;
    var g, tab := Format.GeoOf(p), Format.FlatOf(p).tab;
    hide CapSet;
    FirstSlot(g, 6);
    FirstSlot(g, 7);
    FirstSlot(g, 8);
    assert {6, 7, 8} <= CapSet(g, 1) - tab.Keys && |{6, 7, 8}| == 3;
    SubsetCard({6, 7, 8}, CapSet(g, 1) - tab.Keys);
  }

  lemma FreshCanMake(p: Format.Plan, sect: Sectors, name: Name, stamp: Stamp)
    requires Format.PlanOk(p) && |Format.ResFreeOf(p)| > 0 && Inv(Format.GeoOf(p), Format.OwnOf(p), sect)
    ensures CanMake(Format.GeoOf(p), 1, Format.OwnOf(p), ANODE_ROOTDIR, name, stamp)
    ensures MakeExtra(Format.GeoOf(p), Format.OwnOf(p), ANODE_ROOTDIR, name, stamp) == 0
  {
    hide Format.PlanOk, Inv, BuildEntry, Fits, Left, Registrable, RoomIn;
    var g, o := Format.GeoOf(p), Format.OwnOf(p);
    EntryFits(g.rbs, name, ST_USERDIR, 0, 0, 0, stamp);
    EmptyHasRoom(g, o, sect, ANODE_ROOTDIR, BuildEntry(name, ST_USERDIR, 0, 0, 0, stamp));
    FirstSlotLeft(p);
  }

  lemma FreshClean(w: Writer, name: Name, stamp: Stamp)
    requires w.Valid() && w.fs == map[] && MakeExtra(w.g, w.Owned(), ANODE_ROOTDIR, name, stamp) == 0
    ensures ANODE_ROOTDIR in w.wit.dh && CleanMake(w.g, w.miss, w.Owned(), ANODE_ROOTDIR, name, stamp)
  {
    hide Chart, ReserveOf, SnapOk, View, UniqueKeys, CommOk, Extends, Nonzero, Base, GeoOk, Inv, Legal, After,
         MakeExtra, Supply, CapSet, Canon;
    RootInDirs(w.g, w.Owned(), w.sect);
    w.SlotForOne();
  }

  lemma NameOfDir(o: Own, h: nat, a: Name)
    requires o.fs == WithDirNamed(map[], ANODE_ROOTDIR, a, h)
    ensures (ANODE_ROOTDIR, Canon(a)) in o.fs && o.fs[(ANODE_ROOTDIR, Canon(a))].anode == h
  {
  }

  /** A volume with one name, that of a directory: the directory can move into itself. */
  lemma OneDirectory(g: Geo, miss: nat, o: Own, sect: Sectors, h: nat, a: Name, b: Name, stamp: Stamp)
    requires o.fl == {} && o.fs == WithDirNamed(map[], ANODE_ROOTDIR, a, h) && g.rbs == 1024 && |b| <= NAME_MAX
             && Inv(g, o, sect)
    ensures h in o.w.dh && ANODE_ROOTDIR in o.w.dh && !SameSpot(ANODE_ROOTDIR, a, h, b) && (h, Canon(b)) !in o.fs
    ensures IntoItself(o.fs, (ANODE_ROOTDIR, Canon(a)), h)
            && CanRename(g, miss, o, (ANODE_ROOTDIR, Canon(a)), (h, Canon(b)), b, stamp)
    ensures ShortName(b) == b && Free(o.fs, h, b)
    ensures forall fs' :: Renamed(o.fs - {(h, Canon(b))}, fs', (ANODE_ROOTDIR, Canon(a)), (h, Canon(b)), b) ==>
                            fs' == map[(h, Canon(b)) := Obj(h, ST_USERDIR, b, 0, [])]
  {
    hide Inv, Canon, RoomFor, RoomIn, FileSize, Key, Inside, DeletedOwn;
    var k := (ANODE_ROOTDIR, Canon(a));
    RootInDirs(g, o, sect);
    NamedBy(g, o, sect, k);
    NotRoot(g, o, sect, h);
    NothingLost(o.fs, (h, Canon(b)));
    NothingDeleted(o, k, (h, Canon(b)));
    DirInIff(g, o, sect, h);
    InsideSelf(o.fs, h);
    var e := o.w.ent[h];
    EntryFits(g.rbs, b, e.entryType, e.anode, FileSize(e), e.protection, stamp);
    EmptyHasRoom(g, o, sect, h, MovedEntry(e, b, stamp));
  }

  /** A fresh volume with one directory. */
  method WithOneDir(total: nat, sect: Sectors, a: Name, stamp: Stamp) returns (r: Result<Writer>, ghost h: nat)
    requires total <= Format.MAX_SMALL_DISK && Format.Disk(sect, total) && |a| <= NAME_MAX
    ensures r.Ok? <==> total > 2 + 2 * Format.ReservedFor(total)
    ensures r.Ok? ==> fresh(r.value) && r.value.Valid() && r.value.g.rbs == 1024
                      && r.value.fs == WithDirNamed(map[], ANODE_ROOTDIR, a, h)
  {
    hide Format.PlanOk, Format.ReservedFor, Legal, After, Inv, Canon, CanMake, MakeExtra, CleanMake, WithDirNamed,
         SnapOk, View, UniqueKeys, CommOk, Extends, Nonzero, Base, GeoOk, Chart, ReserveOf;
    h := 0;
    assert ShortName(a) == a;
    hide ShortName;
    var f, p := OnFreshDisk(total, sect);
    if f.Err? { return Err(f.error), h; }
    var w := f.value;
    FreshCanMake(p, sect, a, stamp);
    FreshClean(w, a, stamp);
    var m, x, _ := w.MakeDir(ANODE_ROOTDIR, a, stamp);
    return Ok(w), x;
  }

  /** On every disk that can be formatted: make a directory and move it into itself. The only name left
      is in a directory that nothing leads to. */
  method MoveIntoItself(total: nat, sect: Sectors, a: Name, b: Name, stamp: Stamp)
      returns (r: Result<Writer>, ghost h: nat)
    requires total <= Format.MAX_SMALL_DISK && Format.Disk(sect, total) && |a| <= NAME_MAX && |b| <= NAME_MAX
    ensures r.Ok? <==> total > 2 + 2 * Format.ReservedFor(total)
    ensures r.Ok? ==> r.value.Strayed() && r.value.fs == map[(h, Canon(b)) := Obj(h, ST_USERDIR, b, 0, [])]
                      && !ReachableDir(r.value.fs, h)
  {
    hide Format.ReservedFor, Legal, After, Inv, Loose, Canon, WithDirNamed, IntoItself, Renamed, SameSpot, Free,
         TwoNamed, HasReading, Respelled, SnapOk, View, UniqueKeys, CommOk, Extends, Nonzero, Base, GeoOk, CanRename,
         CanMove, ShortName, Chart, ReserveOf, Slim, Occupied, Whole;
    r, h := WithOneDir(total, sect, a, stamp);
    if r.Err? { return; }
    var w := r.value;
    ghost var o := w.Owned();
    OneDirectory(w.g, w.miss, o, w.sect, h, a, b, stamp);
    var e := w.Lookup(ANODE_ROOTDIR, a);
    assert e.Ok? && e.value.anode == h by { NameOfDir(o, h, a); }
    hide Denotes;
    var q := w.Rename(ANODE_ROOTDIR, a, e.value.anode, b, stamp);
  }

  /** On every disk that can be formatted: make a directory twice. The root directory then lists the name
      twice, and the volume cannot be read as a consistent one. */
  method MakeTwice(total: nat, sect: Sectors, name: Name, stamp: Stamp) returns (r: Result<Writer>)
    requires total <= Format.MAX_SMALL_DISK && Format.Disk(sect, total) && |name| <= NAME_MAX
    ensures r.Ok? <==> total > 2 + 2 * Format.ReservedFor(total)
    ensures r.Ok? ==> r.value.Mid() && r.value.Settled() && TwoNamed(r.value.flat, ANODE_ROOTDIR, name)
    ensures r.Ok? ==> !HasReading(r.value.g, r.value.flat, r.value.sect)
  {
    hide Format.PlanOk, Format.ReservedFor, Legal, After, Inv, Canon, CanMake, MakeExtra, CleanMake, DoubleMake,
         BuildEntry,
         TwoNamed, HasReading, ListsNothing, MakeNumbered, Usurped, SnapOk, View, UniqueKeys, CommOk, Extends, Nonzero,
           Base,
         GeoOk, Left, Chart, ReserveOf;
    var f, p := OnFreshDisk(total, sect);
    if f.Err? { return Err(f.error); }
    var w := f.value;
    FreshCanMake(p, sect, name, stamp);
    FreshClean(w, name, stamp);
    FirstSlotLeft(p);
    var m, h, _ := w.MakeDir(ANODE_ROOTDIR, name, stamp);
    ghost var o := w.Owned();
    RootInDirs(w.g, o, w.sect);
    NameOfDir(o, h, name);
    assert w.g.stride > 0 by { StridedWriter(w); }
    SecondMake(w.g, w.miss, o, ANODE_ROOTDIR, name, stamp);
    var m2, h2, _ := w.MakeDir(ANODE_ROOTDIR, name, stamp);
    TwiceUnreadable(w.g, w.flat, w.sect, ANODE_ROOTDIR, name);
    return Ok(w);
  }

  lemma StridedWriter(w: Writer)
    requires w.Mid()
    ensures w.g.stride > 0
  {
    w.Strided();
  }

  // ---------------------------------------------------------------- a write that fails

  lemma OneRunOnly(free: set<nat>)
    ensures RunsFor(free, 1) <= 1
  {
    hide FirstFit;
    if exists bl, rs :: Picks(free, 1, bl, rs) {
      var r := Picked(free, 1);
      FewRuns(r.1);
    }
  }

  lemma FewRuns(rs: seq<Run>)
    requires Maximal(rs) && |AllBlocks(rs)| == 1
    ensures |rs| <= 1
  {
  }

  lemma OneSector(bs: nat)
    requires bs > 0
    ensures BlocksFor(bs, 1) == 1
  {
    BlocksForLeast(bs, 1, 1);
  }

  lemma FreshCanWrite(p: Format.Plan, sect: Sectors, name: Name, stamp: Stamp)
    requires Format.PlanOk(p) && Inv(Format.GeoOf(p), Format.OwnOf(p), sect)
    ensures var g, o := Format.GeoOf(p), Format.OwnOf(p);
            && CanCreate(g, 1, o, ANODE_ROOTDIR, name, 1, stamp) && FileExtra(g, o, ANODE_ROOTDIR, name, 1, stamp) == 0
            && RunsOf(g, o, 1) <= 1
  {
    var g, o := Format.GeoOf(p), Format.OwnOf(p);
    hide Format.PlanOk, Inv, BuildEntry, Fits, Left, Registrable, RoomIn, RunsFor, BlocksFor, Range, Format.ResFreeOf,
         Format.Given;
    FreshFree(p);
    EntryFits(g.rbs, name, ST_FILE, 0, 1, 0, stamp);
    EmptyHasRoom(g, o, sect, ANODE_ROOTDIR, BuildEntry(name, ST_FILE, 0, 1, 0, stamp));
    FirstSlotLeft(p);
    OneSector(g.bs);
    OneRunOnly(o.f.free);
  }

  lemma FreshFree(p: Format.Plan)
    requires Format.PlanOk(p)
    ensures |Format.FlatOf(p).free| >= 1
  {
    hide Format.Given, Format.InUse;
    Format.RangeSize(Format.BmStart(p), p.total);
  }

  /** A file and the free blocks together are no more than the disk has. */
  lemma NotEnough(g: Geo, o: Own, sect: Sectors, h: nat, size: nat)
    requires g.bs > 0 && IsFile(o, h) && size > g.dataEnd * g.bs && Inv(g, o, sect)
    ensures !CanGrow(g, 0, o, h, size) && forall miss :: !CanGrow(g, miss, o, h, size)
  {
    hide Inv, BlocksFor, RoomFor, OldBlocks, NoDup, InDataAll, Elems, IsFile;
    FileFacts(g, o, sect, h);
    UsedNotFree(g, o, sect, h);
    ElemsCard(OldBlocks(o, h));
    FreeBelow(g, o, sect);
    OldBelow(g, OldBlocks(o, h));
    var all := Elems(OldBlocks(o, h)) + o.f.free;
    RangeCard(g.dataEnd);
    SubsetCard(all, Range(0, g.dataEnd));
    assert |all| == |OldBlocks(o, h)| + |o.f.free|;
    var n := BlocksFor(g.bs, size);
    if n <= g.dataEnd { TimesMonotone(n, g.dataEnd, g.bs); }
  }

  lemma FreeBelow(g: Geo, o: Own, sect: Sectors)
    requires Inv(g, o, sect)
    ensures o.f.free <= Range(0, g.dataEnd)
  {
    hide Chains, Nodes, Cover, Kinds, Entries, Heads, Parents, Names, SectorsOk, Contents, Ranked;
    RangeCard(g.dataEnd);
  }

  lemma OldBelow(g: Geo, bl: seq<nat>)
    requires InDataAll(g, bl)
    ensures Elems(bl) <= Range(0, g.dataEnd)
  {
    RangeCard(g.dataEnd);
    forall x | x in Elems(bl) ensures x in Range(0, g.dataEnd) { var i :| 0 <= i < |bl| && bl[i] == x; }
  }

  lemma HalfImage(g: Geo, dev: Store, root: Root, sect: Sectors, sect': Sectors, bm: seq<BmBlock>, abk: Link, miss: nat,
                  o: Own,
                  h: nat, k: (nat, Name), data: Bytes)
    requires Image(g, dev, root, sect, bm, abk, miss, o) && IsFile(o, h) && HalfDone(g, o, sect', h, k, data)
    ensures Image(g, dev, root, sect', bm, abk, miss, Halfway(o, sect', h))
    ensures Halfway(o, sect', h).fs == HalfNames(o.fs, k, data)
  {
    hide SnapOk, CommOk, Extends, Inv, GeoOk, Base, Nonzero, Halfway, Holds, IsFile, OldBlocks;
    HalfwaySame(o, sect', h);
  }

  lemma FreshWrites(w: Writer, p: Format.Plan, name: Name, stamp: Stamp)
    requires w.Valid() && Format.PlanOk(p) && w.g == Format.GeoOf(p) && w.Owned() == Format.OwnOf(p) && w.miss == 1
             && |name| <= NAME_MAX
    ensures ANODE_ROOTDIR in w.wit.dh && CanWrite(w.g, w.miss, w.Owned(), ANODE_ROOTDIR, name, 1, stamp)
    ensures CleanWrite(w.g, w.miss, w.Owned(), ANODE_ROOTDIR, name, 1, stamp)
  {
    hide Format.PlanOk, SnapOk, CommOk, Extends, Nonzero, Base, GeoOk, Inv, Legal, After, Supply, CapSet, Canon,
         CanCreate,
         FileExtra, RunsOf, CanGrow, CleanGrow, Chart, ReserveOf, View, UniqueKeys, Fitted;
    RootInDirs(w.g, w.Owned(), w.sect);
    w.SlotForOne();
    FreshCanWrite(p, w.sect, name, stamp);
  }

  /** A volume with one name, that of a file. */
  lemma OneFile(g: Geo, o: Own, sect: Sectors, w0: Wit, name: Name, x: byte)
    requires Written(map[], o.fs, (ANODE_ROOTDIR, Canon(name)), name, w0, [x]) && o.fl == {} && Inv(g, o, sect)
    ensures var k := (ANODE_ROOTDIR, Canon(name));
            && FileThere(o.fs, k) && IsFile(o, o.fs[k].anode) && ANODE_ROOTDIR in o.w.dh && o.fs[k].data == [x]
  {
    hide Inv, Canon, Key;
    var k := (ANODE_ROOTDIR, Canon(name));
    RootInDirs(g, o, sect);
    NamedBy(g, o, sect, k);
    HeadFactsOf(g, o, sect, o.fs[k].anode);
    ObjAt(g, o, sect, o.fs[k].anode);
  }

  /** On every disk that can be formatted: write one byte to a file, then try to write more than the disk
      holds. Whoever opens the disk afterwards finds the first new byte in the file. */
  method FailsHalfway(total: nat, sect: Sectors, name: Name, x: byte, data: Bytes, stamp: Stamp)
      returns (r: Result<Writer>)
    requires total <= Format.MAX_SMALL_DISK && Format.Disk(sect, total) && |name| <= NAME_MAX && |data| > total * 512
    ensures r.Ok? <==> total > 2 + 2 * Format.ReservedFor(total)
    ensures r.Ok? ==> r.value.Valid() && ReadOf(r.value.fs, (ANODE_ROOTDIR, Canon(name))) == Ok([data[0]])
  {
    hide Format.PlanOk, Format.ReservedFor, SnapOk, CommOk, Extends, Nonzero, Base, GeoOk, Inv, Legal, After, Canon,
         CanWrite,
         CleanWrite, Written, Image, HalfDone, Chart, ReserveOf, View, UniqueKeys, Fitted, IsFile, LoopingGrow, CanGrow,
         Format.OwnOf, ReadsAs, Numbered, DoubleWrite, TwoNamed, HasReading, RunsIntoLoop;
    var f, p := OnFreshDisk(total, sect);
    if f.Err? { return Err(f.error); }
    var w := f.value;
    FreshWrites(w, p, name, stamp);
    ghost var w0 := w.wit;
    assert w.g.bs == 512;
    var a, h := w.WriteFile(ANODE_ROOTDIR, name, [x], stamp);
    ghost var o, k := w.Owned(), (ANODE_ROOTDIR, Canon(name));
    OneFile(w.g, o, w.sect, w0, name, x);
    w.AtRest();
    ghost var sect0, bm, abk, miss := w.sect, w.dataBm, w.abk, w.miss;
    NotEnough(w.g, o, w.sect, o.fs[k].anode, |data|);
    assert !CanWrite(w.g, w.miss, o, ANODE_ROOTDIR, name, |data|, stamp)
      by { CannotWrite(w.g, w.miss, o, name, |data|, stamp); }
    var b, h2 := w.WriteFile(ANODE_ROOTDIR, name, data, stamp);
    HalfImage(w.g, w.dev, w.root, sect0, w.sect, bm, abk, miss, o, o.fs[k].anode, k, data);
    var v := new Writer.Open(w.g, w.dev, w.root, w.sect, bm, abk, miss, Halfway(o, w.sect, o.fs[k].anode));
    assert Clip(data, 1) == [data[0]];
    return Ok(v);
  }

  lemma CannotWrite(g: Geo, miss: nat, o: Own, name: Name, size: nat, stamp: Stamp)
    requires var k := (ANODE_ROOTDIR, Canon(name)); FileThere(o.fs, k) && !CanGrow(g, miss, o, o.fs[k].anode, size)
    ensures !CanWrite(g, miss, o, ANODE_ROOTDIR, name, size, stamp)
  {
    hide Canon, CanGrow;
  }

  /** Any prefix of the writes of `data` to `bl` leaves the committed volume on the one disk. */
  ghost predicate SurvivesStop(w: Writer, disk: Sectors, bl: seq<nat>, data: Bytes, off: nat, k: nat)
    reads w
    requires k <= |bl|
  {
    var disk' := WriteSome(w.g.bs, disk, bl, data, off, k);
    && Inv(w.g, w.Owned(), disk') && OneDevice.RootBytes(w.g, disk') == OneDevice.RootBytes(w.g, disk)
    && OneDevice.Shows(w.g, disk', w.dev, OneDevice.InUseBlocks(w.Owned(), w.dev))
  }

  /** On every disk that can be formatted, sector by sector: the sectors show the volume the writer is
      opened on, and stopping anywhere in writes to free blocks leaves that volume. */
  method StopOnFreshDisk(total: nat, sect: Sectors, block: Bytes, ext: Bytes)
      returns (r: Result<Writer>, disk: Sectors)
    requires total <= Format.MAX_SMALL_DISK && Format.Disk(sect, total) && |block| == 512 && |ext| == 1024
    ensures r.Ok? <==> total > 2 + 2 * Format.ReservedFor(total)
    ensures r.Ok? ==> r.value.Valid()
                      && OneDevice.OneDisk(r.value.g, disk, r.value.dev, OneDevice.RootBytes(r.value.g, disk), sect,
                                           r.value.dev.Keys)
                      && OneDevice.AllReserved(r.value.g, r.value.dev.Keys)
                      && DiskBytes.RootShown(OneDevice.RootBytes(r.value.g, disk), 512, r.value.root)
    ensures r.Ok? ==> r.value.flat.free == Range(r.value.g.bmStart, total)
    ensures r.Ok? ==> r.value.g.ipb > 0 && r.value.g.stride > 0
                      && ByteReader.DiskVol(r.value.g, disk).list(ANODE_ROOTDIR) == Some([])
    ensures r.Ok? ==> forall bl: seq<nat>, data, off, k ::
                        0 <= k <= |bl| && 0 <= off && Elems(bl) <= r.value.flat.free ==>
                          SurvivesStop(r.value, disk, bl, data, off, k)
  {
    hide Format.PlanOk, Format.ReservedFor, Legal, After, Inv, Format.Written, Format.Laid, Format.RootFits,
         Format.Disk,
         DiskBytes.RootShown, Format.RootOf, Format.FreeIn, SnapOk, View, UniqueKeys, CommOk, Extends, Nonzero, Base,
         GeoOk, Chart, ReserveOf, OneDevice.RootBytes, OneDevice.Shows, WriteSome, Elems;
    disk := sect;
    var f, p := OnFreshDisk(total, sect);
    if f.Err? { return f, disk; }
    var w := f.value;
    DiskBytes.Placed(p);
    disk := DiskBytes.FormatBytes(p, block, ext, sect, w.dev);
    assert OneDevice.InUseBlocks(w.Owned(), w.dev) <= w.dev.Keys;
    hide OneDevice.InUseBlocks;
    OneDevice.HoldsFewer(w.g, disk, w.dev, OneDevice.RootBytes(w.g, disk), sect, w.dev.Keys,
                         OneDevice.InUseBlocks(w.Owned(), w.dev));
    forall bl: seq<nat>, data, off, k | 0 <= k <= |bl| && 0 <= off && Elems(bl) <= w.flat.free
      ensures SurvivesStop(w, disk, bl, data, off, k)
    {
      w.CrashOnDisk(disk, bl, data, off, k);
    }
    RootListed(w, disk);
    return Ok(w), disk;
  }

  /** On a disk that shows a volume without names, the root directory lists nothing. */
  lemma RootListed(w: Writer, disk: Sectors)
    requires w.Valid() && w.fs == map[] && ByteReader.AllOnDisk(w.g, disk, w.dev) && ByteReader.SlotsFill(w.g)
    ensures w.g.ipb > 0 && w.g.stride > 0 && ByteReader.DiskVol(w.g, disk).list(ANODE_ROOTDIR) == Some([])
  {
    hide Chart, ReserveOf, SnapOk, View, UniqueKeys, CommOk, Extends, Nonzero, Base, GeoOk, Inv, Legal, After,
         ByteReader.AllOnDisk, ByteReader.SlotsFill, Listing, Blocks, ByteReader.DiskVol;
    w.ReadInBytes(disk);
    RootInDirs(w.g, w.Owned(), w.sect);
    DirChainFacts(w.g, w.Owned(), w.sect, ANODE_ROOTDIR);
    ListsEmptyIff(w.g, w.Owned(), w.sect, ANODE_ROOTDIR);
  }
}
