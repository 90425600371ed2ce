/** The writer: bitmaps and counters in memory, staged block writes over the device, and the
    operations built from them. */
module WriterModel {
  import opened Types
  import opened Bitmap
  import opened Anodes
  import opened Ownership
  import opened Table
  import opened Overlay
  import opened Runs
  import opened Layout
  import opened Transitions
  import opened Directory
  import opened Steps
  import opened SectorData
  import opened Guarantees
  import opened Compose
  import opened Outcomes
  import opened Overwriting
  import opened Renaming
  import opened LongNames
  import ByteReader
  import opened FileReader
  import opened Counting
  import opened History
  import opened Sets
  import opened VolumeImage
  import OneDevice
  import Descent
  import Check
  import Certify
  import Format

  /** Read every bitmap block the bitmap index leads to. */
  method LoadDataBitmap(g: Geo, dev: Store, ghost sys: set<nat>, ghost bm: seq<BmBlock>) returns (r: seq<BmBlock>)
    requires BmIndexTie(g, dev, sys, bm) && BmTie(dev, bm) && Nonzero(bm)
    ensures r == bm
  {
    hide BmBlocks, BmResolve;
    r := [];
    for k := 0 to BmBlocks(g)
      invariant |r| == (if k <= |bm| then k else |bm|) && r == bm[..|r|]
    {
      var blk := BmResolve(g, dev, k);
      if blk != 0 {
        r := r + [BmBlock(blk, dev[blk].words)];
      }
    }
  }

  class Writer {
    const g: Geo
    // the device
    var dev: Store
    var root: Root
    var sect: Sectors
    // in memory
    var pending: Staged<Block>
    var resBitmap: seq<Word>
    var dataBm: seq<BmBlock>
    var blocksFree: nat
    var reservedFree: nat
    var datestamp: nat
    // what all of this means
    ghost var view: Store
    ghost var abk: Link
    ghost var flat: Flat
    ghost var sys: set<nat>
    ghost var base: Flat
    ghost var dabk: Link
    ghost var miss: nat
    ghost var wit: Wit
    ghost var fs: FS
    ghost var first: FS
    ghost var log: seq<Event>
    ghost var lost: set<nat>
    // since the volume was opened: system blocks other than anode blocks, and all reserved blocks
    ghost const fixed: set<nat>
    ghost const area: set<nat>
    // the words of the root cluster behind the reserved bitmap
    const tail: seq<Word>
    // whether directory blocks were filled as this writer fills them
    ghost const snug: bool

    ghost function Cur(): Snap
      reads this
    {
      Snap(view, abk, flat, sys, dataBm, resBitmap)
    }

    ghost predicate Ov()
      reads this
    {
      view == View(dev, pending) && UniqueKeys(pending)
    }

    /** Both counters equal the number of set bits. */
    ghost predicate Counted()
      reads this
    {
      blocksFree == |flat.free| && reservedFree == |flat.resFree|
    }

    /** The system blocks are those the volume was opened with, the anode blocks the index leads to, and
        those lost when one sequence number was registered twice. */
    ghost predicate Charted()
      reads `sys, `abk, `lost
    {
      Chart(sys, fixed, abk, lost)
    }

    /** No system block is lost, no reserved block has appeared or disappeared, and directory blocks are
        filled no further than they were. */
    ghost predicate Tidied()
      reads this
    {
      lost == {} && ReserveOf(flat, sys) == area && (snug ==> Fitted(g.rbs, flat.dirs))
    }

    /** Memory, staged blocks and device agree with the model (counters aside). */
    ghost predicate Tied()
      reads this
    {
      && GeoOk(g) && Ov() && SnapOk(g, Cur())
      && g.dataEnd <= Base(g, |dataBm|) && Nonzero(dataBm)
      && CommOk(g, dev, base, dabk, miss) && Extends(dabk, abk, miss) && Charted() && root.datestamp <= datestamp
    }

    /** Consistency in the middle of an operation. */
    ghost predicate Mid()
      reads this
    {
      Tied() && Counted()
    }

    /** The ownership state between operations. */
    ghost function Owned(): Own
      reads this
    {
      Own(flat, wit, fs, {}, sys)
    }

    /** Nothing staged: the device holds exactly what memory says. */
    ghost predicate Settled()
      reads this
    {
      pending == [] && flat == base && abk == dabk
      && root == Root(datestamp, reservedFree, blocksFree, resBitmap, tail)
    }

    /** The names are what the operations so far have made of those at the start. */
    ghost predicate Logged()
      reads this
    {
      Legal(first, log) && fs == After(first, log)
    }

    /** Exactly one operation was committed since the log was `l`. */
    ghost predicate Logs(f: FS, l: seq<Event>, op: Op)
      reads this
    {
      first == f && log == l + [Event(op, fs)]
    }

    /** Consistency between operations. */
    ghost predicate Valid()
      reads this
    {
      Mid() && Settled() && Inv(g, Owned(), sect) && Logged() && Tidied()
    }

    /** Open a volume at rest. Only the device and its root cluster are read; they determine both
        bitmaps, both counters and the datestamp. */
    constructor Open(g: Geo, dev: Store, root: Root, sect: Sectors, ghost bm: seq<BmBlock>, ghost abk: Link,
                     ghost miss: nat, ghost o: Own)
      requires Image(g, dev, root, sect, bm, abk, miss, o)
      ensures Valid() && this.g == g && this.dev == dev && this.root == root && this.sect == sect && Owned() == o
              && pending == []
      ensures dataBm == bm && resBitmap == root.res && blocksFree == root.blocksFree
              && reservedFree == root.reservedFree && datestamp == root.datestamp
      ensures first == o.fs && log == [] && this.miss == miss && this.abk == abk && area == ReserveOf(o.f, o.sys)
              && fixed == o.sys - abk.Values
      ensures tail == root.rest && (snug <==> Fitted(g.rbs, o.f.dirs))
    {
      hide TabTie, DirTie, FreeTie, ResTie, SysTie, Sep, CommOk, Extends, Inv, UniqueKeys, GeoOk, Base, BmIndexTie,
           BmTie, Nonzero, View, Chart, ReserveOf;
      var found := LoadDataBitmap(g, dev, o.sys, bm);
      hide SnapOk;
      NothingStaged(dev);
      this.g, this.dev, this.root, this.sect, this.tail := g, dev, root, sect, root.rest;
      pending, dataBm, resBitmap := [], found, root.res;
      blocksFree, reservedFree, datestamp := root.blocksFree, root.reservedFree, root.datestamp;
      view, this.abk, flat, sys, base, dabk, this.miss, wit, fs := dev, abk, o.f, o.sys, o.f, abk, miss, o.w, o.fs;
      first, log := o.fs, [];
      fixed, lost, area, snug := o.sys - abk.Values, {}, ReserveOf(o.f, o.sys), Fitted(g.rbs, o.f.dirs);
      ChartStart(g, Snap(dev, abk, o.f, o.sys, bm, root.res));
    }

    /** Between operations the device is a volume at rest that shows what the writer shows. */
    lemma AtRest()
      requires Valid()
      ensures Image(g, dev, root, sect, dataBm, abk, miss, Owned())
      ensures root == Root(datestamp, reservedFree, blocksFree, resBitmap, tail)
    {
      hide TabTie, DirTie, FreeTie, ResTie, SysTie, Sep, CommOk, Extends, UniqueKeys, GeoOk, Base, BmIndexTie, BmTie,
           Nonzero, View, Inv, SnapOk, Legal, After;
      assert view == dev by { NothingStaged(dev); }
    }

    /** On one disk: whatever prefix of an operation's data writes to free blocks reached it, root cluster
        and reserved blocks are those of the committed volume, and so is what every name reads as. */
    lemma CrashOnDisk(disk: Sectors, bl: seq<nat>, data: Bytes, off: nat, k: nat)
      requires Valid() && k <= |bl| && Elems(bl) <= flat.free
      requires OneDevice.OneDisk(g, disk, dev, OneDevice.RootBytes(g, disk), sect, OneDevice.InUseBlocks(Owned(), dev))
      ensures var disk' := WriteSome(g.bs, disk, bl, data, off, k);
              && Inv(g, Owned(), disk')
              && OneDevice.OneDisk(g, disk', dev, OneDevice.RootBytes(g, disk), disk',
                                   OneDevice.InUseBlocks(Owned(), dev))
    {
      hide SnapOk, Ov, CommOk, Extends, Counted, Nonzero, Base, Inv, Legal, After, GeoOk, WriteSome, Elems, Chart,
           ReserveOf,
           OneDevice.OneDisk;
      OneDevice.CrashSafeApart(g, Owned(), sect, disk, dev, bl, data, off, k);
    }

    /** What a reader follows is on the device and among the blocks shown: directory blocks, anode blocks,
        bitmap blocks and the blocks of both indexes. */
    lemma ReadersFollow(b: nat)
      requires Valid()
      requires b in flat.dirs || b in abk.Values || (b in g.indexblocks && b != 0) || (b in g.bmIndex && b != 0)
               || exists k :: 0 <= k < |dataBm| && dataBm[k].blk == b
      ensures b in OneDevice.InUseBlocks(Owned(), dev)
    {
      hide CommOk, Extends, Counted, Nonzero, Base, Inv, Legal, After, GeoOk, Chart, ReserveOf, View, UniqueKeys,
           FreeTie, ResTie, Sep, Resolve, SlotsTie, BmResolve;
      assert view == dev by { NothingStaged(dev); }
    }

    /** Whoever reads a disk that shows the store, from bytes alone, finds the chains and the listings of
        the committed volume. */
    lemma ReadInBytes(disk: Sectors)
      requires Valid() && ByteReader.AllOnDisk(g, disk, dev) && ByteReader.SlotsFill(g)
      ensures g.ipb > 0 && g.stride > 0 && Certify.Shows(ByteReader.DiskVol(g, disk), g, Owned())
    {
      hide SnapOk, Ov, CommOk, Extends, Counted, Nonzero, Base, Inv, Legal, After, Chart, ReserveOf, Certify.Shows,
           ByteReader.SlotsFill, ByteReader.AllOnDisk;
      assert GeoOk(g);
      hide GeoOk;
      ByteReader.BytesShow(g, disk, dev, dabk, miss, Owned(), sect);
    }

    /** Conservation: in every state between operations the free counter is the number of free
        blocks, and each data block is free or on the chain of exactly one file, which can be
        reached from the root. */
    lemma Accounted(x: nat)
      requires Valid() && InData(g, x)
      ensures blocksFree == |flat.free| && reservedFree == |flat.resFree|
      ensures AccountedFor(Owned(), x)
    {
      hide Inv, Tied, Settled, Logged, AccountedFor;
      EveryBlockAccounted(g, Owned(), sect, x);
    }

    /** Conservation in the reserved area: in every state between operations each reserved block is free,
        a directory block, one of the system blocks the volume was opened with, or an anode block the
        index leads to, and only one of these. */
    lemma ReservedAccounted(b: nat)
      requires Valid()
      ensures b in area <==> b in flat.resFree || b in flat.dirs || b in fixed || b in abk.Values
      ensures b in area ==> OnlyOne(b in flat.resFree, b in flat.dirs, b in fixed, b in abk.Values)
    {
      hide TabTie, DirTie, BmTie, FreeTie, ResTie, BmIndexTie, Ov, CommOk, Extends, Counted, Nonzero, Base, GeoOk, Inv,
           Legal, After, ResAligned;
    }

    lemma FixedIs()
      requires Valid()
      ensures fixed == sys - abk.Values && area == ReserveOf(flat, sys)
    {
      hide Chart, ReserveOf, SnapOk, Ov, CommOk, Extends, Counted, Nonzero, Base, GeoOk, Inv, Legal, After;
      ChartIs(sys, fixed, abk);
    }

    /** Reopening what this writer has committed reproduces its memory and its names. */
    method Reopen() returns (w: Writer)
      requires Valid()
      ensures w.Valid() && w.fs == fs && w.dataBm == dataBm && w.resBitmap == resBitmap && w.datestamp == datestamp
      ensures w.blocksFree == blocksFree && w.reservedFree == reservedFree && w.area == area && w.fixed == fixed
    {
      hide Image, Legal, After, Mid, ReserveOf, Inv;
      AtRest();
      FixedIs();
      hide Valid;
      w := new Writer.Open(g, dev, root, sect, dataBm, abk, miss, Owned());
    }

    // ---------------------------------------------------------------- staged blocks

    method Stage(b: nat, blk: Block)
      requires Ov()
      modifies `pending, `view
      ensures Ov() && view == old(view)[b := blk]
    {
      pending := Overlay.Stage(pending, b, blk);
      view := view[b := blk];
    }

    method ReadRaw(b: nat) returns (blk: Block)
      requires Ov() && b in view
      ensures blk == view[b]
    {
      blk := Overlay.Read(dev, pending, b);
    }

    // ---------------------------------------------------------------- reserved blocks

    method AllocReserved() returns (r: Result<nat>)
      requires Mid()
      modifies `resBitmap, `reservedFree, `flat
      ensures r.Ok? <==> old(flat.resFree) != {}
      ensures r.Ok? ==> Mid() && r.value in old(flat.resFree) && r.value != 0 && ResAligned(g, r.value, |resBitmap|) &&
                        flat == Flat(old(flat.tab), old(flat.dirs), old(flat.free), old(flat.resFree) - {r.value})
      ensures r.Err? ==> unchanged(this)
    {
      hide BmIndexTie, TabTie, DirTie, BmTie, FreeTie, SysTie, Sep, CommOk, Extends, View, UniqueKeys, SetBit, BitBlock;
      var q := FirstBit(resBitmap);
      if q.None? {
        if flat.resFree != {} { ResSome(g, resBitmap, flat.resFree); }
        return Err(DiskFull);
      }
      var b := BitBlock(g.first, g.rescluster, q.value);
      WithoutResOk(g, Cur(), q.value);
      BitBlockAbove(g, q.value);
      resBitmap := SetBit(resBitmap, q.value, false);
      flat := Flat(flat.tab, flat.dirs, flat.free, flat.resFree - {b});
      reservedFree := reservedFree - 1;
      return Ok(b);
    }

    method FreeReserved(b: nat)
      requires Mid() && b in flat.dirs
      modifies `resBitmap, `reservedFree, `flat
      ensures Mid() && flat == Flat(old(flat.tab), old(flat.dirs) - {b}, old(flat.free), old(flat.resFree) + {b})
    {
      hide BmIndexTie, TabTie, DirTie, BmTie, FreeTie, SysTie, CommOk, Extends, View, UniqueKeys, SetBit, BitBlock,
           ResIndex, ResTie;
      WithResOk(g, Cur(), ResIndex(g, b));
      assert WordsOk(resBitmap) by { ResWords(g, resBitmap, flat.resFree); }
      resBitmap := SetBit(resBitmap, ResIndex(g, b), true);
      flat := Flat(flat.tab, flat.dirs - {b}, flat.free, flat.resFree + {b});
      reservedFree := reservedFree + 1;
    }

    // ---------------------------------------------------------------- data blocks

    method FreeDataBlock(x: nat)
      requires Mid() && x < g.dataEnd && x !in flat.free
      modifies `pending, `view, `dataBm, `blocksFree, `flat
      ensures Mid()
      ensures flat == if x < g.bmStart then old(flat)
                      else Flat(old(flat.tab), old(flat.dirs), old(flat.free) + {x}, old(flat.resFree))
    {
      hide Chart, ReserveOf, SnapOk, CommOk, Extends, View, UniqueKeys, SetBit, Rem, Quot, Base, PerBlock, GeoOk;
      if x < g.bmStart { return; }
      FreeBit(g, Cur(), x);
      var rel := x - g.bmStart;
      var k, q := Quot(rel, PerBlock(g)), Rem(rel, PerBlock(g));
      var ws := SetBit(dataBm[k].words, q, true);
      dataBm := dataBm[k := BmBlock(dataBm[k].blk, ws)];
      Stage(dataBm[k].blk, BitmapBlk(ws));
      flat := Flat(flat.tab, flat.dirs, flat.free + {x}, flat.resFree);
      blocksFree := blocksFree + 1;
    }

    /** Take up to `want` free blocks from bitmap block `k` and stage it when anything has been
        taken so far. */
    method TakeFrom(k: nat, want: nat, some: bool) returns (got: seq<nat>, ghost cut: nat)
      requires Tied() && k < |dataBm| && want > 0
      modifies `pending, `view, `dataBm, `flat
      ensures Tied() && |dataBm| == |old(dataBm)|
      ensures flat == Less(old(flat), got)
      ensures InRange(old(flat.free), got, Base(g, k), Base(g, k) + cut)
      ensures Sorted(got) && |got| <= want && cut <= PerBlock(g) && (|got| == want || cut == PerBlock(g))
    {
      hide BmIndexTie, TabTie, DirTie, BmTie, SysTie, CommOk, Extends, View, UniqueKeys, SetBit, ResTie, Base, FreeTie,
           Taken;
      FreeShape(g, dataBm, flat.free, k);
      PerBlockIs(g);
      var ws;
      ws, got, cut := TakeBits(dataBm[k].words, Base(g, k), g.dataEnd + g.bmStart, want);
      TakenSorted(dataBm[k].words, ws, Base(g, k), g.dataEnd + g.bmStart, got, cut);
      assert Below(flat.free, g.dataEnd + g.bmStart) by { BelowEnd(g, flat, sys, |resBitmap|); }
      TakenMembers(g, dataBm, flat.free, k, g.dataEnd + g.bmStart, ws, got, cut);
      FreeTieTake(g, dataBm, flat.free, k, g.dataEnd + g.bmStart, ws, got, cut);
      if |got| > 0 || some {
        WithWordsOk(g, Cur(), k, ws, flat.free - Elems(got));
        dataBm := dataBm[k := BmBlock(dataBm[k].blk, ws)];
        Stage(dataBm[k].blk, BitmapBlk(ws));
        flat := Flat(flat.tab, flat.dirs, flat.free - Elems(got), flat.resFree);
      } else {
        assert Elems(got) == {};
        assert flat.free - Elems(got) == flat.free;
      }
    }

    /** First fit over all bitmap blocks. Fails exactly when fewer than `count` blocks are free,
        and then every bit has been cleared while the counter still has its old value. */
    method AllocDataBlocks(count: nat) returns (r: Result<seq<nat>>)
      requires Mid() && count > 0
      modifies `pending, `view, `dataBm, `blocksFree, `flat
      ensures r.Ok? <==> count <= |old(flat.free)|
      ensures r.Ok? ==> Mid() && |r.value| == count && FirstFit(old(flat.free), r.value)
      ensures r.Ok? ==> flat == Flat(old(flat.tab), old(flat.dirs), old(flat.free) - Elems(r.value), old(flat.resFree))
      ensures r.Err? ==> Tied() && flat == Flat(old(flat.tab), old(flat.dirs), {}, old(flat.resFree))
                         && blocksFree == old(blocksFree)
    {
      hide Mid, Tied, Base, Sorted, FirstFit, Swept, Elems, PerBlock, Below, InRange, NoDup, Less;
      var taken: seq<nat> := [];
      ghost var f0 := flat;
      SweepStart();
      LessMore(f0, [], []);
      for k := 0 to |dataBm|
        invariant Tied() && |dataBm| == |old(dataBm)| && blocksFree == |f0.free| == old(blocksFree)
                  && reservedFree == |f0.resFree|
        invariant Swept(f0.free, taken, Base(g, k)) && |taken| < count && flat == Less(f0, taken)
      {
        LessMore(f0, taken, []);
        var got, cut := TakeFrom(k, count - |taken|, |taken| > 0);
        BaseNext(g, k);
        LessMore(f0, taken, got);
        SweptMore(f0.free, taken, Base(g, k), got, cut, Base(g, k + 1));
        taken := taken + got;
        if |taken| == count {
          SweptIsFirst(f0.free, taken, Base(g, k) + cut);
          CountDown(count, f0, taken);
          LessIs(f0, taken);
          return Ok(taken);
        }
      }
      SweptAll(g, dataBm, f0.free, taken);
      LessIs(f0, taken);
      return Err(DiskFull);
    }

    lemma SweepStart()
      requires Mid()
      ensures Tied() && blocksFree == |flat.free| && reservedFree == |flat.resFree|
      ensures Swept(flat.free, [], Base(g, 0)) && Below(flat.free, g.dataEnd) && g.dataEnd <= Base(g, |dataBm|)
    {
      hide Chart, ReserveOf, SnapOk, View, UniqueKeys, CommOk, Extends, Base, Swept, Elems, GeoOk, Below, Ov, Nonzero;
      SweptStart(g, flat.free, Cur());
    }

    /** Enter an allocation in the counter. */
    method CountDown(count: nat, ghost f: Flat, ghost taken: seq<nat>)
      requires Tied() && blocksFree == |f.free| && reservedFree == |f.resFree| && count == |taken| <= |f.free|
      requires flat == Less(f, taken) && |f.free - Elems(taken)| == |f.free| - |taken|
      modifies `blocksFree
      ensures Mid()
    {
      hide Chart, ReserveOf, SnapOk, View, UniqueKeys, CommOk, Extends, Base, Elems, GeoOk, Nonzero;
      blocksFree := blocksFree - count;
    }

    // ---------------------------------------------------------------- anodes

    /** Take a new anode block for `seqnr`, register it in the index, and use its first
        ordinary slot. */
    method GrowAnodes(seqnr: nat, x: Slot) returns (r: Result<nat>)
      requires Mid() && !Vacant(x) && seqnr == miss < MAX_SEQ
      modifies `pending, `view, `resBitmap, `reservedFree, `flat, `abk, `sys, `lost, `datestamp
      ensures r.Ok? ==> Mid() && g.stride > 0 && r.value == Enc(g, miss, ANODE_USERFIRST)
      ensures r.Ok? ==> flat.tab == GrowTab(g, old(flat.tab), miss, x) && OnlyAnodes(old(flat), flat, old(sys), sys)
      ensures r.Ok? <==> Registrable(g, miss) && |old(flat.resFree)| > 0
      ensures r.Ok? ==> |flat.resFree| == |old(flat.resFree)| - 1
      ensures r.Ok? && miss !in old(abk) ==> lost == old(lost)
    {
      hide Chart, ReserveOf, SnapOk, CommOk, Quot, Enc, GrowTab, Vacant, ResAligned, Extends, Counted, Ov, Nonzero,
           Base;
      assert GeoOk(g) && SnapOk(g, Cur());
      GeoFacts(g);
      hide GeoOk;
      var nb := AllocReserved();
      if nb.Err? { return Err(DiskFull); }
      var top := Top(g.indexblocks, Quot(seqnr, g.ipb));
      if top == 0 { return Err(DiskFull); }
      TakenIsLoose(g, Cur(), nb.value, old(Cur()));
      OneLess(old(flat.resFree), nb.value);
      hide Mid;
      AttachAnodes(seqnr, top, nb.value, x);
      return Ok(Enc(g, seqnr, ANODE_USERFIRST));
    }

    ghost method Enlist(seqnr: nat, nb: nat)
      requires Charted() && nb !in sys
      modifies `abk, `sys, `lost
      ensures Charted() && abk == old(abk)[seqnr := nb] && sys == old(sys) + {nb}
              && (seqnr !in old(abk) ==> lost == old(lost))
    {
      hide Chart;
      ChartMore(sys, fixed, abk, lost, seqnr, nb);
      lost := if seqnr in abk then lost + {abk[seqnr]} else lost;
      abk := abk[seqnr := nb];
      sys := sys + {nb};
    }

    method AttachAnodes(seqnr: nat, top: nat, nb: nat, x: Slot)
      requires Mid() && !Vacant(x) && seqnr == miss < MAX_SEQ && g.ipb > 0 && g.stride > 0
      requires top == Top(g.indexblocks, Quot(seqnr, g.ipb)) != 0
      requires nb != 0 && nb !in sys && nb !in flat.resFree && nb !in flat.dirs
      modifies `pending, `view, `flat, `abk, `sys, `lost, `datestamp
      ensures Mid() && sys == old(sys) + {nb}
      ensures flat == Flat(GrowTab(g, old(flat.tab), miss, x), old(flat.dirs), old(flat.free), old(flat.resFree))
      ensures miss !in old(abk) ==> lost == old(lost)
    {
      hide Chart, ReserveOf, SnapOk, CommOk, View, UniqueKeys, Quot, Rem, Enc, GrowTab, Vacant, Extends, GrowStore,
           Nonzero, Base;
      WithGrowthOk(g, Cur(), seqnr, nb, x);
      GrowExtends(g, dev, base, dabk, abk, miss, nb);
      RegisterAnodeBlock(seqnr, top, nb, x);
      datestamp := datestamp + 1;
      Enlist(seqnr, nb);
      flat := Flat(GrowTab(g, flat.tab, seqnr, x), flat.dirs, flat.free, flat.resFree);
    }

    /** Write slot `o` of the anode block of a committed sequence number. */
    method WriteSlot(q: nat, o: nat, x: Slot)
      requires Mid() && q in dabk && o < g.apb
      modifies `pending, `view, `flat
      ensures Mid() && flat == Flat(PutTab(old(flat.tab), Enc(g, q, o), x), old(flat.dirs), old(flat.free),
                                    old(flat.resFree))
    {
      hide Chart, ReserveOf, SnapOk, CommOk, View, UniqueKeys, Enc, PutTab;
      var b := Resolve(g, dev, q);
      Committed(g, dev, base, dabk, abk, miss, q);
      hide Extends, Resolve;
      WithSlotOk(g, Cur(), q, o, x);
      var ab := ReadRaw(b);
      Stage(b, AnodeBlk(ab.slots[o := x]));
      flat := Flat(PutTab(flat.tab, Enc(g, q, o), x), flat.dirs, flat.free, flat.resFree);
    }

    /** Rewrite (or, with an empty record, clear) an anode the committed table has. */
    method WriteAnode(nr: nat, x: Slot)
      requires Mid() && nr in base.tab
      modifies `pending, `view, `flat
      ensures Mid() && flat == Flat(PutTab(old(flat.tab), nr, x), old(flat.dirs), old(flat.free), old(flat.resFree))
    {
      CommittedAnode(g, dev, base, dabk, miss, nr);
      SplitInverse(g, nr);
      hide Mid, Enc, SeqOf, OffOf, PutTab;
      WriteSlot(SeqOf(g, nr), OffOf(g, nr), x);
    }

    /** The first vacant slot found through the committed index, or a new anode block when there
        is none. */
    method AllocAnode(x: Slot) returns (r: Result<nat>)
      requires Mid() && !Vacant(x)
      modifies `pending, `view, `resBitmap, `reservedFree, `flat, `abk, `sys, `lost, `datestamp
      ensures r.Ok? ==> Mid() && g.stride > 0
                        && AllocStep(g, CapSet(g, miss), miss, old(flat.tab), x, r.value, flat.tab)
      ensures r.Ok? ==> OnlyAnodes(old(flat), flat, old(sys), sys)
      ensures r.Ok? <==> Enough(g, miss, Left(g, miss, old(flat.tab)), |old(flat.resFree)|, 1, 0)
      ensures r.Ok? ==> |flat.resFree| == |old(flat.resFree)| - Over(1, Left(g, miss, old(flat.tab)))
      ensures r.Ok? ==> Tidy(miss, Left(g, miss, old(flat.tab)), 1, old(abk), old(lost), abk, lost)
      ensures unchanged(`dev, `root, `sect, `base, `dabk, `miss, `wit, `fs, `first, `log)
    {
      hide Chart, ReserveOf, SnapOk, Extends, View, UniqueKeys, Enc, SeqOf, OffOf, Resolve, Counted, Nonzero, Base,
           GrowTab, CapSet, CommOk, Vacant, Registrable, Left;
      MissBound(g, dev, base, dabk, miss);
      assert GeoOk(g) && SnapOk(g, Cur()) && CommOk(g, dev, base, dabk, miss);
      GeoFacts(g);
      CapStart(g, flat.tab);
      for seqnr := 0 to MAX_SEQ
        invariant unchanged(this) && Covers(CapSet(g, seqnr), flat.tab) && seqnr <= miss
      {
        var b := Resolve(g, dev, seqnr);
        if b == 0 {
          MissHere(g, dev, base, dabk, miss, seqnr);
          NoneLeftOver(g, miss, flat.tab);
          hide Mid;
          r := GrowAnodes(seqnr, x);
          return;
        }
        Committed2(g, dev, base, dabk, abk, miss, seqnr);
        BlockThere(g, Cur(), seqnr);
        var ab := ReadRaw(b);
        var o := FindVacant(g, seqnr, ab.slots);
        if o.Some? {
          FoundSlot(g, Cur(), seqnr, o.value, x, miss);
          SomeLeft(g, miss, flat.tab, Enc(g, seqnr, o.value));
          hide Mid;
          WriteSlot(seqnr, o.value, x);
          return Ok(Enc(g, seqnr, o.value));
        }
        SweepSlots(g, Cur(), seqnr);
      }
      NoneLeftOver(g, miss, flat.tab);
      assert !Registrable(g, miss) by { LastSequence(g, miss); }
      return Err(DiskFull);
    }

    // ---------------------------------------------------------------- chains

    /** The chain of `h` on the device, `p` being its anode numbers. */
    method GetChain(h: nat, ghost p: seq<nat>) returns (c: seq<Anode>)
      requires Tied() && IsPath(base.tab, h, p) && ANODE_EOF !in base.tab
      ensures IsChain(base.tab, p, c)
    {
      hide Chart, ReserveOf, SnapOk, View, UniqueKeys, Extends, IsPath;
      GeoFacts(g);
      var t := Reader(g, dev);
      PathReads(g, dev, base, dabk, miss, h, p);
      PathShort(g, dev, base, dabk, miss, h, p);
      var r := Anodes.GetChain(t, h);
      RunUnique(t, h, Nrs(r.value), p);
      c := r.value;
      ChainReads(g, dev, base, dabk, miss, h, p, c);
    }

    /** Group the blocks into runs and allocate one anode per run, last run first. */
    method CreateAnodeChain(blocks: seq<nat>) returns (r: Result<nat>, ghost p: seq<nat>, ghost rs: seq<Run>)
      requires Mid() && |blocks| > 0
      modifies `pending, `view, `resBitmap, `reservedFree, `flat, `abk, `sys, `lost, `datestamp
      ensures AllBlocks(rs) == blocks && Maximal(rs)
      ensures r.Ok? <==> Enough(g, miss, Left(g, miss, old(flat.tab)), |old(flat.resFree)|, |rs|, 0)
      ensures r.Ok? ==> |flat.resFree| == |old(flat.resFree)| - Over(|rs|, Left(g, miss, old(flat.tab)))
      ensures r.Ok? ==> Tidy(miss, Left(g, miss, old(flat.tab)), |rs|, old(abk), old(lost), abk, lost)
      ensures r.Ok? ==> Mid() && OnlyAnodes(old(flat), flat, old(sys), sys) && |p| == |rs| > 0 && p[0] == r.value
      ensures r.Ok? ==> g.stride > 0 && Built(g, CapSet(g, miss), miss, old(flat.tab), rs, p, flat.tab)
      ensures unchanged(`dev, `root, `sect, `base, `miss, `wit, `fs, `first, `log)
    {
      hide Mid, OnlyAnodes, CapSet, Built, Maximal, AllBlocks, Left, Enough, Over, ChainSoFar, Tidy;
      var runs := Group(blocks);
      rs, p := runs, [];
      var next, i := ANODE_EOF, |runs|;
      ChainStart();
      assert runs[i..] == [];
      while i > 0
        invariant 0 <= i <= |runs| && |p| == |runs| - i && next == (if |p| > 0 then p[0] else ANODE_EOF)
        invariant unchanged(`dev, `root, `sect, `base, `miss, `wit, `fs, `first, `log)
        invariant Mid() && ChainSoFar(old(flat), old(sys), old(abk), old(lost), runs[i..], p)
      {
        i := i - 1;
        assert runs[i].count > 0 by { RunCounts(runs, i); }
        assert runs[i..] == [runs[i]] + runs[i + 1..];
        var a := AddRun(runs[i], next, old(flat), old(sys), old(abk), old(lost), runs[i + 1..], p, i);
        if a.Err? { return Err(DiskFull), p, rs; }
        next := a.value;
        p := [a.value] + p;
      }
      assert runs[0..] == runs;
      ChainEnd(old(flat), old(sys), old(abk), old(lost), runs, p);
      return Ok(next), p, rs;
    }

    lemma ChainStart()
      requires Mid()
      ensures ChainSoFar(flat, sys, abk, lost, [], [])
    {
      hide Chart, ReserveOf, SnapOk, Ov, CommOk, Extends, Counted, Nonzero, Base, CapSet, Left;
      GeoFacts(g);
      BuiltNil(g, CapSet(g, miss), miss, flat.tab, []);
      OnlyAnodesRefl(flat, sys);
      SpentNone(g, miss, Left(g, miss, flat.tab), |flat.resFree|);
      TidyNone(miss, Left(g, miss, flat.tab), abk, lost);
    }

    lemma ChainEnd(f: Flat, s: set<nat>, a: Link, l: set<nat>, rs: seq<Run>, p: seq<nat>)
      requires ChainSoFar(f, s, a, l, rs, p)
      ensures Tidy(miss, Left(g, miss, f.tab), |rs|, a, l, abk, lost)
      ensures g.stride > 0 && OnlyAnodes(f, flat, s, sys) && Built(g, CapSet(g, miss), miss, f.tab, rs, p, flat.tab)
      ensures Enough(g, miss, Left(g, miss, f.tab), |f.resFree|, |rs|, 0)
      ensures |flat.resFree| == |f.resFree| - Over(|rs|, Left(g, miss, f.tab))
    {
      hide Built, CapSet, Left, Registrable, OnlyAnodes, Tidy;
    }

    /** Anodes for the last runs have been allocated since the metadata was `f`, the system blocks were `s`,
        the anode blocks `a` and the lost ones `l`. */
    ghost predicate ChainSoFar(f: Flat, s: set<nat>, a: Link, l: set<nat>, rs: seq<Run>, p: seq<nat>)
      reads this
    {
      && g.stride > 0 && OnlyAnodes(f, flat, s, sys) && Built(g, CapSet(g, miss), miss, f.tab, rs, p, flat.tab)
      && Spent(g, miss, Left(g, miss, f.tab), |f.resFree|, |rs|, |flat.resFree|)
         && Tidy(miss, Left(g, miss, f.tab), |rs|, a, l, abk, lost)
    }

    /** One more run in front. */
    method AddRun(run: Run, next: nat, ghost f: Flat, ghost s: set<nat>, ghost a: Link, ghost l: set<nat>,
                  ghost rs: seq<Run>, ghost p: seq<nat>, ghost more: nat)
        returns (r: Result<nat>)
      requires Mid() && ChainSoFar(f, s, a, l, rs, p) && run.count > 0 && |p| == |rs|
               && next == (if |p| > 0 then p[0] else ANODE_EOF)
      modifies `pending, `view, `resBitmap, `reservedFree, `flat, `abk, `sys, `lost, `datestamp
      ensures r.Ok? ==> Mid() && ChainSoFar(f, s, a, l, [run] + rs, [r.value] + p)
      ensures r.Err? ==> !Enough(g, miss, Left(g, miss, f.tab), |f.resFree|, |rs| + 1 + more, 0)
      ensures unchanged(`dev, `root, `sect, `base, `dabk, `miss, `wit, `fs, `first, `log)
    {
      hide Chart, ReserveOf, SnapOk, Ov, CommOk, Extends, Counted, Nonzero, Base, OnlyAnodes, CapSet, AllocStep, Built,
           Registrable, Left, Enough, Over, Spent, Vacant, Tidy;
      assert GeoOk(g);
      hide Mid, GeoOk;
      ghost var f1, s1, a1, l1 := flat, sys, abk, lost;
      assert Left(g, miss, f1.tab) == Over(Left(g, miss, f.tab), |rs|) by { LeftAfter(g, miss, f.tab, rs, p, f1.tab); }
      SpentMore(g, miss, f.tab, rs, p, flat.tab, |f.resFree|, |flat.resFree|, more);
      assert !Vacant(Slot(run.count, run.start, next)) by { RunOccupied(run, next); }
      r := AllocAnode(Slot(run.count, run.start, next));
      if r.Err? { return; }
      OnlyAnodesTrans(f, f1, flat, s, s1, sys);
      TidyMore(miss, Left(g, miss, f.tab), |rs|, 1, a, l, a1, l1, abk, lost);
      assert ([run] + rs)[1..] == rs;
      BuiltCons(g, CapSet(g, miss), miss, f.tab, [run] + rs, p, f1.tab, r.value, flat.tab);
    }

    /** Point the last anode of the committed chain of `h` at `newHead`. */
    method AppendToChain(h: nat, newHead: nat, ghost p: seq<nat>)
      requires Mid() && IsPath(base.tab, h, p) && ANODE_EOF !in base.tab
      modifies `pending, `view, `flat
      ensures Mid() && flat == Flat(PutTab(old(flat.tab), Last(p), base.tab[Last(p)].(next := newHead)), old(flat.dirs),
                                    old(flat.free), old(flat.resFree))
      ensures unchanged(`dev, `root, `sect, `base, `dabk, `miss, `wit, `fs, `first, `log)
    {
      hide Chart, ReserveOf, SnapOk, Ov, CommOk, Extends, Counted, PutTab;
      var c := GetChain(h, p);
      var tail := c[|c| - 1];
      hide Mid;
      WriteAnode(tail.nr, tail.slot.(next := newHead));
    }

    /** Free the blocks `lo` to `hi` of an extent starting at `b`. */
    method FreeExtent(b: nat, lo: nat, hi: nat)
      requires Mid() && lo <= hi && CanFree(g, flat.free, b + lo, b + hi)
      modifies `pending, `view, `dataBm, `blocksFree, `flat
      ensures Mid() && flat == Flat(old(flat.tab), old(flat.dirs), old(flat.free) + Range(b + lo, b + hi),
                                    old(flat.resFree))
    {
      hide Mid;
      ghost var f := flat;
      assert f.free + Range(b + lo, b + lo) == f.free;
      for i := lo to hi
        invariant Mid() && flat == Flat(f.tab, f.dirs, f.free + Range(b + lo, b + i), f.resFree)
      {
        assert InData(g, b + i) && b + i !in f.free;
        FreeDataBlock(b + i);
        assert f.free + Range(b + lo, b + i) + {b + i} == f.free + Range(b + lo, b + i + 1);
      }
    }

    /** Free all blocks of a list of anodes and clear their slots. */
    method FreeAndClear(c: seq<Anode>)
      requires Mid() && Releasable(g, flat.free, c) && forall i :: 0 <= i < |c| ==> c[i].nr in base.tab
      modifies `pending, `view, `dataBm, `blocksFree, `flat
      ensures Mid() && flat == Flat(old(flat.tab) - Elems(Nrs(c)), old(flat.dirs), old(flat.free) + CoverSet(c),
                                    old(flat.resFree))
      ensures unchanged(`base)
    {
      hide Mid, Elems, Nrs, CoverSet, Releasable;
      ghost var f := flat;
      assert c[..0] == [];
      CoverStart(f);
      for i := 0 to |c|
        invariant Mid() && flat == Flat(f.tab - Elems(Nrs(c[..i])), f.dirs, f.free + CoverSet(c[..i]), f.resFree)
      {
        CoverNext(g, f, c, i);
        FreeExtent(c[i].slot.blk, 0, c[i].slot.size);
        WriteAnode(c[i].nr, EMPTY_SLOT);
      }
      assert c[..|c|] == c;
    }

    /** Keep the first `keep` blocks of the committed chain of `h`: the rest is freed and the
        anodes behind the cut are cleared. */
    method TruncateChain(h: nat, keep: nat, ghost p: seq<nat>) returns (ghost k: nat, ghost m: nat)
      requires Mid() && flat == base && IsPath(base.tab, h, p) && ANODE_EOF !in base.tab
      requires ReleasablePath(g, base.tab, base.free, p)
      modifies `pending, `view, `dataBm, `blocksFree, `flat
      ensures Mid() && flat.dirs == base.dirs && flat.resFree == base.resFree
      ensures keep > |Blocks(base.tab, p)| ==> flat == base
      ensures keep == 0 ==> flat.tab == base.tab - Elems(p) && flat.free == base.free + PathCover(base.tab, p, 0)
      ensures 0 < keep <= |Blocks(base.tab, p)| ==> IsCut(base, flat, p, k, m, keep)
    {
      assert |p| > 0;
      hide Chart, ReserveOf, SnapOk, Ov, CommOk, Extends, Counted, Blocks, PathCover, ReleasablePath, Elems, IsPath,
           Nonzero, GeoOk, Base, IsCut;
      var c := GetChain(h, p);
      hide Mid;
      var remaining: nat := keep;
      k, m := 0, 0;
      assert p[..0] == [] && p[0..] == p;
      EmptyBlocks(base.tab);
      for idx := 0 to |c|
        invariant unchanged(this) && IsChain(base.tab, p, c)
        invariant remaining == keep - |Blocks(base.tab, p[..idx])| && (idx > 0 ==> remaining > 0)
      {
        BlocksStep(base.tab, p, idx);
        if remaining == 0 {
          ReleaseFrom(g, base.tab, base.free, p, c, idx);
          FreeAndClear(c[idx..]);
          return;
        } else if remaining < c[idx].slot.size {
          k, m := idx + 1, remaining;
          CutInside(h, p, c, idx, remaining, keep);
          return;
        }
        remaining := remaining - c[idx].slot.size;
        if remaining == 0 {
          k, m := idx + 1, c[idx].slot.size;
          CutAfter(h, p, c, idx, keep);
          return;
        }
      }
      assert p[..|c|] == p;
    }

    /** The cut falls inside extent `idx`: free its tail, shrink it, drop the rest. */
    method CutInside(ghost h: nat, ghost p: seq<nat>, c: seq<Anode>, idx: nat, m: nat, ghost keep: nat)
      requires Mid() && flat == base && IsPath(base.tab, h, p) && IsChain(base.tab, p, c)
               && ReleasablePath(g, base.tab, base.free, p)
      requires idx < |c| && 0 < m < c[idx].slot.size && |Blocks(base.tab, p[..idx])| + m == keep
      modifies `pending, `view, `dataBm, `blocksFree, `flat
      ensures Mid() && flat.dirs == base.dirs && flat.resFree == base.resFree && IsCut(base, flat, p, idx + 1, m, keep)
      ensures unchanged(`base)
    {
      hide Mid, IsCut, PutTab, Elems, Nrs, CoverSet, Range, ReleasablePath, Releasable, CanFree, IsPath, Blocks;
      CutBoth(g, base, h, p, c, idx + 1, m, keep);
      FreeExtent(c[idx].slot.blk, m, c[idx].slot.size);
      WriteAnode(c[idx].nr, Slot(m, c[idx].slot.blk, ANODE_EOF));
      SuffixIn(base.tab, p, c, idx + 1);
      FreeAndClear(c[idx + 1..]);
    }

    /** The cut falls after extent `idx`: it becomes the tail, the rest is dropped. */
    method CutAfter(ghost h: nat, ghost p: seq<nat>, c: seq<Anode>, idx: nat, ghost keep: nat)
      requires Mid() && flat == base && IsPath(base.tab, h, p) && IsChain(base.tab, p, c)
               && ReleasablePath(g, base.tab, base.free, p)
      requires idx < |c| && 0 < c[idx].slot.size && |Blocks(base.tab, p[..idx])| + c[idx].slot.size == keep
      modifies `pending, `view, `dataBm, `blocksFree, `flat
      ensures Mid() && flat.dirs == base.dirs && flat.resFree == base.resFree
              && IsCut(base, flat, p, idx + 1, c[idx].slot.size, keep)
      ensures unchanged(`base)
    {
      hide Mid, IsCut, PutTab, Elems, Nrs, CoverSet, Range, ReleasablePath, Releasable, CanFree, IsPath, Blocks;
      CutBoth(g, base, h, p, c, idx + 1, c[idx].slot.size, keep);
      WriteAnode(c[idx].nr, Slot(c[idx].slot.size, c[idx].slot.blk, ANODE_EOF));
      SuffixIn(base.tab, p, c, idx + 1);
      FreeAndClear(c[idx + 1..]);
    }

    // ---------------------------------------------------------------- directories

    /** The first entry with this name in the committed chain of directory `d`, read through the
        staged blocks. */
    method FindEntry(d: nat, name: Name, ghost p: seq<nat>) returns (r: Option<(nat, nat)>)
      requires Tied() && IsPath(base.tab, d, p) && ANODE_EOF !in base.tab && AllIn(Blocks(base.tab, p), flat.dirs)
      ensures r.Some? ==> Named(flat.dirs, Blocks(base.tab, p), r.value.0, r.value.1, name)
      ensures r.None? ==> NoneNamed(flat.dirs, Blocks(base.tab, p), name)
    {
      hide BmIndexTie, TabTie, BmTie, FreeTie, ResTie, SysTie, Sep, CommOk, Extends, View, UniqueKeys, IsPath, Blocks,
           BlockList, NameEqCi, GeoOk;
      var c := GetChain(d, p);
      BlockListIs(base.tab, p, c);
      var bl := BlockList(c);
      for i := 0 to |bl|
        invariant NoneNamed(flat.dirs, bl[..i], name)
      {
        var blk := ReadRaw(bl[i]);
        var k := FindName(blk.ents, name);
        if k < |blk.ents| { return Some((bl[i], k)); }
        NoneNamedStep(flat.dirs, bl, i, name);
      }
      assert bl[..|bl|] == bl;
      return None;
    }

    /** Rewrite a directory block. */
    method StageDir(b: nat, es: seq<Entry>)
      requires Mid() && b !in sys && b !in flat.resFree && b != 0 && ResAligned(g, b, |resBitmap|)
      modifies `pending, `view, `flat, `datestamp
      ensures Mid() && flat == Flat(old(flat.tab), old(flat.dirs)[b := es], old(flat.free), old(flat.resFree))
    {
      hide Chart, ReserveOf, SnapOk, CommOk, View, UniqueKeys, Extends, ResAligned;
      WithDirOk(g, Cur(), b, es);
      datestamp := datestamp + 1;
      Stage(b, DirBlk(es));
      flat := Flat(flat.tab, flat.dirs[b := es], flat.free, flat.resFree);
    }

    method RewriteDir(b: nat, es: seq<Entry>)
      requires Mid() && b in flat.dirs
      modifies `pending, `view, `flat, `datestamp
      ensures Mid() && flat == Flat(old(flat.tab), old(flat.dirs)[b := es], old(flat.free), old(flat.resFree))
    {
      DirIsLoose(g, Cur(), b);
      hide Mid;
      StageDir(b, es);
    }

    /** Add an entry to the first block of the committed chain of `d` with room, or to a new
        block appended to that chain. Fails exactly when there is neither room nor enough for a new
        block and its anode. */
    method AddDirEntry(d: nat, e: Entry, ghost p: seq<nat>) returns (r: Result<()>, ghost pl: Placed)
      requires Mid() && IsPath(base.tab, d, p) && ANODE_EOF !in base.tab && AllIn(Blocks(base.tab, p), flat.dirs)
      modifies `pending, `view, `resBitmap, `reservedFree, `flat, `abk, `sys, `lost, `datestamp
      ensures r.Ok? <==> HasRoom(g.rbs, old(flat.dirs), Blocks(base.tab, p), e) || RoomFor(g, miss, old(flat), 1, 1)
      ensures r.Ok? ==> Mid()
      ensures r.Ok? && Placeable(g, miss, base.tab, old(flat), p, e) ==>
              PlacedOk(old(flat), Blocks(base.tab, p), pl) && flat == PlaceFlat(old(flat), p, e, pl)
              && sys == PlaceSys(old(sys), pl)
      ensures r.Ok? && Placeable(g, miss, base.tab, old(flat), p, e)
              && !HasRoom(g.rbs, old(flat.dirs), Blocks(base.tab, p), e) ==>
              pl.NewBlock?
      ensures HasRoom(g.rbs, old(flat.dirs), Blocks(base.tab, p), e) ==>
              && pl.InBlock? && PlacedOk(old(flat), Blocks(base.tab, p), pl) && flat == PlaceFlat(old(flat), p, e, pl)
              && sys == old(sys) && abk == old(abk) && lost == old(lost)
      ensures r.Ok? && !HasRoom(g.rbs, old(flat.dirs), Blocks(base.tab, p), e) ==>
              Extension(g, miss, base.tab, Last(p), old(flat), flat, e, pl)
      ensures r.Ok? && Fitted(g.rbs, old(flat.dirs)) && SnugIn(g.rbs, e) ==> Fitted(g.rbs, flat.dirs)
      ensures r.Ok? && miss !in old(abk) ==> lost == old(lost)
      ensures unchanged(`dev, `root, `sect, `base, `dabk, `miss, `wit, `fs, `first, `log)
    {
      hide BmIndexTie, TabTie, BmTie, FreeTie, ResTie, SysTie, Sep, CommOk, Extends, View, UniqueKeys, IsPath, Blocks,
           BlockList, Fits, Counted, GeoOk, Supply, CapSet, Agree, RoomFor, Fitted, Snug;
      pl := InBlock(0);
      var c := GetChain(d, p);
      BlockListIs(base.tab, p, c);
      var bl := BlockList(c);
      for i := 0 to |bl|
        invariant unchanged(this) && forall j :: 0 <= j < i ==> !Fits(g.rbs, flat.dirs[bl[j]], e)
      {
        var blk := ReadRaw(bl[i]);
        if Fits(g.rbs, blk.ents, e) {
          pl := InBlock(bl[i]);
          if Fitted(g.rbs, flat.dirs) && SnugIn(g.rbs, e) { FittedAdd(g.rbs, flat.dirs, bl[i], e); }
          hide Mid;
          RewriteDir(bl[i], blk.ents + [e]);
          return Ok(()), pl;
        }
      }
      hide Mid;
      r, pl := ExtendDir(d, e, p);
    }

    /** Put the entry in a new directory block and append that block to the chain of `d`. */
    method ExtendDir(d: nat, e: Entry, ghost p: seq<nat>) returns (r: Result<()>, ghost pl: Placed)
      requires Mid() && IsPath(base.tab, d, p) && ANODE_EOF !in base.tab
      modifies `pending, `view, `resBitmap, `reservedFree, `flat, `abk, `sys, `lost, `datestamp
      ensures r.Ok? <==> RoomFor(g, miss, old(flat), 1, 1)
      ensures r.Ok? ==> Mid() && Extension(g, miss, base.tab, Last(p), old(flat), flat, e, pl)
      ensures r.Ok? && Fitted(g.rbs, old(flat.dirs)) && SnugIn(g.rbs, e) ==> Fitted(g.rbs, flat.dirs)
      ensures r.Ok? && miss !in old(abk) ==> lost == old(lost)
      ensures r.Ok? && Agree(base.tab, old(flat.tab), p) && ANODE_EOF !in old(flat.tab)
              && NumberLeft(g, miss, old(flat)) ==>
              && pl.NewBlock? && PlacedOk(old(flat), [], pl)
              && flat == PlaceFlat(old(flat), p, e, pl) && sys == PlaceSys(old(sys), pl)
    {
      hide Chart, ReserveOf, SnapOk, Ov, CommOk, Extends, Counted, Nonzero, Base, Supply, CapSet, AllocStep, Agree,
           PlaceFlat, PlaceSys, Vacant, OnlyAnodes, Left, Enough, Over, Extension, PutTab, Fitted, SnugIn;
      ghost var f, s := flat, sys;
      CommNotVacant(g, dev, base, dabk, miss, Last(p));
      assert Last(p) in base.tab && GeoOk(g);
      EnoughSplit(g, miss, Left(g, miss, f.tab), |f.resFree|, 0, 1, 1, 0);
      EnoughBlock(g, miss, Left(g, miss, f.tab), |f.resFree|);
      hide Mid, IsPath, GeoOk, Last;
      pl := InBlock(0);
      var nb := NewDirBlock([e]);
      if nb.Err? { return Err(DiskFull), pl; }
      OneLess(f.resFree, nb.value);
      ghost var f1 := flat;
      assert !Vacant(Slot(1, nb.value, ANODE_EOF)) by { OneBlock(nb.value); }
      var a := AllocAnode(Slot(1, nb.value, ANODE_EOF));
      if a.Err? { return Err(DiskFull), pl; }
      ghost var f2 := flat;
      pl := NewBlock(nb.value, a.value, f1.resFree - f2.resFree);
      if Agree(base.tab, f.tab, p) && ANODE_EOF !in f.tab && NumberLeft(g, miss, f) {
        NewAnode(g, miss, f1.tab, Slot(1, nb.value, ANODE_EOF), a.value, flat.tab);
        ExtendFlat(f, f1, f2, base.tab, d, p, e, nb.value, a.value, s, sys);
      }
      assert f2.dirs == f1.dirs by { OnlyAnodesParts(f1, f2, s, sys); }
      assert !Vacant(base.tab[Last(p)].(next := a.value)) by { StillOccupied(base.tab[Last(p)], a.value); }
      AppendToChain(d, a.value, p);
      Extended1(g, miss, base.tab, f, f2, flat, Last(p), base.tab[Last(p)].(next := a.value), e, nb.value, a.value,
                f1.resFree - f2.resFree);
      if Fitted(g.rbs, f.dirs) && SnugIn(g.rbs, e) { FittedNew(g.rbs, f.dirs, nb.value, e); }
      return Ok(()), pl;
    }

    /** Take a reserved block and make it a directory block. */
    method NewDirBlock(es: seq<Entry>) returns (r: Result<nat>)
      requires Mid()
      modifies `pending, `view, `resBitmap, `reservedFree, `flat, `datestamp
      ensures r.Ok? ==> Mid() && GeoOk(g) && r.value in old(flat.resFree) &&
                        flat == Flat(old(flat.tab), old(flat.dirs)[r.value := es], old(flat.free),
                                     old(flat.resFree) - {r.value})
      ensures r.Ok? <==> |old(flat.resFree)| > 0
    {
      assert SnapOk(g, Cur()) && GeoOk(g);
      hide Chart, ReserveOf, SnapOk, Tied, GeoOk, Counted, ResAligned;
      r := AllocReserved();
      if r.Err? { return; }
      TakenIsLoose(g, Cur(), r.value, old(Cur()));
      hide Mid;
      StageDir(r.value, es);
    }

    /** Remove the first entry with this name. */
    method RemoveDirEntry(d: nat, name: Name, ghost p: seq<nat>) returns (r: Result<(nat, nat)>)
      requires Mid() && IsPath(base.tab, d, p) && ANODE_EOF !in base.tab && AllIn(Blocks(base.tab, p), flat.dirs)
      modifies `pending, `view, `flat, `datestamp
      ensures r.Err? ==> NoneNamed(old(flat.dirs), Blocks(base.tab, p), name)
      ensures r.Ok? ==> Mid() && Named(old(flat.dirs), Blocks(base.tab, p), r.value.0, r.value.1, name)
      ensures r.Ok? ==> flat == Flat(old(flat.tab),
                                     old(flat.dirs)[r.value.0 := Without(old(flat.dirs)[r.value.0], r.value.1)],
              old(flat.free), old(flat.resFree))
      ensures unchanged(`dev, `root, `sect, `base, `dabk, `miss, `wit, `fs, `first, `log)
    {
      hide Chart, ReserveOf, SnapOk, CommOk, Extends, Ov, IsPath, Blocks, NameEqCi, GeoOk, Counted, NoneNamed;
      var at := FindEntry(d, name, p);
      if at.None? { return Err(NotFound); }
      var (b, i) := at.value;
      DirInView(g, Cur(), b);
      var blk := ReadRaw(b);
      hide Mid;
      RewriteDir(b, Without(blk.ents, i));
      return Ok((b, i));
    }

    /** Patch the recorded size and date of the first entry with this name. */
    method UpdateSize(d: nat, name: Name, size: nat, stamp: Stamp, ghost p: seq<nat>) returns (r: Result<(nat, nat)>)
      requires Mid() && IsPath(base.tab, d, p) && ANODE_EOF !in base.tab && AllIn(Blocks(base.tab, p), flat.dirs)
      modifies `pending, `view, `flat, `datestamp
      ensures r.Err? ==> NoneNamed(old(flat.dirs), Blocks(base.tab, p), name)
      ensures r.Ok? ==> Mid() && Named(old(flat.dirs), Blocks(base.tab, p), r.value.0, r.value.1, name)
      ensures r.Ok? ==> var (b, i) := r.value; var es := old(flat.dirs)[b];
                        flat == Flat(old(flat.tab), old(flat.dirs)[b := es[i := PatchSize(es[i], size, stamp)]],
                                     old(flat.free), old(flat.resFree))
      ensures unchanged(`dev, `root, `sect, `base, `dabk, `miss, `wit, `fs, `first, `log)
    {
      hide Chart, ReserveOf, SnapOk, CommOk, Extends, Ov, IsPath, Blocks, NameEqCi, GeoOk, Counted, NoneNamed,
           PatchSize;
      var at := FindEntry(d, name, p);
      if at.None? { return Err(NotFound); }
      var (b, i) := at.value;
      DirInView(g, Cur(), b);
      var blk := ReadRaw(b);
      hide Mid;
      RewriteDir(b, blk.ents[i := PatchSize(blk.ents[i], size, stamp)]);
      return Ok((b, i));
    }

    // ---------------------------------------------------------------- commit

    method FlushPending()
      requires Ov()
      modifies `dev, `pending
      ensures Ov() && dev == view && pending == []
      ensures unchanged(`view, `abk, `flat, `sys, `dataBm, `resBitmap, `blocksFree, `reservedFree, `datestamp)
    {
      dev := Overlay.Flush(dev, pending);
      pending := [];
    }

    /** Write everything staged, then the root cluster with counters and reserved bitmap. */
    method Commit()
      requires Mid()
      modifies `dev, `root, `pending, `datestamp, `base, `dabk, `miss
      ensures Mid() && Settled() && (old(abk) == old(dabk) ==> miss == old(miss))
      ensures root.datestamp == datestamp == old(datestamp) + 1 && root.datestamp > old(root.datestamp)
    {
      hide BmIndexTie, TabTie, DirTie, BmTie, FreeTie, ResTie, SysTie, Sep, View, UniqueKeys, GeoOk, Nonzero, Base,
           CommOk, Extends, FirstMissing, Charted;
      ghost var m := FirstMissing(abk, MAX_SEQ);
      CommitOk(g, view, flat, abk, dabk, dev, base, miss, m);
      if abk == dabk { SameMiss(g, dev, base, dabk, miss, view, flat, m); }
      hide SnapOk;
      FlushPending();
      datestamp := datestamp + 1;
      root := Root(datestamp, reservedFree, blocksFree, resBitmap, tail);
      base, dabk, miss := flat, abk, m;
    }

    // ---------------------------------------------------------------- creating a file

    /** Write consecutive pieces of `data` to the sectors of `bl`. */
    method PutSectors(bl: seq<nat>, data: Bytes, off: nat)
      requires Mid()
      modifies `sect
      ensures Mid() && sect == WriteSome(g.bs, old(sect), bl, data, off, |bl|)
    {
      hide Pad, SnapOk, View, UniqueKeys, CommOk, Extends, Nonzero, GeoOk, Base;
      for i := 0 to |bl|
        invariant Mid() && sect == WriteSome(g.bs, old(sect), bl, data, off, i)
      {
        sect := sect[bl[i] := Pad(data, off + i * g.bs, g.bs)];
      }
    }

    /** Allocate `count` blocks, write `data` from `off` to them, and build an anode chain for them.
        Fails exactly when blocks or anodes do not suffice. With two runs more than there are vacant
        slots it succeeds all the same, and the head of the chain points at itself. */
    method StoreData(count: nat, data: Bytes, off: nat, ghost o: Own, ghost extra: nat)
        returns (r: Result<nat>, ghost p: seq<nat>, ghost rs: seq<Run>, ghost grown: set<nat>, ghost bl: seq<nat>)
      requires Mid() && count > 0 && o.f == flat && o.sys == sys && ANODE_EOF !in flat.tab && g.stride > 0
      modifies `pending, `view, `dataBm, `blocksFree, `resBitmap, `reservedFree, `flat, `abk, `sys, `lost, `datestamp,
        `sect
      ensures Elems(bl) <= o.f.free && sect == WriteSome(g.bs, old(sect), bl, data, off, |bl|)
      ensures r.Ok? <==> CanStore(g, miss, o.f, count)
      ensures r.Ok? ==> Mid() && |p| == |rs| == RunsFor(o.f.free, count) > 0 && r.value == p[0] && bl == AllBlocks(rs)
                        && |bl| == count
      ensures r.Ok? ==> Stored(o, bl, grown) && Left(g, miss, flat.tab) == Over(Left(g, miss, o.f.tab), |rs|)
      ensures r.Ok? ==> |flat.resFree| == |o.f.resFree| - Over(|rs|, Left(g, miss, o.f.tab))
      ensures r.Ok? ==> Tidy(miss, Left(g, miss, o.f.tab), |rs|, old(abk), old(lost), abk, lost)
      ensures r.Ok? && Affordable(o.f.free, count, extra, Supply(g, CapSet(g, miss), miss, o.f.tab)) ==>
              && NewChain(o, p, rs, grown) && flat.tab == o.f.tab + ChainTab(p, rs)
              && Supply(g, CapSet(g, miss), miss, flat.tab) >= extra && ANODE_EOF !in flat.tab
      ensures r.Ok? && RunsFor(o.f.free, count) >= Left(g, miss, o.f.tab) + 2 ==>
              PointsAtItself(flat.tab, r.value) && (Ungrown(g, miss, o.f.tab) ==> r.value !in o.f.tab)
      ensures r.Ok? && Ungrown(g, miss, o.f.tab) ==> KeepsAnodes(o.f.tab, flat.tab)
      ensures r.Ok? && RunsFor(o.f.free, count) >= Left(g, miss, o.f.tab) + 1 ==>
                r.value == Enc(g, miss, ANODE_USERFIRST)
      ensures unchanged(`dev, `root, `base, `miss, `wit, `fs, `first, `log)
    {
      hide Chart, ReserveOf, SnapOk, Ov, CommOk, Extends, Counted, Nonzero, Base, Supply, CapSet, Affordable, WriteSome,
           NewChain, ChainTab, FirstFit, Built, AllBlocks,
           Maximal, OnlyAnodes, Elems, Left, Enough, Over, RunsFor, Tidy, Ungrown, KeepsAnodes, Enc;
      hide Mid, GeoOk, Less;
      Strided();
      p, rs, grown, bl := [], [], {}, [];
      NothingWritten(g.bs, sect, data, off, o.f.free);
      var blocks := AllocDataBlocks(count);
      if blocks.Err? { return Err(DiskFull), p, rs, grown, bl; }
      bl := blocks.value;
      FirstFitElems(o.f.free, bl);
      PutSectors(blocks.value, data, off);
      ghost var f := flat;
      r, p, rs := CreateAnodeChain(blocks.value);
      RunsForIs(o.f.free, count, bl, rs);
      if r.Err? { return; }
      grown := f.resFree - flat.resFree;
      ChainTop(g, miss, o.f.tab, rs, p, flat.tab);
      LeftAfter(g, miss, o.f.tab, rs, p, flat.tab);
      OnlyAnodesParts(f, flat, o.sys, sys);
      if Affordable(o.f.free, count, extra, Supply(g, CapSet(g, miss), miss, o.f.tab)) {
        AffordableRuns(o.f.free, count, extra, Supply(g, CapSet(g, miss), miss, o.f.tab), bl, rs);
        BuiltNewChain(g, o, miss, rs, p, flat.tab, grown);
      }
      if |rs| >= Left(g, miss, o.f.tab) + 2 { HeadLoops(g, miss, o.f.tab, rs, p, flat.tab); }
    }

    /** Blocks `bl` are taken, and the reserved blocks `grown` hold anodes. */
    ghost predicate Stored(o: Own, bl: seq<nat>, grown: set<nat>)
      reads this
    {
      && flat == Flat(flat.tab, o.f.dirs, o.f.free - Elems(bl), o.f.resFree - grown) && sys == o.sys + grown
         && grown <= o.f.resFree
    }

    /** Commit an operation whose outcome is the ownership state `o`. */
    method Finish(ghost o: Own, ghost op: Op)
      requires Mid() && Logged() && Tidied() && o.f == flat && o.sys == sys && o.fl == {} && SpecStep(fs, op, o.fs)
               && Inv(g, o, sect)
      modifies `dev, `root, `pending, `datestamp, `base, `dabk, `miss, `wit, `fs, `log
      ensures Valid() && Owned() == o && Logs(old(first), old(log), op)
      ensures old(abk) == old(dabk) ==> miss == old(miss)
      ensures LaterThan(old(root), root, true)
    {
      hide Chart, ReserveOf, SnapOk, View, UniqueKeys, CommOk, Extends, Nonzero, GeoOk, Base, Inv, Ov, SpecStep, Legal,
           After, Counted;
      Commit();
      Adopt(o, op);
    }

    ghost method Adopt(o: Own, op: Op)
      requires Mid() && Settled() && Logged() && Tidied() && o.f == flat && o.sys == sys && o.fl == {}
               && SpecStep(fs, op, o.fs) && Inv(g, o, sect)
      modifies `wit, `fs, `log
      ensures Valid() && Owned() == o && Logs(old(first), old(log), op)
    {
      hide Chart, ReserveOf, SnapOk, View, UniqueKeys, CommOk, Extends, Nonzero, GeoOk, Base, Inv, SpecStep, Legal,
           After;
      LegalMore(first, log, op, o.fs);
      wit, fs, log := o.w, o.fs, log + [Event(op, o.fs)];
    }

    /** Create a file under what is kept of the name. It succeeds exactly when blocks, slots and reserved
        blocks suffice. Its head then reads back as `data` exactly when the anodes needed get different
        numbers; otherwise the head points at itself, or has become the anode of the directory's new block.
        Under a name in use the directory lists the name twice. The metadata has a consistent reading only
        if neither happens, and then nothing else changed; no anode there was changes in any case, apart
        from the directory's last. On failure nothing visible changed. */
    method CreateFile(d: nat, name: Name, data: Bytes, stamp: Stamp)
        returns (r: Result<()>, ghost h: nat, ghost nb: nat)
      requires Valid() && d in wit.dh && g.bs > 0
      modifies this
      ensures r.Ok? <==> CanCreate(g, old(miss), old(Owned()), d, ShortName(name), |data|, stamp)
      ensures r.Ok? ==> Mid() && Settled()
      ensures r.Ok? ==> (ReadsAs(g, flat.tab, sect, h, data) <==>
                           Numbered(g, old(miss), old(Owned()), d, ShortName(name), |data|, stamp))
      ensures r.Ok? && CleanCreate(g, old(miss), old(Owned()), d, ShortName(name), |data|, stamp) ==>
              && Valid() && h !in old(flat.tab)
                 && fs == old(fs)[(d, Canon(ShortName(name))) := NewObj(h, ShortName(name), data)]
              && Logs(old(first), old(log), WriteOp((d, Canon(ShortName(name))), ShortName(name), data))
      ensures r.Ok? && LoopingCreate(g, old(miss), old(Owned()), d, ShortName(name), |data|, stamp) ==>
                PointsAtItself(flat.tab, h)
      ensures r.Ok? && GapCreate(g, old(miss), old(Owned()), d, ShortName(name), |data|, stamp) ==>
              Usurped(flat, h, nb, BuildEntry(ShortName(name), ST_FILE, h, |data|, 0, stamp))
      ensures r.Ok? && DoubleCreate(g, old(miss), old(Owned()), d, ShortName(name), |data|, stamp) ==>
                TwoNamed(flat, d, ShortName(name))
      ensures r.Ok? ==> (HasReading(g, flat, sect) <==>
                           CleanCreate(g, old(miss), old(Owned()), d, ShortName(name), |data|, stamp))
      ensures r.Ok? ==> KeepsBut(old(flat.tab), flat.tab, TailOf(old(Owned()), d))
      ensures r.Err? ==> dev == old(dev) && root == old(root)
      ensures Inv(g, old(Owned()), sect)
      ensures LaterThan(old(root), root, r.Ok?)
      ensures r.Ok? ==> Dated(flat.dirs, h, stamp)
    {
      hide Legal, After, SpecStep, Fitted, SnugIn, FirstFit, DirExtra, Fits;
      hide Mid, Affordable, BlocksFor, BuildEntry, Supply, CapSet, HasRoom, Blocks, Canon, NewObj, WriteSome, Elems,
           NewChain, ChainTab, AllBlocks, Inv, IsPath, AllIn, Agree, Left, Enough, Over, RunsFor, TwoNamed, CanCreate,
           CleanCreate, LoopingCreate, DoubleCreate, CanStore, NamesNew, WithChain, RoomIn, RoomFor, Nameable,
           PointsAtItself, FileExtra, RunsOf, ReserveOf, Numbered, Fresh, GapCreate, ReadsAs, Usurped, HasReading,
           Ungrown, KeepsAnodes, Enc, Entered, Chained, KeepsBut, Last, TailOf, Dated;
      h, nb := 0, 0;
      ghost var cut := ShortName(name);
      hide ShortName;
      ghost var o, mi := Owned(), miss;
      assert flat == base;
      MissingStill();
      NoneGrown();
      hide Settled;
      DirChainFacts(g, o, sect, d);
      assert g.stride > 0 && GeoOk(g) by { Strided(); }
      hide GeoOk;
      ghost var extra := FileExtra(g, o, d, cut, |data|, stamp);
      ghost var sect0, fit := sect, CleanCreate(g, miss, o, d, cut, |data|, stamp);
      ghost var num := Numbered(g, miss, o, d, cut, |data|, stamp);
      assert fit <==> num && (d, Canon(cut)) !in o.fs by { CleanIs(g, miss, o, d, cut, |data|, stamp); }
      if num { CleanFits(g, miss, o, d, cut, |data|, stamp); }
      var n := BlocksFor(g.bs, |data|);
      var s, p, rs, grown, bl := StoreData(n, data, 0, o, extra);
      CrashSafe(g, o, sect0, bl, data, 0, |bl|);
      CreateNeeds(g, mi, o, d, cut, |data|, stamp);
      if s.Err? { return Err(DiskFull), h, nb; }
      h := s.value;
      var e := BuildEntry(name, ST_FILE, s.value, |data|, 0, stamp);
      ShortEntry(name, ST_FILE, s.value, |data|, 0, stamp);
      BuiltStamp(name, ST_FILE, s.value, |data|, 0, stamp);
      SameEntryRoom(g, o, d, cut, |data|, stamp, h);
      assert g.rbs >= 1024 by { WideBlocks(g); }
      BuiltSnug(g.rbs, cut, ST_FILE, h, |data|, 0, stamp);
      if num { CreateReady(g, mi, o, sect0, sect, d, cut, data, stamp, p, rs, grown, flat); }
      if fit {
        TakeReserve(o.f, flat, o.sys, grown);
        CleanTidy(g, mi, o, d, cut, |data|, stamp);
      }
      CreateLeft(g, mi, o, flat, d, cut, |data|, stamp, h);
      RoomIsFresh(g, mi, o, flat, d, e);
      KeptIsKept(o, d, flat);
      ghost var f, runs := flat, RunsOf(g, o, |data|);
      assert Chained(g, mi, o, e, h, runs, f) by { IsChained(g, mi, o, e, h, runs, f); }
      ghost var sect1, pl := sect, InBlock(0);
      r, pl := NameFile(d, e, o, p, rs, grown, cut, data, fit);
      if r.Err? { return; }
      nb := if pl.NewBlock? then pl.nb else 0;
      TailIn(g, o, sect0, d);
      EnteredDated(g, mi, o, d, e, f, flat, pl, RoomIn(g.rbs, o, d, e), Fresh(g, mi, o, f, d, e));
      EnteredKeeps(g, mi, o, d, e, f, flat, pl, RoomIn(g.rbs, o, d, e), Fresh(g, mi, o, f, d, e));
      EnteredAs(g, mi, o, d, e, f, flat, pl, FileExtra(g, o, d, cut, |data|, stamp) == 0, num);
      CreateOutcome(g, mi, o, sect0, sect1, d, cut, data, stamp, e, h, runs, p, rs, grown, f, flat, pl);
      if num {
        if fit { IsReading(g, Owned(), sect); } else { TwiceUnreadable(g, flat, sect, d, cut); }
      }
    }

    lemma NoneGrown()
      requires Mid() && flat == base
      ensures g.stride > 0 && Ungrown(g, miss, flat.tab)
    {
      hide Chart, ReserveOf, SnapOk, Ov, Extends, Counted, Nonzero, Base, CommOk, Ungrown;
      UngrownBase(g, dev, base, dabk, miss);
    }

    /** Name a chain just built and commit. */
    method NameFile(d: nat, e: Entry, ghost o: Own, ghost p: seq<nat>, ghost rs: seq<Run>, ghost grown: set<nat>,
                    ghost name: Name, ghost data: Bytes, ghost fit: bool) returns (r: Result<()>, ghost pl: Placed)
      requires o == Own(base, wit, fs, {}, o.sys) && DirChain(o, d) && flat.dirs == base.dirs && ChainKept(o, d, flat)
      requires e.name == name && (fit ==> Nameable(g, miss, o, sect, flat, sys, d, e, p, rs, grown, name, data))
      requires fit ==> Tidied() && (RoomIn(g.rbs, o, d, e) || miss !in abk)
      requires SnugIn(g.rbs, e) && Inv(g, o, sect) && Logged() && Mid()
      modifies this
      ensures r.Ok? <==> RoomIn(g.rbs, o, d, e) || RoomFor(g, old(miss), old(flat), 1, 1)
      ensures r.Ok? ==> Mid() && Settled() && sect == old(sect)
      ensures r.Ok? && fit ==> Valid() && fs == WithFile(o.fs, d, name, p, data)
      ensures r.Ok? && fit ==> Logs(old(first), old(log), WriteOp((d, Canon(name)), name, data))
      ensures r.Ok? ==> Entered(g, old(miss), o, d, e, old(flat), flat, pl, RoomIn(g.rbs, o, d, e),
                                Fresh(g, old(miss), o, old(flat), d, e))
      ensures r.Ok? && Fresh(g, old(miss), o, old(flat), d, e) && (d, Canon(name)) in o.fs ==> TwoNamed(flat, d, name)
      ensures r.Err? ==> dev == old(dev) && root == old(root) && sect == old(sect)
      ensures LaterThan(old(root), root, r.Ok?)
    {
      hide LaterThan;
      hide Legal, After, SpecStep, Fitted, SnugIn;
      hide Mid, Supply, CapSet, HasRoom, Blocks, Canon, NewObj, NewChain, AllBlocks, Inv, IsPath, AllIn, PlaceFlat,
           PlaceSys, PlacedOk, Describe, FileSize, ReadData, NewFileOwn, WithChain, Agree, IsDir, Left, Enough,
           NoneNamed, TwoNamed, RoomFor, ReserveOf, Extension, KeepsBut, Mentioned, Entered, TailOf, Last;
      NotFoundIff(g, o, sect, d, name);
      HeadKnown(g, o, sect, d);
      Apart();
      ghost var room, fr := RoomIn(g.rbs, o, d, e), Fresh(g, miss, o, flat, d, e);
      var a;
      a, pl := AddDirEntry(d, e, o.w.path[d]);
      IsLater(root, root, false);
      if a.Err? { return Err(DiskFull), pl; }
      ghost var o', bl := o, Blocks(o.f.tab, o.w.path[d]);
      if fit {
        NewFileKeeps(g, o, sect, d, e, p, rs, grown, pl);
        PlaceReserve(old(flat), old(sys), bl, o.w.path[d], e, pl);
        CreateStep(g, o, sect, (d, Canon(name)), p[0], name, data);
        o' := NewFileOwn(o, sect, d, e, p, rs, grown, pl);
      }
      if fr { TwiceNamed(o.f.tab, old(flat), d, o.w.path[d], e, pl); }
      TailIs(o, d);
      IsEntered(g, miss, o, d, e, old(flat), flat, pl, room, fr);
      hide Nameable, RoomIn, Fresh, ChainKept;
      ghost var before := root;
      Commit();
      IsLater(before, root, true);
      if fit { Adopt(o', WriteOp((d, Canon(name)), name, data)); }
      return Ok(()), pl;
    }

    /** Between operations no anode block is registered under the first missing number. */
    lemma MissingStill()
      requires Mid() && abk == dabk
      ensures miss !in abk
    {
      hide Chart, ReserveOf, SnapOk, Ov, Counted, Nonzero, Base, TabTie, DirTie, GeoOk, Extends;
    }

    lemma Apart()
      requires Mid()
      ensures flat.resFree !! flat.dirs.Keys
    {
      hide TabTie, DirTie, BmTie, FreeTie, ResTie, SysTie, BmIndexTie, Ov, CommOk, Extends, Counted, Nonzero, Base,
           GeoOk, Charted, ResAligned;
    }

    lemma Strided()
      requires Mid()
      ensures g.stride > 0 && GeoOk(g)
    {
    }

    /** Create a directory under what is kept of the name. It succeeds exactly when reserved blocks and slots
        suffice. The new directory then lists nothing exactly when the anodes needed get different numbers;
        otherwise it lists itself, its anode having become that of its parent's new block. Under a name in
        use the parent lists the name twice. The metadata has a consistent reading only if neither happens,
        and then there is one more name and nothing else changed. On failure nothing visible changed. */
    method MakeDir(d: nat, name: Name, stamp: Stamp) returns (r: Result<()>, ghost h: nat, ghost nb2: nat)
      requires Valid() && d in wit.dh
      modifies this
      ensures r.Ok? <==> CanMake(g, old(miss), old(Owned()), d, ShortName(name), stamp)
      ensures r.Ok? ==> Mid() && Settled() && h !in old(flat.tab)
      ensures r.Ok? ==> (ListsNothing(flat, h) <==> MakeNumbered(g, old(miss), old(Owned()), d, ShortName(name), stamp))
      ensures r.Ok? && !MakeNumbered(g, old(miss), old(Owned()), d, ShortName(name), stamp) ==>
              Usurped(flat, h, nb2, BuildEntry(ShortName(name), ST_USERDIR, h, 0, 0, stamp))
      ensures r.Ok? && CleanMake(g, old(miss), old(Owned()), d, ShortName(name), stamp) ==>
              && Valid() && fs == WithDirNamed(old(fs), d, ShortName(name), h)
              && Logs(old(first), old(log), MakeDirOp((d, Canon(ShortName(name))), ShortName(name)))
      ensures r.Ok? && DoubleMake(g, old(miss), old(Owned()), d, ShortName(name), stamp) ==>
                TwoNamed(flat, d, ShortName(name))
      ensures r.Ok? ==> (HasReading(g, flat, sect) <==>
                           CleanMake(g, old(miss), old(Owned()), d, ShortName(name), stamp))
      ensures r.Ok? ==> KeepsBut(old(flat.tab), flat.tab, TailOf(old(Owned()), d)) && sect == old(sect)
      ensures r.Ok? && PlainMake(g, old(miss), old(Owned()), d, ShortName(name), stamp) ==>
              && miss == old(miss) && |flat.resFree| == |old(flat.resFree)| - 1
              && Left(g, miss, flat.tab) == Left(g, miss, old(flat.tab)) - 1
      ensures r.Err? ==> dev == old(dev) && root == old(root) && Inv(g, old(Owned()), sect)
      ensures LaterThan(old(root), root, r.Ok?)
      ensures r.Ok? ==> Dated(flat.dirs, h, stamp)
    {
      hide Legal, After, SpecStep, Fitted, SnugIn, MakeExtra, CanMake, CleanMake, DoubleMake, RoomAmong, BlocksAmong,
           NamedAmong,
           FreshAmong, Makeable, WithDirNamed, TwoNamed, MakeNumbered, ListsNothing, Usurped, HasReading, Ungrown,
           Entered, Chained, PlainMake, Mentioned, DirTaken, ChainKept, KeepsBut, TailOf, Dated;
      hide Mid, BuildEntry, Left, Enough, Over, Blocks, Canon, Inv, IsPath, AllIn, Agree, RoomFor, ReserveOf, Tidy;
      h, nb2 := 0, 0;
      ghost var cut := ShortName(name);
      hide ShortName;
      ghost var o, mi, sect0 := Owned(), miss, sect;
      assert flat == base && abk == dabk;
      MissingStill();
      NoneGrown();
      hide Settled;
      DirChainFacts(g, o, sect, d);
      assert GeoOk(g) by { Strided(); }
      hide GeoOk;
      MakeNeeds(g, miss, o, d, cut, stamp);
      MakeCases(g, mi, o, d, cut, stamp);
      var t, grown := TakeDir(o);
      if t.Err? { return Err(DiskFull), h, nb2; }
      h := t.value.0;
      TidyKept(mi, Left(g, mi, o.f.tab), 1, old(abk), {}, abk, lost);
      TakenReady(g, mi, o, sect, d, cut, stamp, h, t.value.1, grown, flat, sys);
      var e := BuildEntry(name, ST_USERDIR, t.value.0, 0, 0, stamp);
      ShortEntry(name, ST_USERDIR, t.value.0, 0, 0, stamp);
      assert g.rbs >= 1024 by { WideBlocks(g); }
      BuiltSnug(g.rbs, cut, ST_USERDIR, h, 0, 0, stamp);
      if snug { TakenFitted(g, mi, o, flat, sys, h, t.value.1, grown); }
      ghost var f, s, pl := flat, sys, InBlock(0);
      ghost var room, fr := RoomAmong(g.rbs, o, d, f.dirs, e), FreshAmong(g, mi, o, f, d, e);
      r, pl := NameDir(d, e, o, h, t.value.1, grown, cut, CleanMake(g, mi, o, d, cut, stamp));
      if r.Err? { return; }
      nb2 := if pl.NewBlock? then pl.nb else 0;
      MakeEnds(g, mi, o, sect0, d, cut, stamp, h, t.value.1, grown, f, flat, s, pl, room, fr);
      if MakeNumbered(g, mi, o, d, cut, stamp) {
        if CleanMake(g, mi, o, d, cut, stamp) {
          IsReading(g, Owned(), sect);
        } else {
          TwiceUnreadable(g, flat, sect, d, cut);
        }
      }
    }

    /** Take a block and an anode for a new directory. */
    method TakeDir(ghost o: Own) returns (r: Result<(nat, nat)>, ghost grown: set<nat>)
      requires Mid() && o.f == flat == base && o.sys == sys && ANODE_EOF !in flat.tab
      modifies `pending, `view, `resBitmap, `reservedFree, `flat, `abk, `sys, `lost, `datestamp
      ensures r.Ok? <==> |o.f.resFree| > 0 && Enough(g, miss, Left(g, miss, o.f.tab), |o.f.resFree| - 1, 1, 0)
      ensures r.Ok? ==> Mid() && DirTaken(g, miss, o, flat, sys, r.value.0, r.value.1, grown)
      ensures r.Ok? ==> Tidy(miss, Left(g, miss, o.f.tab), 1, old(abk), old(lost), abk, lost) && r.value.0 !in o.f.tab
    {
      hide Mid, Supply, CapSet, Left, Enough, Over, OnlyAnodes, AllocStep, Enc, Tidy;
      grown := {};
      SlotForOne();
      assert GeoOk(g) by { Strided(); }
      hide GeoOk;
      var nb := NewDirBlock([]);
      if nb.Err? { return Err(DiskFull), grown; }
      ghost var f1 := flat;
      OneLess(o.f.resFree, nb.value);
      assert !Vacant(Slot(1, nb.value, ANODE_EOF)) by { OneBlock(nb.value); }
      hide Vacant;
      var a := AllocAnode(Slot(1, nb.value, ANODE_EOF));
      if a.Err? { return Err(DiskFull), grown; }
      NewAnode(g, miss, f1.tab, Slot(1, nb.value, ANODE_EOF), a.value, flat.tab);
      LeftNext(g, miss, f1.tab, Slot(1, nb.value, ANODE_EOF), a.value, flat.tab);
      NextTop(g, miss, f1.tab, Slot(1, nb.value, ANODE_EOF), a.value, flat.tab);
      grown := f1.resFree - flat.resFree;
      OnlyAnodesParts(f1, flat, o.sys, sys);
      return Ok((a.value, nb.value)), grown;
    }

    /** A settled volume always has a number for one more anode. */
    lemma SlotForOne()
      requires Mid() && flat == base
      ensures g.stride > 0 && Supply(g, CapSet(g, miss), miss, flat.tab) > 0
    {
      hide Chart, ReserveOf, SnapOk, Ov, Extends, Counted, Nonzero, Base, Supply, CapSet, CommOk;
      SupplyPositive(g, dev, base, dabk, miss);
    }

    /** Name a directory just made and commit. */
    method NameDir(d: nat, e: Entry, ghost o: Own, ghost h: nat, ghost nb: nat, ghost grown: set<nat>, ghost name: Name,
                   ghost fit: bool)
        returns (r: Result<()>, ghost pl: Placed)
      requires Mid() && Logged() && o == Own(base, wit, fs, {}, o.sys) && DirChain(o, d) && BlocksAmong(o, d, flat.dirs)
      requires e.name == name && (fit ==> Makeable(g, miss, o, flat, sys, d, e, h, nb, grown, name))
      requires fit ==> Tidied() && (RoomAmong(g.rbs, o, d, flat.dirs, e) || miss !in abk)
      requires ChainKept(o, d, flat) && (d == ANODE_ROOTDIR || Mentioned(flat.dirs, d)) && SnugIn(g.rbs, e)
      requires Inv(g, o, sect)
      modifies this
      ensures r.Ok? <==> RoomAmong(g.rbs, o, d, old(flat.dirs), e) || RoomFor(g, old(miss), old(flat), 1, 1)
      ensures r.Ok? ==> Mid() && Settled() && sect == old(sect)
      ensures r.Ok? && RoomAmong(g.rbs, o, d, old(flat.dirs), e) && old(abk) == old(dabk) ==> miss == old(miss)
      ensures r.Ok? && fit ==> Valid() && fs == WithDirNamed(o.fs, d, name, h)
      ensures r.Ok? && fit ==> Logs(old(first), old(log), MakeDirOp((d, Canon(name)), name))
      ensures r.Ok? ==> Entered(g, old(miss), o, d, e, old(flat), flat, pl, RoomAmong(g.rbs, o, d, old(flat.dirs), e),
                                FreshAmong(g, old(miss), o, old(flat), d, e))
      ensures r.Ok? && FreshAmong(g, old(miss), o, old(flat), d, e) && NamedAmong(o, d, old(flat.dirs), name) ==>
                TwoNamed(flat, d, name)
      ensures r.Err? ==> dev == old(dev) && root == old(root) && sect == old(sect)
      ensures LaterThan(old(root), root, r.Ok?)
    {
      hide LaterThan;
      hide Legal, After, SpecStep, Fitted, SnugIn;
      hide Mid, Supply, CapSet, HasRoom, Blocks, Canon, Inv, IsPath, AllIn, PlaceFlat, PlaceSys, PlacedOk, Describe,
           WithNewDir, NewDirOwn, Agree, IsDir, NoneNamed, TwoNamed, RoomFor, ReserveOf, Extension, KeepsBut, Mentioned,
           Entered, Left, TailOf, Last;
      Apart();
      ghost var room, fr := RoomAmong(g.rbs, o, d, flat.dirs, e), FreshAmong(g, miss, o, flat, d, e);
      var a;
      a, pl := AddDirEntry(d, e, o.w.path[d]);
      IsLater(root, root, false);
      if a.Err? { return Err(DiskFull), pl; }
      ghost var o' := o;
      if fit {
        NewDirKeeps(g, o, sect, d, e, h, nb, grown, pl);
        PlaceReserve(old(flat), old(sys), Blocks(o.f.tab, o.w.path[d]), o.w.path[d], e, pl);
        MakeDirStep(g, o, sect, (d, Canon(name)), h, name);
        o' := NewDirOwn(o, d, e, h, nb, grown, pl);
      }
      if fr { TwiceNamed(o.f.tab, old(flat), d, o.w.path[d], e, pl); }
      TailIs(o, d);
      IsEntered(g, miss, o, d, e, old(flat), flat, pl, room, fr);
      hide Makeable, RoomAmong, NamedAmong, FreshAmong, ChainKept;
      ghost var before := root;
      Commit();
      IsLater(before, root, true);
      if fit { Adopt(o', MakeDirOp((d, Canon(name)), name)); }
      return Ok(()), pl;
    }

    // ---------------------------------------------------------------- overwriting a file

    /** Overwrite the file headed by `h`. It succeeds exactly when the blocks it lacks, and anodes for
        them, are available. If the anode numbers suffice it then reads back as `data` (as far as the
        entry can record the size), keeps its head, and nothing else changed; with too many runs its
        chain ends in an anode that points at itself. After a failure every old block holds the new
        data, the file reads as the start of the data, as long as it was, and nothing else changed. */
    method Overwrite(d: nat, name: Name, h: nat, data: Bytes, stamp: Stamp) returns (r: Result<()>)
      requires Valid() && g.bs > 0 && FileAt(Owned(), d, (d, Canon(name)), h)
      modifies this
      ensures r.Ok? <==> CanGrow(g, old(miss), old(Owned()), h, |data|)
      ensures r.Ok? ==> Mid() && Settled()
      ensures r.Ok? && CleanGrow(g, old(miss), old(Owned()), h, |data|) ==>
              && Valid() && fs == Updated(old(fs), (d, Canon(name)), old(wit), data)
              && Logs(old(first), old(log), WriteOp((d, Canon(name)), name, data))
      ensures r.Ok? && LoopingGrow(g, old(miss), old(Owned()), h, |data|) ==>
                RunsIntoLoop(flat.tab, PathOf(old(wit), h))
      ensures r.Ok? ==> (HasReading(g, flat, sect) <==> CleanGrow(g, old(miss), old(Owned()), h, |data|))
      ensures r.Ok? && Lacks(g, old(Owned()), h, |data|) > 0 ==>
                KeepsBut(old(flat.tab), flat.tab, Last(PathOf(old(wit), h)))
      ensures r.Err? ==> dev == old(dev) && root == old(root)
                         && HalfDone(g, old(Owned()), sect, h, (d, Canon(name)), data)
      ensures LaterThan(old(root), root, r.Ok?)
      ensures r.Ok? ==> Dated(flat.dirs, h, stamp)
    {
      hide Legal, After, SpecStep, Fitted;
      hide Chart, ReserveOf, SnapOk, Ov, CommOk, Extends, Counted, Nonzero, Base, GeoOk, Inv, Canon, Blocks, IsPath,
           Key, WriteSome, Holds, Halfway, BlockList, Updated,
           IsFile, Supply, CapSet, Names, BlocksFor, OldBlocks, CanGrow, CleanGrow, LoopingGrow, RunsFor, CanStore,
             SlotsLeft, Left, RunsIntoLoop, HalfDone, HasReading, Stuck, Dated, KeepsBut, Last, Lacks, Ungrown;
      ghost var o, mi := Owned(), miss;
      NoneGrown();
      SlotsLeftIs(g, miss, o.f);
      LacksIs(g, o, h, |data|);
      NamesOf(g, o, sect);
      FileSized(g, o, sect, d, h, (d, Canon(name)));
      GrowIs(g, miss, o, h, |data|);
      var needed := BlocksFor(g.bs, |data|);
      assert h in o.w.path by { FileHasPath(o, h); }
      HeadInTab(g, o, sect, h);
      OldIs(o, h);
      var c := GetChain(h, o.w.path[h]);
      BlockListIs(base.tab, o.w.path[h], c);
      var bl := BlockList(c);
      var n := Min(needed, |bl|);
      HalfwayKeeps(g, o, sect, h, n, data);
      hide Mid;
      PutSectors(bl[..n], data, 0);
      if needed <= |bl| {
        ShrinkFile(d, name, h, data, stamp, n, o);
        IsReading(g, Owned(), sect);
        return Ok(());
      } else {
        assert bl[..n] == bl;
        FewerBytes(g.bs, |data|, |bl|);
        r := GrowFile(d, name, h, data, stamp, needed, |bl|, o);
        if r.Ok? {
          if CleanGrow(g, mi, o, h, |data|) { IsReading(g, Owned(), sect); } else { StuckUnreadable(g, flat, sect, h); }
        }
      }
    }

    /** Cut the chain to `n` blocks, patch the entry, commit. */
    method ShrinkFile(d: nat, name: Name, h: nat, data: Bytes, stamp: Stamp, n: nat, ghost o: Own)
      requires Mid() && Logged() && Tidied() && flat == base && o == Owned() && IsFile(o, h) && d in wit.dh
               && (d, Canon(name)) in fs
      requires Key(wit.par, wit.ent, h) == (d, Canon(name)) && fs[(d, Canon(name))].anode == h
      requires 0 < n <= |OldBlocks(o, h)| && Holds(g.bs, sect, OldBlocks(o, h)[..n], data, 0) && |data| <= n * g.bs
      requires Inv(g, Halfway(o, sect, h), sect) && Names(fs, wit.par, wit.ent, wit.data)
      modifies this
      ensures Valid() && fs == Updated(o.fs, (d, Canon(name)), o.w, data)
      ensures Logs(old(first), old(log), WriteOp((d, Canon(name)), name, data))
      ensures LaterThan(old(root), root, true)
      ensures Dated(flat.dirs, h, stamp)
    {
      hide LaterThan;
      hide Legal, After, SpecStep, Fitted;
      hide Chart, ReserveOf, SnapOk, Ov, CommOk, Extends, Counted, Nonzero, Base, GeoOk, Inv, Canon, Blocks, IsPath,
           Key, Holds, Halfway, Updated, AllIn, NoneNamed,
           ReleasablePath, PathCover, IsCut, Overwritten, PatchSize, ShrunkOwn, Mid, Names, Named, Elems, Dated;
      HalfwaySame(o, sect, h);
      ghost var o1 := Halfway(o, sect, h);
      DirChainFacts(g, o1, sect, d);
      HeadInTab(g, o1, sect, h);
      ChainReleasable(g, o1, sect, h);
      NotFoundIff(g, o1, sect, d, name);
      ghost var k, m := TruncateChain(h, n, o.w.path[h]);
      ghost var f := flat;
      var at := UpdateSize(d, name, |data|, stamp, o.w.path[d]);
      FoundEntry(g, o1, sect, d, at.value.0, at.value.1, name);
      SameHead(o, h, o.f.dirs[at.value.0][at.value.1].anode);
      ShrunkKeeps(g, o, sect, h, at.value.0, at.value.1, data, stamp, k, m, n, f);
      ghost var o' := ShrunkOwn(o, sect, h, at.value.0, at.value.1, data, stamp, k, m);
      UpdatedIs(o, o', h, at.value.0, at.value.1, data, stamp, f, o.sys, (d, Canon(name)));
      OverwrittenFlat(o, o', h, at.value.0, at.value.1, data, stamp, f, o.sys);
      SameReserve(o.f, flat, sys);
      if snug { FittedPatched(g.rbs, f.dirs, at.value.0, at.value.1, |data|, stamp); }
      OverwriteStep(o.fs, (d, Canon(name)), o.w, name, data);
      PatchedDated(f.dirs, at.value.0, at.value.1, |data|, stamp);
      Finish(o', WriteOp((d, Canon(name)), name, data));
    }

    /** Allocate and fill more blocks, append them to the chain, patch the entry, commit. */
    method GrowFile(d: nat, name: Name, h: nat, data: Bytes, stamp: Stamp, needed: nat, have: nat, ghost o: Own)
        returns (r: Result<()>)
      requires Mid() && Logged() && Tidied() && flat == base && abk == dabk && o == Owned()
      requires FileAt(o, d, (d, Canon(name)), h) && OldWritten(g, o, sect, h, data)
      requires have == |OldBlocks(o, h)| < needed && have * g.bs <= |data| <= needed * g.bs
               && Sized(g, o, h, (d, Canon(name)))
      modifies this
      ensures r.Ok? <==> CanStore(g, old(miss), o.f, needed - have)
      ensures r.Ok? ==> Mid() && Settled()
      ensures r.Ok? && RunsFor(o.f.free, needed - have) <= SlotsLeft(g, old(miss), o.f) ==>
              && Valid() && fs == Updated(o.fs, (d, Canon(name)), o.w, data)
              && Logs(old(first), old(log), WriteOp((d, Canon(name)), name, data))
      ensures r.Ok? && RunsFor(o.f.free, needed - have) >= Left(g, old(miss), o.f.tab) + 2 ==>
                RunsIntoLoop(flat.tab, PathOf(o.w, h)) && Stuck(flat, h)
      ensures r.Ok? ==> KeepsBut(o.f.tab, flat.tab, Last(PathOf(o.w, h)))
      ensures r.Err? ==> dev == old(dev) && root == old(root) && HalfDone(g, o, sect, h, (d, Canon(name)), data)
      ensures LaterThan(old(root), root, r.Ok?)
      ensures r.Ok? ==> Dated(flat.dirs, h, stamp)
    {
      hide LaterThan;
      hide Legal, After, SpecStep, Fitted;
      hide Chart, ReserveOf, SnapOk, Ov, CommOk, Extends, Counted, Nonzero, Base, GeoOk, Inv, Canon, Blocks, IsPath,
           Key, Holds, Halfway, Updated, Names, Elems, Supply, CapSet, NewChain, AllBlocks, ChainTab,
           WriteSome, LongerFlat, PutTab, Vacant, Last, OldBlocks, Valid, Settled, Sized, HalfDone, IsFile,
           CanStore, RunsFor, Left, RunsIntoLoop, PointsAtItself, Ungrown, Tidy, SlotsLeft, Growth, Stuck, Dated,
             KeepsBut,
           KeepsAnodes, Enc;
      HalfwaySame(o, sect, h);
      FileHasPath(o, h);
      ghost var o1, sect1, mi := Halfway(o, sect, h), sect, miss;
      HeadInTab(g, o1, sect, h);
      CommNotVacant(g, dev, base, dabk, miss, Last(o.w.path[h]));
      UngrownBase(g, dev, base, dabk, miss);
      MissingStill();
      LastIn(o.f.tab, h, o.w.path[h]);
      assert IsFile(o, h) && Extendable(o, h);
      hide Mid, FileAt, OldWritten, Extendable;
      ghost var fit := RunsFor(o.f.free, needed - have) <= SlotsLeft(g, mi, o.f);
      assert fit ==> Affordable(o.f.free, needed - have, 0, Supply(g, CapSet(g, mi), mi, o.f.tab))
        by { FitsAfford(g, mi, o.f, needed - have); }
      hide Affordable;
      var s, p, rs, grown, bl := StoreData(needed - have, data, have * g.bs, o, 0);
      StillWritten(g, o, sect1, h, data, bl, have * g.bs);
      if s.Err? {
        HalfIsDone(g, o, sect, d, h, (d, Canon(name)), data);
        IsLater(root, root, false);
        return Err(DiskFull);
      }
      if fit {
        SupplyLeft(g, mi, o.f);
        TidyKept(mi, Left(g, mi, o.f.tab), |rs|, old(abk), {}, abk, lost);
        assert Stretched(g, o, flat, sect1, sect, h, data, p, rs, grown, have, needed);
      }
      EncPositive(g, mi);
      hide Stored, Stretched;
      AppendGrown(d, name, h, data, stamp, s.value, o, sect1, p, rs, grown, have, needed, fit);
      return Ok(());
    }

    /** Append the chain of the new blocks and record the size. */
    method AppendGrown(d: nat, name: Name, h: nat, data: Bytes, stamp: Stamp, nr: nat, ghost o: Own,
                       ghost sect1: Sectors, ghost p: seq<nat>,
                       ghost rs: seq<Run>, ghost grown: set<nat>, ghost have: nat, ghost needed: nat, ghost fit: bool)
      requires Mid() && Logged() && o == Own(base, wit, fs, {}, o.sys) && flat.dirs == o.f.dirs && Extendable(o, h)
      requires FileAt(o, d, (d, Canon(name)), h) && OldWritten(g, o, sect1, h, data)
      requires fit ==> && Stretched(g, o, flat, sect1, sect, h, data, p, rs, grown, have, needed) && p[0] == nr
                       && sys == o.sys + grown
                       && lost == {} && ReserveOf(o.f, o.sys) == area && (snug ==> Fitted(g.rbs, flat.dirs))
      modifies this
      ensures Mid() && Settled()
      ensures fit ==> Valid() && fs == Updated(o.fs, (d, Canon(name)), o.w, data)
      ensures fit ==> Logs(old(first), old(log), WriteOp((d, Canon(name)), name, data))
      ensures PointsAtItself(old(flat.tab), nr) && nr !in o.f.tab ==> RunsIntoLoop(flat.tab, PathOf(o.w, h))
      ensures KeepsAnodes(o.f.tab, old(flat.tab)) ==>
              && KeepsBut(o.f.tab, flat.tab, Last(PathOf(o.w, h))) && sect == old(sect)
              && (PointsAtItself(old(flat.tab), nr) && nr !in o.f.tab && nr != ANODE_EOF ==> Stuck(flat, h))
      ensures LaterThan(old(root), root, true)
      ensures Dated(flat.dirs, h, stamp)
    {
      hide LaterThan;
      hide Legal, After, SpecStep, Fitted;
      hide Mid, Inv, Canon, IsPath, Updated, Names, PutTab, Vacant, Last, ReserveOf, Growth, FileAt, OldWritten,
           PointsAtItself, RunsIntoLoop, Valid, Settled, Mentioned, Dated, Stuck, KeepsAnodes, KeepsBut, IsRun,
           Extendable, Stretched;
      ExtendableParts(o, h);
      ghost var f := flat;
      AppendToChain(h, nr, o.w.path[h]);
      if PointsAtItself(f.tab, nr)
         && nr !in o.f.tab { LoopAppended(f.tab, o.w.path[h], o.f.tab[Last(o.w.path[h])], nr); }
      if fit { IsGrowth(g, o, f, flat, sect1, sect, h, data, p, rs, grown, have, needed, nr); }
      if KeepsAnodes(o.f.tab, f.tab) { Appended(o.f.tab, f.tab, flat.tab, h, o.w.path[h], nr); }
      RecordGrowth(d, name, h, data, stamp, o, sect1, p, rs, grown, fit);
      if KeepsAnodes(o.f.tab, f.tab) && PointsAtItself(f.tab, nr) && nr !in o.f.tab && nr != ANODE_EOF {
        IsStuck(flat, h);
      }
    }

    /** Record the new size of a file whose chain has just been extended, and commit. */
    method RecordGrowth(d: nat, name: Name, h: nat, data: Bytes, stamp: Stamp, ghost o: Own, ghost sect1: Sectors,
                        ghost p: seq<nat>, ghost rs: seq<Run>, ghost grown: set<nat>, ghost fit: bool)
      requires Mid() && Logged() && o == Own(base, wit, fs, {}, o.sys) && flat.dirs == o.f.dirs
      requires FileAt(o, d, (d, Canon(name)), h) && OldWritten(g, o, sect1, h, data)
      requires fit ==> Tidied() && Growth(g, o, flat, sys, sect1, sect, h, data, p, rs, grown)
      modifies this
      ensures Mid() && Settled() && flat.tab == old(flat.tab) && sect == old(sect) && Mentioned(flat.dirs, h)
      ensures fit ==> Valid() && fs == Updated(o.fs, (d, Canon(name)), o.w, data)
      ensures fit ==> Logs(old(first), old(log), WriteOp((d, Canon(name)), name, data))
      ensures LaterThan(old(root), root, true)
      ensures Dated(flat.dirs, h, stamp)
    {
      hide Legal, After, SpecStep, Fitted;
      hide Mid, Inv, Canon, Blocks, IsPath, Key, Holds, Halfway, Updated, AllIn, NoneNamed, Overwritten, PatchSize,
           GrownOwn, Names, Named, Elems, NewChain,
           AllBlocks, WriteSome, LongerFlat, OldBlocks, Mentioned, Dated;
      HalfwaySame(o, sect1, h);
      ghost var o1 := Halfway(o, sect1, h);
      DirChainFacts(g, o1, sect1, d);
      NotFoundIff(g, o1, sect1, d, name);
      ghost var f := flat;
      var at := UpdateSize(d, name, |data|, stamp, o.w.path[d]);
      FoundEntry(g, o1, sect1, d, at.value.0, at.value.1, name);
      SameHead(o, h, o.f.dirs[at.value.0][at.value.1].anode);
      ghost var o' := o;
      if fit {
        GrownKeeps(g, o, sect1, h, at.value.0, at.value.1, data, stamp, p, rs, grown);
        o' := GrownOwn(o, sect1, h, at.value.0, at.value.1, data, stamp, p, rs, grown);
        UpdatedIs(o, o', h, at.value.0, at.value.1, data, stamp, f, o.sys + grown, (d, Canon(name)));
        OverwrittenFlat(o, o', h, at.value.0, at.value.1, data, stamp, f, o.sys + grown);
        OverwriteStep(o.fs, (d, Canon(name)), o.w, name, data);
        SameReserve(f, flat, sys);
        if snug { FittedPatched(g.rbs, f.dirs, at.value.0, at.value.1, |data|, stamp); }
      }
      PatchedMentions(f.dirs, at.value.0, at.value.1, |data|, stamp);
      PatchedDated(f.dirs, at.value.0, at.value.1, |data|, stamp);
      hide Growth, FileAt, OldWritten;
      Commit();
      if fit { Adopt(o', WriteOp((d, Canon(name)), name, data)); }
    }

    // ---------------------------------------------------------------- writing and reading by name

    /** The entry of `name` in directory `d`. */
    method Lookup(d: nat, name: Name) returns (r: Result<Entry>)
      requires Valid() && d in wit.dh
      ensures r.Err? <==> (d, Canon(name)) !in fs
      ensures r.Ok? <==> Listed(fs, d, name)
      ensures r.Err? ==> r.error == NotFound
      ensures r.Ok? ==> Denotes(Owned(), (d, Canon(name)), r.value)
    {
      hide Legal, After, SpecStep;
      hide Chart, ReserveOf, SnapOk, Ov, CommOk, Extends, Counted, Nonzero, Base, GeoOk, Inv, Canon, NameEqCi, Blocks,
           Listing, IsPath, AllIn, Key, NoneNamed;
      ghost var o := Owned();
      DirChainFacts(g, o, sect, d);
      NotFoundIff(g, o, sect, d, name);
      ListedIff(g, o, sect, d, name);
      hide Listed;
      var es := ListDir(d, o.w.path[d]);
      var k := FindName(es, name);
      if k == |es| {
        UnlistedNone(base.dirs, Blocks(base.tab, o.w.path[d]), name);
        return Err(NotFound);
      }
      ghost var b, i := ListedAt(base.dirs, Blocks(base.tab, o.w.path[d]), es[k], name);
      FoundEntry(g, o, sect, d, b, i, name);
      KeyType(o.fs, o.w.par, o.w.ent, o.w.data, es[k].anode) by { NamesOf(g, o, sect); }
      return Ok(es[k]);
    }

    /** Resolve a path to a directory: exactly what following its names one by one gives. */
    method ResolveDir(parts: seq<Name>) returns (r: Result<nat>)
      requires Valid()
      ensures r == WalkDirs(fs, ANODE_ROOTDIR, parts) && (r.Ok? ==> r.value in wit.dh)
    {
      hide Legal, After, SpecStep;
      hide Mid, Settled, Inv, Canon, Key;
      var d := ANODE_ROOTDIR;
      RootInDirs(g, Owned(), sect);
      assert parts[0..] == parts;
      for i := 0 to |parts|
        invariant d in wit.dh && WalkDirs(fs, ANODE_ROOTDIR, parts) == WalkDirs(fs, d, parts[i..])
      {
        var e := Lookup(d, parts[i]);
        assert parts[i..][0] == parts[i] && parts[i..][1..] == parts[i + 1..];
        if e.Err? { return Err(NotFound); }
        if !IsDir(e.value) { return Err(NotADirectory); }
        d := e.value.anode;
      }
      return Ok(d);
    }

    /** Read a file by name: exactly the contents its name denotes. */
    method ReadFile(d: nat, name: Name) returns (r: Result<Bytes>)
      requires Valid() && d in wit.dh
      ensures r == ReadOf(fs, (d, Canon(name)))
    {
      hide Legal, After, SpecStep;
      hide Chart, ReserveOf, SnapOk, Ov, CommOk, Extends, Counted, Nonzero, Base, GeoOk, Inv, Canon, Key, IsPath,
           BlockList, OldBlocks, Readable, ReadData;
      ghost var o := Owned();
      var e := Lookup(d, name);
      if e.Err? { return Err(NotFound); }
      if IsDir(e.value) { return Err(NotADirectory); }
      var h := e.value.anode;
      FileReads(g, o, sect, h);
      HeadInTab(g, o, sect, h);
      var c := GetChain(h, o.w.path[h]);
      BlockListIs(base.tab, o.w.path[h], c);
      OldIs(o, h);
      assert g.bs > 0 by { hide Inv; assert GeoOk(g); SectorSize(g); }
      var data := ReadFileData(g.bs, sect, c, FileSize(e.value));
      return Ok(data);
    }

    /** Read part of a file by name. */
    method ReadRange(d: nat, name: Name, offset: nat, length: nat) returns (r: Result<Bytes>)
      requires Valid() && d in wit.dh
      ensures r == match ReadOf(fs, (d, Canon(name))) case Ok(data) => Ok(Slice(data, offset,
                                                            offset + length)) case Err(x) => Err(x)
    {
      hide Legal, After, SpecStep;
      hide Chart, ReserveOf, SnapOk, Ov, CommOk, Extends, Counted, Nonzero, Base, GeoOk, Inv, Canon, Key, IsPath,
           BlockList, OldBlocks, Readable, ReadData, Slice;
      ghost var o := Owned();
      var e := Lookup(d, name);
      if e.Err? { return Err(NotFound); }
      if IsDir(e.value) { return Err(NotADirectory); }
      var h := e.value.anode;
      FileReads(g, o, sect, h);
      HeadInTab(g, o, sect, h);
      var c := GetChain(h, o.w.path[h]);
      BlockListIs(base.tab, o.w.path[h], c);
      OldIs(o, h);
      assert g.bs > 0 by { hide Inv; assert GeoOk(g); SectorSize(g); }
      var data := ReadFileRange(g.bs, sect, c, FileSize(e.value), offset, length);
      return Ok(data);
    }

    /** Scanning the bitmap blocks on the device gives the free counter. */
    method ScanFree() returns (n: nat)
      requires Valid()
      ensures n == blocksFree
    {
      hide Legal, After, SpecStep;
      hide Charted, Tidied, TabTie, DirTie, BmTie, FreeTie, SysTie, CommOk, Extends, View, UniqueKeys, ResTie, Base,
           Inv, BmIndexTie, Nonzero;
      assert view == dev by { NothingStaged(dev); }
      var bm := LoadDataBitmap(g, dev, sys, dataBm);
      n := CountFree(g, bm, g.dataEnd, flat.free);
      assert Counting.Under(flat.free, g.bmStart + g.dataEnd) == flat.free;
    }

    /** Scanning the reserved bitmap in the root cluster gives the reserved counter. */
    method ScanReserved() returns (n: nat)
      requires Valid()
      ensures n == reservedFree + OnesOf(tail)
    {
      hide Legal, After, SpecStep;
      hide Charted, Tidied, TabTie, DirTie, BmTie, FreeTie, SysTie, CommOk, Extends, View, UniqueKeys, ResTie, Base,
           Inv, BmIndexTie, Nonzero, Ov, OnesOf;
      n := ReservedCountFree(g, root.res, root.rest, flat.resFree);
    }

    /** Write a file: overwrite what the name denotes if that is a file, otherwise create it under what is
        kept of the name. */
    method WriteFile(d: nat, name: Name, data: Bytes, stamp: Stamp) returns (r: Result<()>, ghost h: nat)
      requires d in wit.dh && g.bs > 0 && Valid()
      modifies this
      ensures r.Ok? <==> CanWrite(g, old(miss), old(Owned()), d, name, |data|, stamp)
      ensures r.Ok? ==> Mid() && Settled()
      ensures r.Ok? && CleanWrite(g, old(miss), old(Owned()), d, name, |data|, stamp) ==>
              && Valid() && Written(old(fs), fs, WriteKey(old(fs), d, name), WriteName(old(fs), d, name), old(wit),
                                    data)
              && Logs(old(first), old(log), WriteOp(WriteKey(old(fs), d, name), WriteName(old(fs), d, name), data))
      ensures r.Ok? && FileThere(old(fs), (d, Canon(name))) && LoopingGrow(g, old(miss), old(Owned()), h, |data|) ==>
              RunsIntoLoop(flat.tab, PathOf(old(wit), h))
      ensures HeadThere(old(fs), (d, Canon(name)), h)
      ensures r.Ok? && !FileThere(old(fs), (d, Canon(name))) ==>
              (ReadsAs(g, flat.tab, sect, h, data) <==>
                 Numbered(g, old(miss), old(Owned()), d, ShortName(name), |data|, stamp))
      ensures r.Ok? && DoubleWrite(g, old(miss), old(Owned()), d, name, |data|, stamp) ==>
              TwoNamed(flat, d, ShortName(name))
      ensures r.Ok? ==> (HasReading(g, flat, sect) <==>
                           CleanWrite(g, old(miss), old(Owned()), d, name, |data|, stamp))
      ensures r.Err? ==> dev == old(dev) && root == old(root)
                         && FailedWrite(g, old(Owned()), sect, (d, Canon(name)), data)
      ensures LaterThan(old(root), root, r.Ok?)
      ensures r.Ok? ==> Dated(flat.dirs, h, stamp)
    {
      hide Legal, After, SpecStep, Fitted;
      hide Chart, ReserveOf, SnapOk, Ov, CommOk, Extends, Counted, Nonzero, Base, GeoOk, Inv, Canon, NameEqCi, Blocks,
           IsPath, AllIn, Key, NoneNamed, Named, HalfDone, CanGrow, CleanGrow, LoopingGrow, CanCreate, CleanCreate,
           LoopingCreate, DoubleCreate, TwoNamed, RunsIntoLoop, PointsAtItself, BuildEntry, Updated, Halfway,
           OldBlocks, NewObj, Names, ReadsAs, HasReading, Dated, Usurped, Numbered, GapCreate;
      ghost var o, mi := Owned(), miss;
      DirChainFacts(g, o, sect, d);
      NotFoundIff(g, o, sect, d, name);
      var at := FindEntry(d, name, o.w.path[d]);
      if at.Some? {
        FoundEntry(g, o, sect, d, at.value.0, at.value.1, name);
        var e := EntryOf(at.value.0, at.value.1, name, Blocks(base.tab, o.w.path[d]));
        NamesOf(g, o, sect);
        KeyType(o.fs, o.w.par, o.w.ent, o.w.data, e.anode);
        if e.entryType == ST_FILE || e.entryType == ST_ROLLOVERFILE {
          hide Mid;
          h := e.anode;
          r := Overwrite(d, name, e.anode, data, stamp);
          return;
        }
      }
      hide Mid;
      ghost var sect0, nb := sect, 0;
      r, h, nb := CreateFile(d, name, data, stamp);
      if CleanCreate(g, mi, o, d, ShortName(name), |data|, stamp) {
        CleanIs(g, mi, o, d, ShortName(name), |data|, stamp);
        if r.Ok? { NamedInTab(g, o, sect0, h); }
      }
    }

    method EntryOf(b: nat, i: nat, name: Name, ghost bl: seq<nat>) returns (e: Entry)
      requires Mid() && Named(flat.dirs, bl, b, i, name)
      ensures e == flat.dirs[b][i]
    {
      hide Chart, ReserveOf, SnapOk, CommOk, Extends, Ov, GeoOk, Counted, NameEqCi;
      DirInView(g, Cur(), b);
      var blk := ReadRaw(b);
      e := blk.ents[i];
    }

    // ---------------------------------------------------------------- listing and deleting

    /** The committed listing of directory `d`. */
    method ListDir(d: nat, ghost p: seq<nat>) returns (es: seq<Entry>)
      requires Tied() && IsPath(base.tab, d, p) && ANODE_EOF !in base.tab && AllIn(Blocks(base.tab, p), base.dirs)
      ensures es == Listing(base.dirs, Blocks(base.tab, p))
    {
      hide TabTie, SnapOk, Extends, View, UniqueKeys, IsPath, Blocks, BlockList, GeoOk, Nonzero, Base, IsMiss;
      var c := GetChain(d, p);
      BlockListIs(base.tab, p, c);
      var bl := BlockList(c);
      es := [];
      for i := 0 to |bl|
        invariant es == Listing(base.dirs, bl[..i])
      {
        assert bl[..i + 1][..i] == bl[..i];
        es := es + dev[bl[i]].ents;
      }
      assert bl[..|bl|] == bl;
    }

    /** Free every block of a file's anodes. */
    method FreeBlocksOf(c: seq<Anode>)
      requires Mid() && Releasable(g, flat.free, c)
      modifies `pending, `view, `dataBm, `blocksFree, `flat
      ensures Mid() && flat == Flat(old(flat.tab), old(flat.dirs), old(flat.free) + CoverSet(c), old(flat.resFree))
      ensures unchanged(`dev, `root, `sect, `base, `dabk, `miss, `wit, `fs, `first, `log)
    {
      hide Mid, Elems, Nrs, CoverSet, Releasable, CanFree;
      ghost var f := flat;
      assert c[..0] == [];
      CoverStart(f);
      for i := 0 to |c|
        invariant Mid() && flat == Flat(f.tab, f.dirs, f.free + CoverSet(c[..i]), f.resFree)
      {
        CoverNext(g, f, c, i);
        FreeExtent(c[i].slot.blk, 0, c[i].slot.size);
      }
      assert c[..|c|] == c;
    }

    /** Clear the slots of a chain's anodes. */
    method ClearAnodes(c: seq<Anode>, ghost p: seq<nat>)
      requires Mid() && IsChain(base.tab, p, c)
      modifies `pending, `view, `flat
      ensures Mid() && flat == Flat(old(flat.tab) - Elems(p), old(flat.dirs), old(flat.free), old(flat.resFree))
      ensures unchanged(`dev, `root, `sect, `base, `dabk, `miss, `wit, `fs, `first, `log)
    {
      hide Mid, Elems, PutTab;
      ghost var f := flat;
      ClearStart(f.tab, p);
      for i := 0 to |c|
        invariant Mid() && flat == Flat(f.tab - Elems(p[..i]), f.dirs, f.free, f.resFree)
      {
        ClearNext(f.tab, p, i);
        WriteAnode(c[i].nr, EMPTY_SLOT);
      }
      assert p[..|c|] == p;
    }

    /** Give back the reserved blocks of a directory chain. */
    method FreeReservedOf(c: seq<Anode>, ghost p: seq<nat>)
      requires Mid() && IsChain(base.tab, p, c) && flat == base && NoDup(Blocks(base.tab, p))
               && AllIn(Blocks(base.tab, p), flat.dirs)
      modifies `resBitmap, `reservedFree, `flat
      ensures Mid() && flat == Flat(base.tab, base.dirs - Elems(Blocks(base.tab, p)), base.free,
                                    base.resFree + Elems(Blocks(base.tab, p)))
      ensures unchanged(`dev, `root, `sect, `base, `dabk, `miss, `wit, `fs, `first, `log)
    {
      hide Mid, Elems, Blocks, BlockList;
      BlockListIs(base.tab, p, c);
      var bl := BlockList(c);
      NoneFreed(base, bl);
      for i := 0 to |bl|
        invariant Mid() && flat == Flat(base.tab, base.dirs - Elems(bl[..i]), base.free, base.resFree + Elems(bl[..i]))
      {
        OneMoreFreed(base, bl, i);
        FreeReserved(bl[i]);
      }
      assert bl[..|bl|] == bl;
    }

    /** Delete a file or an empty directory. Fails, changing nothing, exactly when the name is not
        in use or denotes a directory with something in it. */
    method Delete(d: nat, name: Name) returns (r: Result<()>)
      requires Valid() && d in wit.dh
      modifies this
      ensures r == Err(NotFound) <==> (d, Canon(name)) !in old(fs)
      ensures r == Err(NotEmpty) <==> Occupied(old(fs), (d, Canon(name)))
      ensures r.Ok? || r == Err(NotFound) || r == Err(NotEmpty)
      ensures r.Ok? ==> Valid() && fs == old(fs) - {(d, Canon(name))} && sect == old(sect)
      ensures r.Ok? ==> (d, Canon(name)) in old(fs) && wit.ent == old(wit.ent) - {old(fs)[(d, Canon(name))].anode}
      ensures r.Err? ==> unchanged(this)
      ensures r.Ok? ==> Logs(old(first), old(log), RemoveOp((d, Canon(name))))
      ensures r.Ok? ==> Owned() == DeletedOwn(old(Owned()), (d, Canon(name))) && miss == old(miss)
      ensures LaterThan(old(root), root, r.Ok?)
    {
      hide Legal, After, SpecStep, Fitted;
      hide Chart, ReserveOf, SnapOk, Ov, CommOk, Extends, Counted, Nonzero, Base, GeoOk, Inv, Canon, NameEqCi, Blocks,
           Listing, IsPath, AllIn, HasKids, Key, NoneNamed;
      ghost var o := Owned();
      ghost var key := (d, Canon(name));
      DirChainFacts(g, o, sect, d);
      NotFoundIff(g, o, sect, d, name);
      var es := ListDir(d, o.w.path[d]);
      var k := FindName(es, name);
      if k == |es| {
        UnlistedNone(base.dirs, Blocks(base.tab, o.w.path[d]), name);
        return Err(NotFound);
      }
      var target := es[k];
      ghost var b, i := ListedAt(base.dirs, Blocks(base.tab, o.w.path[d]), target, name);
      FoundEntry(g, o, sect, d, b, i, name);
      KeyType(o.fs, o.w.par, o.w.ent, o.w.data, target.anode) by { NamesOf(g, o, sect); }
      if IsDir(target) {
        DirChainFacts(g, o, sect, target.anode);
        ListsEmptyIff(g, o, sect, target.anode);
        var sub := ListDir(target.anode, o.w.path[target.anode]);
        if sub != [] { return Err(NotEmpty); }
        hide Mid;
        RemoveEmptyDir(d, name, target.anode);
      } else {
        hide Mid;
        RemoveFile(d, name, target.anode);
      }
      return Ok(());
    }

    /** Free a file's blocks, clear its anodes, remove its entry. */
    method RemoveFile(d: nat, name: Name, h: nat)
      requires Valid() && d in wit.dh && (d, Canon(name)) in fs && fs[(d, Canon(name))].anode == h
      requires h in wit.ent && h in wit.par && h in wit.path && h !in wit.dh
               && Key(wit.par, wit.ent, h) == (d, Canon(name))
      requires !Occupied(fs, (d, Canon(name)))
      modifies this
      ensures Valid() && fs == old(fs) - {(d, Canon(name))} && wit.ent == old(wit.ent) - {h} && sect == old(sect)
      ensures Logs(old(first), old(log), RemoveOp((d, Canon(name))))
      ensures Owned() == DeletedOwn(old(Owned()), (d, Canon(name))) && miss == old(miss)
      ensures LaterThan(old(root), root, true)
    {
      hide LaterThan;
      hide Legal, After, SpecStep, Fitted;
      hide Chart, ReserveOf, SnapOk, Ov, CommOk, Extends, Counted, Nonzero, Base, GeoOk, Inv, Canon, NameEqCi, Blocks,
           IsPath, AllIn, Key, NoneNamed, Releasable,
           ReleasablePath, PathCover, OwnedBy, CoverSet, Elems, Without, Nrs;
      ghost var o := Owned();
      DirChainFacts(g, o, sect, d);
      HeadInTab(g, o, sect, h);
      ChainReleasable(g, o, sect, h);
      NotFoundIff(g, o, sect, d, name);
      var c := GetChain(h, o.w.path[h]);
      WholeChain(g, base.tab, base.free, o.w.path[h], c);
      hide Mid;
      FreeBlocksOf(c);
      ClearAnodes(c, o.w.path[h]);
      var at := RemoveDirEntry(d, name, o.w.path[d]);
      SameReserve(o.f, flat, sys);
      FoundEntry(g, o, sect, d, at.value.0, at.value.1, name);
      if snug { FittedLess(g.rbs, o.f.dirs, at.value.0, at.value.1); }
      DeleteFileKeeps(g, o, sect, at.value.0, at.value.1, h);
      DeletedIs(g, o, sect, (d, Canon(name)), at.value.0, at.value.1, h);
      hide DeletedOwn;
      RemoveStep(o.fs, (d, Canon(name)));
      Finish(DeleteFileOwn(o, at.value.0, at.value.1, h), RemoveOp((d, Canon(name))));
    }

    /** Give back a directory's blocks, clear its anodes, remove its entry. */
    method RemoveEmptyDir(d: nat, name: Name, h: nat)
      requires Valid() && d in wit.dh && (d, Canon(name)) in fs && fs[(d, Canon(name))].anode == h
      requires h in wit.ent && h in wit.par && h in wit.path && h in wit.dh
               && Key(wit.par, wit.ent, h) == (d, Canon(name)) && wit.par[h] == d
      requires Listing(flat.dirs, Blocks(flat.tab, wit.path[h])) == []
      requires !Occupied(fs, (d, Canon(name)))
      modifies this
      ensures Valid() && fs == old(fs) - {(d, Canon(name))} && wit.ent == old(wit.ent) - {h} && sect == old(sect)
      ensures Logs(old(first), old(log), RemoveOp((d, Canon(name))))
      ensures Owned() == DeletedOwn(old(Owned()), (d, Canon(name))) && miss == old(miss)
      ensures LaterThan(old(root), root, true)
    {
      hide LaterThan;
      hide Legal, After, SpecStep, Fitted;
      hide Chart, ReserveOf, SnapOk, Ov, CommOk, Extends, Counted, Nonzero, Base, GeoOk, Inv, Canon, NameEqCi, Blocks,
           IsPath, AllIn, Key, NoneNamed,
           OwnedBy, Elems, Without, Nrs, NoKids, Listing, Named;
      ghost var o := Owned();
      DirChainFacts(g, o, sect, d);
      DirChainFacts(g, o, sect, h);
      ParentDiffers(g, o, sect, h);
      DirReleasable(g, o, sect, h, d);
      EmptyHasNoKids(g, o, sect, h);
      NotFoundIff(g, o, sect, d, name);
      ghost var gone := Elems(Blocks(o.f.tab, o.w.path[h]));
      var c := GetChain(h, o.w.path[h]);
      hide Mid;
      FreeReservedOf(c, o.w.path[h]);
      ClearAnodes(c, o.w.path[h]);
      SameNames(o.f.dirs, gone, Blocks(o.f.tab, o.w.path[d]), name);
      var at := RemoveDirEntry(d, name, o.w.path[d]);
      RemovedFrom(o.f.dirs, gone, Blocks(o.f.tab, o.w.path[d]), at.value.0, at.value.1, name);
      FoundEntry(g, o, sect, d, at.value.0, at.value.1, name);
      GiveReserve(o.f, flat, sys, Blocks(o.f.tab, o.w.path[h]), at.value.0, Without(o.f.dirs[at.value.0], at.value.1));
      if snug {
        FittedLess(g.rbs, o.f.dirs, at.value.0, at.value.1);
        FittedDrop(g.rbs, o.f.dirs[at.value.0 := Without(o.f.dirs[at.value.0], at.value.1)], gone);
      }
      DeleteDirKeeps(g, o, sect, at.value.0, at.value.1, h);
      DeletedIs(g, o, sect, (d, Canon(name)), at.value.0, at.value.1, h);
      hide DeletedOwn;
      RemoveStep(o.fs, (d, Canon(name)));
      Finish(DeleteDirOwn(o, at.value.0, at.value.1, h), RemoveOp((d, Canon(name))));
    }

    // ---------------------------------------------------------------- renaming

    /** Rename within a directory or across directories, replacing what the new name denoted.
        Afterwards what the writer keeps of the new name denotes the same chain with the same contents. A
        directory moved into itself is lost: the names are as for any other move, and no route leads to it
        any more. An object renamed onto its own name is lost as well, even when the result is an error.
        When a name is cut and what is left of it is in use, the directory lists that name twice; if it is
        the object's own, nothing changes but its spelling. */
    method Rename(sd: nat, sname: Name, dd: nat, dname: Name, stamp: Stamp) returns (r: Result<()>)
      requires Valid() && sd in wit.dh && dd in wit.dh
      modifies this
      ensures (sd, Canon(sname)) !in old(fs) ==> r == Err(NotFound) && unchanged(this)
      ensures r == Err(NotEmpty) <==> (sd, Canon(sname)) in old(fs) && Occupied(old(fs), (dd, Canon(dname)))
      ensures r == Err(NotEmpty) ==> unchanged(this)
      ensures r.Ok? <==> CanRename(g, old(miss), old(Owned()), (sd, Canon(sname)), (dd, Canon(dname)), dname, stamp)
      ensures snug && Slim(old(Owned()), (sd, Canon(sname)), (dd, Canon(dname))) && |dname| <= NAME_MAX
              && !Occupied(old(fs), (dd, Canon(dname))) ==>
              r.Ok?
      ensures SameSpot(sd, sname, dd, dname) && r.Ok? ==> Valid() && fs == old(fs) - {(sd, Canon(sname))}
      ensures SameSpot(sd, sname, dd, dname) && r.Err? && r != Err(NotEmpty) && (sd, Canon(sname)) in old(fs) ==>
              Whole(g, dev, base, dabk, miss, sect, old(fs) - {(sd, Canon(sname))})
      ensures !SameSpot(sd, sname, dd, dname) && r == Err(NotFound) ==> (sd, Canon(sname)) !in old(fs)
      ensures !SameSpot(sd, sname, dd, dname) && r.Ok? && Free(old(fs), dd, dname) ==>
              Strayed() && Renamed(old(fs) - {(dd, Canon(dname))}, fs, (sd, Canon(sname)),
                                   (dd, Canon(ShortName(dname))), ShortName(dname))
      ensures !SameSpot(sd, sname, dd, dname) && r.Ok? && Free(old(fs), dd, dname)
              && IntoItself(old(fs), (sd, Canon(sname)), dd) ==>
              Lost(old(fs), fs, (sd, Canon(sname)))
      ensures !SameSpot(sd, sname, dd, dname) && r.Ok? && Free(old(fs), dd, dname)
              && !IntoItself(old(fs), (sd, Canon(sname)), dd) ==>
              Valid() && Logs(old(first), Cleared(old(log), old(fs), (dd, Canon(dname))),
                              MoveOp((sd, Canon(sname)), (dd, Canon(ShortName(dname))), ShortName(dname)))
      ensures !SameSpot(sd, sname, dd, dname) && r.Ok? && !Free(old(fs), dd, dname)
              && !SameSpot(sd, sname, dd, ShortName(dname)) ==>
              Mid() && Settled() && TwoNamed(flat, dd, ShortName(dname)) && !HasReading(g, flat, sect)
      ensures !SameSpot(sd, sname, dd, dname) && r.Ok? && SameSpot(sd, sname, dd, ShortName(dname)) ==>
              Valid() && Respelled(old(fs) - {(dd, Canon(dname))}, fs, (sd, Canon(sname)), ShortName(dname))
      ensures !SameSpot(sd, sname, dd, dname) && r == Err(DiskFull) ==>
                Whole(g, dev, base, dabk, miss, sect, old(fs) - {(dd, Canon(dname))})
      ensures LaterThan(old(root), root, r.Ok?)
      ensures r.Ok? && !SameSpot(sd, sname, dd, dname) && !SameSpot(sd, sname, dd, ShortName(dname)) ==>
              DatedAt(old(fs), (sd, Canon(sname)), flat.dirs, stamp)
    {
      hide Legal, After, SpecStep, Fitted;
      hide Chart, ReserveOf, SnapOk, Ov, CommOk, Extends, Counted, Nonzero, Base, GeoOk, Inv, Canon, NameEqCi, Blocks,
           Listing, IsPath, AllIn, HasKids, Key, NoneNamed, Dated, TwoNamed, HasReading, Respelled, ShortName,
           Whole, Renamed, IntoItself, Occupied, CanMove, Lost, Loose, CanRename, DeletedOwn, RoomIn, MovedEntry, Slim;
      ghost var o, mi := Owned(), miss;
      ghost var k1, k2 := (sd, Canon(sname)), (dd, Canon(dname));
      DirChainFacts(g, o, sect, sd);
      DirChainFacts(g, o, sect, dd);
      NotFoundIff(g, o, sect, sd, sname);
      NotFoundIff(g, o, sect, dd, dname);
      SameIfShort(dname);
      var es := ListDir(sd, o.w.path[sd]);
      var k := FindName(es, sname);
      if k == |es| {
        UnlistedNone(base.dirs, Blocks(base.tab, o.w.path[sd]), sname);
        CannotRename(g, mi, o, k1, k2, dname, stamp);
        return Err(NotFound);
      }
      var e := es[k];
      ghost var b, i := ListedAt(base.dirs, Blocks(base.tab, o.w.path[sd]), e, sname);
      FoundEntry(g, o, sect, sd, b, i, sname);
      var ds := ListDir(dd, o.w.path[dd]);
      var j := FindName(ds, dname);
      hide Mid;
      if j < |ds| {
        ListedThere(o.f.dirs, Blocks(o.f.tab, o.w.path[dd]), ds[j], dname);
        ghost var sect0 := sect;
        var q := Delete(dd, dname);
        if q.Err? {
          CannotRename(g, mi, o, k1, k2, dname, stamp);
          return q;
        }
        if SameSpot(sd, sname, dd, dname) {
          KeepsDir(g, o, sect, Owned(), sd, k1);
        } else {
          AfterDelete(g, o, sect, Owned(), k1, k2, e.anode);
        }
        if snug && Slim(o, k1, k2) && |dname| <= NAME_MAX {
          if k1 == k2 {
            ReplaceFits(g, o, sect0, k1, k2, dname, stamp);
          } else {
            SlimRenames(g, mi, o, sect0, k1, k2, dname, stamp);
          }
        }
      } else {
        UnlistedNone(o.f.dirs, Blocks(o.f.tab, o.w.path[dd]), dname);
        NothingLost(o.fs, k2);
        NothingDeleted(o, k1, k2);
      }
      CanRenameIs(g, mi, o, k1, k2, dname, stamp, e);
      if k1 in fs { DenotesIs(g, Owned(), sect, k1); }
      ghost var fs1 := fs;
      r := MoveEntry(sd, sname, dd, dname, stamp, e);
      if Lost(fs1, fs, k1) { SameLoss(o.fs, fs1, fs, k1, k2); }
    }

    /** Write the entry under its new name, remove the old one, commit. It fails when there is no room
        for the entry, or when the old name is gone and no entry of that name was added to a block the
        directory had. */
    method MoveEntry(sd: nat, sname: Name, dd: nat, dname: Name, stamp: Stamp, e: Entry) returns (r: Result<()>)
      requires sd in wit.dh && dd in wit.dh
      requires (sd, Canon(sname)) in fs ==> Denotes(Owned(), (sd, Canon(sname)), e)
      requires Valid()
      modifies this
      ensures (sd, Canon(sname)) !in old(fs) ==>
                (r.Ok? <==> SameSpot(sd, sname, dd, ShortName(dname))
                            && RoomIn(g.rbs, old(Owned()), dd, MovedEntry(e, dname, stamp)))
      ensures (sd, Canon(sname)) in old(fs) ==>
                (r.Ok? <==> CanMove(g, old(miss), old(Owned()), (sd, Canon(sname)), dd, dname, stamp))
      ensures r.Ok? && (sd, Canon(sname)) !in old(fs) ==> Valid() && fs == old(fs)
      ensures r.Ok? && (sd, Canon(sname)) in old(fs) && (dd, Canon(ShortName(dname))) !in old(fs) ==>
                Strayed() && Renamed(old(fs), fs, (sd, Canon(sname)), (dd, Canon(ShortName(dname))), ShortName(dname))
      ensures r.Ok? && (dd, Canon(ShortName(dname))) !in old(fs) && IntoItself(old(fs), (sd, Canon(sname)), dd) ==>
                Lost(old(fs), fs, (sd, Canon(sname)))
      ensures r.Ok? && (sd, Canon(sname)) in old(fs) && (dd, Canon(ShortName(dname))) !in old(fs)
              && !IntoItself(old(fs), (sd, Canon(sname)), dd) ==>
              Valid() && Logs(old(first), old(log), MoveOp((sd, Canon(sname)), (dd, Canon(ShortName(dname))),
                                                           ShortName(dname)))
      ensures r.Ok? && (sd, Canon(sname)) in old(fs) && (dd, Canon(ShortName(dname))) in old(fs)
              && !SameSpot(sd, sname, dd, ShortName(dname)) ==>
              Mid() && Settled() && TwoNamed(flat, dd, ShortName(dname)) && !HasReading(g, flat, sect)
      ensures r.Ok? && (sd, Canon(sname)) in old(fs) && SameSpot(sd, sname, dd, ShortName(dname)) ==>
              Valid() && Respelled(old(fs), fs, (sd, Canon(sname)), ShortName(dname))
      ensures r.Ok? || r == Err(DiskFull) || (r == Err(NotFound) && (sd, Canon(sname)) !in old(fs))
      ensures r.Err? ==> Whole(g, dev, base, dabk, miss, sect, old(fs))
      ensures LaterThan(old(root), root, r.Ok?)
      ensures r.Ok? && (sd, Canon(sname)) in old(fs) && !SameSpot(sd, sname, dd, ShortName(dname)) ==>
              Dated(flat.dirs, e.anode, stamp)
    {
      hide Legal, After, SpecStep, Fitted, SnugIn;
      hide Chart, ReserveOf, SnapOk, Ov, Extends, Counted, Nonzero, Base, Inv, Canon, Blocks, IsPath, AllIn, Key,
           NoneNamed, GeoOk, CanMove, Lost, Loose, PlaceFlat, PlaceSys, PlacedOk, MovedEntry, CommOk, Supply,
           CapSet, HasRoom, Whole, RoomFor, IntoItself, SameSpot, Dated, TwoNamed, HasReading, Respelled;
      ghost var o, s, k1 := Owned(), ShortName(dname), (sd, Canon(sname));
      hide ShortName;
      DirChainFacts(g, o, sect, dd);
      SupplyPositive(g, dev, base, dabk, miss);
      MissingStill();
      assert GeoOk(g);
      IsWhole(g, dev, base, dabk, miss, sect, o);
      if k1 in fs { CanMoveIs(g, miss, o, k1, dd, dname, stamp, e); }
      hide Mid, Denotes;
      var e' := MovedEntry(e, dname, stamp);
      ShortMoved(e, dname, stamp);
      var a, pl := AddDirEntry(dd, e', o.w.path[dd]);
      if a.Err? { return Err(DiskFull); }
      ghost var sect0 := sect;
      PlaceReserve(o.f, o.sys, Blocks(o.f.tab, o.w.path[dd]), o.w.path[dd], e', pl);
      if snug {
        assert g.rbs >= 1024 by { WideBlocks(g); }
        MovedSnug(g.rbs, e, s, stamp);
      }
      r := DropOldName(sd, sname, dd, s, stamp, e, o, pl);
      if r.Ok? {
        if (dd, Canon(s)) !in o.fs {
          if IntoItself(o.fs, k1, dd) {
            IntoItselfType(o.fs, k1, dd);
            MovedIsLost(g, o, sect0, k1, (dd, Canon(s)), s, fs);
          }
        } else if k1 in o.fs && !SameSpot(sd, sname, dd, s) {
          TwiceUnreadable(g, flat, sect, dd, s);
        }
      }
    }

    /** Consistency between operations, except that a directory may lie inside itself. */
    ghost predicate Strayed()
      reads this
    {
      Mid() && Settled() && Loose(g, Owned(), sect)
    }

    ghost method Stray(o: Own)
      requires Mid() && Settled() && o.f == flat && o.sys == sys && o.fl == {} && Loose(g, o, sect)
      modifies `wit, `fs
      ensures Strayed() && Owned() == o
    {
      hide Chart, ReserveOf, SnapOk, View, UniqueKeys, CommOk, Extends, Nonzero, GeoOk, Base, Loose;
      wit, fs := o.w, o.fs;
    }

    /** Remove the old name of an entry whose new name has just been added, and commit. */
    method DropOldName(sd: nat, sname: Name, ghost dd: nat, ghost dname: Name, ghost stamp: Stamp, ghost e: Entry,
                       ghost o: Own, ghost pl: Placed)
        returns (r: Result<()>)
      requires Mid() && Logged() && Tidied() && o == Own(base, wit, fs, {}, o.sys) && sd in wit.dh && dd in wit.dh
               && dd in wit.path
      requires |dname| <= NAME_MAX && GeoOk(g)
      requires (sd, Canon(sname)) in fs ==> Denotes(o, (sd, Canon(sname)), e)
      requires PlacedOk(o.f, Blocks(o.f.tab, o.w.path[dd]), pl) && sys == PlaceSys(o.sys, pl)
      requires flat == PlaceFlat(o.f, o.w.path[dd], MovedEntry(e, dname, stamp), pl) && Inv(g, o, sect)
      modifies this
      ensures r.Ok? <==> (sd, Canon(sname)) in old(fs) || (SameSpot(sd, sname, dd, dname) && pl.InBlock?)
      ensures r.Err? ==> r.error == NotFound && unchanged(`dev, `base, `dabk, `miss, `sect)
      ensures r.Ok? && (sd, Canon(sname)) !in old(fs) ==> Valid() && fs == old(fs)
      ensures r.Ok? && (sd, Canon(sname)) in old(fs) && (dd, Canon(dname)) !in old(fs) ==>
                Strayed() && Renamed(old(fs), fs, (sd, Canon(sname)), (dd, Canon(dname)), dname)
      ensures r.Ok? && (sd, Canon(sname)) in old(fs) && (dd, Canon(dname)) !in old(fs)
              && !IntoItself(old(fs), (sd, Canon(sname)), dd) ==>
              Valid() && Logs(old(first), old(log), MoveOp((sd, Canon(sname)), (dd, Canon(dname)), dname))
      ensures r.Ok? && (sd, Canon(sname)) in old(fs) && (dd, Canon(dname)) in old(fs)
              && !SameSpot(sd, sname, dd, dname) ==>
              Mid() && Settled() && TwoNamed(flat, dd, dname)
      ensures r.Ok? && (sd, Canon(sname)) in old(fs) && SameSpot(sd, sname, dd, dname) ==>
              Valid() && Respelled(old(fs), fs, (sd, Canon(sname)), dname)
      ensures LaterThan(old(root), root, r.Ok?)
      ensures r.Ok? && (sd, Canon(sname)) in old(fs) && !SameSpot(sd, sname, dd, dname) ==>
                Dated(flat.dirs, e.anode, stamp)
    {
      hide LaterThan;
      hide Legal, After, SpecStep, Fitted;
      hide Mid, Inv, Canon, NameEqCi, Blocks, IsPath, AllIn, Key, NoneNamed, GeoOk, PlaceFlat, PlacedOk, Named,
           MovedEntry, MovedOwn, LessEntry, MoveDone,
           Loose, Renamed, IntoItself, ReserveOf, Dated, TwoNamed, Denotes, Respelled;
      DirChainFacts(g, o, sect, sd);
      MoveReady(g, o, sect, sd, sname, dd, dname, stamp, e, pl);
      ghost var f, k1, k2 := flat, (sd, Canon(sname)), (dd, Canon(dname));
      var at := RemoveDirEntry(sd, sname, o.w.path[sd]);
      IsLater(root, root, false);
      if at.Err? { return Err(NotFound); }
      ghost var b, i := at.value.0, at.value.1;
      ghost var bs := Blocks(o.f.tab, o.w.path[sd]);
      NamedNotNone(f.dirs, bs, b, i, sname);
      LessNamed(f, bs, b, i, sname);
      SameReserve(f, flat, sys);
      if snug { FittedLess(g.rbs, f.dirs, b, i); }
      ghost var o' := MovedOwn(o, b, i, e.anode, dd, dname, stamp, pl);
      MoveCases(g, o, sect, sd, sname, dd, dname, stamp, e, pl, b, i);
      ghost var back := k1 !in o.fs || (k1 == k2 && LessEntry(f, b, i) == o.f && pl.InBlock?);
      ghost var before := root;
      Commit();
      IsLater(before, root, true);
      if !back && (k1 == k2 || k2 !in o.fs) { AdoptMove(o, o', k1, k2, dname); }
      if k1 == k2 && k1 in o.fs { IsRespelled(o.fs, fs, k1, dname); }
      return Ok(());
    }

    /** The moved object is where its new name says; a directory may have moved into itself. */
    ghost method AdoptMove(was: Own, o: Own, k1: Spot, k2: Spot, name: Name)
      requires Mid() && Settled() && Logged() && Tidied() && was.fs == fs && (k1 == k2 || k2 !in fs)
      requires MoveDone(g, was, o, sect, flat, sys, k1, k2, name)
      modifies `wit, `fs, `log
      ensures Strayed() && Renamed(old(fs), fs, k1, k2, name)
      ensures !IntoItself(old(fs), k1, k2.0) ==> Valid() && Logs(old(first), old(log), MoveOp(k1, k2, name))
    {
      hide Mid, Settled, Legal, After, SpecStep, Fitted, Inv, Loose, IntoItself, Renamed;
      if IntoItself(fs, k1, k2.0) {
        Stray(o);
      } else {
        MoveStep(fs, o.fs, k1, k2, name);
        Adopt(o, MoveOp(k1, k2, name));
      }
    }

    method RegisterAnodeBlock(seqnr: nat, top: nat, nb: nat, x: Slot)
      requires Ov() && g.ipb > 0 && ANODE_USERFIRST < g.apb
      requires top == Top(g.indexblocks, Quot(seqnr, g.ipb)) && IsIndex(view, top, g.ipb) && top != nb
      modifies `pending, `view
      ensures Ov() && view == GrowStore(g, old(view), seqnr, nb, x)
    {
      hide View, UniqueKeys, Quot, Rem;
      Stage(nb, AnodeBlk(seq(g.apb, _ => EMPTY_SLOT)));
      var idx := ReadRaw(top);
      Stage(top, IndexBlk(idx.entries[Rem(seqnr, g.ipb) := nb]));
      var ab := ReadRaw(nb);
      Stage(nb, AnodeBlk(ab.slots[ANODE_USERFIRST := x]));
      assert view == GrowStore(g, old(view), seqnr, nb, x);
    }
  }

  /** Whatever operations led here, the check of the device comes to an end, and finds nothing to report
      unless the reserved area is a single block or directories are nested deeper than it goes. */
  method CheckVolume(w: Writer) returns (ctx: Check.CheckCtx)
    requires w.Valid()
    ensures w.g.ipb > 0 && w.g.stride > 0
    ensures ctx.errors == 0 <==> w.g.first < w.g.bmStart - 1 && Certify.NotTooDeep(Certify.DeviceVol(w.g, w.dev))
    ensures ctx.errors == 0 ==> (ctx.warnings == 0 <==> AllClear(w.tail))
  {
    hide Chart, ReserveOf, SnapOk, Extends, View, UniqueKeys, Nonzero, Base, Inv, CommOk, Legal, After, Certify.Shows,
         Certify.NotTooDeep, Check.Scans, Check.Clean,
         Check.DirHalts, Certify.DeviceVol;
    GeoFacts(w.g);
    assert w.g.bs > 0 by { SectorSize(w.g); }
    assert w.g.dataEnd > 0;
    hide GeoOk;
    ghost var o := w.Owned();
    Certify.VolumeShows(w.g, w.dev, w.dabk, w.miss, o, w.sect);
    var vol := Certify.DeviceVol(w.g, w.dev);
    assert vol.bs > 0 by { Certify.DeviceSize(w.g, w.dev); }
    Certify.ConsistentScans(vol, w.g, o, w.sect);
    ctx := new Check.CheckCtx();
    assert ctx.used.Keys == {};
    if w.g.first >= w.g.bmStart - 1 || w.g.dataEnd == 0 { ctx.errors := 1; }
    ctx.ScanDir(vol, ANODE_ROOTDIR, Descent.ROOT);
    var free := w.ScanFree();
    ctx.WarnUnless(free == w.root.blocksFree);
    ctx.WarnUnless(ANODE_EOF !in ctx.anodes);
    var resFree := w.ScanReserved();
    ClearIff(w.tail);
    ctx.WarnUnless(resFree == w.root.reservedFree);
  }

  lemma FreshFitted(p: Format.Plan)
    ensures Fitted(Format.GeoOf(p).rbs, Format.OwnOf(p).f.dirs)
  {
  }

  /** A freshly formatted disk, opened: no names, every data block free. Formatting succeeds exactly when
      the disk is larger than the two boot blocks and the reserved area together. */
  method OnFreshDisk(total: nat, sect: Sectors) returns (r: Result<Writer>, p: Format.Plan)
    requires total <= Format.MAX_SMALL_DISK && Format.Disk(sect, total)
    ensures r.Ok? <==> total > 2 + 2 * Format.ReservedFor(total)
    ensures r.Ok? ==> fresh(r.value) && r.value.Valid() && r.value.fs == map[]
                      && r.value.blocksFree == total - 2 - 2 * Format.ReservedFor(total) && r.value.g.dataEnd == total
    ensures r.Ok? ==> Format.PlanOk(p) && p.total == total && p.numRes == Format.ReservedFor(total)
                      && |Format.ResFreeOf(p)| >= 16
    ensures r.Ok? ==> r.value.g == Format.GeoOf(p) && r.value.Owned() == Format.OwnOf(p) && r.value.miss == 1
                      && r.value.sect == sect
    ensures r.Ok? ==> r.value.area == Format.ReservedBlocks(p) && r.value.snug && AllClear(r.value.tail)
    ensures r.Ok? ==> Format.Written(p, r.value.dev) && r.value.dev.Keys == Format.Laid(p)
    ensures r.Ok? ==> Format.RootFits(p) && r.value.root == Format.RootOf(p, |Format.FreeIn(p.bits)|)
  {
    hide Image, Legal, After, Format.PlanOk, Format.ReservedFor, ReserveOf, Format.ReservedBlocks, Format.Written,
         Format.Laid, Format.FreeIn;
    var f;
    f, p := Format.FormatDisk(total, sect);
    if f.Err? { return Err(f.error), p; }
    var w := new Writer.Open(f.value.g, f.value.dev, f.value.root, sect, Format.BmOf(p), Format.AbkOf(p), 1,
                             Format.OwnOf(p));
    Format.AllFree(p, f.value.g, f.value.dev, f.value.root, sect);
    assert w.snug by { FreshFitted(p); }
    return Ok(w), p;
  }
}
