/** How the reserved area holds the metadata: which block is what, and how the typed
    blocks, the bitmaps and the finite maps of the ownership model stay in step. */
module Layout {
  import opened Types
  import opened Bitmap
  import opened Anodes
  import opened Ownership
  import opened Table

  /** Reserved blocks as the writer sees them, with everything they must agree with. */
  datatype Snap = Snap(view: Store, abk: Link, flat: Flat, sys: set<nat>, bm: seq<BmBlock>, res: seq<Word>)

  ghost predicate DirTie(view: Store, dirs: Dirs) {
    forall b :: b in dirs ==> b in view && view[b] == DirBlk(dirs[b])
  }

  /** Each in-memory bitmap block equals its (possibly staged) block. */
  ghost predicate BmTie(view: Store, bm: seq<BmBlock>) {
    && (forall k :: 0 <= k < |bm| ==> bm[k].blk in view && view[bm[k].blk] == BitmapBlk(bm[k].words))
    && (forall j, k :: 0 <= j < k < |bm| ==> bm[j].blk != bm[k].blk)
  }

  ghost predicate SysTie(g: Geo, abk: Link, sys: set<nat>, bm: seq<BmBlock>) {
    && abk.Values <= sys
    && (forall i :: 0 <= i < |g.indexblocks| ==> g.indexblocks[i] == 0 || g.indexblocks[i] in sys)
    && (forall k :: 0 <= k < |bm| ==> bm[k].blk in sys)
  }

  /** The three kinds of reserved blocks are disjoint, and free data blocks are below the disk end. */
  ghost predicate Sep(g: Geo, flat: Flat, sys: set<nat>, n: nat) {
    && sys !! flat.resFree && sys !! flat.dirs.Keys && flat.dirs.Keys !! flat.resFree
    && (forall b :: b in flat.dirs ==> b != 0 && ResAligned(g, b, n))
    && (forall x :: x in flat.free ==> x < g.dataEnd)
  }

  /** Number of bitmap blocks to look for, capped against corrupt disk sizes. */
  function BmBlocks(g: Geo): nat
    requires g.ipb > 0
  {
    var n := Quot(g.dataEnd + PerBlock(g) - 1, PerBlock(g));
    if n <= 16384 then n else 16384
  }

  /** Block number of bitmap block `k`, through the bitmap index. */
  function BmResolve(g: Geo, view: Store, k: nat): nat
    requires g.ipb > 0
  {
    ResolveSmall(g.ipb, g.bmIndex, view, k)
  }

  /** The bitmap index leads to exactly the bitmap blocks, and is not itself an anode index. */
  ghost predicate BmIndexTie(g: Geo, view: Store, sys: set<nat>, bm: seq<BmBlock>) {
    && g.ipb > 0 && |bm| <= BmBlocks(g)
    && (forall b :: b in g.bmIndex && b != 0 ==> b in sys && b in view && view[b].IndexBlk? && b !in g.indexblocks)
    && (forall k {:trigger BmResolve(g, view, k)} :: 0 <= k < BmBlocks(g) ==>
                                                       BmResolve(g, view, k) == if k < |bm| then bm[k].blk else 0)
  }

  /** Nothing but the index blocks themselves matters to the bitmap index. */
  lemma BmIndexFrame(g: Geo, view: Store, view': Store, sys: set<nat>, sys': set<nat>, bm: seq<BmBlock>,
                     bm': seq<BmBlock>)
    requires BmIndexTie(g, view, sys, bm) && sys <= sys' && |bm'| == |bm|
             && forall k :: 0 <= k < |bm| ==> bm'[k].blk == bm[k].blk
    requires forall b :: b in g.bmIndex && b != 0 ==> b in view' && b in view && view'[b] == view[b]
    ensures BmIndexTie(g, view', sys', bm')
  {
    hide Quot, Rem, BmBlocks;
    forall k | 0 <= k < BmBlocks(g) ensures BmResolve(g, view', k) == if k < |bm'| then bm'[k].blk else 0 {
      var top := Top(g.bmIndex, Quot(k, g.ipb));
      assert BmResolve(g, view, k) == if k < |bm| then bm[k].blk else 0;
      assert top != 0 ==> top in g.bmIndex;
    }
  }

  ghost predicate SnapOk(g: Geo, s: Snap) {
    && TabTie(g, s.view, s.abk, s.flat.tab)
    && DirTie(s.view, s.flat.dirs)
    && BmTie(s.view, s.bm)
    && FreeTie(g, s.bm, s.flat.free)
    && ResTie(g, s.res, s.flat.resFree)
    && SysTie(g, s.abk, s.sys, s.bm)
    && Sep(g, s.flat, s.sys, |s.res|)
    && BmIndexTie(g, s.view, s.sys, s.bm)
  }

  lemma NotIndex(g: Geo, abk: Link, sys: set<nat>, bm: seq<BmBlock>, b: nat)
    requires SysTie(g, abk, sys, bm) && b !in sys && b != 0
    ensures b !in g.indexblocks && b !in abk.Values
  {
  }

  /** A directory block rewritten, or a block just taken becoming one. */
  ghost function WithDir(s: Snap, b: nat, es: seq<Entry>): Snap {
    Snap(s.view[b := DirBlk(es)], s.abk, Flat(s.flat.tab, s.flat.dirs[b := es], s.flat.free, s.flat.resFree), s.sys,
         s.bm, s.res)
  }

  lemma WithDirOk(g: Geo, s: Snap, b: nat, es: seq<Entry>)
    requires SnapOk(g, s) && b !in s.sys && b !in s.flat.resFree && b != 0 && ResAligned(g, b, |s.res|)
    ensures SnapOk(g, WithDir(s, b, es))
  {
    hide TabTie, FreeTie, ResTie, ResAligned;
    BmIndexFrame(g, s.view, s.view[b := DirBlk(es)], s.sys, s.sys, s.bm, s.bm) by { hide SysTie, Sep, BmTie, DirTie; }
    hide BmIndexTie;
    NotIndex(g, s.abk, s.sys, s.bm, b);
    TabFrame(g, s.view, s.abk, s.flat.tab, b, DirBlk(es));
    assert BmTie(s.view[b := DirBlk(es)], s.bm) by {
      forall k | 0 <= k < |s.bm| ensures s.bm[k].blk != b { assert s.bm[k].blk in s.sys; }
    }
  }

  /** One reserved block taken from the bitmap. */
  ghost function WithoutRes(g: Geo, s: Snap, q: nat): Snap
    requires WordsOk(s.res) && q < 32 * |s.res|
  {
    Snap(s.view, s.abk, Flat(s.flat.tab, s.flat.dirs, s.flat.free,
                             s.flat.resFree - {BitBlock(g.first, g.rescluster, q)}),
         s.sys, s.bm, SetBit(s.res, q, false))
  }

  lemma WithoutResOk(g: Geo, s: Snap, q: nat)
    requires SnapOk(g, s) && q < 32 * |s.res| && g.rescluster > 0
    ensures SnapOk(g, WithoutRes(g, s, q))
  {
    hide TabTie, FreeTie, DirTie, BmTie, SysTie, SetBit, BitBlock, ResAligned, BmIndexTie;
    ResTieSet(g, s.res, s.flat.resFree, q, false);
  }

  /** One directory block given back. */
  ghost function WithRes(g: Geo, s: Snap, q: nat): Snap
    requires WordsOk(s.res) && q < 32 * |s.res|
  {
    var b := BitBlock(g.first, g.rescluster, q);
    Snap(s.view, s.abk, Flat(s.flat.tab, s.flat.dirs - {b}, s.flat.free, s.flat.resFree + {b}), s.sys, s.bm,
         SetBit(s.res, q, true))
  }

  lemma WithResOk(g: Geo, s: Snap, q: nat)
    requires SnapOk(g, s) && q < 32 * |s.res| && g.rescluster > 0 && BitBlock(g.first, g.rescluster, q) !in s.sys
    ensures SnapOk(g, WithRes(g, s, q))
  {
    hide TabTie, FreeTie, BmTie, SysTie, SetBit, BitBlock, ResAligned, BmIndexTie;
    ResTieSet(g, s.res, s.flat.resFree, q, true);
  }

  /** Bitmap block `k` gets new words and is staged. */
  ghost function WithWords(s: Snap, k: nat, ws: seq<Word>, free: set<nat>): Snap
    requires k < |s.bm|
  {
    Snap(s.view[s.bm[k].blk := BitmapBlk(ws)], s.abk, Flat(s.flat.tab, s.flat.dirs, free, s.flat.resFree),
         s.sys, s.bm[k := BmBlock(s.bm[k].blk, ws)], s.res)
  }

  lemma NotAnodeBlock(g: Geo, view: Store, abk: Link, b: nat)
    requires IndexTie(g, view, abk) && BlocksTie(g, view, abk) && b in view && b != 0
    requires !view[b].AnodeBlk? && !view[b].IndexBlk?
    ensures b !in g.indexblocks && b !in abk.Values
  {
    hide Resolve;
    assert forall i :: 0 <= i < |g.indexblocks| && g.indexblocks[i] != 0 ==> IsIndex(view, g.indexblocks[i], g.ipb);
    assert forall s :: s in abk ==> IsAnodeBlk(g, view, abk[s]);
  }

  lemma WithWordsOk(g: Geo, s: Snap, k: nat, ws: seq<Word>, free: set<nat>)
    requires SnapOk(g, s) && k < |s.bm| && s.bm[k].blk != 0 && FreeTie(g, s.bm[k := BmBlock(s.bm[k].blk, ws)], free)
    requires forall x :: x in free ==> x < g.dataEnd
    ensures SnapOk(g, WithWords(s, k, ws, free))
  {
    hide ResAligned, FreeTie, ResTie, IndexTie, BlocksTie, SlotsTie;
    var b := s.bm[k].blk;
    BmIndexFrame(g, s.view, s.view[b := BitmapBlk(ws)], s.sys, s.sys, s.bm, s.bm[k := BmBlock(b, ws)])
      by { hide SysTie, Sep, DirTie; }
    hide BmIndexTie;
    NotAnodeBlock(g, s.view, s.abk, b);
    TabFrame(g, s.view, s.abk, s.flat.tab, b, BitmapBlk(ws));
    assert DirTie(s.view[b := BitmapBlk(ws)], s.flat.dirs);
    var bm' := s.bm[k := BmBlock(b, ws)];
    forall j | 0 <= j < |bm'| ensures bm'[j].blk == s.bm[j].blk { }
  }

  /** Anode slot `o` of sequence number `q` rewritten. */
  ghost function WithSlot(g: Geo, s: Snap, q: nat, o: nat, x: Slot): Snap
    requires q in s.abk && IsAnodeBlk(g, s.view, s.abk[q]) && o < g.apb
  {
    Snap(PutSlot(s.view, s.abk[q], o, x), s.abk,
         Flat(PutTab(s.flat.tab, Enc(g, q, o), x), s.flat.dirs, s.flat.free, s.flat.resFree),
         s.sys, s.bm, s.res)
  }

  lemma WithSlotOk(g: Geo, s: Snap, q: nat, o: nat, x: Slot)
    requires SnapOk(g, s) && q in s.abk && o < g.apb <= g.stride
    ensures IsAnodeBlk(g, s.view, s.abk[q]) && SnapOk(g, WithSlot(g, s, q, o, x))
  {
    hide ResAligned, FreeTie, ResTie, TabTie, PutTab;
    AnodeBlockAt(g, s.view, s.abk, s.flat.tab, q);
    BmIndexFrame(g, s.view, PutSlot(s.view, s.abk[q], o, x), s.sys, s.sys, s.bm, s.bm)
      by { hide SysTie, Sep, DirTie, BmTie; }
    hide BmIndexTie;
    PutSlotTie(g, s.view, s.abk, s.flat.tab, q, o, x);
    assert DirTie(PutSlot(s.view, s.abk[q], o, x), s.flat.dirs);
    assert BmTie(PutSlot(s.view, s.abk[q], o, x), s.bm);
  }

  lemma AnodeBlockAt(g: Geo, view: Store, abk: Link, tab: Tab, q: nat)
    requires TabTie(g, view, abk, tab) && q in abk
    ensures IsAnodeBlk(g, view, abk[q])
  {
    hide IndexTie, SlotsTie;
  }

  /** A reserved block just taken becomes the anode block of sequence number `q`. */
  ghost function WithGrowth(g: Geo, s: Snap, q: nat, nb: nat, x: Slot): Snap
    requires g.ipb > 0 && ANODE_USERFIRST < g.apb && g.stride > 0
    requires IsIndex(s.view, Top(g.indexblocks, Quot(q, g.ipb)), g.ipb) && Top(g.indexblocks, Quot(q, g.ipb)) != nb
  {
    Snap(GrowStore(g, s.view, q, nb, x), s.abk[q := nb],
         Flat(GrowTab(g, s.flat.tab, q, x), s.flat.dirs, s.flat.free, s.flat.resFree),
         s.sys + {nb}, s.bm, s.res)
  }

  lemma WithGrowthOk(g: Geo, s: Snap, q: nat, nb: nat, x: Slot)
    requires SnapOk(g, s) && GeoOk(g) && Top(g.indexblocks, Quot(q, g.ipb)) != 0 && !Vacant(x)
    requires nb != 0 && nb !in s.sys && nb !in s.flat.resFree && nb !in s.flat.dirs
    ensures IsIndex(s.view, Top(g.indexblocks, Quot(q, g.ipb)), g.ipb) && Top(g.indexblocks, Quot(q, g.ipb)) != nb
    ensures SnapOk(g, WithGrowth(g, s, q, nb, x))
  {
    hide ResAligned, FreeTie, ResTie, TabTie, Quot, Rem, GrowTab, FreshAnodes, GeoOk, BmBlocks, BmResolve;
    NotIndex(g, s.abk, s.sys, s.bm, nb);
    assert g.ipb > 0 && ANODE_USERFIRST < g.apb <= g.stride by { GeoFacts(g); }
    GrowTie(g, s.view, s.abk, s.flat.tab, q, nb, x);
    assert DirTie(GrowStore(g, s.view, q, nb, x), s.flat.dirs);
    assert BmTie(GrowStore(g, s.view, q, nb, x), s.bm);
    GrowSys(g, s.abk, s.sys, s.bm, q, nb);
    BmIndexFrame(g, s.view, GrowStore(g, s.view, q, nb, x), s.sys, s.sys + {nb}, s.bm, s.bm)
      by { hide SysTie, Sep, DirTie, BmTie; }
  }

  lemma GeoFacts(g: Geo)
    requires GeoOk(g)
    ensures g.ipb > 0 && ANODE_USERFIRST < g.apb <= g.stride
  {
  }

  lemma GrowSys(g: Geo, abk: Link, sys: set<nat>, bm: seq<BmBlock>, q: nat, nb: nat)
    requires SysTie(g, abk, sys, bm)
    ensures SysTie(g, abk[q := nb], sys + {nb}, bm)
  {
    forall v | v in abk[q := nb].Values ensures v in sys + {nb} {
      var k :| k in abk[q := nb] && abk[q := nb][k] == v;
      if k != q { assert abk[k] in abk.Values; }
    }
  }
}
