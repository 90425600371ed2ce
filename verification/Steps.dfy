/** Facts about single steps of the writer, on values: what each one needs to know about the
    volume and what it changes. */
module Steps {
  import opened Types
  import opened Bitmap
  import opened Anodes
  import opened Ownership
  import opened Table
  import opened Overlay
  import opened Runs
  import opened Layout
  import opened Transitions
  import opened Directory
  import opened Sets

  /** The root cluster: counters, datestamp and the reserved bitmap. */
  datatype Root = Root(datestamp: nat, reservedFree: nat, blocksFree: nat, res: seq<Word>, rest: seq<Word>)

  /** Some entry of head `h` carries this date. */
  ghost predicate Dated(dirs: Dirs, h: nat, stamp: Stamp) {
    exists b, i :: b in dirs && 0 <= i < |dirs[b]| && dirs[b][i].anode == h && dirs[b][i].stamp == stamp
  }

  /** The entry of what `k` denoted carries this date. */
  ghost predicate DatedAt(fs: FS, k: (nat, Name), dirs: Dirs, stamp: Stamp) {
    k in fs && Dated(dirs, fs[k].anode, stamp)
  }

  /** The datestamp never goes back, and a commit raises it. */
  ghost predicate LaterThan(before: Root, after: Root, done: bool) {
    before.datestamp <= after.datestamp && (done ==> before.datestamp < after.datestamp)
  }

  lemma IsLater(before: Root, after: Root, done: bool)
    requires before.datestamp <= after.datestamp && (done ==> before.datestamp < after.datestamp)
    ensures LaterThan(before, after, done)
  {
  }

  const MAX_SEQ: nat := 256

  /** The first sequence number without an anode block. */
  ghost predicate IsMiss(abk: Link, miss: nat) {
    miss !in abk && forall s :: 0 <= s < miss ==> s in abk
  }

  /** Slots the allocator can find through the committed index. */
  ghost function CapSet(g: Geo, miss: nat): set<nat>
    requires g.stride > 0
  {
    set nr: nat | ANODE_USERFIRST <= nr < miss * g.stride && SeqOf(g, nr) < miss && OffOf(g, nr) < g.apb
  }

  /** What the device holds, apart from anything staged. */
  ghost predicate CommOk(g: Geo, dev: Store, base: Flat, dabk: Link, miss: nat) {
    && TabTie(g, dev, dabk, base.tab) && DirTie(dev, base.dirs)
    && IsMiss(dabk, miss) && (forall s :: s in dabk ==> s < MAX_SEQ)
  }

  /** At most one anode block has been registered since the last commit. */
  ghost predicate Extends(dabk: Link, abk: Link, miss: nat) {
    && (forall s :: s in dabk ==> s in abk && abk[s] == dabk[s])
    && (forall s :: s in abk ==> s < MAX_SEQ && (s in dabk || s == miss))
  }

  // ---------------------------------------------------------------- what allocations need

  /** Vacant slots in the anode blocks the committed index reaches. */
  ghost function Left(g: Geo, miss: nat, tab: Tab): nat {
    if g.stride > 0 then |CapSet(g, miss) - tab.Keys| else 0
  }

  /** A new anode block could be entered in the index. */
  ghost predicate Registrable(g: Geo, miss: nat) {
    g.ipb > 0 && miss < MAX_SEQ && Top(g.indexblocks, Quot(miss, g.ipb)) != 0
  }

  function Over(a: nat, b: nat): nat {
    if a <= b then 0 else a - b
  }

  /** Enough for `anodes` anodes and `blocks` directory blocks: vacant slots, and past those a
      reserved block for each anode and an index to enter it in. */
  ghost predicate Enough(g: Geo, miss: nat, left: nat, res: nat, anodes: nat, blocks: nat) {
    (anodes <= left || Registrable(g, miss)) && Over(anodes, left) + blocks <= res
  }

  /** Enough for this many anodes and directory blocks, starting from metadata `f`. */
  ghost predicate RoomFor(g: Geo, miss: nat, f: Flat, anodes: nat, blocks: nat) {
    Enough(g, miss, Left(g, miss, f.tab), |f.resFree|, anodes, blocks)
  }

  /** Taking `a` anodes and `b` blocks first and `c` and `d` afterwards needs what taking all at once does. */
  lemma EnoughSplit(g: Geo, miss: nat, left: nat, res: nat, a: nat, b: nat, c: nat, d: nat)
    ensures Enough(g, miss, left, res, a + c, b + d) <==>
            Enough(g, miss, left, res, a, b) && Enough(g, miss, Over(left, a), Over(res, Over(a, left) + b), c, d)
  {
    hide Registrable;
    assert Over(a + c, left) == Over(a, left) + Over(c, Over(left, a));
  }

  lemma EnoughBlock(g: Geo, miss: nat, left: nat, res: nat)
    ensures Enough(g, miss, left, res, 0, 1) <==> res > 0
    ensures Over(left, 0) == left && Over(res, Over(0, left) + 1) == (if res > 0 then res - 1 else 0)
  {
  }

  ghost predicate Nonzero(bm: seq<BmBlock>) {
    forall k :: 0 <= k < |bm| ==> bm[k].blk != 0
  }

  ghost predicate Covers(cap: set<nat>, tab: Tab) {
    forall nr :: nr in cap ==> nr in tab
  }

  lemma CapStart(g: Geo, tab: Tab)
    requires g.stride > 0
    ensures Covers(CapSet(g, 0), tab)
  {
  }

  /** The first vacant slot whose anode number is not one of the predefined ones. */
  method FindVacant(g: Geo, seqnr: nat, slots: seq<Slot>) returns (r: Option<nat>)
    ensures r.Some? ==> r.value < |slots| && Enc(g, seqnr, r.value) >= ANODE_USERFIRST && Vacant(slots[r.value])
    ensures r.None? ==> forall o :: 0 <= o < |slots| && Enc(g, seqnr, o) >= ANODE_USERFIRST ==> !Vacant(slots[o])
  {
    for o := 0 to |slots|
      invariant forall p :: 0 <= p < o && Enc(g, seqnr, p) >= ANODE_USERFIRST ==> !Vacant(slots[p])
    {
      if Enc(g, seqnr, o) < ANODE_USERFIRST { continue; }
      if slots[o].size == 0 && slots[o].blk == 0 { return Some(o); }
    }
    return None;
  }

  /** The committed index resolves a committed sequence number to its current block. */
  lemma Committed(g: Geo, dev: Store, base: Flat, dabk: Link, abk: Link, miss: nat, q: nat)
    requires g.ipb > 0 && CommOk(g, dev, base, dabk, miss) && Extends(dabk, abk, miss) && q in dabk
    ensures q in abk && Resolve(g, dev, q) == abk[q]
  {
    hide Resolve, DirTie, SlotsTie, BlocksTie;
    assert Resolve(g, dev, q) == dabk[q];
  }

  lemma Committed2(g: Geo, dev: Store, base: Flat, dabk: Link, abk: Link, miss: nat, q: nat)
    requires g.ipb > 0 && CommOk(g, dev, base, dabk, miss) && Extends(dabk, abk, miss) && Resolve(g, dev, q) != 0
    requires q <= miss
    ensures q in dabk && q in abk && Resolve(g, dev, q) == abk[q] && q < miss
  {
    hide Resolve, DirTie, SlotsTie, BlocksTie;
  }

  lemma CommittedAnode(g: Geo, dev: Store, base: Flat, dabk: Link, miss: nat, nr: nat)
    requires CommOk(g, dev, base, dabk, miss) && nr in base.tab
    ensures g.stride > 0 && SeqOf(g, nr) in dabk && OffOf(g, nr) < g.apb
  {
  }

  /** Scanning upwards, the first sequence number that does not resolve is the missing one. */
  lemma MissHere(g: Geo, dev: Store, base: Flat, dabk: Link, miss: nat, q: nat)
    requires g.ipb > 0 && CommOk(g, dev, base, dabk, miss) && q <= miss && Resolve(g, dev, q) == 0
    ensures q == miss
  {
    hide Resolve, DirTie, SlotsTie, BlocksTie;
  }

  lemma BlockThere(g: Geo, s: Snap, q: nat)
    requires SnapOk(g, s) && q in s.abk
    ensures s.abk[q] in s.view && s.view[s.abk[q]].AnodeBlk? && |s.view[s.abk[q]].slots| == g.apb
  {
    hide BmIndexTie, IndexTie, SlotsTie, DirTie, BmTie, FreeTie, ResTie, SysTie, Sep;
    assert IsAnodeBlk(g, s.view, s.abk[q]);
  }

  lemma SlotTied(g: Geo, s: Snap, q: nat, o: nat)
    requires SnapOk(g, s) && q in s.abk && o < g.apb
    ensures Enc(g, q, o) in s.flat.tab <==> !Vacant(SlotAt(s.view, s.abk[q], o))
  {
    hide BmIndexTie, IndexTie, BlocksTie, DirTie, BmTie, FreeTie, ResTie, SysTie, Sep, SlotAt, Vacant, Enc;
  }

  lemma CapMember(g: Geo, miss: nat, q: nat, o: nat)
    requires o < g.apb <= g.stride && q < miss && Enc(g, q, o) >= ANODE_USERFIRST
    ensures Enc(g, q, o) in CapSet(g, miss)
  {
    EncInverse(g, q, o);
    MulLe(q + 1, miss, g.stride);
  }

  lemma FoundSlot(g: Geo, s: Snap, q: nat, o: nat, x: Slot, miss: nat)
    requires SnapOk(g, s) && GeoOk(g) && q in s.abk && o < g.apb && q < miss && !Vacant(x)
    requires Enc(g, q, o) >= ANODE_USERFIRST && Vacant(SlotAt(s.view, s.abk[q], o))
    ensures AllocStep(g, CapSet(g, miss), miss, s.flat.tab, x, Enc(g, q, o), PutTab(s.flat.tab, Enc(g, q, o), x))
    ensures Enc(g, q, o) in CapSet(g, miss) && Enc(g, q, o) !in s.flat.tab
  {
    SlotTied(g, s, q, o);
    hide SnapOk, Enc, SlotAt, Vacant, GrowTab, CapSet, SeqOf;
    CapMember(g, miss, q, o);
    assert Enc(g, q, o) in CapSet(g, miss) - s.flat.tab.Keys;
  }

  lemma SweepSlots(g: Geo, s: Snap, q: nat)
    requires SnapOk(g, s) && GeoOk(g) && q in s.abk && Covers(CapSet(g, q), s.flat.tab)
    requires forall o :: 0 <= o < g.apb && Enc(g, q, o) >= ANODE_USERFIRST ==> !Vacant(SlotAt(s.view, s.abk[q], o))
    ensures Covers(CapSet(g, q + 1), s.flat.tab)
  {
    hide SnapOk, Enc, SlotAt, Vacant, SeqOf, OffOf;
    forall nr | nr in CapSet(g, q + 1) ensures nr in s.flat.tab {
      SplitInverse(g, nr);
      if SeqOf(g, nr) == q {
        SlotTied(g, s, q, OffOf(g, nr));
      } else {
        CapMember(g, q, SeqOf(g, nr), OffOf(g, nr));
      }
    }
  }

  predicate Between(a: nat, b: nat, x: nat) {
    a <= x < b
  }

  /** The extents of a chain are in use, in the data area, and do not overlap. */
  ghost predicate ReleasablePath(g: Geo, tab: Tab, free: set<nat>, p: seq<nat>) {
    && (forall i, x :: 0 <= i < |p| && p[i] in tab && InExt(tab[p[i]], x) ==> InData(g, x) && x !in free)
    && (forall i, j, x ::
          0 <= i < j < |p| && p[i] in tab && p[j] in tab && InExt(tab[p[i]], x) ==> !InExt(tab[p[j]], x))
  }

  ghost function ChainOf(tab: Tab, p: seq<nat>): (c: seq<Anode>)
    ensures |c| == |p|
  {
    seq(|p|, i requires 0 <= i < |p| => Anode(p[i], if p[i] in tab then tab[p[i]] else EMPTY_SLOT))
  }

  /** Blocks of the anodes of `p` from index `k` on. */
  ghost function PathCover(tab: Tab, p: seq<nat>, k: nat): set<nat>
    requires k <= |p|
  {
    CoverSet(ChainOf(tab, p[k..]))
  }

  /** Blocks a cut releases. */
  ghost function CutFree(tab: Tab, p: seq<nat>, k: nat, m: nat): set<nat>
    requires 0 < k <= |p| && p[k - 1] in tab
  {
    Range(tab[p[k - 1]].blk + m, tab[p[k - 1]].blk + tab[p[k - 1]].size) + PathCover(tab, p, k)
  }

  /** `f` is `b` with the chain `p` cut to `keep` blocks: `k` anodes, the last with `m` blocks. */
  ghost predicate IsCut(b: Flat, f: Flat, p: seq<nat>, k: nat, m: nat, keep: nat) {
    && 0 < k <= |p| && p[k - 1] in b.tab && 0 < m <= b.tab[p[k - 1]].size
    && f.tab == CutTab(b.tab, p, k, m) && f.free == b.free + CutFree(b.tab, p, k, m)
    && |Blocks(f.tab, p[..k])| == keep
  }

  /** A cut chain holds the first `keep` blocks of the old one, and exactly the others are released. */
  lemma CutIsPrefix(b: Flat, f: Flat, h: nat, p: seq<nat>, k: nat, m: nat, keep: nat)
    requires IsPath(b.tab, h, p) && IsCut(b, f, p, k, m, keep)
    ensures keep <= |Blocks(b.tab, p)| && Blocks(f.tab, p[..k]) == Blocks(b.tab, p)[..keep]
    ensures f.free == b.free + Elems(Blocks(b.tab, p)[keep..]) && f.tab.Keys == b.tab.Keys - Elems(p[k..])
  {
    CutBlockList(b.tab, h, p, k, m);
    CutApart(b.tab, h, p, k, p[k - 1]);
    CutTail(b.tab, h, p, k, m);
    hide Blocks, IsPath, CutFree, TailBlocks;
    assert f.tab.Keys == b.tab.Keys - Elems(p[k..]);
  }

  lemma CutTail(tab: Tab, h: nat, p: seq<nat>, k: nat, m: nat)
    requires IsPath(tab, h, p) && 0 < k <= |p| && m <= tab[p[k - 1]].size
    ensures Elems(TailBlocks(tab, p, k, m)) == CutFree(tab, p, k, m)
  {
    hide Blocks, CoverSet;
    var s, q := tab[p[k - 1]], p[k..];
    var c := ChainOf(tab, q);
    forall x: nat ensures x in Elems(TailBlocks(tab, p, k, m)) <==> x in CutFree(tab, p, k, m) {
      RangeMember(s.blk + m, s.blk + s.size, x);
      CoverMember(c, x);
      BlocksMember(tab, q, x);
      var tail := seq(s.size - m, i requires 0 <= i => s.blk + m + i);
      if s.blk + m <= x < s.blk + s.size { assert tail[x - s.blk - m] == x; }
      assert (exists i :: 0 <= i < |c| && InExt(c[i].slot, x)) <==> exists i :: 0 <= i < |q| && InExt(tab[q[i]], x) by {
        assert forall i :: 0 <= i < |q| ==> c[i].slot == tab[q[i]];
        if i :| 0 <= i < |q| && InExt(tab[q[i]], x) { assert InExt(c[i].slot, x); }
        if i :| 0 <= i < |c| && InExt(c[i].slot, x) { assert InExt(tab[q[i]], x); }
      }
    }
  }

  lemma ChainIs(tab: Tab, p: seq<nat>, c: seq<Anode>, k: nat)
    requires IsChain(tab, p, c) && k <= |p|
    ensures c[k..] == ChainOf(tab, p[k..]) && Nrs(c[k..]) == p[k..]
  {
  }

  lemma ReleaseFrom(g: Geo, tab: Tab, free: set<nat>, p: seq<nat>, c: seq<Anode>, k: nat)
    requires ReleasablePath(g, tab, free, p) && IsChain(tab, p, c) && k <= |p|
    ensures Releasable(g, free, c[k..]) && CoverSet(c[k..]) == PathCover(tab, p, k)
            && Elems(Nrs(c[k..])) == Elems(p[k..])
  {
    ChainIs(tab, p, c, k);
    hide CoverSet, ChainOf;
    forall i, x | 0 <= i < |c[k..]| && InExt(c[k..][i].slot, x) ensures InData(g, x) && x !in free {
      assert c[k..][i] == c[k + i];
    }
    forall i, j, x | 0 <= i < j < |c[k..]| && InExt(c[k..][i].slot, x) ensures !InExt(c[k..][j].slot, x) {
      assert c[k..][i] == c[k + i] && c[k..][j] == c[k + j];
    }
  }

  lemma SuffixIn(tab: Tab, p: seq<nat>, c: seq<Anode>, k: nat)
    requires IsChain(tab, p, c) && k <= |c|
    ensures forall i :: 0 <= i < |c[k..]| ==> c[k..][i].nr in tab
  {
  }

  lemma EmptyBlocks(tab: Tab)
    ensures Blocks(tab, []) == []
  {
  }

  lemma BlocksStep(tab: Tab, p: seq<nat>, i: nat)
    requires i < |p| && p[i] in tab
    ensures |Blocks(tab, p[..i + 1])| == |Blocks(tab, p[..i])| + tab[p[i]].size
    ensures |Blocks(tab, p[..i + 1])| <= |Blocks(tab, p)|
  {
    assert p[..i + 1] == p[..i] + [p[i]];
    BlocksConcat(tab, p[..i], [p[i]]);
    BlocksOne(tab, p[i]);
    assert p == p[..i + 1] + p[i + 1..];
    BlocksConcat(tab, p[..i + 1], p[i + 1..]);
  }

  lemma RangeMember(a: nat, b: nat, x: nat)
    ensures x in Range(a, b) <==> a <= x < b
  {
    assert Between(a, b, x) <==> a <= x < b;
  }

  /** What the two halves of a cut (shrinking one anode, releasing the rest) add up to. */
  lemma CutBoth(g: Geo, b: Flat, h: nat, p: seq<nat>, c: seq<Anode>, k: nat, m: nat, keep: nat)
    requires ReleasablePath(g, b.tab, b.free, p) && IsChain(b.tab, p, c) && IsPath(b.tab, h, p) && 0 < k <= |p|
    requires 0 < m <= b.tab[p[k - 1]].size && |Blocks(b.tab, p[..k - 1])| + m == keep
    ensures CanFree(g, b.free, b.tab[p[k - 1]].blk + m, b.tab[p[k - 1]].blk + b.tab[p[k - 1]].size)
    ensures Releasable(g, b.free, c[k..])
    ensures var s := b.tab[p[k - 1]]; Releasable(g, b.free + Range(s.blk + m, s.blk + s.size), c[k..])
    ensures var s := b.tab[p[k - 1]];
            var tab' := PutTab(b.tab, p[k - 1], Slot(m, s.blk, ANODE_EOF)) - Elems(Nrs(c[k..]));
            IsCut(b, Flat(tab', b.dirs, b.free + Range(s.blk + m, s.blk + s.size) + CoverSet(c[k..]), b.resFree), p, k,
                  m, keep)
    ensures var s := b.tab[p[k - 1]]; m == s.size ==>
            var tab' := PutTab(b.tab, p[k - 1], Slot(m, s.blk, ANODE_EOF)) - Elems(Nrs(c[k..]));
            IsCut(b, Flat(tab', b.dirs, b.free + CoverSet(c[k..]), b.resFree), p, k, m, keep)
  {
    var s := b.tab[p[k - 1]];
    ReleaseFrom(g, b.tab, b.free, p, c, k);
    CutApart(b.tab, h, p, k, p[k - 1]);
    CutLength(b.tab, h, p, k, m);
    CutRange(g, b, p, c, k, m);
    hide Blocks, IsPath, Elems, Nrs, CoverSet, PathCover, ReleasablePath, Releasable, Range, CanFree;
    CutTabs(b.tab, h, p, k, m);
    assert b.free + Range(s.blk + m, s.blk + s.size) + PathCover(b.tab, p, k) == b.free + CutFree(b.tab, p, k, m);
    assert m == s.size ==> Range(s.blk + m, s.blk + s.size) == {} by { EmptyRange(s.blk + s.size); }
  }

  lemma EmptyRange(a: nat)
    ensures Range(a, a) == {}
  {
  }

  lemma CutTabs(tab: Tab, h: nat, p: seq<nat>, k: nat, m: nat)
    requires IsPath(tab, h, p) && 0 < k <= |p| && m > 0
    ensures PutTab(tab, p[k - 1], Slot(m, tab[p[k - 1]].blk, ANODE_EOF)) - Elems(p[k..]) == CutTab(tab, p, k, m)
  {
    CutApart(tab, h, p, k, p[k - 1]);
  }

  lemma CutLength(tab: Tab, h: nat, p: seq<nat>, k: nat, m: nat)
    requires IsPath(tab, h, p) && 0 < k <= |p| && m <= tab[p[k - 1]].size
    ensures |Blocks(CutTab(tab, p, k, m), p[..k])| == |Blocks(tab, p[..k - 1])| + m
  {
    hide IsPath, CutTab, Blocks;
    CutPrefixSame(tab, h, p, k, m);
    assert p[..k] == p[..k - 1] + [p[k - 1]];
    BlocksConcat(CutTab(tab, p, k, m), p[..k - 1], [p[k - 1]]);
    BlocksOne(CutTab(tab, p, k, m), p[k - 1]);
    BlocksFrame(tab, CutTab(tab, p, k, m), p[..k - 1]);
  }

  lemma CutRange(g: Geo, b: Flat, p: seq<nat>, c: seq<Anode>, k: nat, m: nat)
    requires ReleasablePath(g, b.tab, b.free, p) && IsChain(b.tab, p, c) && 0 < k <= |p| && m <= b.tab[p[k - 1]].size
    requires Releasable(g, b.free, c[k..])
    ensures var s := b.tab[p[k - 1]]; CanFree(g, b.free, s.blk + m, s.blk + s.size)
    ensures var s := b.tab[p[k - 1]]; Releasable(g, b.free + Range(s.blk + m, s.blk + s.size), c[k..])
  {
    var s := b.tab[p[k - 1]];
    forall x | s.blk + m <= x < s.blk + s.size ensures InData(g, x) && x !in b.free { assert InExt(s, x); }
    forall i, x | 0 <= i < |c[k..]| && InExt(c[k..][i].slot, x) ensures InData(g, x)
    && x !in b.free + Range(s.blk + m, s.blk + s.size) {
      assert c[k..][i] == c[k + i];
      RangeMember(s.blk + m, s.blk + s.size, x);
      if x in Range(s.blk + m, s.blk + s.size) { assert InExt(b.tab[p[k - 1]], x); }
    }
  }

  function Range(a: nat, b: nat): set<nat> {
    set x: nat | a <= x < b && Between(a, b, x)
  }

  /** Anode lookup on a device, as a function. */
  function Reader(g: Geo, dev: Store): nat -> Option<Slot>
    requires g.ipb > 0 && g.stride > 0
  {
    (n: nat) => ReadAnode(g, dev, n)
  }

  /** Data blocks in use, from `a` up to `b`. */
  ghost predicate CanFree(g: Geo, free: set<nat>, a: nat, b: nat) {
    forall x :: a <= x < b ==> InData(g, x) && x !in free
  }

  ghost predicate Releasable(g: Geo, free: set<nat>, c: seq<Anode>) {
    && (forall i, x :: 0 <= i < |c| && InExt(c[i].slot, x) ==> InData(g, x) && x !in free)
    && (forall i, j, x :: 0 <= i < j < |c| && InExt(c[i].slot, x) ==> !InExt(c[j].slot, x))
  }

  /** All blocks of a list of anodes. */
  function CoverSet(c: seq<Anode>): set<nat> {
    if |c| == 0 then {} else CoverSet(c[..|c| - 1]) + Range(c[|c| - 1].slot.blk,
                                                            c[|c| - 1].slot.blk + c[|c| - 1].slot.size)
  }

  lemma {:induction false} CoverMember(c: seq<Anode>, x: nat)
    ensures x in CoverSet(c) <==> exists i :: 0 <= i < |c| && InExt(c[i].slot, x)
  {
    if |c| > 0 {
      var n := |c| - 1;
      CoverMember(c[..n], x);
      assert InExt(c[n].slot, x) <==> x in Range(c[n].slot.blk, c[n].slot.blk + c[n].slot.size);
      if i :| 0 <= i < n && InExt(c[..n][i].slot, x) { assert InExt(c[i].slot, x); }
      if i :| 0 <= i < |c| && InExt(c[i].slot, x) { if i < n { assert c[..n][i] == c[i]; } }
    }
  }

  lemma CoverStart(f: Flat)
    ensures f == Flat(f.tab - Elems(Nrs([])), f.dirs, f.free + CoverSet([]), f.resFree)
  {
    assert f.tab - Elems(Nrs([])) == f.tab;
  }

  lemma CoverNext(g: Geo, f: Flat, c: seq<Anode>, i: nat)
    requires i < |c| && Releasable(g, f.free, c)
    ensures CanFree(g, f.free + CoverSet(c[..i]), c[i].slot.blk, c[i].slot.blk + c[i].slot.size)
    ensures f.free + CoverSet(c[..i + 1]) == f.free + CoverSet(c[..i]) + Range(c[i].slot.blk,
                                                            c[i].slot.blk + c[i].slot.size)
    ensures f.tab - Elems(Nrs(c[..i + 1])) == PutTab(f.tab - Elems(Nrs(c[..i])), c[i].nr, EMPTY_SLOT)
  {
    assert c[..i + 1][..i] == c[..i];
    forall x | c[i].slot.blk <= x < c[i].slot.blk + c[i].slot.size ensures InData(g, x)
    && x !in f.free + CoverSet(c[..i]) {
      assert InExt(c[i].slot, x);
      CoverMember(c[..i], x);
    }
    assert Nrs(c[..i + 1]) == Nrs(c[..i]) + [c[i].nr];
    assert Elems(Nrs(c[..i + 1])) == Elems(Nrs(c[..i])) + {c[i].nr};
  }

  /** `c` is the chain with anode numbers `p`. */
  ghost predicate IsChain(tab: Tab, p: seq<nat>, c: seq<Anode>) {
    |c| == |p| && forall i :: 0 <= i < |p| ==> p[i] in tab && c[i] == Anode(p[i], tab[p[i]])
  }

  lemma {:induction false} PathReadsFrom(t: nat -> Option<Slot>, tab: Tab, h: nat, p: seq<nat>)
    requires IsPath(tab, h, p) && ANODE_EOF !in tab && forall n :: n in tab ==> t(n) == Some(tab[n])
    ensures IsRun(t, h, p)
    decreases |p|
  {
    assert h == p[0] && p[0] in tab;
    if |p| > 1 {
      assert IsPath(tab, p[1], p[1..]) by { assert p[1..][|p| - 2] == p[|p| - 1]; }
      PathReadsFrom(t, tab, p[1], p[1..]);
    } else {
      assert p[1..] == [];
    }
  }

  lemma PathReads(g: Geo, dev: Store, base: Flat, dabk: Link, miss: nat, h: nat, p: seq<nat>)
    requires g.ipb > 0 && g.stride > 0 && CommOk(g, dev, base, dabk, miss) && IsPath(base.tab, h, p)
             && ANODE_EOF !in base.tab
    ensures IsRun(Reader(g, dev), h, p)
  {
    hide IsPath, ReadAnode, TabTie, DirTie;
    var t := Reader(g, dev);
    forall n | n in base.tab ensures t(n) == Some(base.tab[n]) { ReadTied(g, dev, dabk, base.tab, n); }
    PathReadsFrom(t, base.tab, h, p);
  }

  lemma ChainReads(g: Geo, dev: Store, base: Flat, dabk: Link, miss: nat, h: nat, p: seq<nat>, c: seq<Anode>)
    requires g.ipb > 0 && g.stride > 0 && CommOk(g, dev, base, dabk, miss) && IsPath(base.tab, h, p) && Nrs(c) == p
    requires forall i :: 0 <= i < |c| ==> Reader(g, dev)(c[i].nr) == Some(c[i].slot)
    ensures IsChain(base.tab, p, c)
  {
    hide ReadAnode, TabTie, DirTie;
    forall i | 0 <= i < |p| ensures p[i] in base.tab && c[i] == Anode(p[i], base.tab[p[i]]) {
      assert p[i] == Nrs(c)[i];
      ReadTied(g, dev, dabk, base.tab, p[i]);
    }
  }

  lemma {:induction false} LayerBound(g: Geo, s: set<nat>, q: nat, k: nat)
    requires g.stride > 0 && forall n :: n in s ==> SeqOf(g, n) == q && OffOf(g, n) < k
    ensures |s| <= k
    decreases k
  {
    hide SeqOf, OffOf;
    if k == 0 {
      assert s == {};
    } else {
      forall n | n in s - {Enc(g, q, k - 1)} ensures OffOf(g, n) < k - 1 { SplitInverse(g, n); }
      LayerBound(g, s - {Enc(g, q, k - 1)}, q, k - 1);
    }
  }

  lemma {:induction false} LayersBound(g: Geo, s: set<nat>, m: nat, k: nat)
    requires g.stride > 0 && forall n :: n in s ==> SeqOf(g, n) < m && OffOf(g, n) < k
    ensures |s| <= m * k
    decreases m
  {
    hide SeqOf, OffOf;
    if m == 0 {
      assert s == {};
    } else {
      var lo, hi := (set n | n in s && SeqOf(g, n) < m - 1), (set n | n in s && SeqOf(g, n) == m - 1);
      LayersBound(g, lo, m - 1, k);
      LayerBound(g, hi, m - 1, k);
      assert s == lo + hi;
      assert m * k == (m - 1) * k + k;
    }
  }

  /** No chain of a volume whose anode blocks lie within the writer's range is too long. */
  lemma PathShort(g: Geo, dev: Store, base: Flat, dabk: Link, miss: nat, h: nat, p: seq<nat>)
    requires GeoOk(g) && CommOk(g, dev, base, dabk, miss) && IsPath(base.tab, h, p)
    ensures |p| <= MAX_CHAIN_LEN
  {
    hide SeqOf, OffOf, IndexTie, BlocksTie, DirTie;
    ElemsCard(p);
    assert forall n :: n in Elems(p) ==> n in base.tab;
    LayersBound(g, Elems(p), MAX_SEQ, 1024);
  }

  lemma RunCounts(rs: seq<Run>, i: nat)
    requires Maximal(rs) && i < |rs|
    ensures rs[i].count > 0
  {
  }

  lemma BuiltNil(g: Geo, cap: set<nat>, miss: nat, tab: Tab, rs: seq<Run>)
    requires g.stride > 0 && |rs| == 0
    ensures Built(g, cap, miss, tab, rs, [], tab)
  {
  }

  lemma BuiltCons(g: Geo, cap: set<nat>, miss: nat, tab: Tab, rs: seq<Run>, p: seq<nat>, mid: Tab, nr: nat, tab': Tab)
    requires g.stride > 0 && |rs| > 0 && Built(g, cap, miss, tab, rs[1..], p, mid) && |p| == |rs| - 1
    requires AllocStep(g, cap, miss, mid, Slot(rs[0].count, rs[0].start, if |p| > 0 then p[0] else ANODE_EOF), nr, tab')
    ensures Built(g, cap, miss, tab, rs, [nr] + p, tab')
  {
    hide AllocStep;
    assert ([nr] + p)[1..] == p;
    assert RunSlot(rs[0], NextOf([nr] + p, 0)) == Slot(rs[0].count, rs[0].start, if |p| > 0 then p[0] else ANODE_EOF);
  }

  lemma OnlyAnodesRefl(f: Flat, sys: set<nat>)
    ensures OnlyAnodes(f, f, sys, sys)
  {
  }

  lemma OnlyAnodesTrans(f: Flat, f1: Flat, f2: Flat, s: set<nat>, s1: set<nat>, s2: set<nat>)
    requires OnlyAnodes(f, f1, s, s1) && OnlyAnodes(f1, f2, s1, s2)
    ensures OnlyAnodes(f, f2, s, s2)
  {
  }

  /** A reserved block just taken is neither free, nor a system block, nor a directory block. */
  lemma TakenIsLoose(g: Geo, s: Snap, b: nat, s0: Snap)
    requires SnapOk(g, s0) && b in s0.flat.resFree && s.sys == s0.sys
    requires s.flat == Flat(s0.flat.tab, s0.flat.dirs, s0.flat.free, s0.flat.resFree - {b})
    ensures b !in s.sys && b !in s.flat.resFree && b !in s.flat.dirs
  {
  }

  lemma GrowExtends(g: Geo, dev: Store, base: Flat, dabk: Link, abk: Link, miss: nat, nb: nat)
    requires CommOk(g, dev, base, dabk, miss) && Extends(dabk, abk, miss) && miss < MAX_SEQ
    ensures Extends(dabk, abk[miss := nb], miss)
  {
    hide TabTie, DirTie;
  }

  /** Allocating anodes touches directories and data not at all; reserved blocks only move from
      free to system use. */
  ghost predicate OnlyAnodes(f: Flat, f': Flat, sys: set<nat>, sys': set<nat>) {
    f'.dirs == f.dirs && f'.free == f.free && f'.resFree <= f.resFree && sys' == sys + (f.resFree - f'.resFree)
  }

  lemma SweptStart(g: Geo, free: set<nat>, s: Snap)
    requires SnapOk(g, s) && s.flat.free == free
    ensures Swept(free, [], Base(g, 0)) && free - Elems([]) == free && Below(free, g.dataEnd)
  {
  }

  lemma BaseNext(g: Geo, k: nat)
    ensures Base(g, k) + PerBlock(g) == Base(g, k + 1)
  {
    assert (k + 1) * PerBlock(g) == k * PerBlock(g) + PerBlock(g);
  }

  lemma SweptAll(g: Geo, bm: seq<BmBlock>, free: set<nat>, bl: seq<nat>)
    requires Swept(free, bl, Base(g, |bm|)) && g.dataEnd <= Base(g, |bm|) && Below(free, g.dataEnd)
    ensures free - Elems(bl) == {} && |bl| == |free|
  {
    SweptIsFirst(free, bl, Base(g, |bm|));
    assert Elems(bl) == free;
  }

  /** Setting the bit the source computes for `x` frees exactly `x`. */
  lemma FreeBit(g: Geo, s: Snap, x: nat)
    requires GeoOk(g) && SnapOk(g, s) && InData(g, x) && g.dataEnd <= Base(g, |s.bm|)
    requires Nonzero(s.bm)
    ensures PerBlock(g) > 0
    ensures var k, q := Quot(x - g.bmStart, PerBlock(g)), Rem(x - g.bmStart, PerBlock(g));
            && k < |s.bm| && WordsOk(s.bm[k].words) && q < 32 * |s.bm[k].words|
            && SnapOk(g, WithWords(s, k, SetBit(s.bm[k].words, q, true), s.flat.free + {x}))
  {
    hide BmIndexTie, TabTie, DirTie, BmTie, SysTie, SetBit, ResTie, Rem, Quot, Base, FreeTie;
    PerBlockIs(g);
    Locate(g, x, |s.bm|);
    var k, q := Quot(x - g.bmStart, PerBlock(g)), Rem(x - g.bmStart, PerBlock(g));
    FreeShape(g, s.bm, s.flat.free, k);
    FreeTieSet(g, s.bm, s.flat.free, k, q);
    WithWordsOk(g, s, k, SetBit(s.bm[k].words, q, true), s.flat.free + {x});
  }

  ghost predicate Below(s: set<nat>, n: nat) {
    forall x :: x in s ==> x < n
  }

  lemma BelowEnd(g: Geo, flat: Flat, sys: set<nat>, n: nat)
    requires Sep(g, flat, sys, n)
    ensures Below(flat.free, g.dataEnd + g.bmStart)
  {
  }

  lemma FreeShape(g: Geo, bm: seq<BmBlock>, free: set<nat>, k: nat)
    requires FreeTie(g, bm, free) && k < |bm|
    ensures WordsOk(bm[k].words) && |bm[k].words| == g.ipb && BmShape(g, bm)
  {
  }

  lemma TakenSorted(ws: seq<Word>, r: seq<Word>, base: nat, limit: nat, got: seq<nat>, cut: nat)
    requires Taken(ws, r, base, limit, got, cut)
    ensures Sorted(got) && cut <= 32 * |ws|
  {
  }

  lemma ResWords(g: Geo, ws: seq<Word>, s: set<nat>)
    requires ResTie(g, ws, s)
    ensures WordsOk(ws)
  {
  }

  lemma ResSome(g: Geo, ws: seq<Word>, s: set<nat>)
    requires ResTie(g, ws, s) && s != {}
    ensures exists q :: 0 <= q < 32 * |ws| && BitAt(ws, q)
  {
    hide BitAt;
    var b :| b in s;
    assert ResAligned(g, b, |ws|) && BitAt(ws, ResIndex(g, b));
  }

  lemma {:induction false} ElemsCard(s: seq<nat>)
    requires NoDup(s)
    ensures |Elems(s)| == |s|
  {
    if |s| == 0 {
      assert Elems(s) == {};
    } else {
      var t := s[..|s| - 1];
      ElemsCard(t);
      assert s == t + [s[|s| - 1]];
      assert Elems(s) == Elems(t) + {s[|s| - 1]};
      assert s[|s| - 1] !in t;
    }
  }

  /** `bl` lists, in order, the members of `free` below some cut: the first fit. */
  ghost predicate FirstFit(free: set<nat>, bl: seq<nat>) {
    Sorted(bl) && (forall x :: x in bl ==> x in free) && (forall x, y :: x in bl && y in free && y < x ==> y in bl)
  }

  /** Loop state of the data allocator: everything free below `lim` is taken. */
  ghost predicate Swept(free: set<nat>, bl: seq<nat>, lim: nat) {
    Sorted(bl) && forall x :: x in bl <==> x in free && x < lim
  }

  ghost predicate InRange(free: set<nat>, got: seq<nat>, lo: nat, hi: nat) {
    forall x :: x in got <==> x in free && lo <= x < hi
  }

  lemma SweptMore(free: set<nat>, bl: seq<nat>, lim: nat, got: seq<nat>, cut: nat, top: nat)
    requires Swept(free, bl, lim) && Sorted(got) && lim + cut <= top
    requires InRange(free - Elems(bl), got, lim, lim + cut)
    ensures Swept(free, bl + got, lim + cut) && free - Elems(bl + got) == free - Elems(bl) - Elems(got)
  {
    var r := bl + got;
    forall i, j | 0 <= i < j < |r| ensures r[i] < r[j] {
      if i < |bl| <= j { assert bl[i] in bl && got[j - |bl|] in got; }
    }
  }

  /** The volume without the blocks taken so far. */
  ghost function Less(f: Flat, bl: seq<nat>): Flat {
    Flat(f.tab, f.dirs, f.free - Elems(bl), f.resFree)
  }

  lemma LessIs(f: Flat, bl: seq<nat>)
    ensures Less(f, bl) == Flat(f.tab, f.dirs, f.free - Elems(bl), f.resFree)
  {
  }

  lemma LessMore(f: Flat, bl: seq<nat>, got: seq<nat>)
    ensures Less(f, []) == f && Less(f, bl).free == f.free - Elems(bl)
    ensures Less(f, bl + got) == Less(Less(f, bl), got)
  {
    assert Elems(bl + got) == Elems(bl) + Elems(got);
    assert f.free - Elems([]) == f.free;
  }

  lemma SweptIsFirst(free: set<nat>, bl: seq<nat>, lim: nat)
    requires Swept(free, bl, lim)
    ensures FirstFit(free, bl) && NoDup(bl) && Elems(bl) <= free && |bl| <= |free|
            && |free - Elems(bl)| == |free| - |bl|
  {
    ElemsCard(bl);
    SubsetCard(Elems(bl), free);
  }

  // ---------------------------------------------------------------- directories

  /** The blocks of a chain in order, as the nested loops over anodes and extents visit them. */
  function BlockList(c: seq<Anode>): seq<nat> {
    if |c| == 0 then [] else Expand(c[0].slot) + BlockList(c[1..])
  }

  lemma {:induction false} BlockListIs(tab: Tab, p: seq<nat>, c: seq<Anode>)
    requires IsChain(tab, p, c)
    ensures BlockList(c) == Blocks(tab, p)
  {
    if |p| > 0 { BlockListIs(tab, p[1..], c[1..]); }
  }

  ghost predicate AllIn(bl: seq<nat>, dirs: Dirs) {
    forall i :: 0 <= i < |bl| ==> bl[i] in dirs
  }

  ghost predicate NoneNamed(dirs: Dirs, bl: seq<nat>, name: Name) {
    forall b, j :: b in bl && b in dirs && 0 <= j < |dirs[b]| ==> !NameEqCi(dirs[b][j].name, name)
  }

  /** Entry `j` of directory block `b`, one of the blocks `bl`, has this name. */
  ghost predicate Named(dirs: Dirs, bl: seq<nat>, b: nat, j: nat, name: Name) {
    b in bl && b in dirs && j < |dirs[b]| && NameEqCi(dirs[b][j].name, name)
  }

  lemma NoneNamedStep(dirs: Dirs, bl: seq<nat>, i: nat, name: Name)
    requires i < |bl| && NoneNamed(dirs, bl[..i], name)
    requires bl[i] in dirs ==> forall j :: 0 <= j < |dirs[bl[i]]| ==> !NameEqCi(dirs[bl[i]][j].name, name)
    ensures NoneNamed(dirs, bl[..i + 1], name)
  {
    assert bl[..i + 1] == bl[..i] + [bl[i]];
  }

  /** Some block of the directory has room for the entry. */
  ghost predicate HasRoom(rbs: nat, dirs: Dirs, bl: seq<nat>, e: Entry) {
    exists i :: 0 <= i < |bl| && bl[i] in dirs && Fits(rbs, dirs[bl[i]], e)
  }

  /** Where a new entry went: an existing block, or a new block `nb` chained by anode `nr`, with
      `grown` the reserved blocks taken for anodes. */
  datatype Placed = InBlock(b: nat) | NewBlock(nb: nat, nr: nat, grown: set<nat>)

  ghost predicate PlacedOk(f: Flat, bl: seq<nat>, pl: Placed) {
    match pl
    case InBlock(b) => b in bl && b in f.dirs
    case NewBlock(nb, nr, grown) => nb in f.resFree && nr !in f.tab && nr != ANODE_EOF && grown <= f.resFree - {nb}
  }

  ghost function PlaceFlat(f: Flat, p: seq<nat>, e: Entry, pl: Placed): Flat {
    match pl
    case InBlock(b) => if b in f.dirs then Flat(f.tab, f.dirs[b := f.dirs[b] + [e]], f.free, f.resFree) else f
    case NewBlock(nb, nr, grown) =>
      Flat(JoinTab(f.tab + map[nr := Slot(1, nb, ANODE_EOF)], Last(p), nr), f.dirs[nb := [e]], f.free,
           f.resFree - {nb} - grown)
  }

  ghost function PlaceSys(sys: set<nat>, pl: Placed): set<nat> {
    match pl
    case InBlock(b) => sys
    case NewBlock(nb, nr, grown) => sys + grown
  }

  lemma DirIsLoose(g: Geo, s: Snap, b: nat)
    requires SnapOk(g, s) && b in s.flat.dirs
    ensures b !in s.sys && b !in s.flat.resFree && b != 0 && ResAligned(g, b, |s.res|)
  {
  }

  lemma DirInView(g: Geo, s: Snap, b: nat)
    requires SnapOk(g, s) && b in s.flat.dirs
    ensures b in s.view && s.view[b] == DirBlk(s.flat.dirs[b])
  {
  }

  /** The anodes of `p` are the same in both tables. */
  ghost predicate Agree(t: Tab, t': Tab, p: seq<nat>) {
    forall i :: 0 <= i < |p| ==> p[i] in t && p[i] in t' && t'[p[i]] == t[p[i]]
  }

  /** With supply left, the allocated anode is a new entry of the table. */
  lemma NewAnode(g: Geo, miss: nat, tab: Tab, x: Slot, nr: nat, tab': Tab)
    requires GeoOk(g) && AllocStep(g, CapSet(g, miss), miss, tab, x, nr, tab')
             && Supply(g, CapSet(g, miss), miss, tab) > 0
    ensures nr !in tab && tab' == tab[nr := x] && nr != ANODE_EOF
    ensures Supply(g, CapSet(g, miss), miss, tab') == Supply(g, CapSet(g, miss), miss, tab) - 1
  {
    CapIsBelow(g, miss);
    AllocPositive(g, miss, tab, x, nr, tab');
    hide AllocStep, Supply, CapSet;
    AllocFresh(g, CapSet(g, miss), miss, tab, x, nr, tab');
  }

  lemma CapIsBelow(g: Geo, miss: nat)
    requires g.stride > 0
    ensures CapBelow(g, CapSet(g, miss), miss) && ANODE_EOF !in CapSet(g, miss)
  {
    hide SeqOf, OffOf;
  }

  lemma AllocPositive(g: Geo, miss: nat, tab: Tab, x: Slot, nr: nat, tab': Tab)
    requires g.stride > 0 && AllocStep(g, CapSet(g, miss), miss, tab, x, nr, tab')
    ensures nr != ANODE_EOF
  {
    hide SeqOf, OffOf;
    assert Enc(g, miss, ANODE_USERFIRST) >= ANODE_USERFIRST;
  }

  /** An allocation uses a vacant slot if there is one. */
  lemma LeftNext(g: Geo, miss: nat, tab: Tab, x: Slot, nr: nat, tab': Tab)
    requires GeoOk(g) && AllocStep(g, CapSet(g, miss), miss, tab, x, nr, tab')
    ensures Left(g, miss, tab') == Over(Left(g, miss, tab), 1)
  {
    CapIsBelow(g, miss);
    hide AllocStep, CapSet;
    AllocLeft(g, CapSet(g, miss), miss, tab, x, nr, tab');
  }

  lemma LeftAfter(g: Geo, miss: nat, tab: Tab, rs: seq<Run>, p: seq<nat>, tab': Tab)
    requires GeoOk(g) && Built(g, CapSet(g, miss), miss, tab, rs, p, tab')
    ensures Left(g, miss, tab') == Over(Left(g, miss, tab), |rs|)
  {
    CapIsBelow(g, miss);
    hide Built, CapSet;
    BuiltLeft(g, CapSet(g, miss), miss, tab, rs, p, tab');
  }

  /** `n` anodes have been taken, leaving `now` of `res` reserved blocks. */
  ghost predicate Spent(g: Geo, miss: nat, left: nat, res: nat, n: nat, now: nat) {
    Enough(g, miss, left, res, n, 0) && now == res - Over(n, left)
  }

  lemma SpentNone(g: Geo, miss: nat, left: nat, res: nat)
    ensures Spent(g, miss, left, res, 0, res)
  {
  }

  /** Whether one more can be taken, and what is left then. */
  lemma SpentMore(g: Geo, miss: nat, tab: Tab, rs: seq<Run>, p: seq<nat>, tab': Tab, res: nat, now: nat, more: nat)
    requires GeoOk(g) && Built(g, CapSet(g, miss), miss, tab, rs, p, tab')
             && Spent(g, miss, Left(g, miss, tab), res, |rs|, now)
    ensures Enough(g, miss, Left(g, miss, tab'), now, 1, 0) <==> Enough(g, miss, Left(g, miss, tab), res, |rs| + 1, 0)
    ensures Enough(g, miss, Left(g, miss, tab'), now, 1, 0) ==>
            Spent(g, miss, Left(g, miss, tab), res, |rs| + 1, now - Over(1, Left(g, miss, tab')))
    ensures Enough(g, miss, Left(g, miss, tab), res, |rs| + 1 + more, 0) ==>
              Enough(g, miss, Left(g, miss, tab'), now, 1, 0)
  {
    hide Left, Registrable, Built, GeoOk, CapSet;
    LeftAfter(g, miss, tab, rs, p, tab');
    EnoughSplit(g, miss, Left(g, miss, tab), res, |rs|, 0, 1, 0);
    EnoughSplit(g, miss, Left(g, miss, tab), res, |rs| + 1, 0, more, 0);
  }

  lemma HeadLoops(g: Geo, miss: nat, tab: Tab, rs: seq<Run>, p: seq<nat>, tab': Tab)
    requires GeoOk(g) && Built(g, CapSet(g, miss), miss, tab, rs, p, tab') && |rs| >= Left(g, miss, tab) + 2
    ensures |p| > 0 && PointsAtItself(tab', p[0]) && (Ungrown(g, miss, tab) ==> p[0] !in tab)
  {
    CapIsBelow(g, miss);
    hide Built, CapSet;
    BuiltLoops(g, CapSet(g, miss), miss, tab, rs, p, tab');
    EncInverse(g, miss, ANODE_USERFIRST);
  }

  lemma ChainTop(g: Geo, miss: nat, tab: Tab, rs: seq<Run>, p: seq<nat>, tab': Tab)
    requires GeoOk(g) && Built(g, CapSet(g, miss), miss, tab, rs, p, tab')
    ensures Ungrown(g, miss, tab) ==> KeepsAnodes(tab, tab')
    ensures |rs| >= Left(g, miss, tab) + 1 ==> |p| > 0 && p[0] == Enc(g, miss, ANODE_USERFIRST)
  {
    CapIsBelow(g, miss);
    EncInverse(g, miss, ANODE_USERFIRST);
    hide Built, CapSet, Enc, SeqOf;
    if Ungrown(g, miss, tab) { BuiltKeeps(g, CapSet(g, miss), miss, tab, rs, p, tab'); }
    if |rs| >= Left(g, miss, tab) + 1 { BuiltTop(g, CapSet(g, miss), miss, tab, rs, p, tab'); }
  }

  /** With no slot left, an anode goes to a new block, whatever was there. */
  lemma NextTop(g: Geo, miss: nat, tab: Tab, x: Slot, nr: nat, tab': Tab)
    requires g.stride > 0 && AllocStep(g, CapSet(g, miss), miss, tab, x, nr, tab')
    ensures nr in tab' && tab'[nr] == x
    ensures Left(g, miss, tab) == 0 ==> nr == Enc(g, miss, ANODE_USERFIRST)
  {
    hide CapSet, Enc;
  }

  lemma SameMiss(g: Geo, dev: Store, base: Flat, dabk: Link, miss: nat, dev': Store, base': Flat, m: nat)
    requires CommOk(g, dev, base, dabk, miss) && CommOk(g, dev', base', dabk, m)
    ensures m == miss
  {
    hide TabTie, DirTie;
    MissUnique(dabk, m, miss);
  }

  lemma MissUnique(abk: Link, m: nat, n: nat)
    requires IsMiss(abk, m) && IsMiss(abk, n)
    ensures m == n
  {
  }

  ghost predicate PointsAtItself(tab: Tab, h: nat) {
    h in tab && tab[h].next == h
  }

  /** Behind its last anode the chain `p` runs into an anode that points at itself. */
  ghost predicate RunsIntoLoop(tab: Tab, p: seq<nat>) {
    Last(p) in tab && PointsAtItself(tab, tab[Last(p)].next)
  }

  lemma LoopAppended(tab: Tab, p: seq<nat>, x: Slot, h: nat)
    requires PointsAtItself(tab, h) && h != Last(p) && !Vacant(x)
    ensures RunsIntoLoop(PutTab(tab, Last(p), x.(next := h)), p)
  {
    hide Last;
  }

  lemma UngrownBase(g: Geo, dev: Store, base: Flat, dabk: Link, miss: nat)
    requires CommOk(g, dev, base, dabk, miss)
    ensures g.stride > 0 && Ungrown(g, miss, base.tab)
  {
    hide SeqOf, OffOf, IndexTie, BlocksTie, DirTie, CapSet;
  }

  lemma NoneLeftOver(g: Geo, miss: nat, tab: Tab)
    requires g.stride > 0
    ensures Covers(CapSet(g, miss), tab) <==> Left(g, miss, tab) == 0
  {
    hide CapSet;
    var rest := CapSet(g, miss) - tab.Keys;
    if rest == {} {
      forall nr | nr in CapSet(g, miss) ensures nr in tab { assert nr !in rest; }
    }
    if Covers(CapSet(g, miss), tab) { assert rest == {}; }
  }

  lemma SomeLeft(g: Geo, miss: nat, tab: Tab, nr: nat)
    requires g.stride > 0 && nr in CapSet(g, miss) && nr !in tab
    ensures Left(g, miss, tab) > 0
  {
    hide CapSet;
    assert nr in CapSet(g, miss) - tab.Keys;
  }

  lemma MissBound(g: Geo, dev: Store, base: Flat, dabk: Link, miss: nat)
    requires CommOk(g, dev, base, dabk, miss)
    ensures miss <= MAX_SEQ
  {
    hide TabTie, DirTie;
    assert miss > MAX_SEQ ==> MAX_SEQ in dabk;
  }

  lemma LastSequence(g: Geo, miss: nat)
    requires miss >= MAX_SEQ
    ensures !Registrable(g, miss)
  {
  }

  lemma OneLess(s: set<nat>, x: nat)
    requires x in s
    ensures |s - {x}| == |s| - 1
  {
  }

  lemma ExtendFlat(f: Flat, f1: Flat, f2: Flat, base: Tab, d: nat, p: seq<nat>, e: Entry, nb: nat, nr: nat, s: set<nat>,
                   s2: set<nat>)
    requires f1 == Flat(f.tab, f.dirs[nb := [e]], f.free, f.resFree - {nb}) && OnlyAnodes(f1, f2, s, s2)
    requires nr !in f.tab && f2.tab == f.tab[nr := Slot(1, nb, ANODE_EOF)] && nb in f.resFree
    requires IsPath(base, d, p) && Agree(base, f.tab, p) && Last(p) in base && !Vacant(base[Last(p)])
    ensures var pl := NewBlock(nb, nr, f1.resFree - f2.resFree);
            && Flat(PutTab(f2.tab, Last(p), base[Last(p)].(next := nr)), f2.dirs, f2.free,
                    f2.resFree) == PlaceFlat(f, p, e, pl)
            && s2 == PlaceSys(s, pl) && pl.grown <= f.resFree - {nb}
  {
    assert Last(p) == p[|p| - 1] && Last(p) in f.tab && f.tab[Last(p)] == base[Last(p)];
    assert f1.resFree - (f1.resFree - f2.resFree) == f2.resFree;
    assert f.tab[nr := Slot(1, nb, ANODE_EOF)] == f.tab + map[nr := Slot(1, nb, ANODE_EOF)];
  }

  lemma RunOccupied(r: Run, next: nat)
    requires r.count > 0
    ensures !Vacant(Slot(r.count, r.start, next))
  {
  }

  lemma StillOccupied(x: Slot, nr: nat)
    requires !Vacant(x)
    ensures !Vacant(x.(next := nr))
  {
  }

  lemma OneBlock(b: nat)
    ensures !Vacant(Slot(1, b, ANODE_EOF))
  {
  }

  lemma CommNotVacant(g: Geo, dev: Store, base: Flat, dabk: Link, miss: nat, nr: nat)
    requires CommOk(g, dev, base, dabk, miss)
    ensures nr in base.tab ==> !Vacant(base.tab[nr])
  {
    hide IndexTie, BlocksTie, DirTie, SlotAt, Vacant, SeqOf, OffOf, Enc;
    if nr in base.tab { SplitInverse(g, nr); }
  }

  /** The least sequence number not in use, given that none from `n` on is. */
  ghost function FirstMissing(abk: Link, n: nat): nat
    decreases n
  {
    if n == 0 then 0
    else var m := FirstMissing(abk, n - 1); if m < n - 1 || n - 1 !in abk then m else n
  }

  lemma {:induction false} FirstMissingIs(abk: Link, n: nat)
    ensures var m := FirstMissing(abk, n); m <= n && (m < n ==> m !in abk) && forall s :: 0 <= s < m ==> s in abk
    decreases n
  {
    if n > 0 { FirstMissingIs(abk, n - 1); }
  }

  lemma CommitOk(g: Geo, view: Store, flat: Flat, abk: Link, dabk: Link, dev: Store, base: Flat, miss: nat, m: nat)
    requires TabTie(g, view, abk, flat.tab) && DirTie(view, flat.dirs) && Extends(dabk, abk, miss)
    requires m == FirstMissing(abk, MAX_SEQ)
    ensures CommOk(g, view, flat, abk, m) && Extends(abk, abk, m)
  {
    hide TabTie, DirTie;
    FirstMissingIs(abk, MAX_SEQ);
  }

  lemma NothingStaged(dev: Store)
    ensures View(dev, []) == dev && UniqueKeys<Block>([])
  {
  }

  lemma ClearStart(tab: Tab, p: seq<nat>)
    ensures tab - Elems(p[..0]) == tab
  {
  }

  lemma ClearNext(tab: Tab, p: seq<nat>, i: nat)
    requires i < |p|
    ensures tab - Elems(p[..i + 1]) == PutTab(tab - Elems(p[..i]), p[i], EMPTY_SLOT)
  {
    assert p[..i + 1] == p[..i] + [p[i]];
  }

  lemma NoneFreed(f: Flat, bl: seq<nat>)
    ensures f == Flat(f.tab, f.dirs - Elems(bl[..0]), f.free, f.resFree + Elems(bl[..0]))
  {
    assert f.dirs - Elems(bl[..0]) == f.dirs;
  }

  lemma OneMoreFreed(f: Flat, bl: seq<nat>, i: nat)
    requires i < |bl| && NoDup(bl) && AllIn(bl, f.dirs)
    ensures bl[i] in f.dirs - Elems(bl[..i])
    ensures f.dirs - Elems(bl[..i + 1]) == f.dirs - Elems(bl[..i]) - {bl[i]}
    ensures f.resFree + Elems(bl[..i + 1]) == f.resFree + Elems(bl[..i]) + {bl[i]}
  {
    assert bl[..i + 1] == bl[..i] + [bl[i]];
    assert bl[i] !in bl[..i];
  }

  // ---------------------------------------------------------------- reserved blocks, all of them

  /** Reserved blocks that are free, hold directories, or belong to the system. */
  ghost function ReserveOf(f: Flat, sys: set<nat>): set<nat> {
    f.resFree + f.dirs.Keys + sys
  }

  predicate OnlyOne(a: bool, b: bool, c: bool, d: bool) {
    (a || b || c || d) && !(a && b) && !(a && c) && !(a && d) && !(b && c) && !(b && d) && !(c && d)
  }

  /** After `n` anode allocations with `left` vacant slots: no anode block is registered while slots are
      left, and none is lost while one registration suffices. */
  ghost predicate Tidy(miss: nat, left: nat, n: nat, abk: Link, lost: set<nat>, abk': Link, lost': set<nat>) {
    (n <= left ==> abk' == abk && lost' == lost) && (n <= left + 1 && miss !in abk ==> lost' == lost)
  }

  lemma TidyMore(miss: nat, left: nat, n: nat, m: nat, abk: Link, lost: set<nat>, abk1: Link, lost1: set<nat>,
                 abk2: Link, lost2: set<nat>)
    requires Tidy(miss, left, n, abk, lost, abk1, lost1) && Tidy(miss, Over(left, n), m, abk1, lost1, abk2, lost2)
    ensures Tidy(miss, left, n + m, abk, lost, abk2, lost2)
  {
  }

  lemma TidyKept(miss: nat, left: nat, n: nat, abk: Link, lost: set<nat>, abk': Link, lost': set<nat>)
    requires Tidy(miss, left, n, abk, lost, abk', lost') && n <= left + 1 && miss !in abk
    ensures lost' == lost && (n <= left ==> abk' == abk)
  {
  }

  lemma TidyNone(miss: nat, left: nat, abk: Link, lost: set<nat>)
    ensures Tidy(miss, left, 0, abk, lost, abk, lost)
  {
  }

  /** The chart of a volume just opened. */
  lemma ChartStart(g: Geo, s: Snap)
    requires SnapOk(g, s)
    ensures Chart(s.sys, s.sys - s.abk.Values, s.abk, {})
  {
    hide TabTie, DirTie, BmTie, FreeTie, ResTie, Sep, BmIndexTie;
  }

  /** System blocks are those that were there, the anode blocks, and the lost ones. */
  ghost predicate Chart(sys: set<nat>, fixed: set<nat>, abk: Link, lost: set<nat>) {
    sys == fixed + abk.Values + lost && fixed !! abk.Values
  }

  lemma ChartIs(sys: set<nat>, fixed: set<nat>, abk: Link)
    requires Chart(sys, fixed, abk, {})
    ensures fixed == sys - abk.Values
  {
  }

  lemma ChartMore(sys: set<nat>, fixed: set<nat>, abk: Link, lost: set<nat>, s: nat, nb: nat)
    requires Chart(sys, fixed, abk, lost) && nb !in sys
    ensures Chart(sys + {nb}, fixed, abk[s := nb], if s in abk then lost + {abk[s]} else lost)
  {
    var abk', lost' := abk[s := nb], if s in abk then lost + {abk[s]} else lost;
    forall x | x in abk.Values ensures x in abk'.Values + lost' {
      var k :| k in abk && abk[k] == x;
      if k != s { assert abk'[k] == x; }
    }
    assert abk'[s] == nb;
    assert abk'.Values <= abk.Values + {nb};
  }

  // ---------------------------------------------------------------- how full directory blocks are

  /** An entry is at least as long as the writer would build it. */
  predicate Snug(e: Entry) {
    EntryLength(|e.name|, e.carriesX) <= e.entrySize
  }

  /** The entries leave room for the terminator. */
  predicate Packs(rbs: nat, es: seq<Entry>) {
    Used(es) < rbs && forall i :: 0 <= i < |es| ==> Snug(es[i])
  }

  ghost predicate Fitted(rbs: nat, dirs: Dirs) {
    forall b :: b in dirs ==> Packs(rbs, dirs[b])
  }

  /** The entry is snug and fits into an empty block. */
  predicate SnugIn(rbs: nat, e: Entry) {
    Snug(e) && Fits(rbs, [], e)
  }

  lemma BuiltSnug(rbs: nat, name: Name, etype: int, h: nat, size: nat, prot: nat, stamp: Stamp)
    requires rbs >= 1024 && |name| <= NAME_MAX
    ensures SnugIn(rbs, BuildEntry(name, etype, h, size, prot, stamp))
  {
    assert name[..|name|] == name;
  }

  lemma FittedPut(rbs: nat, dirs: Dirs, b: nat, es: seq<Entry>)
    requires Fitted(rbs, dirs) && Packs(rbs, es)
    ensures Fitted(rbs, dirs[b := es])
  {
    hide Packs;
  }

  lemma FittedAdd(rbs: nat, dirs: Dirs, b: nat, e: Entry)
    requires Fitted(rbs, dirs) && b in dirs && Fits(rbs, dirs[b], e) && Snug(e)
    ensures Fitted(rbs, dirs[b := dirs[b] + [e]])
  {
    var es := dirs[b];
    assert (es + [e])[..|es|] == es;
    FittedPut(rbs, dirs, b, es + [e]);
  }

  lemma FittedNew(rbs: nat, dirs: Dirs, b: nat, e: Entry)
    requires Fitted(rbs, dirs) && SnugIn(rbs, e)
    ensures Fitted(rbs, dirs[b := [e]])
  {
    assert [e][..0] == [];
    assert Used([e]) == Used([]) + e.entrySize;
    FittedPut(rbs, dirs, b, [e]);
  }

  lemma FittedEmpty(rbs: nat, dirs: Dirs, b: nat)
    requires Fitted(rbs, dirs) && rbs >= 1024
    ensures Fitted(rbs, dirs[b := []])
  {
    FittedPut(rbs, dirs, b, []);
  }

  lemma {:induction false} UsedWithout(es: seq<Entry>, i: nat)
    requires i < |es|
    ensures Used(Without(es, i)) + es[i].entrySize == Used(es)
    decreases |es|
  {
    var n := |es| - 1;
    if i == n {
      assert Without(es, i) == es[..n];
    } else {
      UsedWithout(es[..n], i);
      assert Without(es, i)[..n - 1] == Without(es[..n], i) && Without(es, i)[n - 1] == es[n];
    }
  }

  lemma {:induction false} UsedPatched(es: seq<Entry>, i: nat, e: Entry)
    requires i < |es| && e.entrySize == es[i].entrySize
    ensures Used(es[i := e]) == Used(es)
    decreases |es|
  {
    var n := |es| - 1;
    if i == n {
      assert es[i := e][..n] == es[..n];
    } else {
      UsedPatched(es[..n], i, e);
      assert es[i := e][..n] == es[..n][i := e];
    }
  }

  lemma FittedLess(rbs: nat, dirs: Dirs, b: nat, i: nat)
    requires Fitted(rbs, dirs) && b in dirs && i < |dirs[b]|
    ensures Fitted(rbs, dirs[b := Without(dirs[b], i)])
  {
    hide Snug, Used;
    UsedWithout(dirs[b], i);
    assert Packs(rbs, dirs[b]);
    FittedPut(rbs, dirs, b, Without(dirs[b], i));
  }

  lemma FittedPatched(rbs: nat, dirs: Dirs, b: nat, i: nat, n: nat, stamp: Stamp)
    requires Fitted(rbs, dirs) && b in dirs && i < |dirs[b]|
    ensures Fitted(rbs, dirs[b := dirs[b][i := PatchSize(dirs[b][i], n, stamp)]])
  {
    hide Used;
    var e := PatchSize(dirs[b][i], n, stamp);
    UsedPatched(dirs[b], i, e);
    assert Packs(rbs, dirs[b]);
    FittedPut(rbs, dirs, b, dirs[b][i := e]);
  }

  lemma FittedDrop(rbs: nat, dirs: Dirs, gone: set<nat>)
    requires Fitted(rbs, dirs)
    ensures Fitted(rbs, dirs - gone)
  {
    hide Packs;
  }

  // ---------------------------------------------------------------- a chain that cannot be read back

  /** Every slot of the one committed anode block is taken: the file of anode `nr` has block `1000 + nr`. */
  ghost function FullTable(g: Geo): Tab
    requires g.stride > 0
  {
    map nr | nr in CapSet(g, 1) :: Slot(1, 1000 + nr, ANODE_EOF)
  }

  /** Registering a block under `miss` replaces what a block registered there before held. */
  lemma GrowOver(g: Geo, miss: nat, tab: Tab, y: Slot, z: Slot)
    requires g.stride > ANODE_USERFIRST && Ungrown(g, miss, tab)
    ensures var x := Enc(g, miss, ANODE_USERFIRST);
            GrowTab(g, tab, miss, z) == tab[x := z] && GrowTab(g, tab[x := y], miss, z) == tab[x := z]
  {
    EncInverse(g, miss, ANODE_USERFIRST);
    hide Enc, SeqOf;
    assert (map nr | nr in tab && SeqOf(g, nr) != miss :: tab[nr]) == tab;
  }

  lemma FullTaken(g: Geo)
    requires g.stride > ANODE_USERFIRST
    ensures FullTable(g).Keys == CapSet(g, 1) && Ungrown(g, 1, FullTable(g)) && CapSet(g, 1) - FullTable(g).Keys == {}
  {
    CapIsBelow(g, 1);
    hide CapSet, SeqOf;
  }

  lemma TwoPieces()
    ensures Maximal([Run(200, 1), Run(300, 1)]) && AllBlocks([Run(200, 1), Run(300, 1)]) == [200, 300]
  {
    var rs := [Run(200, 1), Run(300, 1)];
    assert rs[1..] == [Run(300, 1)] && AllBlocks(rs[1..]) == RunBlocks(Run(300, 1)) + AllBlocks([]);
    assert RunBlocks(Run(200, 1)) == [200] && RunBlocks(Run(300, 1)) == [300];
  }

  lemma FullSteps(g: Geo, x: nat)
    requires g.stride > ANODE_USERFIRST && x == Enc(g, 1, ANODE_USERFIRST)
    ensures AllocStep(g, CapSet(g, 1), 1, FullTable(g), Slot(1, 300, ANODE_EOF), x,
                      FullTable(g)[x := Slot(1, 300, ANODE_EOF)])
    ensures AllocStep(g, CapSet(g, 1), 1, FullTable(g)[x := Slot(1, 300, ANODE_EOF)], Slot(1, 200, x), x,
                      FullTable(g)[x := Slot(1, 200, x)])
  {
    hide CapSet, Enc, SeqOf, OffOf, GrowTab, FullTable;
    FullTaken(g);
    var tab, y, z := FullTable(g), Slot(1, 300, ANODE_EOF), Slot(1, 200, x);
    GrowOver(g, 1, tab, y, y);
    GrowOver(g, 1, tab, y, z);
    assert CapSet(g, 1) - tab[x := y].Keys == {};
  }

  /** Two extents, blocks 200 and 300, entered into such a table: the second anode block is registered
      twice, both anodes get the same number, and the chain cannot be followed. */
  lemma OverfullExample(g: Geo)
    requires GeoOk(g)
    ensures g.stride > ANODE_USERFIRST
    ensures var x, rs := Enc(g, 1, ANODE_USERFIRST), [Run(200, 1), Run(300, 1)];
            var tab' := FullTable(g)[x := Slot(1, 200, x)];
            && Left(g, 1, FullTable(g)) == 0 && Maximal(rs) && AllBlocks(rs) == [200, 300]
            && Built(g, CapSet(g, 1), 1, FullTable(g), rs, [x, x], tab')
            && !exists q :: IsRun(TabRead(tab'), x, q)
  {
    GeoFacts(g);
    var x, rs, tab := Enc(g, 1, ANODE_USERFIRST), [Run(200, 1), Run(300, 1)], FullTable(g);
    assert x != ANODE_EOF;
    hide GeoOk, CapSet, Enc, FullTable, Built, AllocStep, Maximal, AllBlocks, IsRun;
    FullTaken(g);
    FullSteps(g, x);
    TwoPieces();
    var tab1, tab2 := tab[x := Slot(1, 300, ANODE_EOF)], tab[x := Slot(1, 200, x)];
    assert rs[1..] == [Run(300, 1)] && rs[1..][1..] == [] && [x, x] == [x] + [x] && [x] == [x] + [];
    BuiltNil(g, CapSet(g, 1), 1, tab, rs[1..][1..]);
    BuiltCons(g, CapSet(g, 1), 1, tab, rs[1..], [], tab, x, tab1);
    BuiltCons(g, CapSet(g, 1), 1, tab, rs, [x], tab1, x, tab2);
    forall q ensures !IsRun(TabRead(tab2), x, q) { LoopNeverEnds(TabRead(tab2), x, q); }
  }
}
