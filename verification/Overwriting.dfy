/** Overwriting a file in place: old blocks are reused, then the chain is cut or extended and
    the recorded size patched. */
module Overwriting {
  import opened Types
  import opened Bitmap
  import opened Ownership
  import opened Table
  import opened Runs
  import opened Transitions
  import opened Guarantees
  import opened Directory
  import opened Steps
  import opened SectorData
  import opened Compose
  import FileReader

  /** The part of `data` the recorded size of entry `e` will cover. */
  ghost function Recorded(e: Entry, data: Bytes): Bytes {
    Clip(data, FileSize(PatchSize(e, |data|, e.stamp)))
  }

  /** All of it exactly when the size fits the entry's size fields. */
  lemma RecordedIff(e: Entry, data: Bytes)
    ensures Recorded(e, data) == data <==> |data| < U32 || (e.carriesX && |data| < U32 * U16)
  {
    PatchedSizeIff(e, |data|, e.stamp);
  }

  /** The object after its file has been overwritten: same head, name, type and protection. */
  ghost function Updated(fs: FS, k: (nat, Name), w: Wit, data: Bytes): FS {
    if k in fs && fs[k].anode in w.ent then fs[k := fs[k].(data := Recorded(w.ent[fs[k].anode], data))] else fs
  }

  lemma UpdatedIs(o: Own, o': Own, h: nat, b: nat, i: nat, data: Bytes, stamp: Stamp, f: Flat, sys: set<nat>,
                  k: (nat, Name))
    requires Overwritten(o, o', h, b, i, data, stamp, f, sys) && Names(o.fs, o.w.par, o.w.ent, o.w.data)
             && k == Key(o.w.par, o.w.ent, h)
    ensures o'.fs == Updated(o.fs, k, o.w, data)
  {
    hide Names, Recorded, Key, PatchSize;
    NamesAt(o.fs, o.w.par, o.w.ent, o.w.data, h);
    PatchedEntry(o.w.ent[h], data, stamp);
    assert Describe(o.w.ent[h], o.w.data[h]).(data := Recorded(o.w.ent[h], data))
             == Describe(PatchSize(o.w.ent[h], |data|, stamp), Recorded(o.w.ent[h], data));
  }

  // ---------------------------------------------------------------- writing over the old blocks

  ghost function OldBlocks(o: Own, h: nat): seq<nat> {
    if h in o.w.path then Blocks(o.f.tab, o.w.path[h]) else []
  }

  /** A named file. */
  ghost predicate IsFile(o: Own, h: nat) {
    h in o.w.path && h in o.w.ent && h in o.w.par && h !in o.w.dh
  }

  lemma FileFacts(g: Geo, o: Own, sect: Sectors, h: nat)
    requires Inv(g, o, sect) && IsFile(o, h)
    ensures !IsDir(o.w.ent[h]) && FileSize(o.w.ent[h]) <= g.bs * |OldBlocks(o, h)|
    ensures NoDup(OldBlocks(o, h)) && InDataAll(g, OldBlocks(o, h))
  {
    hide Chains, Nodes, Cover, Area, Kinds, Entries, Heads, Parents, Names, SectorsOk, Contents, Ranked, Blocks, IsPath,
         FileSize;
    HeadFacts(o.w.path, o.w.ent, o.w.dh, o.fl, h);
    SizeFits(g, o.f.tab, o.w.path, o.w.ent, o.w.data, sect, h);
    ChainsAt(o.f.tab, o.w.path, h);
    PathNoDup(o.f.tab, h, o.w.path[h]);
    BlocksNoDup(o.f.tab, o.w.owner, o.w.path[h]);
    FileBlocksInData(g, o.f.tab, o.f.dirs, o.w.path, o.w.node, o.w.dh, h);
  }

  lemma SizeFits(g: Geo, tab: Tab, path: map<nat, seq<nat>>, ent: map<nat, Entry>, data: map<nat, Bytes>, sect: Sectors,
                 h: nat)
    requires Contents(g, tab, path, ent, data, sect) && h in ent && !IsDir(ent[h])
    ensures h in path && FileSize(ent[h]) <= g.bs * |Blocks(tab, path[h])|
  {
    hide Blocks, FileSize, ReadData;
    assert Content(g, tab, path[h], ent[h], data[h], sect);
  }

  lemma PrefixNoDup(bl: seq<nat>, n: nat)
    requires NoDup(bl) && n <= |bl|
    ensures NoDup(bl[..n]) && Elems(bl[..n]) <= Elems(bl)
  {
  }

  lemma OwnBlocksWithin(g: Geo, o: Own, h: nat, n: nat)
    requires Nodes(o.f.tab, o.w.path, o.w.node) && Cover(o.f.tab, o.w.owner) && h in o.w.path && n <= |OldBlocks(o, h)|
    ensures Within(o.w.node, o.w.owner, Elems(OldBlocks(o, h)[..n]), h)
  {
    hide Nodes, Cover, Blocks;
    forall x | x in Elems(OldBlocks(o, h)[..n]) && x in o.w.owner ensures o.w.owner[x] in o.w.node
    && o.w.node[o.w.owner[x]] == h {
      assert x in OldBlocks(o, h);
      ChainBlocksOwned(o.f.tab, o.w.path, o.w.node, o.w.owner, h, x);
    }
  }

  /** The state once the first `n` old blocks hold new data: only this file reads differently. */
  ghost function Halfway(o: Own, sect: Sectors, h: nat): Own {
    if IsFile(o, h) then Rewrite(o, h, ReadData(sect, OldBlocks(o, h), FileSize(o.w.ent[h]))) else o
  }

  lemma HalfwayKeeps(g: Geo, o: Own, sect: Sectors, h: nat, n: nat, data: Bytes)
    requires Inv(g, o, sect) && IsFile(o, h) && n <= |OldBlocks(o, h)|
    ensures var sect' := WriteSome(g.bs, sect, OldBlocks(o, h)[..n], data, 0, n);
            Inv(g, Halfway(o, sect', h), sect') && Holds(g.bs, sect', OldBlocks(o, h)[..n], data, 0)
  {
    hide Chains, Nodes, Cover, Area, Kinds, Entries, Heads, Parents, Names, SectorsOk, Contents, Ranked, Blocks,
         FileSize, WriteSome, ReadData,
         Within, ChangedIn, Elems, Holds, OldBlocks, NoDup, InDataAll;
    FileFacts(g, o, sect, h);
    var bl := OldBlocks(o, h);
    PrefixNoDup(bl, n);
    WriteSomeChanges(g, sect, bl[..n], data, 0, n);
    WrittenHolds(g.bs, sect, bl[..n], data, 0);
    var sect' := WriteSome(g.bs, sect, bl[..n], data, 0, n);
    OwnBlocksWithin(g, o, h, n);
    hide Inv;
    assert OldBlocks(o, h) == Blocks(o.f.tab, o.w.path[h]) by { OldIs(o, h); }
    RewriteKeeps(g, o, sect, sect', Elems(bl[..n]), h, ReadData(sect', bl, FileSize(o.w.ent[h])));
  }

  lemma OldIs(o: Own, h: nat)
    requires h in o.w.path
    ensures OldBlocks(o, h) == Blocks(o.f.tab, o.w.path[h])
  {
  }

  // ---------------------------------------------------------------- the patched entry

  lemma PatchedEntry(e: Entry, data: Bytes, stamp: Stamp)
    ensures var e' := PatchSize(e, |data|, stamp);
            && e'.anode == e.anode && e'.name == e.name && e'.entryType == e.entryType && FileSize(e') <= |data|
            && Recorded(e, data) == data[..FileSize(e')]
               && forall x :: Describe(e, x).(data := Recorded(e, data)) == Describe(e', Recorded(e, data))
  {
    PatchedSizeIff(e, |data|, stamp);
  }

  /** A chain whose blocks begin with ones holding `data` reads as `data`. */
  lemma PrefixReads(g: Geo, sect: Sectors, bl: seq<nat>, n: nat, data: Bytes, size: nat)
    requires SectorsOk(g, sect) && InDataAll(g, bl) && n <= |bl| && Holds(g.bs, sect, bl[..n], data, 0)
             && size <= |data| <= n * g.bs
    ensures ReadData(sect, bl, size) == data[..size] && size <= g.bs * |bl|
  {
    hide SectorsOk, Holds, ReadData;
    ReadsBack(g.bs, sect, bl[..n], data, size);
    assert InDataAll(g, bl[..n]);
    assert bl == bl[..n] + bl[n..];
    assert n * g.bs == g.bs * |bl[..n]|;
    ReadPrefix(g, sect, bl[..n], bl[n..], size);
    Monotone(g.bs, n, |bl|);
  }

  // ---------------------------------------------------------------- shrinking or keeping the length

  /** Overwritten, patched and cut to `k` anodes, the last with `m` blocks. */
  ghost function ShrunkOwn(o: Own, sect: Sectors, h: nat, b: nat, i: nat, data: Bytes, stamp: Stamp, k: nat,
                           m: nat): Own {
    if !Target(o, h, b, i) || !(0 < k <= |o.w.path[h]|) then o else
    Cut(PatchedOwn(Halfway(o, sect, h), h, b, i, data, stamp), h, k, m)
  }

  /** Entry `i` of block `b` is the entry of file `h`. */
  ghost predicate Target(o: Own, h: nat, b: nat, i: nat) {
    IsFile(o, h) && At(o.f.dirs, b, i, h) && o.w.ent[h].anode == h
  }

  ghost function PatchedOwn(o: Own, h: nat, b: nat, i: nat, data: Bytes, stamp: Stamp): Own {
    if Target(o, h, b, i) then Patch(o, b, i, PatchSize(o.w.ent[h], |data|, stamp), Recorded(o.w.ent[h], data)) else o
  }

  /** `o'` is `o` with the file of `h` overwritten: metadata `f` apart from the patched entry. */
  ghost predicate Overwritten(o: Own, o': Own, h: nat, b: nat, i: nat, data: Bytes, stamp: Stamp, f: Flat,
                              sys: set<nat>) {
    && Target(o, h, b, i) && o'.fl == {} && o'.sys == sys
    && o'.f == Flat(f.tab, o.f.dirs[b := o.f.dirs[b][i := PatchSize(o.w.ent[h], |data|, stamp)]], f.free, f.resFree)
    && o'.fs == o.fs[Key(o.w.par, o.w.ent, h) := Describe(PatchSize(o.w.ent[h], |data|, stamp),
                                                          Recorded(o.w.ent[h], data))]
  }

  lemma PatchedKeeps(g: Geo, o: Own, sect: Sectors, h: nat, b: nat, i: nat, data: Bytes, stamp: Stamp, n: nat)
    requires Target(o, h, b, i)
    requires n <= |OldBlocks(o, h)| && Holds(g.bs, sect, OldBlocks(o, h)[..n], data, 0) && |data| <= n * g.bs
    requires Inv(g, o, sect)
    ensures Inv(g, PatchedOwn(o, h, b, i, data, stamp), sect)
  {
    hide Chains, Nodes, Cover, Area, Kinds, Entries, Heads, Parents, Names, SectorsOk, Contents, Ranked, Blocks,
         FileSize,
         Holds, NoDup, InDataAll, OldBlocks, PatchSize, Recorded, Patch, Describe, IsDir;
    FileFacts(g, o, sect, h);
    var e := o.w.ent[h];
    PatchedEntry(e, data, stamp);
    var e' := PatchSize(e, |data|, stamp);
    PrefixReads(g, sect, OldBlocks(o, h), n, data, FileSize(e'));
    OldIs(o, h);
    SameKind(e, e');
    hide Inv;
    PatchKeeps(g, o, sect, b, i, e', Recorded(e, data));
  }

  lemma SameKind(e: Entry, e': Entry)
    requires e.entryType == e'.entryType
    ensures IsDir(e) <==> IsDir(e')
  {
  }

  lemma HalfwaySame(o: Own, sect: Sectors, h: nat)
    requires IsFile(o, h)
    ensures var o1 := Halfway(o, sect, h);
            o1.f == o.f && o1.sys == o.sys && o1.fl == o.fl && o1.w.path == o.w.path && o1.w.ent == o.w.ent
            && o1.w.par == o.w.par &&
            o1.w.dh == o.w.dh && o1.w.node == o.w.node && o1.w.owner == o.w.owner && o1.w.rank == o.w.rank
            && o1.w.home == o.w.home &&
            o1.fs == o.fs[Key(o.w.par, o.w.ent, h) := Describe(o.w.ent[h],
                                                            ReadData(sect, OldBlocks(o, h), FileSize(o.w.ent[h])))]
  {
  }

  lemma CutFreed(g: Geo, o: Own, sect: Sectors, h: nat, k: nat, m: nat)
    requires Inv(g, o, sect) && h in o.w.path && 0 < k <= |o.w.path[h]| && o.w.path[h][k - 1] in o.f.tab
    ensures CutFree(o.f.tab, o.w.path[h], k, m) == CutBlocks(o.f.tab, o.w.owner, o.w.path[h], k, m)
  {
    hide Nodes, Area, Kinds, Entries, Heads, Parents, Names, SectorsOk, Contents, Ranked;
    var p := o.w.path[h];
    assert IsPath(o.f.tab, h, p);
    CoverIsOwned(o.f.tab, o.w.owner, p, k);
    CutFreedAt(o.f.tab, o.w.owner, p, k, m);
  }

  lemma CutFreedAt(tab: Tab, owner: Link, p: seq<nat>, k: nat, m: nat)
    requires Cover(tab, owner) && 0 < k <= |p| && p[k - 1] in tab && PathCover(tab, p, k) == OwnedBy(owner, p[k..])
    ensures CutFree(tab, p, k, m) == CutBlocks(tab, owner, p, k, m)
  {
    hide PathCover;
    var s := tab[p[k - 1]];
    forall x: nat ensures x in CutFree(tab, p, k, m) <==> x in CutBlocks(tab, owner, p, k, m) {
      RangeMember(s.blk + m, s.blk + s.size, x);
      assert InExt(s, x) <==> s.blk <= x < s.blk + s.size;
    }
  }

  lemma ShrunkFits(g: Geo, o: Own, h: nat, k: nat, m: nat, keep: nat, f: Flat, size: nat)
    requires h in o.w.path && h in o.w.ent && IsCut(o.f, f, o.w.path[h], k, m, keep)
             && FileSize(o.w.ent[h]) <= size <= keep * g.bs
    ensures CutFits(g, o, h, k, m)
  {
    hide Blocks, FileSize, CutTab;
    assert keep * g.bs == g.bs * keep;
  }

  /** Overwriting with no more blocks than before. */
  lemma ShrunkKeeps(g: Geo, o: Own, sect: Sectors, h: nat, b: nat, i: nat, data: Bytes, stamp: Stamp, k: nat, m: nat,
                    n: nat, f: Flat)
    requires Target(o, h, b, i) && Inv(g, Halfway(o, sect, h), sect)
    requires n <= |OldBlocks(o, h)| && Holds(g.bs, sect, OldBlocks(o, h)[..n], data, 0) && |data| <= n * g.bs
    requires IsCut(o.f, f, o.w.path[h], k, m, n) && f.resFree == o.f.resFree && o.fl == {}
    ensures var o' := ShrunkOwn(o, sect, h, b, i, data, stamp, k, m);
            Inv(g, o', sect) && Overwritten(o, o', h, b, i, data, stamp, f, o.sys)
  {
    hide Inv, Blocks, FileSize, Holds, PatchSize, Recorded, Key, Describe, ReadData, Halfway, CutTab, CutBlocks,
         CutFree;
    HalfwaySame(o, sect, h);
    var o1 := Halfway(o, sect, h);
    PatchedKeeps(g, o1, sect, h, b, i, data, stamp, n);
    PatchedEntry(o.w.ent[h], data, stamp);
    var e' := PatchSize(o.w.ent[h], |data|, stamp);
    var o2 := PatchedOwn(o1, h, b, i, data, stamp);
    CutFreed(g, o2, sect, h, k, m);
    ShrunkFits(g, o2, h, k, m, n, f, |data|);
    CutKeeps(g, o2, sect, h, k, m);
  }

  // ---------------------------------------------------------------- growing

  /** The file's chain with the new chain `p` of runs `rs` behind it. */
  ghost function Longer(o: Own, h: nat, p: seq<nat>, rs: seq<Run>, grown: set<nat>): Own
    requires IsFile(o, h) && |p| == |rs| > 0
  {
    Append(WithChain(o, p, rs, grown), h, p[0])
  }

  ghost function LongerFlat(o: Own, h: nat, p: seq<nat>, rs: seq<Run>, grown: set<nat>): Flat {
    if |p| == |rs| > 0 && h in o.w.path
    then Flat(JoinTab(o.f.tab + ChainTab(p, rs), Last(o.w.path[h]), p[0]), o.f.dirs, o.f.free - Elems(AllBlocks(rs)),
              o.f.resFree - grown)
    else o.f
  }

  lemma LongerKeeps(g: Geo, o: Own, sect: Sectors, h: nat, p: seq<nat>, rs: seq<Run>, grown: set<nat>)
    requires IsFile(o, h) && NewChain(o, p, rs, grown) && o.fl == {} && Inv(g, o, sect)
    ensures |p| == |rs| > 0 && Inv(g, Longer(o, h, p, rs, grown), sect)
  {
    hide Inv, ChainTab, OwnerMap, NewChain, Blocks, AllBlocks, Append, WithChain, Elems, NoKids;
    NewChainParts(o, p, rs, grown);
    WithChainKeeps(g, o, sect, p, rs, grown);
    WithChainShape(g, o, sect, p, rs, grown);
    var o1 := WithChain(o, p, rs, grown);
    NewHasNoKids(g, o, sect, p[0]);
    DirsHaveChains(g, o, sect, p[0]);
    AppendKeeps(g, o1, sect, h, p[0]);
  }

  lemma NewHasNoKids(g: Geo, o: Own, sect: Sectors, h: nat)
    requires Inv(g, o, sect) && h !in o.w.path
    ensures NoKids(o.w.par, h)
  {
    hide Chains, Nodes, Cover, Area, Kinds, Entries, Names, SectorsOk, Contents, Ranked;
    forall c | c in o.w.par ensures o.w.par[c] != h { assert o.w.par[c] in o.w.dh; }
  }

  lemma DirsHaveChains(g: Geo, o: Own, sect: Sectors, h: nat)
    requires Inv(g, o, sect) && h !in o.w.path
    ensures h !in o.w.dh
  {
    hide Chains, Nodes, Cover, Area, Kinds, Entries, Parents, Names, SectorsOk, Contents, Ranked;
  }

  lemma LongerShape(g: Geo, o: Own, sect: Sectors, h: nat, p: seq<nat>, rs: seq<Run>, grown: set<nat>)
    requires IsFile(o, h) && NewChain(o, p, rs, grown) && o.fl == {} && Inv(g, o, sect)
    ensures |p| == |rs| > 0
    ensures var o' := Longer(o, h, p, rs, grown);
            && o'.f == LongerFlat(o, h, p, rs, grown)
            && o'.sys == o.sys + grown && o'.fs == o.fs && o'.fl == {} && IsFile(o', h) && o'.w.ent == o.w.ent
               && o'.w.par == o.w.par
            && OldBlocks(o', h) == OldBlocks(o, h) + AllBlocks(rs)
  {
    hide Inv, ChainTab, OwnerMap, NewChain, Blocks, AllBlocks, WithChain, Elems, JoinTab, Last, Nodes;
    NewChainParts(o, p, rs, grown);
    WithChainKeeps(g, o, sect, p, rs, grown);
    WithChainShape(g, o, sect, p, rs, grown);
    var o1 := WithChain(o, p, rs, grown);
    Attached(g, o, sect);
    Attached(g, o1, sect);
    assert AllNew(p, o.f.tab) by { NewChainNew(o, p, rs, grown); }
    WithChainBlocks(g, o, sect, p, rs, h);
    JoinBlocks(o1.f.tab, o1.w.path, o1.w.node, h, p[0], Last(o.w.path[h]));
  }

  /** Writing to other blocks leaves what a stretch of blocks holds. */
  lemma HoldsKept(bs: nat, sect: Sectors, bl: seq<nat>, data: Bytes, off: nat, bl2: seq<nat>, off2: nat, k: nat)
    requires Holds(bs, sect, bl, data, off) && Elems(bl) !! Elems(bl2) && k <= |bl2|
    ensures Holds(bs, WriteSome(bs, sect, bl2, data, off2, k), bl, data, off)
  {
    if k > 0 {
      HoldsKept(bs, sect, bl, data, off, bl2, off2, k - 1);
      hide Pad;
      assert bl2[k - 1] in Elems(bl2);
      forall i | 0 <= i < |bl| ensures bl[i] != bl2[k - 1] { assert bl[i] in Elems(bl); }
    }
  }

  lemma UsedNotFree(g: Geo, o: Own, sect: Sectors, h: nat)
    requires IsFile(o, h) && Inv(g, o, sect)
    ensures Elems(OldBlocks(o, h)) !! o.f.free
  {
    hide Chains, Nodes, Cover, Kinds, Entries, Heads, Parents, Names, SectorsOk, Contents, Ranked, Blocks;
    forall x | x in Elems(OldBlocks(o, h)) ensures x !in o.f.free {
      ChainBlocksOwned(o.f.tab, o.w.path, o.w.node, o.w.owner, h, x);
    }
  }

  /** Old blocks and new blocks together hold the data. */
  lemma BothHold(g: Geo, o: Own, sect: Sectors, h: nat, data: Bytes, bl: seq<nat>)
    requires IsFile(o, h) && Holds(g.bs, sect, OldBlocks(o, h), data, 0) && Elems(bl) <= o.f.free && NoDup(bl)
             && Inv(g, o, sect)
    ensures Holds(g.bs, WriteSome(g.bs, sect, bl, data, |OldBlocks(o, h)| * g.bs, |bl|), OldBlocks(o, h) + bl, data, 0)
  {
    hide Inv, Holds, WriteSome, Elems, NoDup, OldBlocks, IsFile;
    UsedNotFree(g, o, sect, h);
    var off := |OldBlocks(o, h)| * g.bs;
    HoldsKept(g.bs, sect, OldBlocks(o, h), data, 0, bl, off, |bl|);
    WrittenHolds(g.bs, sect, bl, data, off);
    HoldsAppend(g.bs, WriteSome(g.bs, sect, bl, data, off, |bl|), OldBlocks(o, h), bl, data);
  }

  ghost function GrownOwn(o: Own, sect: Sectors, h: nat, b: nat, i: nat, data: Bytes, stamp: Stamp, p: seq<nat>,
                          rs: seq<Run>, grown: set<nat>): Own {
    if !Target(o, h, b, i) || !(|p| == |rs| > 0) then o else
    PatchedOwn(Longer(Halfway(o, sect, h), h, p, rs, grown), h, b, i, data, stamp)
  }

  /** Overwriting with more blocks than before: `sect` is the device after the old blocks were
      written, `bl` the new blocks. */
  lemma GrownKeeps(g: Geo, o: Own, sect: Sectors, h: nat, b: nat, i: nat, data: Bytes, stamp: Stamp, p: seq<nat>,
                   rs: seq<Run>, grown: set<nat>)
    requires Target(o, h, b, i) && NewChain(o, p, rs, grown) && o.fl == {}
    requires Holds(g.bs, sect, OldBlocks(o, h), data, 0) && |data| <= (|OldBlocks(o, h)| + |AllBlocks(rs)|) * g.bs
    requires Inv(g, Halfway(o, sect, h), sect)
    ensures |p| == |rs| > 0
    ensures var sect' := WriteSome(g.bs, sect, AllBlocks(rs), data, |OldBlocks(o, h)| * g.bs, |AllBlocks(rs)|);
            var o' := GrownOwn(o, sect, h, b, i, data, stamp, p, rs, grown);
            Inv(g, o', sect') && Overwritten(o, o', h, b, i, data, stamp, LongerFlat(o, h, p, rs, grown), o.sys + grown)
  {
    hide Inv, Blocks, FileSize, Holds, PatchSize, Recorded, Key, Describe, ReadData, Halfway, NewChain, WriteSome,
         AllBlocks, ChainTab, JoinTab, Last,
         Elems, Longer, NoDup;
    NewChainParts(o, p, rs, grown);
    HalfwaySame(o, sect, h);
    var o1 := Halfway(o, sect, h);
    var bl, off := AllBlocks(rs), |OldBlocks(o, h)| * g.bs;
    var sect' := WriteSome(g.bs, sect, bl, data, off, |bl|);
    assert NewChain(o1, p, rs, grown) && NoDup(bl) && Elems(bl) <= o.f.free by { NewChainSame(o, o1, p, rs, grown); }
    CrashSafe(g, o1, sect, bl, data, off, |bl|);
    BothHold(g, o1, sect, h, data, bl);
    LongerKeeps(g, o1, sect', h, p, rs, grown);
    LongerShape(g, o1, sect', h, p, rs, grown);
    var o2 := Longer(o1, h, p, rs, grown);
    assert (OldBlocks(o, h) + bl)[..|OldBlocks(o, h) + bl|] == OldBlocks(o, h) + bl;
    PatchedKeeps(g, o2, sect', h, b, i, data, stamp, |OldBlocks(o, h) + bl|);
    PatchedEntry(o.w.ent[h], data, stamp);
  }

  lemma NewChainSame(o: Own, o1: Own, p: seq<nat>, rs: seq<Run>, grown: set<nat>)
    requires NewChain(o, p, rs, grown) && o1.f == o.f
    ensures NewChain(o1, p, rs, grown) && NoDup(AllBlocks(rs)) && Elems(AllBlocks(rs)) <= o.f.free
  {
  }

  lemma FileHasPath(o: Own, h: nat)
    requires IsFile(o, h)
    ensures h in o.w.path && h in o.w.par && h in o.w.ent
  {
  }

  lemma AppendedTab(o: Own, h: nat, p: seq<nat>, rs: seq<Run>, grown: set<nat>, f: Flat)
    requires IsFile(o, h) && IsPath(o.f.tab, h, o.w.path[h]) && NewChain(o, p, rs, grown)
             && !Vacant(o.f.tab[Last(o.w.path[h])])
    requires |p| == |rs| && f == Flat(o.f.tab + ChainTab(p, rs), o.f.dirs, o.f.free - Elems(AllBlocks(rs)),
                                      o.f.resFree - grown)
    ensures Last(o.w.path[h]) in o.f.tab
    ensures Flat(PutTab(f.tab, Last(o.w.path[h]), o.f.tab[Last(o.w.path[h])].(next := p[0])), f.dirs, f.free,
                 f.resFree) == LongerFlat(o, h, p, rs, grown)
  {
    hide AllBlocks, ChainTab, Elems;
    ChainTabKeys(p, rs);
    var t := Last(o.w.path[h]);
    assert t in o.f.tab && t !in ChainTab(p, rs);
  }

  /** Writing to free blocks does not disturb what the file reads as halfway. */
  lemma HalfwayStable(g: Geo, o: Own, sect: Sectors, h: nat, bl: seq<nat>, data: Bytes, off: nat)
    requires IsFile(o, h) && Elems(bl) <= o.f.free && Inv(g, Halfway(o, sect, h), sect)
    ensures var sect' := WriteSome(g.bs, sect, bl, data, off, |bl|);
            Inv(g, Halfway(o, sect', h), sect') && Halfway(o, sect', h) == Halfway(o, sect, h)
  {
    hide Chains, Nodes, Cover, Area, Kinds, Entries, Heads, Parents, Names, SectorsOk, Contents, Ranked, WriteSome,
         Elems, Blocks, Halfway, ReadData;
    HalfwaySame(o, sect, h);
    var o1 := Halfway(o, sect, h);
    var sect' := WriteSome(g.bs, sect, bl, data, off, |bl|);
    CrashSafe(g, o1, sect, bl, data, off, |bl|);
    WriteSomeChanges(g, sect, bl, data, off, |bl|);
    FileFacts(g, o1, sect, h);
    UsedNotFree(g, o1, sect, h);
    hide Inv;
    assert OldBlocks(o1, h) == OldBlocks(o, h);
    SameRead(g, sect, sect', OldBlocks(o, h), Elems(bl), FileSize(o.w.ent[h]));
    assert Halfway(o, sect', h) == Halfway(o, sect, h) by { HalfwayIs(o, sect, sect', h); }
  }

  lemma HalfwayIs(o: Own, sect: Sectors, sect': Sectors, h: nat)
    requires IsFile(o, h) && ReadData(sect, OldBlocks(o, h), FileSize(o.w.ent[h]))
               == ReadData(sect', OldBlocks(o, h), FileSize(o.w.ent[h]))
    ensures Halfway(o, sect', h) == Halfway(o, sect, h)
  {
  }

  lemma SameRead(g: Geo, sect: Sectors, sect': Sectors, bl: seq<nat>, xs: set<nat>, n: nat)
    requires ChangedIn(g, sect, sect', xs) && InDataAll(g, bl) && Elems(bl) !! xs
    ensures ReadData(sect, bl, n) == ReadData(sect', bl, n)
  {
    forall i | 0 <= i < |bl| ensures bl[i] !in xs { assert bl[i] in Elems(bl); }
    ConcatFrame(sect, sect', bl);
  }

  lemma OverwrittenFlat(o: Own, o': Own, h: nat, b: nat, i: nat, data: Bytes, stamp: Stamp, f: Flat, sys: set<nat>)
    requires Overwritten(o, o', h, b, i, data, stamp, f, sys)
    ensures Target(o, h, b, i) && o'.fl == {} && o'.sys == sys
    ensures o'.f == Flat(f.tab, o.f.dirs[b := o.f.dirs[b][i := PatchSize(o.w.ent[h], |data|, stamp)]], f.free,
                         f.resFree)
  {
  }

  lemma LastIn(tab: Tab, h: nat, p: seq<nat>)
    requires IsPath(tab, h, p)
    ensures Last(p) in tab
  {
  }

  lemma SameHead(o: Own, h: nat, x: nat)
    requires Names(o.fs, o.w.par, o.w.ent, o.w.data) && h in o.w.ent && h in o.w.par && x in o.w.ent && x in o.w.par
    requires Key(o.w.par, o.w.ent, h) == Key(o.w.par, o.w.ent, x)
    ensures h == x && o.w.ent[h].anode == h
  {
    hide Key, Names;
    NamesAt(o.fs, o.w.par, o.w.ent, o.w.data, h);
    NamesAt(o.fs, o.w.par, o.w.ent, o.w.data, x);
  }

  /** What a file name denotes is what its chain reads as. */
  lemma FileReads(g: Geo, o: Own, sect: Sectors, h: nat)
    requires IsFile(o, h) && Inv(g, o, sect)
    ensures var k := Key(o.w.par, o.w.ent, h);
            k in o.fs && o.fs[k].data == ReadData(sect, OldBlocks(o, h), FileSize(o.w.ent[h]))
            && o.fs[k].entryType == o.w.ent[h].entryType
    ensures FileReader.Readable(g.bs, sect, OldBlocks(o, h))
  {
    hide Chains, Nodes, Cover, Area, Kinds, Entries, Heads, Parents, Names, Ranked, Blocks, Key, ReadData, FileSize,
         NoDup;
    FileFacts(g, o, sect, h);
    hide OldBlocks;
    NamesAt(o.fs, o.w.par, o.w.ent, o.w.data, h);
    OldIs(o, h);
    assert Content(g, o.f.tab, o.w.path[h], o.w.ent[h], o.w.data[h], sect);
  }

  /** `k` in directory `d` is the name of file `h`. */
  ghost predicate FileAt(o: Own, d: nat, k: (nat, Name), h: nat) {
    && IsFile(o, h) && d in o.w.dh && k in o.fs && Key(o.w.par, o.w.ent, h) == k && o.fs[k].anode == h
    && Names(o.fs, o.w.par, o.w.ent, o.w.data)
  }

  /** The old blocks hold the start of the data, and nothing else has changed. */
  ghost predicate OldWritten(g: Geo, o: Own, sect: Sectors, h: nat, data: Bytes) {
    Holds(g.bs, sect, OldBlocks(o, h), data, 0) && Inv(g, Halfway(o, sect, h), sect)
  }

  // ---------------------------------------------------------------- a growing overwrite that fails

  /** The names once the old blocks of file `k` hold the start of `data` but its size is unchanged. */
  ghost function HalfNames(fs: FS, k: (nat, Name), data: Bytes): FS {
    if k in fs then fs[k := fs[k].(data := Clip(data, |fs[k].data|))] else fs
  }

  /** The file reads as before exactly when its old contents are a prefix of the new data. */
  lemma HalfNamesIff(fs: FS, k: (nat, Name), data: Bytes)
    requires k in fs
    ensures HalfNames(fs, k, data) == fs <==> fs[k].data <= data
  {
    var x := fs[k];
    if HalfNames(fs, k, data) == fs { assert x.data == Clip(data, |x.data|); }
    if x.data <= data { assert Clip(data, |x.data|) == x.data; }
  }

  /** A file holding the byte 1, overwritten with longer data starting with 2 without success, reads as 2. */
  lemma HalfNamesExample(data: Bytes)
    requires |data| > 1 && data[0] == 2
    ensures var k: (nat, Name) := (ANODE_ROOTDIR, [97]);
            var fs: FS := map[k := Obj(6, ST_FILE, [97], 0, [1])];
            HalfNames(fs, k, data) != fs && HalfNames(fs, k, data)[k].data == [2]
  {
    var k: (nat, Name) := (ANODE_ROOTDIR, [97]);
    var fs: FS := map[k := Obj(6, ST_FILE, [97], 0, [1])];
    HalfNamesIff(fs, k, data);
    assert data[..1] == [2];
  }

  /** After a failure: every old block holds the new data, the file reads as its start, all else is as before. */
  ghost predicate HalfDone(g: Geo, o: Own, sect: Sectors, h: nat, k: (nat, Name), data: Bytes) {
    OldWritten(g, o, sect, h, data) && Halfway(o, sect, h).fs == HalfNames(o.fs, k, data)
  }

  /** The recorded size is the length of the contents. */
  ghost predicate Sized(g: Geo, o: Own, h: nat, k: (nat, Name)) {
    && h in o.w.ent && k in o.fs && |o.fs[k].data| == FileSize(o.w.ent[h]) <= g.bs * |OldBlocks(o, h)|
       && !IsDir(o.w.ent[h])
    && Describe(o.w.ent[h], o.fs[k].data) == o.fs[k]
  }

  lemma FileSized(g: Geo, o: Own, sect: Sectors, d: nat, h: nat, k: (nat, Name))
    requires FileAt(o, d, k, h) && Inv(g, o, sect)
    ensures Sized(g, o, h, k)
  {
    hide Chains, Nodes, Cover, Area, Kinds, Entries, Heads, Parents, Names, SectorsOk, Contents, Ranked, Blocks, Key,
         FileSize, NoDup, InDataAll, OldBlocks;
    FileFacts(g, o, sect, h);
    FileReads(g, o, sect, h);
    NamesAt(o.fs, o.w.par, o.w.ent, o.w.data, h);
    ReadLength(g, sect, OldBlocks(o, h), FileSize(o.w.ent[h]));
  }

  lemma ReadLength(g: Geo, sect: Sectors, bl: seq<nat>, n: nat)
    requires SectorsOk(g, sect) && InDataAll(g, bl) && n <= g.bs * |bl|
    ensures |ReadData(sect, bl, n)| == n
  {
    ConcatLength(g.bs, sect, bl);
  }

  lemma HalfIsDone(g: Geo, o: Own, sect: Sectors, d: nat, h: nat, k: (nat, Name), data: Bytes)
    requires FileAt(o, d, k, h) && Sized(g, o, h, k) && OldWritten(g, o, sect, h, data)
             && |OldBlocks(o, h)| * g.bs <= |data|
    ensures HalfDone(g, o, sect, h, k, data)
  {
    hide Inv, Key, OldBlocks, FileSize, Names, ReadData, Holds;
    HalfwaySame(o, sect, h);
    var n := FileSize(o.w.ent[h]);
    assert g.bs * |OldBlocks(o, h)| == |OldBlocks(o, h)| * g.bs;
    StartReads(g.bs, sect, OldBlocks(o, h), data, n);
    assert Clip(data, n) == data[..n];
  }

  /** Reading fewer bytes than the blocks hold gives the start of the data. */
  lemma StartReads(bs: nat, sect: Sectors, bl: seq<nat>, data: Bytes, n: nat)
    requires Holds(bs, sect, bl, data, 0) && n <= |bl| * bs <= |data|
    ensures ReadData(sect, bl, n) == data[..n]
  {
    ConcatPad(bs, sect, bl, data, 0);
    assert Pad(data, 0, |bl| * bs)[..n] == data[..n];
  }

  /** Writing to free blocks keeps the old blocks written. */
  lemma StillWritten(g: Geo, o: Own, sect: Sectors, h: nat, data: Bytes, bl: seq<nat>, off: nat)
    requires IsFile(o, h) && OldWritten(g, o, sect, h, data) && Elems(bl) <= o.f.free
    ensures OldWritten(g, o, WriteSome(g.bs, sect, bl, data, off, |bl|), h, data)
  {
    hide Inv, WriteSome, Holds, Halfway, Elems, OldBlocks, IsFile;
    HalfwayStable(g, o, sect, h, bl, data, off);
    HalfwaySame(o, sect, h);
    assert OldBlocks(Halfway(o, sect, h), h) == OldBlocks(o, h) && IsFile(Halfway(o, sect, h), h)
      by { HalfwayOld(o, sect, h); }
    UsedNotFree(g, Halfway(o, sect, h), sect, h);
    HoldsKept(g.bs, sect, OldBlocks(o, h), data, 0, bl, off, |bl|);
  }

  lemma HalfwayOld(o: Own, sect: Sectors, h: nat)
    requires IsFile(o, h)
    ensures OldBlocks(Halfway(o, sect, h), h) == OldBlocks(o, h) && IsFile(Halfway(o, sect, h), h)
  {
    hide Blocks;
  }

  /** What a failed write may have done: nothing visible, or a growing overwrite cut short. */
  ghost predicate FailedWrite(g: Geo, o: Own, sect: Sectors, k: (nat, Name), data: Bytes) {
    if FileThere(o.fs, k) then HalfDone(g, o, sect, o.fs[k].anode, k, data) else Inv(g, o, sect)
  }

  // ---------------------------------------------------------------- what overwriting needs

  /** Blocks a file lacks for this many bytes. */
  ghost function Lacks(g: Geo, o: Own, h: nat, size: nat): nat {
    if g.bs > 0 then Over(BlocksFor(g.bs, size), |OldBlocks(o, h)|) else 0
  }

  /** The file has blocks enough, or there are more of them and anodes for the runs they fall into. */
  ghost predicate CanGrow(g: Geo, miss: nat, o: Own, h: nat, size: nat) {
    Lacks(g, o, h, size) == 0 || CanStore(g, miss, o.f, Lacks(g, o, h, size))
  }

  /** The new runs get different anode numbers. */
  ghost predicate CleanGrow(g: Geo, miss: nat, o: Own, h: nat, size: nat) {
    Lacks(g, o, h, size) == 0 || RunsFor(o.f.free, Lacks(g, o, h, size)) <= SlotsLeft(g, miss, o.f)
  }

  /** The new runs outnumber the vacant slots by two. */
  ghost predicate LoopingGrow(g: Geo, miss: nat, o: Own, h: nat, size: nat) {
    Lacks(g, o, h, size) > 0 && RunsFor(o.f.free, Lacks(g, o, h, size)) >= Left(g, miss, o.f.tab) + 2
  }

  lemma LacksIs(g: Geo, o: Own, h: nat, size: nat)
    requires g.bs > 0
    ensures Lacks(g, o, h, size) > 0 <==> |OldBlocks(o, h)| < BlocksFor(g.bs, size)
  {
    hide BlocksFor, OldBlocks;
  }

  lemma GrowIs(g: Geo, miss: nat, o: Own, h: nat, size: nat)
    requires g.bs > 0
    ensures var needed, have := BlocksFor(g.bs, size), |OldBlocks(o, h)|;
            && (needed <= have ==> CanGrow(g, miss, o, h, size) && CleanGrow(g, miss, o, h, size)
                                   && !LoopingGrow(g, miss, o, h, size))
            && (have < needed ==>
                  && (CanGrow(g, miss, o, h, size) <==> CanStore(g, miss, o.f, needed - have))
                  && (CleanGrow(g, miss, o, h, size) <==> RunsFor(o.f.free, needed - have) <= SlotsLeft(g, miss, o.f))
                  && (LoopingGrow(g, miss, o, h, size) <==>
                        RunsFor(o.f.free, needed - have) >= Left(g, miss, o.f.tab) + 2))
  {
    hide BlocksFor, OldBlocks, CanStore, RunsFor, SlotsLeft, Left;
  }

  /** The chain of `h` has been extended by the blocks just written. */
  ghost predicate Growth(g: Geo, o: Own, f: Flat, sys: set<nat>, sect1: Sectors, sect: Sectors, h: nat, data: Bytes,
                         p: seq<nat>, rs: seq<Run>,
                         grown: set<nat>) {
    && f == LongerFlat(o, h, p, rs, grown) && sys == o.sys + grown && NewChain(o, p, rs, grown)
    && |data| <= (|OldBlocks(o, h)| + |AllBlocks(rs)|) * g.bs
    && sect == WriteSome(g.bs, sect1, AllBlocks(rs), data, |OldBlocks(o, h)| * g.bs, |AllBlocks(rs)|)
  }

  ghost function PathOf(w: Wit, h: nat): seq<nat> {
    if h in w.path then w.path[h] else []
  }

  /** The name denotes a plain file. */
  ghost predicate FileThere(fs: FS, k: (nat, Name)) {
    k in fs && (fs[k].entryType == ST_FILE || fs[k].entryType == ST_ROLLOVERFILE)
  }

  /** If the name denotes a plain file, `h` is its head. */
  ghost predicate HeadThere(fs: FS, k: (nat, Name), h: nat) {
    FileThere(fs, k) ==> h == fs[k].anode
  }

  /** The name under which data written to `name` is found: the name itself if it denotes a plain file,
      otherwise what the writer keeps of it. */
  ghost function WriteName(fs: FS, d: nat, name: Name): Name {
    if FileThere(fs, (d, Canon(name))) then name else ShortName(name)
  }

  ghost function WriteKey(fs: FS, d: nat, name: Name): (nat, Name) {
    (d, Canon(WriteName(fs, d, name)))
  }

  ghost predicate CanWrite(g: Geo, miss: nat, o: Own, d: nat, name: Name, size: nat, stamp: Stamp) {
    var k := (d, Canon(name));
    if FileThere(o.fs, k) then CanGrow(g, miss, o, o.fs[k].anode, size)
                               else CanCreate(g, miss, o, d, ShortName(name), size, stamp)
  }

  ghost predicate CleanWrite(g: Geo, miss: nat, o: Own, d: nat, name: Name, size: nat, stamp: Stamp) {
    var k := (d, Canon(name));
    if FileThere(o.fs, k) then CleanGrow(g, miss, o, o.fs[k].anode, size)
                               else CleanCreate(g, miss, o, d, ShortName(name), size, stamp)
  }

  /** The name denotes no plain file, and the name the writer keeps of it is in use. */
  ghost predicate DoubleWrite(g: Geo, miss: nat, o: Own, d: nat, name: Name, size: nat, stamp: Stamp) {
    !FileThere(o.fs, (d, Canon(name))) && DoubleCreate(g, miss, o, d, ShortName(name), size, stamp)
  }

  lemma FitsAfford(g: Geo, miss: nat, f: Flat, n: nat)
    requires g.stride > 0
    ensures RunsFor(f.free, n) <= SlotsLeft(g, miss, f) ==>
              Affordable(f.free, n, 0, Supply(g, CapSet(g, miss), miss, f.tab))
  {
    hide RunsFor, Supply, CapSet;
  }

  /** The chain of file `h` can be extended. */
  ghost predicate Extendable(o: Own, h: nat) {
    IsFile(o, h) && IsPath(o.f.tab, h, o.w.path[h]) && ANODE_EOF !in o.f.tab && !Vacant(o.f.tab[Last(o.w.path[h])])
  }

  /** New blocks for file `h` are written and chained, the chain not yet appended. */
  ghost predicate Stretched(g: Geo, o: Own, f: Flat, sect1: Sectors, sect: Sectors, h: nat, data: Bytes, p: seq<nat>,
                            rs: seq<Run>,
                            grown: set<nat>, have: nat, needed: nat) {
    && NewChain(o, p, rs, grown) && |p| == |rs| > 0 && grown <= o.f.resFree
    && f == Flat(o.f.tab + ChainTab(p, rs), o.f.dirs, o.f.free - Elems(AllBlocks(rs)), o.f.resFree - grown)
    && have == |OldBlocks(o, h)| && needed == have + |AllBlocks(rs)| && |data| <= needed * g.bs
    && sect == WriteSome(g.bs, sect1, AllBlocks(rs), data, have * g.bs, |AllBlocks(rs)|)
  }

  /** The new chain appended: the file has grown, and reserved blocks are conserved. */
  lemma IsGrowth(g: Geo, o: Own, f: Flat, f': Flat, sect1: Sectors, sect: Sectors, h: nat, data: Bytes, p: seq<nat>,
                 rs: seq<Run>,
                 grown: set<nat>, have: nat, needed: nat, nr: nat)
    requires Extendable(o, h) && Stretched(g, o, f, sect1, sect, h, data, p, rs, grown, have, needed) && p[0] == nr
    requires f' == Flat(PutTab(f.tab, Last(o.w.path[h]), o.f.tab[Last(o.w.path[h])].(next := nr)), f.dirs, f.free,
                        f.resFree)
    ensures Growth(g, o, f', o.sys + grown, sect1, sect, h, data, p, rs, grown) && f'.dirs == o.f.dirs
    ensures ReserveOf(f', o.sys + grown) == ReserveOf(o.f, o.sys)
  {
    hide LongerFlat, NewChain, OldBlocks, AllBlocks, WriteSome, ChainTab, IsFile, IsPath, Vacant, Last, PutTab, Elems,
         ReserveOf;
    AppendedTab(o, h, p, rs, grown, f);
    TakeReserve(o.f, f', o.sys, grown);
  }

  lemma ExtendableParts(o: Own, h: nat)
    requires Extendable(o, h)
    ensures h in o.w.path && IsPath(o.f.tab, h, o.w.path[h]) && ANODE_EOF !in o.f.tab && Last(o.w.path[h]) in o.f.tab
    ensures !Vacant(o.f.tab[Last(o.w.path[h])])
  {
    LastIn(o.f.tab, h, o.w.path[h]);
  }
}
