/** Whole operations as compositions of ownership steps. */
module Compose {
  import opened Types
  import opened Bitmap
  import Anodes
  import opened Ownership
  import opened Table
  import opened Runs
  import opened Transitions
  import opened Guarantees
  import opened Directory
  import opened Steps
  import opened SectorData
  import opened Sets

  // ---------------------------------------------------------------- placing an entry

  ghost function PlaceOwn(o: Own, d: nat, e: Entry, pl: Placed, dat: Bytes): Own
    requires d in o.w.path
  {
    match pl
    case InBlock(b) => if b in o.f.dirs then Enter(o, b, e, d, dat) else o
    case NewBlock(nb, nr, grown) =>
      var o1 := AddDirChain(TakeSys(o, grown), nr, nb, 0);
      if nr == d then o else Enter(Append(o1, d, nr), nb, e, d, dat)
  }

  lemma BlockOfDir(g: Geo, o: Own, d: nat, b: nat)
    requires Nodes(o.f.tab, o.w.path, o.w.node) && Cover(o.f.tab, o.w.owner) && d in o.w.dh && d in o.w.path
    requires b in o.f.dirs && b in Blocks(o.f.tab, o.w.path[d])
    ensures BlockOf(o, b, d)
  {
    hide Nodes, Cover, Blocks;
    ChainBlocksOwned(o.f.tab, o.w.path, o.w.node, o.w.owner, d, b);
  }

  /** Conditions for naming the floating head of `e` in directory `d`. */
  ghost predicate CanName(g: Geo, o: Own, sect: Sectors, d: nat, e: Entry, dat: Bytes) {
    && d in o.w.dh && d in o.w.path && e.anode in o.fl && e.anode in o.w.path && e.anode != d
    && (e.anode in o.w.dh <==> IsDir(e)) && (d, Canon(e.name)) !in o.fs
    && Content(g, o.f.tab, o.w.path[e.anode], e, dat, sect)
    && (e.anode in o.w.dh ==> e.anode in o.w.rank && d in o.w.rank && o.w.rank[d] < o.w.rank[e.anode])
  }

  lemma PlaceInBlock(g: Geo, o: Own, sect: Sectors, d: nat, e: Entry, dat: Bytes, b: nat)
    requires Inv(g, o, sect) && CanName(g, o, sect, d, e, dat) && b in o.f.dirs && b in Blocks(o.f.tab, o.w.path[d])
    ensures Inv(g, Enter(o, b, e, d, dat), sect)
  {
    hide Chains, Nodes, Cover, Area, Kinds, Entries, Heads, Parents, Names, SectorsOk, Contents, Content, Ranked, IsDir,
         Canon, BlockOf, Blocks;
    BlockOfDir(g, o, d, b);
    EnterKeeps(g, o, sect, b, e, d, dat);
  }

  lemma JoinedContent(g: Geo, o: Own, sect: Sectors, h: nat, nr: nat, nb: nat, t: nat, e: Entry, dat: Bytes)
    requires Nodes(o.f.tab, o.w.path, o.w.node) && h in o.w.path && nr !in o.f.tab
    requires Content(g, o.f.tab, o.w.path[h], e, dat, sect)
    ensures Content(g, JoinTab(o.f.tab + map[nr := Slot(1, nb, ANODE_EOF)], t, nr), o.w.path[h], e, dat, sect)
  {
    NodesCover(o.f.tab, o.w.path, o.w.node, h);
    BlocksFrame(o.f.tab, JoinTab(o.f.tab + map[nr := Slot(1, nb, ANODE_EOF)], t, nr), o.w.path[h]);
  }

  /** The directory with a new, still empty block appended. */
  ghost function Extended(o: Own, d: nat, nb: nat, nr: nat, grown: set<nat>): Own
    requires d in o.w.path && nr != d
  {
    Append(AddDirChain(TakeSys(o, grown), nr, nb, 0), d, nr)
  }

  lemma ExtendedKeeps(g: Geo, o: Own, sect: Sectors, d: nat, nb: nat, nr: nat, grown: set<nat>)
    requires Inv(g, o, sect) && d in o.w.dh && d in o.w.path && nr != d && nr !in o.f.tab && nr != ANODE_EOF
    requires nb in o.f.resFree && grown <= o.f.resFree - {nb}
    ensures Inv(g, Extended(o, d, nb, nr, grown), sect) && nr !in o.w.path
  {
    hide Chains, Nodes, Cover, Area, Kinds, Entries, Heads, Parents, Names, SectorsOk, Contents, Ranked, NoKids,
         JoinTab, JoinPath, Redirect, Last, All;
    TakeSysKeeps(g, o, sect, grown);
    var o0 := TakeSys(o, grown);
    AddDirChainKeeps(g, o0, sect, nr, nb, 0);
    AppendKeeps(g, AddDirChain(o0, nr, nb, 0), sect, d, nr);
  }

  lemma ExtendedBlock(g: Geo, o: Own, d: nat, nb: nat, nr: nat, grown: set<nat>)
    requires d in o.w.path && nr != d && d in o.w.dh
    ensures BlockOf(Extended(o, d, nb, nr, grown), nb, d) && Extended(o, d, nb, nr, grown).f.dirs[nb] == []
  {
  }

  lemma ExtendedRest(o: Own, d: nat, nb: nat, nr: nat, grown: set<nat>, h: nat)
    requires d in o.w.path && nr != d && nr !in o.w.path && h in o.w.path && h != d && h in o.fl
    ensures var o2 := Extended(o, d, nb, nr, grown);
            && h in o2.fl && h in o2.w.path && o2.w.path[h] == o.w.path[h] && o2.fs == o.fs
            && (h in o2.w.dh <==> h in o.w.dh)
               && (h in o.w.rank && h != nr ==> h in o2.w.rank && o2.w.rank[h] == o.w.rank[h])
            && (d in o.w.rank ==> d in o2.w.rank && o2.w.rank[d] == o.w.rank[d])
            && o2.fl == o.fl - {nr}
  {
  }

  lemma FloatNotNew(g: Geo, o: Own, sect: Sectors, nr: nat)
    requires Inv(g, o, sect) && nr !in o.w.path
    ensures nr !in o.fl
  {
    hide Chains, Nodes, Cover, Area, Kinds, Entries, Parents, Names, SectorsOk, Contents, Ranked;
  }

  lemma PlaceNewBlock(g: Geo, o: Own, sect: Sectors, d: nat, e: Entry, dat: Bytes, nb: nat, nr: nat, grown: set<nat>)
    requires Inv(g, o, sect) && CanName(g, o, sect, d, e, dat) && nr != d && nr !in o.f.tab && nr != ANODE_EOF
    requires nb in o.f.resFree && grown <= o.f.resFree - {nb}
    ensures nr !in o.fl && nr !in o.w.path
    ensures Inv(g, Enter(Extended(o, d, nb, nr, grown), nb, e, d, dat), sect)
  {
    hide Chains, Nodes, Cover, Area, Kinds, Entries, Heads, Parents, Names, SectorsOk, Contents, Ranked, Content, Canon,
         IsDir, BlockOf, NoKids,
         JoinTab, JoinPath, Redirect, Last, All, Extended, Enter;
    assert Nodes(o.f.tab, o.w.path, o.w.node);
    hide Inv;
    ExtendedKeeps(g, o, sect, d, nb, nr, grown);
    FloatNotNew(g, o, sect, nr);
    ExtendedRest(o, d, nb, nr, grown, e.anode);
    ExtendedBlock(g, o, d, nb, nr, grown);
    JoinedContent(g, o, sect, e.anode, nr, nb, Last(o.w.path[d]), e, dat);
    var o2 := Extended(o, d, nb, nr, grown);
    assert o2.f.tab == JoinTab(o.f.tab + map[nr := Slot(1, nb, ANODE_EOF)], Last(o.w.path[d]), nr)
      by { ExtendedTab(o, d, nb, nr, grown); }
    hide Extended;
    EnterKeeps(g, o2, sect, nb, e, d, dat);
  }

  lemma ExtendedTab(o: Own, d: nat, nb: nat, nr: nat, grown: set<nat>)
    requires d in o.w.path && nr != d
    ensures var o2 := Extended(o, d, nb, nr, grown);
            && o2.f.tab == JoinTab(o.f.tab + map[nr := Slot(1, nb, ANODE_EOF)], Last(o.w.path[d]), nr)
            && o2.f.dirs == o.f.dirs[nb := []] && o2.f.free == o.f.free && o2.f.resFree == o.f.resFree - grown - {nb}
               && o2.sys == o.sys + grown
  {
  }

  /** Adding an entry keeps the invariant, names the head, and changes nothing else a user sees. */
  lemma PlaceKeeps(g: Geo, o: Own, sect: Sectors, d: nat, e: Entry, dat: Bytes, pl: Placed)
    requires Inv(g, o, sect) && CanName(g, o, sect, d, e, dat) && PlacedOk(o.f, Blocks(o.f.tab, o.w.path[d]), pl)
    ensures var o' := PlaceOwn(o, d, e, pl, dat);
            && Inv(g, o', sect) && o'.f == PlaceFlat(o.f, o.w.path[d], e, pl) && o'.sys == PlaceSys(o.sys, pl)
            && o'.fs == o.fs[(d, Canon(e.name)) := Describe(e, dat)] && o'.fl == o.fl - {e.anode}
  {
    match pl
    case InBlock(b) =>
      hide Inv, CanName, Blocks, Canon, Describe;
      DInPath(g, o, sect, d, e, dat);
      PlaceInBlock(g, o, sect, d, e, dat, b);
    case NewBlock(nb, nr, grown) =>
      hide Inv, Blocks, Canon, Describe, JoinTab, Last, Content, IsDir;
      HeadInTab(g, o, sect, d);
      PlaceNewBlock(g, o, sect, d, e, dat, nb, nr, grown);
      ExtendedTab(o, d, nb, nr, grown);
      PlaceNewShape(o, d, e, dat, nb, nr, grown);
  }

  /** Conditions for naming a floating head in a directory that may lie inside it. */
  ghost predicate CanPut(g: Geo, o: Own, sect: Sectors, d: nat, e: Entry, dat: Bytes) {
    && d in o.w.dh && d in o.w.path && e.anode in o.fl && e.anode in o.w.path && (e.anode in o.w.dh <==> IsDir(e))
       && (d, Canon(e.name)) !in o.fs
    && Content(g, o.f.tab, o.w.path[e.anode], e, dat, sect)
  }

  lemma PutInBlock(g: Geo, o: Own, sect: Sectors, d: nat, e: Entry, dat: Bytes, b: nat)
    requires Inv(g, o, sect) && CanPut(g, o, sect, d, e, dat) && b in o.f.dirs && b in Blocks(o.f.tab, o.w.path[d])
    ensures Loose(g, Enter(o, b, e, d, dat), sect)
  {
    hide Chains, Nodes, Cover, Area, Kinds, Entries, Heads, Parents, Names, SectorsOk, Contents, Content, Ranked, IsDir,
         Canon, BlockOf, Blocks, Loose, Enter;
    BlockOfDir(g, o, d, b);
    InvIff(g, o, sect);
    DirBlockThere(o, b, d);
    EnterLoose(g, o, sect, b, e, d, dat);
  }

  lemma DirBlockThere(o: Own, b: nat, d: nat)
    requires BlockOf(o, b, d)
    ensures b in o.f.dirs
  {
  }

  /** In the extended directory the head still floats, with the same contents. */
  lemma ExtendedPut(g: Geo, o: Own, sect: Sectors, d: nat, e: Entry, dat: Bytes, nb: nat, nr: nat, grown: set<nat>)
    requires Nodes(o.f.tab, o.w.path, o.w.node) && CanPut(g, o, sect, d, e, dat) && nr != d && nr !in o.w.path
             && nr !in o.f.tab && nr !in o.fl
    ensures var o2 := Extended(o, d, nb, nr, grown); CanPut(g, o2, sect, d, e, dat) && o2.fs == o.fs
  {
    hide Nodes, Content, Canon, IsDir, JoinTab, Blocks, Last, Redirect, All;
    ExtendedTab(o, d, nb, nr, grown);
    var o2 := Extended(o, d, nb, nr, grown);
    if e.anode == d {
      ContentOfDir(g, o.f.tab, o2.f.tab, o.w.path[d], o2.w.path[d], e, dat, sect);
    } else {
      JoinedContent(g, o, sect, e.anode, nr, nb, Last(o.w.path[d]), e, dat);
      assert o2.w.path[e.anode] == o.w.path[e.anode];
    }
  }

  lemma ContentOfDir(g: Geo, tab: Tab, tab': Tab, p: seq<nat>, p': seq<nat>, e: Entry, dat: Bytes, sect: Sectors)
    requires IsDir(e) && Content(g, tab, p, e, dat, sect)
    ensures Content(g, tab', p', e, dat, sect)
  {
  }

  lemma PutNewBlock(g: Geo, o: Own, sect: Sectors, d: nat, e: Entry, dat: Bytes, nb: nat, nr: nat, grown: set<nat>)
    requires Inv(g, o, sect) && CanPut(g, o, sect, d, e, dat) && nr != d && nr !in o.f.tab && nr != ANODE_EOF
    requires nb in o.f.resFree && grown <= o.f.resFree - {nb}
    ensures nr !in o.fl && nr !in o.w.path
    ensures Loose(g, Enter(Extended(o, d, nb, nr, grown), nb, e, d, dat), sect)
  {
    hide Inv, Content, Canon, IsDir, BlockOf, Extended, Enter, Loose, Nodes;
    Attached(g, o, sect);
    ExtendedKeeps(g, o, sect, d, nb, nr, grown);
    FloatNotNew(g, o, sect, nr);
    ExtendedPut(g, o, sect, d, e, dat, nb, nr, grown);
    ExtendedBlock(g, o, d, nb, nr, grown);
    var o2 := Extended(o, d, nb, nr, grown);
    InvIff(g, o2, sect);
    EnterLoose(g, o2, sect, nb, e, d, dat);
  }

  /** Adding an entry wherever the directory lies: all of the invariant but the order of directories. */
  lemma PlaceLoose(g: Geo, o: Own, sect: Sectors, d: nat, e: Entry, dat: Bytes, pl: Placed)
    requires Inv(g, o, sect) && CanPut(g, o, sect, d, e, dat) && PlacedOk(o.f, Blocks(o.f.tab, o.w.path[d]), pl)
    ensures var o' := PlaceOwn(o, d, e, pl, dat);
            && Loose(g, o', sect) && o'.f == PlaceFlat(o.f, o.w.path[d], e, pl) && o'.sys == PlaceSys(o.sys, pl)
            && o'.fs == o.fs[(d, Canon(e.name)) := Describe(e, dat)] && o'.fl == o.fl - {e.anode}
  {
    match pl
    case InBlock(b) =>
      hide Inv, Loose, Blocks, Canon, Describe, Content, IsDir;
      PutInBlock(g, o, sect, d, e, dat, b);
    case NewBlock(nb, nr, grown) =>
      hide Inv, Loose, Blocks, Canon, Describe, JoinTab, Last, Content, IsDir;
      HeadInTab(g, o, sect, d);
      PutNewBlock(g, o, sect, d, e, dat, nb, nr, grown);
      ExtendedTab(o, d, nb, nr, grown);
      PlaceNewShape(o, d, e, dat, nb, nr, grown);
  }

  lemma DInPath(g: Geo, o: Own, sect: Sectors, d: nat, e: Entry, dat: Bytes)
    requires CanName(g, o, sect, d, e, dat)
    ensures d in o.w.path
  {
  }

  lemma HeadInTab(g: Geo, o: Own, sect: Sectors, d: nat)
    requires Inv(g, o, sect) && d in o.w.path
    ensures d in o.f.tab && ANODE_EOF !in o.f.tab && IsPath(o.f.tab, d, o.w.path[d])
  {
    hide Nodes, Cover, Area, Kinds, Entries, Heads, Parents, Names, SectorsOk, Contents, Ranked;
    assert IsPath(o.f.tab, d, o.w.path[d]);
  }

  lemma PlaceNewShape(o: Own, d: nat, e: Entry, dat: Bytes, nb: nat, nr: nat, grown: set<nat>)
    requires d in o.w.path && nr != d && nr !in o.fl
    ensures var o' := PlaceOwn(o, d, e, NewBlock(nb, nr, grown), dat);
            && o' == Enter(Extended(o, d, nb, nr, grown), nb, e, d, dat)
            && o'.f == PlaceFlat(o.f, o.w.path[d], e, NewBlock(nb, nr, grown)) && o'.sys == o.sys + grown
            && o'.fs == o.fs[(d, Canon(e.name)) := Describe(e, dat)] && o'.fl == o.fl - {e.anode}
  {
    hide Canon, Describe, JoinTab, Last, Extended, PlaceFlat;
    PlaceNewIs(o, d, e, dat, nb, nr, grown);
    ExtendedTab(o, d, nb, nr, grown);
    ExtendedNames(o, d, nb, nr, grown);
    NewBlockFlat(o.f, o.w.path[d], e, nb, nr, grown);
    assert Extended(o, d, nb, nr, grown).fl - {e.anode} == o.fl - {e.anode};
  }

  lemma PlaceNewIs(o: Own, d: nat, e: Entry, dat: Bytes, nb: nat, nr: nat, grown: set<nat>)
    requires d in o.w.path && nr != d
    ensures nb in Extended(o, d, nb, nr, grown).f.dirs
    ensures PlaceOwn(o, d, e, NewBlock(nb, nr, grown), dat) == Enter(Extended(o, d, nb, nr, grown), nb, e, d, dat)
  {
    hide JoinTab, JoinPath, Redirect, Last, Enter;
  }

  lemma ExtendedNames(o: Own, d: nat, nb: nat, nr: nat, grown: set<nat>)
    requires d in o.w.path && nr != d && nr !in o.fl
    ensures Extended(o, d, nb, nr, grown).fs == o.fs && Extended(o, d, nb, nr, grown).fl == o.fl
  {
    hide JoinTab, JoinPath, Redirect, Last;
  }

  lemma NewBlockFlat(f: Flat, p: seq<nat>, e: Entry, nb: nat, nr: nat, grown: set<nat>)
    ensures PlaceFlat(f, p, e, NewBlock(nb, nr, grown))
         == Flat(JoinTab(f.tab + map[nr := Slot(1, nb, ANODE_EOF)], Last(p), nr), f.dirs[nb := []][nb := [] + [e]],
                 f.free, f.resFree - grown - {nb})
  {
    hide JoinTab, Last;
    var none: seq<Entry> := [];
    assert none + [e] == [e];
    assert f.dirs[nb := none][nb := [e]] == f.dirs[nb := [e]];
    assert f.resFree - grown - {nb} == f.resFree - {nb} - grown;
  }

  // ---------------------------------------------------------------- a chain for new data

  /** Which new anode owns which new block. */
  ghost function OwnerMap(p: seq<nat>, rs: seq<Run>): Link
    requires |p| == |rs|
  {
    if |p| == 0 then map[] else OwnerMap(p[1..], rs[1..]) + All(Elems(RunBlocks(rs[0])), p[0])
  }

  lemma {:induction false} OwnerMapKeys(p: seq<nat>, rs: seq<Run>)
    requires |p| == |rs|
    ensures OwnerMap(p, rs).Keys == Elems(AllBlocks(rs))
  {
    if |p| > 0 {
      OwnerMapKeys(p[1..], rs[1..]);
      assert Elems(AllBlocks(rs)) == Elems(RunBlocks(rs[0])) + Elems(AllBlocks(rs[1..]));
    }
  }

  lemma RunCover(r: Run, nr: nat, next: nat)
    ensures Cover(map[nr := RunSlot(r, next)], All(Elems(RunBlocks(r)), nr))
  {
    forall x: nat ensures x in Elems(RunBlocks(r)) <==> InExt(RunSlot(r, next), x) {
      if InExt(RunSlot(r, next), x) { assert RunBlocks(r)[x - r.start] == x; }
    }
  }

  lemma {:induction false} OwnerMapCover(p: seq<nat>, rs: seq<Run>)
    requires |p| == |rs| && NoDup(p) && NoDup(AllBlocks(rs))
    ensures Cover(ChainTab(p, rs), OwnerMap(p, rs))
  {
    hide Cover, RunBlocks, All, NextOf, RunSlot, Elems, NoDup;
    if |p| > 0 {
      var q, ss := p[1..], rs[1..];
      var nt: Tab, om := map[p[0] := RunSlot(rs[0], NextOf(p, 0))], All(Elems(RunBlocks(rs[0])), p[0]);
      SuffixNoDup(RunBlocks(rs[0]), AllBlocks(ss));
      TailNoDup(p);
      hide AllBlocks;
      OwnerMapCover(q, ss);
      RunCover(rs[0], p[0], NextOf(p, 0));
      ChainTabKeys(q, ss);
      OwnerMapKeys(q, ss);
      AllKeys(Elems(RunBlocks(rs[0])), p[0]);
      AddCover(ChainTab(q, ss), OwnerMap(q, ss), nt, om);
      assert ChainTab(p, rs) == ChainTab(q, ss) + nt;
    } else {
      NothingCovered();
    }
  }

  lemma NothingCovered()
    ensures Cover(map[], map[])
  {
  }

  lemma AllKeys(s: set<nat>, h: nat)
    ensures All(s, h).Keys == s
  {
  }

  lemma TailNoDup(p: seq<nat>)
    requires NoDup(p) && |p| > 0
    ensures NoDup(p[1..]) && p[0] !in p[1..]
  {
    assert forall i :: 0 <= i < |p[1..]| ==> p[1..][i] == p[i + 1];
  }

  lemma SuffixNoDup(a: seq<nat>, b: seq<nat>)
    requires NoDup(a + b)
    ensures NoDup(b) && Elems(a) !! Elems(b)
  {
    assert forall i :: 0 <= i < |b| ==> b[i] == (a + b)[|a| + i];
    forall x | x in Elems(a) ensures x !in Elems(b) {
      var i :| 0 <= i < |a| && a[i] == x;
      assert (a + b)[i] == x;
    }
  }

  /** The anodes `p` of runs `rs` added as a floating chain, `grown` going to anode blocks. */
  ghost function WithChain(o: Own, p: seq<nat>, rs: seq<Run>, grown: set<nat>): Own
    requires |p| == |rs| > 0
  {
    AddFileChain(TakeSys(o, grown), p, ChainTab(p, rs), OwnerMap(p, rs))
  }

  /** What makes a built chain usable. */
  ghost predicate NewChain(o: Own, p: seq<nat>, rs: seq<Run>, grown: set<nat>) {
    && |p| == |rs| > 0 && NoDup(p) && AllNew(p, o.f.tab) && ANODE_EOF !in p
    && NoDup(AllBlocks(rs)) && Elems(AllBlocks(rs)) <= o.f.free && grown <= o.f.resFree
  }

  lemma NewChainFresh(o: Own, p: seq<nat>, rs: seq<Run>, grown: set<nat>)
    requires NewChain(o, p, rs, grown)
    ensures FreshChain(o.f.tab, p, ChainTab(p, rs), OwnerMap(p, rs)) && OwnerMap(p, rs).Keys <= o.f.free
    ensures OwnerMap(p, rs).Keys == Elems(AllBlocks(rs)) && Blocks(ChainTab(p, rs), p) == AllBlocks(rs)
  {
    hide Cover, Blocks, AllBlocks, OwnerMap, ChainTab, IsPath;
    ChainTabPath(p, rs);
    ChainTabKeys(p, rs);
    OwnerMapCover(p, rs);
    OwnerMapKeys(p, rs);
  }

  lemma WithChainKeeps(g: Geo, o: Own, sect: Sectors, p: seq<nat>, rs: seq<Run>, grown: set<nat>)
    requires Inv(g, o, sect) && NewChain(o, p, rs, grown)
    ensures Inv(g, WithChain(o, p, rs, grown), sect)
  {
    hide Inv, ChainTab, OwnerMap, FreshChain, NewChain;
    NewChainParts(o, p, rs, grown);
    TakeSysKeeps(g, o, sect, grown);
    NewChainFresh(o, p, rs, grown);
    AddFileChainKeeps(g, TakeSys(o, grown), sect, p, ChainTab(p, rs), OwnerMap(p, rs));
  }

  lemma NewChainParts(o: Own, p: seq<nat>, rs: seq<Run>, grown: set<nat>)
    requires NewChain(o, p, rs, grown)
    ensures |p| == |rs| > 0 && grown <= o.f.resFree
  {
  }

  lemma WithChainShape(g: Geo, o: Own, sect: Sectors, p: seq<nat>, rs: seq<Run>, grown: set<nat>)
    requires Inv(g, o, sect) && NewChain(o, p, rs, grown)
    ensures var o1 := WithChain(o, p, rs, grown);
            && o1.f == Flat(o.f.tab + ChainTab(p, rs), o.f.dirs, o.f.free - Elems(AllBlocks(rs)), o.f.resFree - grown)
            && o1.sys == o.sys + grown && o1.fs == o.fs && o1.fl == o.fl + {p[0]} && o1.w.path == o.w.path[p[0] := p]
            && o1.w.dh == o.w.dh && o1.w.rank == o.w.rank && o1.w.ent == o.w.ent && o1.w.par == o.w.par
               && o1.w.home == o.w.home
            && Blocks(o1.f.tab, p) == AllBlocks(rs) && p[0] !in o.w.path
  {
    hide Nodes, Cover, Area, Kinds, Entries, Heads, Parents, Names, SectorsOk, Contents, Ranked, ChainTab, OwnerMap,
         Blocks, AllBlocks;
    NewChainFresh(o, p, rs, grown);
    ChainTabKeys(p, rs);
    BlocksFrame(ChainTab(p, rs), o.f.tab + ChainTab(p, rs), p);
    AddChains(o.f.tab, o.w.path, p, ChainTab(p, rs), OwnerMap(p, rs));
  }

  lemma WithChainBlocks(g: Geo, o: Own, sect: Sectors, p: seq<nat>, rs: seq<Run>, d: nat)
    requires Nodes(o.f.tab, o.w.path, o.w.node) && |p| == |rs| && AllNew(p, o.f.tab) && d in o.w.path
    ensures Blocks(o.f.tab + ChainTab(p, rs), o.w.path[d]) == Blocks(o.f.tab, o.w.path[d])
    ensures Agree(o.f.tab, o.f.tab + ChainTab(p, rs), o.w.path[d])
  {
    hide ChainTab;
    ChainTabKeys(p, rs);
    NodesCover(o.f.tab, o.w.path, o.w.node, d);
    BlocksFrame(o.f.tab, o.f.tab + ChainTab(p, rs), o.w.path[d]);
  }

  lemma Attached(g: Geo, o: Own, sect: Sectors)
    requires Inv(g, o, sect)
    ensures o.w.dh <= o.w.path.Keys && Nodes(o.f.tab, o.w.path, o.w.node)
  {
    hide Chains, Nodes, Cover, Area, Kinds, Entries, Parents, Names, SectorsOk, Contents, Ranked;
  }

  lemma NewFileNamed(g: Geo, o: Own, sect: Sectors, d: nat, e: Entry, p: seq<nat>, rs: seq<Run>, grown: set<nat>)
    requires Inv(g, o, sect) && o.fl == {} && NewChain(o, p, rs, grown) && d in o.w.dh && d in o.w.path
    requires e.anode == p[0] && !IsDir(e) && (d, Canon(e.name)) !in o.fs && FileSize(e) <= g.bs * |AllBlocks(rs)|
    ensures CanName(g, WithChain(o, p, rs, grown), sect, d, e, ReadData(sect, AllBlocks(rs), FileSize(e)))
  {
    hide Inv, ChainTab, OwnerMap, NewChain, Blocks, AllBlocks, Canon, FileSize, WithChain, ReadData;
    WithChainShape(g, o, sect, p, rs, grown);
    Attached(g, o, sect);
  }

  ghost function NewFileOwn(o: Own, sect: Sectors, d: nat, e: Entry, p: seq<nat>, rs: seq<Run>, grown: set<nat>,
                            pl: Placed): Own
    requires |p| == |rs| > 0 && d in o.w.path
  {
    PlaceOwn(WithChain(o, p, rs, grown), d, e, pl, ReadData(sect, AllBlocks(rs), FileSize(e)))
  }

  /** Creating a file: new chain, new entry, everything else as before. */
  lemma NewFileKeeps(g: Geo, o: Own, sect: Sectors, d: nat, e: Entry, p: seq<nat>, rs: seq<Run>, grown: set<nat>,
                     pl: Placed)
    requires Inv(g, o, sect) && o.fl == {} && NewChain(o, p, rs, grown) && d in o.w.dh && d in o.w.path
    requires e.anode == p[0] && !IsDir(e) && (d, Canon(e.name)) !in o.fs && FileSize(e) <= g.bs * |AllBlocks(rs)|
    requires PlacedOk(WithChain(o, p, rs, grown).f, Blocks(o.f.tab, o.w.path[d]), pl)
    ensures Inv(g, NewFileOwn(o, sect, d, e, p, rs, grown, pl), sect)
    ensures NewFileOwn(o, sect, d, e, p, rs, grown, pl).f == PlaceFlat(WithChain(o, p, rs, grown).f, o.w.path[d], e, pl)
    ensures NewFileOwn(o, sect, d, e, p, rs, grown, pl).sys == PlaceSys(o.sys + grown, pl)
    ensures NewFileOwn(o, sect, d, e, p, rs, grown, pl).fl == {}
    ensures NewFileOwn(o, sect, d, e, p, rs, grown, pl).fs
         == o.fs[(d, Canon(e.name)) := Describe(e, ReadData(sect, AllBlocks(rs), FileSize(e)))]
  {
    hide Inv, ChainTab, OwnerMap, NewChain, Blocks, AllBlocks, Canon, FileSize, WithChain, ReadData, CanName, PlaceOwn,
         PlacedOk, PlaceFlat, PlaceSys, Describe, IsDir;
    NewChainParts(o, p, rs, grown);
    NewFileNamed(g, o, sect, d, e, p, rs, grown);
    WithChainKeeps(g, o, sect, p, rs, grown);
    WithChainShape(g, o, sect, p, rs, grown);
    Attached(g, o, sect);
    var o1 := WithChain(o, p, rs, grown);
    assert o1.w.path[d] == o.w.path[d];
    assert AllNew(p, o.f.tab) by { NewChainNew(o, p, rs, grown); }
    WithChainBlocks(g, o, sect, p, rs, d);
    PlaceKeeps(g, o1, sect, d, e, ReadData(sect, AllBlocks(rs), FileSize(e)), pl);
  }

  lemma NewChainNew(o: Own, p: seq<nat>, rs: seq<Run>, grown: set<nat>)
    requires NewChain(o, p, rs, grown)
    ensures AllNew(p, o.f.tab)
  {
  }

  /** `bl` is what first fit picks for `count` blocks, and `rs` its maximal runs. */
  ghost predicate Picks(free: set<nat>, count: nat, bl: seq<nat>, rs: seq<Run>) {
    FirstFit(free, bl) && |bl| == count && Maximal(rs) && AllBlocks(rs) == bl
  }

  /** Number of runs the blocks first fit picks fall into: the anodes a new chain needs. */
  ghost function RunsFor(free: set<nat>, count: nat): nat {
    if exists bl, rs :: Picks(free, count, bl, rs) then |Picked(free, count).1| else 0
  }

  ghost function Picked(free: set<nat>, count: nat): (r: (seq<nat>, seq<Run>))
    requires exists bl, rs :: Picks(free, count, bl, rs)
    ensures Picks(free, count, r.0, r.1)
  {
    var bl, rs :| Picks(free, count, bl, rs);
    (bl, rs)
  }

  lemma SortedUnique(a: seq<nat>, b: seq<nat>)
    requires Sorted(a) && Sorted(b) && |a| == |b| && forall x :: x in a ==> x in b
    ensures a == b
  {
    forall i | 0 <= i < |a| ensures a[i] == b[i] { SortedAt(a, b, i); }
  }

  /** With equal lengths, position by position from the front and from the back. */
  lemma {:induction false} SortedAt(a: seq<nat>, b: seq<nat>, i: nat)
    requires Sorted(a) && Sorted(b) && |a| == |b| && i < |a| && forall x :: x in a ==> x in b
    ensures a[i] == b[i]
  {
    IndexAtLeast(a, b, i);
    IndexAtMost(a, b, i);
  }

  lemma {:induction false} IndexAtLeast(a: seq<nat>, b: seq<nat>, i: nat)
    requires Sorted(a) && Sorted(b) && i < |a| && i < |b| && forall x :: x in a ==> x in b
    ensures a[i] >= b[i]
  {
    assert a[i] in a;
    var k :| 0 <= k < |b| && b[k] == a[i];
    if i > 0 {
      assert a[i - 1] < a[i];
      IndexAtLeast(a, b, i - 1);
    }
  }

  lemma {:induction false} IndexAtMost(a: seq<nat>, b: seq<nat>, i: nat)
    requires Sorted(a) && Sorted(b) && |a| == |b| && i < |a| && forall x :: x in a ==> x in b
    ensures a[i] <= b[i]
    decreases |a| - i
  {
    assert a[i] in a;
    var k :| 0 <= k < |b| && b[k] == a[i];
    if i + 1 < |a| {
      assert a[i] < a[i + 1];
      IndexAtMost(a, b, i + 1);
    }
  }

  /** First fit has only one choice. */
  lemma FirstFitUnique(free: set<nat>, a: seq<nat>, b: seq<nat>)
    requires FirstFit(free, a) && FirstFit(free, b) && |a| == |b|
    ensures a == b
  {
    FirstFitElems(free, a);
    FirstFitElems(free, b);
    ElemsCard(a);
    ElemsCard(b);
    if Elems(a) <= Elems(b) {
      assert forall x :: x in a ==> x in Elems(a);
      SortedUnique(a, b);
    } else {
      var x :| x in Elems(a) && x !in Elems(b);
      forall y | y in b ensures y in a { assert y in free && y != x; }
      assert Elems(b) <= Elems(a);
      SortedUnique(b, a);
    }
  }

  lemma RunsForIs(free: set<nat>, count: nat, bl: seq<nat>, rs: seq<Run>)
    requires Picks(free, count, bl, rs)
    ensures RunsFor(free, count) == |rs|
  {
    hide Maximal, AllBlocks, FirstFit;
    var r := Picked(free, count);
    FirstFitUnique(free, bl, r.0);
    MaximalUnique(rs, r.1);
  }

  /** The blocks first fit would pick fall into few enough runs, with `extra` anodes to spare. */
  ghost predicate Affordable(free: set<nat>, count: nat, extra: nat, supply: nat) {
    RunsFor(free, count) + extra <= supply
  }

  lemma BuiltNewChain(g: Geo, o: Own, miss: nat, rs: seq<Run>, p: seq<nat>, tab': Tab, grown: set<nat>)
    requires GeoOk(g) && Built(g, CapSet(g, miss), miss, o.f.tab, rs, p, tab') && |rs| > 0
    requires |rs| <= Supply(g, CapSet(g, miss), miss, o.f.tab) && FirstFit(o.f.free, AllBlocks(rs))
    requires ANODE_EOF !in o.f.tab && grown <= o.f.resFree
    ensures NewChain(o, p, rs, grown) && tab' == o.f.tab + ChainTab(p, rs) && ANODE_EOF !in tab'
    ensures Supply(g, CapSet(g, miss), miss, tab') == Supply(g, CapSet(g, miss), miss, o.f.tab) - |rs|
  {
    CapIsBelow(g, miss);
    FirstFitElems(o.f.free, AllBlocks(rs));
    hide CapSet, Built, Supply, FirstFit, AllBlocks, CapBelow, ChainTab, GeoOk;
    GeoStride(g);
    BuiltFresh(g, CapSet(g, miss), miss, o.f.tab, rs, p, tab');
    BuiltPositive(g, CapSet(g, miss), miss, o.f.tab, rs, p, tab');
  }

  lemma GeoStride(g: Geo)
    requires GeoOk(g)
    ensures g.stride > ANODE_USERFIRST
  {
  }

  lemma FirstFitElems(free: set<nat>, bl: seq<nat>)
    requires FirstFit(free, bl)
    ensures NoDup(bl) && Elems(bl) <= free
  {
  }

  lemma AffordableRuns(free: set<nat>, count: nat, extra: nat, supply: nat, bl: seq<nat>, rs: seq<Run>)
    requires Affordable(free, count, extra, supply) && FirstFit(free, bl) && |bl| == count && Maximal(rs)
             && AllBlocks(rs) == bl
    ensures |rs| + extra <= supply && RunsFor(free, count) == |rs|
  {
    hide RunsFor, FirstFit, Maximal, AllBlocks;
    RunsForIs(free, count, bl, rs);
  }

  lemma OnlyAnodesParts(f: Flat, f': Flat, sys: set<nat>, sys': set<nat>)
    requires OnlyAnodes(f, f', sys, sys')
    ensures f'.dirs == f.dirs && f'.free == f.free && sys' == sys + (f.resFree - f'.resFree)
    ensures f'.resFree == f.resFree - (f.resFree - f'.resFree) && f.resFree - f'.resFree <= f.resFree
  {
  }

  lemma NothingWritten(bs: nat, sect: Sectors, data: Bytes, off: nat, free: set<nat>)
    ensures sect == WriteSome(bs, sect, [], data, off, 0) && Elems([]) <= free
  {
  }

  // ---------------------------------------------------------------- facts operations start from

  /** The chain of a directory: its path and its blocks. */
  lemma DirChainFacts(g: Geo, o: Own, sect: Sectors, d: nat)
    requires Inv(g, o, sect) && d in o.w.dh
    ensures d in o.w.path && IsPath(o.f.tab, d, o.w.path[d]) && ANODE_EOF !in o.f.tab
    ensures AllIn(Blocks(o.f.tab, o.w.path[d]), o.f.dirs) && Agree(o.f.tab, o.f.tab, o.w.path[d])
  {
    hide Nodes, Cover, Area, Kinds, Entries, Parents, Names, SectorsOk, Contents, Ranked, Blocks, AllIn;
    assert IsPath(o.f.tab, d, o.w.path[d]);
    DirBlocksIn(g, o.f.tab, o.f.dirs, o.w.path, o.w.node, o.w.dh, d);
  }

  lemma DirBlocksIn(g: Geo, tab: Tab, dirs: Dirs, path: map<nat, seq<nat>>, node: Link, dh: set<nat>, d: nat)
    requires Nodes(tab, path, node) && Kinds(g, tab, dirs, node, dh) && d in path && d in dh
    ensures AllIn(Blocks(tab, path[d]), dirs)
  {
    NodesCover(tab, path, node, d);
    forall i | 0 <= i < |Blocks(tab, path[d])| ensures Blocks(tab, path[d])[i] in dirs {
      BlocksMember(tab, path[d], Blocks(tab, path[d])[i]);
    }
  }

  /** The sectors just written hold the data. */
  lemma WrittenHolds(bs: nat, sect: Sectors, bl: seq<nat>, data: Bytes, off: nat)
    requires NoDup(bl)
    ensures Holds(bs, WriteSome(bs, sect, bl, data, off, |bl|), bl, data, off)
  {
    hide WriteSome, Pad;
    forall i | 0 <= i < |bl|
      ensures bl[i] in WriteSome(bs, sect, bl, data, off, |bl|)
              && WriteSome(bs, sect, bl, data, off, |bl|)[bl[i]] == Pad(data, off + i * bs, bs)
    {
      WriteSomeAt(bs, sect, bl, data, off, |bl|, i);
    }
  }

  lemma WrittenReads(bs: nat, sect: Sectors, bl: seq<nat>, data: Bytes, n: nat)
    requires NoDup(bl) && n <= |data| <= |bl| * bs
    ensures ReadData(WriteSome(bs, sect, bl, data, 0, |bl|), bl, n) == data[..n]
  {
    hide WriteSome, ReadData, Holds;
    WrittenHolds(bs, sect, bl, data, 0);
    ReadsBack(bs, WriteSome(bs, sect, bl, data, 0, |bl|), bl, data, n);
  }

  lemma SameRoom(rbs: nat, dirs: Dirs, bl: seq<nat>, e: Entry, e': Entry)
    requires e.entrySize == e'.entrySize
    ensures HasRoom(rbs, dirs, bl, e) <==> HasRoom(rbs, dirs, bl, e')
  {
    forall es ensures Fits(rbs, es, e) <==> Fits(rbs, es, e') { }
  }

  lemma NewChainDistinct(o: Own, p: seq<nat>, rs: seq<Run>, grown: set<nat>)
    requires NewChain(o, p, rs, grown)
    ensures |p| == |rs| > 0 && NoDup(AllBlocks(rs)) && p[0] !in o.f.tab && AllNew(p, o.f.tab)
  {
  }

  /** The object a newly written file denotes. */
  ghost function NewObj(h: nat, name: Name, data: Bytes): Obj {
    Obj(h, ST_FILE, name, 0, data)
  }

  lemma NewFileEntry(g: Geo, name: Name, h: nat, data: Bytes, stamp: Stamp, sect: Sectors, bl: seq<nat>)
    requires |name| <= NAME_MAX && NoDup(bl) && |data| <= |bl| * g.bs && |data| < U32 * U16
    ensures var e := BuildEntry(name, ST_FILE, h, |data|, 0, stamp);
    var sect' := WriteSome(g.bs, sect, bl, data, 0, |bl|);
            && e.anode == h && !IsDir(e) && e.name == name && FileSize(e) <= g.bs * |bl|
            && Describe(e, ReadData(sect', bl, FileSize(e))) == NewObj(h, name, data)
  {
    hide WriteSome, ReadData;
    BuildSize(name, ST_FILE, h, |data|, 0, stamp);
    var e := BuildEntry(name, ST_FILE, h, |data|, 0, stamp);
    assert name[..|name|] == name && data[..|data|] == data;
    assert |bl| * g.bs == g.bs * |bl|;
    WrittenReads(g.bs, sect, bl, data, FileSize(e));
  }

  /** Data that fits into free blocks is shorter than 2^48 bytes. */
  lemma NewDataShort(g: Geo, o: Own, sect: Sectors, bl: seq<nat>, n: nat)
    requires GeoOk(g) && NoDup(bl) && Elems(bl) <= o.f.free && n <= |bl| * g.bs && Inv(g, o, sect)
    ensures n < U32 * U16
  {
    hide Chains, Nodes, Cover, Kinds, Entries, Heads, Parents, Names, SectorsOk, Contents, Ranked;
    assert InDataAll(g, bl) by { forall i | 0 <= i < |bl| ensures InData(g, bl[i]) { assert bl[i] in Elems(bl); } }
    hide Area, GeoOk;
    assert |bl| * g.bs == g.bs * |bl|;
    ShortOfLimit(g, bl, n);
  }

  // ---------------------------------------------------------------- sizes

  lemma {:induction false} BoundedNoDup(bl: seq<nat>, n: nat)
    requires NoDup(bl) && forall i :: 0 <= i < |bl| ==> bl[i] < n
    ensures |bl| <= n
  {
    ElemsCard(bl);
    RangeCard(n);
    SubsetCard(Elems(bl), Range(0, n));
  }

  lemma {:induction false} RangeCard(n: nat)
    ensures |Range(0, n)| == n && forall x :: 0 <= x < n ==> x in Range(0, n)
  {
    if n > 0 {
      RangeCard(n - 1);
      assert Range(0, n) == Range(0, n - 1) + {n - 1};
    }
  }

  /** No file on a volume is 2^48 bytes long. */
  lemma ShortOfLimit(g: Geo, bl: seq<nat>, n: nat)
    requires GeoOk(g) && NoDup(bl) && InDataAll(g, bl) && n <= g.bs * |bl|
    ensures n < U32 * U16
  {
    BoundedNoDup(bl, g.dataEnd);
    Monotone(g.bs, |bl|, U32 - 1);
    assert g.bs * (U32 - 1) <= U16 * (U32 - 1);
  }

  lemma SameLength(name: Name, h: nat, n: nat, stamp: Stamp)
    ensures BuildEntry(name, ST_FILE, h, n, 0, stamp).entrySize == BuildEntry(name, ST_FILE, 0, n, 0, stamp).entrySize
  {
  }

  /** The entry naming a new chain: what it will denote. */
  ghost predicate NamesNew(g: Geo, o: Own, sect: Sectors, d: nat, e: Entry, p: seq<nat>, rs: seq<Run>, name: Name,
                           data: Bytes) {
    && |p| > 0 && e.anode == p[0] && !IsDir(e) && e.name == name && FileSize(e) <= g.bs * |AllBlocks(rs)|
    && Describe(e, ReadData(sect, AllBlocks(rs), FileSize(e))) == NewObj(p[0], name, data)
  }

  /** Everything needed to name the chain of a new file. */
  lemma FileReady(g: Geo, o: Own, sect0: Sectors, sect: Sectors, d: nat, name: Name, data: Bytes, stamp: Stamp,
                  p: seq<nat>, rs: seq<Run>, grown: set<nat>, f: Flat)
    requires d in o.w.path && NewChain(o, p, rs, grown) && |p| == |rs| && |data| <= |AllBlocks(rs)| * g.bs
             && |name| <= NAME_MAX && GeoOk(g)
    requires sect == WriteSome(g.bs, sect0, AllBlocks(rs), data, 0, |AllBlocks(rs)|)
    requires f == Flat(o.f.tab + ChainTab(p, rs), o.f.dirs, o.f.free - Elems(AllBlocks(rs)), o.f.resFree - grown)
    requires Inv(g, o, sect0) && Inv(g, o, sect)
    ensures |p| > 0 && p[0] !in o.f.tab && f == WithChain(o, p, rs, grown).f && Agree(o.f.tab, f.tab, o.w.path[d])
    ensures NamesNew(g, o, sect, d, BuildEntry(name, ST_FILE, p[0], |data|, 0, stamp), p, rs, name, data)
    ensures HasRoom(g.rbs, o.f.dirs, Blocks(o.f.tab, o.w.path[d]),
                    BuildEntry(name, ST_FILE, p[0], |data|, 0, stamp)) <==>
            HasRoom(g.rbs, o.f.dirs, Blocks(o.f.tab, o.w.path[d]), BuildEntry(name, ST_FILE, 0, |data|, 0, stamp))
  {
    hide BuildEntry, HasRoom, Blocks, Canon, NewObj, WriteSome, Elems, NewChain, ChainTab, AllBlocks, Inv, Describe,
         FileSize, AllNew, ReadData,
         WithChain, Agree, NoDup, IsDir, Nodes, GeoOk;
    NewChainDistinct(o, p, rs, grown);
    assert Elems(AllBlocks(rs)) <= o.f.free by { NewChainFree(o, p, rs, grown); }
    NewDataShort(g, o, sect0, AllBlocks(rs), |data|);
    NewFileEntry(g, name, p[0], data, stamp, sect0, AllBlocks(rs));
    WithChainShape(g, o, sect, p, rs, grown);
    Attached(g, o, sect);
    WithChainBlocks(g, o, sect, p, rs, d);
    SameLength(name, p[0], |data|, stamp);
    SameRoom(g.rbs, o.f.dirs, Blocks(o.f.tab, o.w.path[d]), BuildEntry(name, ST_FILE, p[0], |data|, 0, stamp),
             BuildEntry(name, ST_FILE, 0, |data|, 0, stamp));
  }

  lemma NewChainFree(o: Own, p: seq<nat>, rs: seq<Run>, grown: set<nat>)
    requires NewChain(o, p, rs, grown)
    ensures Elems(AllBlocks(rs)) <= o.f.free
  {
  }

  // ---------------------------------------------------------------- what creating needs

  /** A number is left for one more anode. */
  ghost predicate NumberLeft(g: Geo, miss: nat, f: Flat) {
    g.stride > 0 && Supply(g, CapSet(g, miss), miss, f.tab) > 0
  }

  /** The directory's own anodes are as committed, and a fresh anode number is left should one be needed. */
  ghost predicate Placeable(g: Geo, miss: nat, tab: Tab, f: Flat, p: seq<nat>, e: Entry) {
    Agree(tab, f.tab, p) && ANODE_EOF !in f.tab && (HasRoom(g.rbs, f.dirs, Blocks(tab, p), e) || NumberLeft(g, miss, f))
  }

  /** There are blocks, and anodes for the runs they fall into. */
  ghost predicate CanStore(g: Geo, miss: nat, f: Flat, count: nat) {
    count <= |f.free| && RoomFor(g, miss, f, RunsFor(f.free, count), 0)
  }

  /** Some block of directory `d` has room for the entry. */
  ghost predicate RoomIn(rbs: nat, o: Own, d: nat, e: Entry) {
    d in o.w.path && HasRoom(rbs, o.f.dirs, Blocks(o.f.tab, o.w.path[d]), e)
  }

  /** Directory blocks and anodes needed for the entry itself. */
  ghost function DirExtra(rbs: nat, o: Own, d: nat, e: Entry): nat {
    if RoomIn(rbs, o, d, e) then 0 else 1
  }

  /** Anode numbers left for this transaction. */
  ghost function SlotsLeft(g: Geo, miss: nat, f: Flat): nat {
    if g.stride > 0 then Supply(g, CapSet(g, miss), miss, f.tab) else 0
  }

  ghost function FileExtra(g: Geo, o: Own, d: nat, name: Name, size: nat, stamp: Stamp): nat {
    DirExtra(g.rbs, o, d, BuildEntry(name, ST_FILE, 0, size, 0, stamp))
  }

  /** Runs a new file of this size falls into. */
  ghost function RunsOf(g: Geo, o: Own, size: nat): nat {
    if g.bs > 0 then RunsFor(o.f.free, BlocksFor(g.bs, size)) else 0
  }

  /** Free blocks, vacant slots and reserved blocks suffice for a new file. */
  ghost predicate CanCreate(g: Geo, miss: nat, o: Own, d: nat, name: Name, size: nat, stamp: Stamp) {
    var extra := FileExtra(g, o, d, name, size, stamp);
    g.bs > 0 && BlocksFor(g.bs, size) <= |o.f.free| && RoomFor(g, miss, o.f, RunsOf(g, o, size) + extra, extra)
  }

  /** No more anodes are needed than there are different numbers for. */
  ghost predicate Numbered(g: Geo, miss: nat, o: Own, d: nat, name: Name, size: nat, stamp: Stamp) {
    RunsOf(g, o, size) + FileExtra(g, o, d, name, size, stamp) <= SlotsLeft(g, miss, o.f)
  }

  ghost predicate CleanCreate(g: Geo, miss: nat, o: Own, d: nat, name: Name, size: nat, stamp: Stamp) {
    (d, Canon(name)) !in o.fs && Numbered(g, miss, o, d, name, size, stamp)
  }

  /** The data alone needs two anodes more than there are vacant slots. */
  ghost predicate LoopingCreate(g: Geo, miss: nat, o: Own, d: nat, name: Name, size: nat, stamp: Stamp) {
    RunsOf(g, o, size) >= Left(g, miss, o.f.tab) + 2 && FileExtra(g, o, d, name, size, stamp) == 0
  }

  /** The name is in use already. */
  ghost predicate DoubleCreate(g: Geo, miss: nat, o: Own, d: nat, name: Name, size: nat, stamp: Stamp) {
    (d, Canon(name)) in o.fs && (FileExtra(g, o, d, name, size, stamp) == 0
                                 || Numbered(g, miss, o, d, name, size, stamp))
  }

  /** The entry finds room in a block of the directory, or in a new one under a fresh anode number. */
  ghost predicate Fresh(g: Geo, miss: nat, o: Own, f: Flat, d: nat, e: Entry) {
    RoomIn(g.rbs, o, d, e) || (d in o.w.path && Placeable(g, miss, o.f.tab, f, o.w.path[d], e))
  }

  /** Everything for naming the chain `p` as a new file, the metadata being `f` and `sys`. */
  ghost predicate Nameable(g: Geo, miss: nat, o: Own, sect: Sectors, f: Flat, sys: set<nat>, d: nat, e: Entry,
                           p: seq<nat>, rs: seq<Run>,
                           grown: set<nat>, name: Name, data: Bytes) {
    && |p| == |rs| > 0 && d in o.w.path && f == WithChain(o, p, rs, grown).f && sys == o.sys + grown
    && Placeable(g, miss, o.f.tab, f, o.w.path[d], e) && NamesNew(g, o, sect, d, e, p, rs, name, data)
    && (d, Canon(name)) !in o.fs && p[0] !in o.f.tab && NewChain(o, p, rs, grown)
  }

  /** Directory `d` has a chain of directory blocks. */
  ghost predicate DirChain(o: Own, d: nat) {
    && d in o.w.dh && d in o.w.path && IsPath(o.f.tab, d, o.w.path[d]) && ANODE_EOF !in o.f.tab
    && AllIn(Blocks(o.f.tab, o.w.path[d]), o.f.dirs)
  }

  /** The names with a new file headed by the first of `p`. */
  ghost function WithFile(fs: FS, d: nat, name: Name, p: seq<nat>, data: Bytes): FS {
    if |p| > 0 then fs[(d, Canon(name)) := NewObj(p[0], name, data)] else fs
  }

  lemma CleanFits(g: Geo, miss: nat, o: Own, d: nat, name: Name, size: nat, stamp: Stamp)
    requires Numbered(g, miss, o, d, name, size, stamp) && g.bs > 0 && g.stride > 0
    ensures Affordable(o.f.free, BlocksFor(g.bs, size), FileExtra(g, o, d, name, size, stamp),
                       Supply(g, CapSet(g, miss), miss, o.f.tab))
  {
    hide BlocksFor, RunsFor, Supply, CapSet, Canon, FileExtra;
  }

  /** What a new file needs, before and after its chain is built. */
  lemma CreateNeeds(g: Geo, miss: nat, o: Own, d: nat, name: Name, size: nat, stamp: Stamp)
    requires g.bs > 0
    ensures var n, extra, runs := BlocksFor(g.bs, size), FileExtra(g, o, d, name, size, stamp), RunsOf(g, o, size);
            && runs == RunsFor(o.f.free, n)
            && (CanCreate(g, miss, o, d, name, size, stamp) <==>
                  && CanStore(g, miss, o.f, n)
                  && Enough(g, miss, Over(Left(g, miss, o.f.tab), runs),
                            Over(|o.f.resFree|, Over(runs, Left(g, miss, o.f.tab))), extra, extra))
  {
    hide Left, Enough, RunsFor, BlocksFor, Over, FileExtra;
    var extra, runs := FileExtra(g, o, d, name, size, stamp), RunsOf(g, o, size);
    EnoughSplit(g, miss, Left(g, miss, o.f.tab), |o.f.resFree|, runs, 0, extra, extra);
    assert Over(runs, Left(g, miss, o.f.tab)) + 0 == Over(runs, Left(g, miss, o.f.tab));
  }

  lemma SameEntryRoom(g: Geo, o: Own, d: nat, name: Name, size: nat, stamp: Stamp, h: nat)
    requires |name| <= NAME_MAX
    ensures RoomIn(g.rbs, o, d, BuildEntry(name, ST_FILE, h, size, 0, stamp)) <==>
              FileExtra(g, o, d, name, size, stamp) == 0
    ensures BuildEntry(name, ST_FILE, h, size, 0, stamp).name == name
            && BuildEntry(name, ST_FILE, h, size, 0, stamp).anode == h
  {
    hide HasRoom, Blocks;
    assert name[..|name|] == name;
    SameLength(name, h, size, stamp);
    if d in o.w.path {
      SameRoom(g.rbs, o.f.dirs, Blocks(o.f.tab, o.w.path[d]), BuildEntry(name, ST_FILE, h, size, 0, stamp),
               BuildEntry(name, ST_FILE, 0, size, 0, stamp));
    }
  }

  /** After the chain is built: whether the entry can be added, and what a looping chain looks like. */
  lemma CreateLeft(g: Geo, miss: nat, o: Own, f: Flat, d: nat, name: Name, size: nat, stamp: Stamp, h: nat)
    requires g.bs > 0 && CanStore(g, miss, o.f, BlocksFor(g.bs, size))
    requires Left(g, miss, f.tab) == Over(Left(g, miss, o.f.tab), RunsOf(g, o, size))
    requires |f.resFree| == |o.f.resFree| - Over(RunsOf(g, o, size), Left(g, miss, o.f.tab))
    ensures CanCreate(g, miss, o, d, name, size, stamp) <==> FileExtra(g, o, d, name, size, stamp) == 0
                                                             || RoomFor(g, miss, f, 1, 1)
    ensures LoopingCreate(g, miss, o, d, name, size, stamp) ==> RunsOf(g, o, size) >= Left(g, miss, o.f.tab) + 2
                                                                && FileExtra(g, o, d, name, size, stamp) == 0
    ensures DoubleCreate(g, miss, o, d, name, size, stamp) ==>
              (d, Canon(name)) in o.fs && (FileExtra(g, o, d, name, size, stamp) == 0
                                           || Numbered(g, miss, o, d, name, size, stamp))
  {
    hide Left, RunsFor, BlocksFor, CanCreate, CanStore, RunsOf, Registrable, Canon, RoomIn, SlotsLeft;
    CreateNeeds(g, miss, o, d, name, size, stamp);
  }

  lemma CreateReady(g: Geo, miss: nat, o: Own, sect0: Sectors, sect: Sectors, d: nat, name: Name, data: Bytes,
                    stamp: Stamp,
                    p: seq<nat>, rs: seq<Run>, grown: set<nat>, f: Flat)
    requires d in o.w.path && g.bs > 0 && g.stride > 0 && |name| <= NAME_MAX && GeoOk(g)
             && Numbered(g, miss, o, d, name, |data|, stamp)
    requires |p| == |rs| && NewChain(o, p, rs, grown) && |AllBlocks(rs)| == BlocksFor(g.bs, |data|)
    requires sect == WriteSome(g.bs, sect0, AllBlocks(rs), data, 0, |AllBlocks(rs)|)
    requires f == Flat(o.f.tab + ChainTab(p, rs), o.f.dirs, o.f.free - Elems(AllBlocks(rs)), o.f.resFree - grown)
             && ANODE_EOF !in f.tab
    requires Supply(g, CapSet(g, miss), miss, f.tab) >= FileExtra(g, o, d, name, |data|, stamp)
    requires Inv(g, o, sect0) && Inv(g, o, sect)
    ensures |p| > 0 && p[0] !in o.f.tab
    ensures var e := BuildEntry(name, ST_FILE, p[0], |data|, 0, stamp);
            && Fresh(g, miss, o, f, d, e)
            && ((d, Canon(name)) !in o.fs ==>
                  Nameable(g, miss, o, sect, f, o.sys + grown, d, e, p, rs, grown, name, data))
  {
    hide BuildEntry, HasRoom, Blocks, Canon, WriteSome, Elems, NewChain, ChainTab, AllBlocks, Inv, WithChain, Agree,
         GeoOk, Supply, CapSet, BlocksFor, RunsOf,
         NamesNew;
    NewChainParts(o, p, rs, grown);
    FileReady(g, o, sect0, sect, d, name, data, stamp, p, rs, grown, f);
    SameEntryRoom(g, o, d, name, |data|, stamp, p[0]);
  }

  // ---------------------------------------------------------------- looking names up

  /** An entry found in a directory is the one its name denotes. */
  lemma FoundEntry(g: Geo, o: Own, sect: Sectors, d: nat, b: nat, i: nat, name: Name)
    requires Inv(g, o, sect) && d in o.w.dh && d in o.w.path
             && Named(o.f.dirs, Blocks(o.f.tab, o.w.path[d]), b, i, name)
    ensures var h := o.f.dirs[b][i].anode;
            && h in o.w.ent && h in o.w.par && h in o.w.path && h in o.w.home && o.w.ent[h] == o.f.dirs[b][i]
            && At(o.f.dirs, b, i, h) && o.w.home[h] == b && o.w.par[h] == d && h != ANODE_ROOTDIR && h !in o.fl
            && Key(o.w.par, o.w.ent, h) == (d, Canon(name)) && (h in o.w.dh <==> IsDir(o.w.ent[h]))
            && (d, Canon(name)) in o.fs && o.fs[(d, Canon(name))].anode == h
  {
    hide Chains, Nodes, Cover, Area, Kinds, Entries, Heads, Parents, Names, SectorsOk, Contents, Ranked, Canon, Blocks,
         NameEqCi, BlockOf;
    var h := o.f.dirs[b][i].anode;
    EntryAt(o.f.dirs, o.w.ent, o.w.home, b, i);
    BlockOfDir(g, o, d, b);
    ParentIs(o, d, b, h);
    HeadFacts(o.w.path, o.w.ent, o.w.dh, o.fl, h);
    NameEqIsCanon(o.f.dirs[b][i].name, name);
    NamesAt(o.fs, o.w.par, o.w.ent, o.w.data, h);
  }

  lemma EntryAt(dirs: Dirs, ent: map<nat, Entry>, home: Link, b: nat, i: nat)
    requires Entries(dirs, ent, home) && b in dirs && i < |dirs[b]|
    ensures var h := dirs[b][i].anode; h in ent && h in home && ent[h] == dirs[b][i] && home[h] == b
  {
    assert dirs[b][i] in dirs[b];
  }

  lemma ParentIs(o: Own, d: nat, b: nat, h: nat)
    requires Parents(o.w.node, o.w.owner, o.w.home, o.w.par, o.w.dh) && BlockOf(o, b, d) && h in o.w.home
             && o.w.home[h] == b
    ensures h in o.w.par && o.w.par[h] == d
  {
    assert h in o.w.par;
    var x := o.w.par[h];
  }

  lemma HeadFacts(path: map<nat, seq<nat>>, ent: map<nat, Entry>, dh: set<nat>, fl: set<nat>, h: nat)
    requires Heads(path, ent, dh, fl) && h in ent
    ensures h in path && h != ANODE_ROOTDIR && h !in fl && (h in dh <==> IsDir(ent[h]))
  {
  }

  lemma NamesAt(fs: FS, par: Link, ent: map<nat, Entry>, data: map<nat, Bytes>, h: nat)
    requires Names(fs, par, ent, data) && h in ent
    ensures h in par && h in data && Key(par, ent, h) in fs && fs[Key(par, ent, h)] == Describe(ent[h], data[h])
            && ent[h].anode == h
  {
    hide Canon;
    var k := Key(par, ent, h);
  }

  /** Where the entry of a name is. */
  lemma NameIsSomewhere(g: Geo, o: Own, sect: Sectors, d: nat, name: Name)
    requires Inv(g, o, sect) && d in o.w.path && (d, Canon(name)) in o.fs
    ensures !NoneNamed(o.f.dirs, Blocks(o.f.tab, o.w.path[d]), name)
  {
    hide Chains, Nodes, Cover, Area, Kinds, Heads, SectorsOk, Contents, Ranked, Canon, Blocks, NameEqCi;
    var h := o.fs[(d, Canon(name))].anode;
    assert Key(o.w.par, o.w.ent, h) == (d, Canon(name));
    hide Names;
    var b := o.w.home[h];
    var i :| 0 <= i < |o.f.dirs[b]| && o.f.dirs[b][i] == o.w.ent[h];
    assert o.w.par[h] == d;
    HomeInChain(g, o, d, b);
    NameEqIsCanon(o.w.ent[h].name, name);
    assert NameEqCi(o.f.dirs[b][i].name, name);
  }

  lemma HomeInChain(g: Geo, o: Own, d: nat, b: nat)
    requires Nodes(o.f.tab, o.w.path, o.w.node) && Cover(o.f.tab, o.w.owner) && d in o.w.path
    requires b in o.w.owner && o.w.owner[b] in o.w.node && o.w.node[o.w.owner[b]] == d
    ensures b in Blocks(o.f.tab, o.w.path[d])
  {
    NodesCover(o.f.tab, o.w.path, o.w.node, d);
    BlocksMember(o.f.tab, o.w.path[d], b);
    assert InExt(o.f.tab[o.w.owner[b]], b);
    var i :| 0 <= i < |o.w.path[d]| && o.w.path[d][i] == o.w.owner[b];
  }

  /** A name is in use exactly when some block of its directory has it. */
  lemma NotFoundIff(g: Geo, o: Own, sect: Sectors, d: nat, name: Name)
    requires Inv(g, o, sect) && d in o.w.dh && d in o.w.path
    ensures NoneNamed(o.f.dirs, Blocks(o.f.tab, o.w.path[d]), name) <==> (d, Canon(name)) !in o.fs
  {
    hide Inv, Canon, Blocks, NameEqCi;
    if !NoneNamed(o.f.dirs, Blocks(o.f.tab, o.w.path[d]), name) {
      var b, j :| b in Blocks(o.f.tab, o.w.path[d]) && b in o.f.dirs && 0 <= j < |o.f.dirs[b]|
      && NameEqCi(o.f.dirs[b][j].name, name);
      FoundEntry(g, o, sect, d, b, j, name);
    }
    if (d, Canon(name)) in o.fs { NameIsSomewhere(g, o, sect, d, name); }
  }

  // ---------------------------------------------------------------- listing

  /** All entries of a list of directory blocks, in order. */
  function Listing(dirs: Dirs, bl: seq<nat>): seq<Entry> {
    if |bl| == 0 then [] else Listing(dirs, bl[..|bl| - 1]) + (if bl[|bl| - 1] in dirs then dirs[bl[|bl| - 1]] else [])
  }

  lemma {:induction false} ListingMember(dirs: Dirs, bl: seq<nat>, e: Entry)
    ensures e in Listing(dirs, bl) <==> exists i :: 0 <= i < |bl| && bl[i] in dirs && e in dirs[bl[i]]
  {
    if |bl| > 0 {
      var n := |bl| - 1;
      ListingMember(dirs, bl[..n], e);
      if i :| 0 <= i < n && bl[..n][i] in dirs && e in dirs[bl[..n][i]] { assert bl[i] in dirs && e in dirs[bl[i]]; }
      if i :| 0 <= i < |bl| && bl[i] in dirs && e in dirs[bl[i]] { if i < n { assert bl[..n][i] == bl[i]; } }
    }
  }

  /** An entry of a directory's listing sits in one of its blocks. */
  lemma ListedAt(dirs: Dirs, bl: seq<nat>, e: Entry, name: Name) returns (b: nat, i: nat)
    requires e in Listing(dirs, bl) && NameEqCi(e.name, name)
    ensures Named(dirs, bl, b, i, name) && dirs[b][i] == e
  {
    hide NameEqCi;
    ListingMember(dirs, bl, e);
    var k :| 0 <= k < |bl| && bl[k] in dirs && e in dirs[bl[k]];
    b := bl[k];
    i :| 0 <= i < |dirs[b]| && dirs[b][i] == e;
  }

  lemma UnlistedNone(dirs: Dirs, bl: seq<nat>, name: Name)
    requires forall i :: 0 <= i < |Listing(dirs, bl)| ==> !NameEqCi(Listing(dirs, bl)[i].name, name)
    ensures NoneNamed(dirs, bl, name)
  {
    hide NameEqCi, Listing;
    forall b, j | b in bl && b in dirs && 0 <= j < |dirs[b]| ensures !NameEqCi(dirs[b][j].name, name) {
      ListingMember(dirs, bl, dirs[b][j]);
      var k :| 0 <= k < |bl| && bl[k] == b;
      assert bl[k] in dirs && dirs[b][j] in dirs[bl[k]];
    }
  }

  lemma KidListed(g: Geo, o: Own, sect: Sectors, h: nat, k: nat)
    requires Inv(g, o, sect) && h in o.w.path && k in o.w.par && k in o.w.ent && o.w.par[k] == h
    ensures o.w.ent[k] in Listing(o.f.dirs, Blocks(o.f.tab, o.w.path[h]))
  {
    hide Chains, Nodes, Cover, Area, Kinds, Heads, SectorsOk, Contents, Ranked, Blocks, Listing, Names;
    var b := o.w.home[k];
    var bl := Blocks(o.f.tab, o.w.path[h]);
    HomeInChain(g, o, h, b);
    ListingMember(o.f.dirs, bl, o.w.ent[k]);
    var i :| 0 <= i < |bl| && bl[i] == b;
    assert o.w.ent[k] in o.f.dirs[bl[i]];
  }

  /** A directory that lists as empty names nothing. */
  lemma EmptyHasNoKids(g: Geo, o: Own, sect: Sectors, h: nat)
    requires Inv(g, o, sect) && h in o.w.path && Listing(o.f.dirs, Blocks(o.f.tab, o.w.path[h])) == []
    ensures NoKids(o.w.par, h)
  {
    hide Chains, Nodes, Cover, Area, Kinds, Heads, SectorsOk, Contents, Ranked, Blocks, Listing, Entries, Parents;
    assert o.w.par.Keys == o.w.ent.Keys;
    hide Names;
    forall k | k in o.w.par ensures o.w.par[k] != h {
      if o.w.par[k] == h { KidListed(g, o, sect, h, k); }
    }
  }

  // ---------------------------------------------------------------- deleting

  /** Everything about a chain that freeing it needs. */
  lemma ChainReleasable(g: Geo, o: Own, sect: Sectors, h: nat)
    requires Inv(g, o, sect) && h in o.w.path && h !in o.w.dh
    ensures ReleasablePath(g, o.f.tab, o.f.free, o.w.path[h])
    ensures PathCover(o.f.tab, o.w.path[h], 0) == OwnedBy(o.w.owner, o.w.path[h])
  {
    hide Chains, Entries, Heads, Parents, Names, SectorsOk, Contents, Ranked, Nodes, Kinds, Cover, Area;
    assert IsPath(o.f.tab, h, o.w.path[h]) by { ChainsAt(o.f.tab, o.w.path, h); }
    ReleasableFrom(g, o, h);
    CoverIsOwned(o.f.tab, o.w.owner, o.w.path[h], 0);
    assert o.w.path[h][0..] == o.w.path[h];
  }

  lemma ChainsAt(tab: Tab, path: map<nat, seq<nat>>, h: nat)
    requires Chains(tab, path) && h in path
    ensures IsPath(tab, h, path[h]) && ANODE_EOF !in tab
  {
  }

  lemma ReleasableFrom(g: Geo, o: Own, h: nat)
    requires Nodes(o.f.tab, o.w.path, o.w.node) && Cover(o.f.tab, o.w.owner)
             && Kinds(g, o.f.tab, o.f.dirs, o.w.node, o.w.dh)
    requires Area(g, o.f, o.w.owner, o.sys) && h in o.w.path && h !in o.w.dh && IsPath(o.f.tab, h, o.w.path[h])
    ensures ReleasablePath(g, o.f.tab, o.f.free, o.w.path[h])
  {
    NodesCover(o.f.tab, o.w.path, o.w.node, h);
    var p := o.w.path[h];
    hide Nodes, IsPath;
    forall i, x | 0 <= i < |p| && p[i] in o.f.tab && InExt(o.f.tab[p[i]], x) ensures InData(g, x) && x !in o.f.free { }
    PathNoDup(o.f.tab, h, p);
    forall i, j, x | 0 <= i < j < |p| && p[i] in o.f.tab && p[j] in o.f.tab && InExt(o.f.tab[p[i]], x)
      ensures !InExt(o.f.tab[p[j]], x) {
      assert o.w.owner[x] == p[i] && p[i] != p[j];
    }
  }

  lemma PathNoDup(tab: Tab, h: nat, p: seq<nat>)
    requires IsPath(tab, h, p)
    ensures NoDup(p) && forall i :: 0 <= i < |p| ==> p[i] in tab
  {
  }

  /** The blocks of a stretch of anodes are those it owns. */
  lemma CoverIsOwned(tab: Tab, owner: Link, p: seq<nat>, k: nat)
    requires Cover(tab, owner) && k <= |p| && forall i :: 0 <= i < |p| ==> p[i] in tab
    ensures PathCover(tab, p, k) == OwnedBy(owner, p[k..])
  {
    var q := p[k..];
    var c := ChainOf(tab, q);
    hide CoverSet;
    forall x: nat ensures x in CoverSet(c) <==> x in OwnedBy(owner, q) {
      CoverMember(c, x);
      if x in CoverSet(c) {
        var i :| 0 <= i < |c| && InExt(c[i].slot, x);
        assert c[i].slot == tab[q[i]];
      }
      if x in OwnedBy(owner, q) {
        var i :| 0 <= i < |q| && q[i] == owner[x];
        assert InExt(c[i].slot, x);
      }
    }
  }

  /** The outcome of deleting the file headed by `h`, whose entry is entry `i` of block `b`. */
  ghost function DeleteFileOwn(o: Own, b: nat, i: nat, h: nat): Own
    requires At(o.f.dirs, b, i, h) && h in o.w.par && h in o.w.ent && h in o.w.path
  {
    DropFile(Leave(o, b, i, h), h)
  }

  lemma DeleteFileKeeps(g: Geo, o: Own, sect: Sectors, b: nat, i: nat, h: nat)
    requires Inv(g, o, sect) && o.fl == {} && At(o.f.dirs, b, i, h) && h in o.w.par && h in o.w.ent && h in o.w.path
             && h !in o.w.dh
    ensures Inv(g, DeleteFileOwn(o, b, i, h), sect)
    ensures var o' := DeleteFileOwn(o, b, i, h);
            && o'.w.ent == o.w.ent - {h} && o'.fl == {} && o'.sys == o.sys
            && o'.fs == o.fs - {Key(o.w.par, o.w.ent, h)}
    ensures DeleteFileOwn(o, b, i, h).f
         == Flat(o.f.tab - Elems(o.w.path[h]), o.f.dirs[b := Without(o.f.dirs[b], i)],
                 o.f.free + OwnedBy(o.w.owner, o.w.path[h]), o.f.resFree)
  {
    hide Inv, Key, Without, Elems, OwnedBy;
    LeaveKeeps(g, o, sect, b, i, h);
    DropFileKeeps(g, Leave(o, b, i, h), sect, h);
  }

  ghost function DeleteDirOwn(o: Own, b: nat, i: nat, h: nat): Own
    requires At(o.f.dirs, b, i, h) && h in o.w.par && h in o.w.ent && h in o.w.path
  {
    DropDir(Leave(o, b, i, h), h)
  }

  lemma LeaveNoKids(par: Link, h: nat, k: nat)
    requires NoKids(par, h)
    ensures NoKids(par - {k}, h)
  {
    forall c | c in par - {k} ensures (par - {k})[c] != h { assert par[c] != h; }
  }

  lemma DeleteDirKeeps(g: Geo, o: Own, sect: Sectors, b: nat, i: nat, h: nat)
    requires Inv(g, o, sect) && o.fl == {} && At(o.f.dirs, b, i, h) && h in o.w.par && h in o.w.ent && h in o.w.path
             && h in o.w.dh
    requires NoKids(o.w.par, h)
    ensures Inv(g, DeleteDirOwn(o, b, i, h), sect)
    ensures var o' := DeleteDirOwn(o, b, i, h);
            && o'.w.ent == o.w.ent - {h} && o'.fl == {} && o'.sys == o.sys
            && o'.fs == o.fs - {Key(o.w.par, o.w.ent, h)}
    ensures DeleteDirOwn(o, b, i, h).f
         == Flat(o.f.tab - Elems(o.w.path[h]), o.f.dirs[b := Without(o.f.dirs[b], i)] - OwnedBy(o.w.owner, o.w.path[h]),
                 o.f.free, o.f.resFree + OwnedBy(o.w.owner, o.w.path[h]))
  {
    hide Inv, Key, Without, Elems, OwnedBy, NoKids;
    LeaveKeeps(g, o, sect, b, i, h);
    LeaveNoKids(o.w.par, h, h);
    DropDirKeeps(g, Leave(o, b, i, h), sect, h);
  }

  /** The entry of `h` in block `b`. */
  ghost function SpotOf(dirs: Dirs, b: nat, h: nat): nat {
    if exists i: nat :: At(dirs, b, i, h) then var i: nat :| At(dirs, b, i, h); i else 0
  }

  /** The volume without what the name `k` denotes. */
  ghost function DeletedOwn(o: Own, k: (nat, Name)): Own {
    if k !in o.fs then o else
    var h := o.fs[k].anode;
    if !(h in o.w.par && h in o.w.ent && h in o.w.path && h in o.w.home) then o else
    var b := o.w.home[h];
    var i := SpotOf(o.f.dirs, b, h);
    if !At(o.f.dirs, b, i, h) then o else if h in o.w.dh then DeleteDirOwn(o, b, i, h) else DeleteFileOwn(o, b, i, h)
  }

  lemma SpotIs(g: Geo, o: Own, sect: Sectors, b: nat, i: nat, h: nat)
    requires At(o.f.dirs, b, i, h) && Inv(g, o, sect)
    ensures SpotOf(o.f.dirs, b, h) == i
  {
    hide Chains, Nodes, Cover, Area, Kinds, Heads, Parents, Names, SectorsOk, Contents, Ranked;
    assert Distinct(o.f.dirs[b]);
  }

  lemma DeletedIs(g: Geo, o: Own, sect: Sectors, k: (nat, Name), b: nat, i: nat, h: nat)
    requires k in o.fs && o.fs[k].anode == h && At(o.f.dirs, b, i, h) && h in o.w.par && h in o.w.ent && h in o.w.path
    requires h in o.w.home && o.w.home[h] == b && Inv(g, o, sect)
    ensures DeletedOwn(o, k) == if h in o.w.dh then DeleteDirOwn(o, b, i, h) else DeleteFileOwn(o, b, i, h)
  {
    hide Inv, DeleteDirOwn, DeleteFileOwn;
    SpotIs(g, o, sect, b, i, h);
  }

  lemma {:induction false} BlocksNoDup(tab: Tab, owner: Link, p: seq<nat>)
    requires Cover(tab, owner) && NoDup(p) && forall i :: 0 <= i < |p| ==> p[i] in tab
    ensures NoDup(Blocks(tab, p))
  {
    if |p| > 0 {
      var a, q := Expand(tab[p[0]]), p[1..];
      TailNoDup(p);
      BlocksNoDup(tab, owner, q);
      var bl := Blocks(tab, q);
      forall i, j | 0 <= i < |a| && 0 <= j < |bl| ensures a[i] != bl[j] {
        BlocksMember(tab, q, bl[j]);
        var k :| 0 <= k < |q| && InExt(tab[q[k]], bl[j]);
        assert InExt(tab[p[0]], a[i]) && q[k] in q && q[k] == p[k + 1];
        assert owner[a[i]] == p[0] && owner[bl[j]] == q[k];
      }
      AppendNoDup(a, bl);
    }
  }

  lemma AppendNoDup(a: seq<nat>, b: seq<nat>)
    requires NoDup(a) && NoDup(b) && forall i, j :: 0 <= i < |a| && 0 <= j < |b| ==> a[i] != b[j]
    ensures NoDup(a + b)
  {
  }

  lemma BlocksAreOwned(tab: Tab, owner: Link, p: seq<nat>)
    requires Cover(tab, owner) && forall i :: 0 <= i < |p| ==> p[i] in tab
    ensures Elems(Blocks(tab, p)) == OwnedBy(owner, p)
  {
    forall x: nat ensures x in Elems(Blocks(tab, p)) <==> x in OwnedBy(owner, p) {
      BlocksMember(tab, p, x);
      if x in OwnedBy(owner, p) {
        var i :| 0 <= i < |p| && p[i] == owner[x];
        assert InExt(tab[p[i]], x);
      }
    }
  }

  /** Facts for giving back the blocks of directory `h` while editing its parent `d`. */
  lemma DirReleasable(g: Geo, o: Own, sect: Sectors, h: nat, d: nat)
    requires Inv(g, o, sect) && h in o.w.dh && h in o.w.path && d in o.w.dh && d in o.w.path && d != h
    ensures NoDup(Blocks(o.f.tab, o.w.path[h]))
            && Elems(Blocks(o.f.tab, o.w.path[h])) == OwnedBy(o.w.owner, o.w.path[h])
    ensures AllIn(Blocks(o.f.tab, o.w.path[d]), o.f.dirs - Elems(Blocks(o.f.tab, o.w.path[h])))
  {
    hide Chains, Nodes, Cover, Area, Kinds, Entries, Heads, Parents, Names, SectorsOk, Contents, Ranked, Blocks,
         OwnedBy;
    ChainsAt(o.f.tab, o.w.path, h);
    PathNoDup(o.f.tab, h, o.w.path[h]);
    hide IsPath;
    BlocksNoDup(o.f.tab, o.w.owner, o.w.path[h]);
    BlocksAreOwned(o.f.tab, o.w.owner, o.w.path[h]);
    DirBlocksIn(g, o.f.tab, o.f.dirs, o.w.path, o.w.node, o.w.dh, d);
    forall x | x in Blocks(o.f.tab, o.w.path[d]) ensures x !in Blocks(o.f.tab, o.w.path[h]) { Disjoint(o, d, h, x); }
  }

  lemma Disjoint(o: Own, d: nat, h: nat, x: nat)
    requires Nodes(o.f.tab, o.w.path, o.w.node) && Cover(o.f.tab, o.w.owner) && d in o.w.path && h in o.w.path && d != h
    requires x in Blocks(o.f.tab, o.w.path[d])
    ensures x !in Blocks(o.f.tab, o.w.path[h])
  {
    hide Nodes, Cover, Blocks;
    ChainBlocksOwned(o.f.tab, o.w.path, o.w.node, o.w.owner, d, x);
    ChainBlocksOwned(o.f.tab, o.w.path, o.w.node, o.w.owner, h, x);
  }

  lemma ParentDiffers(g: Geo, o: Own, sect: Sectors, h: nat)
    requires Inv(g, o, sect) && h in o.w.ent && h in o.w.dh && h in o.w.par
    ensures o.w.par[h] != h
  {
    hide Chains, Nodes, Cover, Area, Kinds, Entries, Heads, Parents, Names, SectorsOk, Contents;
  }

  /** Something is named in directory `h`. */
  ghost predicate HasKids(fs: FS, h: nat) {
    exists k :: k in fs && k.0 == h
  }

  /** The name denotes a directory with something in it. */
  ghost predicate Occupied(fs: FS, k: (nat, Name)) {
    k in fs && fs[k].entryType == ST_USERDIR && HasKids(fs, fs[k].anode)
  }

  /** A directory lists as empty exactly when nothing is named in it. */
  lemma ListsEmptyIff(g: Geo, o: Own, sect: Sectors, h: nat)
    requires Inv(g, o, sect) && h in o.w.dh && h in o.w.path
    ensures Listing(o.f.dirs, Blocks(o.f.tab, o.w.path[h])) == [] <==> !HasKids(o.fs, h)
  {
    hide Inv, Blocks, Listing, Canon;
    var bl := Blocks(o.f.tab, o.w.path[h]);
    var es := Listing(o.f.dirs, bl);
    if es != [] {
      var e := es[0];
      assert e in es && NameEqCi(e.name, e.name);
      hide NameEqCi;
      var b, i := ListedAt(o.f.dirs, bl, e, e.name);
      FoundEntry(g, o, sect, h, b, i, e.name);
      assert (h, Canon(e.name)).0 == h;
    }
    if HasKids(o.fs, h) {
      var k :| k in o.fs && k.0 == h;
      NamedKid(g, o, sect, h, k);
    }
  }

  lemma NamedKid(g: Geo, o: Own, sect: Sectors, h: nat, k: (nat, Name))
    requires Inv(g, o, sect) && h in o.w.path && k in o.fs && k.0 == h
    ensures Listing(o.f.dirs, Blocks(o.f.tab, o.w.path[h])) != []
  {
    hide Chains, Nodes, Cover, Area, Kinds, Entries, Heads, Parents, SectorsOk, Contents, Ranked, Canon, Blocks,
         Listing;
    var c := o.fs[k].anode;
    assert c in o.w.ent && Key(o.w.par, o.w.ent, c) == k;
    KidListed(g, o, sect, h, c);
  }

  lemma NamesOf(g: Geo, o: Own, sect: Sectors)
    requires Inv(g, o, sect)
    ensures Names(o.fs, o.w.par, o.w.ent, o.w.data)
  {
    hide Chains, Nodes, Cover, Area, Kinds, Entries, Heads, Parents, Names, SectorsOk, Contents, Ranked;
  }

  lemma KeyType(fs: FS, par: Link, ent: map<nat, Entry>, data: map<nat, Bytes>, h: nat)
    requires Names(fs, par, ent, data) && h in ent
    ensures h in par && Key(par, ent, h) in fs && fs[Key(par, ent, h)].entryType == ent[h].entryType
            && fs[Key(par, ent, h)].anode == h
  {
    hide Canon;
    NamesAt(fs, par, ent, data, h);
  }

  lemma WholeChain(g: Geo, tab: Tab, free: set<nat>, p: seq<nat>, c: seq<Anodes.Anode>)
    requires ReleasablePath(g, tab, free, p) && IsChain(tab, p, c)
    ensures Releasable(g, free, c) && CoverSet(c) == PathCover(tab, p, 0)
  {
    ReleaseFrom(g, tab, free, p, c, 0);
    assert c[0..] == c;
  }

  /** Names in the remaining blocks are as before. */
  lemma SameNames(dirs: Dirs, gone: set<nat>, bl: seq<nat>, name: Name)
    requires AllIn(bl, dirs - gone)
    ensures NoneNamed(dirs - gone, bl, name) <==> NoneNamed(dirs, bl, name)
  {
    hide NameEqCi;
    forall b | b in bl ensures b in dirs - gone && b in dirs && (dirs - gone)[b] == dirs[b] {
      var i :| 0 <= i < |bl| && bl[i] == b;
    }
  }

  lemma RemovedFrom(dirs: Dirs, gone: set<nat>, bl: seq<nat>, b: nat, i: nat, name: Name)
    requires Named(dirs - gone, bl, b, i, name)
    ensures Named(dirs, bl, b, i, name) && b !in gone
    ensures (dirs - gone)[b := Without((dirs - gone)[b], i)] == dirs[b := Without(dirs[b], i)] - gone
  {
    hide NameEqCi, Without;
  }

  // ---------------------------------------------------------------- making a directory

  ghost function RankOf(o: Own, d: nat): nat {
    if d in o.w.rank then o.w.rank[d] else 0
  }

  /** A new empty directory, still floating, to be named in `d`. */
  ghost function WithNewDir(o: Own, d: nat, h: nat, nb: nat, grown: set<nat>): Own {
    AddDirChain(TakeSys(o, grown), h, nb, RankOf(o, d) + 1)
  }

  lemma WithNewDirKeeps(g: Geo, o: Own, sect: Sectors, d: nat, h: nat, nb: nat, grown: set<nat>)
    requires Inv(g, o, sect) && d in o.w.dh && h !in o.f.tab && h != ANODE_EOF && nb in o.f.resFree
             && grown <= o.f.resFree - {nb}
    ensures Inv(g, WithNewDir(o, d, h, nb, grown), sect) && h !in o.w.path && d in o.w.rank && d in o.w.path
    ensures WithNewDir(o, d, h, nb, grown).f
         == Flat(o.f.tab + map[h := Slot(1, nb, ANODE_EOF)], o.f.dirs[nb := []], o.f.free, o.f.resFree - grown - {nb})
  {
    hide Chains, Nodes, Cover, Area, Kinds, Entries, Heads, Parents, Names, SectorsOk, Contents, NoKids, All;
    assert d in o.w.rank;
    hide Ranked;
    Attached(g, o, sect);
    TakeSysKeeps(g, o, sect, grown);
    AddDirChainKeeps(g, TakeSys(o, grown), sect, h, nb, RankOf(o, d) + 1);
  }

  lemma NewDirNamed(g: Geo, o: Own, sect: Sectors, d: nat, e: Entry, h: nat, nb: nat, grown: set<nat>)
    requires o.fl == {} && d in o.w.dh && d in o.w.path && d in o.w.rank && h !in o.w.path
    requires e.anode == h && IsDir(e) && (d, Canon(e.name)) !in o.fs
    ensures CanName(g, WithNewDir(o, d, h, nb, grown), sect, d, e, [])
  {
    hide Canon;
  }

  lemma WithNewDirBlocks(g: Geo, o: Own, sect: Sectors, h: nat, nb: nat, d: nat)
    requires Nodes(o.f.tab, o.w.path, o.w.node) && h !in o.f.tab && d in o.w.path
    ensures Blocks(o.f.tab + map[h := Slot(1, nb, ANODE_EOF)], o.w.path[d]) == Blocks(o.f.tab, o.w.path[d])
    ensures Agree(o.f.tab, o.f.tab + map[h := Slot(1, nb, ANODE_EOF)], o.w.path[d])
  {
    NodesCover(o.f.tab, o.w.path, o.w.node, d);
    BlocksFrame(o.f.tab, o.f.tab + map[h := Slot(1, nb, ANODE_EOF)], o.w.path[d]);
  }

  ghost function NewDirOwn(o: Own, d: nat, e: Entry, h: nat, nb: nat, grown: set<nat>, pl: Placed): Own
    requires d in o.w.path
  {
    PlaceOwn(WithNewDir(o, d, h, nb, grown), d, e, pl, [])
  }

  /** Creating a directory: a new empty chain, a new entry, everything else as before. */
  lemma NewDirKeeps(g: Geo, o: Own, sect: Sectors, d: nat, e: Entry, h: nat, nb: nat, grown: set<nat>, pl: Placed)
    requires Inv(g, o, sect) && o.fl == {} && d in o.w.dh && d in o.w.path && h !in o.f.tab && h != ANODE_EOF
    requires nb in o.f.resFree && grown <= o.f.resFree - {nb}
    requires e.anode == h && IsDir(e) && (d, Canon(e.name)) !in o.fs
    requires PlacedOk(WithNewDir(o, d, h, nb, grown).f, Blocks(o.f.tab, o.w.path[d]), pl)
    ensures Inv(g, NewDirOwn(o, d, e, h, nb, grown, pl), sect)
    ensures NewDirOwn(o, d, e, h, nb, grown, pl).f == PlaceFlat(WithNewDir(o, d, h, nb, grown).f, o.w.path[d], e, pl)
    ensures NewDirOwn(o, d, e, h, nb, grown, pl).sys == PlaceSys(o.sys + grown, pl)
            && NewDirOwn(o, d, e, h, nb, grown, pl).fl == {}
    ensures NewDirOwn(o, d, e, h, nb, grown, pl).fs == o.fs[(d, Canon(e.name)) := Describe(e, [])]
  {
    hide Inv, Blocks, Canon, CanName, PlaceOwn, PlacedOk, PlaceFlat, PlaceSys, Describe, IsDir, Nodes, All, Agree;
    Attached(g, o, sect);
    WithNewDirKeeps(g, o, sect, d, h, nb, grown);
    NewDirNamed(g, o, sect, d, e, h, nb, grown);
    WithNewDirBlocks(g, o, sect, h, nb, d);
    var o1 := WithNewDir(o, d, h, nb, grown);
    assert o1.w.path[d] == o.w.path[d];
    PlaceKeeps(g, o1, sect, d, e, [], pl);
  }

  lemma NewDirEntry(name: Name, h: nat, stamp: Stamp)
    requires |name| <= NAME_MAX
    ensures var e := BuildEntry(name, ST_USERDIR, h, 0, 0, stamp);
            && e.anode == h && IsDir(e) && e.name == name && Describe(e, []) == Obj(h, ST_USERDIR, name, 0, [])
            && e.entrySize == BuildEntry(name, ST_USERDIR, 0, 0, 0, stamp).entrySize
  {
    assert name[..|name|] == name;
  }

  lemma NewDirFlat(f: Flat, f2: Flat, h: nat, nb: nat, grown: set<nat>)
    requires f2.tab == f.tab[h := Slot(1, nb, ANODE_EOF)] && f2.dirs == f.dirs[nb := []] && f2.free == f.free
    requires f2.resFree == f.resFree - {nb} - grown
    ensures f2 == Flat(f.tab + map[h := Slot(1, nb, ANODE_EOF)], f.dirs[nb := []], f.free, f.resFree - grown - {nb})
  {
    assert f.tab[h := Slot(1, nb, ANODE_EOF)] == f.tab + map[h := Slot(1, nb, ANODE_EOF)];
  }

  lemma ResFreeNotDir(g: Geo, o: Own, sect: Sectors, b: nat)
    requires Inv(g, o, sect) && b in o.f.resFree
    ensures b !in o.f.dirs
  {
    hide Chains, Nodes, Cover, Kinds, Entries, Heads, Parents, Names, SectorsOk, Contents, Ranked;
  }

  /** A new block elsewhere neither adds nor takes room in the directory's own blocks. */
  lemma RoomKept(rbs: nat, dirs: Dirs, dirs': Dirs, bl: seq<nat>, nb: nat, e: Entry, e': Entry)
    requires AllIn(bl, dirs) && dirs' == dirs[nb := []] && nb !in dirs && e.entrySize == e'.entrySize
    ensures HasRoom(rbs, dirs', bl, e) <==> HasRoom(rbs, dirs, bl, e')
    ensures AllIn(bl, dirs')
  {
    forall es ensures Fits(rbs, es, e) <==> Fits(rbs, es, e') { }
    hide Fits;
    forall i | 0 <= i < |bl| ensures bl[i] in dirs && bl[i] in dirs' && dirs'[bl[i]] == dirs[bl[i]] { }
  }

  /** Everything needed to name a new directory. */
  lemma DirReady(g: Geo, o: Own, sect: Sectors, d: nat, name: Name, stamp: Stamp, h: nat, nb: nat, grown: set<nat>,
                 f: Flat)
    requires d in o.w.dh && d in o.w.path && h !in o.f.tab && h != ANODE_EOF && |name| <= NAME_MAX
    requires nb in o.f.resFree && grown <= o.f.resFree - {nb} && AllIn(Blocks(o.f.tab, o.w.path[d]), o.f.dirs)
    requires f.tab == o.f.tab[h := Slot(1, nb, ANODE_EOF)] && f.dirs == o.f.dirs[nb := []] && f.free == o.f.free
    requires f.resFree == o.f.resFree - {nb} - grown && Inv(g, o, sect)
    ensures f == WithNewDir(o, d, h, nb, grown).f && Agree(o.f.tab, f.tab, o.w.path[d])
            && AllIn(Blocks(o.f.tab, o.w.path[d]), f.dirs)
    ensures var e := BuildEntry(name, ST_USERDIR, h, 0, 0, stamp);
            && e.anode == h && IsDir(e) && e.name == name && Describe(e, []) == Obj(h, ST_USERDIR, name, 0, [])
            && (HasRoom(g.rbs, f.dirs, Blocks(o.f.tab, o.w.path[d]), e) <==>
                HasRoom(g.rbs, o.f.dirs, Blocks(o.f.tab, o.w.path[d]), BuildEntry(name, ST_USERDIR, 0, 0, 0, stamp)))
  {
    hide BuildEntry, HasRoom, Blocks, Inv, AllIn, Describe, Agree, IsDir, WithNewDir, Nodes;
    WithNewDirKeeps(g, o, sect, d, h, nb, grown);
    NewDirFlat(o.f, f, h, nb, grown);
    Attached(g, o, sect);
    WithNewDirBlocks(g, o, sect, h, nb, d);
    NewDirEntry(name, h, stamp);
    ResFreeNotDir(g, o, sect, nb);
    RoomKept(g.rbs, o.f.dirs, f.dirs, Blocks(o.f.tab, o.w.path[d]), nb, BuildEntry(name, ST_USERDIR, h, 0, 0, stamp),
             BuildEntry(name, ST_USERDIR, 0, 0, 0, stamp));
  }

  // ---------------------------------------------------------------- what making a directory needs

  /** The names with a new, empty directory headed by `h`. */
  ghost function WithDirNamed(fs: FS, d: nat, name: Name, h: nat): FS {
    fs[(d, Canon(name)) := Obj(h, ST_USERDIR, name, 0, [])]
  }

  ghost function MakeExtra(g: Geo, o: Own, d: nat, name: Name, stamp: Stamp): nat {
    DirExtra(g.rbs, o, d, BuildEntry(name, ST_USERDIR, 0, 0, 0, stamp))
  }

  /** One block and one anode for the directory, and one of each more when its parent has to grow. */
  ghost predicate CanMake(g: Geo, miss: nat, o: Own, d: nat, name: Name, stamp: Stamp) {
    RoomFor(g, miss, o.f, 1 + MakeExtra(g, o, d, name, stamp), 1 + MakeExtra(g, o, d, name, stamp))
  }

  /** The anodes for the directory and its parent get different numbers. */
  ghost predicate MakeNumbered(g: Geo, miss: nat, o: Own, d: nat, name: Name, stamp: Stamp) {
    1 + MakeExtra(g, o, d, name, stamp) <= SlotsLeft(g, miss, o.f)
  }

  ghost predicate CleanMake(g: Geo, miss: nat, o: Own, d: nat, name: Name, stamp: Stamp) {
    (d, Canon(name)) !in o.fs && MakeNumbered(g, miss, o, d, name, stamp)
  }

  /** The name is in use already. */
  ghost predicate DoubleMake(g: Geo, miss: nat, o: Own, d: nat, name: Name, stamp: Stamp) {
    (d, Canon(name)) in o.fs && MakeNumbered(g, miss, o, d, name, stamp)
  }

  /** Directory `d` keeps its blocks among `dirs`, and some have room for `e` or not. */
  ghost predicate RoomAmong(rbs: nat, o: Own, d: nat, dirs: Dirs, e: Entry) {
    d in o.w.path && HasRoom(rbs, dirs, Blocks(o.f.tab, o.w.path[d]), e)
  }

  ghost predicate FreshAmong(g: Geo, miss: nat, o: Own, f: Flat, d: nat, e: Entry) {
    d in o.w.path && Placeable(g, miss, o.f.tab, f, o.w.path[d], e)
  }

  ghost predicate BlocksAmong(o: Own, d: nat, dirs: Dirs) {
    d in o.w.path && AllIn(Blocks(o.f.tab, o.w.path[d]), dirs)
  }

  ghost predicate NamedAmong(o: Own, d: nat, dirs: Dirs, name: Name) {
    d in o.w.path && !NoneNamed(dirs, Blocks(o.f.tab, o.w.path[d]), name)
  }

  /** Everything for naming the new directory `h`, the metadata being `f` and `sys`. */
  ghost predicate Makeable(g: Geo, miss: nat, o: Own, f: Flat, sys: set<nat>, d: nat, e: Entry, h: nat, nb: nat,
                           grown: set<nat>, name: Name) {
    && d in o.w.path && f == WithNewDir(o, d, h, nb, grown).f && sys == o.sys + grown
    && Placeable(g, miss, o.f.tab, f, o.w.path[d], e)
    && e.anode == h && IsDir(e) && Describe(e, []) == Obj(h, ST_USERDIR, name, 0, []) && (d, Canon(name)) !in o.fs
    && h !in o.f.tab && h != ANODE_EOF && nb in o.f.resFree && grown <= o.f.resFree - {nb}
  }

  /** What is needed, block by block and anode by anode. */
  lemma MakeNeeds(g: Geo, miss: nat, o: Own, d: nat, name: Name, stamp: Stamp)
    ensures var extra, left, res := MakeExtra(g, o, d, name, stamp), Left(g, miss, o.f.tab), |o.f.resFree|;
            CanMake(g, miss, o, d, name, stamp) <==>
              && res > 0 && Enough(g, miss, left, res - 1, 1, 0)
              && (extra == 0 || Enough(g, miss, Over(left, 1), Over(res - 1, Over(1, left)), 1, 1))
  {
    hide Left, Registrable, RoomIn, BuildEntry;
    var extra, left, res := MakeExtra(g, o, d, name, stamp), Left(g, miss, o.f.tab), |o.f.resFree|;
    EnoughSplit(g, miss, left, res, 0, 1, 1 + extra, extra);
    EnoughSplit(g, miss, left, Over(res, 1), 1, 0, extra, extra);
  }

  lemma MakeLeft(g: Geo, miss: nat, o: Own, f: Flat, d: nat, name: Name, stamp: Stamp)
    requires |o.f.resFree| > 0 && Enough(g, miss, Left(g, miss, o.f.tab), |o.f.resFree| - 1, 1, 0)
    requires Left(g, miss, f.tab) == Over(Left(g, miss, o.f.tab), 1)
    requires |f.resFree| == |o.f.resFree| - 1 - Over(1, Left(g, miss, o.f.tab))
    ensures CanMake(g, miss, o, d, name, stamp) <==> MakeExtra(g, o, d, name, stamp) == 0 || RoomFor(g, miss, f, 1, 1)
  {
    hide Left, Registrable, RoomIn, BuildEntry, CanMake;
    MakeNeeds(g, miss, o, d, name, stamp);
  }

  /** A new empty block changes no names. */
  lemma SameAmong(g: Geo, o: Own, sect: Sectors, d: nat, dirs: Dirs, nb: nat, name: Name)
    requires Inv(g, o, sect) && d in o.w.dh && nb in o.f.resFree && dirs == o.f.dirs[nb := []]
    ensures NamedAmong(o, d, dirs, name) <==> (d, Canon(name)) in o.fs
  {
    hide Inv, Blocks, Canon, NameEqCi, Agree, IsPath;
    DirChainFacts(g, o, sect, d);
    ResFreeNotDir(g, o, sect, nb);
    NotFoundIff(g, o, sect, d, name);
    var bl := Blocks(o.f.tab, o.w.path[d]);
    forall i | 0 <= i < |bl| ensures bl[i] in o.f.dirs && bl[i] in dirs && dirs[bl[i]] == o.f.dirs[bl[i]] { }
  }

  /** Once block and anode are taken: where the parent's entries are, and whether all is set. */
  lemma MakeReady(g: Geo, miss: nat, o: Own, sect: Sectors, d: nat, name: Name, stamp: Stamp, h: nat, nb: nat,
                  grown: set<nat>, f: Flat)
    requires d in o.w.dh && d in o.w.path && h !in o.f.tab && h != ANODE_EOF && |name| <= NAME_MAX && g.stride > 0
    requires nb in o.f.resFree && grown <= o.f.resFree - {nb} && AllIn(Blocks(o.f.tab, o.w.path[d]), o.f.dirs)
             && ANODE_EOF !in f.tab
    requires f.tab == o.f.tab[h := Slot(1, nb, ANODE_EOF)] && f.dirs == o.f.dirs[nb := []] && f.free == o.f.free
    requires f.resFree == o.f.resFree - {nb} - grown
    requires Supply(g, CapSet(g, miss), miss, f.tab) == Supply(g, CapSet(g, miss), miss, o.f.tab) - 1
    requires Inv(g, o, sect)
    ensures var e := BuildEntry(name, ST_USERDIR, h, 0, 0, stamp);
            && e.name == name && (RoomAmong(g.rbs, o, d, f.dirs, e) <==> MakeExtra(g, o, d, name, stamp) == 0)
               && BlocksAmong(o, d, f.dirs)
            && (MakeNumbered(g, miss, o, d, name, stamp) ==> FreshAmong(g, miss, o, f, d, e))
            && (NamedAmong(o, d, f.dirs, name) <==> (d, Canon(name)) in o.fs) && e.anode == h
            && Agree(o.f.tab, f.tab, o.w.path[d])
            && (CleanMake(g, miss, o, d, name, stamp) ==>
                  Makeable(g, miss, o, f, o.sys + grown, d, e, h, nb, grown, name))
  {
    hide BuildEntry, HasRoom, Blocks, Inv, AllIn, Describe, Agree, IsDir, WithNewDir, Canon, Supply, CapSet, NamedAmong;
    DirReady(g, o, sect, d, name, stamp, h, nb, grown, f);
    SameAmong(g, o, sect, d, f.dirs, nb, name);
  }

  // ---------------------------------------------------------------- reserved blocks are conserved

  lemma PlaceReserve(f: Flat, sys: set<nat>, bl: seq<nat>, p: seq<nat>, e: Entry, pl: Placed)
    requires PlacedOk(f, bl, pl)
    ensures ReserveOf(PlaceFlat(f, p, e, pl), PlaceSys(sys, pl)) == ReserveOf(f, sys)
  {
    hide JoinTab, Last;
    match pl
    case InBlock(b) => assert f.dirs[b := f.dirs[b] + [e]].Keys == f.dirs.Keys;
    case NewBlock(nb, nr, grown) => assert f.dirs[nb := [e]].Keys == f.dirs.Keys + {nb};
  }

  /** Blocks taken for anodes move from the free ones to the system. */
  lemma TakeReserve(f: Flat, f': Flat, sys: set<nat>, grown: set<nat>)
    requires f'.dirs.Keys == f.dirs.Keys && f'.resFree == f.resFree - grown && grown <= f.resFree
    ensures ReserveOf(f', sys + grown) == ReserveOf(f, sys)
  {
  }

  lemma NewDirReserve(f: Flat, f': Flat, sys: set<nat>, nb: nat, grown: set<nat>)
    requires f'.dirs == f.dirs[nb := []] && f'.resFree == f.resFree - {nb} - grown && nb in f.resFree
             && grown <= f.resFree - {nb}
    ensures ReserveOf(f', sys + grown) == ReserveOf(f, sys)
  {
    assert f'.dirs.Keys == f.dirs.Keys + {nb};
  }

  lemma SameReserve(f: Flat, f': Flat, sys: set<nat>)
    requires f'.dirs.Keys == f.dirs.Keys && f'.resFree == f.resFree
    ensures ReserveOf(f', sys) == ReserveOf(f, sys)
  {
  }

  /** The blocks of a directory given back become free. */
  lemma GiveReserve(f: Flat, f': Flat, sys: set<nat>, bl: seq<nat>, b: nat, es: seq<Entry>)
    requires f'.dirs == f.dirs[b := es] - Elems(bl) && b in f.dirs && f'.resFree == f.resFree + Elems(bl)
             && AllIn(bl, f.dirs)
    ensures ReserveOf(f', sys) == ReserveOf(f, sys)
  {
    assert f.dirs[b := es].Keys == f.dirs.Keys;
    forall x | x in Elems(bl) ensures x in f.dirs { var i :| 0 <= i < |bl| && bl[i] == x; }
  }

  lemma SupplyLeft(g: Geo, miss: nat, f: Flat)
    ensures SlotsLeft(g, miss, f) <= Left(g, miss, f.tab) + 1
  {
    hide CapSet;
  }

  /** When the numbers suffice, the anodes for the data leave at most one registration to be made, and
      none when the directory needs one more. */
  lemma CleanTidy(g: Geo, miss: nat, o: Own, d: nat, name: Name, size: nat, stamp: Stamp)
    requires CleanCreate(g, miss, o, d, name, size, stamp)
    ensures RunsOf(g, o, size) <= Left(g, miss, o.f.tab) + 1
    ensures FileExtra(g, o, d, name, size, stamp) != 0 ==> RunsOf(g, o, size) <= Left(g, miss, o.f.tab)
  {
    hide Left, SlotsLeft, RunsOf, Canon, RoomIn;
    SupplyLeft(g, miss, o.f);
  }

  lemma CleanIs(g: Geo, miss: nat, o: Own, d: nat, name: Name, size: nat, stamp: Stamp)
    ensures CleanCreate(g, miss, o, d, name, size, stamp) <==>
            Numbered(g, miss, o, d, name, size, stamp) && (d, Canon(name)) !in o.fs
  {
    hide Numbered, Canon;
  }

  lemma RoomIsFresh(g: Geo, miss: nat, o: Own, f: Flat, d: nat, e: Entry)
    ensures RoomIn(g.rbs, o, d, e) ==> Fresh(g, miss, o, f, d, e)
  {
    hide RoomIn, Placeable;
  }
}
