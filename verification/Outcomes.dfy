/** What creating something leaves behind when the name is in use or anode numbers run out. */
module Outcomes {
  import opened Types
  import opened Anodes
  import opened Ownership
  import opened Table
  import opened Runs
  import opened Transitions
  import opened Guarantees
  import opened Directory
  import opened Steps
  import opened SectorData
  import opened Compose

  // ---------------------------------------------------------------- a name used twice

  /** Some entry names `d`. */
  ghost predicate Mentioned(dirs: Dirs, d: nat) {
    exists b, i :: b in dirs && 0 <= i < |dirs[b]| && dirs[b][i].anode == d
  }

  /** Two different entries in the chain `p` of directory `d` have this name, ignoring case. */
  ghost predicate TwoAt(f: Flat, d: nat, p: seq<nat>, b: nat, i: nat, c: nat, j: nat, name: Name) {
    && IsPath(f.tab, d, p) && Named(f.dirs, Blocks(f.tab, p), b, i, name) && Named(f.dirs, Blocks(f.tab, p), c, j, name)
    && (b, i) != (c, j)
  }

  /** Directory `d`, the root or one that is named, lists the name twice. */
  ghost predicate TwoNamed(f: Flat, d: nat, name: Name) {
    (d == ANODE_ROOTDIR || Mentioned(f.dirs, d))
    && exists p: seq<nat>, b: nat, i: nat, c: nat, j: nat :: TwoAt(f, d, p, b, i, c, j, name)
  }

  lemma PathUnique(tab: Tab, h: nat, p: seq<nat>, q: seq<nat>)
    requires IsPath(tab, h, p) && IsPath(tab, h, q) && ANODE_EOF !in tab
    ensures p == q
  {
    hide IsPath;
    PathIsRun(tab, h, p);
    PathIsRun(tab, h, q);
    RunUnique(TabRead(tab), h, p, q);
  }

  lemma HeadHasPath(g: Geo, o: Own, sect: Sectors, d: nat)
    requires (d == ANODE_ROOTDIR || Mentioned(o.f.dirs, d)) && Inv(g, o, sect)
    ensures d in o.w.path && IsPath(o.f.tab, d, o.w.path[d]) && ANODE_EOF !in o.f.tab
  {
    hide Chains, Nodes, Cover, Area, Kinds, Entries, Parents, Names, SectorsOk, Contents, Ranked, IsPath;
    if d != ANODE_ROOTDIR {
      var b, i :| b in o.f.dirs && 0 <= i < |o.f.dirs[b]| && o.f.dirs[b][i].anode == d;
      EntryAt(o.f.dirs, o.w.ent, o.w.home, b, i);
    }
    ChainsAt(o.f.tab, o.w.path, d);
  }

  /** An entry in a block of directory `d` is named there. */
  lemma EntryKey(g: Geo, o: Own, sect: Sectors, d: nat, b: nat, i: nat, name: Name)
    requires d in o.w.path && Named(o.f.dirs, Blocks(o.f.tab, o.w.path[d]), b, i, name) && Inv(g, o, sect)
    ensures var h := o.f.dirs[b][i].anode;
            h in o.w.ent && h in o.w.par && h in o.w.home && o.w.home[h] == b
            && Key(o.w.par, o.w.ent, h) == (d, Canon(name))
  {
    hide Chains, Nodes, Cover, Area, Kinds, Entries, Heads, Parents, Names, SectorsOk, Contents, Ranked, Canon, Blocks,
         NameEqCi;
    var h := o.f.dirs[b][i].anode;
    EntryAt(o.f.dirs, o.w.ent, o.w.home, b, i);
    ChainBlocksOwned(o.f.tab, o.w.path, o.w.node, o.w.owner, d, b);
    ParentOf(o.w.node, o.w.owner, o.w.home, o.w.par, o.w.dh, h);
    NameEqIsCanon(o.f.dirs[b][i].name, name);
  }

  lemma ParentOf(node: Link, owner: Link, home: Link, par: Link, dh: set<nat>, h: nat)
    requires Parents(node, owner, home, par, dh) && h in home
    ensures h in par && home[h] in owner && owner[home[h]] in node && node[owner[home[h]]] == par[h]
  {
    assert h in par;
    var x := par[h];
  }

  /** Whatever witnesses are chosen, a directory that lists a name twice is part of no consistent volume. */
  lemma NoReading(g: Geo, o: Own, sect: Sectors, d: nat, name: Name)
    requires TwoNamed(o.f, d, name)
    ensures !Inv(g, o, sect)
  {
    hide Inv, Mentioned, IsPath, Blocks, Canon, NameEqCi, Key;
    if Inv(g, o, sect) {
      var p: seq<nat>, b: nat, i: nat, c: nat, j: nat :| TwoAt(o.f, d, p, b, i, c, j, name);
      HeadHasPath(g, o, sect, d);
      PathUnique(o.f.tab, d, p, o.w.path[d]);
      EntryKey(g, o, sect, d, b, i, name);
      EntryKey(g, o, sect, d, c, j, name);
      SameName(g, o, sect, o.f.dirs[b][i].anode, o.f.dirs[c][j].anode);
      OneSpot(g, o, sect, b, i, j);
    }
  }

  lemma SameName(g: Geo, o: Own, sect: Sectors, h: nat, k: nat)
    requires h in o.w.ent && k in o.w.ent && h in o.w.par && k in o.w.par && Inv(g, o, sect)
    requires Key(o.w.par, o.w.ent, h) == Key(o.w.par, o.w.ent, k)
    ensures h == k
  {
    hide Chains, Nodes, Cover, Area, Kinds, Entries, Heads, Parents, Names, SectorsOk, Contents, Ranked, Key;
    NamesAt(o.fs, o.w.par, o.w.ent, o.w.data, h);
    NamesAt(o.fs, o.w.par, o.w.ent, o.w.data, k);
  }

  lemma OneSpot(g: Geo, o: Own, sect: Sectors, b: nat, i: nat, j: nat)
    requires b in o.f.dirs && i < |o.f.dirs[b]| && j < |o.f.dirs[b]| && o.f.dirs[b][i].anode == o.f.dirs[b][j].anode
    requires Inv(g, o, sect)
    ensures i == j
  {
    hide Chains, Nodes, Cover, Area, Kinds, Heads, Parents, Names, SectorsOk, Contents, Ranked;
    assert Distinct(o.f.dirs[b]);
  }

  /** The metadata can be read as a consistent volume. */
  ghost predicate HasReading(g: Geo, f: Flat, sect: Sectors) {
    exists o: Own {:trigger Inv(g, o, sect)} :: o.f == f && Inv(g, o, sect)
  }

  lemma TwiceUnreadable(g: Geo, f: Flat, sect: Sectors, d: nat, name: Name)
    requires TwoNamed(f, d, name)
    ensures !HasReading(g, f, sect)
  {
    hide Inv, TwoNamed;
    forall o: Own | o.f == f ensures !Inv(g, o, sect) { NoReading(g, o, sect, d, name); }
  }

  lemma IsReading(g: Geo, o: Own, sect: Sectors)
    requires Inv(g, o, sect)
    ensures HasReading(g, o.f, sect)
  {
    hide Inv;
  }

  lemma HeadKnown(g: Geo, o: Own, sect: Sectors, d: nat)
    requires d in o.w.dh && d !in o.fl && Inv(g, o, sect)
    ensures d == ANODE_ROOTDIR || Mentioned(o.f.dirs, d)
  {
    hide Chains, Nodes, Cover, Area, Kinds, Parents, Names, SectorsOk, Contents, Ranked;
    if d != ANODE_ROOTDIR {
      var b := o.w.home[d];
      var i :| 0 <= i < |o.f.dirs[b]| && o.f.dirs[b][i] == o.w.ent[d];
    }
  }

  // ---------------------------------------------------------------- adding an entry under a name in use

  lemma PathFrame(tab: Tab, tab': Tab, h: nat, p: seq<nat>)
    requires IsPath(tab, h, p) && Agree(tab, tab', p)
    ensures IsPath(tab', h, p) && Blocks(tab', p) == Blocks(tab, p)
  {
    BlocksFrame(tab, tab', p);
  }

  /** A directory's chain with a new block behind it. */
  lemma PathLonger(tab: Tab, h: nat, p: seq<nat>, nr: nat, nb: nat)
    requires IsPath(tab, h, p) && nr !in tab
    ensures var tab' := JoinTab(tab + map[nr := Slot(1, nb, ANODE_EOF)], Last(p), nr);
            IsPath(tab', h, p + [nr]) && Blocks(tab', p + [nr]) == Blocks(tab, p) + [nb]
  {
    var tab' := JoinTab(tab + map[nr := Slot(1, nb, ANODE_EOF)], Last(p), nr);
    var q := p + [nr];
    forall i | 0 <= i < |p| ensures p[i] in tab' && p[i] != nr && tab'[p[i]].size == tab[p[i]].size
    && tab'[p[i]].blk == tab[p[i]].blk { }
    assert forall i, j :: 0 <= i < j < |q| && j == i + 1 ==> tab'[q[i]].next == q[j];
    BlocksFrame(tab, tab', p);
    BlocksConcat(tab', p, [nr]);
    assert tab'[nr] == Slot(1, nb, ANODE_EOF);
    OneBlockOf(tab', nr, nb);
  }

  lemma OneBlockOf(tab: Tab, nr: nat, nb: nat)
    requires nr in tab && tab[nr] == Slot(1, nb, ANODE_EOF)
    ensures Blocks(tab, [nr]) == [nb]
  {
    assert [nr][1..] == [];
    assert Expand(tab[nr]) == [nb];
  }

  lemma MentionedStill(f: Flat, bl: seq<nat>, p: seq<nat>, e: Entry, pl: Placed, d: nat)
    requires PlacedOk(f, bl, pl) && f.resFree !! f.dirs.Keys && (e.anode == d || Mentioned(f.dirs, d))
    ensures Mentioned(PlaceFlat(f, p, e, pl).dirs, d)
  {
    hide JoinTab, Last;
    var d' := PlaceFlat(f, p, e, pl).dirs;
    if e.anode == d {
      var b, i := if pl.InBlock? then pl.b else pl.nb, if pl.InBlock? then |f.dirs[pl.b]| else 0;
      assert b in d' && i < |d'[b]| && d'[b][i] == e;
    } else {
      var b, i :| b in f.dirs && 0 <= i < |f.dirs[b]| && f.dirs[b][i].anode == d;
      assert b in d' && i < |d'[b]| && d'[b][i] == f.dirs[b][i];
    }
  }

  lemma TwiceInBlock(f: Flat, d: nat, p: seq<nat>, e: Entry, b: nat, j: nat, c: nat)
    requires IsPath(f.tab, d, p) && Named(f.dirs, Blocks(f.tab, p), b, j, e.name) && c in Blocks(f.tab, p)
             && c in f.dirs
    ensures TwoAt(PlaceFlat(f, p, e, InBlock(c)), d, p, b, j, c, |f.dirs[c]|, e.name)
  {
    assert NameEqCi(e.name, e.name);
    hide IsPath, Blocks, NameEqCi;
  }

  lemma TwiceInNew(f: Flat, d: nat, p: seq<nat>, e: Entry, b: nat, j: nat, nb: nat, nr: nat, grown: set<nat>)
    requires IsPath(f.tab, d, p) && Named(f.dirs, Blocks(f.tab, p), b, j, e.name) && nb !in f.dirs && nr !in f.tab
    ensures TwoAt(PlaceFlat(f, p, e, NewBlock(nb, nr, grown)), d, p + [nr], b, j, nb, 0, e.name)
  {
    assert NameEqCi(e.name, e.name);
    hide IsPath, Blocks, NameEqCi, JoinTab, Last;
    PathLonger(f.tab, d, p, nr, nb);
    var f' := PlaceFlat(f, p, e, NewBlock(nb, nr, grown));
    assert f'.dirs == f.dirs[nb := [e]] && b != nb;
    assert nb in Blocks(f.tab, p) + [nb] && b in Blocks(f.tab, p) + [nb];
  }

  /** Adding an entry to directory `d` under a name it has. */
  lemma TwiceNamed(tab: Tab, f: Flat, d: nat, p: seq<nat>, e: Entry, pl: Placed)
    requires IsPath(tab, d, p) && Agree(tab, f.tab, p) && PlacedOk(f, Blocks(tab, p), pl) && f.resFree !! f.dirs.Keys
    requires d == ANODE_ROOTDIR || e.anode == d || Mentioned(f.dirs, d)
    ensures !NoneNamed(f.dirs, Blocks(tab, p), e.name) ==> TwoNamed(PlaceFlat(f, p, e, pl), d, e.name)
    ensures pl.InBlock? ==> PlaceFlat(f, p, e, pl).tab == f.tab
  {
    hide IsPath, Agree, Blocks, JoinTab, Last, Mentioned, NameEqCi, TwoAt;
    if !NoneNamed(f.dirs, Blocks(tab, p), e.name) {
      PathFrame(tab, f.tab, d, p);
      if d != ANODE_ROOTDIR { MentionedStill(f, Blocks(tab, p), p, e, pl, d); }
      var b: nat, j: nat :| b in Blocks(tab, p) && b in f.dirs && j < |f.dirs[b]|
      && NameEqCi(f.dirs[b][j].name, e.name);
      match pl
      case InBlock(c) => TwiceInBlock(f, d, p, e, b, j, c);
      case NewBlock(nb, nr, grown) => TwiceInNew(f, d, p, e, b, j, nb, nr, grown);
    }
  }

  // ---------------------------------------------------------------- what a new head reads as

  /** From `h` the anodes lead to data blocks that hold the data. */
  ghost predicate ReadsAs(g: Geo, tab: Tab, sect: Sectors, h: nat, data: Bytes) {
    exists q :: IsRun(TabRead(tab), h, q) && InDataAll(g, Blocks(tab, q))
                && ReadData(sect, Blocks(tab, q), |data|) == data
  }

  /** From `h` the anodes lead to directory blocks without entries. */
  ghost predicate ListsNothing(f: Flat, h: nat) {
    exists q :: IsRun(TabRead(f.tab), h, q) && AllIn(Blocks(f.tab, q), f.dirs)
                && Listing(f.dirs, Blocks(f.tab, q)) == []
  }

  /** Anode `h` has become that of the directory block `nb`, which holds just the entry of `h`. */
  ghost predicate Usurped(f: Flat, h: nat, nb: nat, e: Entry) {
    h in f.tab && f.tab[h] == Slot(1, nb, ANODE_EOF) && nb in f.dirs && f.dirs[nb] == [e] && e.anode == h
  }

  lemma OneRun(tab: Tab, h: nat, nb: nat, q: seq<nat>)
    requires h in tab && tab[h] == Slot(1, nb, ANODE_EOF) && h != ANODE_EOF
    ensures IsRun(TabRead(tab), h, [h]) && Blocks(tab, [h]) == [nb]
    ensures IsRun(TabRead(tab), h, q) ==> q == [h]
  {
    assert [h][1..] == [];
    assert IsRun(TabRead(tab), ANODE_EOF, []);
    OneBlockOf(tab, h, nb);
    if IsRun(TabRead(tab), h, q) { RunUnique(TabRead(tab), h, q, [h]); }
  }

  /** A head whose anode was taken for a directory block does not read as data. */
  lemma UsurpedReads(g: Geo, f: Flat, sect: Sectors, h: nat, nb: nat, e: Entry, data: Bytes)
    requires Usurped(f, h, nb, e) && h != ANODE_EOF && !InData(g, nb)
    ensures !ReadsAs(g, f.tab, sect, h, data) && !ListsNothing(f, h)
  {
    hide IsRun, Blocks;
    forall q | IsRun(TabRead(f.tab), h, q) ensures Blocks(f.tab, q) == [nb] { OneRun(f.tab, h, nb, q); }
    assert [nb][..0] == [];
    assert Listing(f.dirs, [nb]) == Listing(f.dirs, []) + [e];
    assert !InDataAll(g, [nb]) by { assert [nb][0] == nb; }
  }

  lemma LoopReads(g: Geo, tab: Tab, sect: Sectors, h: nat, data: Bytes)
    requires PointsAtItself(tab, h) && h != ANODE_EOF
    ensures !ReadsAs(g, tab, sect, h, data)
  {
    forall q ensures !IsRun(TabRead(tab), h, q) { LoopNeverEnds(TabRead(tab), h, q); }
  }

  /** Some entry names `h`, and following its anodes never ends. */
  ghost predicate Stuck(f: Flat, h: nat) {
    Mentioned(f.dirs, h) && forall q :: !IsRun(TabRead(f.tab), h, q)
  }

  /** Such a head is part of no consistent volume. */
  lemma StuckUnreadable(g: Geo, f: Flat, sect: Sectors, h: nat)
    requires Stuck(f, h)
    ensures !HasReading(g, f, sect)
  {
    hide Inv, Mentioned, IsPath, IsRun;
    forall o: Own | o.f == f ensures !Inv(g, o, sect) {
      if Inv(g, o, sect) {
        HeadHasPath(g, o, sect, h);
        PathIsRun(o.f.tab, h, o.w.path[h]);
      }
    }
  }

  lemma LoopUnreadable(g: Geo, f: Flat, sect: Sectors, h: nat)
    requires Mentioned(f.dirs, h) && PointsAtItself(f.tab, h) && h != ANODE_EOF
    ensures !HasReading(g, f, sect)
  {
    hide Mentioned, IsRun;
    forall q ensures !IsRun(TabRead(f.tab), h, q) { LoopNeverEnds(TabRead(f.tab), h, q); }
    StuckUnreadable(g, f, sect, h);
  }

  /** A chain that keeps its anodes and runs into a loop behind the last one never ends. */
  lemma {:induction false} NoWayOut(tab: Tab, tab': Tab, h: nat, p: seq<nat>, x: nat, q: seq<nat>)
    requires IsPath(tab, h, p) && KeepsBut(tab, tab', Last(p)) && Last(p) in tab' && tab'[Last(p)].next == x
    requires PointsAtItself(tab', x) && x != ANODE_EOF && ANODE_EOF !in p
    ensures !IsRun(TabRead(tab'), h, q)
    decreases |p|
  {
    assert p[0] in p;
    if IsRun(TabRead(tab'), h, q) {
      if |p| == 1 {
        LoopNeverEnds(TabRead(tab'), x, q[1..]);
      } else {
        var r := p[1..];
        assert forall i :: 0 <= i < |r| ==> r[i] == p[i + 1];
        assert IsPath(tab, p[1], r) && Last(r) == Last(p);
        assert p[0] != Last(p);
        NoWayOut(tab, tab', p[1], r, x, q[1..]);
      }
    }
  }

  /** What appending `nr` behind the chain of `h` has done to the anodes. */
  lemma Appended(tab: Tab, f: Tab, f': Tab, h: nat, p: seq<nat>, nr: nat)
    requires IsPath(tab, h, p) && ANODE_EOF !in tab && Last(p) in tab && !Vacant(tab[Last(p)])
             && f' == PutTab(f, Last(p), tab[Last(p)].(next := nr)) && KeepsAnodes(tab, f)
    ensures KeepsBut(tab, f', Last(p))
    ensures PointsAtItself(f, nr) && nr !in tab && nr != ANODE_EOF ==> forall q :: !IsRun(TabRead(f'), h, q)
  {
    hide IsRun, Last;
    if PointsAtItself(f, nr) && nr !in tab && nr != ANODE_EOF {
      assert ANODE_EOF !in p;
      hide IsPath;
      forall q ensures !IsRun(TabRead(f'), h, q) { NoWayOut(tab, f', h, p, nr, q); }
    }
  }

  lemma PatchedDated(dirs: Dirs, b: nat, i: nat, n: nat, stamp: Stamp)
    requires b in dirs && i < |dirs[b]|
    ensures Dated(dirs[b := dirs[b][i := PatchSize(dirs[b][i], n, stamp)]], dirs[b][i].anode, stamp)
  {
    var d': Dirs := dirs[b := dirs[b][i := PatchSize(dirs[b][i], n, stamp)]];
    assert d'[b][i].anode == dirs[b][i].anode && d'[b][i].stamp == stamp;
  }

  /** In a consistent volume the entry of a head is the only one that names it. */
  lemma DatedIs(g: Geo, o: Own, sect: Sectors, h: nat, stamp: Stamp)
    requires Dated(o.f.dirs, h, stamp) && Inv(g, o, sect)
    ensures h in o.w.ent && o.w.ent[h].stamp == stamp
  {
    hide Chains, Nodes, Cover, Area, Kinds, Heads, Parents, Names, SectorsOk, Contents, Ranked;
    var b, i :| b in o.f.dirs && 0 <= i < |o.f.dirs[b]| && o.f.dirs[b][i].anode == h && o.f.dirs[b][i].stamp == stamp;
    EntryAt(o.f.dirs, o.w.ent, o.w.home, b, i);
  }

  /** A patched entry still names its head. */
  lemma PatchedMentions(dirs: Dirs, b: nat, i: nat, n: nat, stamp: Stamp)
    requires b in dirs && i < |dirs[b]|
    ensures Mentioned(dirs[b := dirs[b][i := PatchSize(dirs[b][i], n, stamp)]], dirs[b][i].anode)
  {
    var d': Dirs := dirs[b := dirs[b][i := PatchSize(dirs[b][i], n, stamp)]];
    assert d'[b][i].anode == dirs[b][i].anode;
  }

  lemma IsStuck(f: Flat, h: nat)
    requires Mentioned(f.dirs, h) && forall q :: !IsRun(TabRead(f.tab), h, q)
    ensures Stuck(f, h)
  {
  }

  /** What the anode of an entry covers when it is the only block of its head. */
  lemma OwnBlock(g: Geo, o: Own, sect: Sectors, h: nat, nb: nat)
    requires h in o.w.path && h in o.f.tab && o.f.tab[h] == Slot(1, nb, ANODE_EOF) && Inv(g, o, sect)
    ensures nb in o.w.owner && o.w.owner[nb] == h && h in o.w.node && o.w.node[h] == h
    ensures h !in o.w.dh ==> InData(g, nb)
  {
    hide Chains, Nodes, Cover, Area, Kinds, Entries, Heads, Parents, Names, SectorsOk, Contents, Ranked, IsPath;
    ChainsAt(o.f.tab, o.w.path, h);
    HeadNode(o.f.tab, o.w.path, o.w.node, h);
    BlockOwner(g, o.f.tab, o.f.dirs, o.w.node, o.w.owner, o.w.dh, h, nb);
  }

  lemma HeadNode(tab: Tab, path: map<nat, seq<nat>>, node: Link, h: nat)
    requires Nodes(tab, path, node) && h in path && IsPath(tab, h, path[h])
    ensures h in node && node[h] == h
  {
    assert path[h][0] == h;
    assert h in path[h];
  }

  lemma BlockOwner(g: Geo, tab: Tab, dirs: Dirs, node: Link, owner: Link, dh: set<nat>, a: nat, x: nat)
    requires Cover(tab, owner) && Kinds(g, tab, dirs, node, dh) && a in tab && tab[a] == Slot(1, x, ANODE_EOF)
    ensures x in owner && owner[x] == a && a in node && (node[a] !in dh ==> InData(g, x))
  {
    assert InExt(tab[a], x);
  }

  /** Neither is a head whose anode has become that of the reserved block its entry is in: the head of a
      file would own a block outside the data area, a directory would lie inside itself. */
  lemma UsurpedUnreadable(g: Geo, f: Flat, sect: Sectors, h: nat, nb: nat, e: Entry)
    requires Usurped(f, h, nb, e) && !InData(g, nb)
    ensures !HasReading(g, f, sect)
  {
    hide Inv;
    forall o: Own | o.f == f ensures !Inv(g, o, sect) {
      if Inv(g, o, sect) { UsurpedClash(g, o, sect, h, nb, e); }
    }
  }

  lemma UsurpedClash(g: Geo, o: Own, sect: Sectors, h: nat, nb: nat, e: Entry)
    requires Usurped(o.f, h, nb, e) && !InData(g, nb)
    ensures !Inv(g, o, sect)
  {
    hide Chains, Nodes, Cover, Area, Kinds, Entries, Heads, Parents, Names, SectorsOk, Contents, Ranked;
    if Inv(g, o, sect) {
      assert o.f.dirs[nb][0] == e;
      EntryAt(o.f.dirs, o.w.ent, o.w.home, nb, 0);
      HeadFacts(o.w.path, o.w.ent, o.w.dh, o.fl, h);
      OwnBlock(g, o, sect, h, nb);
      ParentOf(o.w.node, o.w.owner, o.w.home, o.w.par, o.w.dh, h);
      ParentDiffers(g, o, sect, h);
    }
  }

  /** Anodes of `tab` but one keep their records. */
  ghost predicate KeepsBut(tab: Tab, tab': Tab, t: nat) {
    forall nr :: nr in tab && nr != t ==> nr in tab' && tab'[nr] == tab[nr]
  }

  lemma PlaceKeepsBut(f: Flat, bl: seq<nat>, p: seq<nat>, e: Entry, pl: Placed)
    requires PlacedOk(f, bl, pl)
    ensures KeepsBut(f.tab, PlaceFlat(f, p, e, pl).tab, Last(p))
  {
    hide Last;
  }

  /** A chain built from fresh anodes reads back as long as those keep their records. */
  lemma ChainReadsAs(g: Geo, o: Own, sect0: Sectors, p: seq<nat>, rs: seq<Run>, grown: set<nat>, tab': Tab, t: nat,
                     data: Bytes)
    requires NewChain(o, p, rs, grown) && |p| == |rs| > 0 && t in o.f.tab
             && KeepsBut(o.f.tab + ChainTab(p, rs), tab', t)
    requires |data| <= |AllBlocks(rs)| * g.bs && Inv(g, o, sect0) && ANODE_EOF !in o.f.tab
    ensures ReadsAs(g, tab', WriteSome(g.bs, sect0, AllBlocks(rs), data, 0, |AllBlocks(rs)|), p[0], data)
  {
    hide Inv, AllBlocks, ChainTab, WriteSome, IsRun, Blocks, ReadData, NewChain, Elems, NoDup;
    NewChainDistinct(o, p, rs, grown);
    NewChainFresh(o, p, rs, grown);
    ChainTabPath(p, rs);
    ChainInTab(o.f.tab, p, rs);
    NewAgree(o.f.tab, tab', p, rs, t);
    PathFrame(o.f.tab + ChainTab(p, rs), tab', p[0], p);
    NewNotEof(o, p, rs, grown);
    NewRun(tab', p[0], p);
    var sect := WriteSome(g.bs, sect0, AllBlocks(rs), data, 0, |AllBlocks(rs)|);
    WrittenReads(g.bs, sect0, AllBlocks(rs), data, |data|);
    assert data[..|data|] == data;
    NewInData(g, o, sect0, p, rs, grown);
  }

  lemma NewNotEof(o: Own, p: seq<nat>, rs: seq<Run>, grown: set<nat>)
    requires NewChain(o, p, rs, grown)
    ensures ANODE_EOF !in p
  {
  }

  /** A path of anodes other than the end marker is what following them gives. */
  lemma {:induction false} NewRun(tab: Tab, h: nat, p: seq<nat>)
    requires IsPath(tab, h, p) && ANODE_EOF !in p
    ensures IsRun(TabRead(tab), h, p)
    decreases |p|
  {
    assert p[0] in p;
    if |p| > 1 {
      var q := p[1..];
      assert forall i :: 0 <= i < |q| ==> q[i] == p[i + 1];
      assert forall i, j :: 0 <= i < j < |q| && j == i + 1 ==> tab[q[i]].next == q[j];
      NewRun(tab, p[1], q);
    } else {
      assert p[1..] == [];
    }
  }

  lemma NewAgree(tab: Tab, tab': Tab, p: seq<nat>, rs: seq<Run>, t: nat)
    requires |p| == |rs| && AllNew(p, tab) && t in tab && KeepsBut(tab + ChainTab(p, rs), tab', t)
    ensures Agree(tab + ChainTab(p, rs), tab', p)
  {
    hide ChainTab;
    ChainTabKeys(p, rs);
  }

  lemma NewInData(g: Geo, o: Own, sect: Sectors, p: seq<nat>, rs: seq<Run>, grown: set<nat>)
    requires NewChain(o, p, rs, grown) && Inv(g, o, sect)
    ensures InDataAll(g, AllBlocks(rs))
  {
    hide Chains, Nodes, Cover, Kinds, Entries, Heads, Parents, Names, SectorsOk, Contents, Ranked, AllBlocks;
    forall i | 0 <= i < |AllBlocks(rs)|
      ensures InData(g, AllBlocks(rs)[i]) { assert AllBlocks(rs)[i] in Elems(AllBlocks(rs)); }
  }

  // ---------------------------------------------------------------- creating a file

  /** A block and an anode were added for the entry, behind anode `t`. With no slot left the anode is the
      first of a new anode block, whatever that number stood for. */
  ghost predicate Extension(g: Geo, miss: nat, base: Tab, t: nat, f: Flat, f': Flat, e: Entry, pl: Placed) {
    && pl.NewBlock? && pl.nb in f.resFree && f'.dirs == f.dirs[pl.nb := [e]]
    && (pl.nr !in base ==> pl.nr in f'.tab && f'.tab[pl.nr] == Slot(1, pl.nb, ANODE_EOF))
    && (g.stride > 0 && Left(g, miss, f.tab) == 0 ==> pl.nr == Enc(g, miss, ANODE_USERFIRST))
    && (g.stride > 0 && Ungrown(g, miss, base) && KeepsAnodes(base, f.tab) ==> KeepsBut(base, f'.tab, t))
  }

  /** One more anode leaves those from before the transaction alone. */
  lemma AllocKeeps(g: Geo, miss: nat, base: Tab, tab: Tab, x: Slot, nr: nat, tab': Tab)
    requires GeoOk(g) && g.stride > 0 && AllocStep(g, CapSet(g, miss), miss, tab, x, nr, tab')
    requires Ungrown(g, miss, base) && KeepsAnodes(base, tab)
    ensures KeepsAnodes(base, tab')
  {
    EncUngrown(g, miss, base);
    hide CapSet, SeqOf, OffOf, Enc;
  }


  lemma Extended1(g: Geo, miss: nat, base: Tab, f: Flat, f2: Flat, f': Flat, t: nat, x: Slot, e: Entry, nb: nat,
                  nr: nat,
                  grown: set<nat>)
    requires GeoOk(g) && g.stride > 0 && nb in f.resFree && f2.dirs == f.dirs[nb := [e]] && t in base && !Vacant(x)
    requires AllocStep(g, CapSet(g, miss), miss, f.tab, Slot(1, nb, ANODE_EOF), nr, f2.tab)
    requires f'.dirs == f2.dirs && f'.tab == PutTab(f2.tab, t, x)
    ensures Extension(g, miss, base, t, f, f', e, NewBlock(nb, nr, grown))
  {
    hide AllocStep, CapSet, Enc, Left, Ungrown, GeoOk;
    if Ungrown(g, miss, base) && KeepsAnodes(base, f.tab) {
      AllocKeeps(g, miss, base, f.tab, Slot(1, nb, ANODE_EOF), nr, f2.tab);
    }
    NextTop(g, miss, f.tab, Slot(1, nb, ANODE_EOF), nr, f2.tab);
  }

  lemma SlotsLeftIs(g: Geo, miss: nat, f: Flat)
    requires g.stride > 0 && Ungrown(g, miss, f.tab)
    ensures SlotsLeft(g, miss, f) == Left(g, miss, f.tab) + 1
  {
    hide CapSet, Ungrown;
  }

  lemma EncPositive(g: Geo, miss: nat)
    ensures Enc(g, miss, ANODE_USERFIRST) != ANODE_EOF
  {
  }

  lemma EncUngrown(g: Geo, miss: nat, tab: Tab)
    requires GeoOk(g) && Ungrown(g, miss, tab)
    ensures Enc(g, miss, ANODE_USERFIRST) !in tab
  {
    EncInverse(g, miss, ANODE_USERFIRST);
  }

  /** The chain of directory `d` is as committed. */
  ghost predicate ChainKept(o: Own, d: nat, f: Flat) {
    d in o.w.path && Agree(o.f.tab, f.tab, o.w.path[d])
  }

  lemma KeptIsKept(o: Own, d: nat, f: Flat)
    requires DirChain(o, d) && KeepsAnodes(o.f.tab, f.tab)
    ensures ChainKept(o, d, f)
  {
    hide Blocks, AllIn;
  }

  ghost function TailOf(o: Own, d: nat): nat {
    if d in o.w.path then Last(o.w.path[d]) else 0
  }

  lemma TailIs(o: Own, d: nat)
    requires d in o.w.path
    ensures TailOf(o, d) == Last(o.w.path[d])
  {
  }

  /** The entry was added to directory `d`: to a block of its chain, or behind it. */
  ghost predicate Entered(g: Geo, miss: nat, o: Own, d: nat, e: Entry, f: Flat, f': Flat, pl: Placed, room: bool,
                          kept: bool) {
    && (room ==>
          && pl.InBlock? && pl.b in f.dirs && d in o.w.path && pl.b in Blocks(o.f.tab, o.w.path[d]) && f'.tab == f.tab
          && f'.resFree == f.resFree && f'.dirs == f.dirs[pl.b := f.dirs[pl.b] + [e]])
    && (!room ==> Extension(g, miss, o.f.tab, TailOf(o, d), f, f', e, pl))
    && (kept ==> KeepsBut(f.tab, f'.tab, TailOf(o, d)))
  }

  /** The anodes of a new chain of `runs` runs, headed by `h`. */
  ghost predicate Chained(g: Geo, miss: nat, o: Own, e: Entry, h: nat, runs: nat, f: Flat) {
    && e.anode == h && Left(g, miss, f.tab) == Over(Left(g, miss, o.f.tab), runs)
    && (runs >= Left(g, miss, o.f.tab) + 2 ==> PointsAtItself(f.tab, h))
    && (runs >= Left(g, miss, o.f.tab) + 1 ==> h == Enc(g, miss, ANODE_USERFIRST))
  }

  /** Wherever the entry went, no anode from before the transaction has changed but the directory's last. */
  lemma EnteredKeeps(g: Geo, miss: nat, o: Own, d: nat, e: Entry, f: Flat, f': Flat, pl: Placed, room: bool,
                     kept: bool)
    requires Entered(g, miss, o, d, e, f, f', pl, room, kept) && g.stride > 0 && Ungrown(g, miss, o.f.tab)
             && KeepsAnodes(o.f.tab, f.tab)
    ensures KeepsBut(o.f.tab, f'.tab, TailOf(o, d))
  {
    hide Left, Enc, Ungrown, Blocks;
  }

  lemma EnteredDated(g: Geo, miss: nat, o: Own, d: nat, e: Entry, f: Flat, f': Flat, pl: Placed, room: bool, kept: bool)
    requires Entered(g, miss, o, d, e, f, f', pl, room, kept)
    ensures Dated(f'.dirs, e.anode, e.stamp)
  {
    hide Left, Enc, Ungrown, Blocks, KeepsBut, KeepsAnodes;
    var b, i := if room then pl.b else pl.nb, if room then |f.dirs[pl.b]| else 0;
    assert b in f'.dirs && i < |f'.dirs[b]| && f'.dirs[b][i] == e;
  }

  lemma BuiltStamp(name: Name, etype: int, anode: nat, fsize: nat, protection: nat, stamp: Stamp)
    ensures BuildEntry(name, etype, anode, fsize, protection, stamp).stamp == stamp
            && BuildEntry(name, etype, anode, fsize, protection, stamp).anode == anode
  {
  }

  lemma EnteredMentions(g: Geo, miss: nat, o: Own, d: nat, e: Entry, f: Flat, f': Flat, pl: Placed, room: bool,
                        kept: bool)
    requires Entered(g, miss, o, d, e, f, f', pl, room, kept)
    ensures Mentioned(f'.dirs, e.anode)
  {
    hide Left, Enc, Ungrown, Blocks, KeepsBut, KeepsAnodes;
    var b, i := if room then pl.b else pl.nb, if room then |f.dirs[pl.b]| else 0;
    assert b in f'.dirs && i < |f'.dirs[b]| && f'.dirs[b][i] == e;
  }

  /** The new block of the directory has taken the head of the file. */
  lemma GapTaken(g: Geo, miss: nat, o: Own, d: nat, e: Entry, h: nat, runs: nat, f: Flat, f': Flat, pl: Placed)
    requires GeoOk(g) && g.stride > 0 && Ungrown(g, miss, o.f.tab) && Chained(g, miss, o, e, h, runs, f)
    requires Extension(g, miss, o.f.tab, TailOf(o, d), f, f', e, pl) && runs >= Left(g, miss, o.f.tab) + 1
    ensures pl.NewBlock? && Usurped(f', h, pl.nb, e) && pl.nb in f.resFree && h != ANODE_EOF
  {
    hide Left, Enc, Ungrown, GeoOk;
    EncUngrown(g, miss, o.f.tab);
    EncPositive(g, miss);
  }

  /** The head of a new file reads back exactly when the anodes needed got different numbers. */
  lemma CreateOutcome(g: Geo, miss: nat, o: Own, sect0: Sectors, sect: Sectors, d: nat, name: Name, data: Bytes,
                      stamp: Stamp, e: Entry, h: nat, runs: nat, p: seq<nat>, rs: seq<Run>, grown: set<nat>, f: Flat,
                      f': Flat, pl: Placed)
    requires GeoOk(g) && g.stride > 0 && Ungrown(g, miss, o.f.tab) && Chained(g, miss, o, e, h, runs, f)
    requires Entered(g, miss, o, d, e, f, f', pl, FileExtra(g, o, d, name, |data|, stamp) == 0,
                     Numbered(g, miss, o, d, name, |data|, stamp)) && runs == RunsOf(g, o, |data|)
    requires f.resFree <= o.f.resFree && |data| <= |AllBlocks(rs)| * g.bs && ANODE_EOF !in o.f.tab
             && TailOf(o, d) in o.f.tab
    requires sect == WriteSome(g.bs, sect0, AllBlocks(rs), data, 0, |AllBlocks(rs)|)
    requires Numbered(g, miss, o, d, name, |data|, stamp) ==>
               NewChain(o, p, rs, grown) && |p| == |rs| > 0 && p[0] == h && f.tab == o.f.tab + ChainTab(p, rs)
    requires Inv(g, o, sect0)
    ensures ReadsAs(g, f'.tab, sect, h, data) <==> Numbered(g, miss, o, d, name, |data|, stamp)
    ensures !Numbered(g, miss, o, d, name, |data|, stamp) ==> !HasReading(g, f', sect)
    ensures GapCreate(g, miss, o, d, name, |data|, stamp) ==> pl.NewBlock? && Usurped(f', h, pl.nb, e)
    ensures LoopingCreate(g, miss, o, d, name, |data|, stamp) ==> PointsAtItself(f'.tab, h)
  {
    hide RoomIn, Left, Enc, Ungrown, GeoOk, Inv, NewChain, ChainTab, AllBlocks, WriteSome, ReadsAs, BuildEntry, RunsOf,
         KeepsBut, SlotsLeft, FileExtra, HasReading, Mentioned;
    SlotsLeftIs(g, miss, o.f);
    assert FileExtra(g, o, d, name, |data|, stamp) <= 1 by { ExtraOne(g, o, d, name, |data|, stamp); }
    if Numbered(g, miss, o, d, name, |data|, stamp) {
      ChainReadsAs(g, o, sect0, p, rs, grown, f'.tab, TailOf(o, d), data);
    } else if FileExtra(g, o, d, name, |data|, stamp) == 0 {
      EncPositive(g, miss);
      LoopReads(g, f'.tab, sect, h, data);
      EnteredMentions(g, miss, o, d, e, f, f', pl, true, false);
      LoopUnreadable(g, f', sect, h);
    } else {
      GapTaken(g, miss, o, d, e, h, runs, f, f', pl);
      ResNotData(g, o, sect0, pl.nb);
      UsurpedReads(g, f', sect, h, pl.nb, e, data);
      UsurpedUnreadable(g, f', sect, h, pl.nb, e);
    }
  }

  lemma ExtraOne(g: Geo, o: Own, d: nat, name: Name, size: nat, stamp: Stamp)
    ensures FileExtra(g, o, d, name, size, stamp) <= 1
  {
    hide RoomIn;
  }

  /** The directory has to grow, and its new block gets the number of the file's head. */
  ghost predicate GapCreate(g: Geo, miss: nat, o: Own, d: nat, name: Name, size: nat, stamp: Stamp) {
    FileExtra(g, o, d, name, size, stamp) != 0 && !Numbered(g, miss, o, d, name, size, stamp)
  }

  lemma ResNotData(g: Geo, o: Own, sect: Sectors, b: nat)
    requires Inv(g, o, sect) && b in o.f.resFree
    ensures !InData(g, b)
  {
    hide Chains, Nodes, Cover, Kinds, Entries, Heads, Parents, Names, SectorsOk, Contents, Ranked, InReserved;
  }

  // ---------------------------------------------------------------- making a directory

  /** A block and an anode were taken for a new directory. */
  ghost predicate DirTaken(g: Geo, miss: nat, o: Own, f: Flat, sys: set<nat>, h: nat, nb: nat, grown: set<nat>) {
    && g.stride > 0 && h !in o.f.tab && h != ANODE_EOF && nb in o.f.resFree && grown <= o.f.resFree - {nb}
    && f.tab == o.f.tab[h := Slot(1, nb, ANODE_EOF)] && f.dirs == o.f.dirs[nb := []] && f.free == o.f.free
    && f.resFree == o.f.resFree - {nb} - grown && sys == o.sys + grown && ANODE_EOF !in f.tab
    && Supply(g, CapSet(g, miss), miss, f.tab) == Supply(g, CapSet(g, miss), miss, o.f.tab) - 1
    && Left(g, miss, f.tab) == Over(Left(g, miss, o.f.tab), 1)
    && |f.resFree| == |o.f.resFree| - 1 - Over(1, Left(g, miss, o.f.tab))
    && (Left(g, miss, o.f.tab) == 0 ==> h == Enc(g, miss, ANODE_USERFIRST))
  }

  /** Everything to name the new directory, from what was taken. */
  lemma TakenReady(g: Geo, miss: nat, o: Own, sect: Sectors, d: nat, name: Name, stamp: Stamp, h: nat, nb: nat,
                   grown: set<nat>, f: Flat, sys: set<nat>)
    requires DirTaken(g, miss, o, f, sys, h, nb, grown) && DirChain(o, d) && o.fl == {} && |name| <= NAME_MAX
    requires |o.f.resFree| > 0 && Enough(g, miss, Left(g, miss, o.f.tab), |o.f.resFree| - 1, 1, 0) && Inv(g, o, sect)
    ensures var e := BuildEntry(name, ST_USERDIR, h, 0, 0, stamp);
            && e.name == name && (RoomAmong(g.rbs, o, d, f.dirs, e) <==> MakeExtra(g, o, d, name, stamp) == 0)
            && BlocksAmong(o, d, f.dirs) && ChainKept(o, d, f) && Chained(g, miss, o, e, h, 1, f)
            && (MakeNumbered(g, miss, o, d, name, stamp) ==> FreshAmong(g, miss, o, f, d, e))
            && (NamedAmong(o, d, f.dirs, name) <==> (d, Canon(name)) in o.fs)
            && (CleanMake(g, miss, o, d, name, stamp) ==> Makeable(g, miss, o, f, sys, d, e, h, nb, grown, name))
    ensures d == ANODE_ROOTDIR || Mentioned(f.dirs, d)
    ensures CanMake(g, miss, o, d, name, stamp) <==> MakeExtra(g, o, d, name, stamp) == 0 || RoomFor(g, miss, f, 1, 1)
    ensures ReserveOf(f, sys) == ReserveOf(o.f, o.sys)
  {
    hide BuildEntry, Blocks, Inv, AllIn, Agree, Canon, Supply, CapSet, NamedAmong, MakeExtra, RoomAmong, BlocksAmong,
         FreshAmong, CleanMake, Makeable, MakeNumbered, IsPath, Left, Enc, CanMake, RoomFor, Enough, ReserveOf,
           Mentioned;
    MakeReady(g, miss, o, sect, d, name, stamp, h, nb, grown, f);
    MakeLeft(g, miss, o, f, d, name, stamp);
    NewDirReserve(o.f, f, o.sys, nb, grown);
    MentionedNew(g, o, sect, d, nb, f);
  }

  lemma TakenFitted(g: Geo, miss: nat, o: Own, f: Flat, sys: set<nat>, h: nat, nb: nat, grown: set<nat>)
    requires DirTaken(g, miss, o, f, sys, h, nb, grown) && Fitted(g.rbs, o.f.dirs) && g.rbs >= 1024
    ensures Fitted(g.rbs, f.dirs)
  {
    hide Supply, CapSet, Left, Enc, Fitted;
    FittedEmpty(g.rbs, o.f.dirs, nb);
  }

  lemma WideBlocks(g: Geo)
    requires GeoOk(g)
    ensures g.rbs >= 1024
  {
  }

  /** How it ends. */
  lemma MakeEnds(g: Geo, miss: nat, o: Own, sect: Sectors, d: nat, name: Name, stamp: Stamp, h: nat, nb: nat,
                 grown: set<nat>, f: Flat, f': Flat, sys: set<nat>, pl: Placed, room: bool, kept: bool)
    requires DirTaken(g, miss, o, f, sys, h, nb, grown) && DirChain(o, d) && GeoOk(g) && Ungrown(g, miss, o.f.tab)
    requires var e := BuildEntry(name, ST_USERDIR, h, 0, 0, stamp);
             Entered(g, miss, o, d, e, f, f', pl, room, kept) && Chained(g, miss, o, e, h, 1, f)
    requires (room <==> MakeExtra(g, o, d, name, stamp) == 0) && (MakeNumbered(g, miss, o, d, name, stamp) ==> kept)
    requires Inv(g, o, sect)
    ensures ListsNothing(f', h) <==> MakeNumbered(g, miss, o, d, name, stamp)
    ensures !MakeNumbered(g, miss, o, d, name, stamp) ==>
              pl.NewBlock? && Usurped(f', h, pl.nb, BuildEntry(name, ST_USERDIR, h, 0, 0, stamp))
              && !HasReading(g, f', sect)
    ensures KeepsBut(o.f.tab, f'.tab, TailOf(o, d)) && Dated(f'.dirs, h, stamp)
    ensures PlainMake(g, miss, o, d, name, stamp) ==>
              Left(g, miss, f'.tab) == Left(g, miss, o.f.tab) - 1 && |f'.resFree| == |o.f.resFree| - 1
  {
    hide BuildEntry, Blocks, Inv, AllIn, Supply, CapSet, MakeExtra, MakeNumbered, IsPath, Left, Enc, ListsNothing,
         Usurped, HasReading, KeepsBut, TailOf, Dated,
         PlainMake, Entered, Chained, GeoOk, Ungrown;
    var e := BuildEntry(name, ST_USERDIR, h, 0, 0, stamp);
    TailIn(g, o, sect, d);
    EnteredAs(g, miss, o, d, e, f, f', pl, room, MakeNumbered(g, miss, o, d, name, stamp));
    EnteredKeeps(g, miss, o, d, e, f, f', pl, room, kept);
    EnteredDated(g, miss, o, d, e, f, f', pl, room, kept);
    BuiltStamp(name, ST_USERDIR, h, 0, 0, stamp);
    MakeOutcome(g, miss, o, sect, d, name, stamp, e, h, nb, f, f', pl);
    if PlainMake(g, miss, o, d, name, stamp) { PlainLeft(g, miss, o, d, name, stamp, e, f, f', pl); }
  }

  /** With slots and reserved blocks to spare, making a directory under a name in use succeeds. */
  lemma SecondMake(g: Geo, miss: nat, o: Own, d: nat, name: Name, stamp: Stamp)
    requires g.stride > 0 && Left(g, miss, o.f.tab) >= 2 && |o.f.resFree| >= 2 && (d, Canon(name)) in o.fs
    ensures CanMake(g, miss, o, d, name, stamp) && DoubleMake(g, miss, o, d, name, stamp)
  {
    hide CapSet, Canon, RoomIn, BuildEntry, Registrable;
  }

  lemma MentionedMore(dirs: Dirs, nb: nat, d: nat)
    requires Mentioned(dirs, d) && nb !in dirs
    ensures Mentioned(dirs[nb := []], d)
  {
    var b, i :| b in dirs && 0 <= i < |dirs[b]| && dirs[b][i].anode == d;
    assert dirs[nb := []][b][i] == dirs[b][i];
  }

  /** A new directory lists nothing exactly when the anodes needed got different numbers; otherwise it lists
      itself. */
  lemma MakeOutcome(g: Geo, miss: nat, o: Own, sect: Sectors, d: nat, name: Name, stamp: Stamp, e: Entry, h: nat,
                    nb: nat,
                    f: Flat, f': Flat, pl: Placed)
    requires GeoOk(g) && g.stride > 0 && Ungrown(g, miss, o.f.tab) && Chained(g, miss, o, e, h, 1, f)
    requires Entered(g, miss, o, d, e, f, f', pl, MakeExtra(g, o, d, name, stamp) == 0,
                     MakeNumbered(g, miss, o, d, name, stamp))
    requires nb in o.f.resFree && f.resFree <= o.f.resFree - {nb} && f.dirs == o.f.dirs[nb := []]
    requires h !in o.f.tab && h != ANODE_EOF && f.tab == o.f.tab[h := Slot(1, nb, ANODE_EOF)] && TailOf(o, d) in o.f.tab
    requires AllIn(if d in o.w.path then Blocks(o.f.tab, o.w.path[d]) else [], o.f.dirs)
    requires Inv(g, o, sect)
    ensures ListsNothing(f', h) <==> MakeNumbered(g, miss, o, d, name, stamp)
    ensures !ListsNothing(f', h) ==> pl.NewBlock? && Usurped(f', h, pl.nb, e) && !HasReading(g, f', sect)
  {
    hide RoomIn, Left, Enc, Ungrown, GeoOk, Inv, ListsNothing, BuildEntry, SlotsLeft, Blocks, HasReading;
    SlotsLeftIs(g, miss, o.f);
    if MakeNumbered(g, miss, o, d, name, stamp) {
      ResFreeNotDir(g, o, sect, nb);
      EmptyListed(f', h, nb);
    } else {
      GapTaken(g, miss, o, d, e, h, 1, f, f', pl);
      ResNotData(g, o, sect, pl.nb);
      UsurpedReads(g, f', sect, h, pl.nb, e, []);
      UsurpedUnreadable(g, f', sect, h, pl.nb, e);
    }
  }

  lemma EmptyListed(f: Flat, h: nat, nb: nat)
    requires h in f.tab && f.tab[h] == Slot(1, nb, ANODE_EOF) && h != ANODE_EOF && nb in f.dirs && f.dirs[nb] == []
    ensures ListsNothing(f, h)
  {
    OneRun(f.tab, h, nb, [h]);
    hide IsRun, Blocks;
    assert [nb][..0] == [];
    assert Listing(f.dirs, [nb]) == Listing(f.dirs, []) + [];
  }

  // ---------------------------------------------------------------- glue

  lemma IsChained(g: Geo, miss: nat, o: Own, e: Entry, h: nat, runs: nat, f: Flat)
    requires e.anode == h && Left(g, miss, f.tab) == Over(Left(g, miss, o.f.tab), runs)
    requires runs >= Left(g, miss, o.f.tab) + 2 ==> PointsAtItself(f.tab, h)
    requires runs >= Left(g, miss, o.f.tab) + 1 ==> h == Enc(g, miss, ANODE_USERFIRST)
    ensures Chained(g, miss, o, e, h, runs, f)
  {
    hide Left, Enc;
  }

  lemma EnteredAs(g: Geo, miss: nat, o: Own, d: nat, e: Entry, f: Flat, f': Flat, pl: Placed, room: bool, kept: bool)
    requires exists more: bool :: Entered(g, miss, o, d, e, f, f', pl, room, more) && (kept ==> more)
    ensures Entered(g, miss, o, d, e, f, f', pl, room, kept)
  {
    hide Extension, KeepsBut, Blocks;
  }

  lemma TailIn(g: Geo, o: Own, sect: Sectors, d: nat)
    requires d in o.w.path && Inv(g, o, sect)
    ensures TailOf(o, d) in o.f.tab
  {
    hide Nodes, Cover, Area, Kinds, Entries, Heads, Parents, Names, SectorsOk, Contents, Ranked;
    assert IsPath(o.f.tab, d, o.w.path[d]);
  }

  /** What adding an entry has done, in either case. */
  lemma IsEntered(g: Geo, miss: nat, o: Own, d: nat, e: Entry, f: Flat, f': Flat, pl: Placed, room: bool, kept: bool)
    requires d in o.w.path && (kept ==> f' == PlaceFlat(f, o.w.path[d], e, pl)
                                        && PlacedOk(f, Blocks(o.f.tab, o.w.path[d]), pl))
    requires room ==> pl.InBlock? && PlacedOk(f, Blocks(o.f.tab, o.w.path[d]), pl)
                      && f' == PlaceFlat(f, o.w.path[d], e, pl)
    requires !room ==> Extension(g, miss, o.f.tab, TailOf(o, d), f, f', e, pl)
    ensures Entered(g, miss, o, d, e, f, f', pl, room, kept)
  {
    hide Extension, KeepsBut, Blocks, JoinTab, Last;
    if kept { PlaceKeepsBut(f, Blocks(o.f.tab, o.w.path[d]), o.w.path[d], e, pl); }
  }

  lemma MentionedNew(g: Geo, o: Own, sect: Sectors, d: nat, nb: nat, f: Flat)
    requires d in o.w.dh && o.fl == {} && nb in o.f.resFree && f.dirs == o.f.dirs[nb := []] && Inv(g, o, sect)
    ensures d == ANODE_ROOTDIR || Mentioned(f.dirs, d)
  {
    hide Inv, Mentioned;
    HeadKnown(g, o, sect, d);
    ResFreeNotDir(g, o, sect, nb);
    if d != ANODE_ROOTDIR { MentionedMore(o.f.dirs, nb, d); }
  }

  lemma MakeCases(g: Geo, miss: nat, o: Own, d: nat, name: Name, stamp: Stamp)
    ensures CleanMake(g, miss, o, d, name, stamp) <==> MakeNumbered(g, miss, o, d, name, stamp)
                                                       && (d, Canon(name)) !in o.fs
    ensures DoubleMake(g, miss, o, d, name, stamp) <==> MakeNumbered(g, miss, o, d, name, stamp)
                                                        && (d, Canon(name)) in o.fs
    ensures MakeNumbered(g, miss, o, d, name, stamp) && MakeExtra(g, o, d, name, stamp) != 0 ==>
              1 <= Left(g, miss, o.f.tab)
    ensures PlainMake(g, miss, o, d, name, stamp) ==> MakeExtra(g, o, d, name, stamp) == 0
                                                      && 1 <= Left(g, miss, o.f.tab)
  {
    hide Left, SlotsLeft, Canon, RoomIn;
    SupplyLeft(g, miss, o.f);
  }

  /** A vacant slot is left and the parent has room. */
  ghost predicate PlainMake(g: Geo, miss: nat, o: Own, d: nat, name: Name, stamp: Stamp) {
    MakeExtra(g, o, d, name, stamp) == 0 && Left(g, miss, o.f.tab) > 0
  }

  lemma PlainLeft(g: Geo, miss: nat, o: Own, d: nat, name: Name, stamp: Stamp, e: Entry, f: Flat, f': Flat, pl: Placed)
    requires PlainMake(g, miss, o, d, name, stamp) && Left(g, miss, f.tab) == Over(Left(g, miss, o.f.tab), 1)
    requires |f.resFree| == |o.f.resFree| - 1 - Over(1, Left(g, miss, o.f.tab))
    requires Entered(g, miss, o, d, e, f, f', pl, MakeExtra(g, o, d, name, stamp) == 0,
                     MakeNumbered(g, miss, o, d, name, stamp))
    ensures Left(g, miss, f'.tab) == Left(g, miss, o.f.tab) - 1 && |f'.resFree| == |o.f.resFree| - 1
  {
    hide Left, MakeExtra, MakeNumbered, Extension, KeepsBut, Blocks;
  }
}
