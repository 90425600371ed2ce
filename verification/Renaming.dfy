/** Renaming: an entry moves to another name or directory while its chain stays. */
module Renaming {
  import opened Types
  import opened Bitmap
  import opened Anodes
  import opened Ownership
  import opened Table
  import opened Runs
  import opened Transitions
  import opened Guarantees
  import opened Directory
  import opened Steps
  import opened Layout
  import opened SectorData
  import opened Compose
  import opened Overwriting

  // ---------------------------------------------------------------- the tree as users see it

  /** `d` is the root directory or some name denotes it. */
  ghost predicate DirIn(fs: FS, d: nat) {
    d == ANODE_ROOTDIR || exists k :: k in fs && fs[k].anode == d && fs[k].entryType == ST_USERDIR
  }

  lemma DirInIff(g: Geo, o: Own, sect: Sectors, d: nat)
    requires o.fl == {} && Inv(g, o, sect)
    ensures DirIn(o.fs, d) <==> d in o.w.dh
  {
    hide Chains, Nodes, Cover, Area, Kinds, Entries, Parents, SectorsOk, Contents, Ranked, Canon;
    if DirIn(o.fs, d) && d != ANODE_ROOTDIR {
      var k :| k in o.fs && o.fs[k].anode == d && o.fs[k].entryType == ST_USERDIR;
      var h := o.fs[k].anode;
      assert h in o.w.ent && Key(o.w.par, o.w.ent, h) == k;
    }
    if d in o.w.dh && d != ANODE_ROOTDIR {
      var k := Key(o.w.par, o.w.ent, d);
      assert k in o.fs && o.fs[k] == Describe(o.w.ent[d], o.w.data[d]);
    }
  }

  lemma {:induction false} DescentMonotone(fs: FS, fs': FS, r: seq<(nat, Name)>, h: nat, x: nat)
    requires IsDescent(fs', r, h, x) && forall k :: k in fs' ==> k in fs && fs[k] == fs'[k]
    ensures IsDescent(fs, r, h, x)
  {
    if |r| > 0 { DescentMonotone(fs, fs', r[..|r| - 1], h, r[|r| - 1].0); }
  }

  /** Removing names puts nothing inside anything. */
  lemma InsideLess(fs: FS, ks: set<(nat, Name)>, x: nat, h: nat)
    requires Inside(fs - ks, x, h)
    ensures Inside(fs, x, h)
  {
    var r :| IsDescent(fs - ks, r, h, x);
    DescentMonotone(fs, fs - ks, r, h, x);
  }

  /** Removing a file or an empty directory does not cut a route to where something is named. */
  lemma {:induction false} DescentKept(fs: FS, k2: (nat, Name), r: seq<(nat, Name)>, h: nat, x: nat)
    requires IsDescent(fs, r, h, x) && !Occupied(fs, k2) && HasKids(fs, x)
    ensures IsDescent(fs - {k2}, r, h, x)
    decreases |r|
  {
    if |r| > 0 {
      var k := r[|r| - 1];
      DescentKept(fs, k2, r[..|r| - 1], h, k.0);
    }
  }

  lemma InsideKept(fs: FS, k2: (nat, Name), h: nat)
    requires k2 in fs && Inside(fs, k2.0, h) && !Occupied(fs, k2)
    ensures Inside(fs - {k2}, k2.0, h)
  {
    var r :| IsDescent(fs, r, h, k2.0);
    DescentKept(fs, k2, r, h, k2.0);
  }

  /** In the witness tree, lying under `h` means lying inside it. */
  lemma {:induction false} UnderInside(fs: FS, w: Wit, x: nat, h: nat)
    requires Names(fs, w.par, w.ent, w.data) && Ranked(w.ent, w.par, w.dh, w.rank) && DirsAreDirs(w.ent, w.dh)
    requires h in w.ent && Ranked(w.ent - {h}, w.par - {h}, w.dh, w.rank)
    requires Under(w.ent - {h}, w.par - {h}, w.dh, w.rank, x, h)
    ensures Inside(fs, x, h)
    decreases if x in w.rank then w.rank[x] else 0
  {
    hide Inside, Canon;
    if x == h {
      InsideSelf(fs, h);
    } else {
      UnderInside(fs, w, (w.par - {h})[x], h);
      var k := Key(w.par, w.ent, x);
      assert k in fs && fs[k] == Describe(w.ent[x], w.data[x]);
      InsideStep(fs, k, h);
    }
  }

  ghost predicate DirsAreDirs(ent: map<nat, Entry>, dh: set<nat>) {
    forall h :: h in ent ==> (h in dh <==> IsDir(ent[h]))
  }

  // ---------------------------------------------------------------- the moved entry

  /** The entry written under the new name. */
  function MovedEntry(e: Entry, name: Name, stamp: Stamp): Entry {
    BuildEntry(name, e.entryType, e.anode, FileSize(e), e.protection, stamp)
  }

  /** The object under its new name: same chain, same contents. */
  ghost function MovedObj(x: Obj, name: Name): Obj {
    x.(name := name)
  }

  lemma MovedEntryIs(e: Entry, name: Name, stamp: Stamp, d: Bytes)
    requires |name| <= NAME_MAX
    ensures var e' := MovedEntry(e, name, stamp);
            && e'.anode == e.anode && e'.name == name && (IsDir(e') <==> IsDir(e))
               && Describe(e', d) == MovedObj(Describe(e, d), name)
            && (FileSize(e) < U32 * U16 ==> FileSize(e') == FileSize(e))
  {
    BuildSize(name, e.entryType, e.anode, FileSize(e), e.protection, stamp);
    assert name[..|name|] == name;
  }

  lemma MovedStamp(e: Entry, name: Name, stamp: Stamp)
    ensures MovedEntry(e, name, stamp).stamp == stamp && MovedEntry(e, name, stamp).anode == e.anode
  {
  }

  /** An entry that was placed is there with its date, whatever was removed before. */
  lemma PlacedDated(f: Flat, bl: seq<nat>, p: seq<nat>, e: Entry, pl: Placed, b: nat, i: nat)
    requires PlacedOk(f, bl, pl) && b in f.dirs && i < |f.dirs[b]|
    ensures Dated(PlaceFlat(LessEntry(f, b, i), p, e, pl).dirs, e.anode, e.stamp)
  {
    hide JoinTab, Last;
    var less := LessEntry(f, b, i);
    var dirs := PlaceFlat(less, p, e, pl).dirs;
    var c, j := if pl.InBlock? then pl.b else pl.nb, if pl.InBlock? then |less.dirs[pl.b]| else 0;
    assert c in dirs && j < |dirs[c]| && dirs[c][j] == e;
  }

  lemma MovedSnug(rbs: nat, e: Entry, name: Name, stamp: Stamp)
    requires rbs >= 1024 && |name| <= NAME_MAX
    ensures SnugIn(rbs, MovedEntry(e, name, stamp))
  {
    hide SnugIn, BuildEntry;
    BuiltSnug(rbs, name, e.entryType, e.anode, FileSize(e), e.protection, stamp);
  }

  lemma MovedContent(g: Geo, tab: Tab, p: seq<nat>, e: Entry, e': Entry, d: Bytes, sect: Sectors)
    requires Content(g, tab, p, e, d, sect) && (IsDir(e') <==> IsDir(e)) && (!IsDir(e) ==> FileSize(e') == FileSize(e))
    ensures Content(g, tab, p, e', d, sect)
  {
  }

  /** What the chain of a named head holds, under its old entry and under the moved one. */
  lemma MovedReads(g: Geo, o: Own, sect: Sectors, h: nat, name: Name, stamp: Stamp)
    requires GeoOk(g) && h in o.w.ent && h in o.w.par && h in o.w.path && |name| <= NAME_MAX && Inv(g, o, sect)
    ensures h in o.w.data && Content(g, o.f.tab, o.w.path[h], MovedEntry(o.w.ent[h], name, stamp), o.w.data[h], sect)
  {
    hide Chains, Nodes, Cover, Area, Kinds, Entries, Heads, Parents, Names, SectorsOk, Contents, Ranked, Blocks,
         Content, MovedEntry, FileSize, GeoOk,
         OldBlocks, InDataAll, NoDup;
    var e := o.w.ent[h];
    MovedEntryIs(e, name, stamp, []);
    HeadFacts(o.w.path, o.w.ent, o.w.dh, o.fl, h);
    ContentAt(g, o.f.tab, o.w.path, o.w.ent, o.w.data, sect, h);
    if !IsDir(e) {
      FileFacts(g, o, sect, h);
      ShortOfLimit(g, OldBlocks(o, h), FileSize(e));
    }
    MovedContent(g, o.f.tab, o.w.path[h], e, MovedEntry(e, name, stamp), o.w.data[h], sect);
  }

  lemma ContentAt(g: Geo, tab: Tab, path: map<nat, seq<nat>>, ent: map<nat, Entry>, data: map<nat, Bytes>,
                  sect: Sectors, h: nat)
    requires Contents(g, tab, path, ent, data, sect) && h in ent
    ensures h in data && h in path && Content(g, tab, path[h], ent[h], data[h], sect)
  {
    hide Content;
  }

  // ---------------------------------------------------------------- the move

  /** `h` without its name, its subtree ranked above directory `dd`. */
  ghost function Unnamed(o: Own, b: nat, i: nat, h: nat, dd: nat): Own {
    if !(At(o.f.dirs, b, i, h) && h in o.w.par && h in o.w.ent) then o else
    var o1 := Leave(o, b, i, h);
    if Ranked(o1.w.ent, o1.w.par, o1.w.dh, o1.w.rank)
    then Rerank(o1, Lift(o1.w.ent, o1.w.par, o1.w.dh, o1.w.rank, h, RankOf(o, dd)))
    else o1
  }

  lemma UnnamedKeeps(g: Geo, o: Own, sect: Sectors, b: nat, i: nat, h: nat, dd: nat)
    requires At(o.f.dirs, b, i, h) && h in o.w.par && h in o.w.ent && Inv(g, o, sect)
    ensures Inv(g, Unnamed(o, b, i, h, dd), sect)
  {
    hide Chains, Nodes, Cover, Area, Kinds, Entries, Heads, Parents, Names, SectorsOk, Contents, Ranked, Key, Without,
         Lift;
    LeaveKeeps(g, o, sect, b, i, h);
    var o1 := Leave(o, b, i, h);
    LiftRanked(o1.w.node, o1.w.owner, o1.w.home, o1.w.ent, o1.w.par, o1.w.dh, o1.w.rank, h, RankOf(o, dd));
    RerankKeeps(g, o1, sect, Lift(o1.w.ent, o1.w.par, o1.w.dh, o1.w.rank, h, RankOf(o, dd)));
  }

  lemma UnnamedShape(g: Geo, o: Own, sect: Sectors, b: nat, i: nat, h: nat, dd: nat)
    requires At(o.f.dirs, b, i, h) && h in o.w.par && h in o.w.ent && o.fl == {} && Inv(g, o, sect)
    ensures var o1 := Unnamed(o, b, i, h, dd);
            && o1.f == Flat(o.f.tab, o.f.dirs[b := Without(o.f.dirs[b], i)], o.f.free, o.f.resFree)
            && o1.w.path == o.w.path && o1.w.dh == o.w.dh && o1.fl == {h} && o1.sys == o.sys
            && o1.fs == o.fs - {Key(o.w.par, o.w.ent, h)}
  {
    hide Inv, Key, Without, Lift, Ranked;
  }

  lemma UnnamedRank(g: Geo, o: Own, sect: Sectors, b: nat, i: nat, h: nat, dd: nat)
    requires At(o.f.dirs, b, i, h) && h in o.w.par && h in o.w.ent && h in o.w.dh && dd in o.w.dh && Inv(g, o, sect)
    requires !Inside(o.fs, dd, h)
    ensures var o1 := Unnamed(o, b, i, h, dd); h in o1.w.rank && dd in o1.w.rank && o1.w.rank[dd] < o1.w.rank[h]
  {
    hide Chains, Nodes, Cover, Area, Kinds, Entries, Parents, Names, SectorsOk, Contents, Key, Without, Inside;
    var o1 := Leave(o, b, i, h);
    assert Ranked(o.w.ent - {h}, o.w.par - {h}, o.w.dh, o.w.rank);
    assert h in o.w.rank && dd in o.w.rank;
    hide Ranked, Heads;
    KindsOf(o.w.path, o.w.ent, o.w.dh, o.fl);
    if Under(o.w.ent - {h}, o.w.par - {h}, o.w.dh, o.w.rank, dd, h) { UnderInside(o.fs, o.w, dd, h); }
  }

  lemma KindsOf(path: map<nat, seq<nat>>, ent: map<nat, Entry>, dh: set<nat>, fl: set<nat>)
    requires Heads(path, ent, dh, fl)
    ensures DirsAreDirs(ent, dh)
  {
  }

  /** What makes a move possible, possibly of a directory into itself. */
  ghost predicate Portable(o: Own, b: nat, i: nat, h: nat, dd: nat, name: Name) {
    && At(o.f.dirs, b, i, h) && h in o.w.par && h in o.w.ent && h in o.w.path && dd in o.w.dh && dd in o.w.path
       && o.fl == {}
    && (dd, Canon(name)) !in o.fs - {Key(o.w.par, o.w.ent, h)} && |name| <= NAME_MAX
  }

  ghost predicate Movable(o: Own, b: nat, i: nat, h: nat, dd: nat, name: Name) {
    Portable(o, b, i, h, dd, name) && (h in o.w.dh ==> !Inside(o.fs, dd, h))
  }

  ghost function MovedOwn(o: Own, b: nat, i: nat, h: nat, dd: nat, name: Name, stamp: Stamp, pl: Placed): Own {
    var o1 := Unnamed(o, b, i, h, dd);
    if h in o.w.ent && h in o.w.data && dd in o1.w.path
    then PlaceOwn(o1, dd, MovedEntry(o.w.ent[h], name, stamp), pl, o.w.data[h]) else o1
  }

  lemma MovedPuttable(g: Geo, o: Own, sect: Sectors, b: nat, i: nat, h: nat, dd: nat, name: Name, stamp: Stamp)
    requires GeoOk(g) && Portable(o, b, i, h, dd, name) && Inv(g, o, sect)
    ensures h in o.w.data && CanPut(g, Unnamed(o, b, i, h, dd), sect, dd, MovedEntry(o.w.ent[h], name, stamp),
                                    o.w.data[h])
  {
    hide Chains, Nodes, Cover, Area, Kinds, Entries, Heads, Parents, Names, SectorsOk, Contents, Ranked, Key, Content,
         Unnamed, MovedEntry, GeoOk,
         IsDir, Without, Canon;
    UnnamedShape(g, o, sect, b, i, h, dd);
    MovedReads(g, o, sect, h, name, stamp);
    MovedEntryIs(o.w.ent[h], name, stamp, o.w.data[h]);
    HeadFacts(o.w.path, o.w.ent, o.w.dh, o.fl, h);
    NamesAt(o.fs, o.w.par, o.w.ent, o.w.data, h);
  }

  lemma MovedNameable(g: Geo, o: Own, sect: Sectors, b: nat, i: nat, h: nat, dd: nat, name: Name, stamp: Stamp)
    requires GeoOk(g) && Movable(o, b, i, h, dd, name) && Inv(g, o, sect)
    ensures h in o.w.data && CanName(g, Unnamed(o, b, i, h, dd), sect, dd, MovedEntry(o.w.ent[h], name, stamp),
                                     o.w.data[h])
  {
    hide Inv, Content, Unnamed, MovedEntry, Inside, GeoOk, IsDir, Canon;
    MovedPuttable(g, o, sect, b, i, h, dd, name, stamp);
    MovedEntryIs(o.w.ent[h], name, stamp, o.w.data[h]);
    UnnamedShape(g, o, sect, b, i, h, dd);
    DirOrNot(g, o, sect, h, dd);
    InsideSelf(o.fs, h);
    if h in o.w.dh { UnnamedRank(g, o, sect, b, i, h, dd); }
  }

  lemma DirOrNot(g: Geo, o: Own, sect: Sectors, h: nat, dd: nat)
    requires h in o.w.ent && Inv(g, o, sect)
    ensures o.w.ent[h].anode == h && (h !in o.w.dh && dd in o.w.dh ==> h != dd)
  {
    hide Chains, Nodes, Cover, Area, Kinds, Entries, Heads, Parents, SectorsOk, Contents, Ranked, Key;
  }

  /** Moving an entry: its old name is gone, its new name denotes the same object. */
  lemma MovedKeeps(g: Geo, o: Own, sect: Sectors, b: nat, i: nat, h: nat, dd: nat, name: Name, stamp: Stamp, pl: Placed)
    requires GeoOk(g) && Movable(o, b, i, h, dd, name) && PlacedOk(o.f, Blocks(o.f.tab, o.w.path[dd]), pl)
             && Inv(g, o, sect)
    ensures Inv(g, MovedOwn(o, b, i, h, dd, name, stamp, pl), sect)
            && Relocated(o, MovedOwn(o, b, i, h, dd, name, stamp, pl), b, i, h, dd, name, stamp, pl)
  {
    hide Inv, Blocks, Canon, CanName, PlaceOwn, PlacedOk, PlaceFlat, PlaceSys, Describe, IsDir, Unnamed, MovedEntry,
         Inside, Key, GeoOk, MovedObj, Without;
    UnnamedKeeps(g, o, sect, b, i, h, dd);
    UnnamedShape(g, o, sect, b, i, h, dd);
    MovedNameable(g, o, sect, b, i, h, dd, name, stamp);
    MovedEntryIs(o.w.ent[h], name, stamp, o.w.data[h]);
    var o1 := Unnamed(o, b, i, h, dd);
    PlacedSame(o.f, o1.f, Blocks(o.f.tab, o.w.path[dd]), pl);
    PlaceKeeps(g, o1, sect, dd, MovedEntry(o.w.ent[h], name, stamp), o.w.data[h], pl);
    ObjAt(g, o, sect, h);
  }

  /** Moving an entry anywhere, even into what it names: everything holds but the order of directories. */
  lemma MovedLoose(g: Geo, o: Own, sect: Sectors, b: nat, i: nat, h: nat, dd: nat, name: Name, stamp: Stamp, pl: Placed)
    requires GeoOk(g) && Portable(o, b, i, h, dd, name) && PlacedOk(o.f, Blocks(o.f.tab, o.w.path[dd]), pl)
             && Inv(g, o, sect)
    ensures Loose(g, MovedOwn(o, b, i, h, dd, name, stamp, pl), sect)
            && Relocated(o, MovedOwn(o, b, i, h, dd, name, stamp, pl), b, i, h, dd, name, stamp, pl)
  {
    hide Inv, Loose, Blocks, Canon, CanPut, PlaceOwn, PlacedOk, PlaceFlat, PlaceSys, Describe, IsDir, Unnamed,
         MovedEntry, Key, GeoOk, MovedObj, Without;
    UnnamedKeeps(g, o, sect, b, i, h, dd);
    UnnamedShape(g, o, sect, b, i, h, dd);
    MovedPuttable(g, o, sect, b, i, h, dd, name, stamp);
    MovedEntryIs(o.w.ent[h], name, stamp, o.w.data[h]);
    var o1 := Unnamed(o, b, i, h, dd);
    PlacedSame(o.f, o1.f, Blocks(o.f.tab, o.w.path[dd]), pl);
    PlaceLoose(g, o1, sect, dd, MovedEntry(o.w.ent[h], name, stamp), o.w.data[h], pl);
    ObjAt(g, o, sect, h);
  }

  lemma ObjAt(g: Geo, o: Own, sect: Sectors, h: nat)
    requires h in o.w.ent && h in o.w.par && Inv(g, o, sect)
    ensures h in o.w.data && Key(o.w.par, o.w.ent, h) in o.fs
            && o.fs[Key(o.w.par, o.w.ent, h)] == Describe(o.w.ent[h], o.w.data[h])
    ensures o.w.ent[h].anode == h
  {
    hide Chains, Nodes, Cover, Area, Kinds, Entries, Heads, Parents, Names, SectorsOk, Contents, Ranked, Key;
    NamesAt(o.fs, o.w.par, o.w.ent, o.w.data, h);
  }

  ghost function LessEntry(f: Flat, b: nat, i: nat): Flat {
    if b in f.dirs && i < |f.dirs[b]| then Flat(f.tab, f.dirs[b := Without(f.dirs[b], i)], f.free, f.resFree) else f
  }

  /** `o'` is `o` with the object of `h` moved. */
  ghost predicate Relocated(o: Own, o': Own, b: nat, i: nat, h: nat, dd: nat, name: Name, stamp: Stamp, pl: Placed) {
    && h in o.w.par && h in o.w.ent && dd in o.w.path && o'.fl == {} && o'.sys == PlaceSys(o.sys, pl)
    && o'.f == PlaceFlat(LessEntry(o.f, b, i), o.w.path[dd], MovedEntry(o.w.ent[h], name, stamp), pl)
    && var k := Key(o.w.par, o.w.ent, h);
       k in o.fs && o'.fs == (o.fs - {k})[(dd, Canon(name)) := MovedObj(o.fs[k], name)]
  }

  lemma PlacedSame(f: Flat, f': Flat, bl: seq<nat>, pl: Placed)
    requires PlacedOk(f, bl, pl) && f'.tab == f.tab && f'.resFree == f.resFree && f'.dirs.Keys == f.dirs.Keys
    ensures PlacedOk(f', bl, pl)
  {
  }

  // ---------------------------------------------------------------- adding first, removing second

  ghost predicate Clear(bl: seq<nat>, pl: Placed, e: Entry, name: Name) {
    pl.InBlock? && pl.b in bl ==> !NameEqCi(e.name, name)
  }

  /** Adding an entry in one place and removing one from another can be done in either order. */
  lemma EitherOrder(f: Flat, p: seq<nat>, bd: seq<nat>, e: Entry, pl: Placed, b: nat, i: nat)
    requires PlacedOk(f, bd, pl) && f.resFree !! f.dirs.Keys && b in f.dirs && i < |f.dirs[b]|
    ensures LessEntry(PlaceFlat(f, p, e, pl), b, i) == PlaceFlat(LessEntry(f, b, i), p, e, pl)
  {
    hide JoinTab, Last;
    match pl
    case InBlock(c) =>
      if c == b {
        var es := f.dirs[b];
        assert Without(es + [e], i) == Without(es, i) + [e];
        assert f.dirs[b := es + [e]][b := Without(es + [e], i)]
                 == f.dirs[b := Without(es, i)][b := Without(es, i) + [e]];
      } else {
        assert f.dirs[c := f.dirs[c] + [e]][b := Without(f.dirs[b], i)]
                 == f.dirs[b := Without(f.dirs[b], i)][c := f.dirs[c] + [e]];
      }
    case NewBlock(nb, nr, grown) =>
      assert nb != b;
      assert f.dirs[nb := [e]][b := Without(f.dirs[b], i)] == f.dirs[b := Without(f.dirs[b], i)][nb := [e]];
  }

  /** The entry found under the old name after the new one was added is the old one. */
  lemma FoundOld(f: Flat, p: seq<nat>, bl: seq<nat>, bd: seq<nat>, e: Entry, pl: Placed, b: nat, i: nat, name: Name)
    requires PlacedOk(f, bd, pl) && AllIn(bl, f.dirs) && Clear(bl, pl, e, name) && f.resFree !! f.dirs.Keys
    requires Named(PlaceFlat(f, p, e, pl).dirs, bl, b, i, name)
    ensures Named(f.dirs, bl, b, i, name)
    ensures LessEntry(PlaceFlat(f, p, e, pl), b, i) == PlaceFlat(LessEntry(f, b, i), p, e, pl)
  {
    hide NameEqCi, JoinTab, Last;
    assert b in f.dirs by { InAll(bl, f.dirs, b); }
    assert Named(f.dirs, bl, b, i, name);
    EitherOrder(f, p, bd, e, pl, b, i);
  }

  lemma InAll(bl: seq<nat>, dirs: Dirs, b: nat)
    requires AllIn(bl, dirs)
    ensures b in bl ==> b in dirs
  {
  }

  lemma StillNamed(f: Flat, p: seq<nat>, bl: seq<nat>, bd: seq<nat>, e: Entry, pl: Placed, name: Name)
    requires PlacedOk(f, bd, pl) && AllIn(bl, f.dirs) && f.resFree !! f.dirs.Keys && !NoneNamed(f.dirs, bl, name)
    ensures AllIn(bl, PlaceFlat(f, p, e, pl).dirs) && !NoneNamed(PlaceFlat(f, p, e, pl).dirs, bl, name)
  {
    hide NameEqCi, JoinTab, Last;
    var d' := PlaceFlat(f, p, e, pl).dirs;
    var b, j :| b in bl && b in f.dirs && 0 <= j < |f.dirs[b]| && NameEqCi(f.dirs[b][j].name, name);
    assert b in d' && j < |d'[b]| && d'[b][j] == f.dirs[b][j];
  }

  /** In another directory the new entry cannot be found; in the same one its name differs. */
  lemma ClearOf(g: Geo, o: Own, sect: Sectors, sd: nat, sname: Name, dd: nat, e: Entry, pl: Placed)
    requires sd in o.w.dh && dd in o.w.dh && sd in o.w.path && dd in o.w.path && Inv(g, o, sect)
             && (sd, Canon(sname)) != (dd, Canon(e.name))
    requires PlacedOk(o.f, Blocks(o.f.tab, o.w.path[dd]), pl)
    ensures Clear(Blocks(o.f.tab, o.w.path[sd]), pl, e, sname)
  {
    hide Chains, Nodes, Cover, Area, Kinds, Entries, Heads, Parents, Names, SectorsOk, Contents, Ranked, Blocks, Canon,
         NameEqCi;
    NameEqIsCanon(e.name, sname);
    if pl.InBlock? && sd != dd { Disjoint(o, dd, sd, pl.b); }
  }

  lemma ResApart(g: Geo, o: Own, sect: Sectors)
    requires Inv(g, o, sect)
    ensures o.f.resFree !! o.f.dirs.Keys
  {
    hide Chains, Nodes, Cover, Kinds, Entries, Heads, Parents, Names, SectorsOk, Contents, Ranked;
  }

  /** Between operations there is always room for at least one more anode. */
  lemma SupplyPositive(g: Geo, dev: Store, base: Flat, dabk: Link, miss: nat)
    requires CommOk(g, dev, base, dabk, miss)
    ensures g.stride > 0 && Supply(g, CapSet(g, miss), miss, base.tab) > 0
  {
    hide SeqOf, OffOf, IndexTie, BlocksTie, DirTie, CapSet;
    assert Ungrown(g, miss, base.tab);
  }

  lemma LessNamed(f: Flat, bl: seq<nat>, b: nat, i: nat, name: Name)
    requires Named(f.dirs, bl, b, i, name)
    ensures b in f.dirs && i < |f.dirs[b]|
            && LessEntry(f, b, i) == Flat(f.tab, f.dirs[b := Without(f.dirs[b], i)], f.free, f.resFree)
  {
    hide NameEqCi;
  }

  /** The new name denotes what the old one did. */
  ghost predicate Renamed(fs: FS, fs': FS, k1: (nat, Name), k2: (nat, Name), name: Name) {
    k1 in fs && fs' == (fs - {k1})[k2 := MovedObj(fs[k1], name)]
  }

  /** A directory would move into itself. */
  ghost predicate IntoItself(fs: FS, k1: (nat, Name), dd: nat) {
    k1 in fs && fs[k1].entryType == ST_USERDIR && Inside(fs, dd, fs[k1].anode)
  }

  /** The device holds a whole volume that shows `fs`. */
  ghost predicate Whole(g: Geo, dev: Store, base: Flat, dabk: Link, miss: nat, sect: Sectors, fs: FS) {
    CommOk(g, dev, base, dabk, miss) && exists o: Own {:trigger Inv(g, o, sect)} :: o.f == base && o.fs == fs
                                                                                    && o.fl == {} && Inv(g, o, sect)
  }

  lemma IsWhole(g: Geo, dev: Store, base: Flat, dabk: Link, miss: nat, sect: Sectors, o: Own)
    requires CommOk(g, dev, base, dabk, miss) && o.f == base && o.fl == {} && Inv(g, o, sect)
    ensures Whole(g, dev, base, dabk, miss, sect, o.fs)
  {
    hide CommOk, Inv;
  }

  lemma NothingLost(fs: FS, k: (nat, Name))
    requires k !in fs
    ensures fs - {k} == fs && !Occupied(fs, k)
  {
  }

  lemma Reordered(fs: FS, k1: (nat, Name), k2: (nat, Name), name: Name)
    requires k1 in fs && k1 != k2
    ensures forall fs' :: Renamed(fs - {k2}, fs', k1, k2, name) ==> Renamed(fs, fs', k1, k2, name)
  {
    assert (fs - {k2})[k1] == fs[k1];
    assert (fs - {k2} - {k1})[k2 := MovedObj(fs[k1], name)] == (fs - {k1})[k2 := MovedObj(fs[k1], name)];
  }

  lemma RelocatedFlat(o: Own, o': Own, b: nat, i: nat, h: nat, dd: nat, name: Name, stamp: Stamp, pl: Placed)
    requires Relocated(o, o', b, i, h, dd, name, stamp, pl)
    ensures h in o.w.par && h in o.w.ent && dd in o.w.path && o'.fl == {} && o'.sys == PlaceSys(o.sys, pl)
    ensures o'.f == PlaceFlat(LessEntry(o.f, b, i), o.w.path[dd], MovedEntry(o.w.ent[h], name, stamp), pl)
    ensures var k := Key(o.w.par, o.w.ent, h);
            k in o.fs && o'.fs == (o.fs - {k})[(dd, Canon(name)) := MovedObj(o.fs[k], name)]
  {
  }

  lemma ListedThere(dirs: Dirs, bl: seq<nat>, e: Entry, name: Name)
    requires e in Listing(dirs, bl) && NameEqCi(e.name, name)
    ensures !NoneNamed(dirs, bl, name)
  {
    hide NameEqCi, Listing;
    var b, i := ListedAt(dirs, bl, e, name);
  }

  /** Deleting the destination disturbs neither directory nor the object to move. */
  lemma AfterDelete(g: Geo, o: Own, sect: Sectors, o': Own, k1: (nat, Name), k2: (nat, Name), h: nat)
    requires k1 in o.fs && k2 in o.fs && k1 != k2 && h in o.w.ent && h in o.w.par && o.fs[k1].anode == h
             && k1.0 in o.w.dh && k2.0 in o.w.dh
    requires o'.fs == o.fs - {k2} && o'.w.ent == o.w.ent - {o.fs[k2].anode} && o.fl == {} && o'.fl == {}
    requires !Occupied(o.fs, k2)
    requires Inv(g, o, sect) && Inv(g, o', sect)
    ensures k1.0 in o'.w.dh && k2.0 in o'.w.dh && h in o'.w.ent && h in o'.w.par && o'.w.ent[h] == o.w.ent[h]
            && Key(o'.w.par, o'.w.ent, h) == k1
    ensures h in o'.w.dh <==> h in o.w.dh
    ensures IntoItself(o'.fs, k1, k2.0) <==> IntoItself(o.fs, k1, k2.0)
  {
    hide Inv, DirIn, Inside, Key;
    NamedBy(g, o, sect, k1);
    NamedBy(g, o, sect, k2);
    NamedBy(g, o', sect, k1);
    DirInIff(g, o, sect, k1.0);
    DirInIff(g, o, sect, k2.0);
    DirInIff(g, o', sect, k1.0);
    DirInIff(g, o', sect, k2.0);
    DirInIff(g, o, sect, h);
    DirInIff(g, o', sect, h);
    OneName(g, o, sect, k1, k2);
    StaysDir(o.fs, k2, k1.0, k1);
    StaysDir(o.fs, k2, k2.0, k2);
    StaysDirObj(o.fs, k2, h);
    if Inside(o'.fs, k2.0, h) { InsideLess(o.fs, {k2}, k2.0, h); }
    if Inside(o.fs, k2.0, h) { InsideKept(o.fs, k2, h); }
  }

  lemma NamedBy(g: Geo, o: Own, sect: Sectors, k: (nat, Name))
    requires k in o.fs && Inv(g, o, sect)
    ensures o.fs[k].anode in o.w.ent && o.fs[k].anode in o.w.par && Key(o.w.par, o.w.ent, o.fs[k].anode) == k
  {
    hide Chains, Nodes, Cover, Area, Kinds, Entries, Heads, Parents, SectorsOk, Contents, Ranked, Key;
  }

  /** Some name in directory `d` is the same but for the case of its letters. */
  ghost predicate Listed(fs: FS, d: nat, name: Name) {
    exists k :: k in fs && k.0 == d && Alike(fs[k].name, name)
  }

  /** A name is in use exactly when the directory has it in some spelling. */
  lemma ListedIff(g: Geo, o: Own, sect: Sectors, d: nat, name: Name)
    requires Inv(g, o, sect)
    ensures (d, Canon(name)) in o.fs <==> Listed(o.fs, d, name)
  {
    hide Inv, Canon, Alike;
    forall k | k in o.fs ensures k == (k.0, Canon(o.fs[k].name)) { SpelledKey(g, o, sect, k); }
    if (d, Canon(name)) in o.fs { SameNameIff(o.fs[(d, Canon(name))].name, name); }
    if Listed(o.fs, d, name) {
      var k :| k in o.fs && k.0 == d && Alike(o.fs[k].name, name);
      SameNameIff(o.fs[k].name, name);
    }
  }

  lemma SpelledKey(g: Geo, o: Own, sect: Sectors, k: (nat, Name))
    requires k in o.fs && Inv(g, o, sect)
    ensures k == (k.0, Canon(o.fs[k].name))
  {
    hide Inv, Canon;
    NamedBy(g, o, sect, k);
    ObjAt(g, o, sect, o.fs[k].anode);
  }

  lemma OneName(g: Geo, o: Own, sect: Sectors, k1: (nat, Name), k2: (nat, Name))
    requires k1 in o.fs && k2 in o.fs && k1 != k2 && Inv(g, o, sect)
    ensures o.fs[k1].anode != o.fs[k2].anode
  {
    hide Inv, Key;
    NamedBy(g, o, sect, k1);
    NamedBy(g, o, sect, k2);
  }

  lemma StaysDir(fs: FS, k2: (nat, Name), d: nat, kid: (nat, Name))
    requires DirIn(fs, d) && k2 in fs && kid in fs && kid.0 == d && !Occupied(fs, k2)
    ensures DirIn(fs - {k2}, d)
  {
    if d != ANODE_ROOTDIR {
      var k :| k in fs && fs[k].anode == d && fs[k].entryType == ST_USERDIR;
      assert k != k2;
      assert k in fs - {k2} && (fs - {k2})[k] == fs[k];
    }
  }

  lemma StaysDirObj(fs: FS, k2: (nat, Name), h: nat)
    requires k2 in fs && fs[k2].anode != h
    ensures DirIn(fs - {k2}, h) <==> DirIn(fs, h)
  {
    if DirIn(fs, h) && h != ANODE_ROOTDIR {
      var k :| k in fs && fs[k].anode == h && fs[k].entryType == ST_USERDIR;
      assert k in fs - {k2} && (fs - {k2})[k] == fs[k];
    }
    if DirIn(fs - {k2}, h) && h != ANODE_ROOTDIR {
      var k :| k in fs - {k2} && (fs - {k2})[k].anode == h && (fs - {k2})[k].entryType == ST_USERDIR;
      assert k in fs && fs[k] == (fs - {k2})[k];
    }
  }

  lemma HeadFactsOf(g: Geo, o: Own, sect: Sectors, h: nat)
    requires h in o.w.ent && Inv(g, o, sect)
    ensures h in o.w.path && (h in o.w.dh <==> IsDir(o.w.ent[h]))
  {
    hide Chains, Nodes, Cover, Area, Kinds, Entries, Parents, Names, SectorsOk, Contents, Ranked;
  }

  // ---------------------------------------------------------------- moving a directory into itself

  /** Names and objects correspond one to one, and none of them is the root directory. */
  ghost predicate Tree(fs: FS) {
    && (forall j, k :: j in fs && k in fs && fs[j].anode == fs[k].anode ==> j == k)
    && (forall k :: k in fs ==> fs[k].anode != ANODE_ROOTDIR)
  }

  lemma TreeOf(g: Geo, o: Own, sect: Sectors)
    requires Inv(g, o, sect)
    ensures Tree(o.fs)
  {
    hide Inv;
    forall j, k | j in o.fs && k in o.fs && o.fs[j].anode == o.fs[k].anode ensures j == k {
      if j != k { OneName(g, o, sect, j, k); }
    }
    forall k | k in o.fs ensures o.fs[k].anode != ANODE_ROOTDIR {
      NamedBy(g, o, sect, k);
      NotRoot(g, o, sect, o.fs[k].anode);
    }
  }

  lemma NotRoot(g: Geo, o: Own, sect: Sectors, h: nat)
    requires h in o.w.ent && Inv(g, o, sect)
    ensures h != ANODE_ROOTDIR
  {
    hide Chains, Nodes, Cover, Area, Kinds, Entries, Parents, Names, SectorsOk, Contents, Ranked;
  }

  ghost function Moved(fs: FS, k1: (nat, Name), k2: (nat, Name), name: Name): FS
    requires k1 in fs
  {
    (fs - {k1})[k2 := MovedObj(fs[k1], name)]
  }

  /** Being inside `h` passes up to the directory that names it. */
  lemma InsideUp(fs: FS, k: (nat, Name), h: nat)
    requires Tree(fs) && k in fs && fs[k].anode != h && Inside(fs, fs[k].anode, h)
    ensures Inside(fs, k.0, h)
  {
    var q :| IsDescent(fs, q, h, fs[k].anode);
    assert q[|q| - 1] == k;
    assert IsDescent(fs, q[..|q| - 1], h, k.0);
  }

  lemma RootOutside(fs: FS, h: nat)
    requires Tree(fs) && h != ANODE_ROOTDIR
    ensures !Inside(fs, ANODE_ROOTDIR, h)
  {
    forall q ensures !IsDescent(fs, q, h, ANODE_ROOTDIR) { }
  }

  /** After a directory has moved into itself, no route from the root leads to anything that was
      inside it. */
  lemma {:induction false} NoWayIn(fs: FS, k1: (nat, Name), k2: (nat, Name), name: Name, r: seq<(nat, Name)>, x: nat)
    requires Tree(fs) && k1 in fs && k2 !in fs && Inside(fs, k2.0, fs[k1].anode)
    requires IsDescent(Moved(fs, k1, k2, name), r, ANODE_ROOTDIR, x)
    ensures !Inside(fs, x, fs[k1].anode)
    decreases |r|
  {
    hide Inside;
    var h := fs[k1].anode;
    if |r| == 0 {
      RootOutside(fs, h);
    } else {
      var k := r[|r| - 1];
      NoWayIn(fs, k1, k2, name, r[..|r| - 1], k.0);
      if k != k2 && Inside(fs, x, h) { InsideUp(fs, k, h); }
    }
  }

  /** A route to something outside the moved directory still works after the move. */
  lemma {:induction false} StillThere(fs: FS, k1: (nat, Name), k2: (nat, Name), name: Name, r: seq<(nat, Name)>, x: nat)
    requires Tree(fs) && k1 in fs && fs[k1].entryType == ST_USERDIR && k2 !in fs && IsDescent(fs, r, ANODE_ROOTDIR, x)
             && !Inside(fs, x, fs[k1].anode)
    ensures IsDescent(Moved(fs, k1, k2, name), r, ANODE_ROOTDIR, x)
    decreases |r|
  {
    hide Inside;
    var h := fs[k1].anode;
    InsideSelf(fs, h);
    if |r| > 0 {
      var k := r[|r| - 1];
      if Inside(fs, k.0, h) { InsideStep(fs, k, h); }
      StillThere(fs, k1, k2, name, r[..|r| - 1], k.0);
    }
  }

  /** Moving a directory leaves it reachable exactly when it does not move into itself. */
  lemma MoveReachableIff(g: Geo, o: Own, sect: Sectors, k1: (nat, Name), k2: (nat, Name), name: Name)
    requires k1 in o.fs && o.fs[k1].entryType == ST_USERDIR && k2 !in o.fs && k2.0 in o.w.dh && o.fl == {}
             && Inv(g, o, sect)
    ensures ReachableDir(Moved(o.fs, k1, k2, name), o.fs[k1].anode) <==> !IntoItself(o.fs, k1, k2.0)
  {
    hide Chains, Nodes, Cover, Area, Kinds, Entries, Heads, Parents, Names, SectorsOk, Contents, Ranked, Tree;
    DirectoriesReachable(o.fs, o.w, k2.0);
    TreeOf(g, o, sect);
    hide Inv;
    var fs', h := Moved(o.fs, k1, k2, name), o.fs[k1].anode;
    InsideSelf(o.fs, h);
    if IntoItself(o.fs, k1, k2.0) {
      if ReachableDir(fs', h) {
        var r :| IsDescent(fs', r, ANODE_ROOTDIR, h);
        NoWayIn(o.fs, k1, k2, name, r, h);
      }
    } else {
      var r :| IsDescent(o.fs, r, ANODE_ROOTDIR, k2.0);
      StillThere(o.fs, k1, k2, name, r, k2.0);
      InsideStep(fs', k2, ANODE_ROOTDIR);
    }
  }

  /** A volume with one directory `a`: moving `a` to `a/b` leaves nothing reachable but the root. */
  lemma IntoItselfExample()
    ensures var fs: FS := map[(ANODE_ROOTDIR, [97]) := Obj(6, ST_USERDIR, [97], 0, [])];
            ReachableDir(fs, 6) && !ReachableDir(Moved(fs, (ANODE_ROOTDIR, [97]), (6, [98]), [98]), 6)
  {
    var k1: (nat, Name), k2: (nat, Name) := (ANODE_ROOTDIR, [97]), (6, [98]);
    var fs: FS := map[k1 := Obj(6, ST_USERDIR, [97], 0, [])];
    assert Tree(fs);
    hide Inside;
    InsideSelf(fs, ANODE_ROOTDIR);
    InsideSelf(fs, 6);
    InsideStep(fs, k1, ANODE_ROOTDIR);
    assert !Inside(Moved(fs, k1, k2, [98]), 6, ANODE_ROOTDIR) by {
      forall r ensures !IsDescent(Moved(fs, k1, k2, [98]), r, ANODE_ROOTDIR, 6) {
        if IsDescent(Moved(fs, k1, k2, [98]), r, ANODE_ROOTDIR, 6) { NoWayIn(fs, k1, k2, [98], r, 6); }
      }
      NoDescent(Moved(fs, k1, k2, [98]), 6, ANODE_ROOTDIR);
    }
  }

  lemma NoDescent(fs: FS, x: nat, h: nat)
    requires forall r :: !IsDescent(fs, r, h, x)
    ensures !Inside(fs, x, h)
  {
  }

  // ---------------------------------------------------------------- names and what they denote

  /** `e` is the entry of the name `k`. */
  ghost predicate Denotes(o: Own, k: (nat, Name), e: Entry) {
    && k in o.fs && o.fs[k].anode == e.anode && o.fs[k].entryType == e.entryType
    && e.anode in o.w.ent && e.anode in o.w.par && o.w.ent[e.anode] == e && Key(o.w.par, o.w.ent, e.anode) == k
    && e.anode in o.w.path && (e.anode in o.w.dh <==> IsDir(e))
  }

  /** What reading a name gives. */
  ghost function ReadOf(fs: FS, k: (nat, Name)): Result<Bytes> {
    if k !in fs then Err(NotFound) else if fs[k].entryType == ST_USERDIR then Err(NotADirectory) else Ok(fs[k].data)
  }

  /** Exactly one name changed: it now denotes the data. An existing file keeps its head; a new one
      gets a head no other object has. */
  ghost predicate Written(fs: FS, fs': FS, k: (nat, Name), name: Name, w: Wit, data: Bytes) {
    if k in fs then fs' == Updated(fs, k, w, data)
    else exists h :: h !in w.ent && fs' == fs[k := NewObj(h, name, data)]
  }

  lemma SectorSize(g: Geo)
    requires GeoOk(g)
    ensures g.bs > 0
  {
  }

  lemma NamedInTab(g: Geo, o: Own, sect: Sectors, h: nat)
    requires h !in o.f.tab && Inv(g, o, sect)
    ensures h !in o.w.ent
  {
    hide Inv;
    if h in o.w.ent {
      HeadFactsOf(g, o, sect, h);
      HeadInTab(g, o, sect, h);
    }
  }

  lemma DenotesIs(g: Geo, o: Own, sect: Sectors, k: (nat, Name))
    requires k in o.fs && Inv(g, o, sect)
    ensures o.fs[k].anode in o.w.ent && Denotes(o, k, o.w.ent[o.fs[k].anode])
  {
    hide Inv, Key;
    NamedBy(g, o, sect, k);
    ObjAt(g, o, sect, o.fs[k].anode);
    HeadFactsOf(g, o, sect, o.fs[k].anode);
  }

  /** Following directory names one by one. */
  ghost function WalkDirs(fs: FS, d: nat, parts: seq<Name>): Result<nat>
    decreases |parts|
  {
    if |parts| == 0 then Ok(d) else
    var k := (d, Canon(parts[0]));
    if k !in fs then Err(NotFound)
    else if fs[k].entryType != ST_USERDIR then Err(NotADirectory)
    else WalkDirs(fs, fs[k].anode, parts[1..])
  }

  lemma RootInDirs(g: Geo, o: Own, sect: Sectors)
    requires Inv(g, o, sect)
    ensures ANODE_ROOTDIR in o.w.dh
  {
    hide Chains, Nodes, Cover, Area, Kinds, Entries, Parents, Names, SectorsOk, Contents, Ranked;
  }

  /** There is room for the entry under its new name. */
  ghost predicate CanMove(g: Geo, miss: nat, o: Own, k1: (nat, Name), dd: nat, dname: Name, stamp: Stamp) {
    && k1 in o.fs && o.fs[k1].anode in o.w.ent
    && (RoomIn(g.rbs, o, dd, MovedEntry(o.w.ent[o.fs[k1].anode], dname, stamp)) || RoomFor(g, miss, o.f, 1, 1))
  }

  lemma CanMoveIs(g: Geo, miss: nat, o: Own, k1: (nat, Name), dd: nat, dname: Name, stamp: Stamp, e: Entry)
    requires Denotes(o, k1, e)
    ensures CanMove(g, miss, o, k1, dd, dname, stamp) <==> RoomIn(g.rbs, o, dd, MovedEntry(e, dname, stamp))
                                                           || RoomFor(g, miss, o.f, 1, 1)
  {
    hide RoomIn, RoomFor, MovedEntry, Key, IsDir;
  }

  /** The directory just moved into itself can no longer be reached. */
  ghost predicate Lost(fs: FS, fs': FS, k: (nat, Name)) {
    k in fs && ReachableDir(fs, fs[k].anode) && !ReachableDir(fs', fs[k].anode)
  }

  lemma MovedIsLost(g: Geo, o: Own, sect: Sectors, k1: (nat, Name), k2: (nat, Name), name: Name, fs': FS)
    requires Renamed(o.fs, fs', k1, k2, name) && k2 !in o.fs && k2.0 in o.w.dh && o.fl == {}
             && IntoItself(o.fs, k1, k2.0) && Inv(g, o, sect)
    ensures Lost(o.fs, fs', k1)
  {
    hide Inv, IntoItself, ReachableDir;
    IntoItselfType(o.fs, k1, k2.0);
    MoveReachableIff(g, o, sect, k1, k2, name);
    var h := o.fs[k1].anode;
    DirInIff(g, o, sect, h);
    DirReachable(g, o, sect, h);
  }

  lemma IntoItselfType(fs: FS, k: (nat, Name), dd: nat)
    requires IntoItself(fs, k, dd)
    ensures k in fs && fs[k].entryType == ST_USERDIR && DirIn(fs, fs[k].anode)
  {
    hide Inside;
  }

  lemma DirReachable(g: Geo, o: Own, sect: Sectors, h: nat)
    requires h in o.w.dh && o.fl == {} && Inv(g, o, sect)
    ensures ReachableDir(o.fs, h)
  {
    hide Chains, Nodes, Cover, Area, Kinds, Entries, Heads, Parents, Names, SectorsOk, Contents, Ranked;
    DirectoriesReachable(o.fs, o.w, h);
  }

  // ---------------------------------------------------------------- renaming onto the same name

  /** An entry just added under a name that was not there is the one found under that name. */
  lemma AddedFound(f: Flat, bl: seq<nat>, p: seq<nat>, e: Entry, pl: Placed, b: nat, i: nat, name: Name)
    requires pl.InBlock? && PlacedOk(f, bl, pl) && NoneNamed(f.dirs, bl, name)
             && Named(PlaceFlat(f, p, e, pl).dirs, bl, b, i, name)
    ensures LessEntry(PlaceFlat(f, p, e, pl), b, i) == f
  {
    hide NameEqCi;
    var es := f.dirs[pl.b];
    assert b == pl.b && i == |es|;
    assert Without(es + [e], |es|) == es;
    assert f.dirs[b := es + [e]][b := es] == f.dirs;
  }

  lemma AddedThere(f: Flat, bl: seq<nat>, p: seq<nat>, e: Entry, pl: Placed, name: Name)
    requires pl.InBlock? && PlacedOk(f, bl, pl) && NameEqCi(e.name, name) && AllIn(bl, f.dirs)
    ensures AllIn(bl, PlaceFlat(f, p, e, pl).dirs) && !NoneNamed(PlaceFlat(f, p, e, pl).dirs, bl, name)
  {
    hide NameEqCi;
    var d' := PlaceFlat(f, p, e, pl).dirs;
    assert d'[pl.b][|f.dirs[pl.b]|] == e;
  }

  /** Both names are the same, ignoring case. */
  ghost predicate SameSpot(sd: nat, sname: Name, dd: nat, dname: Name) {
    (sd, Canon(sname)) == (dd, Canon(dname))
  }

  /** Deleting what a directory names does not remove the directory. */
  lemma KeepsDir(g: Geo, o: Own, sect: Sectors, o': Own, d: nat, k: (nat, Name))
    requires k in o.fs && k.0 == d && d in o.w.dh && o'.fs == o.fs - {k} && o.fl == {} && o'.fl == {}
             && !Occupied(o.fs, k)
    requires Inv(g, o, sect) && Inv(g, o', sect)
    ensures d in o'.w.dh
  {
    hide Inv, DirIn, Occupied;
    DirInIff(g, o, sect, d);
    DirInIff(g, o', sect, d);
    StaysDir(o.fs, k, d, k);
  }

  lemma SameLoss(fs: FS, fs1: FS, fs': FS, k1: (nat, Name), k2: (nat, Name))
    requires fs1 == fs - {k2} && Lost(fs1, fs', k1)
    ensures Lost(fs, fs', k1)
  {
    var h := fs1[k1].anode;
    var r :| IsDescent(fs1, r, ANODE_ROOTDIR, h);
    DescentMonotone(fs, fs1, r, ANODE_ROOTDIR, h);
  }

  lemma NamedNotNone(dirs: Dirs, bl: seq<nat>, b: nat, i: nat, name: Name)
    requires Named(dirs, bl, b, i, name)
    ensures !NoneNamed(dirs, bl, name)
  {
    hide NameEqCi;
  }

  /** The new entry has been added and the old one found at entry `i` of block `b`: what removing it yields. */
  lemma MoveOutcome(g: Geo, o: Own, sect: Sectors, sd: nat, sname: Name, dd: nat, dname: Name, stamp: Stamp, e: Entry,
                    pl: Placed, b: nat, i: nat)
    requires sd in o.w.dh && dd in o.w.dh && dd in o.w.path && sd in o.w.path && |dname| <= NAME_MAX && GeoOk(g)
             && o.fl == {}
    requires (dd, Canon(dname)) !in o.fs && Denotes(o, (sd, Canon(sname)), e)
             && PlacedOk(o.f, Blocks(o.f.tab, o.w.path[dd]), pl)
    requires Named(PlaceFlat(o.f, o.w.path[dd], MovedEntry(e, dname, stamp), pl).dirs, Blocks(o.f.tab, o.w.path[sd]), b,
                   i, sname)
    requires Inv(g, o, sect)
    ensures var o', f := MovedOwn(o, b, i, e.anode, dd, dname, stamp, pl),
            PlaceFlat(o.f, o.w.path[dd], MovedEntry(e, dname, stamp), pl);
            && Loose(g, o', sect) && o'.fl == {} && o'.sys == PlaceSys(o.sys, pl) && o'.f == LessEntry(f, b, i)
            && Renamed(o.fs, o'.fs, (sd, Canon(sname)), (dd, Canon(dname)), dname)
            && (!IntoItself(o.fs, (sd, Canon(sname)), dd) ==> Inv(g, o', sect))
            && Dated(LessEntry(f, b, i).dirs, e.anode, stamp)
  {
    hide Inv, Canon, NameEqCi, Blocks, IsPath, AllIn, Key, NoneNamed, GeoOk, PlaceFlat, PlaceSys, PlacedOk, Named,
         Clear, MovedEntry, Relocated,
         MovedOwn, LessEntry, MovedObj, Loose, Inside, Dated;
    var h := e.anode;
    DirChainFacts(g, o, sect, sd);
    ResApart(g, o, sect);
    ObjAt(g, o, sect, h);
    HeadFactsOf(g, o, sect, h);
    var e' := MovedEntry(e, dname, stamp);
    var bs, bd := Blocks(o.f.tab, o.w.path[sd]), Blocks(o.f.tab, o.w.path[dd]);
    MovedEntryIs(e, dname, stamp, []);
    ClearOf(g, o, sect, sd, sname, dd, e', pl);
    FoundOld(o.f, o.w.path[dd], bs, bd, e', pl, b, i, sname);
    FoundEntry(g, o, sect, sd, b, i, sname);
    SameHead(o, h, o.f.dirs[b][i].anode) by { NamesOf(g, o, sect); }
    MovedStamp(e, dname, stamp);
    LessNamed(o.f, bs, b, i, sname);
    PlacedDated(o.f, bd, o.w.path[dd], e', pl, b, i);
    MovedLoose(g, o, sect, b, i, h, dd, dname, stamp, pl);
    RelocatedFlat(o, MovedOwn(o, b, i, h, dd, dname, stamp, pl), b, i, h, dd, dname, stamp, pl);
    if !IntoItself(o.fs, (sd, Canon(sname)), dd) { MovedKeeps(g, o, sect, b, i, h, dd, dname, stamp, pl); }
  }

  /** What is not there under a name is not found there when something else is added. */
  lemma StillNone(f: Flat, p: seq<nat>, bl: seq<nat>, bd: seq<nat>, e: Entry, pl: Placed, name: Name)
    requires PlacedOk(f, bd, pl) && AllIn(bl, f.dirs) && Clear(bl, pl, e, name) && f.resFree !! f.dirs.Keys
             && NoneNamed(f.dirs, bl, name)
    ensures AllIn(bl, PlaceFlat(f, p, e, pl).dirs) && NoneNamed(PlaceFlat(f, p, e, pl).dirs, bl, name)
  {
    hide NameEqCi, JoinTab, Last;
    forall i | 0 <= i < |bl| ensures bl[i] in f.dirs && (pl.NewBlock? ==> bl[i] != pl.nb) { }
  }

  /** Before the old entry is removed: the source directory's blocks are there, and an entry of the old
      name is found exactly when the name is in use, or is the new one and the entry was added to a block
      the directory had. */
  lemma MoveReady(g: Geo, o: Own, sect: Sectors, sd: nat, sname: Name, dd: nat, dname: Name, stamp: Stamp, e: Entry,
                  pl: Placed)
    requires sd in o.w.dh && dd in o.w.dh && dd in o.w.path && sd in o.w.path && |dname| <= NAME_MAX
    requires PlacedOk(o.f, Blocks(o.f.tab, o.w.path[dd]), pl)
    requires Inv(g, o, sect)
    ensures var dirs, bs := PlaceFlat(o.f, o.w.path[dd], MovedEntry(e, dname, stamp), pl).dirs,
            Blocks(o.f.tab, o.w.path[sd]);
            && AllIn(bs, dirs)
            && (NoneNamed(dirs, bs, sname) <==> (sd, Canon(sname)) !in o.fs
                                                && !(SameSpot(sd, sname, dd, dname) && pl.InBlock?))
  {
    hide Inv, Canon, NameEqCi, Blocks, IsPath, AllIn, NoneNamed, PlaceFlat, PlacedOk, MovedEntry, Clear;
    DirChainFacts(g, o, sect, sd);
    ResApart(g, o, sect);
    NotFoundIff(g, o, sect, sd, sname);
    MovedEntryIs(e, dname, stamp, []);
    var e' := MovedEntry(e, dname, stamp);
    var bs, bd := Blocks(o.f.tab, o.w.path[sd]), Blocks(o.f.tab, o.w.path[dd]);
    if (sd, Canon(sname)) in o.fs {
      StillNamed(o.f, o.w.path[dd], bs, bd, e', pl, sname);
    } else if SameSpot(sd, sname, dd, dname) && pl.InBlock? {
      NameEqIsCanon(dname, sname);
      AddedThere(o.f, bs, o.w.path[dd], e', pl, sname);
    } else {
      if pl.InBlock? { ClearOf(g, o, sect, sd, sname, dd, e', pl); } else { NewIsClear(bs, pl, e', sname); }
      StillNone(o.f, o.w.path[dd], bs, bd, e', pl, sname);
    }
  }

  lemma NewIsClear(bl: seq<nat>, pl: Placed, e: Entry, name: Name)
    requires pl.NewBlock?
    ensures Clear(bl, pl, e, name)
  {
  }

  /** Adding an entry and removing it again changes nothing. */
  lemma AddedAndRemoved(g: Geo, o: Own, sect: Sectors, sd: nat, sname: Name, dd: nat, dname: Name, e: Entry, pl: Placed,
                        b: nat, i: nat)
    requires sd in o.w.dh && sd in o.w.path && (dd, Canon(dname)) !in o.fs && SameSpot(sd, sname, dd, dname)
             && pl.InBlock?
    requires PlacedOk(o.f, Blocks(o.f.tab, o.w.path[dd]), pl)
    requires Named(PlaceFlat(o.f, o.w.path[dd], e, pl).dirs, Blocks(o.f.tab, o.w.path[sd]), b, i, sname)
    requires Inv(g, o, sect)
    ensures LessEntry(PlaceFlat(o.f, o.w.path[dd], e, pl), b, i) == o.f
  {
    hide Inv, Canon, NameEqCi, Blocks, NoneNamed, PlaceFlat, PlacedOk, LessEntry;
    NotFoundIff(g, o, sect, sd, sname);
    AddedFound(o.f, Blocks(o.f.tab, o.w.path[dd]), o.w.path[dd], e, pl, b, i, sname);
  }

  // ---------------------------------------------------------------- room in an empty directory

  lemma DirHasBlock(g: Geo, o: Own, sect: Sectors, d: nat)
    requires d in o.w.dh && d in o.w.path && Inv(g, o, sect)
    ensures |Blocks(o.f.tab, o.w.path[d])| > 0
  {
    hide Cover, Area, Entries, Heads, Parents, Names, SectorsOk, Contents, Ranked;
    var p := o.w.path[d];
    assert IsPath(o.f.tab, d, p) && p[0] in p;
    NodesCover(o.f.tab, o.w.path, o.w.node, d);
    assert |Expand(o.f.tab[p[0]])| == 1;
  }

  lemma {:induction false} NothingListed(dirs: Dirs, bl: seq<nat>, i: nat)
    requires Listing(dirs, bl) == [] && i < |bl|
    ensures bl[i] in dirs ==> dirs[bl[i]] == []
    decreases |bl|
  {
    var n := |bl| - 1;
    if i < n {
      NothingListed(dirs, bl[..n], i);
      assert bl[..n][i] == bl[i];
    }
  }

  /** A directory without names has room for an entry that fits into an empty block. */
  lemma EmptyHasRoom(g: Geo, o: Own, sect: Sectors, d: nat, e: Entry)
    requires d in o.w.dh && !HasKids(o.fs, d) && Fits(g.rbs, [], e) && Inv(g, o, sect)
    ensures RoomIn(g.rbs, o, d, e)
  {
    hide Inv, HasKids, Blocks, Listing, Fits, IsPath, Agree;
    DirChainFacts(g, o, sect, d);
    DirHasBlock(g, o, sect, d);
    ListsEmptyIff(g, o, sect, d);
    var bl := Blocks(o.f.tab, o.w.path[d]);
    NothingListed(o.f.dirs, bl, 0);
    assert bl[0] in o.f.dirs && Fits(g.rbs, o.f.dirs[bl[0]], e);
  }

  /** An entry of a volume with blocks of a kilobyte fits into an empty block. */
  lemma EntryFits(rbs: nat, name: Name, etype: int, h: nat, size: nat, prot: nat, stamp: Stamp)
    requires rbs == 1024
    ensures Fits(rbs, [], BuildEntry(name, etype, h, size, prot, stamp))
  {
  }

  // ---------------------------------------------------------------- replacing a target

  /** On the volume without the target there is room for the entry under its new name; onto its own name,
      in a block the directory has, and the name is not cut. */
  ghost predicate CanRename(g: Geo, miss: nat, o: Own, k1: (nat, Name), k2: (nat, Name), dname: Name, stamp: Stamp) {
    && k1 in o.fs && o.fs[k1].anode in o.w.ent && !Occupied(o.fs, k2)
    && if k1 == k2 then |dname| <= NAME_MAX
                        && RoomIn(g.rbs, DeletedOwn(o, k2), k2.0, MovedEntry(o.w.ent[o.fs[k1].anode], dname, stamp))
       else CanMove(g, miss, DeletedOwn(o, k2), k1, k2.0, dname, stamp)
  }

  lemma CanRenameIs(g: Geo, miss: nat, o: Own, k1: (nat, Name), k2: (nat, Name), dname: Name, stamp: Stamp, e: Entry)
    requires k1 in o.fs && e.anode in o.w.ent && o.w.ent[e.anode] == e && o.fs[k1].anode == e.anode
             && !Occupied(o.fs, k2)
    ensures CanRename(g, miss, o, k1, k2, dname, stamp) <==>
              if k1 == k2 then |dname| <= NAME_MAX
                               && RoomIn(g.rbs, DeletedOwn(o, k2), k2.0, MovedEntry(e, dname, stamp))
              else CanMove(g, miss, DeletedOwn(o, k2), k1, k2.0, dname, stamp)
  {
    hide RoomIn, DeletedOwn, MovedEntry, CanMove, Occupied;
  }

  lemma CannotRename(g: Geo, miss: nat, o: Own, k1: (nat, Name), k2: (nat, Name), dname: Name, stamp: Stamp)
    requires k1 !in o.fs || Occupied(o.fs, k2)
    ensures !CanRename(g, miss, o, k1, k2, dname, stamp) && (k1 !in o.fs ==> !Slim(o, k1, k2))
  {
    hide RoomIn, DeletedOwn, MovedEntry, CanMove, Occupied;
  }

  lemma NothingDeleted(o: Own, k1: (nat, Name), k: (nat, Name))
    requires k !in o.fs
    ensures DeletedOwn(o, k) == o && !Slim(o, k1, k)
  {
  }

  /** The chain of another directory, and the block the entry was in, once it is deleted. */
  lemma DeletedShape(g: Geo, o: Own, sect: Sectors, k: (nat, Name), b: nat, i: nat, h: nat, dd: nat)
    requires k in o.fs && o.fs[k].anode == h && At(o.f.dirs, b, i, h) && h in o.w.par && h in o.w.ent && h in o.w.path
    requires h in o.w.home && o.w.home[h] == b && dd in o.w.path && dd in o.w.dh && dd != h
    requires b in Blocks(o.f.tab, o.w.path[dd]) && Inv(g, o, sect)
    ensures var o1 := DeletedOwn(o, k);
            && dd in o1.w.path && Blocks(o1.f.tab, o1.w.path[dd]) == Blocks(o.f.tab, o.w.path[dd])
            && b in o1.f.dirs && o1.f.dirs[b] == Without(o.f.dirs[b], i)
  {
    hide Chains, Nodes, Cover, Area, Kinds, Entries, Heads, Parents, Names, SectorsOk, Contents, Ranked, Blocks, Key,
         Without, OwnedBy, DeletedOwn;
    DeletedIs(g, o, sect, k, b, i, h);
    OthersStay(o.f.tab, o.w.path, o.w.node, h, dd);
    if h in o.w.dh {
      DirReleasable(g, o, sect, h, dd);
      BlockStays(Blocks(o.f.tab, o.w.path[dd]), o.f.dirs, Elems(Blocks(o.f.tab, o.w.path[h])), b);
    }
  }

  lemma BlockStays(bl: seq<nat>, dirs: Dirs, gone: set<nat>, b: nat)
    requires AllIn(bl, dirs - gone) && b in bl
    ensures b !in gone && b in dirs
  {
    var i :| 0 <= i < |bl| && bl[i] == b;
    assert bl[i] in dirs - gone;
  }

  lemma OthersStay(tab: Tab, path: map<nat, seq<nat>>, node: Link, h: nat, dd: nat)
    requires Nodes(tab, path, node) && h in path && dd in path && h != dd
    ensures Blocks(tab - Elems(path[h]), path[dd]) == Blocks(tab, path[dd])
  {
    NodesCover(tab, path, node, h);
    NodesCover(tab, path, node, dd);
    forall i | 0 <= i < |path[dd]| ensures path[dd][i] !in Elems(path[h]) {
      assert path[dd][i] in path[dd];
    }
    BlocksFrame(tab, tab - Elems(path[h]), path[dd]);
  }

  /** The source is below 2^32 bytes, or the target's entry has the extended size field. */
  ghost predicate Slim(o: Own, k1: (nat, Name), k2: (nat, Name)) {
    && k1 in o.fs && k2 in o.fs && o.fs[k1].anode in o.w.ent && o.fs[k2].anode in o.w.ent
    && (FileSize(o.w.ent[o.fs[k1].anode]) < U32 || o.w.ent[o.fs[k2].anode].carriesX)
  }

  lemma CanonLength(a: Name, b: Name)
    requires Canon(a) == Canon(b)
    ensures |a| == |b|
  {
    assert |Canon(a)| == |a| && |Canon(b)| == |b|;
  }

  lemma ShorterFits(rbs: nat, es: seq<Entry>, i: nat, e: Entry, name: Name, stamp: Stamp)
    requires i < |es| && Packs(rbs, es) && |name| == |es[i].name| <= NAME_MAX && (FileSize(e) < U32 || es[i].carriesX)
    ensures Fits(rbs, Without(es, i), MovedEntry(e, name, stamp))
  {
    UsedWithout(es, i);
    hide Used;
    assert FileSize(e) < U32 ==> SizeHigh(FileSize(e)) == 0;
    assert Snug(es[i]);
  }

  /** The moved entry fits where the target's entry was. */
  lemma ReplaceFits(g: Geo, o: Own, sect: Sectors, k1: (nat, Name), k2: (nat, Name), dname: Name, stamp: Stamp)
    requires Slim(o, k1, k2) && k2.0 in o.w.dh && Canon(dname) == k2.1 && |dname| <= NAME_MAX && Fitted(g.rbs, o.f.dirs)
    requires o.fl == {} && Inv(g, o, sect)
    ensures RoomIn(g.rbs, DeletedOwn(o, k2), k2.0, MovedEntry(o.w.ent[o.fs[k1].anode], dname, stamp))
  {
    hide Inv, Canon, Blocks, FileSize, Fits, Packs, MovedEntry, DeletedOwn, Without, IsPath, AllIn, Agree;
    var h, dd := o.fs[k2].anode, k2.0;
    NamedBy(g, o, sect, k2);
    HeadFactsOf(g, o, sect, h);
    DirChainFacts(g, o, sect, dd);
    NameIsSomewhere(g, o, sect, dd, dname);
    var b, i := NamedSpot(o.f.dirs, Blocks(o.f.tab, o.w.path[dd]), dname);
    FoundEntry(g, o, sect, dd, b, i, dname);
    NotOwnParent(g, o, sect, h, dd);
    DeletedShape(g, o, sect, k2, b, i, h, dd);
    NameEqIsCanon(o.f.dirs[b][i].name, dname);
    CanonLength(o.f.dirs[b][i].name, dname);
    assert Packs(g.rbs, o.f.dirs[b]);
    ShorterFits(g.rbs, o.f.dirs[b], i, o.w.ent[o.fs[k1].anode], dname, stamp);
    var o1 := DeletedOwn(o, k2);
    var bl := Blocks(o1.f.tab, o1.w.path[dd]);
    var j :| 0 <= j < |bl| && bl[j] == b;
  }

  lemma NamedSpot(dirs: Dirs, bl: seq<nat>, name: Name) returns (b: nat, i: nat)
    requires !NoneNamed(dirs, bl, name)
    ensures Named(dirs, bl, b, i, name)
  {
    hide NameEqCi;
    b, i :| b in bl && b in dirs && 0 <= i < |dirs[b]| && NameEqCi(dirs[b][i].name, name);
  }

  lemma NotOwnParent(g: Geo, o: Own, sect: Sectors, h: nat, dd: nat)
    requires h in o.w.ent && h in o.w.par && o.w.par[h] == dd && dd in o.w.dh && Inv(g, o, sect)
    ensures h != dd
  {
    hide Inv;
    if h in o.w.dh { ParentDiffers(g, o, sect, h); }
  }

  lemma SlimRenames(g: Geo, miss: nat, o: Own, sect: Sectors, k1: (nat, Name), k2: (nat, Name), dname: Name,
                    stamp: Stamp)
    requires Slim(o, k1, k2) && k2.0 in o.w.dh && Canon(dname) == k2.1 && |dname| <= NAME_MAX && Fitted(g.rbs, o.f.dirs)
    requires !Occupied(o.fs, k2) && o.fl == {} && k1 != k2 && Inv(g, o, sect) && Inv(g, DeletedOwn(o, k2), sect)
    requires DeletedOwn(o, k2).fs == o.fs - {k2} && DeletedOwn(o, k2).w.ent == o.w.ent - {o.fs[k2].anode}
    ensures CanRename(g, miss, o, k1, k2, dname, stamp)
  {
    hide Inv, Canon, RoomIn, DeletedOwn, MovedEntry, Occupied, FileSize, Fitted, RoomFor;
    ReplaceFits(g, o, sect, k1, k2, dname, stamp);
    OneName(g, o, sect, k1, k2);
  }
}
