/** Renaming to a name the writer has to cut, when what is left of it is in use. */
module LongNames {
  import opened Types
  import opened Ownership
  import opened Transitions
  import opened Guarantees
  import opened Directory
  import opened Steps
  import opened Compose
  import opened Overwriting
  import opened Outcomes
  import opened Renaming

  /** What is left of the new name is not in use once the target is gone. */
  ghost predicate Free(fs: FS, dd: nat, dname: Name) {
    (dd, Canon(ShortName(dname))) !in fs - {(dd, Canon(dname))}
  }

  lemma SameIfShort(name: Name)
    ensures Canon(ShortName(name)) == Canon(name) <==> |name| <= NAME_MAX
  {
    assert |Canon(name)| == |name| && |Canon(ShortName(name))| == |ShortName(name)|;
  }

  lemma ShortMoved(e: Entry, name: Name, stamp: Stamp)
    ensures MovedEntry(e, name, stamp) == MovedEntry(e, ShortName(name), stamp)
  {
    hide BuildEntry, ShortName;
    ShortEntry(name, e.entryType, e.anode, FileSize(e), e.protection, stamp);
  }

  // ---------------------------------------------------------------- in use by another object

  /** The new entry is listed besides one of the same name. */
  lemma MovedOnto(g: Geo, o: Own, sect: Sectors, sd: nat, sname: Name, dd: nat, name: Name, stamp: Stamp, e: Entry,
                  pl: Placed, b: nat, i: nat)
    requires sd in o.w.dh && dd in o.w.dh && dd in o.w.path && sd in o.w.path && |name| <= NAME_MAX && o.fl == {}
    requires (dd, Canon(name)) in o.fs && (sd, Canon(sname)) != (dd, Canon(name)) && Denotes(o, (sd, Canon(sname)), e)
    requires PlacedOk(o.f, Blocks(o.f.tab, o.w.path[dd]), pl)
    requires Named(PlaceFlat(o.f, o.w.path[dd], MovedEntry(e, name, stamp), pl).dirs, Blocks(o.f.tab, o.w.path[sd]), b,
                   i, sname)
    requires Inv(g, o, sect)
    ensures TwoNamed(LessEntry(PlaceFlat(o.f, o.w.path[dd], MovedEntry(e, name, stamp), pl), b, i), dd, name)
    ensures Dated(LessEntry(PlaceFlat(o.f, o.w.path[dd], MovedEntry(e, name, stamp), pl), b, i).dirs, e.anode, stamp)
  {
    hide Inv, Canon, NameEqCi, Blocks, IsPath, AllIn, Agree, Key, NoneNamed, PlaceFlat, PlacedOk, Clear, MovedEntry,
         LessEntry, Mentioned, TwoNamed, Unnamed, Dated;
    var h := e.anode;
    DirChainFacts(g, o, sect, sd);
    DirChainFacts(g, o, sect, dd);
    ResApart(g, o, sect);
    var e' := MovedEntry(e, name, stamp);
    var bs, bd := Blocks(o.f.tab, o.w.path[sd]), Blocks(o.f.tab, o.w.path[dd]);
    MovedEntryIs(e, name, stamp, []);
    ClearOf(g, o, sect, sd, sname, dd, e', pl);
    FoundOld(o.f, o.w.path[dd], bs, bd, e', pl, b, i, sname);
    FoundEntry(g, o, sect, sd, b, i, sname);
    SameHead(o, h, o.f.dirs[b][i].anode) by { NamesOf(g, o, sect); }
    UnnamedKeeps(g, o, sect, b, i, h, dd);
    UnnamedShape(g, o, sect, b, i, h, dd);
    var o1 := Unnamed(o, b, i, h, dd);
    LessNamed(o.f, bs, b, i, sname);
    MovedStamp(e, name, stamp);
    PlacedDated(o.f, bd, o.w.path[dd], e', pl, b, i);
    NotFoundIff(g, o1, sect, dd, name);
    if dd != h { HeadKnown(g, o1, sect, dd); }
    PlacedSame(o.f, o1.f, bd, pl);
    TwiceNamed(o.f.tab, o1.f, dd, o.w.path[dd], e', pl);
  }

  // ---------------------------------------------------------------- in use by the object itself

  /** The same names, the object under `k` possibly spelled differently. */
  ghost predicate Respelled(fs: FS, fs': FS, k: (nat, Name), name: Name) {
    fs' == fs || Renamed(fs, fs', k, k, name)
  }

  lemma {:induction false} DescentRank(fs: FS, w: Wit, r: seq<(nat, Name)>, h: nat, x: nat)
    requires Names(fs, w.par, w.ent, w.data) && Ranked(w.ent, w.par, w.dh, w.rank) && DirsAreDirs(w.ent, w.dh)
    requires IsDescent(fs, r, h, x) && h in w.rank
    ensures x in w.rank && w.rank[h] <= w.rank[x]
    decreases |r|
  {
    if |r| > 0 {
      var k := r[|r| - 1];
      DescentRank(fs, w, r[..|r| - 1], h, k.0);
      assert Key(w.par, w.ent, x) == k;
    }
  }

  /** A directory does not lie inside what it names. */
  lemma NotInsideKid(g: Geo, o: Own, sect: Sectors, k: (nat, Name))
    requires k in o.fs && o.fl == {} && Inv(g, o, sect)
    ensures !IntoItself(o.fs, k, k.0)
  {
    hide Chains, Nodes, Cover, Area, Kinds, Entries, Heads, Parents, SectorsOk, Contents;
    if IntoItself(o.fs, k, k.0) {
      var h := o.fs[k].anode;
      KindsOf(o.w.path, o.w.ent, o.w.dh, o.fl);
      assert Key(o.w.par, o.w.ent, h) == k;
      var r :| IsDescent(o.fs, r, h, k.0);
      DescentRank(o.fs, o.w, r, h, k.0);
    }
  }

  /** Either the new entry was removed again, or the old one gave way to it. */
  lemma MovedHere(g: Geo, o: Own, sect: Sectors, d: nat, sname: Name, name: Name, stamp: Stamp, e: Entry,
                  pl: Placed, b: nat, i: nat)
    requires d in o.w.dh && d in o.w.path && |name| <= NAME_MAX && GeoOk(g) && o.fl == {}
    requires Canon(sname) == Canon(name) && Denotes(o, (d, Canon(name)), e)
             && PlacedOk(o.f, Blocks(o.f.tab, o.w.path[d]), pl)
    requires Named(PlaceFlat(o.f, o.w.path[d], MovedEntry(e, name, stamp), pl).dirs, Blocks(o.f.tab, o.w.path[d]), b, i,
                   sname)
    requires Inv(g, o, sect)
    ensures var o', f := MovedOwn(o, b, i, e.anode, d, name, stamp, pl),
            PlaceFlat(o.f, o.w.path[d], MovedEntry(e, name, stamp), pl);
            || (LessEntry(f, b, i) == o.f && pl.InBlock?)
            || (Inv(g, o', sect) && Loose(g, o', sect) && o'.fl == {} && o'.sys == PlaceSys(o.sys, pl)
                && o'.f == LessEntry(f, b, i)
                && Renamed(o.fs, o'.fs, (d, Canon(name)), (d, Canon(name)), name) && Dated(o'.f.dirs, e.anode, stamp))
  {
    hide Inv, Canon, NameEqCi, Blocks, IsPath, AllIn, Key, NoneNamed, GeoOk, PlaceFlat, PlaceSys, PlacedOk, Named,
         MovedEntry, Relocated, MovedOwn, LessEntry, MovedObj, Inside, Loose, Dated;
    var h, e', bl := e.anode, MovedEntry(e, name, stamp), Blocks(o.f.tab, o.w.path[d]);
    DirChainFacts(g, o, sect, d);
    ResApart(g, o, sect);
    if pl.InBlock? && b == pl.b && i == OldLength(o.f, pl) {
      NewRemoved(o.f, bl, o.w.path[d], e', pl);
    } else {
      OldFound(o.f, bl, o.w.path[d], e', pl, b, i, sname);
      EitherOrder(o.f, o.w.path[d], bl, e', pl, b, i);
      FoundEntry(g, o, sect, d, b, i, sname);
      SameHead(o, h, o.f.dirs[b][i].anode) by { NamesOf(g, o, sect); }
      HeadFactsOf(g, o, sect, h);
      NotInsideKid(g, o, sect, (d, Canon(name)));
      MovedStamp(e, name, stamp);
      PlacedDated(o.f, bl, o.w.path[d], e', pl, b, i);
      MovedKeeps(g, o, sect, b, i, h, d, name, stamp, pl);
      InvIff(g, MovedOwn(o, b, i, h, d, name, stamp, pl), sect);
      RelocatedFlat(o, MovedOwn(o, b, i, h, d, name, stamp, pl), b, i, h, d, name, stamp, pl);
    }
  }

  ghost function OldLength(f: Flat, pl: Placed): nat {
    if pl.InBlock? && pl.b in f.dirs then |f.dirs[pl.b]| else 0
  }

  lemma NewRemoved(f: Flat, bl: seq<nat>, p: seq<nat>, e: Entry, pl: Placed)
    requires pl.InBlock? && PlacedOk(f, bl, pl)
    ensures LessEntry(PlaceFlat(f, p, e, pl), pl.b, OldLength(f, pl)) == f
  {
    var es := f.dirs[pl.b];
    assert Without(es + [e], |es|) == es;
    assert f.dirs[pl.b := es + [e]][pl.b := es] == f.dirs;
  }

  lemma OldFound(f: Flat, bl: seq<nat>, p: seq<nat>, e: Entry, pl: Placed, b: nat, i: nat, name: Name)
    requires PlacedOk(f, bl, pl) && AllIn(bl, f.dirs) && f.resFree !! f.dirs.Keys
    requires Named(PlaceFlat(f, p, e, pl).dirs, bl, b, i, name)
    requires !(pl.InBlock? && b == pl.b && i == OldLength(f, pl))
    ensures Named(f.dirs, bl, b, i, name) && b in f.dirs && i < |f.dirs[b]|
  {
    hide NameEqCi, JoinTab, Last;
    assert b in f.dirs by { InAll(bl, f.dirs, b); }
  }

  // ---------------------------------------------------------------- all cases

  /** `o'` is the volume with the object of `k1` under `k2`, a directory possibly inside itself. */
  ghost predicate MoveDone(g: Geo, o: Own, o': Own, sect: Sectors, f: Flat, sys: set<nat>, k1: (nat, Name),
                           k2: (nat, Name), name: Name) {
    && Loose(g, o', sect) && o'.fl == {} && o'.sys == sys && o'.f == f && Renamed(o.fs, o'.fs, k1, k2, name)
    && (!IntoItself(o.fs, k1, k2.0) ==> Inv(g, o', sect))
  }

  /** The new entry was added and the entry found under the old name removed: what this leaves. */
  lemma MoveCases(g: Geo, o: Own, sect: Sectors, sd: nat, sname: Name, dd: nat, name: Name, stamp: Stamp, e: Entry,
                  pl: Placed, b: nat, i: nat)
    requires sd in o.w.dh && dd in o.w.dh && dd in o.w.path && sd in o.w.path && |name| <= NAME_MAX && GeoOk(g)
             && o.fl == {}
    requires var k1 := (sd, Canon(sname));
             if k1 in o.fs then Denotes(o, k1, e) else SameSpot(sd, sname, dd, name) && pl.InBlock?
    requires PlacedOk(o.f, Blocks(o.f.tab, o.w.path[dd]), pl)
    requires Named(PlaceFlat(o.f, o.w.path[dd], MovedEntry(e, name, stamp), pl).dirs, Blocks(o.f.tab, o.w.path[sd]), b,
                   i, sname)
    requires Inv(g, o, sect)
    ensures var f, k1, k2 := LessEntry(PlaceFlat(o.f, o.w.path[dd], MovedEntry(e, name, stamp), pl), b, i),
            (sd, Canon(sname)), (dd, Canon(name));
            var o' := MovedOwn(o, b, i, e.anode, dd, name, stamp, pl);
            if k1 !in o.fs then f == o.f
            else if k1 != k2 && k2 in o.fs then TwoNamed(f, dd, name) && Dated(f.dirs, e.anode, stamp)
            else || (k1 == k2 && f == o.f && pl.InBlock?)
                 || (MoveDone(g, o, o', sect, f, PlaceSys(o.sys, pl), k1, k2, name)
                     && (k1 == k2 ==> !IntoItself(o.fs, k1, dd)) && Dated(f.dirs, e.anode, stamp))
  {
    hide Inv, Canon, Blocks, GeoOk, PlaceFlat, PlaceSys, PlacedOk, Named, MovedEntry, MovedOwn, LessEntry, Loose,
         IntoItself, TwoNamed, Denotes, Renamed, Dated;
    var k1, k2 := (sd, Canon(sname)), (dd, Canon(name));
    if k1 !in o.fs {
      AddedAndRemoved(g, o, sect, sd, sname, dd, name, MovedEntry(e, name, stamp), pl, b, i);
    } else if k1 == k2 {
      MovedHere(g, o, sect, sd, sname, name, stamp, e, pl, b, i);
      NotInsideKid(g, o, sect, k1);
    } else if k2 in o.fs {
      MovedOnto(g, o, sect, sd, sname, dd, name, stamp, e, pl, b, i);
    } else {
      MoveOutcome(g, o, sect, sd, sname, dd, name, stamp, e, pl, b, i);
    }
  }

  lemma IsRespelled(fs: FS, fs': FS, k: (nat, Name), name: Name)
    requires fs' == fs || Renamed(fs, fs', k, k, name)
    ensures Respelled(fs, fs', k, name)
  {
    hide Renamed;
  }
}
