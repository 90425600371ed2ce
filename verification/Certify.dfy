/** Volumes the writer leaves behind pass the check. */
module Certify {
  import opened Types
  import opened Ownership
  import opened Anodes
  import opened Transitions
  import opened Guarantees
  import opened Runs
  import opened Directory
  import opened Steps
  import opened Compose
  import opened Overwriting
  import opened Renaming
  import opened Descent
  import opened Check
  import opened Table
  import opened Layout
  import opened Sets

  /** The scan reads the volume `o`: chains through its anodes, listings of its directories. */
  ghost predicate Shows(vol: Vol, g: Geo, o: Own) {
    && vol.bs == g.bs
    && (forall h :: h in o.w.path ==> ReadableBlocks(vol.t, h) == Some(Blocks(o.f.tab, o.w.path[h])))
    && (forall d :: d in o.w.dh && d in o.w.path ==>
                      vol.list(d) == Some(Listing(o.f.dirs, Blocks(o.f.tab, o.w.path[d]))))
  }

  // ---------------------------------------------------------------- the tree

  ghost predicate Up(o: Own, x: nat, h: nat)
    requires Ranked(o.w.ent, o.w.par, o.w.dh, o.w.rank)
  {
    Under(o.w.ent, o.w.par, o.w.dh, o.w.rank, x, h)
  }

  /** `y` is `h` or lies somewhere inside it. */
  ghost predicate Desc(o: Own, y: nat, h: nat)
    requires Ranked(o.w.ent, o.w.par, o.w.dh, o.w.rank)
  {
    y == h || (y in o.w.ent && y in o.w.par && Up(o, o.w.par[y], h))
  }

  ghost predicate TreeOk(o: Own) {
    && Ranked(o.w.ent, o.w.par, o.w.dh, o.w.rank)
    && (forall h {:trigger o.w.par[h]} :: h in o.w.ent ==> h in o.w.par && o.w.par[h] in o.w.dh)
  }

  lemma {:induction false} UpRank(o: Own, x: nat, h: nat)
    requires TreeOk(o) && x in o.w.dh && Up(o, x, h)
    ensures h in o.w.dh && h in o.w.rank && x in o.w.rank && o.w.rank[h] <= o.w.rank[x]
    decreases if x in o.w.rank then o.w.rank[x] else 0
  {
    if x != h { UpRank(o, o.w.par[x], h); }
  }

  lemma {:induction false} UpTrans(o: Own, x: nat, c: nat, h: nat)
    requires TreeOk(o) && x in o.w.dh && Up(o, x, c) && Up(o, c, h)
    ensures Up(o, x, h)
    decreases if x in o.w.rank then o.w.rank[x] else 0
  {
    if x != c { UpTrans(o, o.w.par[x], c, h); }
  }

  /** Two directories above the same one lie on one line. */
  lemma {:induction false} UpLinear(o: Own, x: nat, a: nat, b: nat)
    requires TreeOk(o) && x in o.w.dh && Up(o, x, a) && Up(o, x, b)
    ensures Up(o, a, b) || Up(o, b, a)
    decreases if x in o.w.rank then o.w.rank[x] else 0
  {
    if x != a && x != b { UpLinear(o, o.w.par[x], a, b); }
  }

  /** A directory does not lie inside something it names. */
  lemma NotInside(o: Own, d: nat, c: nat)
    requires TreeOk(o) && d in o.w.dh && c in o.w.ent && o.w.par[c] == d
    ensures !Up(o, d, c)
  {
    if Up(o, d, c) { UpRank(o, d, c); }
  }

  /** Nothing lies inside two different things named in one directory. */
  lemma SiblingsApart(o: Own, d: nat, a: nat, b: nat, y: nat)
    requires TreeOk(o) && a in o.w.ent && b in o.w.ent && o.w.par[a] == d && o.w.par[b] == d && a != b
    ensures !(Desc(o, y, a) && Desc(o, y, b))
  {
    NotInside(o, d, a);
    NotInside(o, d, b);
    if Desc(o, y, a) && Desc(o, y, b) {
      if y != a && y != b { UpLinear(o, o.w.par[y], a, b); }
    }
  }

  /** What lies inside a child lies inside, but is not, the parent. */
  lemma DescUp(o: Own, y: nat, c: nat, h: nat)
    requires TreeOk(o) && c in o.w.ent && o.w.par[c] == h && Desc(o, y, c)
    ensures Desc(o, y, h) && y != h
  {
    assert Up(o, h, h);
    if y != c {
      UpRank(o, o.w.par[y], c);
      assert Up(o, c, h);
      UpTrans(o, o.w.par[y], c, h);
    }
  }

  // ---------------------------------------------------------------- listings

  lemma {:induction false} ListingDistinct(dirs: Dirs, ent: map<nat, Entry>, home: Link, bl: seq<nat>)
    requires Entries(dirs, ent, home) && NoDup(bl)
    ensures Distinct(Listing(dirs, bl))
  {
    if |bl| > 0 {
      var n := |bl| - 1;
      ListingDistinct(dirs, ent, home, bl[..n]);
      ListingLast(dirs, bl);
      hide Listing;
      if bl[n] in dirs {
        LastApart(dirs, ent, home, bl);
        assert Distinct(dirs[bl[n]]);
        hide Entries;
        BothDistinct(Listing(dirs, bl[..n]), dirs[bl[n]]);
      }
    }
  }

  lemma LastApart(dirs: Dirs, ent: map<nat, Entry>, home: Link, bl: seq<nat>)
    requires Entries(dirs, ent, home) && NoDup(bl) && |bl| > 0 && bl[|bl| - 1] in dirs
    ensures Apart(Listing(dirs, bl[..|bl| - 1]), dirs[bl[|bl| - 1]])
  {
    hide Listing, Entries;
    var n := |bl| - 1;
    var a, b := Listing(dirs, bl[..n]), dirs[bl[n]];
    forall i, j | 0 <= i < |a| && 0 <= j < |b| ensures a[i].anode != b[j].anode {
      ListingMember(dirs, bl[..n], a[i]);
      var k :| 0 <= k < n && bl[..n][k] in dirs && a[i] in dirs[bl[..n][k]];
      var m :| 0 <= m < |dirs[bl[k]]| && dirs[bl[k]][m] == a[i];
      EntryAt(dirs, ent, home, bl[k], m);
      EntryAt(dirs, ent, home, bl[n], j);
    }
  }

  /** No entry of one list names the head of an entry of the other. */
  ghost predicate Apart(a: seq<Entry>, b: seq<Entry>) {
    forall i, j :: 0 <= i < |a| && 0 <= j < |b| ==> a[i].anode != b[j].anode
  }

  lemma BothDistinct(a: seq<Entry>, b: seq<Entry>)
    requires Distinct(a) && Distinct(b) && Apart(a, b)
    ensures Distinct(a + b)
  {
  }

  lemma ListingLast(dirs: Dirs, bl: seq<nat>)
    requires |bl| > 0
    ensures Listing(dirs, bl) == Listing(dirs, bl[..|bl| - 1]) + if bl[|bl| - 1] in dirs then dirs[bl[|bl| - 1]] else []
  {
  }

  /** `es` is what directory `d` lists. */
  ghost predicate Lists(o: Own, d: nat, es: seq<Entry>) {
    d in o.w.dh && d in o.w.path && es == Listing(o.f.dirs, Blocks(o.f.tab, o.w.path[d]))
  }

  /** Each listed entry names a different head in `d`. */
  ghost predicate Kids(o: Own, d: nat, es: seq<Entry>) {
    && (forall i :: 0 <= i < |es| ==> Kid(o, d, es[i]))
    && Distinct(es)
  }

  ghost predicate Kid(o: Own, d: nat, e: Entry) {
    var h := e.anode;
    h in o.w.ent && h in o.w.par && h in o.w.path && o.w.ent[h] == e && o.w.par[h] == d && (h in o.w.dh <==> IsDir(e))
  }

  lemma ListedKid(g: Geo, o: Own, sect: Sectors, d: nat, es: seq<Entry>, i: nat)
    requires Lists(o, d, es) && i < |es| && Inv(g, o, sect)
    ensures Kid(o, d, es[i])
  {
    hide Inv, Blocks, Listing;
    assert es[i] in es && NameEqCi(es[i].name, es[i].name);
    hide NameEqCi;
    var b, j := ListedAt(o.f.dirs, Blocks(o.f.tab, o.w.path[d]), es[i], es[i].name);
    FoundEntry(g, o, sect, d, b, j, es[i].name);
  }

  lemma ListedKids(g: Geo, o: Own, sect: Sectors, d: nat, es: seq<Entry>)
    requires Lists(o, d, es) && Inv(g, o, sect)
    ensures Kids(o, d, es)
  {
    hide Chains, Nodes, Cover, Area, Kinds, Entries, Heads, Parents, Names, SectorsOk, Contents, Ranked, Kid, Distinct,
         IsPath, Blocks, Listing;
    forall i | 0 <= i < |es| ensures Kid(o, d, es[i]) { ListedKid(g, o, sect, d, es, i); }
    ChainsAt(o.f.tab, o.w.path, d);
    PathNoDup(o.f.tab, d, o.w.path[d]);
    BlocksNoDup(o.f.tab, o.w.owner, o.w.path[d]);
    ListingDistinct(o.f.dirs, o.w.ent, o.w.home, Blocks(o.f.tab, o.w.path[d]));
  }

  lemma TreeIsOk(g: Geo, o: Own, sect: Sectors)
    requires Inv(g, o, sect)
    ensures TreeOk(o)
  {
    hide Chains, Nodes, Cover, Area, Kinds, Entries, Heads, Names, SectorsOk, Contents;
  }

  // ---------------------------------------------------------------- what the scan claims

  /** All these blocks belong to chains of `h` or of something inside it; with `below`, not to `h` itself. */
  ghost predicate BelongTo(o: Own, bl: seq<nat>, h: nat, below: bool)
    requires TreeOk(o)
  {
    forall x :: x in bl ==> x in o.w.owner && o.w.owner[x] in o.w.node && Desc(o, o.w.node[o.w.owner[x]], h)
                            && (below ==> o.w.node[o.w.owner[x]] != h)
  }

  /** All these blocks belong to something one of the first `n` entries names. */
  ghost predicate BelongAmong(o: Own, bl: seq<nat>, es: seq<Entry>, n: nat)
    requires TreeOk(o) && n <= |es|
  {
    forall x :: x in bl ==> x in o.w.owner && o.w.owner[x] in o.w.node
                            && exists i :: 0 <= i < n && Desc(o, o.w.node[o.w.owner[x]], es[i].anode)
  }

  lemma OwnBelong(vol: Vol, g: Geo, o: Own, sect: Sectors, e: Entry, d: nat)
    requires TreeOk(o) && Kid(o, d, e) && Shows(vol, g, o) && Inv(g, o, sect)
    ensures NoDup(OwnBlocks(vol, e)) && EntryOk(vol, e, true)
    ensures forall x :: x in OwnBlocks(vol, e) ==> x in o.w.owner && o.w.owner[x] in o.w.node
                                                   && o.w.node[o.w.owner[x]] == e.anode
  {
    hide Chains, Nodes, Cover, Area, Kinds, Entries, Heads, Parents, Names, SectorsOk, Contents, Ranked, IsPath, Blocks,
         ReadableBlocks, FileSize;
    var h := e.anode;
    ChainsAt(o.f.tab, o.w.path, h);
    PathNoDup(o.f.tab, h, o.w.path[h]);
    BlocksNoDup(o.f.tab, o.w.owner, o.w.path[h]);
    if !IsDir(e) { SizeFits(g, o.f.tab, o.w.path, o.w.ent, o.w.data, sect, h); }
    assert g.bs * |Blocks(o.f.tab, o.w.path[h])| == |Blocks(o.f.tab, o.w.path[h])| * vol.bs;
    forall x | x in OwnBlocks(vol, e) ensures x in o.w.owner && o.w.owner[x] in o.w.node
    && o.w.node[o.w.owner[x]] == h {
      ChainBlocksOwned(o.f.tab, o.w.path, o.w.node, o.w.owner, h, x);
    }
  }

  lemma BelowBelong(o: Own, bl: seq<nat>, h: nat, es: seq<Entry>)
    requires TreeOk(o) && Kids(o, h, es) && BelongAmong(o, bl, es, |es|)
    ensures BelongTo(o, bl, h, true)
  {
    hide Desc;
    forall x | x in bl ensures x in o.w.owner && o.w.owner[x] in o.w.node && Desc(o, o.w.node[o.w.owner[x]], h)
    && o.w.node[o.w.owner[x]] != h {
      var i :| 0 <= i < |es| && Desc(o, o.w.node[o.w.owner[x]], es[i].anode);
      assert Kid(o, h, es[i]);
      DescUp(o, o.w.node[o.w.owner[x]], es[i].anode, h);
    }
  }

  /** What entry `i` claims is different from what earlier entries claim. */
  lemma ApartFromEarlier(o: Own, d: nat, es: seq<Entry>, i: nat, had: seq<nat>, bl: seq<nat>)
    requires TreeOk(o) && Kids(o, d, es) && i < |es| && BelongAmong(o, had, es, i)
             && BelongTo(o, bl, es[i].anode, false)
    ensures Elems(had) !! Elems(bl)
  {
    hide Desc;
    forall x | x in had && x in bl ensures false {
      var y := o.w.node[o.w.owner[x]];
      var j :| 0 <= j < i && Desc(o, y, es[j].anode);
      assert Kid(o, d, es[j]) && Kid(o, d, es[i]);
      SiblingsApart(o, d, es[j].anode, es[i].anode, y);
    }
  }

  /** No directory in or below the first `n` entries is nested deeper than the scan goes. */
  ghost predicate Shallow(vol: Vol, es: seq<Entry>, path: Path, n: nat)
    requires n <= |es| && Halts(vol, es, path)
    decreases Depth(vol, es, path), n
  {
    n > 0 ==>
      && Shallow(vol, es, path, n - 1)
      && (IsDir(es[n - 1]) ==> Slashes(Join(path, es[n - 1].name)) <= MAX_DEPTH)
      && (Enters(vol, es[n - 1], path) ==>
            (SubDirHalts(vol, es, path, n - 1);
             Shallow(vol, vol.list(es[n - 1].anode).value, Join(path, es[n - 1].name),
                     |vol.list(es[n - 1].anode).value|)))
  }

  ghost predicate ShallowDir(vol: Vol, d: nat, path: Path) {
    Slashes(path) <= MAX_DEPTH && (Opens(vol, d, path) ==> DirHalts(vol, d, path)
                                                           && Shallow(vol, vol.list(d).value, path,
                                                            |vol.list(d).value|))
  }

  lemma ShallowMore(vol: Vol, es: seq<Entry>, path: Path, i: nat)
    requires i < |es| && Halts(vol, es, path)
    ensures Shallow(vol, es, path, i + 1) <==>
              && Shallow(vol, es, path, i) && (IsDir(es[i]) ==> Slashes(Join(path, es[i].name)) <= MAX_DEPTH)
              && (Enters(vol, es[i], path) ==> ShallowDir(vol, es[i].anode, Join(path, es[i].name)))
  {
    hide Join, Halts, Slashes, ReadableBlocks;
    if Enters(vol, es[i], path) { SubDirHalts(vol, es, path, i); }
  }

  /** What can be scanned without an error is not nested too deep. */
  lemma {:induction false} SoundShallow(vol: Vol, es: seq<Entry>, path: Path, n: nat)
    requires n <= |es| && Halts(vol, es, path) && Sound(vol, es, path, n, false)
    ensures Shallow(vol, es, path, n)
    decreases Depth(vol, es, path), n
  {
    hide Join, Halts, Enters, EntryOk, Shallow, Sound;
    if n == 0 {
      assert Shallow(vol, es, path, 0) by { NoneShallow(vol, es, path); }
    } else {
      SoundMore(vol, es, path, n - 1, false);
      ShallowMore(vol, es, path, n - 1);
      SoundShallow(vol, es, path, n - 1);
      EntersOpens(vol, es[n - 1], path);
      if IsDir(es[n - 1]) {
        SubDirHalts(vol, es, path, n - 1);
        SoundShallow(vol, vol.list(es[n - 1].anode).value, Join(path, es[n - 1].name),
                     |vol.list(es[n - 1].anode).value|);
      }
    }
  }

  lemma NoneShallow(vol: Vol, es: seq<Entry>, path: Path)
    requires Halts(vol, es, path)
    ensures Shallow(vol, es, path, 0)
  {
  }

  /** Sound, sized, without double claims, and every claim belongs to an entry. */
  ghost predicate Passed(vol: Vol, o: Own, es: seq<Entry>, path: Path, n: nat)
    requires n <= |es| && Halts(vol, es, path) && TreeOk(o)
  {
    Sound(vol, es, path, n, true) && Sound(vol, es, path, n, false) && NoDup(Claimed(vol, es, path, n))
    && BelongAmong(o, Claimed(vol, es, path, n), es, n)
  }

  lemma {:induction false} Passes(vol: Vol, g: Geo, o: Own, sect: Sectors, d: nat, es: seq<Entry>, path: Path, n: nat)
    requires n <= |es| && Halts(vol, es, path) && Shallow(vol, es, path, n)
    requires TreeOk(o) && Shows(vol, g, o) && Lists(o, d, es) && Inv(g, o, sect)
    ensures Passed(vol, o, es, path, n)
    decreases Depth(vol, es, path), n
  {
    hide Inv, Halts, Shows, TreeOk, Passed, Kids, EntryOk, Lists, Listing, Blocks, Shallow, Join, Slashes, Enters;
    if n == 0 {
      NothingClaimed(vol, o, es, path);
    } else {
      var i := n - 1;
      var e := es[i];
      var sub := Join(path, e.name);
      ShallowMore(vol, es, path, i);
      Passes(vol, g, o, sect, d, es, path, i);
      ListedKids(g, o, sect, d, es);
      ListedKid(g, o, sect, d, es, i);
      OwnBelong(vol, g, o, sect, e, d);
      if IsDir(e) {
        SubListing(vol, g, o, e, d);
        Weaker(vol, e, true);
        EntersOpens(vol, e, path);
        SubDirHalts(vol, es, path, i);
        var es' := vol.list(e.anode).value;
        Passes(vol, g, o, sect, e.anode, es', sub, |es'|);
        ListedKids(g, o, sect, e.anode, es');
        DirPassed(vol, o, es, path, i, d);
      } else {
        FilePassed(vol, o, es, path, i, d);
      }
    }
  }

  lemma NothingClaimed(vol: Vol, o: Own, es: seq<Entry>, path: Path)
    requires Halts(vol, es, path) && TreeOk(o)
    ensures Passed(vol, o, es, path, 0)
  {
    hide Halts, TreeOk;
  }

  lemma SubListing(vol: Vol, g: Geo, o: Own, e: Entry, d: nat)
    requires Shows(vol, g, o) && Kid(o, d, e) && IsDir(e)
    ensures vol.list(e.anode).Some? && Lists(o, e.anode, vol.list(e.anode).value)
  {
    hide Blocks, Listing, ReadableBlocks;
  }

  /** The blocks of one entry's own chain. */
  ghost predicate OwnIs(vol: Vol, o: Own, e: Entry) {
    forall x :: x in OwnBlocks(vol, e) ==> x in o.w.owner && o.w.owner[x] in o.w.node
                                           && o.w.node[o.w.owner[x]] == e.anode
  }

  lemma FilePassed(vol: Vol, o: Own, es: seq<Entry>, path: Path, i: nat, d: nat)
    requires i < |es| && Halts(vol, es, path) && TreeOk(o) && Kids(o, d, es)
    requires Passed(vol, o, es, path, i) && !IsDir(es[i]) && EntryOk(vol, es[i], true) && NoDup(OwnBlocks(vol, es[i]))
             && OwnIs(vol, o, es[i])
    ensures Passed(vol, o, es, path, i + 1)
  {
    hide Halts, TreeOk, Kids, Sound, EntryOk, Claimed, ClaimedBelow;
    var e := es[i];
    ClaimedMore(vol, es, path, i);
    Weaker(vol, e, true);
    SoundMore(vol, es, path, i, true);
    SoundMore(vol, es, path, i, false);
    AddClaims(vol, o, es, path, i, d, Claimed(vol, es, path, i), OwnBlocks(vol, e), []);
  }

  lemma DirPassed(vol: Vol, o: Own, es: seq<Entry>, path: Path, i: nat, d: nat)
    requires i < |es| && Halts(vol, es, path) && TreeOk(o) && Kids(o, d, es)
    requires Passed(vol, o, es, path, i) && IsDir(es[i]) && EntryOk(vol, es[i], true) && NoDup(OwnBlocks(vol, es[i]))
             && OwnIs(vol, o, es[i])
    requires Opens(vol, es[i].anode, Join(path, es[i].name)) && DirHalts(vol, es[i].anode, Join(path, es[i].name))
    requires Kids(o, es[i].anode, vol.list(es[i].anode).value)
    requires Passed(vol, o, vol.list(es[i].anode).value, Join(path, es[i].name), |vol.list(es[i].anode).value|)
    ensures Passed(vol, o, es, path, i + 1)
  {
    hide Halts, TreeOk, Kids, Sound, EntryOk, Claimed, ClaimedBelow, Join, Enters, Slashes;
    var e := es[i];
    var sub, es' := Join(path, e.name), vol.list(e.anode).value;
    ClaimedMore(vol, es, path, i);
    Weaker(vol, e, true);
    EntersOpens(vol, e, path);
    SoundMore(vol, es, path, i, true);
    SoundMore(vol, es, path, i, false);
    BelowBelong(o, Claimed(vol, es', sub, |es'|), e.anode, es');
    AddClaims(vol, o, es, path, i, d, Claimed(vol, es, path, i), OwnBlocks(vol, e), Claimed(vol, es', sub, |es'|));
  }

  /** Adding the claims of one entry and of what is below it. */
  lemma AddClaims(vol: Vol, o: Own, es: seq<Entry>, path: Path, i: nat, d: nat, had: seq<nat>, own: seq<nat>,
                  below: seq<nat>)
    requires TreeOk(o) && Kids(o, d, es) && i < |es| && NoDup(had) && NoDup(own) && NoDup(below)
             && BelongAmong(o, had, es, i)
    requires forall x :: x in own ==> x in o.w.owner && o.w.owner[x] in o.w.node
                                      && o.w.node[o.w.owner[x]] == es[i].anode
    requires BelongTo(o, below, es[i].anode, true)
    ensures NoDup(had + own + below) && BelongAmong(o, had + own + below, es, i + 1)
  {
    hide Kids, Ranked;
    var h := es[i].anode;
    assert Desc(o, h, h);
    hide Desc;
    assert BelongTo(o, own, h, false) && BelongTo(o, below, h, false);
    ApartFromEarlier(o, d, es, i, had, own);
    ApartFromEarlier(o, d, es, i, had, below);
    forall x | x in own && x in below ensures false { }
    FreeBoth(had, own, {});
    FreeBoth(had + own, below, {});
    forall x | x in had + own + below
      ensures x in o.w.owner && o.w.owner[x] in o.w.node
              && exists k :: 0 <= k < i + 1 && Desc(o, o.w.node[o.w.owner[x]], es[k].anode)
    {
      if x in had {
        var k :| 0 <= k < i && Desc(o, o.w.node[o.w.owner[x]], es[k].anode);
      } else {
        assert Desc(o, o.w.node[o.w.owner[x]], es[i].anode);
      }
    }
  }

  // ---------------------------------------------------------------- the scan of a tree ends

  /** Directories ranked above `d`. */
  ghost function Higher(o: Own, d: nat): set<nat> {
    set x | x in o.w.dh && x in o.w.rank && d in o.w.rank && o.w.rank[x] > o.w.rank[d]
  }

  lemma HigherLess(o: Own, d: nat, c: nat)
    requires c in o.w.dh && c in o.w.rank && d in o.w.rank && o.w.rank[c] > o.w.rank[d]
    ensures |Higher(o, c)| < |Higher(o, d)|
  {
    assert c in Higher(o, d) && c !in Higher(o, c) && Higher(o, c) <= Higher(o, d) - {c};
    SubsetCard(Higher(o, c), Higher(o, d) - {c});
  }

  lemma KidRanked(o: Own, d: nat, e: Entry)
    requires TreeOk(o) && Kid(o, d, e) && IsDir(e)
    ensures e.anode in o.w.dh && e.anode in o.w.rank && d in o.w.rank && o.w.rank[e.anode] > o.w.rank[d]
  {
  }

  /** Whatever the names, the scan of a consistent volume ends. */
  lemma {:induction false} TreeEnds(vol: Vol, g: Geo, o: Own, sect: Sectors, d: nat, es: seq<Entry>, path: Path)
    requires TreeOk(o) && Shows(vol, g, o) && Lists(o, d, es) && Inv(g, o, sect)
    ensures Ends(vol, es, path, |Higher(o, d)|)
    decreases |Higher(o, d)|
  {
    hide Inv, TreeOk, Shows, Lists, Higher, Kid, Join, ReadableBlocks, Slashes;
    var n := |Higher(o, d)|;
    forall i | 0 <= i < |es| && Enters(vol, es[i], path) ensures n > 0
    && Ends(vol, ListedBelow(vol, es[i], path), Join(path, es[i].name), n - 1) {
      var e := es[i];
      ListedKid(g, o, sect, d, es, i);
      KidRanked(o, d, e);
      HigherLess(o, d, e.anode);
      SubListing(vol, g, o, e, d);
      TreeEnds(vol, g, o, sect, e.anode, vol.list(e.anode).value, Join(path, e.name));
      EndsMore(vol, vol.list(e.anode).value, Join(path, e.name), |Higher(o, e.anode)|, n - 1);
    }
  }

  /** No directory of the volume is nested deeper than the scan goes. */
  ghost predicate NotTooDeep(vol: Vol) {
    ShallowDir(vol, ANODE_ROOTDIR, ROOT)
  }

  /** The scan of a consistent volume ends; it finds an error exactly when directories are nested too
      deep, and otherwise nothing to warn of. */
  lemma ConsistentScans(vol: Vol, g: Geo, o: Own, sect: Sectors)
    requires Shows(vol, g, o) && Inv(g, o, sect)
    ensures DirHalts(vol, ANODE_ROOTDIR, ROOT)
    ensures Scans(vol, ANODE_ROOTDIR, ROOT, {}) <==> NotTooDeep(vol)
    ensures NotTooDeep(vol) ==> Clean(vol, ANODE_ROOTDIR, ROOT, true)
  {
    hide Inv, Shows, TreeOk, Shallow, Lists, Sound, Claimed, Slashes, BelongAmong, Ends;
    TreeIsOk(g, o, sect);
    RootListed(vol, g, o, sect);
    RootPath();
    var es := vol.list(ANODE_ROOTDIR).value;
    TreeEnds(vol, g, o, sect, ANODE_ROOTDIR, es, ROOT);
    assert Halts(vol, es, ROOT);
    hide Halts;
    if Shallow(vol, es, ROOT, |es|) { Passes(vol, g, o, sect, ANODE_ROOTDIR, es, ROOT, |es|); }
    if Sound(vol, es, ROOT, |es|, false) { SoundShallow(vol, es, ROOT, |es|); }
  }

  lemma RootListed(vol: Vol, g: Geo, o: Own, sect: Sectors)
    requires Shows(vol, g, o) && Inv(g, o, sect)
    ensures vol.list(ANODE_ROOTDIR).Some? && Lists(o, ANODE_ROOTDIR, vol.list(ANODE_ROOTDIR).value)
  {
    hide Chains, Nodes, Cover, Area, Kinds, Entries, Parents, Names, SectorsOk, Contents, Ranked, Blocks, Listing,
         ReadableBlocks;
  }

  // ---------------------------------------------------------------- reading the device

  lemma {:induction false} SameBlocks(t: nat -> Option<Slot>, tab: Tab, p: seq<nat>)
    requires forall i :: 0 <= i < |p| ==> p[i] in tab && t(p[i]) == Some(tab[p[i]])
    ensures PathBlocks(t, p) == Blocks(tab, p)
  {
    if |p| > 0 { SameBlocks(t, tab, p[1..]); }
  }

  /** Reading anodes from the device finds every chain of the volume. */
  lemma DeviceShows(g: Geo, dev: Store, f: Flat, abk: Link, miss: nat, h: nat, p: seq<nat>)
    requires GeoOk(g) && g.ipb > 0 && g.stride > 0 && CommOk(g, dev, f, abk, miss) && IsPath(f.tab, h, p)
             && ANODE_EOF !in f.tab
    ensures ReadableBlocks(Steps.Reader(g, dev), h) == Some(Blocks(f.tab, p))
  {
    hide ReadableBlocks, Blocks, PathBlocks, IsRun, TabTie, DirTie, GeoOk, ReadAnode;
    PathReads(g, dev, f, abk, miss, h, p);
    PathShort(g, dev, f, abk, miss, h, p);
    var t := Steps.Reader(g, dev);
    ReadableBlocksIff(t, h, p);
    forall i | 0 <= i < |p| ensures p[i] in f.tab
    && t(p[i]) == Some(f.tab[p[i]]) { ReadTied(g, dev, abk, f.tab, p[i]); }
    SameBlocks(t, f.tab, p);
  }

  // ---------------------------------------------------------------- the scan's view of a device

  /** The chain of anodes from `nr` on, if it ends within `left` anodes. */
  function Follow(t: nat -> Option<Slot>, nr: nat, left: nat): Option<seq<Anode>>
    decreases left
  {
    if nr == ANODE_EOF then Some([])
    else if left == 0 || t(nr).None? then None
    else match Follow(t, t(nr).value.next, left - 1)
         case None => None
         case Some(c) => Some([Anode(nr, t(nr).value)] + c)
  }

  /** Following a chain succeeds exactly when it can be read, and gives its anodes. */
  lemma {:induction false} FollowIff(t: nat -> Option<Slot>, nr: nat, left: nat, p: seq<nat>)
    ensures IsRun(t, nr, p) && |p| <= left ==> Follow(t, nr, left).Some?
    ensures var r := Follow(t, nr, left);
            r.Some? ==> IsRun(t, nr, Nrs(r.value)) && |r.value| <= left
                        && forall i :: 0 <= i < |r.value| ==> t(r.value[i].nr) == Some(r.value[i].slot)
    decreases left
  {
    if nr != ANODE_EOF && left > 0 && t(nr).Some? {
      FollowIff(t, t(nr).value.next, left - 1, if |p| > 0 then p[1..] else []);
      var r := Follow(t, t(nr).value.next, left - 1);
      if r.Some? { assert Nrs([Anode(nr, t(nr).value)] + r.value)[1..] == Nrs(r.value); }
    }
  }

  /** The entries of these blocks, in order. Blocks of other kinds are skipped. */
  function DirsAt(dev: Store, bl: seq<nat>): Option<seq<Entry>> {
    if |bl| == 0 then Some([])
    else match DirsAt(dev, bl[..|bl| - 1])
         case None => None
         case Some(es) =>
           var b := bl[|bl| - 1];
           if b !in dev then None else Some(es + if dev[b].DirBlk? then dev[b].ents else [])
  }

  lemma {:induction false} DirsAre(dev: Store, dirs: Dirs, bl: seq<nat>)
    requires DirTie(dev, dirs) && AllIn(bl, dirs)
    ensures DirsAt(dev, bl) == Some(Listing(dirs, bl))
  {
    if |bl| > 0 { DirsAre(dev, dirs, bl[..|bl| - 1]); }
  }

  /** What the scan of a device reads. */
  function DeviceVol(g: Geo, dev: Store): Vol
    requires g.ipb > 0 && g.stride > 0
  {
    var t := Steps.Reader(g, dev);
    Vol(t, (d: nat) => match Follow(t, d, MAX_CHAIN_LEN) case None => None case Some(c) => DirsAt(dev, BlockList(c)),
        g.bs)
  }

  /** Following the anodes of a directory leads to its blocks. */
  lemma DirFollowed(g: Geo, dev: Store, f: Flat, abk: Link, miss: nat, d: nat, p: seq<nat>)
    requires GeoOk(g) && g.ipb > 0 && g.stride > 0 && CommOk(g, dev, f, abk, miss) && IsPath(f.tab, d, p)
             && ANODE_EOF !in f.tab
    ensures var c := Follow(Steps.Reader(g, dev), d, MAX_CHAIN_LEN); c.Some? && BlockList(c.value) == Blocks(f.tab, p)
  {
    hide Blocks, IsRun, TabTie, DirTie, GeoOk, ReadAnode, Follow, BlockList, IsPath;
    PathReads(g, dev, f, abk, miss, d, p);
    PathShort(g, dev, f, abk, miss, d, p);
    var t := Steps.Reader(g, dev);
    FollowIff(t, d, MAX_CHAIN_LEN, p);
    var c := Follow(t, d, MAX_CHAIN_LEN).value;
    RunUnique(t, d, p, Nrs(c));
    ChainReads(g, dev, f, abk, miss, d, p, c);
    BlockListIs(f.tab, p, c);
  }

  lemma DeviceLists(g: Geo, dev: Store, f: Flat, abk: Link, miss: nat, d: nat, p: seq<nat>)
    requires GeoOk(g) && g.ipb > 0 && g.stride > 0 && CommOk(g, dev, f, abk, miss) && IsPath(f.tab, d, p)
             && ANODE_EOF !in f.tab
    requires AllIn(Blocks(f.tab, p), f.dirs)
    ensures DeviceVol(g, dev).list(d) == Some(Listing(f.dirs, Blocks(f.tab, p)))
  {
    hide Blocks, TabTie, DirTie, GeoOk, Listing, AllIn, Follow, DirsAt, BlockList, IsPath, Steps.Reader;
    DirFollowed(g, dev, f, abk, miss, d, p);
    DirsAre(dev, f.dirs, Blocks(f.tab, p));
  }

  /** The device of a consistent volume shows the volume. */
  lemma VolumeShows(g: Geo, dev: Store, abk: Link, miss: nat, o: Own, sect: Sectors)
    requires GeoOk(g) && g.ipb > 0 && g.stride > 0 && CommOk(g, dev, o.f, abk, miss) && Inv(g, o, sect)
    ensures Shows(DeviceVol(g, dev), g, o)
  {
    hide Inv, GeoOk, CommOk, ReadableBlocks, Listing, Blocks, IsPath, Steps.Reader, Follow, DirsAt, BlockList, AllIn,
         Agree;
    var vol := DeviceVol(g, dev);
    forall h | h in o.w.path ensures ReadableBlocks(vol.t, h) == Some(Blocks(o.f.tab, o.w.path[h])) {
      HeadInTab(g, o, sect, h);
      DeviceShows(g, dev, o.f, abk, miss, h, o.w.path[h]);
    }
    hide DeviceVol;
    forall d | d in o.w.dh && d in o.w.path
      ensures vol.list(d) == Some(Listing(o.f.dirs, Blocks(o.f.tab, o.w.path[d]))) {
      DirChainFacts(g, o, sect, d);
      DeviceLists(g, dev, o.f, abk, miss, d, o.w.path[d]);
    }
  }

  lemma DeviceSize(g: Geo, dev: Store)
    requires g.ipb > 0 && g.stride > 0
    ensures DeviceVol(g, dev).bs == g.bs
  {
  }
}
