/** The filesystem check: a scan of the directory tree, and what its clean verdict certifies. */
module Check {
  import opened Types
  import opened Ownership
  import opened Anodes
  import opened Transitions
  import opened Runs
  import opened Steps
  import opened SectorData
  import opened Descent

  // ---------------------------------------------------------------- what the scan visits

  predicate IsFileEntry(e: Entry) {
    e.entryType < 0
  }

  /** Blocks the entry's own chain claims. */
  ghost function OwnBlocks(vol: Vol, e: Entry): seq<nat> {
    if !IsDir(e) && !IsFileEntry(e) then [] else
    match ReadableBlocks(vol.t, e.anode) case Some(bl) => bl case None => []
  }

  /** The entry's chain can be followed; with `strict`, a file's is also as long as its size needs. */
  ghost predicate EntryOk(vol: Vol, e: Entry, strict: bool) {
    IsDir(e) || IsFileEntry(e) ==>
      && ReadableBlocks(vol.t, e.anode).Some?
      && (strict && !IsDir(e) ==> FileSize(e) <= |OwnBlocks(vol, e)| * vol.bs)
  }

  /** The scan of a directory comes to an end. */
  ghost predicate DirHalts(vol: Vol, d: nat, path: Path) {
    Opens(vol, d, path) ==> Halts(vol, vol.list(d).value, path)
  }

  /** Everything in and below the first `n` entries of a directory at `path` is in order. */
  ghost predicate Sound(vol: Vol, es: seq<Entry>, path: Path, n: nat, strict: bool)
    requires n <= |es| && Halts(vol, es, path)
    decreases Depth(vol, es, path), n
  {
    n > 0 ==>
      && Sound(vol, es, path, n - 1, strict) && EntryOk(vol, es[n - 1], strict)
      && (IsDir(es[n - 1]) ==>
            var sub := Join(path, es[n - 1].name);
            && Opens(vol, es[n - 1].anode, sub)
            && (SubHalts(vol, es, path, n - 1);
                Sound(vol, vol.list(es[n - 1].anode).value, sub, |vol.list(es[n - 1].anode).value|, strict)))
  }

  /** Blocks claimed in and below the first `n` entries, in the order of the scan. */
  ghost function Claimed(vol: Vol, es: seq<Entry>, path: Path, n: nat): seq<nat>
    requires n <= |es| && Halts(vol, es, path)
    decreases Depth(vol, es, path), n
  {
    if n == 0 then [] else
    Claimed(vol, es, path, n - 1) + OwnBlocks(vol, es[n - 1]) +
    if Enters(vol, es[n - 1], path)
    then SubHalts(vol, es, path, n - 1);
    Claimed(vol, vol.list(es[n - 1].anode).value, Join(path, es[n - 1].name), |vol.list(es[n - 1].anode).value|)
    else []
  }

  /** Blocks claimed below one entry. */
  ghost function ClaimedBelow(vol: Vol, e: Entry, path: Path): seq<nat> {
    if Enters(vol, e, path) then AllClaimed(vol, e.anode, Join(path, e.name)) else []
  }

  /** Everything in and below directory `d`. */
  ghost predicate Clean(vol: Vol, d: nat, path: Path, strict: bool) {
    Opens(vol, d, path) && DirHalts(vol, d, path) && Sound(vol, vol.list(d).value, path, |vol.list(d).value|, strict)
  }

  ghost function AllClaimed(vol: Vol, d: nat, path: Path): seq<nat> {
    if Opens(vol, d, path) && DirHalts(vol, d, path) then Claimed(vol, vol.list(d).value, path, |vol.list(d).value|)
                                                          else []
  }

  /** Below an entry that can be entered the scan ends too. */
  lemma SubDirHalts(vol: Vol, es: seq<Entry>, path: Path, i: nat)
    requires Halts(vol, es, path) && i < |es| && Enters(vol, es[i], path)
    ensures DirHalts(vol, es[i].anode, Join(path, es[i].name))
    ensures Depth(vol, vol.list(es[i].anode).value, Join(path, es[i].name)) < Depth(vol, es, path)
  {
    hide ReadableBlocks, Join, Halts;
    SubHalts(vol, es, path, i);
  }

  lemma NothingYet(s: set<nat>)
    ensures Free([], s) && Elems([]) == {}
  {
  }

  lemma OneMore(bl: seq<nat>, i: nat, s: set<nat>)
    requires i < |bl|
    ensures Elems(bl[..i + 1]) == Elems(bl[..i]) + {bl[i]}
    ensures NoDup(bl[..i + 1]) <==> NoDup(bl[..i]) && bl[i] !in Elems(bl[..i])
  {
    var a, b := bl[..i], bl[..i + 1];
    assert b == a + [bl[i]];
    if NoDup(b) {
      forall j, k | 0 <= j < k < |a| ensures a[j] != a[k] { assert b[j] != b[k]; }
      forall j | 0 <= j < |a| ensures a[j] != bl[i] { assert b[j] != b[i]; }
    }
  }

  /** Everything in and below the first `n` entries is in order, and the blocks it claims are all
      different and not taken. */
  ghost predicate Fine(vol: Vol, es: seq<Entry>, path: Path, n: nat, taken: set<nat>)
    requires n <= |es| && Halts(vol, es, path)
  {
    Sound(vol, es, path, n, false) && Free(Claimed(vol, es, path, n), taken)
  }

  ghost predicate Free(bl: seq<nat>, taken: set<nat>) {
    NoDup(bl) && Elems(bl) !! taken
  }

  /** `a` then `b` claim different blocks exactly when each does and `b` takes nothing of `a`. */
  lemma FreeBoth(a: seq<nat>, b: seq<nat>, taken: set<nat>)
    ensures Free(a + b, taken) <==> Free(a, taken) && Free(b, taken + Elems(a))
    ensures Elems(a + b) == Elems(a) + Elems(b)
  {
    var s := a + b;
    if Free(s, taken) {
      forall i, j | 0 <= i < j < |a| ensures a[i] != a[j] { assert s[i] == a[i] && s[j] == a[j]; }
      forall i, j | 0 <= i < j < |b| ensures b[i] != b[j] { assert s[|a| + i] == b[i] && s[|a| + j] == b[j]; }
      forall i, j | 0 <= i < |a| && 0 <= j < |b| ensures a[i] != b[j] { assert s[i] == a[i] && s[|a| + j] == b[j]; }
    }
    if Free(a, taken) && Free(b, taken + Elems(a)) {
      forall i, j | 0 <= i < |a| && 0 <= j < |b| ensures a[i] != b[j] { assert a[i] in Elems(a) && b[j] in Elems(b); }
    }
  }

  /** Directory `d` at this path can be scanned without an error. */
  ghost predicate Scans(vol: Vol, d: nat, path: Path, taken: set<nat>) {
    Clean(vol, d, path, false) && Free(AllClaimed(vol, d, path), taken)
  }

  /** What one more entry adds. */
  lemma FineMore(vol: Vol, es: seq<Entry>, path: Path, i: nat, taken: set<nat>)
    requires i < |es| && Halts(vol, es, path)
    ensures var had, own := Claimed(vol, es, path, i), OwnBlocks(vol, es[i]);
            Fine(vol, es, path, i + 1, taken) <==>
              && Fine(vol, es, path, i, taken) && EntryOk(vol, es[i], false) && Free(own, taken + Elems(had))
              && (IsDir(es[i]) ==> Scans(vol, es[i].anode, Join(path, es[i].name), taken + Elems(had) + Elems(own)))
  {
    hide Halts, EntryOk, OwnBlocks, Free, ClaimedBelow, Claimed, Sound, Enters, Join, Opens;
    var e, had, own := es[i], Claimed(vol, es, path, i), OwnBlocks(vol, es[i]);
    ClaimedMore(vol, es, path, i);
    SoundMore(vol, es, path, i, false);
    EntersOpens(vol, e, path);
    FreeBoth(had, own, taken);
    FreeBoth(had + own, ClaimedBelow(vol, e, path), taken);
    FreeNone(taken + Elems(had) + Elems(own));
    assert taken + Elems(had + own) == taken + Elems(had) + Elems(own);
  }

  lemma FreeNone(taken: set<nat>)
    ensures Free([], taken)
  {
  }

  lemma ClaimedMore(vol: Vol, es: seq<Entry>, path: Path, i: nat)
    requires i < |es| && Halts(vol, es, path)
    ensures Claimed(vol, es, path, i + 1) == Claimed(vol, es, path, i) + OwnBlocks(vol, es[i])
              + ClaimedBelow(vol, es[i], path)
    ensures Enters(vol, es[i], path) ==> DirHalts(vol, es[i].anode, Join(path, es[i].name)) &&
                                         ClaimedBelow(vol, es[i], path) == AllClaimed(vol, es[i].anode,
                                                            Join(path, es[i].name))
    ensures !IsDir(es[i]) ==> ClaimedBelow(vol, es[i], path) == []
  {
    hide Enters, Join, Halts;
    if Enters(vol, es[i], path) { SubDirHalts(vol, es, path, i); EntersOpens(vol, es[i], path); }
  }

  lemma EntersOpens(vol: Vol, e: Entry, path: Path)
    ensures Enters(vol, e, path) <==> IsDir(e) && EntryOk(vol, e, false) && Opens(vol, e.anode, Join(path, e.name))
  {
    hide ReadableBlocks, Join, Slashes;
  }

  /** What being sound says of one more entry. */
  lemma SoundMore(vol: Vol, es: seq<Entry>, path: Path, i: nat, strict: bool)
    requires i < |es| && Halts(vol, es, path)
    ensures Sound(vol, es, path, i + 1, strict) <==>
              && Sound(vol, es, path, i, strict) && EntryOk(vol, es[i], strict)
              && (IsDir(es[i]) ==> Clean(vol, es[i].anode, Join(path, es[i].name), strict))
  {
    hide Enters, Join, Halts, EntryOk, Opens;
    if EntryOk(vol, es[i], strict) { Weaker(vol, es[i], strict); }
    EntersOpens(vol, es[i], path);
    if Enters(vol, es[i], path) { SubDirHalts(vol, es, path, i); }
  }

  lemma Weaker(vol: Vol, e: Entry, strict: bool)
    requires EntryOk(vol, e, strict)
    ensures EntryOk(vol, e, false)
  {
    hide ReadableBlocks;
  }

  /** Blocks a file of this size needs. */
  function Needed(size: nat, bs: nat): nat
    requires bs > 0
  {
    if size == 0 then 0 else CeilDiv(size, bs); (size + bs - 1) / bs
  }

  lemma MoreBlocks(a: int, b: int, bs: nat)
    ensures a <= b ==> a * bs <= b * bs
  {
  }

  lemma NeededIff(size: nat, bs: nat, n: nat)
    requires bs > 0
    ensures n < Needed(size, bs) && size > 0 <==> n * bs < size
  {
    if size > 0 {
      CeilDiv(size, bs);
      hide Needed;
      MoreBlocks(n, Needed(size, bs) - 1, bs);
      MoreBlocks(Needed(size, bs), n, bs);
    }
  }

  lemma ClaimedElems(a: seq<nat>, b: seq<nat>, c: seq<nat>)
    ensures Elems(a + b + c) == Elems(a) + Elems(b) + Elems(c) && Elems([]) == {}
  {
  }

  // ---------------------------------------------------------------- what a clean verdict means

  /** Entry numbers leading from a directory down to some entry. */
  ghost predicate IsRoute(vol: Vol, es: seq<Entry>, r: seq<nat>)
    decreases |r|
  {
    && |r| > 0 && r[0] < |es|
    && (|r| > 1 ==> es[r[0]].entryType == ST_USERDIR && vol.list(es[r[0]].anode).Some?
                    && IsRoute(vol, vol.list(es[r[0]].anode).value, r[1..]))
  }

  ghost function Target(vol: Vol, es: seq<Entry>, r: seq<nat>): Entry
    requires IsRoute(vol, es, r)
    decreases |r|
  {
    if |r| == 1 then es[r[0]] else Target(vol, vol.list(es[r[0]].anode).value, r[1..])
  }

  /** The first `i` entries are part of the first `n`. */
  lemma {:induction false} SoundPart(vol: Vol, es: seq<Entry>, path: Path, n: nat, i: nat, strict: bool)
    requires i <= n <= |es| && Halts(vol, es, path) && Sound(vol, es, path, n, strict)
    ensures Sound(vol, es, path, i, strict)
    decreases n
  {
    hide Halts, EntryOk;
    if i < n {
      SoundMore(vol, es, path, n - 1, strict);
      SoundPart(vol, es, path, n - 1, i, strict);
    }
  }

  ghost predicate IsPrefix(a: seq<nat>, b: seq<nat>) {
    |a| <= |b| && b[..|a|] == a
  }

  lemma {:induction false} ClaimedPart(vol: Vol, es: seq<Entry>, path: Path, n: nat, i: nat)
    requires i <= n <= |es| && Halts(vol, es, path)
    ensures IsPrefix(Claimed(vol, es, path, i), Claimed(vol, es, path, n))
    decreases n
  {
    hide Halts, ClaimedBelow, OwnBlocks;
    if i < n {
      ClaimedPart(vol, es, path, n - 1, i);
      ClaimedMore(vol, es, path, n - 1);
      hide Claimed;
      var a, b := Claimed(vol, es, path, i), Claimed(vol, es, path, n - 1);
      var c := Claimed(vol, es, path, n);
      assert c[..|b|] == b && c[..|a|] == b[..|a|];
    }
  }

  /** Every entry a route leads to has a chain that can be followed to its end. */
  lemma {:induction false} RouteSound(vol: Vol, es: seq<Entry>, path: Path, r: seq<nat>, strict: bool)
    requires Halts(vol, es, path) && Sound(vol, es, path, |es|, strict) && IsRoute(vol, es, r)
    ensures EntryOk(vol, Target(vol, es, r), strict)
    decreases |r|
  {
    hide Halts, EntryOk;
    SoundPart(vol, es, path, |es|, r[0] + 1, strict);
    SoundMore(vol, es, path, r[0], strict);
    hide Sound, Join;
    if |r| > 1 {
      RouteSound(vol, vol.list(es[r[0]].anode).value, Join(path, es[r[0]].name), r[1..], strict);
    }
  }

  /** Blocks of the entry a route leads to are among those claimed. */
  lemma {:induction false} RouteClaimed(vol: Vol, es: seq<Entry>, path: Path, r: seq<nat>, x: nat)
    requires Halts(vol, es, path) && Sound(vol, es, path, |es|, false) && IsRoute(vol, es, r)
    requires x in OwnBlocks(vol, Target(vol, es, r))
    ensures x in (if |r| == 1 then OwnBlocks(vol, es[r[0]]) else ClaimedBelow(vol, es[r[0]], path))
    ensures x in Claimed(vol, es, path, r[0] + 1) && x in Claimed(vol, es, path, |es|)
    decreases |r|
  {
    hide Halts, EntryOk, OwnBlocks;
    var e := es[r[0]];
    hide Sound, Claimed, ClaimedBelow, Join, Enters, Opens;
    SoundPart(vol, es, path, |es|, r[0] + 1, false);
    SoundMore(vol, es, path, r[0], false);
    ClaimedMore(vol, es, path, r[0]);
    ClaimedPart(vol, es, path, |es|, r[0] + 1);
    EntersOpens(vol, e, path);
    if |r| > 1 {
      RouteClaimed(vol, vol.list(e.anode).value, Join(path, e.name), r[1..], x);
    }
    PrefixMember(Claimed(vol, es, path, r[0] + 1), Claimed(vol, es, path, |es|), x);
  }

  lemma PrefixMember(a: seq<nat>, b: seq<nat>, x: nat)
    requires IsPrefix(a, b) && x in a
    ensures x in b
  {
    var i :| 0 <= i < |a| && a[i] == x;
    assert b[..|a|][i] == b[i];
  }

  lemma PrefixNoDup(a: seq<nat>, b: seq<nat>)
    requires IsPrefix(a, b) && NoDup(b)
    ensures NoDup(a)
  {
    forall i, j | 0 <= i < j < |a| ensures a[i] != a[j] { assert b[..|a|][i] == b[i] && b[..|a|][j] == b[j]; }
  }

  lemma Split3(a: seq<nat>, b: seq<nat>, c: seq<nat>, x: nat, y: nat)
    requires NoDup(a + b + c)
    ensures NoDup(c) && (x in a && (y in b || y in c) ==> x != y) && (x in b && y in c ==> x != y)
  {
    var s := a + b + c;
    forall i, j | 0 <= i < j < |c| ensures c[i] != c[j] { assert c[i] == s[|a| + |b| + i] && c[j] == s[|a| + |b| + j]; }
    forall i, j | 0 <= i < |a| && 0 <= j < |b| ensures a[i] != b[j] { assert a[i] == s[i] && b[j] == s[|a| + j]; }
    forall i, j | 0 <= i < |a| && 0 <= j < |c| ensures a[i] != c[j] { assert a[i] == s[i] && c[j] == s[|a| + |b| + j]; }
    forall i, j | 0 <= i < |b| && 0 <= j < |c|
      ensures b[i] != c[j] { assert b[i] == s[|a| + i] && c[j] == s[|a| + |b| + j]; }
  }

  /** Two different routes lead to entries that share no block. */
  lemma {:induction false} RoutesApart(vol: Vol, es: seq<Entry>, path: Path, r: seq<nat>, s: seq<nat>, x: nat)
    requires Halts(vol, es, path) && Sound(vol, es, path, |es|, false)
    requires IsRoute(vol, es, r) && IsRoute(vol, es, s) && r != s && NoDup(Claimed(vol, es, path, |es|))
    requires x in OwnBlocks(vol, Target(vol, es, r))
    ensures x !in OwnBlocks(vol, Target(vol, es, s))
    decreases |r| + |s|
  {
    hide Halts, EntryOk, OwnBlocks, NoDup, Claimed, Sound, ClaimedBelow, Slashes;
    if x in OwnBlocks(vol, Target(vol, es, s)) {
      RouteClaimed(vol, es, path, r, x);
      RouteClaimed(vol, es, path, s, x);
      if r[0] < s[0] {
        Later(vol, es, path, r[0], s[0], x);
      } else if s[0] < r[0] {
        Later(vol, es, path, s[0], r[0], x);
      } else {
        SameEntry(vol, es, path, r, s, x);
      }
    }
  }

  /** What entries up to `i` claim, the later entry `j` does not. */
  lemma Later(vol: Vol, es: seq<Entry>, path: Path, i: nat, j: nat, x: nat)
    requires Halts(vol, es, path) && i < j < |es| && NoDup(Claimed(vol, es, path, |es|))
    ensures x in Claimed(vol, es, path, i + 1) ==> x !in OwnBlocks(vol, es[j]) && x !in ClaimedBelow(vol, es[j], path)
  {
    hide Halts, Claimed, ClaimedBelow, OwnBlocks, NoDup;
    ClaimedPart(vol, es, path, |es|, j + 1);
    PrefixNoDup(Claimed(vol, es, path, j + 1), Claimed(vol, es, path, |es|));
    ClaimedMore(vol, es, path, j);
    Split3(Claimed(vol, es, path, j), OwnBlocks(vol, es[j]), ClaimedBelow(vol, es[j], path), x, x);
    ClaimedPart(vol, es, path, j, i + 1);
    if x in Claimed(vol, es, path, i + 1) { PrefixMember(Claimed(vol, es, path, i + 1), Claimed(vol, es, path, j), x); }
  }

  /** Both routes start with the same entry. */
  lemma {:induction false} SameEntry(vol: Vol, es: seq<Entry>, path: Path, r: seq<nat>, s: seq<nat>, x: nat)
    requires Halts(vol, es, path) && Sound(vol, es, path, |es|, false)
    requires IsRoute(vol, es, r) && IsRoute(vol, es, s) && r != s && r[0] == s[0] && NoDup(Claimed(vol, es, path, |es|))
    requires x in OwnBlocks(vol, Target(vol, es, r))
    requires x in (if |r| == 1 then OwnBlocks(vol, es[r[0]]) else ClaimedBelow(vol, es[r[0]], path))
    ensures !(x in OwnBlocks(vol, Target(vol, es, s))
              && x in (if |s| == 1 then OwnBlocks(vol, es[s[0]]) else ClaimedBelow(vol, es[s[0]], path)))
    decreases |r| + |s|, 0
  {
    hide Halts, EntryOk, OwnBlocks, NoDup, Claimed, ClaimedBelow, Sound, Join, Enters, Opens;
    var i := r[0];
    var e := es[i];
    ClaimedPart(vol, es, path, |es|, i + 1);
    PrefixNoDup(Claimed(vol, es, path, i + 1), Claimed(vol, es, path, |es|));
    ClaimedMore(vol, es, path, i);
    Split3(Claimed(vol, es, path, i), OwnBlocks(vol, e), ClaimedBelow(vol, e, path), x, x);
    TailsDiffer(r, s);
    if |r| > 1 && |s| > 1 {
      SoundPart(vol, es, path, |es|, i + 1, false);
      SoundMore(vol, es, path, i, false);
      EntersOpens(vol, e, path);
      RoutesApart(vol, vol.list(e.anode).value, Join(path, e.name), r[1..], s[1..], x);
    }
  }

  lemma TailsDiffer(r: seq<nat>, s: seq<nat>)
    requires |r| > 0 && |s| > 0 && r[0] == s[0] && r != s
    ensures r[1..] != s[1..] && (|r| > 1 || |s| > 1)
  {
    assert r == [r[0]] + r[1..] && s == [s[0]] + s[1..];
  }

  // ---------------------------------------------------------------- the verdict, route by route

  /** The path of the entry a route leads to. */
  ghost function RoutePath(vol: Vol, es: seq<Entry>, path: Path, r: seq<nat>): Path
    requires IsRoute(vol, es, r)
    decreases |r|
  {
    var sub := Join(path, es[r[0]].name);
    if |r| == 1 then sub else RoutePath(vol, vol.list(es[r[0]].anode).value, sub, r[1..])
  }

  /** Following the entry's anodes ends, and no block comes up twice. */
  ghost predicate Followable(vol: Vol, e: Entry) {
    exists p :: IsRun(vol.t, e.anode, p) && |p| <= MAX_CHAIN_LEN && NoDup(PathBlocks(vol.t, p))
  }

  /** The entry is that of a file or a directory, and this block is on its chain. */
  ghost predicate Has(vol: Vol, e: Entry, x: nat) {
    && (e.entryType < 0 || e.entryType == ST_USERDIR)
    && exists p :: IsRun(vol.t, e.anode, p) && |p| <= MAX_CHAIN_LEN && x in PathBlocks(vol.t, p)
  }

  /** A file or a directory can be followed, and a directory listed, at no more than the depth allowed. */
  ghost predicate Whole(vol: Vol, e: Entry, path: Path) {
    && (e.entryType < 0 || e.entryType == ST_USERDIR ==> Followable(vol, e))
    && (e.entryType == ST_USERDIR ==> vol.list(e.anode).Some? && Slashes(path) <= MAX_DEPTH)
  }

  ghost predicate RouteWhole(vol: Vol, es: seq<Entry>, path: Path, r: seq<nat>) {
    IsRoute(vol, es, r) ==> Whole(vol, Target(vol, es, r), RoutePath(vol, es, path, r))
  }

  ghost predicate RouteHas(vol: Vol, es: seq<Entry>, r: seq<nat>, x: nat) {
    IsRoute(vol, es, r) && Has(vol, Target(vol, es, r), x)
  }

  /** Along every route that starts with one of the first `n` entries. */
  ghost predicate Intact(vol: Vol, es: seq<Entry>, path: Path, n: nat, taken: set<nat>) {
    && (forall r: seq<nat> :: |r| > 0 && r[0] < n ==> RouteWhole(vol, es, path, r))
    && (forall r: seq<nat>, x: nat :: |r| > 0 && r[0] < n && RouteHas(vol, es, r, x) ==> x !in taken)
    && (forall r: seq<nat>, s: seq<nat>, x: nat ::
          |r| > 0 && |s| > 0 && r[0] < n && s[0] < n && r != s && RouteHas(vol, es, r, x) ==> !RouteHas(vol, es, s, x))
  }

  /** Every file and directory in and below `d` can be followed, no directory is nested too deep or
      unreadable, and no block is on the chains of two of them, or taken. */
  ghost predicate TreeIntact(vol: Vol, d: nat, path: Path, taken: set<nat>) {
    && Slashes(path) <= MAX_DEPTH && vol.list(d).Some?
    && Intact(vol, vol.list(d).value, path, |vol.list(d).value|, taken)
  }

  /** A file's chain is as long as its size needs. */
  ghost predicate Long(vol: Vol, e: Entry) {
    e.entryType < 0 ==> exists p :: IsRun(vol.t, e.anode, p) && FileSize(e) <= |PathBlocks(vol.t, p)| * vol.bs
  }

  ghost predicate AllLong(vol: Vol, es: seq<Entry>, n: nat) {
    forall r: seq<nat> :: |r| > 0 && r[0] < n && IsRoute(vol, es, r) ==> Long(vol, Target(vol, es, r))
  }

  ghost predicate TreeLong(vol: Vol, d: nat) {
    vol.list(d).Some? ==> AllLong(vol, vol.list(d).value, |vol.list(d).value|)
  }

  // One entry.

  lemma HasIff(vol: Vol, e: Entry, x: nat)
    ensures Has(vol, e, x) <==> x in OwnBlocks(vol, e)
  {
    hide IsRun, PathBlocks;
    forall p | IsRun(vol.t, e.anode, p) && |p| <= MAX_CHAIN_LEN
      ensures ReadableBlocks(vol.t, e.anode) == Some(PathBlocks(vol.t, p)) { ReadableBlocksIff(vol.t, e.anode, p); }
  }

  lemma FollowableIff(vol: Vol, e: Entry)
    ensures (e.entryType < 0 || e.entryType == ST_USERDIR ==> Followable(vol, e))
       <==> EntryOk(vol, e, false) && NoDup(OwnBlocks(vol, e))
  {
    hide IsRun, PathBlocks;
    forall p | IsRun(vol.t, e.anode, p) && |p| <= MAX_CHAIN_LEN
      ensures ReadableBlocks(vol.t, e.anode) == Some(PathBlocks(vol.t, p)) { ReadableBlocksIff(vol.t, e.anode, p); }
  }

  lemma LongIff(vol: Vol, e: Entry)
    requires EntryOk(vol, e, false)
    ensures Long(vol, e) <==> EntryOk(vol, e, true)
  {
    hide IsRun, PathBlocks;
    if e.entryType < 0 {
      var q :| Reads(vol.t, e.anode, q);
      ReadableBlocksIff(vol.t, e.anode, q);
      forall p | IsRun(vol.t, e.anode, p) ensures p == q { RunUnique(vol.t, e.anode, p, q); }
    }
  }

  // From the scan to the routes.

  /** A directory a route leads to is listed and not nested too deep. */
  lemma {:induction false} RouteOpens(vol: Vol, es: seq<Entry>, path: Path, r: seq<nat>)
    requires Halts(vol, es, path) && Sound(vol, es, path, |es|, false) && IsRoute(vol, es, r)
    ensures Target(vol, es, r).entryType == ST_USERDIR ==>
              Opens(vol, Target(vol, es, r).anode, RoutePath(vol, es, path, r))
    decreases |r|
  {
    hide Halts, EntryOk, Slashes;
    SoundPart(vol, es, path, |es|, r[0] + 1, false);
    SoundMore(vol, es, path, r[0], false);
    hide Sound, Join;
    if |r| > 1 { RouteOpens(vol, vol.list(es[r[0]].anode).value, Join(path, es[r[0]].name), r[1..]); }
  }

  lemma Split2(a: seq<nat>, b: seq<nat>, c: seq<nat>)
    requires NoDup(a + b + c)
    ensures NoDup(b)
  {
    var s := a + b + c;
    forall i, j | 0 <= i < j < |b| ensures b[i] != b[j] { assert b[i] == s[|a| + i] && b[j] == s[|a| + j]; }
  }

  /** No block comes up twice on the chain of the entry a route leads to. */
  lemma {:induction false} RouteNoDup(vol: Vol, es: seq<Entry>, path: Path, r: seq<nat>)
    requires Halts(vol, es, path) && Sound(vol, es, path, |es|, false) && IsRoute(vol, es, r)
    requires NoDup(Claimed(vol, es, path, |es|))
    ensures NoDup(OwnBlocks(vol, Target(vol, es, r)))
    decreases |r|
  {
    hide Halts, EntryOk, OwnBlocks, NoDup, Claimed, ClaimedBelow, Sound, Join, Enters, Opens;
    var i := r[0];
    ClaimedPart(vol, es, path, |es|, i + 1);
    PrefixNoDup(Claimed(vol, es, path, i + 1), Claimed(vol, es, path, |es|));
    ClaimedMore(vol, es, path, i);
    Split2(Claimed(vol, es, path, i), OwnBlocks(vol, es[i]), ClaimedBelow(vol, es[i], path));
    if |r| > 1 {
      Split3(Claimed(vol, es, path, i), OwnBlocks(vol, es[i]), ClaimedBelow(vol, es[i], path), 0, 0);
      SoundPart(vol, es, path, |es|, i + 1, false);
      SoundMore(vol, es, path, i, false);
      EntersOpens(vol, es[i], path);
      RouteNoDup(vol, vol.list(es[i].anode).value, Join(path, es[i].name), r[1..]);
    }
  }

  lemma FineIntact(vol: Vol, es: seq<Entry>, path: Path, taken: set<nat>)
    requires Halts(vol, es, path) && Fine(vol, es, path, |es|, taken)
    ensures Intact(vol, es, path, |es|, taken)
  {
    hide Halts, Sound, Claimed, EntryOk, OwnBlocks, Followable, Has, RouteHas, RouteWhole, NoDup, Slashes;
    forall r: seq<nat> | |r| > 0 && r[0] < |es| ensures RouteWhole(vol, es, path, r) {
      if IsRoute(vol, es, r) { RouteFine(vol, es, path, r); } else { NoRouteWhole(vol, es, path, r); }
    }
    forall r: seq<nat>, x: nat | |r| > 0 && r[0] < |es| && RouteHas(vol, es, r, x) ensures x !in taken {
      RouteHasIff(vol, es, r, x);
      RouteClaimed(vol, es, path, r, x);
      assert x in Elems(Claimed(vol, es, path, |es|));
    }
    forall r: seq<nat>, s: seq<nat>, x: nat | |r| > 0 && |s| > 0 && r[0] < |es| && s[0] < |es| && r != s
                                              && RouteHas(vol, es, r, x)
      ensures !RouteHas(vol, es, s, x) {
      RouteHasIff(vol, es, r, x);
      RouteHasIff(vol, es, s, x);
      if RouteHas(vol, es, s, x) { RoutesApart(vol, es, path, r, s, x); }
    }
  }

  lemma NoRouteWhole(vol: Vol, es: seq<Entry>, path: Path, r: seq<nat>)
    requires !IsRoute(vol, es, r)
    ensures RouteWhole(vol, es, path, r)
  {
  }

  lemma RouteHasIff(vol: Vol, es: seq<Entry>, r: seq<nat>, x: nat)
    ensures RouteHas(vol, es, r, x) <==> IsRoute(vol, es, r) && x in OwnBlocks(vol, Target(vol, es, r))
  {
    hide Has, OwnBlocks;
    if IsRoute(vol, es, r) { HasIff(vol, Target(vol, es, r), x); }
  }

  lemma RouteFine(vol: Vol, es: seq<Entry>, path: Path, r: seq<nat>)
    requires Halts(vol, es, path) && Sound(vol, es, path, |es|, false) && IsRoute(vol, es, r)
    requires NoDup(Claimed(vol, es, path, |es|))
    ensures RouteWhole(vol, es, path, r)
  {
    hide Halts, Sound, Claimed, EntryOk, OwnBlocks, Followable, NoDup, Slashes;
    RouteSound(vol, es, path, r, false);
    RouteNoDup(vol, es, path, r);
    RouteOpens(vol, es, path, r);
    FollowableIff(vol, Target(vol, es, r));
  }

  // From the routes to the scan.

  /** A block claimed in the scan is that of an entry some route leads to. */
  lemma {:induction false} ClaimedRoute(vol: Vol, es: seq<Entry>, path: Path, n: nat, x: nat) returns (r: seq<nat>)
    requires n <= |es| && Halts(vol, es, path) && x in Claimed(vol, es, path, n)
    ensures |r| > 0 && r[0] < n && RouteHas(vol, es, r, x)
    decreases Depth(vol, es, path), n
  {
    hide Halts, OwnBlocks, RouteHas, ClaimedBelow, Join, Has, Enters, Slashes, IsRoute;
    assert n > 0;
    var e := es[n - 1];
    ClaimedMore(vol, es, path, n - 1);
    OneOfThree(Claimed(vol, es, path, n - 1), OwnBlocks(vol, e), ClaimedBelow(vol, e, path), x);
    hide Claimed;
    if x in Claimed(vol, es, path, n - 1) {
      r := ClaimedRoute(vol, es, path, n - 1, x);
    } else if x in OwnBlocks(vol, e) {
      r := [n - 1];
      OwnRoute(vol, es, n - 1, x);
    } else {
      EntersBelow(vol, e, path, x);
      SubDirHalts(vol, es, path, n - 1);
      var s := ClaimedRoute(vol, vol.list(e.anode).value, Join(path, e.name), |vol.list(e.anode).value|, x);
      r := [n - 1] + s;
      LongerHas(vol, es, n - 1, s, x);
    }
  }

  lemma OneOfThree(a: seq<nat>, b: seq<nat>, c: seq<nat>, x: nat)
    requires x in a + b + c
    ensures x in a || x in b || x in c
  {
  }

  lemma OwnRoute(vol: Vol, es: seq<Entry>, i: nat, x: nat)
    requires i < |es| && x in OwnBlocks(vol, es[i])
    ensures RouteHas(vol, es, [i], x)
  {
    hide OwnBlocks;
    RouteHasIff(vol, es, [i], x);
  }

  lemma EntersBelow(vol: Vol, e: Entry, path: Path, x: nat)
    requires x in ClaimedBelow(vol, e, path)
    ensures Enters(vol, e, path) && Opens(vol, e.anode, Join(path, e.name)) && e.entryType == ST_USERDIR
            && x in AllClaimed(vol, e.anode, Join(path, e.name))
  {
    hide AllClaimed, Join, Slashes;
  }

  /** A route within an entry is one from the directory of the entry. */
  lemma Longer(vol: Vol, es: seq<Entry>, path: Path, i: nat, s: seq<nat>)
    requires i < |es| && es[i].entryType == ST_USERDIR && vol.list(es[i].anode).Some?
    ensures var r, below := [i] + s, vol.list(es[i].anode).value;
            && (IsRoute(vol, es, r) <==> s == [] || IsRoute(vol, below, s))
            && (s != [] && IsRoute(vol, below, s) ==>
                  && Target(vol, es, r) == Target(vol, below, s)
                  && RoutePath(vol, es, path, r) == RoutePath(vol, below, Join(path, es[i].name), s))
  {
    hide Join;
    var r := [i] + s;
    assert r[1..] == s && r[0] == i;
  }

  lemma LongerHas(vol: Vol, es: seq<Entry>, i: nat, s: seq<nat>, x: nat)
    requires i < |es| && es[i].entryType == ST_USERDIR && vol.list(es[i].anode).Some? && s != []
    ensures RouteHas(vol, es, [i] + s, x) <==> RouteHas(vol, vol.list(es[i].anode).value, s, x)
  {
    hide Has;
    Longer(vol, es, [], i, s);
  }

  lemma LongerWhole(vol: Vol, es: seq<Entry>, path: Path, i: nat, s: seq<nat>)
    requires i < |es| && es[i].entryType == ST_USERDIR && vol.list(es[i].anode).Some? && s != []
    ensures RouteWhole(vol, es, path, [i] + s)
       <==> RouteWhole(vol, vol.list(es[i].anode).value, Join(path, es[i].name), s)
  {
    hide Whole, Join;
    Longer(vol, es, path, i, s);
  }

  /** What holds along the routes holds along those within one entry, whose blocks are not those of the
      entry itself or of earlier ones. */
  lemma IntactBelow(vol: Vol, es: seq<Entry>, path: Path, i: nat, taken: set<nat>, more: set<nat>)
    requires i < |es| && Intact(vol, es, path, i + 1, taken)
    requires es[i].entryType == ST_USERDIR && vol.list(es[i].anode).Some?
    requires forall x :: x in more ==> x in taken || HeldBefore(vol, es, i, x)
    ensures var below := vol.list(es[i].anode).value; Intact(vol, below, Join(path, es[i].name), |below|, more)
  {
    hide RouteHas, RouteWhole, Join, HeldBefore;
    var below, sub := vol.list(es[i].anode).value, Join(path, es[i].name);
    forall s: seq<nat> | |s| > 0 && s[0] < |below| ensures RouteWhole(vol, below, sub, s) {
      LongerWhole(vol, es, path, i, s);
      assert ([i] + s)[0] == i;
    }
    forall s: seq<nat>, x: nat | |s| > 0 && s[0] < |below| && RouteHas(vol, below, s, x) ensures x !in more {
      LongerHas(vol, es, i, s, x);
      assert ([i] + s)[0] == i;
      if HeldBefore(vol, es, i, x) { HeldApart(vol, es, path, i, taken, s, x); }
    }
    forall r: seq<nat>, s: seq<nat>, x: nat | |r| > 0 && |s| > 0 && r[0] < |below| && s[0] < |below| && r != s
                                              && RouteHas(vol, below, r, x)
      ensures !RouteHas(vol, below, s, x) {
      LongerHas(vol, es, i, r, x);
      LongerHas(vol, es, i, s, x);
      assert ([i] + r)[0] == i && ([i] + s)[0] == i && ([i] + r)[1..] == r && ([i] + s)[1..] == s;
    }
  }

  /** The block is on the chain of entry `i` itself, or of something in or below an earlier one. */
  ghost predicate HeldBefore(vol: Vol, es: seq<Entry>, i: nat, x: nat) {
    exists r: seq<nat> :: |r| > 0 && (r[0] < i || r == [i]) && RouteHas(vol, es, r, x)
  }

  lemma HeldApart(vol: Vol, es: seq<Entry>, path: Path, i: nat, taken: set<nat>, s: seq<nat>, x: nat)
    requires Intact(vol, es, path, i + 1, taken) && HeldBefore(vol, es, i, x) && |s| > 0
    ensures !RouteHas(vol, es, [i] + s, x)
  {
    hide RouteHas, RouteWhole;
    var r: seq<nat> :| |r| > 0 && (r[0] < i || r == [i]) && RouteHas(vol, es, r, x);
    assert ([i] + s)[0] == i && |[i] + s| > 1;
  }

  lemma IntactPart(vol: Vol, es: seq<Entry>, path: Path, n: nat, taken: set<nat>)
    requires Intact(vol, es, path, n + 1, taken)
    ensures Intact(vol, es, path, n, taken)
  {
    hide RouteHas, RouteWhole;
  }

  /** The entry of a route of one step. */
  lemma OneStep(vol: Vol, es: seq<Entry>, path: Path, i: nat, taken: set<nat>)
    requires i < |es| && Intact(vol, es, path, i + 1, taken)
    ensures Whole(vol, es[i], Join(path, es[i].name))
    ensures forall x :: RouteHas(vol, es, [i], x) <==> x in OwnBlocks(vol, es[i])
    ensures forall x :: x in OwnBlocks(vol, es[i]) ==> x !in taken
  {
    hide RouteHas, Whole, Join, OwnBlocks;
    assert [i][0] == i;
    assert IsRoute(vol, es, [i]) && RouteWhole(vol, es, path, [i]);
    forall x ensures RouteHas(vol, es, [i], x) <==> x in OwnBlocks(vol, es[i]) { RouteHasIff(vol, es, [i], x); }
  }

  lemma OwnFree(vol: Vol, es: seq<Entry>, path: Path, i: nat, taken: set<nat>)
    requires i < |es| && Halts(vol, es, path) && Intact(vol, es, path, i + 1, taken)
    ensures EntryOk(vol, es[i], false) && Free(OwnBlocks(vol, es[i]), taken + Elems(Claimed(vol, es, path, i)))
  {
    hide Halts, EntryOk, OwnBlocks, Claimed, RouteHas, RouteWhole, Followable, NoDup, Join, Slashes;
    OneStep(vol, es, path, i, taken);
    FollowableIff(vol, es[i]);
    assert [i][0] == i;
    forall x | x in OwnBlocks(vol, es[i]) ensures x !in Claimed(vol, es, path, i) {
      if x in Claimed(vol, es, path, i) { var r := ClaimedRoute(vol, es, path, i, x); }
    }
  }

  lemma BelowHeld(vol: Vol, es: seq<Entry>, path: Path, i: nat, taken: set<nat>, x: nat)
    requires i < |es| && Halts(vol, es, path) && Intact(vol, es, path, i + 1, taken)
    requires x in taken + Elems(Claimed(vol, es, path, i)) + Elems(OwnBlocks(vol, es[i]))
    ensures x in taken || HeldBefore(vol, es, i, x)
  {
    hide Halts, OwnBlocks, Claimed, RouteHas, RouteWhole, Intact;
    if x in Claimed(vol, es, path, i) {
      var r := ClaimedRoute(vol, es, path, i, x);
    } else if x in OwnBlocks(vol, es[i]) {
      OneStep(vol, es, path, i, taken);
      assert RouteHas(vol, es, [i], x);
    }
  }

  lemma {:induction false} IntactFine(vol: Vol, es: seq<Entry>, path: Path, n: nat, taken: set<nat>)
    requires n <= |es| && Halts(vol, es, path) && Intact(vol, es, path, n, taken)
    ensures Fine(vol, es, path, n, taken)
    decreases Depth(vol, es, path), n
  {
    hide Halts, EntryOk, OwnBlocks, Free, Claimed, Sound, Intact, Join, Slashes, Fine, HeldBefore, Enters;
    if n == 0 {
      NothingFine(vol, es, path, taken);
    } else {
      var i, e := n - 1, es[n - 1];
      IntactPart(vol, es, path, i, taken);
      IntactFine(vol, es, path, i, taken);
      OwnFree(vol, es, path, i, taken);
      OneStep(vol, es, path, i, taken);
      FineMore(vol, es, path, i, taken);
      if IsDir(e) {
        var more := taken + Elems(Claimed(vol, es, path, i)) + Elems(OwnBlocks(vol, e));
        forall x | x in more ensures x in taken || HeldBefore(vol, es, i, x) { BelowHeld(vol, es, path, i, taken, x); }
        IntactBelow(vol, es, path, i, taken, more);
        EntersOpens(vol, e, path);
        SubDirHalts(vol, es, path, i);
        IntactFine(vol, vol.list(e.anode).value, Join(path, e.name), |vol.list(e.anode).value|, more);
        FineScans(vol, e.anode, Join(path, e.name), more);
      }
    }
  }

  lemma NothingFine(vol: Vol, es: seq<Entry>, path: Path, taken: set<nat>)
    requires Halts(vol, es, path)
    ensures Fine(vol, es, path, 0, taken)
  {
    hide Halts;
  }

  lemma FineScans(vol: Vol, d: nat, path: Path, taken: set<nat>)
    requires DirHalts(vol, d, path)
    ensures Scans(vol, d, path, taken) <==> Opens(vol, d, path)
                                            && Fine(vol, vol.list(d).value, path, |vol.list(d).value|, taken)
  {
    hide Halts, Sound, Claimed, Free, Slashes;
  }

  /** The scan finds no error exactly when the tree is intact along every route of entries. */
  lemma VerdictIff(vol: Vol, d: nat, path: Path, taken: set<nat>)
    requires DirHalts(vol, d, path)
    ensures Scans(vol, d, path, taken) <==> TreeIntact(vol, d, path, taken)
  {
    hide Halts, Intact, Fine, Slashes, Scans;
    FineScans(vol, d, path, taken);
    if Opens(vol, d, path) {
      var es := vol.list(d).value;
      if Fine(vol, es, path, |es|, taken) { FineIntact(vol, es, path, taken); }
      if Intact(vol, es, path, |es|, taken) { IntactFine(vol, es, path, |es|, taken); }
    }
  }

  // Sizes.

  lemma {:induction false} LongSound(vol: Vol, es: seq<Entry>, path: Path, n: nat)
    requires n <= |es| && Halts(vol, es, path) && Sound(vol, es, path, n, false) && AllLong(vol, es, n)
    ensures Sound(vol, es, path, n, true)
    decreases Depth(vol, es, path), n
  {
    hide Halts, EntryOk, Join, Long, Slashes, Enters;
    if n > 0 {
      var i, e := n - 1, es[n - 1];
      SoundMore(vol, es, path, i, false);
      SoundMore(vol, es, path, i, true);
      hide Sound;
      LongSound(vol, es, path, i);
      assert [i][0] == i && IsRoute(vol, es, [i]);
      LongIff(vol, e);
      EntersOpens(vol, e, path);
      if IsDir(e) {
        SubDirHalts(vol, es, path, i);
        LongBelow(vol, es, i);
        LongSound(vol, vol.list(e.anode).value, Join(path, e.name), |vol.list(e.anode).value|);
      }
    }
  }

  lemma LongBelow(vol: Vol, es: seq<Entry>, i: nat)
    requires i < |es| && AllLong(vol, es, i + 1) && es[i].entryType == ST_USERDIR && vol.list(es[i].anode).Some?
    ensures var below := vol.list(es[i].anode).value; AllLong(vol, below, |below|)
  {
    hide Long;
    var below := vol.list(es[i].anode).value;
    forall s: seq<nat> | |s| > 0 && s[0] < |below| && IsRoute(vol, below, s) ensures Long(vol, Target(vol, below, s)) {
      Longer(vol, es, [], i, s);
      assert ([i] + s)[0] == i;
    }
  }

  /** Then it warns of no file exactly when all are as long as their sizes say. */
  lemma SizesIff(vol: Vol, d: nat, path: Path)
    requires Clean(vol, d, path, false)
    ensures Clean(vol, d, path, true) <==> TreeLong(vol, d)
  {
    hide Halts, Sound, EntryOk, Long, Slashes;
    var es := vol.list(d).value;
    if Sound(vol, es, path, |es|, true) {
      forall r: seq<nat> | |r| > 0 && r[0] < |es| && IsRoute(vol, es, r) ensures Long(vol, Target(vol, es, r)) {
        RouteSound(vol, es, path, r, true);
        RouteSound(vol, es, path, r, false);
        LongIff(vol, Target(vol, es, r));
      }
    }
    if AllLong(vol, es, |es|) { LongSound(vol, es, path, |es|); }
  }

  /** A scan that found no error certifies any two files or directories in the tree: each has a chain that
      ends, visiting no anode twice, and they share no block. */
  lemma CleanMeans(vol: Vol, root: nat, path: Path, r: seq<nat>, s: seq<nat>)
    requires Scans(vol, root, path, {})
    requires IsRoute(vol, vol.list(root).value, r) && IsRoute(vol, vol.list(root).value, s) && r != s
    requires Target(vol, vol.list(root).value, r).entryType in {ST_FILE, ST_ROLLOVERFILE, ST_USERDIR}
    requires Target(vol, vol.list(root).value, s).entryType in {ST_FILE, ST_ROLLOVERFILE, ST_USERDIR}
    ensures exists p, q :: IsRun(vol.t, Target(vol, vol.list(root).value, r).anode, p) && NoDup(p)
                           && IsRun(vol.t, Target(vol, vol.list(root).value, s).anode, q) && NoDup(q)
                           && Elems(PathBlocks(vol.t, p)) !! Elems(PathBlocks(vol.t, q))
  {
    hide Halts, Clean, Free, Intact, IsRun, NoDup, PathBlocks, RouteWhole;
    assert DirHalts(vol, root, path) by { ScansHalts(vol, root, path, {}); }
    VerdictIff(vol, root, path, {});
    var es := vol.list(root).value;
    var p := TargetRun(vol, es, path, r, {});
    var q := TargetRun(vol, es, path, s, {});
    forall x | x in Elems(PathBlocks(vol.t, p)) ensures x !in Elems(PathBlocks(vol.t, q)) {
      NotBoth(vol, es, path, r, s, x);
    }
  }

  lemma ScansHalts(vol: Vol, d: nat, path: Path, taken: set<nat>)
    requires Scans(vol, d, path, taken)
    ensures DirHalts(vol, d, path)
  {
    hide DirHalts, Opens, Free;
  }

  lemma TargetRun(vol: Vol, es: seq<Entry>, path: Path, r: seq<nat>, taken: set<nat>) returns (p: seq<nat>)
    requires Intact(vol, es, path, |es|, taken) && IsRoute(vol, es, r)
    requires Target(vol, es, r).entryType in {ST_FILE, ST_ROLLOVERFILE, ST_USERDIR}
    ensures IsRun(vol.t, Target(vol, es, r).anode, p) && |p| <= MAX_CHAIN_LEN && NoDup(p)
  {
    hide IsRun, RouteHas, PathBlocks, Slashes;
    assert RouteWhole(vol, es, path, r);
    var e := Target(vol, es, r);
    p :| IsRun(vol.t, e.anode, p) && |p| <= MAX_CHAIN_LEN && NoDup(PathBlocks(vol.t, p));
    forall i, j | 0 <= i < j < |p| ensures p[i] != p[j] { RunDistinct(vol.t, e.anode, p, i, j); }
  }

  /** Two routes do not lead to the same block. */
  lemma NotBoth(vol: Vol, es: seq<Entry>, path: Path, r: seq<nat>, s: seq<nat>, x: nat)
    requires Intact(vol, es, path, |es|, {}) && IsRoute(vol, es, r) && IsRoute(vol, es, s) && r != s
    ensures !(RouteHas(vol, es, r, x) && RouteHas(vol, es, s, x))
  {
    hide RouteHas, RouteWhole;
  }

  // ---------------------------------------------------------------- the scan

  class CheckCtx {
    var errors: nat
    var warnings: nat
    var used: map<nat, Path>
    var anodes: set<nat>

    constructor ()
      ensures errors == 0 && warnings == 0 && used == map[] && anodes == {}
    {
      errors, warnings, used, anodes := 0, 0, map[], {};
    }

    /** Warn of a count or an anode that is not what it should be. */
    method WarnUnless(ok: bool)
      modifies this`warnings
      ensures warnings == old(warnings) + if ok then 0 else 1
    {
      if !ok { warnings := warnings + 1; }
    }

    /** Note the owner of each block; a block that already has one is an error. */
    method RecordBlocks(blocks: seq<nat>, owner: Path)
      modifies this`errors, this`used
      ensures errors >= old(errors) && used.Keys == old(used).Keys + Elems(blocks)
      ensures errors == old(errors) <==> Free(blocks, old(used).Keys)
    {
      for i := 0 to |blocks|
        invariant errors >= old(errors) && used.Keys == old(used).Keys + Elems(blocks[..i])
        invariant errors == old(errors) <==> Free(blocks[..i], old(used).Keys)
      {
        OneMore(blocks, i, old(used).Keys);
        if blocks[i] in used { errors := errors + 1; }
        used := used[blocks[i] := owner];
      }
      assert blocks[..|blocks|] == blocks;
    }

    /** Note the anodes of a chain. The end marker is never one of them. */
    method RecordAnodes(t: nat -> Option<Slot>, nr: nat)
      modifies this`anodes
      ensures ReadableBlocks(t, nr).None? ==> anodes == old(anodes)
      ensures forall p :: Reads(t, nr, p) ==> anodes == old(anodes) + Elems(p)
      ensures ANODE_EOF in anodes <==> ANODE_EOF in old(anodes)
    {
      hide IsRun, ReadableBlocks;
      var c := GetChain(t, nr);
      if c.Err? { return; }
      ghost var p :| IsRun(t, nr, p) && |p| <= MAX_CHAIN_LEN;
      ReadableBlocksIff(t, nr, p);
      forall q | Reads(t, nr, q) ensures q == Nrs(c.value) { RunUnique(t, nr, q, Nrs(c.value)); }
      NoMarker(t, nr, Nrs(c.value));
      anodes := anodes + Elems(Nrs(c.value));
    }

    /** Scan a directory and everything below it. There is no new error exactly when every chain in it
        can be followed, no directory is nested too deep or unreadable, and no block is claimed twice
        or was taken before; then there is no new warning exactly when every file's chain is long
        enough. */
    method ScanDir(vol: Vol, dir: nat, path: Path)
      requires DirHalts(vol, dir, path) && vol.bs > 0
      modifies this
      ensures errors == old(errors) <==> TreeIntact(vol, dir, path, old(used).Keys)
      ensures errors == old(errors) ==> (warnings == old(warnings) <==> TreeLong(vol, dir))
      ensures errors >= old(errors) && warnings >= old(warnings) && (ANODE_EOF in anodes <==> ANODE_EOF in old(anodes))
      ensures errors == old(errors) <==> Scans(vol, dir, path, old(used).Keys)
      ensures errors == old(errors) ==> used.Keys == old(used).Keys + Elems(AllClaimed(vol, dir, path))
      ensures errors == old(errors) ==> (warnings == old(warnings) <==> Clean(vol, dir, path, true))
      decreases Levels(vol, dir, path), 1
    {
      VerdictIff(vol, dir, path, used.Keys);
      if Clean(vol, dir, path, false) { SizesIff(vol, dir, path); }
      hide Halts, NoDup, Elems, Slashes, TreeIntact, TreeLong;
      if Slashes(path) > MAX_DEPTH {
        errors := errors + 1;
        return;
      }
      if vol.list(dir).None? {
        errors := errors + 1;
        return;
      }
      var es := vol.list(dir).value;
      NothingYet(used.Keys);
      for i := 0 to |es|
        invariant errors >= old(errors) && warnings >= old(warnings)
                  && (ANODE_EOF in anodes <==> ANODE_EOF in old(anodes))
        invariant errors == old(errors) <==> Fine(vol, es, path, i, old(used).Keys)
        invariant errors == old(errors) ==> used.Keys == old(used).Keys + Elems(Claimed(vol, es, path, i))
        invariant errors == old(errors) ==> (warnings == old(warnings) <==> Sound(vol, es, path, i, true))
      {
        ScanEntry(vol, es, path, i, old(used).Keys, errors == old(errors), warnings == old(warnings));
      }
    }

    /** One entry: check its chain, record its blocks, enter it if it is a directory. */
    method ScanEntry(vol: Vol, es: seq<Entry>, path: Path, i: nat, ghost taken: set<nat>, ghost good: bool,
                     ghost sized: bool)
      requires vol.bs > 0 && i < |es| && Halts(vol, es, path)
      requires good <==> Fine(vol, es, path, i, taken)
      requires good ==> used.Keys == taken + Elems(Claimed(vol, es, path, i))
                        && (sized <==> Sound(vol, es, path, i, true))
      modifies this
      ensures errors >= old(errors) && warnings >= old(warnings) && (ANODE_EOF in anodes <==> ANODE_EOF in old(anodes))
      ensures good && errors == old(errors) <==> Fine(vol, es, path, i + 1, taken)
      ensures good && errors == old(errors) ==> used.Keys == taken + Elems(Claimed(vol, es, path, i + 1))
      ensures good && errors == old(errors) ==>
                (sized && warnings == old(warnings) <==> Sound(vol, es, path, i + 1, true))
      decreases Depth(vol, es, path) + 1, 0
    {
      hide Halts, NoDup, Elems, Sound, Claimed, ClaimedBelow, Clean, AllClaimed, ReadableBlocks, Opens, Join, Free,
           Enters, Reads, Scans;
      var e := es[i];
      var sub := Join(path, e.name);
      ghost var had, own := Claimed(vol, es, path, i), OwnBlocks(vol, e);
      FineMore(vol, es, path, i, taken);
      hide Fine;
      ClaimedMore(vol, es, path, i);
      SoundMore(vol, es, path, i, true);
      EntersOpens(vol, e, path);
      ClaimedElems(had, own, ClaimedBelow(vol, e, path));
      if !IsDir(e) && !IsFileEntry(e) {
        FreeNone(taken + Elems(had));
        return;
      }
      var r := ValidateChain(vol.t, e.anode);
      if r.None? {
        errors := errors + 1;
        return;
      }
      var expected := Needed(FileSize(e), vol.bs);
      NeededIff(FileSize(e), vol.bs, |r.value|);
      if !IsDir(e) && |r.value| < expected && FileSize(e) > 0 { warnings := warnings + 1; }
      RecordBlocks(r.value, sub);
      RecordAnodes(vol.t, e.anode);
      if IsDir(e) {
        GoesDown(vol, es, path, i);
        ghost var had1 := used.Keys;
        ScanDir(vol, e.anode, sub);
        if Scans(vol, e.anode, sub, had1) { ScannedOpens(vol, e.anode, sub, had1); }
      }
    }
  }

  lemma {:induction false} NoMarker(t: nat -> Option<Slot>, nr: nat, p: seq<nat>)
    requires IsRun(t, nr, p)
    ensures ANODE_EOF !in p
    decreases |p|
  {
    if |p| > 0 {
      NoMarker(t, t(nr).value.next, p[1..]);
      assert p == [p[0]] + p[1..];
    }
  }

  lemma ScannedOpens(vol: Vol, d: nat, path: Path, taken: set<nat>)
    requires Scans(vol, d, path, taken)
    ensures Opens(vol, d, path)
  {
    hide Opens, DirHalts, Free;
  }

  /** Levels the scan of a directory goes down, counting the directory itself. */
  ghost function Levels(vol: Vol, d: nat, path: Path): nat
    requires DirHalts(vol, d, path)
  {
    if Opens(vol, d, path) then Depth(vol, vol.list(d).value, path) + 1 else 0
  }

  lemma GoesDown(vol: Vol, es: seq<Entry>, path: Path, i: nat)
    requires i < |es| && Halts(vol, es, path) && IsDir(es[i]) && EntryOk(vol, es[i], false)
    ensures DirHalts(vol, es[i].anode, Join(path, es[i].name))
            && Levels(vol, es[i].anode, Join(path, es[i].name)) <= Depth(vol, es, path)
  {
    hide Halts, Enters, Opens, Join;
    EntersOpens(vol, es[i], path);
    if Enters(vol, es[i], path) { SubDirHalts(vol, es, path, i); }
  }
}
