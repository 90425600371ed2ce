/** How the check goes down the directory tree, and on which volumes it comes to an end. */
module Descent {
  import opened Types
  import opened Ownership
  import opened Anodes
  import opened Transitions
  import opened Runs
  import opened Steps
  import opened Compose
  import opened Directory

  const MAX_DEPTH: nat := 128
  const SLASH: byte := 47

  /** What the scan reads: anodes, directory listings, the block size. */
  datatype Vol = Vol(t: nat -> Option<Slot>, list: nat -> Option<seq<Entry>>, bs: nat)

  // ---------------------------------------------------------------- paths

  type Path = seq<byte>

  function Slashes(p: Path): nat {
    if |p| == 0 then 0 else Slashes(p[..|p| - 1]) + if p[|p| - 1] == SLASH then 1 else 0
  }

  /** One when the path ends in a slash. */
  function Trail(p: Path): nat {
    if |p| > 0 && p[|p| - 1] == SLASH then 1 else 0
  }

  function Join(parent: Path, name: Name): Path {
    if Trail(parent) == 1 then parent + name else parent + [SLASH] + name
  }

  lemma {:induction false} SlashesAppend(a: Path, b: Path)
    ensures Slashes(a + b) == Slashes(a) + Slashes(b)
  {
    if |b| == 0 {
      assert a + b == a;
    } else {
      assert (a + b)[..|a + b| - 1] == a + b[..|b| - 1];
      SlashesAppend(a, b[..|b| - 1]);
    }
  }

  lemma {:induction false} EndsInSlash(p: Path)
    requires Trail(p) == 1
    ensures Slashes(p) > 0
  {
  }

  /** Going down, the number of slashes grows or a trailing slash disappears, unless the name is
      empty: then a slash is added, or, below a trailing slash, the path stays what it was. */
  lemma JoinMeasure(p: Path, name: Name)
    ensures name != [] ==> Slashes(Join(p, name)) > Slashes(p)
                           || (Slashes(Join(p, name)) == Slashes(p) && Trail(p) == 1 && Trail(Join(p, name)) == 0)
    ensures name == [] && Trail(p) == 1 ==> Join(p, name) == p
    ensures name == [] && Trail(p) == 0 ==> Slashes(Join(p, name)) == Slashes(p) + 1
  {
    SlashesAppend(p, name);
    SlashesAppend(p + [SLASH], name);
    SlashesAppend(p, [SLASH]);
    assert [SLASH][..0] == [];
    assert Slashes([SLASH]) == 1;
    if name != [] && Trail(name) == 1 { EndsInSlash(name); }
  }

  /** Levels left before the nesting limit. */
  function Room(p: Path): nat {
    if Slashes(p) <= MAX_DEPTH then MAX_DEPTH + 1 - Slashes(p) else 0
  }

  // ---------------------------------------------------------------- chains

  ghost function PathBlocks(t: nat -> Option<Slot>, p: seq<nat>): seq<nat> {
    if |p| == 0 then [] else (match t(p[0]) case Some(s) => Expand(s) case None => []) + PathBlocks(t, p[1..])
  }

  ghost predicate Reads(t: nat -> Option<Slot>, nr: nat, p: seq<nat>) {
    IsRun(t, nr, p) && |p| <= MAX_CHAIN_LEN
  }

  ghost function ThePath(t: nat -> Option<Slot>, nr: nat): (p: seq<nat>)
    requires exists q :: Reads(t, nr, q)
    ensures Reads(t, nr, p)
  {
    var q :| Reads(t, nr, q);
    q
  }

  /** The blocks of a readable chain. */
  ghost function ReadableBlocks(t: nat -> Option<Slot>, nr: nat): Option<seq<nat>> {
    if exists q :: Reads(t, nr, q) then Some(PathBlocks(t, ThePath(t, nr))) else None
  }

  /** A chain has blocks exactly when it reaches its end, and then they are those of its one path. */
  lemma ReadableBlocksIff(t: nat -> Option<Slot>, nr: nat, p: seq<nat>)
    ensures ReadableBlocks(t, nr).Some? <==> exists q :: Reads(t, nr, q)
    ensures Reads(t, nr, p) ==> ReadableBlocks(t, nr) == Some(PathBlocks(t, p))
  {
    if Reads(t, nr, p) { RunUnique(t, nr, p, ThePath(t, nr)); }
  }

  lemma {:induction false} BlocksOfRun(t: nat -> Option<Slot>, c: seq<Anode>)
    requires forall i :: 0 <= i < |c| ==> t(c[i].nr) == Some(c[i].slot)
    ensures BlockList(c) == PathBlocks(t, Nrs(c))
  {
    if |c| > 0 {
      BlocksOfRun(t, c[1..]);
      assert Nrs(c)[1..] == Nrs(c[1..]);
    }
  }

  /** All blocks of a chain, or None when it cannot be followed to its end. */
  method ValidateChain(t: nat -> Option<Slot>, nr: nat) returns (r: Option<seq<nat>>)
    ensures r == ReadableBlocks(t, nr)
  {
    hide ReadableBlocks, IsRun;
    var c := GetChain(t, nr);
    if c.Err? {
      ReadableBlocksIff(t, nr, []);
      return None;
    }
    BlocksOfRun(t, c.value);
    ghost var p :| IsRun(t, nr, p) && |p| <= MAX_CHAIN_LEN;
    RunUnique(t, nr, p, Nrs(c.value));
    ReadableBlocksIff(t, nr, p);
    return Some(BlockList(c.value));
  }

  // ---------------------------------------------------------------- going down

  /** A directory at this path can be entered. */
  predicate Opens(vol: Vol, d: nat, path: Path) {
    Slashes(path) <= MAX_DEPTH && vol.list(d).Some?
  }

  /** The scan goes through what this entry of a directory at `path` lists. */
  ghost predicate Enters(vol: Vol, e: Entry, path: Path) {
    IsDir(e) && ReadableBlocks(vol.t, e.anode).Some? && Opens(vol, e.anode, Join(path, e.name))
  }

  /** What the entry lists, and nothing when it cannot be entered. */
  ghost function ListedBelow(vol: Vol, e: Entry, path: Path): seq<Entry> {
    if Enters(vol, e, path) then vol.list(e.anode).value else []
  }

  /** The scan of these entries comes to an end, going down at most `n` levels. */
  ghost predicate Ends(vol: Vol, es: seq<Entry>, path: Path, n: nat)
    decreases n
  {
    forall i :: 0 <= i < |es| && Enters(vol, es[i], path) ==>
                  n > 0 && Ends(vol, ListedBelow(vol, es[i], path), Join(path, es[i].name), n - 1)
  }

  ghost predicate Halts(vol: Vol, es: seq<Entry>, path: Path) {
    exists n: nat :: Ends(vol, es, path, n)
  }

  lemma {:induction false} EndsMore(vol: Vol, es: seq<Entry>, path: Path, n: nat, m: nat)
    requires Ends(vol, es, path, n) && n <= m
    ensures Ends(vol, es, path, m)
    decreases n
  {
    hide Enters, Join;
    forall i | 0 <= i < |es| && Enters(vol, es[i], path)
      ensures Ends(vol, ListedBelow(vol, es[i], path), Join(path, es[i].name), m - 1) {
      EndsMore(vol, ListedBelow(vol, es[i], path), Join(path, es[i].name), n - 1, m - 1);
    }
  }

  /** The number of levels the scan goes down. */
  ghost function Depth(vol: Vol, es: seq<Entry>, path: Path): (n: nat)
    requires Halts(vol, es, path)
    ensures Ends(vol, es, path, n) && (n > 0 ==> !Ends(vol, es, path, n - 1))
  {
    LeastExists(vol, es, path);
    var n: nat :| Ends(vol, es, path, n) && (n > 0 ==> !Ends(vol, es, path, n - 1));
    n
  }

  lemma {:induction false} LeastEnd(vol: Vol, es: seq<Entry>, path: Path, m: nat) returns (n: nat)
    requires Ends(vol, es, path, m)
    ensures Ends(vol, es, path, n) && (n > 0 ==> !Ends(vol, es, path, n - 1))
    decreases m
  {
    hide Ends;
    if m > 0 && Ends(vol, es, path, m - 1) { n := LeastEnd(vol, es, path, m - 1); } else { n := m; }
  }

  lemma LeastExists(vol: Vol, es: seq<Entry>, path: Path)
    requires Halts(vol, es, path)
    ensures exists n: nat :: Ends(vol, es, path, n) && (n > 0 ==> !Ends(vol, es, path, n - 1))
  {
    hide Ends;
    var m: nat :| Ends(vol, es, path, m);
    var n := LeastEnd(vol, es, path, m);
  }

  /** Below an entry the scan goes down fewer levels. */
  lemma SubHalts(vol: Vol, es: seq<Entry>, path: Path, i: nat)
    requires Halts(vol, es, path) && i < |es| && Enters(vol, es[i], path)
    ensures var below, sub := ListedBelow(vol, es[i], path), Join(path, es[i].name);
            Halts(vol, below, sub) && Depth(vol, below, sub) < Depth(vol, es, path)
  {
    hide Enters, Join;
    var n := Depth(vol, es, path);
    var below, sub := ListedBelow(vol, es[i], path), Join(path, es[i].name);
    assert Ends(vol, below, sub, n - 1);
    var d := Depth(vol, below, sub);
    if d >= n { EndsMore(vol, below, sub, n - 1, d - 1); }
  }

  lemma EmptyHalts(vol: Vol, path: Path)
    ensures Halts(vol, [], path)
  {
    assert Ends(vol, [], path, 0);
  }

  /** If every entry's scan comes to an end, so does the whole. */
  lemma {:induction false} AllHalt(vol: Vol, es: seq<Entry>, path: Path)
    requires forall i :: 0 <= i < |es| && Enters(vol, es[i], path) ==>
                           Halts(vol, ListedBelow(vol, es[i], path), Join(path, es[i].name))
    ensures Halts(vol, es, path)
    decreases |es|
  {
    hide Enters, Join, Halts;
    if |es| == 0 {
      EmptyHalts(vol, path);
    } else {
      var k := |es| - 1;
      forall i | 0 <= i < |es[..k]| && Enters(vol, es[..k][i], path)
        ensures Halts(vol, ListedBelow(vol, es[..k][i], path), Join(path, es[..k][i].name)) {
        assert es[..k][i] == es[i];
      }
      AllHalt(vol, es[..k], path);
      HaltsAppend(vol, es, path);
    }
  }

  lemma HaltsAppend(vol: Vol, es: seq<Entry>, path: Path)
    requires |es| > 0 && Halts(vol, es[..|es| - 1], path)
    requires var e := es[|es| - 1]; Enters(vol, e, path) ==> Halts(vol, ListedBelow(vol, e, path), Join(path, e.name))
    ensures Halts(vol, es, path)
  {
    hide Enters, Join;
    var k := |es| - 1;
    var e := es[k];
    var a: nat :| Ends(vol, es[..k], path, a);
    var b: nat := if Enters(vol, e, path) then Depth(vol, ListedBelow(vol, e, path), Join(path, e.name)) + 1 else 0;
    var n := a + b;
    EndsMore(vol, es[..k], path, a, n);
    if Enters(vol, e, path) { EndsMore(vol, ListedBelow(vol, e, path), Join(path, e.name), b - 1, n - 1); }
    forall i | 0 <= i < |es| && Enters(vol, es[i], path) ensures n > 0
    && Ends(vol, ListedBelow(vol, es[i], path), Join(path, es[i].name), n - 1) {
      if i < k { assert es[..k][i] == es[i]; }
    }
    assert Ends(vol, es, path, n);
  }

  // ---------------------------------------------------------------- endless descents

  /** A directory being scanned, and the path it is scanned at. */
  type Spot = (nat, Path)

  /** What the directory of a spot lists. */
  ghost function SpotEntries(vol: Vol, s: Spot): seq<Entry> {
    if Opens(vol, s.0, s.1) then vol.list(s.0).value else []
  }

  /** Entry `i` of the directory at `s` leads to `s'`. */
  ghost predicate StepBy(vol: Vol, s: Spot, i: nat, s': Spot) {
    i < |SpotEntries(vol, s)| && Enters(vol, SpotEntries(vol, s)[i], s.1)
    && s' == (SpotEntries(vol, s)[i].anode, Join(s.1, SpotEntries(vol, s)[i].name))
  }

  ghost predicate Step(vol: Vol, s: Spot, s': Spot) {
    exists i: nat :: StepBy(vol, s, i, s')
  }

  ghost predicate SpotHalts(vol: Vol, s: Spot) {
    Halts(vol, SpotEntries(vol, s), s.1)
  }

  /** The scan goes down forever. */
  ghost predicate Endless(vol: Vol, s: Spot, f: nat -> Spot) {
    f(0) == s && forall n: nat :: Step(vol, f(n), f(n + 1))
  }

  lemma StepBelow(vol: Vol, s: Spot, i: nat, s': Spot)
    requires StepBy(vol, s, i, s')
    ensures SpotEntries(vol, s') == ListedBelow(vol, SpotEntries(vol, s)[i], s.1)
  {
    hide Join, ReadableBlocks;
  }

  lemma HaltsStep(vol: Vol, s: Spot, s': Spot)
    requires Step(vol, s, s') && SpotHalts(vol, s)
    ensures SpotHalts(vol, s') && Depth(vol, SpotEntries(vol, s'), s'.1) < Depth(vol, SpotEntries(vol, s), s.1)
  {
    hide Join, Enters, SpotEntries, Halts;
    var i: nat :| StepBy(vol, s, i, s');
    StepBelow(vol, s, i, s');
    SubHalts(vol, SpotEntries(vol, s), s.1, i);
  }

  /** Where the scan does not end, it goes down to where it does not end. */
  lemma StuckBelow(vol: Vol, s: Spot)
    requires !SpotHalts(vol, s)
    ensures exists s' :: Step(vol, s, s') && !SpotHalts(vol, s')
  {
    hide Join, Enters, SpotEntries, Halts;
    var es := SpotEntries(vol, s);
    if forall i :: 0 <= i < |es| && Enters(vol, es[i], s.1) ==>
                     Halts(vol, ListedBelow(vol, es[i], s.1), Join(s.1, es[i].name)) {
      AllHalt(vol, es, s.1);
    } else {
      var i: nat :| i < |es| && Enters(vol, es[i], s.1)
      && !Halts(vol, ListedBelow(vol, es[i], s.1), Join(s.1, es[i].name));
      var s' := (es[i].anode, Join(s.1, es[i].name));
      assert StepBy(vol, s, i, s');
      StepBelow(vol, s, i, s');
      assert Step(vol, s, s') && !SpotHalts(vol, s');
    }
  }

  ghost function Down(vol: Vol, s: Spot): (s': Spot)
    requires !SpotHalts(vol, s)
    ensures Step(vol, s, s') && !SpotHalts(vol, s')
  {
    StuckBelow(vol, s);
    var s' :| Step(vol, s, s') && !SpotHalts(vol, s');
    s'
  }

  ghost function DownBy(vol: Vol, s: Spot, n: nat): (s': Spot)
    requires !SpotHalts(vol, s)
    ensures !SpotHalts(vol, s')
  {
    if n == 0 then s else Down(vol, DownBy(vol, s, n - 1))
  }

  lemma {:induction false} NoEndless(vol: Vol, f: nat -> Spot, n: nat)
    requires SpotHalts(vol, f(n)) && forall k: nat :: Step(vol, f(k), f(k + 1))
    ensures false
    decreases Depth(vol, SpotEntries(vol, f(n)), f(n).1)
  {
    hide Step, Halts, SpotEntries;
    HaltsStep(vol, f(n), f(n + 1));
    NoEndless(vol, f, n + 1);
  }

  /** The scan of a directory ends exactly when it cannot go down forever. */
  lemma EndsIffNoDescent(vol: Vol, s: Spot)
    ensures SpotHalts(vol, s) <==> !exists f: nat -> Spot :: Endless(vol, s, f)
  {
    hide SpotHalts, Step;
    if SpotHalts(vol, s) {
      forall f: nat -> Spot | Endless(vol, s, f) ensures false { NoEndless(vol, f, 0); }
    } else {
      var f := (n: nat) => DownBy(vol, s, n);
      assert f(0) == s;
      forall n: nat ensures Step(vol, f(n), f(n + 1)) { assert f(n + 1) == Down(vol, DownBy(vol, s, n)); }
      assert Endless(vol, s, f);
    }
  }

  // ---------------------------------------------------------------- cycles of empty names

  /** Directory `d` lists directory `d'` under the empty name. */
  ghost predicate EmptyLink(vol: Vol, d: nat, d': nat) {
    && vol.list(d).Some? && vol.list(d').Some?
    && exists i :: 0 <= i < |vol.list(d).value| && EmptyName(vol, vol.list(d).value[i], d')
  }

  ghost predicate EmptyName(vol: Vol, e: Entry, d: nat) {
    e.name == [] && IsDir(e) && ReadableBlocks(vol.t, e.anode).Some? && e.anode == d
  }

  /** `ds` leads from `d` back to `d` by empty names. */
  ghost predicate Cycle(vol: Vol, d: nat, ds: seq<nat>) {
    && |ds| >= 2 && ds[0] == d && ds[|ds| - 1] == d
    && forall i, j :: 0 <= i < j < |ds| && j == i + 1 ==> EmptyLink(vol, ds[i], ds[j])
  }

  ghost predicate OnCycle(vol: Vol, d: nat) {
    exists ds :: Cycle(vol, d, ds)
  }

  ghost predicate IsRouteTo(vol: Vol, s: Spot, r: seq<Spot>, t: Spot) {
    |r| > 0 && r[0] == s && r[|r| - 1] == t && forall i, j :: 0 <= i < j < |r| && j == i + 1 ==> Step(vol, r[i], r[j])
  }

  /** The scan of `s` comes to `t`. */
  ghost predicate Reaches(vol: Vol, s: Spot, t: Spot) {
    exists r :: IsRouteTo(vol, s, r, t)
  }

  /** Anode numbers are 32 bits wide. */
  ghost predicate SmallAnodes(vol: Vol) {
    forall d, i :: vol.list(d).Some? && 0 <= i < |vol.list(d).value| ==> vol.list(d).value[i].anode < U32
  }

  /** Twice the levels left before the nesting limit, and one for a trailing slash. */
  function Level(p: Path): nat {
    2 * Room(p) + Trail(p)
  }

  ghost predicate EmptyStep(vol: Vol, s: Spot, s': Spot) {
    s'.1 == s.1 && Trail(s.1) == 1 && Slashes(s.1) <= MAX_DEPTH && EmptyLink(vol, s.0, s'.0)
  }

  /** A step lowers the level, or follows an empty name below a trailing slash. */
  lemma StepLevel(vol: Vol, s: Spot, s': Spot)
    requires Step(vol, s, s')
    ensures Level(s'.1) < Level(s.1) || EmptyStep(vol, s, s')
  {
    hide Slashes, ReadableBlocks;
    var i: nat :| StepBy(vol, s, i, s');
    var e := SpotEntries(vol, s)[i];
    JoinMeasure(s.1, e.name);
    hide Join;
    if e.name == [] && Trail(s.1) == 1 { assert EmptyName(vol, vol.list(s.0).value[i], s'.0); }
  }

  lemma {:induction false} LevelFalls(vol: Vol, f: nat -> Spot, n: nat, k: nat)
    requires n <= k && forall i: nat :: Step(vol, f(i), f(i + 1))
    ensures Level(f(k).1) <= Level(f(n).1)
    decreases k
  {
    hide Step, Level, EmptyLink, Trail, Slashes;
    if n < k {
      LevelFalls(vol, f, n, k - 1);
      StepLevel(vol, f(k - 1), f(k));
    }
  }

  /** From some point on an endless descent follows empty names only, at one path. */
  lemma {:induction false} Settles(vol: Vol, f: nat -> Spot, n: nat) returns (m: nat)
    requires forall i: nat :: Step(vol, f(i), f(i + 1))
    ensures n <= m && forall k: nat :: m <= k ==> EmptyStep(vol, f(k), f(k + 1))
    decreases Level(f(n).1)
  {
    hide Step, Level, EmptyStep;
    if forall k: nat :: n <= k ==> EmptyStep(vol, f(k), f(k + 1)) {
      m := n;
    } else {
      var k: nat :| n <= k && !EmptyStep(vol, f(k), f(k + 1));
      StepLevel(vol, f(k), f(k + 1));
      LevelFalls(vol, f, n, k);
      m := Settles(vol, f, k + 1);
    }
  }

  lemma SmallSpot(vol: Vol, s: Spot, s': Spot)
    requires SmallAnodes(vol) && EmptyStep(vol, s, s')
    ensures s'.0 < U32
  {
  }

  /** Among more than `n` numbers below `n` two are equal. */
  lemma Repeats(a: seq<nat>, n: nat) returns (i: nat, j: nat)
    requires |a| > n && forall k :: 0 <= k < |a| ==> a[k] < n
    ensures i < j < |a| && a[i] == a[j]
  {
    if NoDup(a) { BoundedNoDup(a, n); }
    i, j :| 0 <= i < j < |a| && a[i] == a[j];
  }

  /** Where the scan has come to. */
  lemma Comes(vol: Vol, f: nat -> Spot, n: nat)
    requires forall i: nat :: Step(vol, f(i), f(i + 1))
    ensures Reaches(vol, f(0), f(n))
  {
    hide Step;
    var r := seq(n + 1, (i: nat) => f(i));
    assert IsRouteTo(vol, f(0), r, f(n));
  }

  lemma LinkOpens(vol: Vol, s: Spot, s': Spot)
    requires EmptyStep(vol, s, s')
    ensures Opens(vol, s.0, s.1) && Trail(s.1) == 1
  {
    hide Slashes, EmptyName;
  }

  /** The `n` directories visited from step `p` on. */
  ghost function Visited(f: nat -> Spot, p: nat, n: nat): (r: seq<nat>)
    ensures |r| == n && forall i :: 0 <= i < n ==> r[i] == f(p + i).0
  {
    if n == 0 then [] else Visited(f, p, n - 1) + [f(p + n - 1).0]
  }

  /** Coming back to the same directory by empty names only. */
  lemma CycleFrom(vol: Vol, f: nat -> Spot, p: nat, q: nat)
    requires p < q && f(p).0 == f(q).0 && forall k: nat :: p <= k ==> EmptyStep(vol, f(k), f(k + 1))
    ensures OnCycle(vol, f(p).0)
  {
    hide EmptyLink, Trail, Slashes;
    var ds: seq<nat> := Visited(f, p, q - p + 1);
    forall i, j | 0 <= i < j < |ds| && j == i + 1
      ensures EmptyLink(vol, ds[i], ds[j]) { assert EmptyStep(vol, f(p + i), f(p + i + 1)); }
    assert Cycle(vol, f(p).0, ds);
  }

  lemma Returns(vol: Vol, f: nat -> Spot, m: nat) returns (p: nat, q: nat)
    requires SmallAnodes(vol) && forall k: nat :: m <= k ==> EmptyStep(vol, f(k), f(k + 1))
    ensures m < p < q && f(p).0 == f(q).0
  {
    hide SmallAnodes, EmptyStep;
    var a: seq<nat> := Visited(f, m + 1, U32 + 1);
    forall k | 0 <= k < |a| ensures a[k] < U32 {
      assert EmptyStep(vol, f(m + k), f(m + k + 1));
      SmallSpot(vol, f(m + k), f(m + k + 1));
    }
    var i, j := Repeats(a, U32);
    p, q := m + i + 1, m + j + 1;
    assert a[i] == f(p).0 && a[j] == f(q).0;
  }

  lemma EndlessCycle(vol: Vol, f: nat -> Spot) returns (t: Spot)
    requires SmallAnodes(vol) && forall i: nat :: Step(vol, f(i), f(i + 1))
    ensures Reaches(vol, f(0), t) && Opens(vol, t.0, t.1) && Trail(t.1) == 1 && OnCycle(vol, t.0)
  {
    hide Step, SmallAnodes, Reaches, EmptyStep, OnCycle, Opens;
    var m := Settles(vol, f, 0);
    var p, q := Returns(vol, f, m);
    t := f(p);
    assert EmptyStep(vol, f(p), f(p + 1));
    LinkOpens(vol, t, f(p + 1));
    Comes(vol, f, p);
    CycleFrom(vol, f, p, q);
  }

  /** On a cycle of empty names below a trailing slash the scan never ends. */
  lemma {:induction false} CycleSticks(vol: Vol, p: Path, d: nat, ds: seq<nat>, i: nat, n: nat)
    requires Cycle(vol, d, ds) && i < |ds| - 1 && Trail(p) == 1 && Slashes(p) <= MAX_DEPTH
    ensures vol.list(ds[i]).Some? && !Ends(vol, vol.list(ds[i]).value, p, n)
    decreases n
  {
    hide ReadableBlocks, Slashes;
    assert EmptyLink(vol, ds[i], ds[i + 1]);
    var es := vol.list(ds[i]).value;
    var j :| 0 <= j < |es| && EmptyName(vol, es[j], ds[i + 1]);
    assert Join(p, es[j].name) == p;
    assert Enters(vol, es[j], p) && ListedBelow(vol, es[j], p) == vol.list(ds[i + 1]).value;
    if n > 0 {
      var k := if i + 1 < |ds| - 1 then i + 1 else 0;
      assert ds[k] == ds[i + 1];
      CycleSticks(vol, p, d, ds, k, n - 1);
    }
  }

  lemma {:induction false} HaltsAlong(vol: Vol, s: Spot, r: seq<Spot>, t: Spot)
    requires IsRouteTo(vol, s, r, t) && SpotHalts(vol, s)
    ensures SpotHalts(vol, t)
    decreases |r|
  {
    hide Step, SpotHalts;
    if |r| > 1 {
      var q := r[..|r| - 1];
      HaltsAlong(vol, s, q, q[|q| - 1]);
      HaltsStep(vol, r[|r| - 2], t);
    }
  }

  /** Something the scan of `s` comes to, below a trailing slash, leads back to itself by empty names. */
  ghost predicate LeadsToCycle(vol: Vol, s: Spot) {
    exists t: Spot :: Reaches(vol, s, t) && Opens(vol, t.0, t.1) && Trail(t.1) == 1 && OnCycle(vol, t.0)
  }

  /** The scan ends exactly when no directory it enters, within the nesting limit and at a path with a
      trailing slash, lies on a cycle of directory entries with empty names. */
  lemma EndsIffNoCycle(vol: Vol, s: Spot)
    requires SmallAnodes(vol)
    ensures SpotHalts(vol, s) <==> !LeadsToCycle(vol, s)
  {
    hide SmallAnodes, Reaches, Trail, Step, Opens;
    EndsIffNoDescent(vol, s);
    if !SpotHalts(vol, s) {
      var f :| Endless(vol, s, f);
      var t := EndlessCycle(vol, f);
    } else if LeadsToCycle(vol, s) {
      var t: Spot :| Reaches(vol, s, t) && Opens(vol, t.0, t.1) && Trail(t.1) == 1 && OnCycle(vol, t.0);
      ReachedHalts(vol, s, t);
      NeverEnds(vol, t);
    }
  }

  lemma ReachedHalts(vol: Vol, s: Spot, t: Spot)
    requires Reaches(vol, s, t) && SpotHalts(vol, s)
    ensures SpotHalts(vol, t)
  {
    hide SpotHalts;
    var r :| IsRouteTo(vol, s, r, t);
    HaltsAlong(vol, s, r, t);
  }

  lemma NeverEnds(vol: Vol, t: Spot)
    requires Opens(vol, t.0, t.1) && Trail(t.1) == 1 && OnCycle(vol, t.0)
    ensures !SpotHalts(vol, t)
  {
    hide Slashes, Trail, Ends, EmptyLink;
    var ds :| Cycle(vol, t.0, ds);
    forall n: nat ensures !Ends(vol, vol.list(t.0).value, t.1, n) { CycleSticks(vol, t.1, t.0, ds, 0, n); }
  }

  /** Where no directory is listed under the empty name, every scan ends. */
  lemma NamedHalts(vol: Vol, s: Spot)
    requires forall d, d' :: !EmptyLink(vol, d, d')
    ensures SpotHalts(vol, s)
  {
    hide SpotHalts, Step, EmptyLink;
    EndsIffNoDescent(vol, s);
    if !SpotHalts(vol, s) {
      var f :| Endless(vol, s, f);
      var m := Settles(vol, f, 0);
      Never(vol, f(m), f(m + 1));
    }
  }

  lemma Never(vol: Vol, s: Spot, s': Spot)
    requires forall d, d' :: !EmptyLink(vol, d, d')
    ensures !EmptyStep(vol, s, s')
  {
    hide EmptyLink;
  }

  // ---------------------------------------------------------------- two volumes

  /** The entry of a directory under the empty name. */
  function Nameless(d: nat): Entry {
    BuildEntry([], ST_USERDIR, d, 0, 0, Stamp(0, 0, 0))
  }

  const ROOT: Path := [SLASH]

  /** The root directory lists itself under the empty name. */
  function LoopVol(): Vol {
    Vol((n: nat) => if n == ANODE_ROOTDIR then Some(Slot(1, 100, ANODE_EOF)) else None,
        (d: nat) => if d == ANODE_ROOTDIR then Some([Nameless(ANODE_ROOTDIR)]) else None, 512)
  }

  /** The scan of such a volume never ends. */
  lemma LoopNeverEnds()
    ensures !SpotHalts(LoopVol(), (ANODE_ROOTDIR, ROOT))
  {
    var vol := LoopVol();
    RootPath();
    OneAnode(vol.t, ANODE_ROOTDIR, Slot(1, 100, ANODE_EOF));
    hide ReadableBlocks, Slashes;
    assert EmptyName(vol, vol.list(ANODE_ROOTDIR).value[0], ANODE_ROOTDIR);
    assert Cycle(vol, ANODE_ROOTDIR, [ANODE_ROOTDIR, ANODE_ROOTDIR]);
    NeverEnds(vol, (ANODE_ROOTDIR, ROOT));
  }

  lemma RootPath()
    ensures Slashes(ROOT) == 1 && Trail(ROOT) == 1
  {
    assert ROOT[..0] == [];
  }

  lemma OneAnode(t: nat -> Option<Slot>, nr: nat, x: Slot)
    requires t(nr) == Some(x) && x.next == ANODE_EOF && nr != ANODE_EOF
    ensures ReadableBlocks(t, nr).Some?
  {
    assert Reads(t, nr, [nr]);
    ReadableBlocksIff(t, nr, [nr]);
  }

  /** The root directory lists 6, and 6 lists 7, each under the empty name. */
  function LineVol(): Vol {
    Vol((n: nat) => if ANODE_ROOTDIR <= n <= 7 then Some(Slot(1, 100 + n, ANODE_EOF)) else None,
        (d: nat) => if ANODE_ROOTDIR <= d < 7 then Some([Nameless(d + 1)]) else if d == 7 then Some([]) else None, 512)
  }

  /** Empty names alone do not keep the scan from ending. */
  lemma LineEnds()
    ensures EmptyLink(LineVol(), ANODE_ROOTDIR, 6) && EmptyLink(LineVol(), 6, 7)
            && SpotHalts(LineVol(), (ANODE_ROOTDIR, ROOT))
  {
    var vol := LineVol();
    RootPath();
    OneAnode(vol.t, 6, Slot(1, 106, ANODE_EOF));
    OneAnode(vol.t, 7, Slot(1, 107, ANODE_EOF));
    hide ReadableBlocks, Slashes;
    assert EmptyName(vol, vol.list(ANODE_ROOTDIR).value[0], 6) && EmptyName(vol, vol.list(6).value[0], 7);
    assert Join(ROOT, []) == ROOT;
    assert Ends(vol, [], ROOT, 0);
    assert Ends(vol, [Nameless(7)], ROOT, 1);
    assert Ends(vol, [Nameless(6)], ROOT, 2);
  }
}
