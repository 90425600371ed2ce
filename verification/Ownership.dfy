/** Block ownership: what it means for anode chains, directories, bitmaps and file
    contents to agree, and why every step of a write operation keeps that. */
module Ownership {
  import opened Types

  /** Metadata seen as finite maps: the anodes in use, the directory blocks in use,
      the free data blocks and the free reserved blocks. */
  datatype Flat = Flat(tab: Tab, dirs: Dirs, free: set<nat>, resFree: set<nat>)

  /** What a name denotes. */
  datatype Obj = Obj(anode: nat, entryType: int, name: Name, protection: nat, data: Bytes)

  /** The volume as its user sees it: (directory anode, canonical name) to object. */
  type FS = map<(nat, Name), Obj>

  type Tab = map<nat, Slot>
  type Dirs = map<nat, seq<Entry>>
  type Link = map<nat, nat>

  /** Witnesses: the chain of each head, the head of each anode, the anode owning each
      block, the entry naming each head, the directory block holding that entry, the
      directory it names the head in, the heads that are directories, a rank that
      falls from a directory to its parent, and the contents of each file. */
  datatype Wit = Wit(path: map<nat, seq<nat>>, node: Link, owner: Link, ent: map<nat, Entry>, home: Link,
                     par: Link, dh: set<nat>, rank: Link, data: map<nat, Bytes>)

  /** `fl` holds the heads built but not yet named by an entry, `sys` the reserved
      blocks holding bitmaps, indexes, anodes and the root cluster. */
  datatype Own = Own(f: Flat, w: Wit, fs: FS, fl: set<nat>, sys: set<nat>)

  type Sectors = map<nat, Bytes>

  predicate InExt(s: Slot, x: nat) {
    s.blk <= x < s.blk + s.size
  }

  function Expand(s: Slot): seq<nat> {
    seq(s.size, i requires 0 <= i => s.blk + i)
  }

  /** The block list of a chain. */
  function Blocks(tab: Tab, p: seq<nat>): seq<nat> {
    if |p| == 0 then [] else (if p[0] in tab then Expand(tab[p[0]]) else []) + Blocks(tab, p[1..])
  }

  /** Concatenated contents of a block list. */
  function Concat(sect: Sectors, bl: seq<nat>): Bytes {
    if |bl| == 0 then [] else (if bl[0] in sect then sect[bl[0]] else []) + Concat(sect, bl[1..])
  }

  function Clip(s: Bytes, n: nat): Bytes {
    if n <= |s| then s[..n] else s
  }

  /** What reading `size` bytes through a block list returns. */
  function ReadData(sect: Sectors, bl: seq<nat>, size: nat): Bytes {
    Clip(Concat(sect, bl), size)
  }

  ghost predicate IsPath(tab: Tab, h: nat, p: seq<nat>) {
    && |p| > 0 && p[0] == h
    && (forall i :: 0 <= i < |p| ==> p[i] in tab)
    && (forall i, j :: 0 <= i < j < |p| && j == i + 1 ==> tab[p[i]].next == p[j])
    && tab[p[|p| - 1]].next == ANODE_EOF
    && (forall i, j :: 0 <= i < j < |p| ==> p[i] != p[j])
  }

  ghost predicate Chains(tab: Tab, path: map<nat, seq<nat>>) {
    ANODE_EOF !in tab && forall h :: h in path ==> IsPath(tab, h, path[h])
  }

  /** Every anode in use lies on exactly one chain. */
  ghost predicate Nodes(tab: Tab, path: map<nat, seq<nat>>, node: Link) {
    && node.Keys == tab.Keys
    && (forall h, a :: h in path && a in path[h] ==> a in node && node[a] == h)
    && (forall a :: a in node ==> node[a] in path && a in path[node[a]])
  }

  /** Every block belongs to at most one anode: `owner` names it. */
  ghost predicate Cover(tab: Tab, owner: Link) {
    && (forall a, x :: a in tab && InExt(tab[a], x) ==> x in owner && owner[x] == a)
    && (forall x :: x in owner ==> owner[x] in tab && InExt(tab[owner[x]], x))
  }

  /** A data block is free exactly when no anode owns it; a directory block is owned, and
      neither owned nor system reserved blocks are free. Directory blocks, free reserved blocks and
      system blocks all lie between the root cluster and the data area. */
  ghost predicate Area(g: Geo, f: Flat, owner: Link, sys: set<nat>) {
    && (forall x :: x in f.free <==> InData(g, x) && x !in owner)
    && (forall b :: b in f.dirs ==> b in owner && b < g.bmStart && InReserved(g, b))
    && (forall b :: b in f.resFree ==> b < g.bmStart && b !in owner && InReserved(g, b))
    && (forall b :: b in sys ==> b < g.bmStart && InReserved(g, b))
    && sys !! f.resFree && sys !! f.dirs.Keys
  }

  /** Directory chains consist of single directory blocks; all others of data blocks. */
  ghost predicate Kinds(g: Geo, tab: Tab, dirs: Dirs, node: Link, dh: set<nat>) {
    && node.Keys == tab.Keys
    && (forall a :: a in tab && node[a] in dh ==> tab[a].size == 1 && tab[a].blk in dirs)
    && (forall a, x :: a in tab && node[a] !in dh && InExt(tab[a], x) ==> InData(g, x))
  }

  /** No two entries name the same head. */
  ghost predicate Distinct(s: seq<Entry>) {
    forall i, j :: 0 <= i < j < |s| ==> s[i].anode != s[j].anode
  }

  /** Directory contents and the entry of each named head determine each other. */
  ghost predicate Entries(dirs: Dirs, ent: map<nat, Entry>, home: Link) {
    && home.Keys == ent.Keys
    && (forall b, e :: b in dirs && e in dirs[b] ==> e.anode in ent && ent[e.anode] == e && home[e.anode] == b)
    && (forall h :: h in ent ==> ent[h].anode == h && home[h] in dirs && ent[h] in dirs[home[h]])
    && (forall b :: b in dirs ==> Distinct(dirs[b]))
  }

  /** Every head but the root and the floating ones is named, directories as directories. */
  ghost predicate Heads(path: map<nat, seq<nat>>, ent: map<nat, Entry>, dh: set<nat>, fl: set<nat>) {
    && dh <= path.Keys && fl <= path.Keys && ANODE_ROOTDIR in dh && ANODE_ROOTDIR !in fl
    && (forall h :: h in ent <==> h in path && h != ANODE_ROOTDIR && h !in fl)
    && (forall h :: h in ent ==> (h in dh <==> IsDir(ent[h])))
  }

  /** The block of each entry belongs to the chain of the directory it names its head in. */
  ghost predicate Parents(node: Link, owner: Link, home: Link, par: Link, dh: set<nat>) {
    && par.Keys == home.Keys
    && (forall h {:trigger par[h]} :: h in home ==> home[h] in owner && owner[home[h]] in node
                                                    && node[owner[home[h]]] == par[h] && par[h] in dh)
  }

  ghost function Key(par: Link, ent: map<nat, Entry>, h: nat): (nat, Name)
    requires h in par && h in ent
  {
    (par[h], Canon(ent[h].name))
  }

  function Describe(e: Entry, d: Bytes): Obj {
    Obj(e.anode, e.entryType, e.name, e.protection, d)
  }

  /** The user's view is exactly what entries and contents say. */
  ghost predicate Names(fs: FS, par: Link, ent: map<nat, Entry>, data: map<nat, Bytes>) {
    && par.Keys == ent.Keys == data.Keys
    && (forall h :: h in ent ==> ent[h].anode == h)
    && (forall h {:trigger Key(par, ent, h)} :: h in ent ==> Key(par, ent, h) in fs
                                                             && fs[Key(par, ent, h)] == Describe(ent[h], data[h]))
    && (forall k :: k in fs ==> fs[k].anode in ent && Key(par, ent, fs[k].anode) == k)
  }

  ghost predicate SectorsOk(g: Geo, sect: Sectors) {
    forall x :: InData(g, x) ==> x in sect && |sect[x]| == g.bs
  }

  /** One file: its size fits its chain, and its contents are what the chain reads as. */
  ghost predicate Content(g: Geo, tab: Tab, p: seq<nat>, e: Entry, d: Bytes, sect: Sectors) {
    if IsDir(e) then d == []
    else FileSize(e) <= g.bs * |Blocks(tab, p)| && d == ReadData(sect, Blocks(tab, p), FileSize(e))
  }

  ghost predicate Contents(g: Geo, tab: Tab, path: map<nat, seq<nat>>, ent: map<nat, Entry>,
                           data: map<nat, Bytes>, sect: Sectors) {
    && ent.Keys == data.Keys
    && (forall h :: h in ent ==> h in path && Content(g, tab, path[h], ent[h], data[h], sect))
  }

  /** A directory's rank exceeds its parent's, so following parents ends at the root. */
  ghost predicate Ranked(ent: map<nat, Entry>, par: Link, dh: set<nat>, rank: Link) {
    && par.Keys == ent.Keys
    && (forall h :: h in dh ==> h in rank)
    && (forall h {:trigger par[h]} :: h in ent && h in dh ==> par[h] in rank && rank[par[h]] < rank[h])
  }

  ghost predicate Inv(g: Geo, o: Own, sect: Sectors) {
    && Chains(o.f.tab, o.w.path)
    && Nodes(o.f.tab, o.w.path, o.w.node)
    && Cover(o.f.tab, o.w.owner)
    && Area(g, o.f, o.w.owner, o.sys)
    && Kinds(g, o.f.tab, o.f.dirs, o.w.node, o.w.dh)
    && Entries(o.f.dirs, o.w.ent, o.w.home)
    && Heads(o.w.path, o.w.ent, o.w.dh, o.fl)
    && Parents(o.w.node, o.w.owner, o.w.home, o.w.par, o.w.dh)
    && Names(o.fs, o.w.par, o.w.ent, o.w.data)
    && SectorsOk(g, sect)
    && Contents(g, o.f.tab, o.w.path, o.w.ent, o.w.data, sect)
    && Ranked(o.w.ent, o.w.par, o.w.dh, o.w.rank)
  }

  // ---------------------------------------------------------------- chain arithmetic

  lemma {:induction false} BlocksConcat(tab: Tab, p: seq<nat>, q: seq<nat>)
    ensures Blocks(tab, p + q) == Blocks(tab, p) + Blocks(tab, q)
  {
    if |p| == 0 {
      assert p + q == q;
    } else {
      assert (p + q)[1..] == p[1..] + q;
      BlocksConcat(tab, p[1..], q);
    }
  }

  lemma {:induction false} BlocksFrame(t: Tab, t': Tab, p: seq<nat>)
    requires forall i :: 0 <= i < |p| ==> p[i] in t && p[i] in t' && t[p[i]].size == t'[p[i]].size
                                          && t[p[i]].blk == t'[p[i]].blk
    ensures Blocks(t, p) == Blocks(t', p)
  {
    if |p| > 0 {
      assert Expand(t[p[0]]) == Expand(t'[p[0]]);
      BlocksFrame(t, t', p[1..]);
    }
  }

  lemma {:induction false} BlocksMember(tab: Tab, p: seq<nat>, x: nat)
    requires forall i :: 0 <= i < |p| ==> p[i] in tab
    ensures x in Blocks(tab, p) <==> exists i :: 0 <= i < |p| && InExt(tab[p[i]], x)
  {
    if |p| > 0 {
      BlocksMember(tab, p[1..], x);
      var ex := Expand(tab[p[0]]);
      assert InExt(tab[p[0]], x) ==> ex[x - tab[p[0]].blk] == x;
      if x in Blocks(tab, p[1..]) {
        var i :| 0 <= i < |p[1..]| && InExt(tab[p[1..][i]], x);
        assert InExt(tab[p[i + 1]], x);
      }
      if i :| 0 <= i < |p| && InExt(tab[p[i]], x) {
        if i > 0 { assert InExt(tab[p[1..][i - 1]], x); }
      }
    }
  }

  lemma {:induction false} ConcatAppend(sect: Sectors, a: seq<nat>, b: seq<nat>)
    ensures Concat(sect, a + b) == Concat(sect, a) + Concat(sect, b)
  {
    if |a| == 0 {
      assert a + b == b;
    } else {
      assert (a + b)[1..] == a[1..] + b;
      ConcatAppend(sect, a[1..], b);
    }
  }

  lemma {:induction false} ConcatFrame(s: Sectors, s': Sectors, bl: seq<nat>)
    requires forall i :: 0 <= i < |bl| ==> bl[i] in s && bl[i] in s' && s[bl[i]] == s'[bl[i]]
    ensures Concat(s, bl) == Concat(s', bl)
  {
    if |bl| > 0 { ConcatFrame(s, s', bl[1..]); }
  }

  lemma {:induction false} ConcatLength(bs: nat, sect: Sectors, bl: seq<nat>)
    requires forall i :: 0 <= i < |bl| ==> bl[i] in sect && |sect[bl[i]]| == bs
    ensures |Concat(sect, bl)| == bs * |bl|
  {
    if |bl| > 0 { ConcatLength(bs, sect, bl[1..]); }
  }
}
