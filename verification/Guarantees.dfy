/** What the ownership invariant gives a user of the volume. */
module Guarantees {
  import opened Types
  import opened Ownership
  import opened Transitions

  /** A route of directory names from directory `h` down to directory `x`. */
  ghost predicate IsDescent(fs: FS, r: seq<(nat, Name)>, h: nat, x: nat) {
    if |r| == 0 then x == h
    else
      var k := r[|r| - 1];
      k in fs && fs[k].entryType == ST_USERDIR && fs[k].anode == x && IsDescent(fs, r[..|r| - 1], h, k.0)
  }

  /** Directory `x` is `h` or lies inside it. */
  ghost predicate Inside(fs: FS, x: nat, h: nat) {
    exists r :: IsDescent(fs, r, h, x)
  }

  lemma InsideSelf(fs: FS, h: nat)
    ensures Inside(fs, h, h)
  {
    var r: seq<(nat, Name)> := [];
    assert IsDescent(fs, r, h, h);
  }

  lemma InsideStep(fs: FS, k: (nat, Name), h: nat)
    requires k in fs && fs[k].entryType == ST_USERDIR && Inside(fs, k.0, h)
    ensures Inside(fs, fs[k].anode, h)
  {
    var r :| IsDescent(fs, r, h, k.0);
    var q := r + [k];
    assert q[..|q| - 1] == r;
    assert IsDescent(fs, q, h, fs[k].anode);
  }

  ghost predicate ReachableDir(fs: FS, d: nat) {
    Inside(fs, d, ANODE_ROOTDIR)
  }

  /** A chain is reachable when it is the root directory's or some entry of a reachable
      directory names it. */
  ghost predicate ReachableHead(fs: FS, h: nat) {
    h == ANODE_ROOTDIR || exists k :: k in fs && fs[k].anode == h && ReachableDir(fs, k.0)
  }

  lemma {:induction false} DirectoriesReachable(fs: FS, w: Wit, d: nat)
    requires Heads(w.path, w.ent, w.dh, {}) && Names(fs, w.par, w.ent, w.data) && Ranked(w.ent, w.par, w.dh, w.rank)
    requires Parents(w.node, w.owner, w.home, w.par, w.dh) && d in w.dh
    ensures ReachableDir(fs, d)
    decreases if d in w.rank then w.rank[d] else 0
  {
    if d == ANODE_ROOTDIR {
      InsideSelf(fs, d);
    } else {
      var k := Key(w.par, w.ent, d);
      assert w.par[d] in w.dh;
      DirectoriesReachable(fs, w, w.par[d]);
      hide Inside;
      InsideStep(fs, k, ANODE_ROOTDIR);
    }
  }

  lemma HeadsReachable(fs: FS, w: Wit, h: nat)
    requires Heads(w.path, w.ent, w.dh, {}) && Names(fs, w.par, w.ent, w.data) && Ranked(w.ent, w.par, w.dh, w.rank)
    requires Parents(w.node, w.owner, w.home, w.par, w.dh) && h in w.path
    ensures ReachableHead(fs, h)
  {
    if h != ANODE_ROOTDIR {
      var k := Key(w.par, w.ent, h);
      assert w.par[h] in w.dh;
      DirectoriesReachable(fs, w, w.par[h]);
      assert fs[k].anode == h;
    }
  }

  lemma ChainBlocksOwned(tab: Tab, path: map<nat, seq<nat>>, node: Link, owner: Link, h: nat, x: nat)
    requires Nodes(tab, path, node) && Cover(tab, owner) && h in path
    ensures x in Blocks(tab, path[h]) <==> x in owner && owner[x] in node && node[owner[x]] == h
  {
    NodesCover(tab, path, node, h);
    BlocksMember(tab, path[h], x);
    if x in owner && owner[x] in node && node[owner[x]] == h {
      assert InExt(tab[owner[x]], x);
      var i :| 0 <= i < |path[h]| && path[h][i] == owner[x];
    }
  }

  /** Block `x` is free or on the chain of exactly one head, never both; that chain is a file's,
      and its head can be reached from the root. It is no block of the reserved area. */
  ghost predicate AccountedFor(o: Own, x: nat) {
    && x !in o.sys && x !in o.f.dirs && x !in o.f.resFree
    && (x in o.f.free <==> forall h :: h in o.w.path ==> x !in Blocks(o.f.tab, o.w.path[h]))
    && (forall h, k ::
          h in o.w.path && k in o.w.path && x in Blocks(o.f.tab, o.w.path[h]) && x in Blocks(o.f.tab, o.w.path[k]) ==>
            h == k)
    && (forall h :: h in o.w.path && x in Blocks(o.f.tab, o.w.path[h]) ==> h !in o.w.dh && ReachableHead(o.fs, h))
  }

  /** Conservation: every data block is accounted for. */
  lemma EveryBlockAccounted(g: Geo, o: Own, sect: Sectors, x: nat)
    requires o.fl == {} && InData(g, x) && Inv(g, o, sect)
    ensures AccountedFor(o, x)
  {
    hide Chains, Nodes, Cover, Kinds, Entries, Parents, Names, SectorsOk, Contents, Ranked, Blocks, ReachableHead,
         Heads;
    forall h | h in o.w.path
      ensures x in Blocks(o.f.tab, o.w.path[h]) <==> x in o.w.owner && o.w.owner[x] in o.w.node
                                                     && o.w.node[o.w.owner[x]] == h
      ensures x in Blocks(o.f.tab, o.w.path[h]) ==> h !in o.w.dh
      ensures ReachableHead(o.fs, h)
    {
      ChainBlocksOwned(o.f.tab, o.w.path, o.w.node, o.w.owner, h, x);
      HeadsReachable(o.fs, o.w, h);
      if x in o.w.owner { OwnerHead(g, o, x); }
    }
    if x in o.w.owner { OwnerHead(g, o, x); }
  }

  lemma OwnerHead(g: Geo, o: Own, x: nat)
    requires Nodes(o.f.tab, o.w.path, o.w.node) && Cover(o.f.tab, o.w.owner)
             && Kinds(g, o.f.tab, o.f.dirs, o.w.node, o.w.dh)
    requires Area(g, o.f, o.w.owner, o.sys) && x in o.w.owner && InData(g, x)
    ensures o.w.owner[x] in o.w.node && o.w.node[o.w.owner[x]] in o.w.path && o.w.node[o.w.owner[x]] !in o.w.dh
  {
    assert InExt(o.f.tab[o.w.owner[x]], x);
  }

  /** Two different names never share a block of file data. */
  lemma FilesDisjoint(g: Geo, o: Own, sect: Sectors, h: nat, k: nat)
    requires Inv(g, o, sect) && h in o.w.path && k in o.w.path && h != k
    ensures forall x :: x in Blocks(o.f.tab, o.w.path[h]) ==> x !in Blocks(o.f.tab, o.w.path[k])
  {
    hide Chains, Nodes, Cover, Area, Kinds, Entries, Heads, Parents, Names, SectorsOk, Contents, Ranked, Blocks;
    forall x | x in Blocks(o.f.tab, o.w.path[h]) ensures x !in Blocks(o.f.tab, o.w.path[k]) {
      ChainBlocksOwned(o.f.tab, o.w.path, o.w.node, o.w.owner, h, x);
      ChainBlocksOwned(o.f.tab, o.w.path, o.w.node, o.w.owner, k, x);
    }
  }
}
