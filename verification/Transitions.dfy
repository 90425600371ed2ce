/** The steps that write operations are made of, as changes to the ownership state, each
    with the proof that it keeps the whole invariant. */
module Transitions {
  import opened Types
  import opened Ownership

  // ---------------------------------------------------------------- adding a chain

  ghost function All(s: set<nat>, h: nat): Link {
    map a | a in s :: h
  }

  /** A chain of anodes not in use, `om` naming the one that owns each of its blocks. */
  ghost predicate FreshChain(tab: Tab, p: seq<nat>, nt: Tab, om: Link) {
    && |p| > 0 && IsPath(nt, p[0], p) && (forall a :: a in nt <==> a in p)
    && nt.Keys !! tab.Keys && ANODE_EOF !in nt
    && Cover(nt, om)
  }

  lemma NodesCover(tab: Tab, path: map<nat, seq<nat>>, node: Link, h: nat)
    requires Nodes(tab, path, node) && h in path
    ensures forall i :: 0 <= i < |path[h]| ==> path[h][i] in tab && node[path[h][i]] == h
  {
  }

  lemma IsPathFrame(tab: Tab, tab': Tab, h: nat, p: seq<nat>)
    requires IsPath(tab, h, p)
    requires forall i :: 0 <= i < |p| ==> p[i] in tab' && tab'[p[i]].next == tab[p[i]].next
    ensures IsPath(tab', h, p)
  {
  }

  lemma AddChains(tab: Tab, path: map<nat, seq<nat>>, p: seq<nat>, nt: Tab, om: Link)
    requires Chains(tab, path) && FreshChain(tab, p, nt, om)
    ensures p[0] !in path && Chains(tab + nt, path[p[0] := p])
  {
    var tab', path' := tab + nt, path[p[0] := p];
    forall k | k in path' ensures IsPath(tab', k, path'[k]) {
      if k != p[0] {
        IsPathFrame(tab, tab', k, path[k]);
      } else {
        IsPathFrame(nt, tab', k, p);
      }
    }
  }

  lemma AddNodes(tab: Tab, path: map<nat, seq<nat>>, node: Link, p: seq<nat>, nt: Tab)
    requires Nodes(tab, path, node) && nt.Keys !! tab.Keys
    requires |p| > 0 && p[0] !in path && forall a :: a in nt <==> a in p
    ensures Nodes(tab + nt, path[p[0] := p], node + All(nt.Keys, p[0]))
    ensures node.Keys !! All(nt.Keys, p[0]).Keys
  {
  }

  lemma AddCover(tab: Tab, owner: Link, nt: Tab, om: Link)
    requires Cover(tab, owner) && Cover(nt, om) && tab.Keys !! nt.Keys && owner.Keys !! om.Keys
    ensures Cover(tab + nt, owner + om)
  {
  }

  ghost predicate AllData(g: Geo, s: set<nat>) {
    forall x :: x in s ==> InData(g, x)
  }

  lemma AddKinds(g: Geo, tab: Tab, dirs: Dirs, node: Link, dh: set<nat>, h: nat, nt: Tab, om: Link)
    requires Kinds(g, tab, dirs, node, dh) && h !in dh && nt.Keys !! tab.Keys
    requires Cover(nt, om) && AllData(g, om.Keys)
    ensures Kinds(g, tab + nt, dirs, node + All(nt.Keys, h), dh)
  {
  }

  /** The chains of the named heads, and the anodes on them, are the same on both sides. */
  ghost predicate SameFiles(tab: Tab, tab': Tab, path: map<nat, seq<nat>>, path': map<nat, seq<nat>>, ent: map<nat,
                            Entry>) {
    && (forall h :: h in ent ==> h in path && h in path' && path'[h] == path[h])
    && (forall h, a :: h in ent && a in path[h] ==> a in tab && a in tab' && tab'[a] == tab[a])
  }

  lemma ContentsFrame(g: Geo, tab: Tab, tab': Tab, path: map<nat, seq<nat>>, path': map<nat, seq<nat>>,
                      ent: map<nat, Entry>, data: map<nat, Bytes>, sect: Sectors)
    requires Contents(g, tab, path, ent, data, sect)
    requires SameFiles(tab, tab', path, path', ent)
    ensures Contents(g, tab', path', ent, data, sect)
  {
    forall h | h in ent ensures h in path' && Content(g, tab', path'[h], ent[h], data[h], sect) {
      BlocksFrame(tab, tab', path[h]);
    }
  }

  ghost function AddFileChain(o: Own, p: seq<nat>, nt: Tab, om: Link): Own
    requires |p| > 0
  {
    Own(Flat(o.f.tab + nt, o.f.dirs, o.f.free - om.Keys, o.f.resFree),
        Wit(o.w.path[p[0] := p], o.w.node + All(nt.Keys, p[0]), o.w.owner + om,
            o.w.ent, o.w.home, o.w.par, o.w.dh, o.w.rank, o.w.data),
        o.fs, o.fl + {p[0]}, o.sys)
  }

  lemma AddArea(g: Geo, f: Flat, owner: Link, sys: set<nat>, tab': Tab, om: Link)
    requires Area(g, f, owner, sys) && om.Keys <= f.free
    ensures om.Keys !! owner.Keys && AllData(g, om.Keys)
    ensures Area(g, Flat(tab', f.dirs, f.free - om.Keys, f.resFree), owner + om, sys)
  {
  }

  lemma AddParents(node: Link, owner: Link, home: Link, par: Link, dh: set<nat>, node': Link, om: Link)
    requires Parents(node, owner, home, par, dh) && om.Keys !! owner.Keys && node.Keys !! node'.Keys
    ensures Parents(node + node', owner + om, home, par, dh)
  {
  }

  lemma AddHeads(path: map<nat, seq<nat>>, ent: map<nat, Entry>, dh: set<nat>, fl: set<nat>, h: nat, p: seq<nat>)
    requires Heads(path, ent, dh, fl) && h !in path
    ensures Heads(path[h := p], ent, dh, fl + {h}) && h !in dh
  {
  }

  lemma AddSame(tab: Tab, path: map<nat, seq<nat>>, node: Link, ent: map<nat, Entry>, dh: set<nat>, fl: set<nat>,
                p: seq<nat>, nt: Tab)
    requires Nodes(tab, path, node) && Heads(path, ent, dh, fl) && nt.Keys !! tab.Keys && |p| > 0 && p[0] !in path
    ensures SameFiles(tab, tab + nt, path, path[p[0] := p], ent)
  {
  }

  lemma AddFileChainKeeps(g: Geo, o: Own, sect: Sectors, p: seq<nat>, nt: Tab, om: Link)
    requires Inv(g, o, sect) && FreshChain(o.f.tab, p, nt, om) && om.Keys <= o.f.free
    ensures Inv(g, AddFileChain(o, p, nt, om), sect)
  {
    hide Chains, Nodes, Cover, Area, Kinds, Entries, Heads, Parents, Names, SectorsOk, Contents, Ranked, SameFiles,
         AllData, All;
    AddChains(o.f.tab, o.w.path, p, nt, om);
    AddNodes(o.f.tab, o.w.path, o.w.node, p, nt);
    AddArea(g, o.f, o.w.owner, o.sys, o.f.tab + nt, om);
    AddCover(o.f.tab, o.w.owner, nt, om);
    AddHeads(o.w.path, o.w.ent, o.w.dh, o.fl, p[0], p);
    AddKinds(g, o.f.tab, o.f.dirs, o.w.node, o.w.dh, p[0], nt, om);
    AddParents(o.w.node, o.w.owner, o.w.home, o.w.par, o.w.dh, All(nt.Keys, p[0]), om);
    AddSame(o.f.tab, o.w.path, o.w.node, o.w.ent, o.w.dh, o.fl, p, nt);
    ContentsFrame(g, o.f.tab, o.f.tab + nt, o.w.path, o.w.path[p[0] := p], o.w.ent, o.w.data, sect);
  }

  // ---------------------------------------------------------------- adding a directory chain

  lemma DirArea(g: Geo, f: Flat, owner: Link, sys: set<nat>, tab': Tab, h: nat, b: nat)
    requires Area(g, f, owner, sys) && b in f.resFree
    ensures b !in owner && b !in f.dirs
    ensures Area(g, Flat(tab', f.dirs[b := []], f.free, f.resFree - {b}), owner + map[b := h], sys)
  {
  }

  lemma DirKinds(g: Geo, tab: Tab, dirs: Dirs, node: Link, dh: set<nat>, h: nat, b: nat)
    requires Kinds(g, tab, dirs, node, dh) && h !in tab && Unused(node, h)
    ensures Kinds(g, tab + map[h := Slot(1, b, ANODE_EOF)], dirs[b := []], node + All({h}, h), dh + {h})
  {
  }

  ghost predicate Unused(node: Link, h: nat) {
    forall a :: a in node ==> node[a] != h
  }

  lemma NodesUnused(tab: Tab, path: map<nat, seq<nat>>, node: Link, h: nat)
    requires Nodes(tab, path, node) && h !in path
    ensures Unused(node, h)
  {
  }

  lemma DirEntries(dirs: Dirs, ent: map<nat, Entry>, home: Link, b: nat)
    requires Entries(dirs, ent, home) && b !in dirs
    ensures Entries(dirs[b := []], ent, home)
  {
    forall h | h in ent ensures ent[h].anode == h && home[h] in dirs[b := []] && ent[h] in dirs[b := []][home[h]] {
    }
  }

  lemma DirHeads(path: map<nat, seq<nat>>, ent: map<nat, Entry>, dh: set<nat>, fl: set<nat>, h: nat, p: seq<nat>)
    requires Heads(path, ent, dh, fl) && h !in path
    ensures Heads(path[h := p], ent, dh + {h}, fl + {h}) && h !in ent
  {
  }

  lemma DirParents(node: Link, owner: Link, home: Link, par: Link, dh: set<nat>, h: nat)
    requires Parents(node, owner, home, par, dh)
    ensures Parents(node, owner, home, par, dh + {h})
  {
  }

  lemma DirRanked(ent: map<nat, Entry>, par: Link, dh: set<nat>, rank: Link, h: nat, r: nat)
    requires Ranked(ent, par, dh, rank) && h !in ent && h !in dh && NoKids(par, h)
    ensures Ranked(ent, par, dh + {h}, rank[h := r])
  {
  }

  ghost predicate NoKids(par: Link, h: nat) {
    forall k {:trigger par[k]} :: k in par ==> par[k] != h
  }

  lemma OrphanNoKids(node: Link, owner: Link, home: Link, par: Link, dh: set<nat>, h: nat)
    requires Parents(node, owner, home, par, dh) && h !in dh
    ensures NoKids(par, h)
  {
  }

  ghost function AddDirChain(o: Own, h: nat, b: nat, r: nat): Own {
    Own(Flat(o.f.tab + map[h := Slot(1, b, ANODE_EOF)], o.f.dirs[b := []], o.f.free, o.f.resFree - {b}),
        Wit(o.w.path[h := [h]], o.w.node + All({h}, h), o.w.owner + map[b := h],
            o.w.ent, o.w.home, o.w.par, o.w.dh + {h}, o.w.rank[h := r], o.w.data),
        o.fs, o.fl + {h}, o.sys)
  }

  lemma SingletonFresh(tab: Tab, h: nat, b: nat)
    requires h !in tab && h != ANODE_EOF
    ensures FreshChain(tab, [h], map[h := Slot(1, b, ANODE_EOF)], map[b := h])
    ensures (map[h := Slot(1, b, ANODE_EOF)]).Keys == {h} && (map[b := h]).Keys == {b}
  {
    var nt: Tab, om: Link := map[h := Slot(1, b, ANODE_EOF)], map[b := h];
    assert IsPath(nt, h, [h]);
    assert Cover(nt, om);
  }

  lemma AddDirChainKeeps(g: Geo, o: Own, sect: Sectors, h: nat, b: nat, r: nat)
    requires Inv(g, o, sect) && h !in o.f.tab && h != ANODE_EOF && b in o.f.resFree
    ensures Inv(g, AddDirChain(o, h, b, r), sect) && NoKids(o.w.par, h) && h !in o.w.path
  {
    hide Chains, Nodes, Cover, Area, Kinds, Entries, Heads, Parents, Names, SectorsOk, Contents, Ranked, SameFiles, All,
         NoKids, Unused, IsPath;
    var nt: Tab, om: Link := map[h := Slot(1, b, ANODE_EOF)], map[b := h];
    SingletonFresh(o.f.tab, h, b);
    AddChains(o.f.tab, o.w.path, [h], nt, om);
    AddNodes(o.f.tab, o.w.path, o.w.node, [h], nt);
    NodesUnused(o.f.tab, o.w.path, o.w.node, h);
    DirArea(g, o.f, o.w.owner, o.sys, o.f.tab + nt, h, b);
    AddCover(o.f.tab, o.w.owner, nt, om);
    AddHeads(o.w.path, o.w.ent, o.w.dh, o.fl, h, [h]);
    DirHeads(o.w.path, o.w.ent, o.w.dh, o.fl, h, [h]);
    DirKinds(g, o.f.tab, o.f.dirs, o.w.node, o.w.dh, h, b);
    DirEntries(o.f.dirs, o.w.ent, o.w.home, b);
    OrphanNoKids(o.w.node, o.w.owner, o.w.home, o.w.par, o.w.dh, h);
    AddParents(o.w.node, o.w.owner, o.w.home, o.w.par, o.w.dh, All({h}, h), om);
    DirParents(o.w.node + All({h}, h), o.w.owner + om, o.w.home, o.w.par, o.w.dh, h);
    DirRanked(o.w.ent, o.w.par, o.w.dh, o.w.rank, h, r);
    AddSame(o.f.tab, o.w.path, o.w.node, o.w.ent, o.w.dh, o.fl, [h], nt);
    ContentsFrame(g, o.f.tab, o.f.tab + nt, o.w.path, o.w.path[h := [h]], o.w.ent, o.w.data, sect);
  }

  // ---------------------------------------------------------------- appending one chain to another

  ghost function Last(p: seq<nat>): nat {
    if |p| > 0 then p[|p| - 1] else 0
  }

  ghost function JoinTab(tab: Tab, t: nat, x: nat): Tab {
    if t in tab then tab[t := tab[t].(next := x)] else tab
  }

  ghost function JoinPath(path: map<nat, seq<nat>>, h: nat, x: nat): map<nat, seq<nat>>
    requires h in path && x in path
  {
    (path - {x})[h := path[h] + path[x]]
  }

  ghost function Redirect(node: Link, x: nat, h: nat): Link {
    map a | a in node :: if node[a] == x then h else node[a]
  }

  lemma JoinedPath(tab: Tab, h: nat, p: seq<nat>, x: nat, q: seq<nat>)
    requires IsPath(tab, h, p) && IsPath(tab, x, q)
    requires forall i, j :: 0 <= i < |p| && 0 <= j < |q| ==> p[i] != q[j]
    ensures IsPath(JoinTab(tab, Last(p), x), h, p + q)
  {
    var tab' := JoinTab(tab, Last(p), x);
    var r := p + q;
    assert forall i :: 0 <= i < |q| ==> tab'[q[i]] == tab[q[i]];
    assert forall i :: 0 <= i < |p| - 1 ==> tab'[p[i]] == tab[p[i]];
    forall i, j | 0 <= i < j < |r| && j == i + 1 ensures tab'[r[i]].next == r[j] {
      if j < |p| {
        assert r[i] == p[i] && r[j] == p[j];
      } else if i >= |p| {
        assert r[i] == q[i - |p|] && r[j] == q[j - |p|];
      }
    }
  }

  lemma NodesApart(tab: Tab, path: map<nat, seq<nat>>, node: Link, h: nat, x: nat)
    requires Nodes(tab, path, node) && h in path && x in path && h != x
    ensures forall i, j :: 0 <= i < |path[h]| && 0 <= j < |path[x]| ==> path[h][i] != path[x][j]
  {
    NodesCover(tab, path, node, h);
    NodesCover(tab, path, node, x);
  }

  lemma JoinChains(tab: Tab, path: map<nat, seq<nat>>, node: Link, h: nat, x: nat)
    requires Chains(tab, path) && Nodes(tab, path, node) && h in path && x in path && h != x
    ensures Chains(JoinTab(tab, Last(path[h]), x), JoinPath(path, h, x))
  {
    hide Nodes;
    var tab', path' := JoinTab(tab, Last(path[h]), x), JoinPath(path, h, x);
    forall k | k in path' ensures IsPath(tab', k, path'[k]) {
      if k != h {
        NodesApart(tab, path, node, h, k);
        JoinedFrame(tab, path[h], x, k, path[k]);
      } else {
        NodesApart(tab, path, node, h, x);
        JoinedPath(tab, h, path[h], x, path[x]);
      }
    }
  }

  lemma JoinedFrame(tab: Tab, p: seq<nat>, x: nat, k: nat, q: seq<nat>)
    requires |p| > 0 && IsPath(tab, k, q)
    requires forall i, j :: 0 <= i < |p| && 0 <= j < |q| ==> p[i] != q[j]
    ensures IsPath(JoinTab(tab, Last(p), x), k, q)
  {
    assert forall i :: 0 <= i < |q| ==> JoinTab(tab, Last(p), x)[q[i]] == tab[q[i]];
    IsPathFrame(tab, JoinTab(tab, Last(p), x), k, q);
  }

  lemma JoinNodes(tab: Tab, path: map<nat, seq<nat>>, node: Link, h: nat, x: nat, t: nat)
    requires Nodes(tab, path, node) && h in path && x in path && h != x
    ensures Nodes(JoinTab(tab, t, x), JoinPath(path, h, x), Redirect(node, x, h))
  {
    var path', node' := JoinPath(path, h, x), Redirect(node, x, h);
    forall a | a in node' ensures node'[a] in path' && a in path'[node'[a]] {
      assert a in path[node[a]];
    }
    assert JoinTab(tab, t, x).Keys == tab.Keys;
  }

  lemma JoinCover(tab: Tab, owner: Link, t: nat, x: nat)
    requires Cover(tab, owner)
    ensures Cover(JoinTab(tab, t, x), owner)
  {
  }

  lemma JoinKinds(g: Geo, tab: Tab, dirs: Dirs, node: Link, dh: set<nat>, t: nat, h: nat, x: nat)
    requires Kinds(g, tab, dirs, node, dh) && (h in dh <==> x in dh) && h != x
    ensures Kinds(g, JoinTab(tab, t, x), dirs, Redirect(node, x, h), dh - {x})
  {
  }

  lemma JoinHeads(path: map<nat, seq<nat>>, ent: map<nat, Entry>, dh: set<nat>, fl: set<nat>, h: nat, x: nat)
    requires Heads(path, ent, dh, fl) && h in path && x in fl && h != x
    ensures Heads(JoinPath(path, h, x), ent, dh - {x}, fl - {x})
  {
  }

  lemma JoinParents(node: Link, owner: Link, home: Link, par: Link, dh: set<nat>, h: nat, x: nat)
    requires Parents(node, owner, home, par, dh) && NoKids(par, x)
    ensures Parents(Redirect(node, x, h), owner, home, par, dh - {x})
  {
    forall k | k in home
      ensures home[k] in owner && owner[home[k]] in Redirect(node, x, h)
              && Redirect(node, x, h)[owner[home[k]]] == par[k] && par[k] in dh - {x}
    {
      assert par[k] != x;
    }
  }

  lemma JoinRanked(ent: map<nat, Entry>, par: Link, dh: set<nat>, rank: Link, x: nat)
    requires Ranked(ent, par, dh, rank)
    ensures Ranked(ent, par, dh - {x}, rank)
  {
  }

  /** Reading a recorded size is unaffected by blocks added behind a chain. */
  lemma ReadPrefix(g: Geo, sect: Sectors, bl: seq<nat>, more: seq<nat>, n: nat)
    requires SectorsOk(g, sect) && InDataAll(g, bl) && n <= g.bs * |bl|
    ensures ReadData(sect, bl + more, n) == ReadData(sect, bl, n)
  {
    ConcatAppend(sect, bl, more);
    ConcatLength(g.bs, sect, bl);
    assert (Concat(sect, bl) + Concat(sect, more))[..n] == Concat(sect, bl)[..n];
  }

  lemma ContentGrows(g: Geo, tab: Tab, p: seq<nat>, tab': Tab, p': seq<nat>, e: Entry, d: Bytes, sect: Sectors,
                     more: seq<nat>)
    requires Content(g, tab, p, e, d, sect) && SectorsOk(g, sect)
    requires !IsDir(e) ==> Blocks(tab', p') == Blocks(tab, p) + more && InDataAll(g, Blocks(tab, p))
    ensures Content(g, tab', p', e, d, sect)
  {
    hide Blocks, SectorsOk, InDataAll, ReadData, FileSize;
    if !IsDir(e) {
      ReadPrefix(g, sect, Blocks(tab, p), more, FileSize(e));
      Monotone(g.bs, |Blocks(tab, p)|, |Blocks(tab', p')|);
    }
  }

  lemma Monotone(a: nat, b: nat, c: nat)
    requires b <= c
    ensures a * b <= a * c
  {
  }

  ghost predicate InDataAll(g: Geo, bl: seq<nat>) {
    forall i :: 0 <= i < |bl| ==> InData(g, bl[i])
  }

  lemma FileBlocksInData(g: Geo, tab: Tab, dirs: Dirs, path: map<nat, seq<nat>>, node: Link, dh: set<nat>, h: nat)
    requires Nodes(tab, path, node) && Kinds(g, tab, dirs, node, dh) && h in path && h !in dh
    ensures InDataAll(g, Blocks(tab, path[h]))
  {
    NodesCover(tab, path, node, h);
    forall i | 0 <= i < |Blocks(tab, path[h])| ensures InData(g, Blocks(tab, path[h])[i]) {
      BlocksMember(tab, path[h], Blocks(tab, path[h])[i]);
    }
  }

  lemma JoinBlocks(tab: Tab, path: map<nat, seq<nat>>, node: Link, h: nat, x: nat, t: nat)
    requires Nodes(tab, path, node) && h in path && x in path
    ensures Blocks(JoinTab(tab, t, x), path[h] + path[x]) == Blocks(tab, path[h]) + Blocks(tab, path[x])
  {
    NodesCover(tab, path, node, h);
    NodesCover(tab, path, node, x);
    BlocksFrame(tab, JoinTab(tab, t, x), path[h] + path[x]);
    BlocksConcat(tab, path[h], path[x]);
  }

  lemma JoinContents(g: Geo, o: Own, sect: Sectors, h: nat, x: nat)
    requires Nodes(o.f.tab, o.w.path, o.w.node) && Kinds(g, o.f.tab, o.f.dirs, o.w.node, o.w.dh)
    requires Heads(o.w.path, o.w.ent, o.w.dh, o.fl) && SectorsOk(g, sect)
    requires Contents(g, o.f.tab, o.w.path, o.w.ent, o.w.data, sect)
    requires h in o.w.path && x in o.fl && h != x
    ensures Contents(g, JoinTab(o.f.tab, Last(o.w.path[h]), x), JoinPath(o.w.path, h, x), o.w.ent, o.w.data, sect)
  {
    hide Kinds, Nodes, SectorsOk, InDataAll, Content, Cover;
    var tab', path' := JoinTab(o.f.tab, Last(o.w.path[h]), x), JoinPath(o.w.path, h, x);
    forall k | k in o.w.ent
      ensures k in path' && Content(g, tab', path'[k], o.w.ent[k], o.w.data[k], sect)
    {
      if k == h {
        JoinBlocks(o.f.tab, o.w.path, o.w.node, h, x, Last(o.w.path[h]));
        if !IsDir(o.w.ent[k]) { FileBlocksInData(g, o.f.tab, o.f.dirs, o.w.path, o.w.node, o.w.dh, k); }
        ContentGrows(g, o.f.tab, o.w.path[k], tab', path'[k], o.w.ent[k], o.w.data[k], sect,
                     Blocks(o.f.tab, o.w.path[x]));
      } else {
        JoinOther(g, o.f.tab, o.w.path, o.w.node, o.w.dh, o.f.dirs, h, x, k, sect, o.w.ent[k], o.w.data[k]);
      }
    }
  }

  lemma JoinOther(g: Geo, tab: Tab, path: map<nat, seq<nat>>, node: Link, dh: set<nat>, dirs: Dirs, h: nat, x: nat,
                  k: nat,
                  sect: Sectors, e: Entry, d: Bytes)
    requires Nodes(tab, path, node) && h in path && k in path
    requires Content(g, tab, path[k], e, d, sect)
    ensures Content(g, JoinTab(tab, Last(path[h]), x), path[k], e, d, sect)
  {
    NodesCover(tab, path, node, k);
    BlocksFrame(tab, JoinTab(tab, Last(path[h]), x), path[k]);
  }

  ghost function Append(o: Own, h: nat, x: nat): Own
    requires h in o.w.path && x in o.w.path
  {
    Own(Flat(JoinTab(o.f.tab, Last(o.w.path[h]), x), o.f.dirs, o.f.free, o.f.resFree),
        Wit(JoinPath(o.w.path, h, x), Redirect(o.w.node, x, h), o.w.owner, o.w.ent, o.w.home, o.w.par,
            o.w.dh - {x}, o.w.rank, o.w.data),
        o.fs, o.fl - {x}, o.sys)
  }

  lemma AppendKeeps(g: Geo, o: Own, sect: Sectors, h: nat, x: nat)
    requires Inv(g, o, sect) && h in o.w.path && x in o.w.path && x in o.fl && h != x
    requires (h in o.w.dh <==> x in o.w.dh) && NoKids(o.w.par, x)
    ensures Inv(g, Append(o, h, x), sect)
  {
    hide Chains, Nodes, Cover, Kinds, Entries, Heads, Parents, Names, SectorsOk, Contents, Ranked, NoKids, JoinTab,
         JoinPath, Redirect, Last;
    var t := Last(o.w.path[h]);
    JoinChains(o.f.tab, o.w.path, o.w.node, h, x);
    JoinNodes(o.f.tab, o.w.path, o.w.node, h, x, t);
    JoinCover(o.f.tab, o.w.owner, t, x);
    JoinKinds(g, o.f.tab, o.f.dirs, o.w.node, o.w.dh, t, h, x);
    JoinHeads(o.w.path, o.w.ent, o.w.dh, o.fl, h, x);
    JoinParents(o.w.node, o.w.owner, o.w.home, o.w.par, o.w.dh, h, x);
    JoinRanked(o.w.ent, o.w.par, o.w.dh, o.w.rank, x);
    JoinContents(g, o, sect, h, x);
  }

  // ---------------------------------------------------------------- truncating a chain

  function Elems(p: seq<nat>): set<nat> {
    set a | a in p
  }

  ghost function CutTab(tab: Tab, p: seq<nat>, k: nat, m: nat): Tab
    requires 0 < k <= |p|
  {
    if p[k - 1] in tab then (tab - Elems(p[k..]))[p[k - 1] := Slot(m, tab[p[k - 1]].blk, ANODE_EOF)] else tab
  }

  /** Blocks released when chain `p` keeps its first `k` anodes, the last with `m` blocks. */
  ghost function CutBlocks(tab: Tab, owner: Link, p: seq<nat>, k: nat, m: nat): set<nat>
    requires 0 < k <= |p|
  {
    set x | x in owner && (owner[x] in p[k..]
                           || (owner[x] == p[k - 1] && p[k - 1] in tab && x >= tab[p[k - 1]].blk + m))
  }

  lemma CutPath(tab: Tab, h: nat, p: seq<nat>, k: nat, m: nat)
    requires IsPath(tab, h, p) && 0 < k <= |p|
    ensures IsPath(CutTab(tab, p, k, m), h, p[..k])
  {
    var q, tab' := p[..k], CutTab(tab, p, k, m);
    forall i | 0 <= i < |q| ensures q[i] in tab' && (i < k - 1 ==> tab'[q[i]] == tab[q[i]]) {
      assert q[i] == p[i];
      assert forall j :: k <= j < |p| ==> p[j] != p[i];
    }
    assert q[|q| - 1] == p[k - 1];
  }

  lemma CutOther(tab: Tab, p: seq<nat>, k: nat, m: nat, q: seq<nat>, x: nat)
    requires IsPath(tab, x, q) && 0 < k <= |p|
    requires forall i, j :: 0 <= i < |p| && 0 <= j < |q| ==> p[i] != q[j]
    ensures IsPath(CutTab(tab, p, k, m), x, q)
    ensures forall i :: 0 <= i < |q| ==> q[i] in tab && q[i] in CutTab(tab, p, k, m)
                                         && CutTab(tab, p, k, m)[q[i]] == tab[q[i]]
  {
    forall i | 0 <= i < |q| ensures q[i] in tab && q[i] in CutTab(tab, p, k, m)
    && CutTab(tab, p, k, m)[q[i]] == tab[q[i]] {
      assert q[i] !in p[k..];
    }
    IsPathFrame(tab, CutTab(tab, p, k, m), x, q);
  }

  lemma CutChains(tab: Tab, path: map<nat, seq<nat>>, node: Link, h: nat, k: nat, m: nat)
    requires Chains(tab, path) && Nodes(tab, path, node) && h in path && 0 < k <= |path[h]|
    ensures Chains(CutTab(tab, path[h], k, m), path[h := path[h][..k]])
  {
    hide Nodes, CutTab;
    var tab', path' := CutTab(tab, path[h], k, m), path[h := path[h][..k]];
    forall x | x in path' ensures IsPath(tab', x, path'[x]) {
      if x != h {
        NodesApart(tab, path, node, h, x);
        CutOther(tab, path[h], k, m, path[x], x);
      } else {
        CutPath(tab, h, path[h], k, m);
      }
    }
    assert ANODE_EOF !in tab' by { CutDomain(tab, path, node, h, k, m); }
  }

  lemma CutDomain(tab: Tab, path: map<nat, seq<nat>>, node: Link, h: nat, k: nat, m: nat)
    requires Nodes(tab, path, node) && h in path && 0 < k <= |path[h]|
    ensures CutTab(tab, path[h], k, m).Keys <= tab.Keys
  {
    NodesCover(tab, path, node, h);
  }

  lemma CutNodes(tab: Tab, path: map<nat, seq<nat>>, node: Link, h: nat, k: nat, m: nat)
    requires Nodes(tab, path, node) && h in path && 0 < k <= |path[h]| && IsPath(tab, h, path[h])
    ensures Nodes(CutTab(tab, path[h], k, m), path[h := path[h][..k]], node - Elems(path[h][k..]))
  {
    hide IsPath;
    var p := path[h];
    var path', node' := path[h := p[..k]], node - Elems(p[k..]);
    assert p == p[..k] + p[k..];
    forall a | a in node' ensures node'[a] in path' && a in path'[node'[a]] {
      assert a in path[node[a]];
    }
    forall x, a | x in path' && a in path'[x] ensures a in node' && node'[a] == x {
      assert x == h ==> a in p[..k];
      assert a in path[x] && node[a] == x;
      assert a in p[k..] ==> a in path[h] && node[a] == h;
      CutApart(tab, h, p, k, a);
    }
    CutDomain(tab, path, node, h, k, m);
    CutApart(tab, h, p, k, p[k - 1]);
  }

  lemma CutApart(tab: Tab, h: nat, p: seq<nat>, k: nat, a: nat)
    requires IsPath(tab, h, p) && 0 < k <= |p|
    ensures a in p[..k] ==> a !in p[k..]
    ensures p[k - 1] in p[..k] && p[k - 1] in tab
  {
    assert p[..k][k - 1] == p[k - 1];
  }

  lemma CutCover(tab: Tab, owner: Link, h: nat, p: seq<nat>, k: nat, m: nat)
    requires Cover(tab, owner) && IsPath(tab, h, p) && 0 < k <= |p| && m <= tab[p[k - 1]].size
    ensures Cover(CutTab(tab, p, k, m), owner - CutBlocks(tab, owner, p, k, m))
  {
    hide IsPath;
    CutApart(tab, h, p, k, p[k - 1]);
    var tab', gone := CutTab(tab, p, k, m), CutBlocks(tab, owner, p, k, m);
    var owner' := owner - gone;
    forall a, x | a in tab' && InExt(tab'[a], x) ensures x in owner' && owner'[x] == a {
      assert InExt(tab[a], x);
    }
    forall x | x in owner' ensures owner'[x] in tab' && InExt(tab'[owner'[x]], x) {
      assert InExt(tab[owner[x]], x);
    }
  }

  /** All blocks released by cutting a file chain are data blocks in use. */
  lemma CutReleases(g: Geo, tab: Tab, dirs: Dirs, path: map<nat, seq<nat>>, node: Link, owner: Link, dh: set<nat>,
                    h: nat, k: nat, m: nat)
    requires Nodes(tab, path, node) && Cover(tab, owner) && Kinds(g, tab, dirs, node, dh)
    requires h in path && h !in dh && 0 < k <= |path[h]|
    ensures Releases(g, node, owner, h, CutBlocks(tab, owner, path[h], k, m))
            && AllData(g, CutBlocks(tab, owner, path[h], k, m))
  {
    var p := path[h];
    forall x | x in CutBlocks(tab, owner, p, k, m)
      ensures x in owner && owner[x] in node && node[owner[x]] == h && InData(g, x)
    {
      assert owner[x] in p by { if owner[x] in p[k..] { assert p == p[..k] + p[k..]; } }
      assert InExt(tab[owner[x]], x);
    }
  }

  /** `gone` are blocks of the chain headed by `h`. */
  ghost predicate Releases(g: Geo, node: Link, owner: Link, h: nat, gone: set<nat>) {
    forall x :: x in gone ==> x in owner && owner[x] in node && node[owner[x]] == h
  }

  lemma ReleaseArea(g: Geo, f: Flat, node: Link, owner: Link, sys: set<nat>, tab': Tab, h: nat, gone: set<nat>)
    requires Area(g, f, owner, sys) && Releases(g, node, owner, h, gone) && AllData(g, gone)
    ensures Area(g, Flat(tab', f.dirs, f.free + gone, f.resFree), owner - gone, sys)
  {
  }

  lemma CutKinds(g: Geo, tab: Tab, dirs: Dirs, node: Link, dh: set<nat>, h: nat, p: seq<nat>, k: nat, m: nat)
    requires Kinds(g, tab, dirs, node, dh) && 0 < k <= |p| && IsPath(tab, h, p) && m <= tab[p[k - 1]].size
    requires node[p[k - 1]] !in dh
    ensures Kinds(g, CutTab(tab, p, k, m), dirs, node - Elems(p[k..]), dh)
  {
    CutApart(tab, h, p, k, p[k - 1]);
    var tab', node' := CutTab(tab, p, k, m), node - Elems(p[k..]);
    forall a, x | a in tab' && node'[a] !in dh && InExt(tab'[a], x) ensures InData(g, x) {
      assert InExt(tab[a], x);
    }
  }

  lemma CutHeads(path: map<nat, seq<nat>>, ent: map<nat, Entry>, dh: set<nat>, fl: set<nat>, h: nat, p: seq<nat>)
    requires Heads(path, ent, dh, fl) && h in path
    ensures Heads(path[h := p], ent, dh, fl)
  {
  }

  lemma ReleaseParents(g: Geo, node: Link, owner: Link, home: Link, par: Link, dh: set<nat>, h: nat, gone: set<nat>,
                       drop: set<nat>)
    requires Parents(node, owner, home, par, dh) && Releases(g, node, owner, h, gone) && NoKids(par, h)
    requires forall a :: a in drop ==> a in node && node[a] == h
    ensures Parents(node - drop, owner - gone, home, par, dh)
  {
    forall c | c in home
      ensures home[c] in owner - gone && owner[home[c]] in node - drop && node[owner[home[c]]] == par[c] && par[c] in dh
    {
      assert par[c] != h;
    }
  }

  lemma CutBlockList(tab: Tab, h: nat, p: seq<nat>, k: nat, m: nat)
    requires IsPath(tab, h, p) && 0 < k <= |p| && m <= tab[p[k - 1]].size
    ensures Blocks(tab, p) == Blocks(CutTab(tab, p, k, m), p[..k]) + TailBlocks(tab, p, k, m)
  {
    hide Blocks, IsPath, CutTab, Expand;
    CutApart(tab, h, p, k, p[k - 1]);
    var tab' := CutTab(tab, p, k, m);
    var s := tab[p[k - 1]];
    var a, z := p[..k - 1], p[k..];
    assert p == a + ([p[k - 1]] + z) && p[..k] == a + [p[k - 1]];
    CutPrefixSame(tab, h, p, k, m);
    BlocksFrame(tab, tab', a);
    calc {
      Blocks(tab, p);
      { BlocksConcat(tab, a, [p[k - 1]] + z); BlocksConcat(tab, [p[k - 1]], z); BlocksOne(tab, p[k - 1]); }
      Blocks(tab, a) + (Expand(s) + Blocks(tab, z));
      { ExpandSplit(s, m); }
      Blocks(tab, a) + Expand(Slot(m, s.blk, ANODE_EOF)) + TailBlocks(tab, p, k, m);
      { BlocksConcat(tab', a, [p[k - 1]]); BlocksOne(tab', p[k - 1]); }
      Blocks(tab', p[..k]) + TailBlocks(tab, p, k, m);
    }
  }

  lemma ExpandSplit(s: Slot, m: nat)
    requires m <= s.size
    ensures Expand(s) == Expand(Slot(m, s.blk, ANODE_EOF)) + seq(s.size - m, i requires 0 <= i => s.blk + m + i)
  {
  }

  lemma BlocksOne(tab: Tab, a: nat)
    requires a in tab
    ensures Blocks(tab, [a]) == Expand(tab[a])
  {
    assert Blocks(tab, [a][1..]) == [];
  }

  lemma CutPrefixSame(tab: Tab, h: nat, p: seq<nat>, k: nat, m: nat)
    requires IsPath(tab, h, p) && 0 < k <= |p|
    ensures p[k - 1] in CutTab(tab, p, k, m) && CutTab(tab, p, k, m)[p[k - 1]] == Slot(m, tab[p[k - 1]].blk, ANODE_EOF)
    ensures forall i :: 0 <= i < k - 1 ==> p[i] in tab && p[i] in CutTab(tab, p, k, m)
                                           && CutTab(tab, p, k, m)[p[i]] == tab[p[i]]
  {
    forall i | 0 <= i < k - 1 ensures p[i] in tab && p[i] in CutTab(tab, p, k, m)
    && CutTab(tab, p, k, m)[p[i]] == tab[p[i]] {
      CutApart(tab, h, p, k, p[i]);
      assert p[..k][i] == p[i];
    }
  }

  /** The blocks a truncation drops, in order. */
  ghost function TailBlocks(tab: Tab, p: seq<nat>, k: nat, m: nat): seq<nat>
    requires 0 < k <= |p| && p[k - 1] in tab && m <= tab[p[k - 1]].size
  {
    var s := tab[p[k - 1]];
    seq(s.size - m, i requires 0 <= i => s.blk + m + i) + Blocks(tab, p[k..])
  }

  lemma CutContents(g: Geo, o: Own, sect: Sectors, h: nat, k: nat, m: nat)
    requires Chains(o.f.tab, o.w.path) && Nodes(o.f.tab, o.w.path, o.w.node)
             && Kinds(g, o.f.tab, o.f.dirs, o.w.node, o.w.dh)
    requires Heads(o.w.path, o.w.ent, o.w.dh, o.fl) && SectorsOk(g, sect)
    requires Contents(g, o.f.tab, o.w.path, o.w.ent, o.w.data, sect)
    requires h in o.w.path && h !in o.w.dh && 0 < k <= |o.w.path[h]|
    requires CutFits(g, o, h, k, m)
    ensures Contents(g, CutTab(o.f.tab, o.w.path[h], k, m), o.w.path[h := o.w.path[h][..k]], o.w.ent, o.w.data, sect)
  {
    hide Kinds, Nodes, SectorsOk, InDataAll, Content, CutTab, IsPath;
    var tab', path' := CutTab(o.f.tab, o.w.path[h], k, m), o.w.path[h := o.w.path[h][..k]];
    forall c | c in o.w.ent
      ensures c in path' && Content(g, tab', path'[c], o.w.ent[c], o.w.data[c], sect)
    {
      if c == h {
        CutContent(g, o.f.tab, h, o.w.path[h], k, m, o.w.ent[h], o.w.data[h], sect);
        FileBlocksInData(g, o.f.tab, o.f.dirs, o.w.path, o.w.node, o.w.dh, h);
      } else {
        NodesApart(o.f.tab, o.w.path, o.w.node, h, c);
        CutOther(o.f.tab, o.w.path[h], k, m, o.w.path[c], c);
        ContentSame(g, o.f.tab, tab', o.w.path[c], o.w.ent[c], o.w.data[c], sect);
      }
    }
  }

  lemma ContentSame(g: Geo, tab: Tab, tab': Tab, p: seq<nat>, e: Entry, d: Bytes, sect: Sectors)
    requires Content(g, tab, p, e, d, sect)
    requires forall i :: 0 <= i < |p| ==> p[i] in tab && p[i] in tab' && tab'[p[i]] == tab[p[i]]
    ensures Content(g, tab', p, e, d, sect)
  {
    BlocksFrame(tab, tab', p);
  }

  lemma CutContent(g: Geo, tab: Tab, h: nat, p: seq<nat>, k: nat, m: nat, e: Entry, d: Bytes, sect: Sectors)
    requires IsPath(tab, h, p) && 0 < k <= |p| && m <= tab[p[k - 1]].size && SectorsOk(g, sect)
    requires !IsDir(e) && Content(g, tab, p, e, d, sect)
    requires FileSize(e) <= g.bs * |Blocks(CutTab(tab, p, k, m), p[..k])|
    ensures InDataAll(g, Blocks(tab, p)) ==> Content(g, CutTab(tab, p, k, m), p[..k], e, d, sect)
  {
    hide IsPath, CutTab, Blocks, SectorsOk, ReadData, FileSize;
    CutApart(tab, h, p, k, p[k - 1]);
    var bl := Blocks(CutTab(tab, p, k, m), p[..k]);
    CutBlockList(tab, h, p, k, m);
    if InDataAll(g, Blocks(tab, p)) {
      assert InDataAll(g, bl) by {
        forall i | 0 <= i < |bl| ensures InData(g, bl[i]) { assert bl[i] == Blocks(tab, p)[i]; }
      }
      ReadPrefix(g, sect, bl, TailBlocks(tab, p, k, m), FileSize(e));
    }
  }

  /** The cut keeps at least as many blocks as the recorded size needs. */
  ghost predicate CutFits(g: Geo, o: Own, h: nat, k: nat, m: nat) {
    && h in o.w.path && 0 < k <= |o.w.path[h]|
    && o.w.path[h][k - 1] in o.f.tab && m <= o.f.tab[o.w.path[h][k - 1]].size
    && (h in o.w.ent ==> FileSize(o.w.ent[h]) <= g.bs * |Blocks(CutTab(o.f.tab, o.w.path[h], k, m), o.w.path[h][..k])|)
  }

  ghost function Cut(o: Own, h: nat, k: nat, m: nat): Own
    requires h in o.w.path && 0 < k <= |o.w.path[h]|
  {
    var p := o.w.path[h];
    var gone := CutBlocks(o.f.tab, o.w.owner, p, k, m);
    Own(Flat(CutTab(o.f.tab, p, k, m), o.f.dirs, o.f.free + gone, o.f.resFree),
        Wit(o.w.path[h := p[..k]], o.w.node - Elems(p[k..]), o.w.owner - gone,
            o.w.ent, o.w.home, o.w.par, o.w.dh, o.w.rank, o.w.data),
        o.fs, o.fl, o.sys)
  }

  lemma CutKeeps(g: Geo, o: Own, sect: Sectors, h: nat, k: nat, m: nat)
    requires Inv(g, o, sect) && h in o.w.path && h !in o.w.dh && 0 < k <= |o.w.path[h]| && CutFits(g, o, h, k, m)
    ensures Inv(g, Cut(o, h, k, m), sect)
  {
    hide Nodes, Cover, Area, Kinds, Entries, Heads, Parents, Names, SectorsOk, Contents, Ranked, NoKids, CutTab,
         CutBlocks, IsPath, AllData, Releases, Elems;
    var p := o.w.path[h];
    assert IsPath(o.f.tab, h, p);
    hide Chains;
    NodesCover(o.f.tab, o.w.path, o.w.node, h);
    CutChains(o.f.tab, o.w.path, o.w.node, h, k, m);
    CutNodes(o.f.tab, o.w.path, o.w.node, h, k, m);
    CutCover(o.f.tab, o.w.owner, h, p, k, m);
    CutReleases(g, o.f.tab, o.f.dirs, o.w.path, o.w.node, o.w.owner, o.w.dh, h, k, m);
    ReleaseArea(g, o.f, o.w.node, o.w.owner, o.sys, CutTab(o.f.tab, p, k, m), h,
                CutBlocks(o.f.tab, o.w.owner, p, k, m));
    CutKinds(g, o.f.tab, o.f.dirs, o.w.node, o.w.dh, h, p, k, m);
    CutHeads(o.w.path, o.w.ent, o.w.dh, o.fl, h, p[..k]);
    OrphanNoKids(o.w.node, o.w.owner, o.w.home, o.w.par, o.w.dh, h);
    SuffixNodes(o.f.tab, o.w.path, o.w.node, h, k);
    ReleaseParents(g, o.w.node, o.w.owner, o.w.home, o.w.par, o.w.dh, h, CutBlocks(o.f.tab, o.w.owner, p, k, m),
                   Elems(p[k..]));
    CutContents(g, o, sect, h, k, m);
  }

  lemma SuffixNodes(tab: Tab, path: map<nat, seq<nat>>, node: Link, h: nat, k: nat)
    requires Nodes(tab, path, node) && h in path && k <= |path[h]|
    ensures forall a :: a in Elems(path[h][k..]) ==> a in node && node[a] == h
  {
    forall a | a in Elems(path[h][k..]) ensures a in node && node[a] == h {
      assert a in path[h];
    }
  }

  // ---------------------------------------------------------------- dropping a whole chain

  ghost function OwnedBy(owner: Link, p: seq<nat>): set<nat> {
    set x | x in owner && owner[x] in p
  }

  lemma DropChains(tab: Tab, path: map<nat, seq<nat>>, node: Link, h: nat)
    requires Chains(tab, path) && Nodes(tab, path, node) && h in path
    ensures Chains(tab - Elems(path[h]), path - {h})
  {
    hide Nodes;
    forall x | x in path && x != h ensures IsPath(tab - Elems(path[h]), x, path[x]) {
      NodesApart(tab, path, node, h, x);
      DropOther(tab, path[h], x, path[x]);
    }
  }

  lemma DropOther(tab: Tab, p: seq<nat>, x: nat, q: seq<nat>)
    requires IsPath(tab, x, q)
    requires forall i, j :: 0 <= i < |p| && 0 <= j < |q| ==> p[i] != q[j]
    ensures IsPath(tab - Elems(p), x, q)
  {
    IsPathFrame(tab, tab - Elems(p), x, q);
  }

  lemma DropNodes(tab: Tab, path: map<nat, seq<nat>>, node: Link, h: nat)
    requires Nodes(tab, path, node) && h in path
    ensures Nodes(tab - Elems(path[h]), path - {h}, node - Elems(path[h]))
  {
    var path', node' := path - {h}, node - Elems(path[h]);
    forall a | a in node' ensures node'[a] in path' && a in path'[node'[a]] {
      assert a in path[node[a]];
    }
  }

  lemma DropCover(tab: Tab, owner: Link, p: seq<nat>)
    requires Cover(tab, owner)
    ensures Cover(tab - Elems(p), owner - OwnedBy(owner, p))
  {
  }

  lemma DropReleases(g: Geo, tab: Tab, path: map<nat, seq<nat>>, node: Link, owner: Link, h: nat)
    requires Nodes(tab, path, node) && h in path
    ensures Releases(g, node, owner, h, OwnedBy(owner, path[h]))
  {
  }

  lemma DropData(g: Geo, tab: Tab, dirs: Dirs, path: map<nat, seq<nat>>, node: Link, owner: Link, dh: set<nat>, h: nat)
    requires Nodes(tab, path, node) && Cover(tab, owner) && Kinds(g, tab, dirs, node, dh) && h in path && h !in dh
    ensures AllData(g, OwnedBy(owner, path[h]))
  {
    forall x | x in OwnedBy(owner, path[h]) ensures InData(g, x) {
      assert InExt(tab[owner[x]], x);
    }
  }

  lemma DropKinds(g: Geo, tab: Tab, dirs: Dirs, node: Link, dh: set<nat>, p: seq<nat>)
    requires Kinds(g, tab, dirs, node, dh)
    ensures Kinds(g, tab - Elems(p), dirs, node - Elems(p), dh)
  {
  }

  lemma DropHeads(path: map<nat, seq<nat>>, ent: map<nat, Entry>, dh: set<nat>, fl: set<nat>, h: nat)
    requires Heads(path, ent, dh, fl) && h in fl
    ensures Heads(path - {h}, ent, dh - {h}, fl - {h}) && h !in ent
  {
  }

  lemma DropSame(tab: Tab, path: map<nat, seq<nat>>, node: Link, ent: map<nat, Entry>, dh: set<nat>, fl: set<nat>,
                 h: nat)
    requires Nodes(tab, path, node) && Heads(path, ent, dh, fl) && h in fl && h in path
    ensures SameFiles(tab, tab - Elems(path[h]), path, path - {h}, ent)
  {
    forall c, a | c in ent && a in path[c] ensures a in tab && a in tab - Elems(path[h]) {
      assert c in path && node[a] == c && c != h;
    }
  }

  ghost function DropFile(o: Own, h: nat): Own
    requires h in o.w.path
  {
    var p := o.w.path[h];
    var gone := OwnedBy(o.w.owner, p);
    Own(Flat(o.f.tab - Elems(p), o.f.dirs, o.f.free + gone, o.f.resFree),
        Wit(o.w.path - {h}, o.w.node - Elems(p), o.w.owner - gone,
            o.w.ent, o.w.home, o.w.par, o.w.dh - {h}, o.w.rank, o.w.data),
        o.fs, o.fl - {h}, o.sys)
  }

  lemma DropFileKeeps(g: Geo, o: Own, sect: Sectors, h: nat)
    requires Inv(g, o, sect) && h in o.w.path && h in o.fl && h !in o.w.dh
    ensures Inv(g, DropFile(o, h), sect)
  {
    hide Chains, Nodes, Cover, Area, Kinds, Entries, Heads, Parents, Names, SectorsOk, Contents, Ranked, NoKids,
         AllData, Releases, Elems, SameFiles, OwnedBy;
    var p := o.w.path[h];
    var gone := OwnedBy(o.w.owner, p);
    DropChains(o.f.tab, o.w.path, o.w.node, h);
    DropNodes(o.f.tab, o.w.path, o.w.node, h);
    DropCover(o.f.tab, o.w.owner, p);
    DropReleases(g, o.f.tab, o.w.path, o.w.node, o.w.owner, h);
    DropData(g, o.f.tab, o.f.dirs, o.w.path, o.w.node, o.w.owner, o.w.dh, h);
    ReleaseArea(g, o.f, o.w.node, o.w.owner, o.sys, o.f.tab - Elems(p), h, gone);
    DropKinds(g, o.f.tab, o.f.dirs, o.w.node, o.w.dh, p);
    DropHeads(o.w.path, o.w.ent, o.w.dh, o.fl, h);
    OrphanNoKids(o.w.node, o.w.owner, o.w.home, o.w.par, o.w.dh, h);
    SuffixNodes(o.f.tab, o.w.path, o.w.node, h, 0);
    assert p[0..] == p;
    ReleaseParents(g, o.w.node, o.w.owner, o.w.home, o.w.par, o.w.dh, h, gone, Elems(p));
    assert o.w.dh - {h} == o.w.dh;
    DropSame(o.f.tab, o.w.path, o.w.node, o.w.ent, o.w.dh, o.fl, h);
    ContentsFrame(g, o.f.tab, o.f.tab - Elems(p), o.w.path, o.w.path - {h}, o.w.ent, o.w.data, sect);
  }

  /** Blocks of a directory chain are directory blocks. */
  lemma DropDirBlocks(g: Geo, f: Flat, path: map<nat, seq<nat>>, node: Link, owner: Link, dh: set<nat>, h: nat, b: nat)
    requires Nodes(f.tab, path, node) && Cover(f.tab, owner) && Kinds(g, f.tab, f.dirs, node, dh) && h in path
             && h in dh
    requires b in OwnedBy(owner, path[h])
    ensures b in f.dirs && b in owner && owner[b] in f.tab && f.tab[owner[b]].blk == b
  {
    assert InExt(f.tab[owner[b]], b);
  }

  lemma DropDirArea(g: Geo, f: Flat, path: map<nat, seq<nat>>, node: Link, owner: Link, dh: set<nat>, sys: set<nat>,
                    tab': Tab, h: nat)
    requires Nodes(f.tab, path, node) && Cover(f.tab, owner) && Kinds(g, f.tab, f.dirs, node, dh) && h in path
             && h in dh
    requires Area(g, f, owner, sys)
    ensures var gone := OwnedBy(owner, path[h]);
            Area(g, Flat(tab', f.dirs - gone, f.free, f.resFree + gone), owner - gone, sys)
  {
    hide Nodes, Cover, Kinds;
    var gone := OwnedBy(owner, path[h]);
    forall b | b in gone ensures b in f.dirs && b in owner && b < g.bmStart {
      DropDirBlocks(g, f, path, node, owner, dh, h, b);
    }
  }

  lemma DropDirKinds(g: Geo, tab: Tab, dirs: Dirs, path: map<nat, seq<nat>>, node: Link, owner: Link, dh: set<nat>,
                     h: nat)
    requires Nodes(tab, path, node) && Cover(tab, owner) && Kinds(g, tab, dirs, node, dh) && h in path
    ensures Kinds(g, tab - Elems(path[h]), dirs - OwnedBy(owner, path[h]), node - Elems(path[h]), dh - {h})
  {
    var tab', dirs', node' := tab - Elems(path[h]), dirs - OwnedBy(owner, path[h]), node - Elems(path[h]);
    forall a | a in tab' && node'[a] in dh - {h} ensures tab'[a].size == 1 && tab'[a].blk in dirs' {
      assert InExt(tab[a], tab[a].blk);
    }
    forall a, x | a in tab' && node'[a] !in dh - {h} && InExt(tab'[a], x) ensures InData(g, x) {
      assert a in path[node[a]];
    }
  }

  lemma DropDirEntries(g: Geo, dirs: Dirs, path: map<nat, seq<nat>>, node: Link, owner: Link, ent: map<nat, Entry>,
                       home: Link,
                       par: Link, dh: set<nat>, tab: Tab, h: nat)
    requires Entries(dirs, ent, home) && Parents(node, owner, home, par, dh) && NoKids(par, h) && Nodes(tab, path, node)
             && h in path
    ensures Entries(dirs - OwnedBy(owner, path[h]), ent, home)
  {
    forall c | c in ent ensures home[c] !in OwnedBy(owner, path[h]) {
      assert par[c] != h;
    }
  }

  lemma DropDirParents(g: Geo, node: Link, owner: Link, home: Link, par: Link, dh: set<nat>, h: nat)
    requires Parents(node, owner, home, par, dh) && NoKids(par, h)
    ensures Parents(node, owner, home, par, dh - {h})
  {
    forall c | c in home ensures par[c] in dh - {h} && par[c] in dh { assert par[c] != h; }
  }

  ghost function DropDir(o: Own, h: nat): Own
    requires h in o.w.path
  {
    var p := o.w.path[h];
    var gone := OwnedBy(o.w.owner, p);
    Own(Flat(o.f.tab - Elems(p), o.f.dirs - gone, o.f.free, o.f.resFree + gone),
        Wit(o.w.path - {h}, o.w.node - Elems(p), o.w.owner - gone,
            o.w.ent, o.w.home, o.w.par, o.w.dh - {h}, o.w.rank, o.w.data),
        o.fs, o.fl - {h}, o.sys)
  }

  lemma DropDirKeeps(g: Geo, o: Own, sect: Sectors, h: nat)
    requires Inv(g, o, sect) && h in o.w.path && h in o.fl && h in o.w.dh && NoKids(o.w.par, h)
    ensures Inv(g, DropDir(o, h), sect)
  {
    hide Chains, Nodes, Cover, Area, Kinds, Entries, Heads, Parents, Names, SectorsOk, Contents, Ranked, NoKids,
         Releases, Elems, SameFiles, OwnedBy;
    var p := o.w.path[h];
    var gone := OwnedBy(o.w.owner, p);
    DropChains(o.f.tab, o.w.path, o.w.node, h);
    DropNodes(o.f.tab, o.w.path, o.w.node, h);
    DropCover(o.f.tab, o.w.owner, p);
    DropReleases(g, o.f.tab, o.w.path, o.w.node, o.w.owner, h);
    DropDirArea(g, o.f, o.w.path, o.w.node, o.w.owner, o.w.dh, o.sys, o.f.tab - Elems(p), h);
    DropDirKinds(g, o.f.tab, o.f.dirs, o.w.path, o.w.node, o.w.owner, o.w.dh, h);
    DropDirEntries(g, o.f.dirs, o.w.path, o.w.node, o.w.owner, o.w.ent, o.w.home, o.w.par, o.w.dh, o.f.tab, h);
    DropHeads(o.w.path, o.w.ent, o.w.dh, o.fl, h);
    SuffixNodes(o.f.tab, o.w.path, o.w.node, h, 0);
    assert p[0..] == p;
    ReleaseParents(g, o.w.node, o.w.owner, o.w.home, o.w.par, o.w.dh, h, gone, Elems(p));
    DropDirParents(g, o.w.node - Elems(p), o.w.owner - gone, o.w.home, o.w.par, o.w.dh, h);
    DropSame(o.f.tab, o.w.path, o.w.node, o.w.ent, o.w.dh, o.fl, h);
    ContentsFrame(g, o.f.tab, o.f.tab - Elems(p), o.w.path, o.w.path - {h}, o.w.ent, o.w.data, sect);
    JoinRanked(o.w.ent, o.w.par, o.w.dh, o.w.rank, h);
  }

  // ---------------------------------------------------------------- directory entries

  /** Position of the entry naming `h` in a directory block. */
  ghost predicate At(dirs: Dirs, b: nat, i: nat, h: nat) {
    b in dirs && i < |dirs[b]| && dirs[b][i].anode == h
  }

  function Without(s: seq<Entry>, i: nat): seq<Entry>
    requires i < |s|
  {
    s[..i] + s[i + 1..]
  }

  lemma WithoutMember(s: seq<Entry>, i: nat)
    requires Distinct(s) && i < |s|
    ensures Distinct(Without(s, i))
    ensures forall e :: e in Without(s, i) <==> e in s && e.anode != s[i].anode
  {
    var r := Without(s, i);
    assert forall j :: 0 <= j < |r| ==> r[j] == s[if j < i then j else j + 1];
    forall e ensures e in r <==> e in s && e.anode != s[i].anode {
      if e in s && e.anode != s[i].anode {
        var j :| 0 <= j < |s| && s[j] == e;
        assert r[if j < i then j else j - 1] == e;
      }
    }
  }

  lemma PatchMember(s: seq<Entry>, i: nat, x: Entry)
    requires Distinct(s) && i < |s| && x.anode == s[i].anode
    ensures Distinct(s[i := x])
    ensures forall e :: e in s[i := x] <==> e == x || (e in s && e.anode != x.anode)
  {
    var r := s[i := x];
    assert r[i] == x;
    forall e ensures e in r <==> e == x || (e in s && e.anode != x.anode) {
      if e in s && e.anode != x.anode {
        var j :| 0 <= j < |s| && s[j] == e;
        assert r[j] == e;
      }
    }
  }

  lemma EnterEntries(dirs: Dirs, ent: map<nat, Entry>, home: Link, b: nat, e: Entry)
    requires Entries(dirs, ent, home) && b in dirs && e.anode !in ent
    ensures Entries(dirs[b := dirs[b] + [e]], ent[e.anode := e], home[e.anode := b])
  {
    forall i | 0 <= i < |dirs[b]| ensures dirs[b][i].anode != e.anode {
      assert dirs[b][i] in dirs[b];
    }
    assert Distinct(dirs[b]);
  }

  lemma LeaveEntries(dirs: Dirs, ent: map<nat, Entry>, home: Link, b: nat, i: nat, h: nat)
    requires Entries(dirs, ent, home) && At(dirs, b, i, h)
    ensures Entries(dirs[b := Without(dirs[b], i)], ent - {h}, home - {h}) && h in ent && home[h] == b
  {
    hide Distinct, Without;
    assert dirs[b][i] in dirs[b];
    WithoutMember(dirs[b], i);
  }

  lemma PatchEntries(dirs: Dirs, ent: map<nat, Entry>, home: Link, b: nat, i: nat, h: nat, e: Entry)
    requires Entries(dirs, ent, home) && At(dirs, b, i, h) && e.anode == h
    ensures Entries(dirs[b := dirs[b][i := e]], ent[h := e], home) && h in ent
  {
    hide Distinct;
    assert dirs[b][i] in dirs[b];
    PatchMember(dirs[b], i, e);
  }

  lemma EnterHeads(path: map<nat, seq<nat>>, ent: map<nat, Entry>, dh: set<nat>, fl: set<nat>, h: nat, e: Entry)
    requires Heads(path, ent, dh, fl) && h in fl && (h in dh <==> IsDir(e))
    ensures Heads(path, ent[h := e], dh, fl - {h}) && h !in ent
  {
  }

  lemma LeaveHeads(path: map<nat, seq<nat>>, ent: map<nat, Entry>, dh: set<nat>, fl: set<nat>, h: nat)
    requires Heads(path, ent, dh, fl) && h in ent
    ensures Heads(path, ent - {h}, dh, fl + {h})
  {
  }

  lemma PatchHeads(path: map<nat, seq<nat>>, ent: map<nat, Entry>, dh: set<nat>, fl: set<nat>, h: nat, e: Entry)
    requires Heads(path, ent, dh, fl) && h in ent && e.entryType == ent[h].entryType
    ensures Heads(path, ent[h := e], dh, fl)
  {
  }

  lemma EnterParents(node: Link, owner: Link, home: Link, par: Link, dh: set<nat>, h: nat, b: nat, d: nat)
    requires Parents(node, owner, home, par, dh) && b in owner && owner[b] in node && node[owner[b]] == d && d in dh
    ensures Parents(node, owner, home[h := b], par[h := d], dh)
  {
  }

  lemma LeaveParents(node: Link, owner: Link, home: Link, par: Link, dh: set<nat>, h: nat)
    requires Parents(node, owner, home, par, dh)
    ensures Parents(node, owner, home - {h}, par - {h}, dh)
  {
  }

  lemma EnterNames(fs: FS, par: Link, ent: map<nat, Entry>, data: map<nat, Bytes>, e: Entry, d: nat, dat: Bytes)
    requires Names(fs, par, ent, data) && e.anode !in ent && (d, Canon(e.name)) !in fs
    ensures Names(fs[(d, Canon(e.name)) := Describe(e, dat)], par[e.anode := d], ent[e.anode := e],
                  data[e.anode := dat])
  {
    hide Canon;
    var k := (d, Canon(e.name));
    var fs', par', ent', data' := fs[k := Describe(e, dat)], par[e.anode := d], ent[e.anode := e], data[e.anode := dat];
    forall h | h in ent' ensures Key(par', ent', h) in fs' && fs'[Key(par', ent', h)] == Describe(ent'[h], data'[h]) {
      if h != e.anode { assert Key(par', ent', h) == Key(par, ent, h); }
    }
  }

  lemma LeaveNames(fs: FS, par: Link, ent: map<nat, Entry>, data: map<nat, Bytes>, h: nat)
    requires Names(fs, par, ent, data) && h in ent
    ensures Names(fs - {Key(par, ent, h)}, par - {h}, ent - {h}, data - {h})
  {
    hide Canon;
    var k := Key(par, ent, h);
    var fs', par', ent', data' := fs - {k}, par - {h}, ent - {h}, data - {h};
    forall c | c in ent' ensures Key(par', ent', c) in fs' && fs'[Key(par', ent', c)] == Describe(ent'[c], data'[c]) {
      assert Key(par', ent', c) == Key(par, ent, c);
    }
    forall c | c in fs' ensures fs'[c].anode in ent' && Key(par', ent', fs'[c].anode) == c {
      assert Key(par, ent, fs[c].anode) == c;
    }
  }

  lemma PatchNames(fs: FS, par: Link, ent: map<nat, Entry>, data: map<nat, Bytes>, h: nat, e: Entry, dat: Bytes)
    requires Names(fs, par, ent, data) && h in ent && e.anode == h && e.name == ent[h].name
    ensures Names(fs[Key(par, ent, h) := Describe(e, dat)], par, ent[h := e], data[h := dat])
  {
    hide Canon;
    var k := Key(par, ent, h);
    var fs', ent', data' := fs[k := Describe(e, dat)], ent[h := e], data[h := dat];
    forall c | c in ent' ensures Key(par, ent', c) in fs' && fs'[Key(par, ent', c)] == Describe(ent'[c], data'[c]) {
      assert Key(par, ent', c) == Key(par, ent, c);
    }
  }

  lemma EnterContents(g: Geo, tab: Tab, path: map<nat, seq<nat>>, ent: map<nat, Entry>, data: map<nat, Bytes>,
                      sect: Sectors,
                      h: nat, e: Entry, dat: Bytes)
    requires Contents(g, tab, path, ent, data, sect) && h in path && Content(g, tab, path[h], e, dat, sect)
    ensures Contents(g, tab, path, ent[h := e], data[h := dat], sect)
  {
    hide Content;
  }

  lemma LeaveContents(g: Geo, tab: Tab, path: map<nat, seq<nat>>, ent: map<nat, Entry>, data: map<nat, Bytes>,
                      sect: Sectors, h: nat)
    requires Contents(g, tab, path, ent, data, sect)
    ensures Contents(g, tab, path, ent - {h}, data - {h}, sect)
  {
    hide Content;
  }

  lemma EnterRanked(ent: map<nat, Entry>, par: Link, dh: set<nat>, rank: Link, h: nat, e: Entry, d: nat)
    requires Ranked(ent, par, dh, rank) && d in dh && (h in dh ==> h in rank && d in rank && rank[d] < rank[h])
    ensures Ranked(ent[h := e], par[h := d], dh, rank)
  {
  }

  lemma LeaveRanked(ent: map<nat, Entry>, par: Link, dh: set<nat>, rank: Link, h: nat)
    requires Ranked(ent, par, dh, rank)
    ensures Ranked(ent - {h}, par - {h}, dh, rank)
  {
  }

  lemma PatchRanked(ent: map<nat, Entry>, par: Link, dh: set<nat>, rank: Link, h: nat, e: Entry)
    requires Ranked(ent, par, dh, rank) && h in ent
    ensures Ranked(ent[h := e], par, dh, rank)
  {
  }

  /** Directory block `b` belongs to the chain of directory `d`. */
  ghost predicate BlockOf(o: Own, b: nat, d: nat) {
    b in o.f.dirs && b in o.w.owner && o.w.owner[b] in o.w.node && o.w.node[o.w.owner[b]] == d && d in o.w.dh
  }

  lemma EnterArea(g: Geo, f: Flat, owner: Link, sys: set<nat>, b: nat, s: seq<Entry>)
    requires Area(g, f, owner, sys) && b in f.dirs
    ensures Area(g, Flat(f.tab, f.dirs[b := s], f.free, f.resFree), owner, sys)
  {
    assert f.dirs[b := s].Keys == f.dirs.Keys;
  }

  lemma EnterKinds(g: Geo, tab: Tab, dirs: Dirs, node: Link, dh: set<nat>, b: nat, s: seq<Entry>)
    requires Kinds(g, tab, dirs, node, dh)
    ensures Kinds(g, tab, dirs[b := s], node, dh)
  {
  }

  ghost function Enter(o: Own, b: nat, e: Entry, d: nat, dat: Bytes): Own
    requires b in o.f.dirs
  {
    var h := e.anode;
    Own(Flat(o.f.tab, o.f.dirs[b := o.f.dirs[b] + [e]], o.f.free, o.f.resFree),
        Wit(o.w.path, o.w.node, o.w.owner, o.w.ent[h := e], o.w.home[h := b], o.w.par[h := d], o.w.dh, o.w.rank,
            o.w.data[h := dat]),
        o.fs[(d, Canon(e.name)) := Describe(e, dat)], o.fl - {h}, o.sys)
  }

  /** The invariant except that directories may lie inside themselves. */
  ghost predicate Loose(g: Geo, o: Own, sect: Sectors) {
    && Chains(o.f.tab, o.w.path)
    && Nodes(o.f.tab, o.w.path, o.w.node)
    && Cover(o.f.tab, o.w.owner)
    && Area(g, o.f, o.w.owner, o.sys)
    && Kinds(g, o.f.tab, o.f.dirs, o.w.node, o.w.dh)
    && Entries(o.f.dirs, o.w.ent, o.w.home)
    && Heads(o.w.path, o.w.ent, o.w.dh, o.fl)
    && Parents(o.w.node, o.w.owner, o.w.home, o.w.par, o.w.dh)
    && Names(o.fs, o.w.par, o.w.ent, o.w.data)
    && SectorsOk(g, sect)
    && Contents(g, o.f.tab, o.w.path, o.w.ent, o.w.data, sect)
  }

  lemma InvIff(g: Geo, o: Own, sect: Sectors)
    ensures Inv(g, o, sect) <==> Loose(g, o, sect) && Ranked(o.w.ent, o.w.par, o.w.dh, o.w.rank)
  {
    hide Chains, Nodes, Cover, Area, Kinds, Entries, Heads, Parents, Names, SectorsOk, Contents, Ranked;
  }

  /** Naming a floating head, possibly inside itself. */
  lemma EnterLoose(g: Geo, o: Own, sect: Sectors, b: nat, e: Entry, d: nat, dat: Bytes)
    requires Loose(g, o, sect) && BlockOf(o, b, d) && e.anode in o.fl && e.anode in o.w.path
    requires (e.anode in o.w.dh <==> IsDir(e)) && (d, Canon(e.name)) !in o.fs
    requires Content(g, o.f.tab, o.w.path[e.anode], e, dat, sect)
    ensures Loose(g, Enter(o, b, e, d, dat), sect)
  {
    hide Chains, Nodes, Cover, Area, Kinds, Entries, Heads, Parents, Names, SectorsOk, Contents, Content, IsDir, Canon,
         Describe;
    EnterHeads(o.w.path, o.w.ent, o.w.dh, o.fl, e.anode, e);
    EnterEntries(o.f.dirs, o.w.ent, o.w.home, b, e);
    EnterArea(g, o.f, o.w.owner, o.sys, b, o.f.dirs[b] + [e]);
    EnterKinds(g, o.f.tab, o.f.dirs, o.w.node, o.w.dh, b, o.f.dirs[b] + [e]);
    EnterParents(o.w.node, o.w.owner, o.w.home, o.w.par, o.w.dh, e.anode, b, d);
    EnterNames(o.fs, o.w.par, o.w.ent, o.w.data, e, d, dat);
    EnterContents(g, o.f.tab, o.w.path, o.w.ent, o.w.data, sect, e.anode, e, dat);
  }

  lemma EnterKeeps(g: Geo, o: Own, sect: Sectors, b: nat, e: Entry, d: nat, dat: Bytes)
    requires Inv(g, o, sect) && BlockOf(o, b, d) && e.anode in o.fl && e.anode in o.w.path
    requires (e.anode in o.w.dh <==> IsDir(e)) && (d, Canon(e.name)) !in o.fs
    requires Content(g, o.f.tab, o.w.path[e.anode], e, dat, sect)
    requires e.anode in o.w.dh ==> e.anode in o.w.rank && d in o.w.rank && o.w.rank[d] < o.w.rank[e.anode]
    ensures Inv(g, Enter(o, b, e, d, dat), sect)
  {
    hide Inv, Loose, Content, Ranked, IsDir, Canon, Describe;
    InvIff(g, o, sect);
    EnterLoose(g, o, sect, b, e, d, dat);
    EnterRanked(o.w.ent, o.w.par, o.w.dh, o.w.rank, e.anode, e, d);
    InvIff(g, Enter(o, b, e, d, dat), sect);
  }

  ghost function Leave(o: Own, b: nat, i: nat, h: nat): Own
    requires At(o.f.dirs, b, i, h) && h in o.w.par && h in o.w.ent
  {
    Own(Flat(o.f.tab, o.f.dirs[b := Without(o.f.dirs[b], i)], o.f.free, o.f.resFree),
        Wit(o.w.path, o.w.node, o.w.owner, o.w.ent - {h}, o.w.home - {h}, o.w.par - {h}, o.w.dh, o.w.rank,
            o.w.data - {h}),
        o.fs - {Key(o.w.par, o.w.ent, h)}, o.fl + {h}, o.sys)
  }

  lemma LeaveKeeps(g: Geo, o: Own, sect: Sectors, b: nat, i: nat, h: nat)
    requires Inv(g, o, sect) && At(o.f.dirs, b, i, h) && h in o.w.par && h in o.w.ent
    ensures Inv(g, Leave(o, b, i, h), sect)
  {
    hide Chains, Nodes, Cover, Area, Kinds, Entries, Heads, Parents, Names, SectorsOk, Contents, Ranked, Key, Without;
    LeaveHeads(o.w.path, o.w.ent, o.w.dh, o.fl, h);
    LeaveEntries(o.f.dirs, o.w.ent, o.w.home, b, i, h);
    EnterArea(g, o.f, o.w.owner, o.sys, b, Without(o.f.dirs[b], i));
    EnterKinds(g, o.f.tab, o.f.dirs, o.w.node, o.w.dh, b, Without(o.f.dirs[b], i));
    LeaveParents(o.w.node, o.w.owner, o.w.home, o.w.par, o.w.dh, h);
    LeaveNames(o.fs, o.w.par, o.w.ent, o.w.data, h);
    LeaveContents(g, o.f.tab, o.w.path, o.w.ent, o.w.data, sect, h);
    LeaveRanked(o.w.ent, o.w.par, o.w.dh, o.w.rank, h);
  }

  ghost function Patch(o: Own, b: nat, i: nat, e: Entry, dat: Bytes): Own
    requires At(o.f.dirs, b, i, e.anode) && e.anode in o.w.par && e.anode in o.w.ent
  {
    var h := e.anode;
    Own(Flat(o.f.tab, o.f.dirs[b := o.f.dirs[b][i := e]], o.f.free, o.f.resFree),
        Wit(o.w.path, o.w.node, o.w.owner, o.w.ent[h := e], o.w.home, o.w.par, o.w.dh, o.w.rank, o.w.data[h := dat]),
        o.fs[Key(o.w.par, o.w.ent, h) := Describe(e, dat)], o.fl, o.sys)
  }

  lemma PatchKeeps(g: Geo, o: Own, sect: Sectors, b: nat, i: nat, e: Entry, dat: Bytes)
    requires Inv(g, o, sect) && At(o.f.dirs, b, i, e.anode) && e.anode in o.w.par && e.anode in o.w.ent
             && e.anode in o.w.path
    requires e.name == o.w.ent[e.anode].name && e.entryType == o.w.ent[e.anode].entryType
    requires Content(g, o.f.tab, o.w.path[e.anode], e, dat, sect)
    ensures Inv(g, Patch(o, b, i, e, dat), sect)
  {
    hide Chains, Nodes, Cover, Area, Kinds, Entries, Heads, Parents, Names, SectorsOk, Contents, Content, Ranked, Key,
         Describe;
    var h := e.anode;
    PatchHeads(o.w.path, o.w.ent, o.w.dh, o.fl, h, e);
    PatchEntries(o.f.dirs, o.w.ent, o.w.home, b, i, h, e);
    EnterArea(g, o.f, o.w.owner, o.sys, b, o.f.dirs[b][i := e]);
    EnterKinds(g, o.f.tab, o.f.dirs, o.w.node, o.w.dh, b, o.f.dirs[b][i := e]);
    PatchNames(o.fs, o.w.par, o.w.ent, o.w.data, h, e, dat);
    EnterContents(g, o.f.tab, o.w.path, o.w.ent, o.w.data, sect, h, e, dat);
    PatchRanked(o.w.ent, o.w.par, o.w.dh, o.w.rank, h, e);
  }

  // ---------------------------------------------------------------- sector contents

  /** Sectors changed only in `xs`. */
  ghost predicate ChangedIn(g: Geo, s: Sectors, s': Sectors, xs: set<nat>) {
    forall x :: InData(g, x) && x !in xs ==> x in s && x in s' && s'[x] == s[x]
  }

  /** Every owned block of `xs` lies on the chain of `h`. */
  ghost predicate Within(node: Link, owner: Link, xs: set<nat>, h: nat) {
    forall x :: x in xs && x in owner ==> owner[x] in node && node[owner[x]] == h
  }

  lemma OtherBlocks(tab: Tab, path: map<nat, seq<nat>>, node: Link, owner: Link, xs: set<nat>, h: nat, c: nat)
    requires Nodes(tab, path, node) && Cover(tab, owner) && Within(node, owner, xs, h) && c in path && c != h
    ensures forall i :: 0 <= i < |Blocks(tab, path[c])| ==> Blocks(tab, path[c])[i] !in xs
  {
    NodesCover(tab, path, node, c);
    forall i | 0 <= i < |Blocks(tab, path[c])| ensures Blocks(tab, path[c])[i] !in xs {
      BlocksMember(tab, path[c], Blocks(tab, path[c])[i]);
    }
  }

  lemma ContentSectors(g: Geo, tab: Tab, p: seq<nat>, e: Entry, d: Bytes, sect: Sectors, sect': Sectors, xs: set<nat>)
    requires Content(g, tab, p, e, d, sect) && ChangedIn(g, sect, sect', xs)
    requires !IsDir(e) ==> InDataAll(g, Blocks(tab, p))
                           && forall i :: 0 <= i < |Blocks(tab, p)| ==> Blocks(tab, p)[i] !in xs
    ensures Content(g, tab, p, e, d, sect')
  {
    if !IsDir(e) { ConcatFrame(sect, sect', Blocks(tab, p)); }
  }

  lemma RewriteContents(g: Geo, o: Own, sect: Sectors, sect': Sectors, xs: set<nat>, h: nat)
    requires Nodes(o.f.tab, o.w.path, o.w.node) && Cover(o.f.tab, o.w.owner)
             && Kinds(g, o.f.tab, o.f.dirs, o.w.node, o.w.dh)
    requires Heads(o.w.path, o.w.ent, o.w.dh, o.fl) && Contents(g, o.f.tab, o.w.path, o.w.ent, o.w.data, sect)
    requires ChangedIn(g, sect, sect', xs) && Within(o.w.node, o.w.owner, xs, h)
    requires h in o.w.ent && h in o.w.path ==> Content(g, o.f.tab, o.w.path[h], o.w.ent[h], o.w.data[h], sect')
    ensures Contents(g, o.f.tab, o.w.path, o.w.ent, o.w.data, sect')
  {
    hide Kinds, Nodes, Cover, InDataAll, Content, ChangedIn, Within, Blocks;
    forall c | c in o.w.ent ensures c in o.w.path && Content(g, o.f.tab, o.w.path[c], o.w.ent[c], o.w.data[c], sect') {
      if c != h {
        OtherBlocks(o.f.tab, o.w.path, o.w.node, o.w.owner, xs, h, c);
        if !IsDir(o.w.ent[c]) { FileBlocksInData(g, o.f.tab, o.f.dirs, o.w.path, o.w.node, o.w.dh, c); }
        ContentSectors(g, o.f.tab, o.w.path[c], o.w.ent[c], o.w.data[c], sect, sect', xs);
      }
    }
  }

  /** Writing to free blocks changes nothing any file or directory shows. */
  lemma WriteFreeKeeps(g: Geo, o: Own, sect: Sectors, sect': Sectors, xs: set<nat>)
    requires Inv(g, o, sect) && ChangedIn(g, sect, sect', xs) && xs <= o.f.free && SectorsOk(g, sect')
    ensures Inv(g, o, sect')
  {
    hide Chains, Nodes, Cover, Area, Kinds, Entries, Heads, Parents, Names, SectorsOk, Contents, Content, Ranked,
         Within, ChangedIn;
    FreeWithin(g, o.f, o.w.node, o.w.owner, o.sys, xs);
    RootIsDir(g, o, sect, sect');
    RewriteContents(g, o, sect, sect', xs, ANODE_ROOTDIR);
  }

  lemma FreeWithin(g: Geo, f: Flat, node: Link, owner: Link, sys: set<nat>, xs: set<nat>)
    requires Area(g, f, owner, sys) && xs <= f.free
    ensures Within(node, owner, xs, ANODE_ROOTDIR)
  {
  }

  lemma RootIsDir(g: Geo, o: Own, sect: Sectors, sect': Sectors)
    requires Heads(o.w.path, o.w.ent, o.w.dh, o.fl)
    ensures ANODE_ROOTDIR !in o.w.ent
  {
  }

  /** Writing to a file's own blocks (or free ones) changes that file's contents only. */
  ghost function Rewrite(o: Own, h: nat, dat: Bytes): Own
    requires h in o.w.par && h in o.w.ent
  {
    Own(o.f, Wit(o.w.path, o.w.node, o.w.owner, o.w.ent, o.w.home, o.w.par, o.w.dh, o.w.rank, o.w.data[h := dat]),
        o.fs[Key(o.w.par, o.w.ent, h) := Describe(o.w.ent[h], dat)], o.fl, o.sys)
  }

  lemma RewriteKeeps(g: Geo, o: Own, sect: Sectors, sect': Sectors, xs: set<nat>, h: nat, dat: Bytes)
    requires Inv(g, o, sect) && ChangedIn(g, sect, sect', xs) && Within(o.w.node, o.w.owner, xs, h)
             && SectorsOk(g, sect')
    requires h in o.w.par && h in o.w.ent && h in o.w.path && Content(g, o.f.tab, o.w.path[h], o.w.ent[h], dat, sect')
    ensures Inv(g, Rewrite(o, h, dat), sect')
  {
    hide Chains, Nodes, Cover, Area, Kinds, Entries, Heads, Parents, Names, SectorsOk, Contents, Content, Ranked,
         Within, ChangedIn, Key, Describe;
    var o' := Rewrite(o, h, dat);
    assert o.w.ent[h := o.w.ent[h]] == o.w.ent;
    NamedAnode(o.fs, o.w.par, o.w.ent, o.w.data, h);
    PatchNames(o.fs, o.w.par, o.w.ent, o.w.data, h, o.w.ent[h], dat);
    RewriteOthers(g, o, sect, sect', xs, h, dat);
  }

  lemma NamedAnode(fs: FS, par: Link, ent: map<nat, Entry>, data: map<nat, Bytes>, h: nat)
    requires Names(fs, par, ent, data) && h in ent
    ensures ent[h].anode == h
  {
  }

  lemma RewriteOthers(g: Geo, o: Own, sect: Sectors, sect': Sectors, xs: set<nat>, h: nat, dat: Bytes)
    requires Nodes(o.f.tab, o.w.path, o.w.node) && Cover(o.f.tab, o.w.owner)
             && Kinds(g, o.f.tab, o.f.dirs, o.w.node, o.w.dh)
    requires Heads(o.w.path, o.w.ent, o.w.dh, o.fl) && Contents(g, o.f.tab, o.w.path, o.w.ent, o.w.data, sect)
    requires ChangedIn(g, sect, sect', xs) && Within(o.w.node, o.w.owner, xs, h)
    requires h in o.w.ent && h in o.w.path && Content(g, o.f.tab, o.w.path[h], o.w.ent[h], dat, sect')
    ensures Contents(g, o.f.tab, o.w.path, o.w.ent, o.w.data[h := dat], sect')
  {
    hide Kinds, Nodes, Cover, InDataAll, Content, ChangedIn, Within, Blocks;
    forall c | c in o.w.ent ensures c in o.w.path
    && Content(g, o.f.tab, o.w.path[c], o.w.ent[c], o.w.data[h := dat][c], sect') {
      if c != h {
        OtherBlocks(o.f.tab, o.w.path, o.w.node, o.w.owner, xs, h, c);
        if !IsDir(o.w.ent[c]) { FileBlocksInData(g, o.f.tab, o.f.dirs, o.w.path, o.w.node, o.w.dh, c); }
        ContentSectors(g, o.f.tab, o.w.path[c], o.w.ent[c], o.w.data[c], sect, sect', xs);
      }
    }
  }

  // ---------------------------------------------------------------- system blocks and ranks

  ghost function TakeSys(o: Own, bs: set<nat>): Own {
    Own(Flat(o.f.tab, o.f.dirs, o.f.free, o.f.resFree - bs), o.w, o.fs, o.fl, o.sys + bs)
  }

  lemma TakeSysArea(g: Geo, f: Flat, owner: Link, sys: set<nat>, bs: set<nat>)
    requires Area(g, f, owner, sys) && bs <= f.resFree
    ensures Area(g, Flat(f.tab, f.dirs, f.free, f.resFree - bs), owner, sys + bs)
  {
  }

  lemma TakeSysKeeps(g: Geo, o: Own, sect: Sectors, bs: set<nat>)
    requires Inv(g, o, sect) && bs <= o.f.resFree
    ensures Inv(g, TakeSys(o, bs), sect)
  {
    hide Chains, Nodes, Cover, Area, Kinds, Entries, Heads, Parents, Names, SectorsOk, Contents, Ranked;
    TakeSysArea(g, o.f, o.w.owner, o.sys, bs);
  }

  /** Directory `x` is `h` or lies below it. */
  ghost predicate Under(ent: map<nat, Entry>, par: Link, dh: set<nat>, rank: Link, x: nat, h: nat)
    requires Ranked(ent, par, dh, rank)
    decreases if x in rank then rank[x] else 0
  {
    x == h || (x in ent && x in dh && par[x] in dh && Under(ent, par, dh, rank, par[x], h))
  }

  /** Lift the whole subtree of `h` above rank `r`. */
  ghost function Lift(ent: map<nat, Entry>, par: Link, dh: set<nat>, rank: Link, h: nat, r: nat): Link
    requires Ranked(ent, par, dh, rank)
  {
    map x | x in dh && x in rank :: if Under(ent, par, dh, rank, x, h) then rank[x] + r + 1 else rank[x]
  }

  lemma LiftRanked(node: Link, owner: Link, home: Link, ent: map<nat, Entry>, par: Link, dh: set<nat>, rank: Link,
                   h: nat, r: nat)
    requires Ranked(ent, par, dh, rank) && Parents(node, owner, home, par, dh) && h !in ent
    ensures Ranked(ent, par, dh, Lift(ent, par, dh, rank, h, r))
  {
    var rank' := Lift(ent, par, dh, rank, h, r);
    forall c | c in ent && c in dh ensures par[c] in rank' && rank'[par[c]] < rank'[c] {
      assert par[c] in dh;
      assert Under(ent, par, dh, rank, c, h) <==> Under(ent, par, dh, rank, par[c], h);
    }
  }

  ghost function Rerank(o: Own, rank: Link): Own {
    Own(o.f, Wit(o.w.path, o.w.node, o.w.owner, o.w.ent, o.w.home, o.w.par, o.w.dh, rank, o.w.data), o.fs, o.fl, o.sys)
  }

  lemma RerankKeeps(g: Geo, o: Own, sect: Sectors, rank: Link)
    requires Inv(g, o, sect) && Ranked(o.w.ent, o.w.par, o.w.dh, rank)
    ensures Inv(g, Rerank(o, rank), sect)
  {
    hide Chains, Nodes, Cover, Area, Kinds, Entries, Heads, Parents, Names, SectorsOk, Contents, Ranked;
  }
}
