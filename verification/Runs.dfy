/** Building an anode chain from a block list: grouping into runs, allocating anodes from
    the last run to the first, and exactly when the chain so built reads back. */
module Runs {
  import opened Types
  import opened Bitmap
  import opened Anodes
  import opened Ownership
  import opened Table

  datatype Run = Run(start: nat, count: nat)

  function RunBlocks(r: Run): seq<nat> {
    seq(r.count, i requires 0 <= i => r.start + i)
  }

  function AllBlocks(rs: seq<Run>): seq<nat> {
    if |rs| == 0 then [] else RunBlocks(rs[0]) + AllBlocks(rs[1..])
  }

  lemma {:induction false} AllBlocksSnoc(rs: seq<Run>, r: Run)
    ensures AllBlocks(rs + [r]) == AllBlocks(rs) + RunBlocks(r)
  {
    if |rs| == 0 {
      assert rs + [r] == [r] && AllBlocks([r][1..]) == [];
    } else {
      assert (rs + [r])[1..] == rs[1..] + [r];
      AllBlocksSnoc(rs[1..], r);
    }
  }

  /** Runs are non-empty and no two neighbours could be merged. */
  ghost predicate Maximal(rs: seq<Run>) {
    && (forall i :: 0 <= i < |rs| ==> rs[i].count > 0)
    && (forall i, j :: 0 <= i < j < |rs| && j == i + 1 ==> rs[i].start + rs[i].count != rs[j].start)
  }

  /** The grouping loop: maximal consecutive runs whose concatenation is the input. */
  method Group(blocks: seq<nat>) returns (rs: seq<Run>)
    ensures AllBlocks(rs) == blocks && Maximal(rs)
    ensures |blocks| > 0 ==> |rs| > 0
  {
    hide AllBlocks, Maximal, RunBlocks;
    rs := [];
    var i := 0;
    GroupStart(blocks);
    while i < |blocks|
      invariant i <= |blocks| && Grouped(blocks, i, rs)
      invariant |rs| > 0 && i < |blocks| ==> rs[|rs| - 1].start + rs[|rs| - 1].count != blocks[i]
    {
      var start, count := blocks[i], 1;
      OneBlockRun(blocks, i);
      while i + count < |blocks| && blocks[i + count] == start + count
        invariant 1 <= count <= |blocks| - i && blocks[i..i + count] == RunBlocks(Run(start, count))
      {
        LongerRun(blocks, i, start, count);
        count := count + 1;
      }
      GroupMore(blocks, i, rs, Run(start, count));
      rs := rs + [Run(start, count)];
      i := i + count;
    }
    assert blocks[..i] == blocks;
  }

  /** The first `i` blocks are grouped into maximal runs. */
  ghost predicate Grouped(blocks: seq<nat>, i: nat, rs: seq<Run>) {
    i <= |blocks| && AllBlocks(rs) == blocks[..i] && Maximal(rs) && (i > 0 ==> |rs| > 0)
  }

  lemma GroupStart(blocks: seq<nat>)
    ensures Grouped(blocks, 0, [])
  {
  }

  lemma OneBlockRun(blocks: seq<nat>, i: nat)
    requires i < |blocks|
    ensures blocks[i..i + 1] == RunBlocks(Run(blocks[i], 1))
  {
  }

  lemma LongerRun(blocks: seq<nat>, i: nat, start: nat, count: nat)
    requires i + count < |blocks| && blocks[i..i + count] == RunBlocks(Run(start, count))
             && blocks[i + count] == start + count
    ensures blocks[i..i + count + 1] == RunBlocks(Run(start, count + 1))
  {
    assert blocks[i..i + count + 1] == blocks[i..i + count] + [start + count];
  }

  lemma GroupMore(blocks: seq<nat>, i: nat, rs: seq<Run>, r: Run)
    requires Grouped(blocks, i, rs) && r.count > 0 && i + r.count <= |blocks| && blocks[i..i + r.count] == RunBlocks(r)
    requires |rs| > 0 ==> rs[|rs| - 1].start + rs[|rs| - 1].count != r.start
    ensures Grouped(blocks, i + r.count, rs + [r])
  {
    AllBlocksSnoc(rs, r);
    hide AllBlocks, RunBlocks;
    assert blocks[..i + r.count] == blocks[..i] + blocks[i..i + r.count];
  }

  /** Maximal runs are determined by their concatenation, so the number of anodes a block
      list needs is a property of the list. */
  lemma {:induction false} MaximalUnique(rs: seq<Run>, qs: seq<Run>)
    requires Maximal(rs) && Maximal(qs) && AllBlocks(rs) == AllBlocks(qs)
    ensures rs == qs
    decreases |rs|
  {
    SomeBlocks(rs);
    SomeBlocks(qs);
    if |rs| > 0 && |qs| > 0 {
      var bl := AllBlocks(rs);
      RunEnds(rs, rs[0].count);
      RunEnds(qs, qs[0].count);
      RunInside(rs, 0);
      RunInside(qs, 0);
      RunInside(rs, qs[0].count);
      RunInside(qs, rs[0].count);
      assert rs[0] == qs[0];
      assert AllBlocks(rs[1..]) == bl[rs[0].count..] == AllBlocks(qs[1..]);
      MaximalUnique(rs[1..], qs[1..]);
      assert rs == [rs[0]] + rs[1..] && qs == [qs[0]] + qs[1..];
    }
  }

  lemma SomeBlocks(rs: seq<Run>)
    requires Maximal(rs)
    ensures |rs| > 0 <==> |AllBlocks(rs)| > 0
    ensures |rs| > 0 ==> |AllBlocks(rs)| >= rs[0].count
  {
    if |rs| > 0 { assert |RunBlocks(rs[0])| == rs[0].count; }
  }

  lemma RunInside(rs: seq<Run>, n: nat)
    requires |rs| > 0
    ensures n < rs[0].count ==> n < |AllBlocks(rs)| && AllBlocks(rs)[n] == rs[0].start + n
  {
    assert n < rs[0].count ==> RunBlocks(rs[0])[n] == rs[0].start + n;
  }

  /** Right after a maximal run the list ends or jumps. */
  lemma RunEnds(rs: seq<Run>, n: nat)
    requires Maximal(rs) && |rs| > 0 && n == rs[0].count
    ensures |AllBlocks(rs)| > n ==> AllBlocks(rs)[n] != rs[0].start + n
  {
    if |rs| > 1 {
      assert AllBlocks(rs[1..])[0] == RunBlocks(rs[1])[0] == rs[1].start;
      assert AllBlocks(rs)[n] == AllBlocks(rs[1..])[0];
    } else {
      assert AllBlocks(rs[1..]) == [];
    }
  }

  // ---------------------------------------------------------------- allocating anodes

  /** One anode allocation. Slots are looked for in the anode blocks the committed index knows
      (`cap`); when none is vacant a new block is registered under the first sequence
      number the committed index lacks (`miss`). */
  ghost predicate AllocStep(g: Geo, cap: set<nat>, miss: nat, tab: Tab, x: Slot, nr: nat, tab': Tab)
    requires g.stride > 0
  {
    if cap - tab.Keys != {} then nr in cap && nr !in tab && tab' == tab[nr := x]
    else nr == Enc(g, miss, ANODE_USERFIRST) && tab' == GrowTab(g, tab, miss, x)
  }

  /** No block has been registered under `miss` yet. */
  ghost predicate Ungrown(g: Geo, miss: nat, tab: Tab)
    requires g.stride > 0
  {
    forall nr :: nr in tab ==> SeqOf(g, nr) != miss
  }

  /** Slots still available to this transaction. */
  ghost function Supply(g: Geo, cap: set<nat>, miss: nat, tab: Tab): nat
    requires g.stride > 0
  {
    |cap - tab.Keys| + if Ungrown(g, miss, tab) then 1 else 0
  }

  ghost predicate CapBelow(g: Geo, cap: set<nat>, miss: nat)
    requires g.stride > 0
  {
    forall nr :: nr in cap ==> SeqOf(g, nr) != miss
  }

  lemma GrowUngrown(g: Geo, miss: nat, tab: Tab, x: Slot)
    requires g.stride > ANODE_USERFIRST && Ungrown(g, miss, tab)
    ensures var nr := Enc(g, miss, ANODE_USERFIRST); nr !in tab && GrowTab(g, tab, miss, x) == tab[nr := x]
    ensures !Ungrown(g, miss, GrowTab(g, tab, miss, x))
  {
    hide SeqOf, Enc;
    EncInverse(g, miss, ANODE_USERFIRST);
    assert (map nr | nr in tab && SeqOf(g, nr) != miss :: tab[nr]) == tab;
    assert Enc(g, miss, ANODE_USERFIRST) in GrowTab(g, tab, miss, x);
  }

  lemma UngrownKeeps(g: Geo, cap: set<nat>, miss: nat, tab: Tab, x: Slot, nr: nat)
    requires g.stride > 0 && CapBelow(g, cap, miss) && nr in cap && nr !in tab
    ensures Ungrown(g, miss, tab[nr := x]) <==> Ungrown(g, miss, tab)
  {
    hide SeqOf;
    assert Ungrown(g, miss, tab[nr := x]) ==> forall k :: k in tab ==> k in tab[nr := x];
  }

  /** With supply left, an allocation adds one new anode and uses one unit of supply. */
  lemma AllocFresh(g: Geo, cap: set<nat>, miss: nat, tab: Tab, x: Slot, nr: nat, tab': Tab)
    requires g.stride > ANODE_USERFIRST && CapBelow(g, cap, miss) && AllocStep(g, cap, miss, tab, x, nr, tab')
    requires Supply(g, cap, miss, tab) > 0
    ensures nr !in tab && tab' == tab[nr := x] && Supply(g, cap, miss, tab') == Supply(g, cap, miss, tab) - 1
  {
    hide SeqOf, Enc, CapBelow, Ungrown, GrowTab;
    if cap - tab.Keys != {} {
      UngrownKeeps(g, cap, miss, tab, x, nr);
      OneUsed(cap, tab, x, nr);
    } else {
      GrowUngrown(g, miss, tab, x);
      NoneLeft(cap, tab, x, nr);
    }
  }

  lemma OneUsed(cap: set<nat>, tab: Tab, x: Slot, nr: nat)
    requires nr in cap && nr !in tab
    ensures |cap - tab[nr := x].Keys| == |cap - tab.Keys| - 1
  {
    assert cap - tab[nr := x].Keys == (cap - tab.Keys) - {nr};
  }

  lemma NoneLeft(cap: set<nat>, tab: Tab, x: Slot, nr: nat)
    requires cap - tab.Keys == {}
    ensures cap - tab[nr := x].Keys == {}
  {
  }

  function NextOf(p: seq<nat>, i: nat): nat {
    if i + 1 < |p| then p[i + 1] else ANODE_EOF
  }

  function RunSlot(r: Run, next: nat): Slot {
    Slot(r.count, r.start, next)
  }

  /** Allocating the runs from last to first, each anode pointing at the one before. */
  ghost predicate Built(g: Geo, cap: set<nat>, miss: nat, tab: Tab, rs: seq<Run>, p: seq<nat>, tab': Tab)
    requires g.stride > 0
    decreases |rs|
  {
    if |rs| == 0 then p == [] && tab' == tab
    else
      && |p| == |rs|
      && exists mid :: Built(g, cap, miss, tab, rs[1..], p[1..], mid) &&
                       AllocStep(g, cap, miss, mid, RunSlot(rs[0], NextOf(p, 0)), p[0], tab')
  }

  /** The chain as a table of its own. */
  function ChainTab(p: seq<nat>, rs: seq<Run>): Tab
    requires |p| == |rs|
  {
    if |p| == 0 then map[] else ChainTab(p[1..], rs[1..])[p[0] := RunSlot(rs[0], NextOf(p, 0))]
  }

  lemma {:induction false} ChainTabKeys(p: seq<nat>, rs: seq<Run>)
    requires |p| == |rs|
    ensures forall a :: a in ChainTab(p, rs) <==> a in p
  {
    if |p| > 0 {
      ChainTabKeys(p[1..], rs[1..]);
      assert p == [p[0]] + p[1..];
    }
  }

  ghost predicate NoDup(p: seq<nat>) {
    forall i, j :: 0 <= i < j < |p| ==> p[i] != p[j]
  }

  ghost predicate AllNew(p: seq<nat>, tab: Tab) {
    forall a :: a in p ==> a !in tab
  }

  /** Enough supply: the anodes are new, distinct, and everything else is untouched. */
  lemma {:induction false} BuiltFresh(g: Geo, cap: set<nat>, miss: nat, tab: Tab, rs: seq<Run>, p: seq<nat>, tab': Tab)
    requires g.stride > ANODE_USERFIRST && CapBelow(g, cap, miss) && Built(g, cap, miss, tab, rs, p, tab')
    requires |rs| <= Supply(g, cap, miss, tab)
    ensures |p| == |rs| && tab' == tab + ChainTab(p, rs) && AllNew(p, tab) && NoDup(p)
    ensures Supply(g, cap, miss, tab') == Supply(g, cap, miss, tab) - |rs|
    decreases |rs|
  {
    hide Supply, AllocStep, CapBelow, ChainTab, AllNew, NoDup, RunSlot, NextOf;
    if |rs| > 0 {
      var x := RunSlot(rs[0], NextOf(p, 0));
      var mid :| Built(g, cap, miss, tab, rs[1..], p[1..], mid) && AllocStep(g, cap, miss, mid, x, p[0], tab');
      BuiltFresh(g, cap, miss, tab, rs[1..], p[1..], mid);
      AllocFresh(g, cap, miss, mid, x, p[0], tab');
      ChainTabPush(tab, p, rs);
    } else {
      ChainTabEmpty(p, rs, tab);
    }
  }

  lemma ChainTabPush(tab: Tab, p: seq<nat>, rs: seq<Run>)
    requires |p| == |rs| > 0 && AllNew(p[1..], tab) && NoDup(p[1..]) && p[0] !in tab + ChainTab(p[1..], rs[1..])
    ensures AllNew(p, tab) && NoDup(p)
    ensures (tab + ChainTab(p[1..], rs[1..]))[p[0] := RunSlot(rs[0], NextOf(p, 0))] == tab + ChainTab(p, rs)
  {
    hide ChainTab, RunSlot, NextOf;
    ChainTabKeys(p[1..], rs[1..]);
    ChainTabCons(p, rs);
    MapPush(tab, ChainTab(p[1..], rs[1..]), p[0], RunSlot(rs[0], NextOf(p, 0)));
    ConsDistinct(p);
  }

  lemma MapPush(tab: Tab, more: Tab, k: nat, v: Slot)
    ensures (tab + more)[k := v] == tab + more[k := v]
  {
  }

  lemma ChainTabCons(p: seq<nat>, rs: seq<Run>)
    requires |p| == |rs| > 0
    ensures ChainTab(p, rs) == ChainTab(p[1..], rs[1..])[p[0] := RunSlot(rs[0], NextOf(p, 0))]
  {
  }

  lemma ChainTabEmpty(p: seq<nat>, rs: seq<Run>, tab: Tab)
    requires |p| == |rs| == 0
    ensures ChainTab(p, rs) == map[] && tab + ChainTab(p, rs) == tab && AllNew(p, tab) && NoDup(p)
  {
  }

  lemma ConsDistinct(p: seq<nat>)
    requires |p| > 0 && p[0] !in p[1..] && NoDup(p[1..])
    ensures NoDup(p)
    ensures forall a :: a in p <==> a == p[0] || a in p[1..]
  {
    var q := p[1..];
    assert p == [p[0]] + q;
    forall i, j | 0 <= i < j < |p| ensures p[i] != p[j] {
      assert p[j] == q[j - 1];
      if i > 0 { assert p[i] == q[i - 1]; }
    }
  }

  /** The chain table links `p` in order and its extents are the runs. */
  lemma {:induction false} ChainTabPath(p: seq<nat>, rs: seq<Run>)
    requires |p| == |rs| > 0 && NoDup(p)
    ensures IsPath(ChainTab(p, rs), p[0], p) && Blocks(ChainTab(p, rs), p) == AllBlocks(rs)
  {
    forall i | 0 <= i < |p|
      ensures p[i] in ChainTab(p, rs) && ChainTab(p, rs)[p[i]] == RunSlot(rs[i], NextOf(p, i))
    {
      ChainTabAt(p, rs, i);
    }
    ChainBlocks(ChainTab(p, rs), p, rs);
  }

  lemma {:induction false} ChainTabAt(p: seq<nat>, rs: seq<Run>, i: nat)
    requires |p| == |rs| && i < |p| && NoDup(p)
    ensures p[i] in ChainTab(p, rs) && ChainTab(p, rs)[p[i]] == RunSlot(rs[i], NextOf(p, i))
  {
    if i > 0 {
      ChainTabAt(p[1..], rs[1..], i - 1);
      assert p[i] == p[1..][i - 1] && rs[i] == rs[1..][i - 1];
    }
  }

  lemma {:induction false} ChainBlocks(tab: Tab, p: seq<nat>, rs: seq<Run>)
    requires |p| == |rs| && forall i :: 0 <= i < |p| ==> p[i] in tab && tab[p[i]].size == rs[i].count
                                                         && tab[p[i]].blk == rs[i].start
    ensures Blocks(tab, p) == AllBlocks(rs)
  {
    if |p| > 0 {
      assert Expand(tab[p[0]]) == RunBlocks(rs[0]);
      ChainBlocks(tab, p[1..], rs[1..]);
    }
  }

  // ---------------------------------------------------------------- when the chain reads back

  function TabRead(tab: Tab): nat -> Option<Slot> {
    n => if n in tab then Some(tab[n]) else None
  }

  lemma {:induction false} PathIsRun(tab: Tab, h: nat, p: seq<nat>)
    requires IsPath(tab, h, p) && ANODE_EOF !in tab
    ensures IsRun(TabRead(tab), h, p)
    decreases |p|
  {
    assert h == p[0] && p[0] in tab;
    if |p| > 1 {
      assert IsPath(tab, p[1], p[1..]) by {
        assert p[1..][|p| - 2] == p[|p| - 1];
      }
      PathIsRun(tab, p[1], p[1..]);
      assert tab[p[0]].next == p[1];
    } else {
      assert p[1..] == [];
    }
  }

  lemma AllocLeft(g: Geo, cap: set<nat>, miss: nat, tab: Tab, x: Slot, nr: nat, tab': Tab)
    requires g.stride > ANODE_USERFIRST && CapBelow(g, cap, miss) && AllocStep(g, cap, miss, tab, x, nr, tab')
    ensures |cap - tab'.Keys| == if cap - tab.Keys == {} then 0 else |cap - tab.Keys| - 1
    ensures nr in tab' && tab'[nr] == x
  {
    hide SeqOf, Enc;
    if cap - tab.Keys != {} {
      assert cap - tab'.Keys == (cap - tab.Keys) - {nr};
    } else {
      forall n | n in cap ensures n in tab' {
        assert n !in cap - tab.Keys;
        assert n in tab && SeqOf(g, n) != miss;
      }
      assert cap - tab'.Keys == {};
    }
  }

  /** Vacant committed slots are used up first, one per run. */
  lemma {:induction false} BuiltLeft(g: Geo, cap: set<nat>, miss: nat, tab: Tab, rs: seq<Run>, p: seq<nat>, tab': Tab)
    requires g.stride > ANODE_USERFIRST && CapBelow(g, cap, miss) && Built(g, cap, miss, tab, rs, p, tab')
    ensures |cap - tab'.Keys| == if |rs| <= |cap - tab.Keys| then |cap - tab.Keys| - |rs| else 0
    decreases |rs|
  {
    hide AllocStep, CapBelow;
    if |rs| > 0 {
      var x := RunSlot(rs[0], NextOf(p, 0));
      var mid :| Built(g, cap, miss, tab, rs[1..], p[1..], mid) && AllocStep(g, cap, miss, mid, x, p[0], tab');
      BuiltLeft(g, cap, miss, tab, rs[1..], p[1..], mid);
      AllocLeft(g, cap, miss, mid, x, p[0], tab');
    }
  }

  /** Two runs more than the vacant slots: both new blocks yield the same anode number, and
      the head of the chain points at itself. */
  lemma BuiltLoops(g: Geo, cap: set<nat>, miss: nat, tab: Tab, rs: seq<Run>, p: seq<nat>, tab': Tab)
    requires g.stride > ANODE_USERFIRST && CapBelow(g, cap, miss) && Built(g, cap, miss, tab, rs, p, tab')
    requires |rs| >= |cap - tab.Keys| + 2
    ensures |p| >= 2 && p[0] in tab' && tab'[p[0]].next == p[0] && p[0] == Enc(g, miss, ANODE_USERFIRST)
  {
    hide CapBelow, Enc;
    var x := RunSlot(rs[0], NextOf(p, 0));
    var mid :| Built(g, cap, miss, tab, rs[1..], p[1..], mid) && AllocStep(g, cap, miss, mid, x, p[0], tab');
    var q, ps := p[1..], rs[1..];
    var y := RunSlot(ps[0], NextOf(q, 0));
    var mid2 :| Built(g, cap, miss, tab, ps[1..], q[1..], mid2) && AllocStep(g, cap, miss, mid2, y, q[0], mid);
    BuiltLeft(g, cap, miss, tab, ps[1..], q[1..], mid2);
    BuiltLeft(g, cap, miss, tab, ps, q, mid);
    AllocLeft(g, cap, miss, mid, x, p[0], tab');
    assert p[1] == q[0];
  }

  /** Every anode of `tab` has the same record in `tab'`. */
  ghost predicate KeepsAnodes(tab: Tab, tab': Tab) {
    forall nr :: nr in tab ==> nr in tab' && tab'[nr] == tab[nr]
  }

  /** Whatever the number of runs, anodes from before the transaction keep their records. */
  lemma {:induction false} BuiltKeeps(g: Geo, cap: set<nat>, miss: nat, tab: Tab, rs: seq<Run>, p: seq<nat>, tab': Tab)
    requires g.stride > 0 && Built(g, cap, miss, tab, rs, p, tab') && Ungrown(g, miss, tab)
    requires SeqOf(g, Enc(g, miss, ANODE_USERFIRST)) == miss
    ensures KeepsAnodes(tab, tab')
    decreases |rs|
  {
    hide SeqOf, Enc;
    if |rs| > 0 {
      var x := RunSlot(rs[0], NextOf(p, 0));
      var mid :| Built(g, cap, miss, tab, rs[1..], p[1..], mid) && AllocStep(g, cap, miss, mid, x, p[0], tab');
      BuiltKeeps(g, cap, miss, tab, rs[1..], p[1..], mid);
    }
  }

  /** One run more than the vacant slots: the head is the first anode of a new block. */
  lemma BuiltTop(g: Geo, cap: set<nat>, miss: nat, tab: Tab, rs: seq<Run>, p: seq<nat>, tab': Tab)
    requires g.stride > ANODE_USERFIRST && CapBelow(g, cap, miss) && Built(g, cap, miss, tab, rs, p, tab')
    requires |rs| >= |cap - tab.Keys| + 1
    ensures |p| >= 1 && p[0] == Enc(g, miss, ANODE_USERFIRST)
  {
    hide CapBelow, Enc;
    var x := RunSlot(rs[0], NextOf(p, 0));
    var mid :| Built(g, cap, miss, tab, rs[1..], p[1..], mid) && AllocStep(g, cap, miss, mid, x, p[0], tab');
    BuiltLeft(g, cap, miss, tab, rs[1..], p[1..], mid);
  }

  lemma LoopNeverEnds(t: nat -> Option<Slot>, nr: nat, q: seq<nat>)
    requires t(nr).Some? && t(nr).value.next == nr && nr != ANODE_EOF
    ensures !IsRun(t, nr, q)
  {
    if IsRun(t, nr, q) { RunUnique(t, nr, q, q[1..]); }
  }

  /** Exactly when the chain just built reads back as the block list: the runs may outnumber the
      vacant slots of the committed anode blocks by at most one. */
  lemma ChainReadsBackIff(g: Geo, cap: set<nat>, miss: nat, tab: Tab, rs: seq<Run>, p: seq<nat>, tab': Tab)
    requires g.stride > ANODE_USERFIRST && CapBelow(g, cap, miss) && Ungrown(g, miss, tab)
    requires Built(g, cap, miss, tab, rs, p, tab') && |rs| > 0 && |p| > 0
    requires ANODE_EOF !in cap && ANODE_EOF !in tab
    ensures (exists q :: IsRun(TabRead(tab'), p[0], q) && Blocks(tab', q) == AllBlocks(rs))
       <==> |rs| <= |cap - tab.Keys| + 1
  {
    if |rs| <= |cap - tab.Keys| + 1 {
      BuiltFresh(g, cap, miss, tab, rs, p, tab');
      BuiltPositive(g, cap, miss, tab, rs, p, tab');
      ChainTabPath(p, rs);
      ChainTabKeys(p, rs);
      ChainInTab(tab, p, rs);
      PathIsRun(tab', p[0], p);
    } else {
      BuiltLoops(g, cap, miss, tab, rs, p, tab');
      BuiltPositive(g, cap, miss, tab, rs, p, tab');
      forall q ensures !IsRun(TabRead(tab'), p[0], q) { LoopNeverEnds(TabRead(tab'), p[0], q); }
    }
  }

  lemma ChainInTab(tab: Tab, p: seq<nat>, rs: seq<Run>)
    requires |p| == |rs| > 0 && IsPath(ChainTab(p, rs), p[0], p)
    ensures IsPath(tab + ChainTab(p, rs), p[0], p)
    ensures Blocks(tab + ChainTab(p, rs), p) == Blocks(ChainTab(p, rs), p)
  {
    hide ChainTab;
    BlocksFrame(ChainTab(p, rs), tab + ChainTab(p, rs), p);
  }

  lemma {:induction false} BuiltPositive(g: Geo, cap: set<nat>, miss: nat, tab: Tab, rs: seq<Run>, p: seq<nat>,
                                         tab': Tab)
    requires g.stride > ANODE_USERFIRST && Built(g, cap, miss, tab, rs, p, tab') && ANODE_EOF !in cap
             && ANODE_EOF !in tab
    ensures ANODE_EOF !in tab' && ANODE_EOF !in p
    decreases |rs|
  {
    if |rs| > 0 {
      var x := RunSlot(rs[0], NextOf(p, 0));
      var mid :| Built(g, cap, miss, tab, rs[1..], p[1..], mid) && AllocStep(g, cap, miss, mid, x, p[0], tab');
      BuiltPositive(g, cap, miss, tab, rs[1..], p[1..], mid);
      assert p == [p[0]] + p[1..];
    }
  }
}
