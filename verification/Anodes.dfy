/** Anode lookup: following chains with cycle detection, and the two- and three-level
    index from anode sequence numbers to anode blocks. */
module Anodes {
  import opened Types
  import opened Bitmap

  // ---------------------------------------------------------------- following a chain

  const MAX_CHAIN_LEN: nat := 1_000_000

  /** One element of a chain: the anode's number and its record. */
  datatype Anode = Anode(nr: nat, slot: Slot)

  /** Following `next` from `nr` visits exactly `p` and then reaches the end marker. */
  ghost predicate IsRun(t: nat -> Option<Slot>, nr: nat, p: seq<nat>)
    decreases |p|
  {
    if |p| == 0 then nr == ANODE_EOF
    else nr == p[0] && nr != ANODE_EOF && t(nr).Some? && IsRun(t, t(nr).value.next, p[1..])
  }

  lemma {:induction false} RunUnique(t: nat -> Option<Slot>, nr: nat, p: seq<nat>, q: seq<nat>)
    requires IsRun(t, nr, p) && IsRun(t, nr, q)
    ensures p == q
    decreases |p|
  {
    if |p| > 0 && |q| > 0 {
      RunUnique(t, t(nr).value.next, p[1..], q[1..]);
      assert p == [p[0]] + p[1..] && q == [q[0]] + q[1..];
    }
  }

  lemma {:induction false} RunSuffix(t: nat -> Option<Slot>, nr: nat, p: seq<nat>, i: nat)
    requires IsRun(t, nr, p) && i < |p|
    ensures IsRun(t, p[i], p[i..])
    decreases |p|
  {
    if i > 0 {
      RunSuffix(t, t(nr).value.next, p[1..], i - 1);
      assert p[1..][i - 1..] == p[i..];
    }
  }

  /** A walk that reaches the end never visits an anode twice. */
  lemma RunDistinct(t: nat -> Option<Slot>, nr: nat, p: seq<nat>, i: nat, j: nat)
    requires IsRun(t, nr, p) && i < j < |p|
    ensures p[i] != p[j]
  {
    RunSuffix(t, nr, p, i);
    RunSuffix(t, nr, p, j);
    if p[i] == p[j] { RunUnique(t, p[i], p[i..], p[j..]); }
  }

  /** `c` is a walk of existing anodes from `start` with `nr` next. */
  ghost predicate Walk(t: nat -> Option<Slot>, start: nat, c: seq<Anode>, nr: nat) {
    && (if |c| == 0 then start == nr else c[0].nr == start && c[|c| - 1].slot.next == nr)
    && (forall i :: 0 <= i < |c| ==> c[i].nr != ANODE_EOF && t(c[i].nr) == Some(c[i].slot))
    && (forall i, j :: 0 <= i < j < |c| && j == i + 1 ==> c[i].slot.next == c[j].nr)
  }

  function Nrs(c: seq<Anode>): (p: seq<nat>)
    ensures |p| == |c|
  {
    seq(|c|, i requires 0 <= i < |c| => c[i].nr)
  }

  lemma {:induction false} WalkIsPrefix(t: nat -> Option<Slot>, start: nat, c: seq<Anode>, nr: nat, p: seq<nat>)
    requires Walk(t, start, c, nr) && IsRun(t, start, p)
    ensures |c| <= |p| && Nrs(c) == p[..|c|] && IsRun(t, nr, p[|c|..])
    decreases |c|
  {
    if |c| == 0 {
      assert p[0..] == p;
    } else {
      var next := c[0].slot.next;
      WalkIsPrefix(t, next, c[1..], nr, p[1..]);
      assert p[1..][|c| - 1..] == p[|c|..];
      assert Nrs(c) == [c[0].nr] + Nrs(c[1..]);
    }
  }

  lemma {:induction false} WalkIsRun(t: nat -> Option<Slot>, start: nat, c: seq<Anode>)
    requires Walk(t, start, c, ANODE_EOF)
    ensures IsRun(t, start, Nrs(c))
    decreases |c|
  {
    if |c| > 0 {
      WalkIsRun(t, c[0].slot.next, c[1..]);
      assert Nrs(c)[1..] == Nrs(c[1..]);
    }
  }

  /** No run of acceptable length exists once a walk revisits an anode, misses one, or is too long. */
  lemma NoRun(t: nat -> Option<Slot>, start: nat, c: seq<Anode>, nr: nat, p: seq<nat>)
    requires Walk(t, start, c, nr) && nr != ANODE_EOF
    requires (exists i :: 0 <= i < |c| && c[i].nr == nr) || |c| >= MAX_CHAIN_LEN || t(nr).None?
    ensures !(IsRun(t, start, p) && |p| <= MAX_CHAIN_LEN)
  {
    if IsRun(t, start, p) {
      WalkIsPrefix(t, start, c, nr, p);
      if i :| 0 <= i < |c| && c[i].nr == nr {
        assert p[i] == Nrs(c)[i] && p[|c|..][0] == p[|c|];
        RunDistinct(t, start, p, i, |c|);
      }
    }
  }

  /** Succeeds exactly when following `next` from `start` reaches the end marker through
      existing anodes within the length limit, and then returns that whole path. */
  method GetChain(t: nat -> Option<Slot>, start: nat) returns (r: Result<seq<Anode>>)
    ensures r.Ok? <==> exists p :: IsRun(t, start, p) && |p| <= MAX_CHAIN_LEN
    ensures r.Ok? ==> IsRun(t, start, Nrs(r.value))
                      && forall i :: 0 <= i < |r.value| ==> t(r.value[i].nr) == Some(r.value[i].slot)
  {
    var chain: seq<Anode>, seen: set<nat>, nr := [], {}, start;
    while nr != ANODE_EOF
      invariant Walk(t, start, chain, nr) && |chain| <= MAX_CHAIN_LEN
      invariant forall a :: a in seen <==> exists i :: 0 <= i < |chain| && chain[i].nr == a
      decreases MAX_CHAIN_LEN - |chain|
    {
      if nr in seen {
        forall p ensures !(IsRun(t, start, p) && |p| <= MAX_CHAIN_LEN) { NoRun(t, start, chain, nr, p); }
        return Err(InvalidPartition);
      }
      seen := seen + {nr};
      if |chain| >= MAX_CHAIN_LEN {
        forall p ensures !(IsRun(t, start, p) && |p| <= MAX_CHAIN_LEN) { NoRun(t, start, chain, nr, p); }
        return Err(InvalidPartition);
      }
      match t(nr)
      case None =>
        forall p ensures !(IsRun(t, start, p) && |p| <= MAX_CHAIN_LEN) { NoRun(t, start, chain, nr, p); }
        return Err(AnodeNotFound);
      case Some(s) =>
        ghost var old_chain := chain;
        chain := chain + [Anode(nr, s)];
        assert forall i :: 0 <= i < |old_chain| ==> chain[i] == old_chain[i];
        assert chain[|old_chain|].nr == nr;
        nr := s.next;
    }
    WalkIsRun(t, start, chain);
    return Ok(chain);
  }

  // ---------------------------------------------------------------- anode numbers

  /** Anode number of slot `off` of anode block `seqnr`. */
  function Enc(g: Geo, seqnr: nat, off: nat): nat {
    seqnr * g.stride + off
  }

  function SeqOf(g: Geo, nr: nat): nat
    requires g.stride > 0
  {
    Quot(nr, g.stride)
  }

  function OffOf(g: Geo, nr: nat): (r: nat)
    requires g.stride > 0
    ensures r < g.stride
  {
    Rem(nr, g.stride)
  }

  /** The reader's split of an anode number inverts the writer's composition. */
  lemma EncInverse(g: Geo, s: nat, o: nat)
    requires o < g.stride
    ensures SeqOf(g, Enc(g, s, o)) == s && OffOf(g, Enc(g, s, o)) == o
  {
    DivModOf(s, g.stride, o);
  }

  lemma SplitInverse(g: Geo, nr: nat)
    requires g.stride > 0
    ensures Enc(g, SeqOf(g, nr), OffOf(g, nr)) == nr
  {
    DivMod(nr, g.stride);
  }

  // ---------------------------------------------------------------- the index

  /** Entry `off` of an index block; anything unreadable counts as absent. */
  function IndexEntry(store: map<nat, Block>, blk: nat, off: nat): nat {
    if blk in store && store[blk].IndexBlk? && off < |store[blk].entries| then store[blk].entries[off] else 0
  }

  function Top(tops: seq<nat>, i: nat): nat {
    if i < |tops| then tops[i] else 0
  }

  /** Two levels: root block, index block, anode block. */
  function ResolveSmall(ipb: nat, tops: seq<nat>, store: map<nat, Block>, s: nat): nat
    requires ipb > 0
  {
    var top := Top(tops, Quot(s, ipb));
    if top == 0 then 0 else IndexEntry(store, top, Rem(s, ipb))
  }

  /** Three levels: root extension, super block, index block, anode block. */
  function ResolveLarge(ipb: nat, tops: seq<nat>, store: map<nat, Block>, s: nat): nat
    requires ipb > 0 && ipb * ipb > 0
  {
    var top := Top(tops, Quot(s, ipb * ipb));
    var rest := Rem(s, ipb * ipb);
    if top == 0 then 0
    else
      var idx := IndexEntry(store, top, Quot(rest, ipb));
      if idx == 0 then 0 else IndexEntry(store, idx, Rem(rest, ipb))
  }

  ghost predicate IsIndex(store: map<nat, Block>, b: nat, ipb: nat) {
    b in store && store[b].IndexBlk? && |store[b].entries| == ipb
  }

  /** Top-level blocks are distinct, full index blocks. */
  ghost predicate TopsOk(ipb: nat, tops: seq<nat>, store: map<nat, Block>) {
    && (forall i :: 0 <= i < |tops| && tops[i] != 0 ==> IsIndex(store, tops[i], ipb))
    && (forall i, j :: 0 <= i < j < |tops| && tops[i] != 0 ==> tops[i] != tops[j])
  }

  function PutIndex(store: map<nat, Block>, b: nat, off: nat, v: nat): map<nat, Block>
    requires b in store && store[b].IndexBlk? && off < |store[b].entries|
  {
    store[b := IndexBlk(store[b].entries[off := v])]
  }

  lemma QuotRemUnique(s: nat, t: nat, m: nat)
    requires m > 0 && Quot(s, m) == Quot(t, m) && Rem(s, m) == Rem(t, m)
    ensures s == t
  {
    DivMod(s, m);
    DivMod(t, m);
  }

  /** Registering anode block `nb` under `s` makes `s` resolve to it and nothing else change. */
  lemma RegisterSmall(ipb: nat, tops: seq<nat>, store: map<nat, Block>, s: nat, nb: nat)
    requires ipb > 0 && TopsOk(ipb, tops, store) && Top(tops, Quot(s, ipb)) != 0
    ensures IsIndex(store, Top(tops, Quot(s, ipb)), ipb)
    ensures var store' := PutIndex(store, Top(tops, Quot(s, ipb)), Rem(s, ipb), nb);
            && ResolveSmall(ipb, tops, store', s) == nb && TopsOk(ipb, tops, store')
            && forall t :: t != s ==> ResolveSmall(ipb, tops, store', t) == ResolveSmall(ipb, tops, store, t)
  {
    hide Quot, Rem;
    var top := Top(tops, Quot(s, ipb));
    var store' := PutIndex(store, top, Rem(s, ipb), nb);
    forall t | t != s ensures ResolveSmall(ipb, tops, store', t) == ResolveSmall(ipb, tops, store, t) {
      if Quot(t, ipb) == Quot(s, ipb) && Rem(t, ipb) == Rem(s, ipb) { QuotRemUnique(t, s, ipb); }
    }
  }

  /** Index blocks below the super blocks are full, distinct, and not super blocks themselves. */
  ghost predicate Tree(ipb: nat, tops: seq<nat>, store: map<nat, Block>) {
    && TopsOk(ipb, tops, store)
    && (forall i, j :: 0 <= i < |tops| && tops[i] != 0 && 0 <= j < ipb && IndexEntry(store, tops[i], j) != 0 ==>
          IsIndex(store, IndexEntry(store, tops[i], j), ipb) && IndexEntry(store, tops[i], j) !in tops)
    && (forall i, j, k, l | 0 <= i < |tops| && tops[i] != 0 && 0 <= j < ipb && 0 <= k < |tops| && tops[k] != 0
        && 0 <= l < ipb ::
          IndexEntry(store, tops[i], j) == IndexEntry(store, tops[k], l) != 0 ==> i == k && j == l)
  }

  function Lookup2(tops: seq<nat>, store: map<nat, Block>, a: nat, i: nat, o: nat): nat {
    var top := Top(tops, a);
    if top == 0 then 0
    else
      var idx := IndexEntry(store, top, i);
      if idx == 0 then 0 else IndexEntry(store, idx, o)
  }

  /** The large-disk registration: create the index block when it is missing (in the free
      reserved block `spare`), otherwise update it. */
  function RegisterLarge(ipb: nat, tops: seq<nat>, store: map<nat, Block>, a: nat, i: nat, o: nat, nb: nat,
                         spare: nat): map<nat, Block>
    requires i < ipb && o < ipb
  {
    var top := Top(tops, a);
    if !(top in store && store[top].IndexBlk? && i < |store[top].entries| && top != spare) then store
    else
      var idx := store[top].entries[i];
      if idx == 0 then
        PutIndex(store[spare := IndexBlk(seq(ipb, _ => 0)[o := nb])], top, i, spare)
      else if idx in store && store[idx].IndexBlk? && o < |store[idx].entries| then PutIndex(store, idx, o, nb)
      else store
  }

  ghost predicate Spare(ipb: nat, tops: seq<nat>, store: map<nat, Block>, spare: nat) {
    && spare != 0 && spare !in tops
    && forall i, j :: 0 <= i < |tops| && tops[i] != 0 && 0 <= j < ipb ==> IndexEntry(store, tops[i], j) != spare
  }

  lemma RegisterLargeAt(ipb: nat, tops: seq<nat>, store: map<nat, Block>, a: nat, i: nat, o: nat, nb: nat, spare: nat,
                        b: nat, j: nat, p: nat)
    requires Tree(ipb, tops, store) && Spare(ipb, tops, store, spare) && Top(tops, a) != 0
    requires i < ipb && o < ipb && j < ipb && p < ipb
    ensures Lookup2(tops, RegisterLarge(ipb, tops, store, a, i, o, nb, spare), b, j, p)
            == if a == b && i == j && o == p then nb else Lookup2(tops, store, b, j, p)
  {
    var top, top2 := Top(tops, a), Top(tops, b);
    assert IsIndex(store, top, ipb);
    var store' := RegisterLarge(ipb, tops, store, a, i, o, nb, spare);
    var idx := IndexEntry(store, top, i);
    if top2 != 0 {
      assert IsIndex(store, top2, ipb);
      var idx2 := IndexEntry(store, top2, j);
      assert idx2 != spare;
      if idx == 0 {
        assert top2 != spare;
        assert IndexEntry(store', top2, j) == if a == b && i == j then spare else idx2;
        if idx2 != 0 { assert idx2 !in tops; assert top in tops; }
      } else {
        assert idx !in tops && top2 in tops;
        assert IndexEntry(store', top2, j) == idx2;
      }
    }
  }

  /** Registering under `s` in three-level mode makes `s` resolve to `nb` and changes no other
      sequence number. */
  lemma RegisterLargeCorrect(ipb: nat, tops: seq<nat>, store: map<nat, Block>, s: nat, nb: nat, spare: nat)
    requires ipb > 0 && ipb * ipb > 0 && Tree(ipb, tops, store) && Spare(ipb, tops, store, spare)
    requires Top(tops, Quot(s, ipb * ipb)) != 0
    ensures forall t :: var m := ipb * ipb; Quot(Rem(t, m), ipb) < ipb
    ensures var m := ipb * ipb;
            var store' := RegisterLarge(ipb, tops, store, Quot(s, m), Quot(Rem(s, m), ipb), Rem(Rem(s, m), ipb), nb,
                                        spare);
            forall t :: ResolveLarge(ipb, tops, store', t) == if t == s then nb else ResolveLarge(ipb, tops, store, t)
  {
    hide Quot, Rem, Tree, Spare, IndexEntry, Top, Lookup2, RegisterLarge;
    var m := ipb * ipb;
    forall t ensures Quot(Rem(t, m), ipb) < ipb { QuotBound(Rem(t, m), ipb); }
    var a, i, o := Quot(s, m), Quot(Rem(s, m), ipb), Rem(Rem(s, m), ipb);
    var store' := RegisterLarge(ipb, tops, store, a, i, o, nb, spare);
    forall t ensures ResolveLarge(ipb, tops, store', t) == if t == s then nb else ResolveLarge(ipb, tops, store, t) {
      RegisterLargeAt(ipb, tops, store, a, i, o, nb, spare, Quot(t, m), Quot(Rem(t, m), ipb), Rem(Rem(t, m), ipb));
      ResolveIsLookup(ipb, tops, store', t);
      ResolveIsLookup(ipb, tops, store, t);
      if Quot(t, m) == a && Quot(Rem(t, m), ipb) == i && Rem(Rem(t, m), ipb) == o {
        QuotRemUnique(Rem(t, m), Rem(s, m), ipb);
        QuotRemUnique(t, s, m);
      }
    }
  }

  lemma QuotBound(r: nat, ipb: nat)
    requires ipb > 0 && r < ipb * ipb
    ensures Quot(r, ipb) < ipb
  {
    DivMod(r, ipb);
    MulLe(ipb, r / ipb, ipb);
  }

  lemma ResolveIsLookup(ipb: nat, tops: seq<nat>, store: map<nat, Block>, t: nat)
    requires ipb > 0 && ipb * ipb > 0
    ensures ResolveLarge(ipb, tops, store, t)
         == Lookup2(tops, store, Quot(t, ipb * ipb), Quot(Rem(t, ipb * ipb), ipb), Rem(Rem(t, ipb * ipb), ipb))
  {
  }
}
