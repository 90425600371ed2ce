/** The anode table held in typed blocks, and how each way of writing it changes the
    finite map of anodes in use. */
module Table {
  import opened Types
  import opened Bitmap
  import opened Anodes
  import opened Ownership

  type Store = map<nat, Block>

  function Resolve(g: Geo, store: Store, s: nat): nat
    requires g.ipb > 0
  {
    ResolveSmall(g.ipb, g.indexblocks, store, s)
  }

  /** What reading anode `nr` returns: None when its block or slot does not exist. */
  function ReadAnode(g: Geo, store: Store, nr: nat): Option<Slot>
    requires g.ipb > 0 && g.stride > 0
  {
    var b := Resolve(g, store, SeqOf(g, nr));
    if b == 0 || b !in store || !store[b].AnodeBlk? || OffOf(g, nr) >= |store[b].slots| then None
    else Some(store[b].slots[OffOf(g, nr)])
  }

  /** The index resolves exactly the sequence numbers of `abk`. */
  ghost predicate IndexTie(g: Geo, store: Store, abk: Link) {
    && g.ipb > 0 && TopsOk(g.ipb, g.indexblocks, store)
    && (forall s {:trigger Resolve(g, store, s)} :: Resolve(g, store, s) == if s in abk then abk[s] else 0)
    && (forall s :: s in abk ==> abk[s] != 0)
  }

  ghost predicate IsAnodeBlk(g: Geo, store: Store, b: nat) {
    b in store && store[b].AnodeBlk? && |store[b].slots| == g.apb
  }

  /** Every resolvable block is a full anode block, and no two sequence numbers share one. */
  ghost predicate BlocksTie(g: Geo, store: Store, abk: Link) {
    && (forall s :: s in abk ==> IsAnodeBlk(g, store, abk[s]))
    && (forall s, t :: s in abk && t in abk && abk[s] == abk[t] ==> s == t)
  }

  ghost function SlotAt(store: Store, b: nat, o: nat): Slot {
    if b in store && store[b].AnodeBlk? && o < |store[b].slots| then store[b].slots[o] else EMPTY_SLOT
  }

  /** The map holds exactly the occupied slots. */
  ghost predicate SlotsTie(g: Geo, store: Store, abk: Link, tab: Tab) {
    && g.stride > 0
    && (forall s, o :: s in abk && 0 <= o < g.apb ==>
          var nr := Enc(g, s, o); if Vacant(SlotAt(store, abk[s], o))
            then nr !in tab else nr in tab && tab[nr] == SlotAt(store, abk[s], o))
    && (forall nr :: nr in tab ==> SeqOf(g, nr) in abk && OffOf(g, nr) < g.apb)
  }

  ghost predicate TabTie(g: Geo, store: Store, abk: Link, tab: Tab) {
    IndexTie(g, store, abk) && BlocksTie(g, store, abk) && SlotsTie(g, store, abk, tab)
  }

  /** Writing any block that holds neither index entries nor anodes changes nothing here. */
  lemma TabFrame(g: Geo, store: Store, abk: Link, tab: Tab, b: nat, blk: Block)
    requires TabTie(g, store, abk, tab) && b !in abk.Values && b !in g.indexblocks
    ensures TabTie(g, store[b := blk], abk, tab)
  {
    hide Quot, Rem;
    var store' := store[b := blk];
    forall s ensures Resolve(g, store', s) == Resolve(g, store, s) { }
    forall s | s in abk ensures abk[s] != b { assert abk[s] in abk.Values; }
  }

  function PutSlot(store: Store, b: nat, o: nat, x: Slot): Store
    requires b in store && store[b].AnodeBlk? && o < |store[b].slots|
  {
    store[b := AnodeBlk(store[b].slots[o := x])]
  }

  function PutTab(tab: Tab, nr: nat, x: Slot): Tab {
    if Vacant(x) then tab - {nr} else tab[nr := x]
  }

  lemma PutSlotIndex(g: Geo, store: Store, abk: Link, s: nat, o: nat, x: Slot)
    requires IndexTie(g, store, abk) && BlocksTie(g, store, abk) && s in abk && o < g.apb
    ensures IndexTie(g, PutSlot(store, abk[s], o, x), abk) && BlocksTie(g, PutSlot(store, abk[s], o, x), abk)
  {
    hide Quot, Rem;
    assert IsAnodeBlk(g, store, abk[s]);
    var store' := PutSlot(store, abk[s], o, x);
    forall t ensures Resolve(g, store', t) == Resolve(g, store, t) { }
    assert forall t :: t in abk && IsAnodeBlk(g, store, abk[t]) ==> IsAnodeBlk(g, store', abk[t]);
  }

  /** Writing one slot changes exactly that anode. */
  lemma PutSlotTie(g: Geo, store: Store, abk: Link, tab: Tab, s: nat, o: nat, x: Slot)
    requires TabTie(g, store, abk, tab) && s in abk && o < g.apb && g.apb <= g.stride
    ensures IsAnodeBlk(g, store, abk[s])
    ensures TabTie(g, PutSlot(store, abk[s], o, x), abk, PutTab(tab, Enc(g, s, o), x))
  {
    assert IsAnodeBlk(g, store, abk[s]);
    PutSlotIndex(g, store, abk, s, o, x);
    hide Quot, Rem, SeqOf, OffOf, Enc, IndexTie, Vacant;
    var store', tab' := PutSlot(store, abk[s], o, x), PutTab(tab, Enc(g, s, o), x);
    EncInverse(g, s, o);
    forall t, p | t in abk && 0 <= p < g.apb
      ensures var nr := Enc(g, t, p);
              if Vacant(SlotAt(store', abk[t], p)) then nr !in tab' else nr in tab'
                                                                         && tab'[nr] == SlotAt(store', abk[t], p)
    {
      EncInverse(g, t, p);
      assert SlotAt(store', abk[t], p) == if t == s && p == o then x else SlotAt(store, abk[t], p);
    }
  }

  function FreshAnodes(g: Geo, x: Slot): Block
    requires ANODE_USERFIRST < g.apb
  {
    AnodeBlk(seq(g.apb, _ => EMPTY_SLOT)[ANODE_USERFIRST := x])
  }

  /** Table after a new anode block for `s` replaces whatever `s` had before. */
  function GrowTab(g: Geo, tab: Tab, s: nat, x: Slot): Tab
    requires g.stride > 0
  {
    (map nr | nr in tab && SeqOf(g, nr) != s :: tab[nr])[Enc(g, s, ANODE_USERFIRST) := x]
  }

  function GrowStore(g: Geo, store: Store, s: nat, nb: nat, x: Slot): Store
    requires g.ipb > 0 && ANODE_USERFIRST < g.apb
    requires var top := Top(g.indexblocks, Quot(s, g.ipb)); IsIndex(store, top, g.ipb) && top != nb
  {
    PutIndex(store[nb := FreshAnodes(g, x)], Top(g.indexblocks, Quot(s, g.ipb)), Rem(s, g.ipb), nb)
  }

  lemma GrowIndex(g: Geo, store: Store, abk: Link, s: nat, nb: nat, x: Slot)
    requires IndexTie(g, store, abk) && ANODE_USERFIRST < g.apb
    requires Top(g.indexblocks, Quot(s, g.ipb)) != 0 && nb != 0 && nb !in g.indexblocks
    ensures IsIndex(store, Top(g.indexblocks, Quot(s, g.ipb)), g.ipb) && Top(g.indexblocks, Quot(s, g.ipb)) != nb
    ensures IndexTie(g, GrowStore(g, store, s, nb, x), abk[s := nb])
  {
    hide Quot, Rem;
    var store1 := store[nb := FreshAnodes(g, x)];
    assert TopsOk(g.ipb, g.indexblocks, store1);
    forall t ensures Resolve(g, store1, t) == Resolve(g, store, t) { }
    RegisterSmall(g.ipb, g.indexblocks, store1, s, nb);
    var store' := GrowStore(g, store, s, nb, x);
    forall t ensures Resolve(g, store', t) == if t in abk[s := nb] then abk[s := nb][t] else 0 {
      assert t != s ==> ResolveSmall(g.ipb, g.indexblocks, store', t) == ResolveSmall(g.ipb, g.indexblocks, store1, t);
      assert Resolve(g, store1, t) == Resolve(g, store, t);
    }
  }

  lemma GrowBlocks(g: Geo, store: Store, abk: Link, s: nat, nb: nat, x: Slot)
    requires IndexTie(g, store, abk) && BlocksTie(g, store, abk) && ANODE_USERFIRST < g.apb
    requires Top(g.indexblocks, Quot(s, g.ipb)) != 0 && nb != 0 && nb !in g.indexblocks && nb !in abk.Values
    requires IsIndex(store, Top(g.indexblocks, Quot(s, g.ipb)), g.ipb) && Top(g.indexblocks, Quot(s, g.ipb)) != nb
    ensures BlocksTie(g, GrowStore(g, store, s, nb, x), abk[s := nb])
  {
    hide Quot, Rem, Resolve, TopsOk;
    var store', abk' := GrowStore(g, store, s, nb, x), abk[s := nb];
    forall t | t in abk' ensures IsAnodeBlk(g, store', abk'[t]) {
      if t != s { assert abk[t] in abk.Values && IsAnodeBlk(g, store, abk[t]); }
    }
    forall t, u | t in abk' && u in abk' && abk'[t] == abk'[u] ensures t == u {
      if t != s { assert abk[t] in abk.Values; }
      if u != s { assert abk[u] in abk.Values; }
    }
  }

  lemma GrowSlot(g: Geo, store: Store, abk: Link, s: nat, nb: nat, x: Slot, t: nat, p: nat)
    requires BlocksTie(g, store, abk) && g.ipb > 0 && ANODE_USERFIRST < g.apb && nb !in abk.Values
    requires IsIndex(store, Top(g.indexblocks, Quot(s, g.ipb)), g.ipb) && Top(g.indexblocks, Quot(s, g.ipb)) != nb
    requires t in abk[s := nb] && p < g.apb
    ensures SlotAt(GrowStore(g, store, s, nb, x), abk[s := nb][t], p)
         == if t == s then (if p == ANODE_USERFIRST then x else EMPTY_SLOT) else SlotAt(store, abk[t], p)
  {
    hide Quot, Rem;
    if t != s { assert abk[t] in abk.Values && IsAnodeBlk(g, store, abk[t]); }
  }

  /** A new anode block holds the one new anode; everything under other sequence numbers stays. */
  lemma GrowTie(g: Geo, store: Store, abk: Link, tab: Tab, s: nat, nb: nat, x: Slot)
    requires TabTie(g, store, abk, tab) && ANODE_USERFIRST < g.apb <= g.stride && !Vacant(x)
    requires Top(g.indexblocks, Quot(s, g.ipb)) != 0 && nb != 0 && nb !in g.indexblocks && nb !in abk.Values
    ensures IsIndex(store, Top(g.indexblocks, Quot(s, g.ipb)), g.ipb) && Top(g.indexblocks, Quot(s, g.ipb)) != nb
    ensures TabTie(g, GrowStore(g, store, s, nb, x), abk[s := nb], GrowTab(g, tab, s, x))
  {
    GrowIndex(g, store, abk, s, nb, x);
    GrowBlocks(g, store, abk, s, nb, x);
    hide Quot, Rem, Resolve, TopsOk, IndexTie, BlocksTie, GrowStore, SlotAt, SeqOf, OffOf, Enc, Top;
    var store', abk', tab' := GrowStore(g, store, s, nb, x), abk[s := nb], GrowTab(g, tab, s, x);
    EncInverse(g, s, ANODE_USERFIRST);
    forall t, p | t in abk' && 0 <= p < g.apb
      ensures var nr := Enc(g, t, p);
              if Vacant(SlotAt(store', abk'[t], p)) then nr !in tab' else nr in tab'
                                                                          && tab'[nr] == SlotAt(store', abk'[t], p)
    {
      EncInverse(g, t, p);
      GrowSlot(g, store, abk, s, nb, x, t, p);
    }
  }

  /** Reading an anode of the map returns it. */
  lemma ReadTied(g: Geo, store: Store, abk: Link, tab: Tab, nr: nat)
    requires TabTie(g, store, abk, tab) && nr in tab
    ensures ReadAnode(g, store, nr) == Some(tab[nr])
  {
    SplitInverse(g, nr);
    hide Quot, Rem, Enc;
    var s, o := SeqOf(g, nr), OffOf(g, nr);
    assert Resolve(g, store, s) == abk[s] && IsAnodeBlk(g, store, abk[s]);
    assert Enc(g, s, o) == nr;
  }
}
