/** The least-recently-used cache over the device, and its use beside staged writes. */
module Cache {
  import opened Types
  import opened Overlay
  import opened Sets

  datatype Cached = Cached(data: Bytes, generation: nat)

  /** Blocks read since the last read of `b`, by the time each was read last. */
  ghost function Since(last: map<nat, nat>, b: nat): set<nat>
    requires b in last
  {
    set c | c in last && c != b && last[c] > last[b]
  }

  /** Cached blocks carry the time of their last read. */
  ghost predicate Dated(entries: map<nat, Cached>, last: map<nat, nat>, generation: nat) {
    && (forall b :: b in entries ==> b in last && entries[b].generation == last[b])
    && (forall b :: b in last ==> last[b] <= generation)
    && (forall b, c :: b in last && c in last && last[b] == last[c] ==> b == c)
  }

  /** A block that was read and not invalidated since is cached, unless as many other blocks as the
      cache can hold have been read since. */
  ghost predicate Resident(entries: map<nat, Cached>, last: map<nat, nat>, held: set<nat>, capacity: nat) {
    && entries.Keys <= held <= last.Keys
    && (forall b :: b in held ==> b in entries || |Since(last, b)| >= capacity)
  }

  ghost predicate Coherent(entries: map<nat, Cached>, dev: map<nat, Bytes>) {
    forall b :: b in entries ==> b in dev && entries[b].data == dev[b]
  }

  ghost predicate IsOldest(entries: map<nat, Cached>, k: nat) {
    k in entries && forall b :: b in entries ==> entries[k].generation <= entries[b].generation
  }

  /** Blocks that may be dropped: a full cache's worth of others has been read since. */
  ghost predicate Expendable(last: map<nat, nat>, gone: set<nat>, capacity: nat) {
    forall k :: k in gone ==> k in last && |Since(last, k)| >= capacity
  }

  /** A full cache gives up one block for a new one. */
  ghost predicate MadeRoom(entries: map<nat, Cached>, capacity: nat, b: nat, gone: set<nat>) {
    |entries| == capacity && b !in entries ==> exists k :: k in entries && gone == {k}
  }

  lemma NothingGone(entries: map<nat, Cached>, last: map<nat, nat>, capacity: nat, b: nat)
    requires |entries| < capacity || b in entries
    ensures Expendable(last, {}, capacity) && MadeRoom(entries, capacity, b, {}) && entries - {} == entries
  {
  }

  /** Reading `x` only adds to what has been read since any other block. */
  lemma SinceGrows(last: map<nat, nat>, generation: nat, x: nat, b: nat)
    requires b in last && b != x && forall c :: c in last ==> last[c] < generation
    ensures Since(last, b) <= Since(last[x := generation], b) && x in Since(last[x := generation], b)
    ensures |Since(last, b)| <= |Since(last[x := generation], b)|
  {
    SubsetCard(Since(last, b), Since(last[x := generation], b));
  }

  /** When the oldest of a full cache makes way for `x`, a full cache's worth has been read since. */
  lemma EvictedLong(entries: map<nat, Cached>, last: map<nat, nat>, generation: nat, capacity: nat, k: nat, x: nat)
    requires Dated(entries, last, generation) && x !in entries
    requires IsOldest(entries, k) && |entries| == capacity
    ensures Expendable(last[x := generation + 1], {k}, capacity) && MadeRoom(entries, capacity, x, {k})
  {
    var s := Since(last[x := generation + 1], k);
    var others := entries.Keys - {k} + {x};
    assert others <= s;
    SubsetCard(others, s);
    assert |others| == |entries.Keys|;
    assert |entries.Keys| == |entries|;
  }

  /** State after reading `x` with the cache now holding `entries'`. */
  lemma ReadKeeps(entries: map<nat, Cached>, entries': map<nat, Cached>, last: map<nat, nat>, held: set<nat>,
                  generation: nat,
                     capacity: nat, x: nat, gone: set<nat>)
    requires Dated(entries, last, generation) && Resident(entries, last, held, capacity)
    requires x in entries' && entries'[x].generation == generation + 1
    requires entries'.Keys == entries.Keys - gone + {x} && x !in gone
    requires forall b :: b in entries' && b != x ==> b in entries && entries'[b] == entries[b]
    requires Expendable(last[x := generation + 1], gone, capacity)
    ensures Dated(entries', last[x := generation + 1], generation + 1)
    ensures Resident(entries', last[x := generation + 1], held + {x}, capacity)
  {
    hide Since;
    var last' := last[x := generation + 1];
    assert held + {x} <= last'.Keys;
    forall b | b in held + {x} ensures b in entries' || |Since(last', b)| >= capacity {
      if b != x && b !in entries { SinceGrows(last, generation + 1, x, b); }
    }
  }

  /** The cache after reading `b`, having dropped the blocks of `gone` (at most one, from a full cache). */
  lemma AfterRead(entries: map<nat, Cached>, dev: map<nat, Bytes>, last: map<nat, nat>, held: set<nat>, generation: nat,
                  capacity: nat, b: nat, gone: set<nat>)
    requires Dated(entries, last, generation) && Resident(entries, last, held, capacity) && Coherent(entries, dev)
             && b in dev && b !in gone
    requires |entries| <= capacity && MadeRoom(entries, capacity, b, gone)
             && Expendable(last[b := generation + 1], gone, capacity)
    ensures var e := (entries - gone)[b := Cached(dev[b], generation + 1)];
            && |e| <= capacity && Coherent(e, dev) && Dated(e, last[b := generation + 1], generation + 1)
            && Resident(e, last[b := generation + 1], held + {b}, capacity)
  {
    hide Dated, Resident, Since, Coherent, MadeRoom, Expendable;
    var e := (entries - gone)[b := Cached(dev[b], generation + 1)];
    CoherentPut(entries, dev, b, gone, generation + 1);
    ReadKeeps(entries, e, last, held, generation, capacity, b, gone);
    ReadSize(entries, e, capacity, b, gone);
  }

  lemma ReadSize(entries: map<nat, Cached>, e: map<nat, Cached>, capacity: nat, b: nat, gone: set<nat>)
    requires |entries| <= capacity && MadeRoom(entries, capacity, b, gone)
    requires e.Keys == entries.Keys - gone + {b}
    ensures |e| <= capacity
  {
    assert |e| == |e.Keys| && |entries| == |entries.Keys|;
    if b in entries {
      SubsetCard(e.Keys, entries.Keys);
    } else if |entries| == capacity {
      var k :| k in entries && gone == {k};
      assert |entries.Keys - {k}| == |entries.Keys| - 1;
    } else {
      SubsetCard(e.Keys, entries.Keys + {b});
    }
  }

  class BlockCache {
    var entries: map<nat, Cached>
    var generation: nat
    const capacity: nat
    ghost var last: map<nat, nat>
    ghost var held: set<nat>

    ghost predicate Valid()
      reads this
    {
      capacity > 0 && |entries| <= capacity && Dated(entries, last, generation)
      && Resident(entries, last, held, capacity)
    }

    constructor (capacity: nat)
      requires capacity > 0
      ensures Valid() && entries == map[] && this.capacity == capacity && last == map[] && held == {}
    {
      entries, generation, this.capacity, last, held := map[], 0, capacity, map[], {};
    }

    /** The device's contents of `b`, from the cache when they are there. */
    method ReadReserved(dev: map<nat, Bytes>, b: nat) returns (data: Bytes)
      requires Valid() && Coherent(entries, dev) && b in dev
      modifies this
      ensures Valid() && Coherent(entries, dev) && data == dev[b]
      ensures b in entries && generation == old(generation) + 1 && last == old(last)[b := generation]
              && held == old(held) + {b}
    {
      hide Dated, Resident, Coherent, Since, Expendable, MadeRoom, IsOldest;
      if b in entries {
        data := entries[b].data;
        CoherentAt(entries, dev, b);
        NothingGone(entries, last[b := generation + 1], capacity, b);
        AfterRead(entries, dev, last, held, generation, capacity, b, {});
        entries := entries[b := Cached(data, generation + 1)];
      } else {
        data := dev[b];
        if |entries| >= capacity {
          var k := Oldest();
          EvictedLong(entries, last, generation, capacity, k, b);
          AfterRead(entries, dev, last, held, generation, capacity, b, {k});
          entries := entries - {k};
        } else {
          NothingGone(entries, last[b := generation + 1], capacity, b);
          AfterRead(entries, dev, last, held, generation, capacity, b, {});
        }
        entries := entries[b := Cached(data, generation + 1)];
      }
      generation := generation + 1;
      last := last[b := generation];
      held := held + {b};
    }

    /** The cached block read longest ago. */
    method Oldest() returns (k: nat)
      requires Valid() && |entries| >= capacity
      ensures IsOldest(entries, k)
    {
      var keys := entries.Keys;
      assert |entries| == |entries.Keys|;
      k :| k in keys;
      keys := keys - {k};
      while keys != {}
        invariant keys <= entries.Keys && k in entries && k !in keys
        invariant forall b :: b in entries && b !in keys ==> entries[k].generation <= entries[b].generation
        decreases keys
      {
        var c :| c in keys;
        keys := keys - {c};
        if entries[c].generation < entries[k].generation { k := c; }
      }
    }

    /** Forget a block, after it was written. */
    method Invalidate(b: nat)
      requires Valid()
      modifies this
      ensures Valid() && entries == old(entries) - {b} && last == old(last) && held == old(held) - {b}
              && generation == old(generation)
    {
      SubsetCard(entries.Keys - {b}, entries.Keys);
      assert (entries - {b}).Keys == entries.Keys - {b};
      assert |entries - {b}| == |(entries - {b}).Keys| && |entries| == |entries.Keys|;
      entries := entries - {b};
      held := held - {b};
    }
  }

  lemma CoherentAt(entries: map<nat, Cached>, dev: map<nat, Bytes>, b: nat)
    requires Coherent(entries, dev) && b in entries
    ensures b in dev && entries[b].data == dev[b]
  {
  }

  lemma CoherentPut(entries: map<nat, Cached>, dev: map<nat, Bytes>, b: nat, gone: set<nat>, generation: nat)
    requires Coherent(entries, dev) && b in dev
    ensures Coherent((entries - gone)[b := Cached(dev[b], generation)], dev)
  {
  }

  /** Device, staged writes and cache together, as the writer uses them. */
  class CachedDevice {
    var dev: map<nat, Bytes>
    var pending: Staged<Bytes>
    const cache: BlockCache

    /** Whatever is cached equals the device, staged or not. */
    ghost predicate Valid()
      reads this, cache
    {
      cache.Valid() && Coherent(cache.entries, dev) && UniqueKeys(pending)
    }

    constructor (dev: map<nat, Bytes>, capacity: nat)
      requires capacity > 0
      ensures Valid() && fresh(cache) && this.dev == dev && pending == []
    {
      cache := new BlockCache(capacity);
      this.dev, pending := dev, [];
    }

    /** A read through the cache sees the committed contents. */
    method ReadCommitted(b: nat) returns (data: Bytes)
      requires Valid() && b in dev
      modifies cache
      ensures Valid() && data == dev[b] && b in cache.entries
    {
      data := cache.ReadReserved(dev, b);
    }

    /** A raw read sees the staged contents. */
    method ReadRaw(b: nat) returns (data: Bytes)
      requires Valid() && b in View(dev, pending)
      ensures data == View(dev, pending)[b]
    {
      data := Overlay.Read(dev, pending, b);
    }

    method Stage(b: nat, v: Bytes)
      requires Valid()
      modifies `pending, cache
      ensures Valid() && View(dev, pending) == old(View(dev, pending))[b := v]
    {
      pending := Overlay.Stage(pending, b, v);
      cache.Invalidate(b);
    }

    /** Write every staged block and forget its cached copy. */
    method Flush()
      requires Valid()
      modifies this, cache
      ensures Valid() && dev == old(View(dev, pending)) && pending == []
    {
      var writes := pending;
      ghost var dev0 := dev;
      pending := [];
      for k := 0 to |writes|
        invariant Valid() && dev == View(dev0, writes[..k]) && pending == []
      {
        assert writes[..k + 1][..k] == writes[..k];
        cache.Invalidate(writes[k].0);
        dev := dev[writes[k].0 := writes[k].1];
      }
      assert writes[..|writes|] == writes;
    }
  }
}
