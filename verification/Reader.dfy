/** Reading files through their chains, whole and by range. */
module FileReader {
  import opened Types
  import opened Ownership
  import opened Anodes
  import opened Transitions
  import opened Steps

  /** Every block of the list can be read and is one sector long. */
  ghost predicate Readable(bs: nat, sect: Sectors, bl: seq<nat>) {
    forall i :: 0 <= i < |bl| ==> bl[i] in sect && |sect[bl[i]]| == bs
  }

  lemma ReadableParts(bs: nat, sect: Sectors, a: seq<nat>, b: seq<nat>)
    requires Readable(bs, sect, a + b)
    ensures Readable(bs, sect, a) && Readable(bs, sect, b)
  {
    forall i | 0 <= i < |a| ensures a[i] in sect && |sect[a[i]]| == bs { assert a[i] == (a + b)[i]; }
    forall i | 0 <= i < |b| ensures b[i] in sect && |sect[b[i]]| == bs { assert b[i] == (a + b)[|a| + i]; }
  }

  /** The blocks seen after `n` whole anodes and `i` blocks of the next one. */
  ghost function Seen(c: seq<Anode>, n: nat, i: nat): seq<nat>
    requires n <= |c| && (n < |c| ==> i <= c[n].slot.size)
  {
    BlockList(c[..n]) + if n < |c| then Expand(c[n].slot)[..i] else []
  }

  lemma {:induction false} BlockListAppend(a: seq<Anode>, b: seq<Anode>)
    ensures BlockList(a + b) == BlockList(a) + BlockList(b)
  {
    if |a| == 0 {
      assert a + b == b;
    } else {
      assert (a + b)[1..] == a[1..] + b;
      BlockListAppend(a[1..], b);
    }
  }

  /** The blocks still to come. */
  ghost function Rest(c: seq<Anode>, n: nat, i: nat): seq<nat>
    requires n < |c| && i <= c[n].slot.size
  {
    Expand(c[n].slot)[i..] + BlockList(c[n + 1..])
  }

  lemma SeenAll(c: seq<Anode>)
    ensures Seen(c, |c|, 0) == BlockList(c)
  {
    assert c[..|c|] == c;
  }

  /** Walking the chain in order sees a growing prefix of its block list. */
  lemma SeenSteps(c: seq<Anode>, n: nat, i: nat)
    requires n < |c| && i <= c[n].slot.size
    ensures i < c[n].slot.size ==> Seen(c, n, i + 1) == Seen(c, n, i) + [c[n].slot.blk + i]
    ensures Seen(c, n + 1, 0) == Seen(c, n, i) + Expand(c[n].slot)[i..]
    ensures i == c[n].slot.size ==> Seen(c, n + 1, 0) == Seen(c, n, i)
    ensures |Seen(c, n, i)| == |Seen(c, n, 0)| + i
  {
    var ex := Expand(c[n].slot);
    if i < |ex| { assert ex[..i + 1] == ex[..i] + [ex[i]]; }
    assert c[..n + 1] == c[..n] + [c[n]];
    BlockListAppend(c[..n], [c[n]]);
    hide BlockList;
    assert BlockList([c[n]]) == ex by { OneAnode(c[n]); }
    assert ex == ex[..i] + ex[i..];
  }

  lemma OneAnode(a: Anode)
    ensures BlockList([a]) == Expand(a.slot)
  {
    assert BlockList([a]) == Expand(a.slot) + BlockList([]);
  }

  lemma SplitAt(c: seq<Anode>, n: nat)
    requires n < |c|
    ensures BlockList(c) == BlockList(c[..n]) + (Expand(c[n].slot) + BlockList(c[n + 1..]))
  {
    assert c == c[..n] + c[n..];
    BlockListAppend(c[..n], c[n..]);
    assert c[n..][1..] == c[n + 1..];
  }

  lemma SeenRest(c: seq<Anode>, n: nat, i: nat)
    requires n < |c| && i <= c[n].slot.size
    ensures BlockList(c) == Seen(c, n, i) + Rest(c, n, i)
  {
    SplitAt(c, n);
    hide BlockList, Expand;
    Regroup(BlockList(c[..n]), Expand(c[n].slot), i, BlockList(c[n + 1..]));
  }

  lemma Regroup(a: seq<nat>, x: seq<nat>, i: nat, b: seq<nat>)
    requires i <= |x|
    ensures a + (x + b) == (a + x[..i]) + (x[i..] + b)
  {
    assert x == x[..i] + x[i..];
  }

  lemma SeenNext(bs: nat, sect: Sectors, c: seq<Anode>, n: nat, i: nat)
    requires n < |c| && i < c[n].slot.size && Readable(bs, sect, BlockList(c))
    ensures var b := c[n].slot.blk + i;
            && b in sect && |sect[b]| == bs
            && Concat(sect, Seen(c, n, i + 1)) == Concat(sect, Seen(c, n, i)) + sect[b]
    ensures |Concat(sect, Seen(c, n, i))| == bs * |Seen(c, n, i)|
  {
    SeenSteps(c, n, i);
    SeenRest(c, n, i + 1);
    var b := c[n].slot.blk + i;
    ReadableParts(bs, sect, Seen(c, n, i + 1), Rest(c, n, i + 1));
    hide Seen, Rest, BlockList;
    ReadableParts(bs, sect, Seen(c, n, i), [b]);
    assert [b][0] == b;
    ConcatAppend(sect, Seen(c, n, i), [b]);
    assert Concat(sect, [b]) == sect[b] + Concat(sect, []);
    ConcatLength(bs, sect, Seen(c, n, i));
  }

  lemma ClipMore(x: Bytes, s: Bytes, n: nat)
    ensures n <= |x| ==> Clip(x + s, n) == Clip(x, n)
    ensures |x| < n ==> Clip(x + s, n) == x + s[..if n - |x| <= |s| then n - |x| else |s|]
  {
  }

  /** Read a whole file: the first `size` bytes of its blocks, or all of them when the chain is
      shorter than the recorded size. */
  method ReadFileData(bs: nat, sect: Sectors, c: seq<Anode>, size: nat) returns (data: Bytes)
    requires bs > 0 && Readable(bs, sect, BlockList(c))
    ensures data == ReadData(sect, BlockList(c), size)
  {
    data := [];
    var remaining: nat := size;
    for n := 0 to |c|
      invariant data == Clip(Concat(sect, Seen(c, n, 0)), size) && remaining == size - |data|
    {
      hide Seen, Concat, Clip, Readable;
      var i := 0;
      while i < c[n].slot.size && remaining > 0
        invariant i <= c[n].slot.size
        invariant data == Clip(Concat(sect, Seen(c, n, i)), size) && remaining == size - |data|
      {
        SeenNext(bs, sect, c, n, i);
        var buf := sect[c[n].slot.blk + i];
        var chunk := if remaining <= bs then remaining else bs;
        ClipMore(Concat(sect, Seen(c, n, i)), buf, size);
        ClipLength(Concat(sect, Seen(c, n, i)), size);
        data := data + buf[..chunk];
        remaining := remaining - chunk;
        i := i + 1;
      }
      SeenFull(sect, c, n, i, size);
    }
    SeenAll(c);
  }

  lemma ClipLength(x: Bytes, n: nat)
    ensures |Clip(x, n)| == (if n <= |x| then n else |x|) && (|x| <= n ==> Clip(x, n) == x)
  {
  }

  /** Once enough bytes are there, the rest of an extent adds nothing. */
  lemma SeenFull(sect: Sectors, c: seq<Anode>, n: nat, i: nat, size: nat)
    requires n < |c| && i <= c[n].slot.size
             && (i == c[n].slot.size || |Clip(Concat(sect, Seen(c, n, i)), size)| == size)
    ensures Clip(Concat(sect, Seen(c, n, i)), size) == Clip(Concat(sect, Seen(c, n + 1, 0)), size)
  {
    SeenSteps(c, n, i);
    if i < c[n].slot.size {
      var ex := Expand(c[n].slot);
      hide Seen, BlockList;
      ConcatAppend(sect, Seen(c, n, i), ex[i..]);
      ClipMore(Concat(sect, Seen(c, n, i)), Concat(sect, ex[i..]), size);
    }
  }

  // ---------------------------------------------------------------- byte ranges

  function Lesser(a: nat, b: nat): nat {
    if a <= b then a else b
  }

  /** Bytes `a` to `b`, as far as there are any. */
  function Slice(s: Bytes, a: nat, b: nat): Bytes
    requires a <= b
  {
    s[Lesser(a, |s|)..Lesser(b, |s|)]
  }

  /** One more sector behind `x`: before the range, beyond it, or overlapping it. */
  lemma SliceMore(x: Bytes, s: Bytes, a: nat, b: nat)
    requires a <= b
    ensures |x| + |s| <= a || b <= |x| ==> Slice(x + s, a, b) == Slice(x, a, b)
    ensures a < |x| + |s| && |x| < b ==>
              var lo, hi := if a > |x| then a - |x| else 0, if b < |x| + |s| then b - |x| else |s|;
              lo <= hi <= |s| && Slice(x + s, a, b) == Slice(x, a, b) + s[lo..hi]
  {
  }

  /** Everything from here on lies outside the range. */
  lemma SliceBeyond(sect: Sectors, x: seq<nat>, y: seq<nat>, a: nat, b: nat)
    requires a <= b && (b <= |Concat(sect, x)| || |Concat(sect, x + y)| <= a)
    ensures Slice(Concat(sect, x + y), a, b) == Slice(Concat(sect, x), a, b)
  {
    ConcatAppend(sect, x, y);
    SliceMore(Concat(sect, x), Concat(sect, y), a, b);
  }

  lemma SeenBytes(bs: nat, sect: Sectors, c: seq<Anode>, n: nat, i: nat)
    requires n < |c| && i <= c[n].slot.size && Readable(bs, sect, BlockList(c))
    ensures |Concat(sect, Seen(c, n, i))| == |Concat(sect, Seen(c, n, 0))| + i * bs
    ensures |Concat(sect, Seen(c, n + 1, 0))| == |Concat(sect, Seen(c, n, 0))| + c[n].slot.size * bs
  {
    SeenLength(bs, sect, c, n, i);
    SeenLength(bs, sect, c, n, 0);
    SeenLength(bs, sect, c, n, c[n].slot.size);
    SeenSteps(c, n, i);
    SeenSteps(c, n, c[n].slot.size);
    Distribute(bs, |Seen(c, n, 0)|, i);
    Distribute(bs, |Seen(c, n, 0)|, c[n].slot.size);
  }

  lemma Distribute(bs: nat, a: nat, i: nat)
    ensures bs * (a + i) == bs * a + i * bs
  {
  }

  lemma SeenLength(bs: nat, sect: Sectors, c: seq<Anode>, n: nat, i: nat)
    requires n < |c| && i <= c[n].slot.size && Readable(bs, sect, BlockList(c))
    ensures |Concat(sect, Seen(c, n, i))| == bs * |Seen(c, n, i)|
  {
    SeenRest(c, n, i);
    ReadableParts(bs, sect, Seen(c, n, i), Rest(c, n, i));
    ConcatLength(bs, sect, Seen(c, n, i));
  }

  /** The range read so far covers the range's part of the blocks seen. */
  ghost predicate Got(sect: Sectors, c: seq<Anode>, n: nat, i: nat, a: nat, b: nat, r: Bytes) {
    a <= b && n <= |c| && (n < |c| ==> i <= c[n].slot.size) && r == Slice(Concat(sect, Seen(c, n, i)), a, b)
  }

  lemma GotSkip(bs: nat, sect: Sectors, c: seq<Anode>, n: nat, i: nat, a: nat, b: nat, r: Bytes)
    requires Got(sect, c, n, i, a, b, r) && n < |c| && Readable(bs, sect, BlockList(c))
    requires b <= |Concat(sect, Seen(c, n, i))| || |Concat(sect, Seen(c, n + 1, 0))| <= a || i == c[n].slot.size
    ensures Got(sect, c, n + 1, 0, a, b, r)
  {
    SeenSteps(c, n, i);
    var y := Expand(c[n].slot)[i..];
    assert i == c[n].slot.size ==> y == [];
    hide Seen, Slice, Concat;
    if i < c[n].slot.size { SliceBeyond(sect, Seen(c, n, i), y, a, b); }
  }

  lemma GotRest(sect: Sectors, c: seq<Anode>, n: nat, a: nat, b: nat, r: Bytes)
    requires Got(sect, c, n, 0, a, b, r) && n < |c| && b <= |Concat(sect, Seen(c, n, 0))|
    ensures r == Slice(Concat(sect, BlockList(c)), a, b)
  {
    SeenRest(c, n, 0);
    hide Seen, Slice, Concat;
    SliceBeyond(sect, Seen(c, n, 0), Rest(c, n, 0), a, b);
  }

  /** Read `length` bytes from `offset`, touching only blocks that overlap the range: the same
      bytes a full read would give there, clipped at its end. */
  method ReadFileRange(bs: nat, sect: Sectors, c: seq<Anode>, size: nat, offset: nat, length: nat) returns (r: Bytes)
    requires bs > 0 && Readable(bs, sect, BlockList(c))
    ensures r == Slice(ReadData(sect, BlockList(c), size), offset, offset + length)
  {
    if offset >= size {
      return [];
    }
    var end := Lesser(offset + length, size);
    RangeOfRead(sect, BlockList(c), size, offset, length);
    r := [];
    var pos := 0;
    assert Got(sect, c, 0, 0, offset, end, r);
    hide Got, Readable, Seen, Slice, Concat;
    for n := 0 to |c|
      invariant Got(sect, c, n, 0, offset, end, r) && pos == |Concat(sect, Seen(c, n, 0))|
    {
      SeenBytes(bs, sect, c, n, 0);
      var extentEnd := pos + c[n].slot.size * bs;
      if extentEnd <= offset {
        GotSkip(bs, sect, c, n, 0, offset, end, r);
        pos := extentEnd;
        continue;
      }
      if pos >= end {
        GotRest(sect, c, n, offset, end, r);
        return;
      }
      r := ReadExtent(bs, sect, c, n, pos, offset, end, r);
      pos := extentEnd;
    }
    GotAll(sect, c, offset, end, r);
  }

  lemma GotAll(sect: Sectors, c: seq<Anode>, a: nat, b: nat, r: Bytes)
    requires Got(sect, c, |c|, 0, a, b, r)
    ensures r == Slice(Concat(sect, BlockList(c)), a, b)
  {
    SeenAll(c);
  }

  lemma RangeOfRead(sect: Sectors, bl: seq<nat>, size: nat, offset: nat, length: nat)
    requires offset < size
    ensures Slice(ReadData(sect, bl, size), offset, offset + length) == Slice(Concat(sect, bl), offset,
                                                            Lesser(offset + length, size))
  {
  }

  /** The blocks of one extent that overlap the range. */
  method ReadExtent(bs: nat, sect: Sectors, c: seq<Anode>, n: nat, pos: nat, offset: nat, end: nat, got: Bytes)
      returns (r: Bytes)
    requires bs > 0 && Readable(bs, sect, BlockList(c)) && n < |c|
    requires Got(sect, c, n, 0, offset, end, got) && pos == |Concat(sect, Seen(c, n, 0))|
    ensures Got(sect, c, n + 1, 0, offset, end, r)
  {
    hide Readable, Seen, Slice, Concat;
    r := got;
    var i := 0;
    while i < c[n].slot.size
      invariant i <= c[n].slot.size && Got(sect, c, n, i, offset, end, r)
    {
      SeenBytes(bs, sect, c, n, i);
      SeenNext(bs, sect, c, n, i);
      var start := pos + i * bs;
      var stop := start + bs;
      var buf := sect[c[n].slot.blk + i];
      SliceMore(Concat(sect, Seen(c, n, i)), buf, offset, end);
      if stop <= offset {
        i := i + 1;
        continue;
      }
      if start >= end { break; }
      var lo := if offset > start then offset - start else 0;
      var hi := if end < stop then end - start else bs;
      r := r + buf[lo..hi];
      i := i + 1;
    }
    SeenBytes(bs, sect, c, n, i);
    GotSkip(bs, sect, c, n, i, offset, end, r);
  }
}
