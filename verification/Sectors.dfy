/** File contents in sectors: splitting data over a block list and reading it back. */
module SectorData {
  import opened Types
  import opened Ownership
  import opened Transitions
  import opened Runs

  /** `len` bytes of `data` from `off`, zeros past its end. */
  function Pad(data: Bytes, off: nat, len: nat): (r: Bytes)
    ensures |r| == len
  {
    seq(len, j requires 0 <= j => if off + j < |data| then data[off + j] else 0)
  }

  /** Sectors after writing the first `k` blocks of `bl` with consecutive pieces of `data`. */
  function WriteSome(bs: nat, sect: Sectors, bl: seq<nat>, data: Bytes, off: nat, k: nat): Sectors
    requires k <= |bl|
  {
    if k == 0 then sect else WriteSome(bs, sect, bl, data, off, k - 1)[bl[k - 1] := Pad(data, off + (k - 1) * bs, bs)]
  }

  lemma {:induction false} WriteSomeChanges(g: Geo, sect: Sectors, bl: seq<nat>, data: Bytes, off: nat, k: nat)
    requires SectorsOk(g, sect) && k <= |bl|
    ensures ChangedIn(g, sect, WriteSome(g.bs, sect, bl, data, off, k), Elems(bl))
            && SectorsOk(g, WriteSome(g.bs, sect, bl, data, off, k))
  {
    if k > 0 {
      WriteSomeChanges(g, sect, bl, data, off, k - 1);
      assert bl[k - 1] in Elems(bl);
    }
  }

  lemma {:induction false} WriteSomeAt(bs: nat, sect: Sectors, bl: seq<nat>, data: Bytes, off: nat, k: nat, i: nat)
    requires i < k <= |bl| && NoDup(bl)
    ensures bl[i] in WriteSome(bs, sect, bl, data, off, k)
            && WriteSome(bs, sect, bl, data, off, k)[bl[i]] == Pad(data, off + i * bs, bs)
  {
    if i < k - 1 {
      WriteSomeAt(bs, sect, bl, data, off, k - 1, i);
      assert bl[i] != bl[k - 1];
    }
  }

  /** Sectors holding consecutive pieces of `data` from `off`. */
  ghost predicate Holds(bs: nat, sect: Sectors, bl: seq<nat>, data: Bytes, off: nat) {
    forall i :: 0 <= i < |bl| ==> bl[i] in sect && sect[bl[i]] == Pad(data, off + i * bs, bs)
  }

  lemma {:induction false} ConcatPad(bs: nat, sect: Sectors, bl: seq<nat>, data: Bytes, off: nat)
    requires Holds(bs, sect, bl, data, off)
    ensures Concat(sect, bl) == Pad(data, off, |bl| * bs)
  {
    hide Pad;
    if |bl| == 0 {
      assert |Pad(data, off, 0)| == 0;
    } else {
      HoldsRest(bs, sect, bl, data, off);
      ConcatPad(bs, sect, bl[1..], data, off + bs);
      PadSplit(data, off, bs, |bl[1..]| * bs);
      MulSucc(|bl[1..]|, bs);
      assert bl[0] in sect && sect[bl[0]] == Pad(data, off + 0 * bs, bs);
    }
  }

  lemma MulSucc(n: nat, bs: nat)
    ensures (n + 1) * bs == bs + n * bs
  {
  }

  lemma HoldsRest(bs: nat, sect: Sectors, bl: seq<nat>, data: Bytes, off: nat)
    requires Holds(bs, sect, bl, data, off) && |bl| > 0
    ensures Holds(bs, sect, bl[1..], data, off + bs)
  {
    hide Pad;
    forall i | 0 <= i < |bl[1..]| ensures bl[1..][i] in sect && sect[bl[1..][i]] == Pad(data, off + bs + i * bs, bs) {
      assert bl[1..][i] == bl[i + 1];
      MulSucc(i, bs);
      assert off + (i + 1) * bs == off + bs + i * bs;
    }
  }

  lemma PadSplit(data: Bytes, off: nat, a: nat, b: nat)
    ensures Pad(data, off, a + b) == Pad(data, off, a) + Pad(data, off + a, b)
  {
  }

  /** Reading `n` bytes through a list that holds `data` from the start returns its prefix. */
  lemma ReadsBack(bs: nat, sect: Sectors, bl: seq<nat>, data: Bytes, n: nat)
    requires Holds(bs, sect, bl, data, 0) && n <= |data| <= |bl| * bs
    ensures ReadData(sect, bl, n) == data[..n]
  {
    ConcatPad(bs, sect, bl, data, 0);
    assert Pad(data, 0, |bl| * bs)[..n] == data[..n];
  }

  /** Number of blocks for `n` bytes, never zero. */
  function BlocksFor(bs: nat, n: nat): (k: nat)
    requires bs > 0
    ensures k > 0 && n <= k * bs
    ensures k > 1 ==> (k - 1) * bs < n
  {
    if n == 0 then 1
    else
      assert n <= ((n + bs - 1) / bs) * bs && ((n + bs - 1) / bs - 1) * bs < n by { CeilDiv(n, bs); }
      (n + bs - 1) / bs
  }

  /** No fewer blocks will do. */
  lemma BlocksForLeast(bs: nat, n: nat, k: nat)
    requires bs > 0 && k > 0 && n <= k * bs
    ensures BlocksFor(bs, n) <= k
  {
    var m := BlocksFor(bs, n);
    assert k <= m - 1 ==> k * bs <= (m - 1) * bs;
  }

  lemma FewerBytes(bs: nat, n: nat, k: nat)
    requires bs > 0 && k < BlocksFor(bs, n)
    ensures k * bs <= n
  {
    hide BlocksFor;
    if k > 0 { TimesMonotone(k, BlocksFor(bs, n) - 1, bs); }
  }

  lemma TimesMonotone(a: nat, b: nat, k: nat)
    requires a <= b
    ensures a * k <= b * k
  {
  }

  lemma CeilDiv(n: nat, bs: nat)
    requires bs > 0 && n > 0
    ensures var k := (n + bs - 1) / bs; k > 0 && n <= k * bs && (k - 1) * bs < n
  {
    var a := n + bs - 1;
    var k := a / bs;
    assert a == k * bs + a % bs && 0 <= a % bs < bs;
    assert (k - 1) * bs == k * bs - bs;
    assert k <= 0 ==> k * bs <= 0;
  }

  /** Two consecutive stretches of blocks hold consecutive parts of the data. */
  lemma HoldsAppend(bs: nat, sect: Sectors, a: seq<nat>, b: seq<nat>, data: Bytes)
    requires Holds(bs, sect, a, data, 0) && Holds(bs, sect, b, data, |a| * bs)
    ensures Holds(bs, sect, a + b, data, 0)
  {
    forall i | 0 <= i < |a + b| ensures (a + b)[i] in sect && sect[(a + b)[i]] == Pad(data, i * bs, bs) {
      if i >= |a| {
        assert (a + b)[i] == b[i - |a|];
        assert i * bs == |a| * bs + (i - |a|) * bs;
      }
    }
  }

  /** Whatever prefix of the writes reached the device, nothing visible has changed while they
      only touch blocks that are free in the committed state. */
  lemma CrashSafe(g: Geo, o: Own, sect: Sectors, bl: seq<nat>, data: Bytes, off: nat, k: nat)
    requires Inv(g, o, sect) && k <= |bl| && Elems(bl) <= o.f.free
    ensures Inv(g, o, WriteSome(g.bs, sect, bl, data, off, k))
  {
    hide Chains, Nodes, Cover, Area, Kinds, Entries, Heads, Parents, Names, SectorsOk, Contents, Ranked, WriteSome,
         Elems, ChangedIn;
    WriteSomeChanges(g, sect, bl, data, off, k);
    WriteFreeKeeps(g, o, sect, WriteSome(g.bs, sect, bl, data, off, k), Elems(bl));
  }
}
