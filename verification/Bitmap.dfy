/** The free-space bitmaps: words of 32 bits, most significant bit first, a set bit
    meaning free. The scans are shown to compute on sets of block numbers. */
module Bitmap {
  import opened Types

  /** An in-memory bitmap block: where it lives and its words. */
  datatype BmBlock = BmBlock(blk: nat, words: seq<Word>)

  predicate WordsOk(ws: seq<Word>) {
    forall i :: 0 <= i < |ws| ==> |ws[i]| == 32
  }

  predicate BitAt(ws: seq<Word>, q: nat)
    requires WordsOk(ws) && q < 32 * |ws|
  {
    ws[q / 32][q % 32]
  }

  function SetBit(ws: seq<Word>, q: nat, v: bool): (r: seq<Word>)
    requires WordsOk(ws) && q < 32 * |ws|
    ensures WordsOk(r) && |r| == |ws|
  {
    ws[q / 32 := ws[q / 32][q % 32 := v]]
  }

  lemma SetBitAt(ws: seq<Word>, q: nat, v: bool, p: nat)
    requires WordsOk(ws) && q < 32 * |ws| && p < 32 * |ws|
    ensures BitAt(SetBit(ws, q, v), p) == if p == q then v else BitAt(ws, p)
  {
    if p != q && p / 32 == q / 32 { assert p % 32 != q % 32; }
  }

  /** Strictly increasing, hence free of duplicates. */
  ghost predicate Sorted(s: seq<nat>) {
    forall i, j :: 0 <= i < j < |s| ==> s[i] < s[j]
  }

  /** Block number of bit `q` of a bitmap whose bit 0 is `base` and whose bits are `step` apart. */
  function BitBlock(base: nat, step: nat, q: nat): nat {
    base + q * step
  }

  /** Clear set bits in order until `want` of them are taken, passing over those whose
      block number is not below `limit`. The result is a cut through the bitmap. */
  method TakeBits(ws: seq<Word>, base: nat, limit: nat, want: nat) returns (r: seq<Word>, got: seq<nat>, ghost cut: nat)
    requires WordsOk(ws) && want > 0
    ensures Taken(ws, r, base, limit, got, cut)
    ensures |got| <= want && (|got| == want || cut == 32 * |ws|)
  {
    hide Taken;
    r, got, cut := ws, [], 0;
    TakenStart(ws, base, limit);
    for li := 0 to |ws|
      invariant WordsOk(r) && |r| == |ws| && cut == 32 * li
      invariant Taken(ws, r, base, limit, got, cut) && |got| < want
    {
      if forall b :: 0 <= b < 32 ==> !r[li][b] {
        TakenSkip(ws, r, base, limit, got, cut, 32 * li + 32);
        cut := 32 * li + 32;
        continue;
      }
      for bit := 0 to 32
        invariant WordsOk(r) && |r| == |ws| && cut == 32 * li + bit
        invariant Taken(ws, r, base, limit, got, cut) && |got| < want
      {
        if r[li][bit] && base + 32 * li + bit < limit {
          assert BitAt(r, cut);
          TakenOne(ws, r, base, limit, got, cut);
          assert SetBit(r, cut, false) == r[li := r[li][bit := false]];
          r := r[li := r[li][bit := false]];
          got := got + [base + 32 * li + bit];
          cut := cut + 1;
          if |got| == want { return; }
        } else {
          assert BitAt(r, cut) ==> base + cut >= limit;
          TakenSkip(ws, r, base, limit, got, cut, cut + 1);
          cut := cut + 1;
        }
      }
    }
  }

  /** State of the scan: the qualifying bits below `cut` are taken, in ascending order, and
      every other bit is untouched. */
  ghost predicate Taken(ws: seq<Word>, r: seq<Word>, base: nat, limit: nat, got: seq<nat>, cut: nat) {
    && WordsOk(ws) && WordsOk(r) && |r| == |ws| && cut <= 32 * |ws|
    && (forall q :: 0 <= q < 32 * |ws| ==> BitAt(r, q) == (BitAt(ws, q) && (q >= cut || base + q >= limit)))
    && (forall x :: x in got <==> base <= x < base + cut && x < limit && BitAt(ws, x - base))
    && Sorted(got)
  }

  lemma TakenStart(ws: seq<Word>, base: nat, limit: nat)
    requires WordsOk(ws)
    ensures Taken(ws, ws, base, limit, [], 0)
  {
  }

  lemma TakenOne(ws: seq<Word>, r: seq<Word>, base: nat, limit: nat, got: seq<nat>, cut: nat)
    requires Taken(ws, r, base, limit, got, cut) && cut < 32 * |ws| && BitAt(r, cut) && base + cut < limit
    ensures Taken(ws, SetBit(r, cut, false), base, limit, got + [base + cut], cut + 1)
  {
    hide BitAt, SetBit;
    var r', got' := SetBit(r, cut, false), got + [base + cut];
    forall q | 0 <= q < 32 * |ws| ensures BitAt(r', q) == (BitAt(ws, q) && (q >= cut + 1 || base + q >= limit)) {
      SetBitAt(r, cut, false, q);
    }
    forall i, j | 0 <= i < j < |got'| ensures got'[i] < got'[j] {
      if j == |got| { assert got[i] in got; }
    }
    assert BitAt(ws, cut);
  }

  lemma TakenSkip(ws: seq<Word>, r: seq<Word>, base: nat, limit: nat, got: seq<nat>, cut: nat, cut': nat)
    requires Taken(ws, r, base, limit, got, cut) && cut <= cut' <= 32 * |ws|
    requires forall q :: cut <= q < cut' && BitAt(r, q) ==> base + q >= limit
    ensures Taken(ws, r, base, limit, got, cut')
  {
    hide BitAt;
    forall x ensures x in got <==> base <= x < base + cut' && x < limit && BitAt(ws, x - base) {
      if base + cut <= x < base + cut' { assert BitAt(r, x - base) == BitAt(ws, x - base); }
    }
    forall q | 0 <= q < 32 * |ws| ensures BitAt(r, q) == (BitAt(ws, q) && (q >= cut' || base + q >= limit)) {
    }
  }

  // ---------------------------------------------------------------- the data bitmap

  function PerBlock(g: Geo): nat {
    g.ipb * 32
  }

  /** Block number of the first bit of bitmap block `k`. */
  function Base(g: Geo, k: nat): nat {
    g.bmStart + k * PerBlock(g)
  }

  lemma BasesApart(g: Geo, k: nat, j: nat)
    requires k < j
    ensures Base(g, k) + PerBlock(g) <= Base(g, j)
  {
    assert (k + 1) * PerBlock(g) <= j * PerBlock(g);
  }

  ghost predicate BmShape(g: Geo, bm: seq<BmBlock>) {
    forall k :: 0 <= k < |bm| ==> |bm[k].words| == g.ipb && WordsOk(bm[k].words)
  }

  /** The bitmap blocks describe exactly the free set. */
  ghost predicate FreeTie(g: Geo, bm: seq<BmBlock>, free: set<nat>) {
    && BmShape(g, bm)
    && (forall k, q :: 0 <= k < |bm| && 0 <= q < PerBlock(g) ==> (BitAt(bm[k].words, q) <==> Base(g, k) + q in free))
    && (forall x :: x in free ==> g.bmStart <= x < Base(g, |bm|))
  }

  lemma MulLe(a: int, b: int, m: nat)
    ensures a <= b ==> a * m <= b * m
  {
  }

  lemma DivMod(a: nat, m: nat)
    requires m > 0
    ensures a == (a / m) * m + a % m && 0 <= a % m < m
  {
  }

  lemma DivModOf(k: nat, m: nat, q: nat)
    requires q < m
    ensures (k * m + q) / m == k && (k * m + q) % m == q
  {
    var a := k * m + q;
    DivMod(a, m);
    MulLe(a / m + 1, k, m);
    MulLe(k + 1, a / m, m);
  }

  function Quot(a: nat, m: nat): (r: nat)
    requires m > 0
  {
    DivMod(a, m);
    MulLe(a / m + 1, 0, m);
    a / m
  }

  function Rem(a: nat, m: nat): (r: nat)
    requires m > 0
    ensures r < m
  {
    a % m
  }

  /** Where a block's bit is: the quotient and remainder the source computes. */
  lemma Locate(g: Geo, x: nat, n: nat)
    requires 0 < PerBlock(g) && g.bmStart <= x < Base(g, n)
    ensures Quot(x - g.bmStart, PerBlock(g)) < n
    ensures Base(g, Quot(x - g.bmStart, PerBlock(g))) + Rem(x - g.bmStart, PerBlock(g)) == x
  {
    hide PerBlock;
    DivMod(x - g.bmStart, PerBlock(g));
    MulLe(n, (x - g.bmStart) / PerBlock(g), PerBlock(g));
  }

  /** Replacing the words of one block replaces exactly that block's part of the free set. */
  lemma FreeTieUpdate(g: Geo, bm: seq<BmBlock>, free: set<nat>, k: nat, ws: seq<Word>, free': set<nat>)
    requires FreeTie(g, bm, free) && k < |bm| && |ws| == g.ipb && WordsOk(ws)
    requires forall q :: 0 <= q < PerBlock(g) ==> (BitAt(ws, q) <==> Base(g, k) + q in free')
    requires forall x :: !(Base(g, k) <= x < Base(g, k) + PerBlock(g)) ==> (x in free' <==> x in free)
    ensures FreeTie(g, bm[k := BmBlock(bm[k].blk, ws)], free')
  {
    hide BitAt;
    var bm' := bm[k := BmBlock(bm[k].blk, ws)];
    forall j, q | 0 <= j < |bm'| && 0 <= q < PerBlock(g) ensures BitAt(bm'[j].words, q) <==> Base(g, j) + q in free' {
      if j < k { BasesApart(g, j, k); }
      if k < j { BasesApart(g, k, j); }
    }
    BasesApart(g, k, |bm|);
  }

  lemma FreeTieSet(g: Geo, bm: seq<BmBlock>, free: set<nat>, k: nat, q: nat)
    requires FreeTie(g, bm, free) && k < |bm| && q < PerBlock(g)
    ensures FreeTie(g, bm[k := BmBlock(bm[k].blk, SetBit(bm[k].words, q, true))], free + {Base(g, k) + q})
  {
    hide BitAt, SetBit;
    forall p | 0 <= p < PerBlock(g)
      ensures BitAt(SetBit(bm[k].words, q, true), p) <==> Base(g, k) + p in free + {Base(g, k) + q}
    {
      SetBitAt(bm[k].words, q, true, p);
    }
    FreeTieUpdate(g, bm, free, k, SetBit(bm[k].words, q, true), free + {Base(g, k) + q});
  }

  /** Taking bits from block `k` takes exactly the members of the free set below the cut. */
  lemma TakenMembers(g: Geo, bm: seq<BmBlock>, free: set<nat>, k: nat, limit: nat, r: seq<Word>, got: seq<nat>,
                     cut: nat)
    requires FreeTie(g, bm, free) && k < |bm| && Taken(bm[k].words, r, Base(g, k), limit, got, cut)
    requires forall x :: x in free ==> x < limit
    ensures forall x :: x in got <==> x in free && Base(g, k) <= x < Base(g, k) + cut
  {
    hide BitAt, Base, PerBlock;
    var base := Base(g, k);
    assert PerBlock(g) == 32 * |bm[k].words| by { PerBlockIs(g); }
    forall x ensures x in got <==> x in free && base <= x < base + cut {
      if base <= x < base + cut { assert BitAt(bm[k].words, x - base) <==> base + (x - base) in free; }
    }
  }

  lemma PerBlockIs(g: Geo)
    ensures PerBlock(g) == 32 * g.ipb
  {
  }

  lemma TakenRest(g: Geo, bm: seq<BmBlock>, free: set<nat>, k: nat, limit: nat, r: seq<Word>, got: seq<nat>, cut: nat,
                  q: nat)
    requires FreeTie(g, bm, free) && k < |bm| && Taken(bm[k].words, r, Base(g, k), limit, got, cut)
    requires (forall x :: x in free ==> x < limit) && q < PerBlock(g)
    ensures |r| == g.ipb && WordsOk(r) && (BitAt(r, q) <==> Base(g, k) + q in free && Base(g, k) + q !in got)
  {
    hide BitAt, Base, PerBlock;
    PerBlockIs(g);
    assert BitAt(bm[k].words, q) <==> Base(g, k) + q in free;
  }

  ghost predicate GotWithin(g: Geo, k: nat, got: seq<nat>) {
    forall x :: x in got ==> Base(g, k) <= x < Base(g, k) + PerBlock(g)
  }

  lemma TakenWithin(g: Geo, ws: seq<Word>, k: nat, limit: nat, r: seq<Word>, got: seq<nat>, cut: nat)
    requires |ws| == g.ipb && Taken(ws, r, Base(g, k), limit, got, cut)
    ensures GotWithin(g, k, got)
  {
    hide BitAt;
  }

  lemma FreeTieTake(g: Geo, bm: seq<BmBlock>, free: set<nat>, k: nat, limit: nat, r: seq<Word>, got: seq<nat>, cut: nat)
    requires FreeTie(g, bm, free) && k < |bm| && Taken(bm[k].words, r, Base(g, k), limit, got, cut)
    requires forall x :: x in free ==> x < limit
    ensures FreeTie(g, bm[k := BmBlock(bm[k].blk, r)], free - (set x | x in got))
  {
    assert |bm[k].words| == g.ipb;
    TakenWithin(g, bm[k].words, k, limit, r, got, cut);
    hide BitAt, Base, PerBlock, Taken, FreeTie;
    var free' := free - (set x | x in got);
    assert |r| == g.ipb && WordsOk(r) by { hide *; TakenShape(g, bm[k].words, k, limit, r, got, cut); }
    forall q | 0 <= q < PerBlock(g) ensures BitAt(r, q) <==> Base(g, k) + q in free' {
      TakenRest(g, bm, free, k, limit, r, got, cut, q);
    }
    FreeTieUpdate(g, bm, free, k, r, free');
  }

  lemma TakenShape(g: Geo, ws: seq<Word>, k: nat, limit: nat, r: seq<Word>, got: seq<nat>, cut: nat)
    requires Taken(ws, r, Base(g, k), limit, got, cut)
    ensures |r| == |ws| && WordsOk(r)
  {
  }

  // ---------------------------------------------------------------- the reserved bitmap

  /** The reserved bitmap describes exactly the free reserved blocks. */
  ghost predicate ResTie(g: Geo, ws: seq<Word>, s: set<nat>) {
    && WordsOk(ws)
    && (forall q :: 0 <= q < 32 * |ws| ==> (BitAt(ws, q) <==> BitBlock(g.first, g.rescluster, q) in s))
    && (forall b :: b in s ==> ResAligned(g, b, |ws|))
  }

  /** `b` is the first sector of a reserved block that `n` bitmap words describe. */
  ghost predicate ResAligned(g: Geo, b: nat, n: nat) {
    b >= g.first && ResIndex(g, b) < 32 * n && BitBlock(g.first, g.rescluster, ResIndex(g, b)) == b
  }

  /** The bit of a reserved block. */
  function ResIndex(g: Geo, b: nat): nat {
    if g.rescluster > 0 && b >= g.first then (b - g.first) / g.rescluster else 0
  }

  lemma ResIndexOf(g: Geo, q: nat)
    requires g.rescluster > 0
    ensures ResIndex(g, BitBlock(g.first, g.rescluster, q)) == q
  {
    DivModOf(q, g.rescluster, 0);
  }

  lemma ResTieSet(g: Geo, ws: seq<Word>, s: set<nat>, q: nat, v: bool)
    requires ResTie(g, ws, s) && q < 32 * |ws| && g.rescluster > 0
    ensures var b := BitBlock(g.first, g.rescluster, q);
            ResTie(g, SetBit(ws, q, v), if v then s + {b} else s - {b})
  {
    hide BitAt, SetBit, ResIndex, BitBlock;
    var b := BitBlock(g.first, g.rescluster, q);
    var s' := if v then s + {b} else s - {b};
    forall p | 0 <= p < 32 * |ws| ensures BitAt(SetBit(ws, q, v), p) <==> BitBlock(g.first, g.rescluster, p) in s' {
      SetBitAt(ws, q, v, p);
      ResIndexOf(g, p);
      ResIndexOf(g, q);
    }
    ResIndexOf(g, q);
    BitBlockAbove(g, q);
  }

  lemma BitBlockAbove(g: Geo, q: nat)
    ensures BitBlock(g.first, g.rescluster, q) >= g.first
  {
  }

  /** The first set bit, scanning word by word. */
  method FirstBit(ws: seq<Word>) returns (r: Option<nat>)
    requires WordsOk(ws)
    ensures r.Some? ==> r.value < 32 * |ws| && BitAt(ws, r.value) && forall q :: 0 <= q < r.value ==> !BitAt(ws, q)
    ensures r.None? ==> forall q :: 0 <= q < 32 * |ws| ==> !BitAt(ws, q)
  {
    for li := 0 to |ws|
      invariant forall q :: 0 <= q < 32 * li ==> !BitAt(ws, q)
    {
      if forall b :: 0 <= b < 32 ==> !ws[li][b] { continue; }
      for bit := 0 to 32
        invariant forall q :: 0 <= q < 32 * li + bit ==> !BitAt(ws, q)
      {
        if ws[li][bit] {
          assert BitAt(ws, 32 * li + bit);
          return Some(32 * li + bit);
        }
      }
    }
    return None;
  }
}
