/** Counting free blocks by scanning the bitmaps. */
module Counting {
  import opened Types
  import opened Bitmap

  /** Number of set bits of a word or part of one. */
  function Ones(w: seq<bool>): nat {
    if |w| == 0 then 0 else Ones(w[..|w| - 1]) + if w[|w| - 1] then 1 else 0
  }

  ghost function Under(s: set<nat>, lim: nat): set<nat> {
    set x | x in s && x < lim
  }

  /** The bits `w` say which of the blocks from `lim` on are in `s`. */
  ghost predicate Describes(w: seq<bool>, s: set<nat>, lim: nat) {
    forall q :: 0 <= q < |w| ==> (w[q] <==> lim + q in s)
  }

  lemma {:induction false} OnesCount(w: seq<bool>, s: set<nat>, lim: nat)
    requires Describes(w, s, lim)
    ensures |Under(s, lim + |w|)| == |Under(s, lim)| + Ones(w)
  {
    if |w| > 0 {
      var n := |w| - 1;
      OnesCount(w[..n], s, lim);
      assert w[n] <==> lim + n in s;
      assert Under(s, lim + |w|) == Under(s, lim + n) + if w[n] then {lim + n} else {};
    }
  }

  function AtMost(a: nat, b: nat): nat {
    if a <= b then a else b
  }

  /** What one word says about the free set. */
  lemma WordDescribes(g: Geo, bm: seq<BmBlock>, free: set<nat>, k: nat, j: nat, n: nat)
    requires FreeTie(g, bm, free) && k < |bm| && j < g.ipb && n <= 32
    ensures |bm[k].words| == g.ipb && |bm[k].words[j]| == 32
            && Describes(bm[k].words[j][..n], free, Base(g, k) + 32 * j)
  {
    var w := bm[k].words[j][..n];
    PerBlockIs(g);
    hide Base;
    forall q | 0 <= q < |w| ensures w[q] <==> Base(g, k) + 32 * j + q in free {
      WordBit(bm[k].words, j, q);
      assert BitAt(bm[k].words, 32 * j + q) <==> Base(g, k) + (32 * j + q) in free;
    }
  }

  lemma WordBit(ws: seq<Word>, j: nat, q: nat)
    requires WordsOk(ws) && j < |ws| && q < 32
    ensures BitAt(ws, 32 * j + q) == ws[j][q]
  {
  }

  /** Scan the bitmap blocks for `disksize` bits. Whatever `disksize` is, the result is the number
      of free blocks among that many from the first data block on. */
  method CountFree(g: Geo, bm: seq<BmBlock>, disksize: nat, ghost free: set<nat>) returns (r: nat)
    requires g.ipb > 0 && FreeTie(g, bm, free)
    ensures r == |Under(free, g.bmStart + disksize)|
  {
    hide FreeTie, Base, Ones;
    r := 0;
    var remaining: nat := disksize;
    var k := 0;
    assert Under(free, Base(g, 0)) == {} by { NothingBelow(g, bm, free); }
    BaseZero(g);
    while remaining > 0
      invariant k <= |bm| && remaining <= disksize
      invariant r == |Under(free, g.bmStart + disksize - remaining)|
      invariant remaining > 0 ==> Base(g, k) == g.bmStart + disksize - remaining
    {
      if k == |bm| {
        NothingAbove(g, bm, free, g.bmStart + disksize - remaining, g.bmStart + disksize);
        return;
      }
      var j := 0;
      assert |bm[k].words| == g.ipb by { WordDescribes(g, bm, free, k, 0, 0); }
      while j < |bm[k].words| && remaining > 0
        invariant j <= |bm[k].words| == g.ipb && remaining <= disksize
        invariant r == |Under(free, g.bmStart + disksize - remaining)|
        invariant remaining > 0 ==> Base(g, k) + 32 * j == g.bmStart + disksize - remaining
      {
        var bits := AtMost(remaining, 32);
        WordDescribes(g, bm, free, k, j, bits);
        OnesCount(bm[k].words[j][..bits], free, Base(g, k) + 32 * j);
        r := r + Ones(bm[k].words[j][..bits]);
        remaining := remaining - bits;
        j := j + 1;
      }
      NextBase(g, k);
      k := k + 1;
    }
  }

  lemma BaseZero(g: Geo)
    ensures Base(g, 0) == g.bmStart
  {
  }

  lemma NextBase(g: Geo, k: nat)
    ensures Base(g, k + 1) == Base(g, k) + 32 * g.ipb
  {
    assert (k + 1) * PerBlock(g) == k * PerBlock(g) + PerBlock(g);
  }

  lemma NothingBelow(g: Geo, bm: seq<BmBlock>, free: set<nat>)
    requires FreeTie(g, bm, free)
    ensures Under(free, Base(g, 0)) == {}
  {
  }

  lemma NothingAbove(g: Geo, bm: seq<BmBlock>, free: set<nat>, a: nat, b: nat)
    requires FreeTie(g, bm, free) && Base(g, |bm|) == a <= b
    ensures Under(free, a) == Under(free, b)
  {
    hide Base;
  }

  // ---------------------------------------------------------------- the reserved bitmap

  ghost function UnderIndex(g: Geo, s: set<nat>, n: nat): set<nat> {
    set b | b in s && ResIndex(g, b) < n
  }

  lemma {:induction false} ResOnes(g: Geo, ws: seq<Word>, s: set<nat>, j: nat, n: nat)
    requires ResTie(g, ws, s) && g.rescluster > 0 && j < |ws| && n <= 32
    ensures |ws[j]| == 32 && |UnderIndex(g, s, 32 * j + n)| == |UnderIndex(g, s, 32 * j)| + Ones(ws[j][..n])
  {
    hide BitAt, BitBlock, ResIndex;
    if n > 0 {
      ResOnes(g, ws, s, j, n - 1);
      var q := 32 * j + n - 1;
      var b := BitBlock(g.first, g.rescluster, q);
      ResIndexOf(g, q);
      WordBit(ws, j, n - 1);
      assert BitAt(ws, q) <==> b in s;
      assert ws[j][..n][..n - 1] == ws[j][..n - 1];
      assert UnderIndex(g, s, q + 1) == UnderIndex(g, s, q) + if ws[j][n - 1] then {b} else {} by {
        forall x | x in s && ResIndex(g, x) == q ensures x == b { }
      }
    }
  }

  /** Set bits of a list of words. */
  function OnesOf(ws: seq<Word>): nat {
    if |ws| == 0 then 0 else OnesOf(ws[..|ws| - 1]) + Ones(ws[|ws| - 1])
  }

  /** Counting the set bits of all words of the root cluster gives the number of free reserved blocks and
      whatever bits are set behind the reserved bitmap. */
  method ReservedCountFree(g: Geo, ws: seq<Word>, rest: seq<Word>, ghost s: set<nat>) returns (r: nat)
    requires g.rescluster > 0 && ResTie(g, ws, s)
    ensures r == |s| + OnesOf(rest)
  {
    hide Ones, ResIndex, BitBlock;
    r := 0;
    assert UnderIndex(g, s, 0) == {};
    for j := 0 to |ws|
      invariant r == |UnderIndex(g, s, 32 * j)|
    {
      ResOnes(g, ws, s, j, 32);
      assert ws[j][..32] == ws[j];
      r := r + Ones(ws[j]);
    }
    assert UnderIndex(g, s, 32 * |ws|) == s;
    for j := 0 to |rest|
      invariant r == |s| + OnesOf(rest[..j])
    {
      assert rest[..j + 1][..j] == rest[..j];
      r := r + Ones(rest[j]);
    }
    assert rest[..|rest|] == rest;
  }

  /** Words without set bits. */
  predicate AllClear(ws: seq<Word>) {
    forall i, b :: 0 <= i < |ws| && 0 <= b < |ws[i]| ==> !ws[i][b]
  }

  lemma {:induction false} ClearOnes(w: Word)
    ensures Ones(w) == 0 <==> forall b :: 0 <= b < |w| ==> !w[b]
  {
    if |w| > 0 { ClearOnes(w[..|w| - 1]); }
  }

  lemma {:induction false} ClearIff(ws: seq<Word>)
    ensures OnesOf(ws) == 0 <==> AllClear(ws)
  {
    if |ws| > 0 {
      var n := |ws| - 1;
      ClearIff(ws[..n]);
      ClearOnes(ws[n]);
      assert AllClear(ws) <==> AllClear(ws[..n]) && forall b :: 0 <= b < |ws[n]| ==> !ws[n][b] by {
        if AllClear(ws) { forall i, b | 0 <= i < n && 0 <= b < |ws[..n][i]|
          ensures !ws[..n][i][b] { assert ws[..n][i] == ws[i]; } }
        if AllClear(ws[..n]) && (forall b :: 0 <= b < |ws[n]| ==> !ws[n][b]) {
          forall i, b | 0 <= i < |ws| && 0 <= b < |ws[i]| ensures !ws[i][b] { if i < n { assert ws[..n][i] == ws[i]; } }
        }
      }
    }
  }
}
