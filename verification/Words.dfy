/** Bitmap words as numbers, as bytes and under the masks that test their bits. */
module WordBits {
  import opened Types
  import opened Codec
  import opened Bitmap
  import opened ByteBits

  // ---------------------------------------------------------------- words

  /** The machine word with these bits, the first one highest. */
  function Value(w: Word): nat {
    if |w| == 0 then 0 else 2 * Value(w[..|w| - 1]) + if w[|w| - 1] then 1 else 0
  }

  function Pow2(n: nat): nat {
    if n == 0 then 1 else 2 * Pow2(n - 1)
  }

  lemma {:induction false} ValueBound(w: Word)
    ensures Value(w) < Pow2(|w|)
  {
    if |w| > 0 { ValueBound(w[..|w| - 1]); }
  }

  lemma {:induction false} ValueInjective(v: Word, w: Word)
    requires |v| == |w| && Value(v) == Value(w)
    ensures v == w
  {
    if |v| > 0 {
      var n := |v| - 1;
      ValueInjective(v[..n], w[..n]);
      assert v == v[..n] + [v[n]] && w == w[..n] + [w[n]];
    }
  }

  lemma WordBound(w: Word)
    requires |w| == 32
    ensures Value(w) < U32
  {
    ValueBound(w);
    assert Pow2(8) == 256 && Pow2(16) == 65536 && Pow2(24) == 16777216 && Pow2(32) == U32;
  }

  // ---------------------------------------------------------------- the order of bits

  /** From `base` on the bytes hold these words: bit `j` of a word is bit `j % 8` of its byte `j / 8`. */
  ghost predicate BitsAt(d: Bytes, base: nat, ws: seq<Word>) {
    WordsOk(ws) && forall i, j :: 0 <= i < |ws| && 0 <= j < 32 ==>
                                    base + 4 * i + 4 <= |d| && (ws[i][j] <==> BitSet(d[base + 4 * i + j / 8], j % 8))
  }

  function Halved(n: nat, k: nat): nat {
    if k == 0 then n else Halved(n / 2, k - 1)
  }

  /** Counted from the lowest bit. */
  lemma {:induction false} LowBit(w: Word, k: nat)
    requires k < |w|
    ensures Halved(Value(w), k) % 2 == 1 <==> w[|w| - 1 - k]
    decreases k
  {
    ValueLast(w);
    hide Value;
    if k > 0 {
      assert Value(w) / 2 == Value(w[..|w| - 1]);
      LowBit(w[..|w| - 1], k - 1);
    }
  }

  lemma {:induction false} HalvedNext(n: nat, k: nat)
    ensures Halved(n, k + 1) == Halved(n, k) / 2
    decreases k
  {
    if k > 0 { HalvedNext(n / 2, k - 1); }
  }

  lemma HalvedIs(n: nat, k: nat)
    requires k < 8
    ensures Halved(n, 7 - k) == n / Weight(k)
  {
    assert Halved(n, 0) == n;
    hide Halved;
    HalvedNext(n, 0);
    HalvedNext(n, 1);
    HalvedNext(n, 2);
    HalvedNext(n, 3);
    HalvedNext(n, 4);
    HalvedNext(n, 5);
    HalvedNext(n, 6);
  }

  lemma ByteBit(w: Word, x: byte, k: nat)
    requires |w| == 8 && Value(w) == x as nat && k < 8
    ensures BitSet(x, k) <==> w[k]
  {
    hide Value, BitSet, Halved, Weight;
    LowBit(w, 7 - k);
    HalvedIs(Value(w), k);
    BitSetIff(x, k);
  }

  lemma Doubles(x: nat, p: nat, y: nat, c: nat)
    ensures 2 * (x * p + y) + c == x * (2 * p) + (2 * y + c)
  {
  }

  lemma {:induction false} ValueSplit(a: Word, b: Word)
    ensures Value(a + b) == Value(a) * Pow2(|b|) + Value(b)
    decreases |b|
  {
    if |b| == 0 {
      assert a + b == a;
    } else {
      var n := |b| - 1;
      ValueSplit(a, b[..n]);
      ValueLast(b);
      ValueLast(a + b);
      assert (a + b)[..|a + b| - 1] == a + b[..n];
      hide Value;
      Doubles(Value(a), Pow2(n), Value(b[..n]), if b[n] then 1 else 0);
    }
  }

  lemma ValueLast(w: Word)
    requires |w| > 0
    ensures Value(w) == 2 * Value(w[..|w| - 1]) + if w[|w| - 1] then 1 else 0
  {
  }

  /** The number a word stands for has its eighths for bytes. */
  lemma ValueBytes(w: Word)
    requires |w| == 32
    ensures Value(w) == Value(w[..8]) * 0x100_0000 + Value(w[8..16]) * 0x1_0000 + Value(w[16..24]) * 0x100
                        + Value(w[24..])
    ensures Value(w[..8]) < 256 && Value(w[8..16]) < 256 && Value(w[16..24]) < 256 && Value(w[24..]) < 256
  {
    assert Pow2(8) == 256 && Pow2(16) == 0x1_0000 && Pow2(24) == 0x100_0000;
    assert w == w[..8] + w[8..] && w[8..] == w[8..16] + w[16..] && w[16..] == w[16..24] + w[24..];
    ValueSplit(w[..8], w[8..]);
    ValueSplit(w[8..16], w[16..]);
    ValueSplit(w[16..24], w[24..]);
    ValueBound(w[..8]);
    ValueBound(w[8..16]);
    ValueBound(w[16..24]);
    ValueBound(w[24..]);
  }

  lemma SameDigits(a: nat, b: nat, c: nat, d: nat, a': nat, b': nat, c': nat, d': nat)
    requires a < 256 && b < 256 && c < 256 && d < 256 && a' < 256 && b' < 256 && c' < 256 && d' < 256
    requires a * 0x100_0000 + b * 0x1_0000 + c * 0x100 + d == a' * 0x100_0000 + b' * 0x1_0000 + c' * 0x100 + d'
    ensures a == a' && b == b' && c == c' && d == d'
  {
  }

  lemma WordBytes(d: Bytes, at: nat, w: Word)
    requires at + 4 <= |d| && |w| == 32 && Get32(d, at) == Value(w)
    ensures d[at] as nat == Value(w[..8]) && d[at + 1] as nat == Value(w[8..16])
            && d[at + 2] as nat == Value(w[16..24]) && d[at + 3] as nat == Value(w[24..])
  {
    ValueBytes(w);
    hide Value;
    SameDigits(d[at] as nat, d[at + 1] as nat, d[at + 2] as nat, d[at + 3] as nat,
               Value(w[..8]), Value(w[8..16]), Value(w[16..24]), Value(w[24..]));
  }

  /** Bytes that read as the number of a word have its bits. */
  lemma WordBit(d: Bytes, at: nat, w: Word, j: nat)
    requires at + 4 <= |d| && |w| == 32 && Get32(d, at) == Value(w) && j < 32
    ensures w[j] <==> BitSet(d[at + j / 8], j % 8)
  {
    hide Value, BitSet, Get32;
    WordBytes(d, at, w);
    if j < 8 {
      ByteBit(w[..8], d[at], j);
    } else if j < 16 {
      ByteBit(w[8..16], d[at + 1], j - 8);
    } else if j < 24 {
      ByteBit(w[16..24], d[at + 2], j - 16);
    } else {
      ByteBit(w[24..], d[at + 3], j - 24);
    }
  }

  /** A machine word as a reader puts it together from its bytes. */
  function LoadWord(d: Bytes, at: nat): bv32
    requires at + 4 <= |d|
  {
    Joined(Bits8(d[at]), Bits8(d[at + 1]), Bits8(d[at + 2]), Bits8(d[at + 3]))
  }

  /** A reader, which tests words by mask, sees the bits of the bytes. */
  lemma LoadedBit(d: Bytes, at: nat, q: nat, k: nat)
    requires at + 4 <= |d| && q < 4 && k < 8
    ensures Tests(LoadWord(d, at), 8 * q + k) <==> BitSet(d[at + q], k)
  {
    hide Bits8, Tests, Tests8, Joined;
    MasksOf(Bits8(d[at]), Bits8(d[at + 1]), Bits8(d[at + 2]), Bits8(d[at + 3]), k);
    if q == 0 { } else if q == 1 { } else if q == 2 { } else { assert q == 3; }
  }

  /** So it sees those the words are made of. */
  lemma MaskSeesBit(d: Bytes, base: nat, ws: seq<Word>, i: nat, j: nat)
    requires BitsAt(d, base, ws) && i < |ws| && j < 32
    ensures base + 4 * i + 4 <= |d| && (ws[i][j] <==> Tests(LoadWord(d, base + 4 * i), j))
  {
    hide BitSet, LoadWord, Tests;
    OneBit(d, base, ws, i, j);
    LoadedBit(d, base + 4 * i, j / 8, j % 8);
  }

  lemma OneBit(d: Bytes, base: nat, ws: seq<Word>, i: nat, j: nat)
    requires BitsAt(d, base, ws) && i < |ws| && j < 32
    ensures base + 4 * i + 4 <= |d| && (ws[i][j] <==> BitSet(d[base + 4 * i + j / 8], j % 8))
  {
    hide BitSet;
    var b := ws[i][j];
  }

  /** From `base` on the bytes read as the numbers of these words. */
  ghost predicate WordsAt(d: Bytes, base: nat, ws: seq<Word>) {
    WordsOk(ws) && forall i :: 0 <= i < |ws| ==> base + 4 * i + 4 <= |d| && Get32(d, base + 4 * i) == Value(ws[i])
  }

  /** So each of their bits is where readers look for it. */
  lemma WordsBits(d: Bytes, base: nat, ws: seq<Word>)
    requires WordsAt(d, base, ws)
    ensures BitsAt(d, base, ws)
  {
    hide Get32, Value, BitSet;
    forall i, j | 0 <= i < |ws| && 0 <= j < 32
      ensures base + 4 * i + 4 <= |d| && (ws[i][j] <==> BitSet(d[base + 4 * i + j / 8], j % 8)) {
      WordBit(d, base + 4 * i, ws[i], j);
    }
  }
}
