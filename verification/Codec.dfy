/** Directory entries as bytes: building, parsing and patching one record. */
module Codec {
  import opened Types
  import opened Directory

  // ---------------------------------------------------------------- big-endian numbers

  function Lo(v: nat, k: nat): byte
    requires k > 0
  {
    (v / k % 256) as byte
  }

  function Be16(v: nat): (r: Bytes)
    ensures |r| == 2
  {
    [Lo(v, 0x100), Lo(v, 1)]
  }

  function Be32(v: nat): (r: Bytes)
    ensures |r| == 4
  {
    [Lo(v, 0x100_0000), Lo(v, 0x1_0000), Lo(v, 0x100), Lo(v, 1)]
  }

  function Get16(d: Bytes, i: nat): (v: nat)
    requires i + 2 <= |d|
    ensures v < U16
  {
    d[i] as nat * 0x100 + d[i + 1] as nat
  }

  function Get32(d: Bytes, i: nat): (v: nat)
    requires i + 4 <= |d|
    ensures v < U32
  {
    d[i] as nat * 0x100_0000 + d[i + 1] as nat * 0x1_0000 + d[i + 2] as nat * 0x100 + d[i + 3] as nat
  }

  lemma Digits16(v: nat)
    ensures v % U16 == v / 0x100 % 256 * 0x100 + v % 256
  {
  }

  lemma Halves(v: nat)
    ensures v % U32 == v / 0x1_0000 % U16 * 0x1_0000 + v % U16
  {
  }

  lemma Shifts(v: nat)
    ensures v / 0x1_0000 / 0x100 == v / 0x100_0000
  {
  }

  /** The bytes of a number put together again. */
  lemma Digits(v: nat)
    ensures Lo(v, 0x100_0000) as nat * 0x100_0000 + Lo(v, 0x1_0000) as nat * 0x1_0000 + Lo(v, 0x100) as nat * 0x100
              + Lo(v, 1) as nat == v % U32
    ensures Lo(v, 0x100) as nat * 0x100 + Lo(v, 1) as nat == v % U16
  {
    Digits16(v);
    Digits16(v / 0x1_0000);
    Halves(v);
    Shifts(v);
  }

  /** Overwrite the bytes of `d` from `i` on with `x`. */
  function Put(d: Bytes, i: nat, x: Bytes): (r: Bytes)
    requires i + |x| <= |d|
    ensures |r| == |d|
  {
    d[..i] + x + d[i + |x|..]
  }

  lemma Put16Get(d: Bytes, i: nat, v: nat, j: nat)
    requires i + 2 <= |d| && j + 2 <= |d|
    ensures j == i ==> Get16(Put(d, i, Be16(v)), j) == v % U16
    ensures j + 2 <= i || i + 2 <= j ==> Get16(Put(d, i, Be16(v)), j) == Get16(d, j)
  {
    hide Lo;
    Digits(v);
  }

  lemma Put32Get(d: Bytes, i: nat, v: nat, j: nat)
    requires i + 4 <= |d| && j + 4 <= |d|
    ensures j == i ==> Get32(Put(d, i, Be32(v)), j) == v % U32
    ensures j + 4 <= i || i + 4 <= j ==> Get32(Put(d, i, Be32(v)), j) == Get32(d, j)
  {
    hide Lo;
    Digits(v);
  }

  /** A signed byte. */
  function Signed(b: byte): int {
    if b < 128 then b as int else b as int - 256
  }

  function Unsigned(t: int): byte
    requires -128 <= t < 128
  {
    (if t < 0 then t + 256 else t) as byte
  }

  // ---------------------------------------------------------------- extra fields

  predicate Flag(flags: nat, bit: nat)
    requires bit > 0
  {
    flags / bit % 2 == 1
  }

  function Even(n: nat): nat {
    n + n % 2
  }

  /** Where the extra fields of an entry start: behind name and comment, at an even offset. */
  function ExtraStart(raw: Bytes): nat
    requires |raw| >= 18
  {
    var nend := 18 + raw[17] as nat;
    if nend >= |raw| then |raw| else Even(nend + 1 + raw[nend] as nat)
  }

  /** Take one optional field: its value (zero when absent or cut off) and the next position. */
  function Field(raw: Bytes, flags: nat, bit: nat, width: nat, pos: nat): (nat, nat)
    requires bit > 0 && (width == 2 || width == 4)
  {
    if Flag(flags, bit) && pos + width <= |raw|
    then (if width == 2 then Get16(raw, pos) else Get32(raw, pos), pos + width)
    else (0, pos)
  }

  /** Position after the six fields that may come before the size extension. */
  function ExtensionPos(raw: Bytes, flags: nat, p0: nat): nat {
    var p1 := Field(raw, flags, 0x01, 4, p0).1;
    var p2 := Field(raw, flags, 0x02, 2, p1).1;
    var p3 := Field(raw, flags, 0x04, 2, p2).1;
    var p4 := Field(raw, flags, 0x08, 4, p3).1;
    var p5 := Field(raw, flags, 0x10, 4, p4).1;
    Field(raw, flags, 0x20, 4, p5).1
  }

  function ParseExtra(raw: Bytes): Extra
    requires |raw| >= 18
  {
    var start := ExtraStart(raw);
    if start + 2 > |raw| then NO_EXTRA else
    var flags := Get16(raw, start);
    var (link, p1) := Field(raw, flags, 0x01, 4, start + 2);
    var (uid, p2) := Field(raw, flags, 0x02, 2, p1);
    var (gid, p3) := Field(raw, flags, 0x04, 2, p2);
    var (prot, p4) := Field(raw, flags, 0x08, 4, p3);
    var (virt, p5) := Field(raw, flags, 0x10, 4, p4);
    var (roll, p6) := Field(raw, flags, 0x20, 4, p5);
    var (x, _) := Field(raw, flags, 0x40, 2, p6);
    Extra(link, uid, gid, prot, virt, roll, x)
  }

  /** Where the size extension sits, if the entry has one. */
  function ExtensionAt(raw: Bytes): Option<nat>
    requires |raw| >= 18
  {
    var start := ExtraStart(raw);
    if start + 2 > |raw| then None else
    var p := ExtensionPos(raw, Get16(raw, start), start + 2);
    if Flag(Get16(raw, start), 0x40) && p + 2 <= |raw| then Some(p) else None
  }

  // ---------------------------------------------------------------- parsing

  function Upto(a: nat, b: nat): nat {
    if a <= b then a else b
  }

  function Comment(raw: Bytes): Name
    requires |raw| >= 18
  {
    var off := 18 + raw[17] as nat;
    if off >= |raw| then [] else
    var clen := raw[off] as nat;
    if off + 1 + clen <= |raw| then raw[off + 1..off + 1 + clen] else []
  }

  function ParseRaw(raw: Bytes): Entry
    requires |raw| >= 18
  {
    Entry(raw[0] as nat, Signed(raw[1]), Get32(raw, 2), Get32(raw, 6),
          Stamp(Get16(raw, 10), Get16(raw, 12), Get16(raw, 14)),
          raw[16] as nat, raw[18..Upto(18 + raw[17] as nat, |raw|)], Comment(raw), ParseExtra(raw),
            ExtensionAt(raw).Some?)
  }

  /** Parse the entry at `off`; None at the terminator, the end, or a record that does not fit. */
  function Parse(d: Bytes, off: nat): Option<(Entry, nat)> {
    if off >= |d| || d[off] == 0 then None else
    var end := off + d[off] as nat;
    if end > |d| || d[off] < 18 then None else Some((ParseRaw(d[off..end]), end))
  }

  // ---------------------------------------------------------------- building

  predicate Fields(etype: int, anode: nat, protection: nat, stamp: Stamp) {
    -128 <= etype < 128 && anode < U32 && protection < 256 && stamp.day < U16 && stamp.minute < U16 && stamp.tick < U16
  }

  /** The eighteen fixed bytes of an entry. */
  function FixedBytes(size: nat, etype: int, anode: nat, fsize: nat, stamp: Stamp, protection: nat,
                      nlen: nat): (r: Bytes)
    requires size < 256 && nlen < 256 && Fields(etype, anode, protection, stamp)
    ensures |r| == 18
  {
    [size as byte, Unsigned(etype),
     Lo(anode, 0x100_0000), Lo(anode, 0x1_0000), Lo(anode, 0x100), Lo(anode, 1),
     Lo(fsize, 0x100_0000), Lo(fsize, 0x1_0000), Lo(fsize, 0x100), Lo(fsize, 1),
     Lo(stamp.day, 0x100), Lo(stamp.day, 1), Lo(stamp.minute, 0x100), Lo(stamp.minute, 1),
     Lo(stamp.tick, 0x100), Lo(stamp.tick, 1), protection as byte, nlen as byte]
  }

  /** Behind the name: an empty comment, padding to an even offset, the flags, the size extension. */
  function TailBytes(nlen: nat, x: nat): (r: Bytes) {
    [0] + (if (18 + nlen + 1) % 2 == 1 then [0] else []) + (if x > 0 then Be16(0x40) + Be16(x) else Be16(0))
  }

  function BuildBytes(name: Name, etype: int, anode: nat, fsize: nat, protection: nat, stamp: Stamp): (r: Bytes)
    requires Fields(etype, anode, protection, stamp)
    ensures |r| == EntryLength(Min(|name|, NAME_MAX), SizeHigh(fsize) > 0)
  {
    var nlen := Min(|name|, NAME_MAX);
    var x := SizeHigh(fsize);
    FixedBytes(EntryLength(nlen, x > 0), etype, anode, fsize, stamp, protection,
               nlen) + name[..nlen] + TailBytes(nlen, x)
  }

  lemma FixedParse(size: nat, etype: int, anode: nat, fsize: nat, stamp: Stamp, protection: nat, nlen: nat, rest: Bytes)
    requires size < 256 && nlen < 256 && Fields(etype, anode, protection, stamp)
    ensures var r := FixedBytes(size, etype, anode, fsize, stamp, protection, nlen) + rest;
            && r[0] as nat == size && Signed(r[1]) == etype && Get32(r, 2) == anode && Get32(r, 6) == fsize % U32
            && Get16(r, 10) == stamp.day && Get16(r, 12) == stamp.minute && Get16(r, 14) == stamp.tick
            && r[16] as nat == protection && r[17] as nat == nlen && r[18..] == rest
  {
    hide Lo, Get16, Get32;
    var f := FixedBytes(size, etype, anode, fsize, stamp, protection, nlen);
    var r := f + rest;
    Reads32(r, 2, anode);
    Reads32(r, 6, fsize);
    Reads16(r, 10, stamp.day);
    Reads16(r, 12, stamp.minute);
    Reads16(r, 14, stamp.tick);
  }

  lemma Reads16(d: Bytes, i: nat, v: nat)
    requires i + 2 <= |d| && d[i] == Lo(v, 0x100) && d[i + 1] == Lo(v, 1)
    ensures Get16(d, i) == v % U16
  {
    hide Lo;
    Digits(v);
  }

  lemma Reads32(d: Bytes, i: nat, v: nat)
    requires i + 4 <= |d| && d[i] == Lo(v, 0x100_0000) && d[i + 1] == Lo(v, 0x1_0000) && d[i + 2] == Lo(v, 0x100)
             && d[i + 3] == Lo(v, 1)
    ensures Get32(d, i) == v % U32
  {
    hide Lo;
    Digits(v);
  }

  /** The extra fields of a freshly built entry: nothing but the size extension, if any. */
  lemma TailParse(raw: Bytes, nlen: nat, x: nat)
    requires |raw| >= 18 && raw[17] as nat == nlen && x < U16 && |raw| == 18 + nlen + |TailBytes(nlen, x)|
    requires raw[18 + nlen..] == TailBytes(nlen, x)
    ensures ParseExtra(raw) == NO_EXTRA.(fsizex := x) && ExtensionAt(raw).Some? == (x > 0) && Comment(raw) == []
  {
    var t := TailBytes(nlen, x);
    assert forall i :: 0 <= i < |t| ==> raw[18 + nlen + i] == t[i];
    var start := ExtraStart(raw);
    assert start == Even(18 + nlen + 1);
    assert Get16(raw, start) == if x > 0 then 0x40 else 0;
    Digits(x);
    if x > 0 { assert Get16(raw, start + 2) == x; }
    FlagsClear(if x > 0 then 0x40 else 0);
  }

  lemma FlagsClear(flags: nat)
    requires flags == 0 || flags == 0x40
    ensures !Flag(flags, 1) && !Flag(flags, 2) && !Flag(flags, 4) && !Flag(flags, 8) && !Flag(flags, 0x10)
            && !Flag(flags, 0x20)
    ensures Flag(flags, 0x40) <==> flags == 0x40
  {
  }

  /** Parsing what the writer builds gives back name, type, anode, protection, date and the low 48
      bits of the size, with and without the size extension, for either parity of the name. */
  lemma ParseRawBuilt(name: Name, etype: int, anode: nat, fsize: nat, protection: nat, stamp: Stamp)
    requires Fields(etype, anode, protection, stamp)
    ensures ParseRaw(BuildBytes(name, etype, anode, fsize, protection, stamp))
              == BuildEntry(name, etype, anode, fsize, protection, stamp)
  {
    hide ParseExtra, ExtensionAt, Comment, FixedBytes, TailBytes, Get16, Get32, Signed;
    var nlen, x := Min(|name|, NAME_MAX), SizeHigh(fsize);
    var raw := BuildBytes(name, etype, anode, fsize, protection, stamp);
    FixedParse(EntryLength(nlen, x > 0), etype, anode, fsize, stamp, protection, nlen,
               name[..nlen] + TailBytes(nlen, x));
    assert raw == FixedBytes(EntryLength(nlen, x > 0), etype, anode, fsize, stamp, protection,
                             nlen) + (name[..nlen] + TailBytes(nlen, x));
    assert raw[18..18 + nlen] == name[..nlen];
    assert raw[18 + nlen..] == TailBytes(nlen, x);
    TailParse(raw, nlen, x);
  }

  /** At any place in a block, the entry is found there and the next offset lands right behind it. */
  lemma ParseBuilt(pre: Bytes, post: Bytes, name: Name, etype: int, anode: nat, fsize: nat, protection: nat,
                   stamp: Stamp)
    requires Fields(etype, anode, protection, stamp)
    ensures var e := BuildBytes(name, etype, anode, fsize, protection, stamp);
            Parse(pre + e + post, |pre|) == Some((BuildEntry(name, etype, anode, fsize, protection, stamp),
                                                  |pre| + |e|))
  {
    hide ParseRaw, BuildEntry;
    var e := BuildBytes(name, etype, anode, fsize, protection, stamp);
    ParseRawBuilt(name, etype, anode, fsize, protection, stamp);
    assert e[0] as nat == |e|;
    ParseAt(pre, e, post);
  }

  /** A record carries its own length. */
  predicate SelfSized(raw: Bytes) {
    18 <= |raw| < 256 && raw[0] as nat == |raw|
  }

  lemma ParseAt(pre: Bytes, raw: Bytes, post: Bytes)
    requires SelfSized(raw)
    ensures Parse(pre + raw + post, |pre|) == Some((ParseRaw(raw), |pre| + |raw|))
  {
    hide ParseRaw;
    var d := pre + raw + post;
    assert d[|pre|] == raw[0];
    assert d[|pre|..|pre| + |raw|] == raw;
  }

  // ---------------------------------------------------------------- patching the size

  function PutDates(raw: Bytes, stamp: Stamp): (r: Bytes)
    requires |raw| >= 18
    ensures |r| == |raw|
  {
    Put(Put(Put(raw, 10, Be16(stamp.day)), 12, Be16(stamp.minute)), 14, Be16(stamp.tick))
  }

  function PutExtension(raw: Bytes, at: Option<nat>, x: nat): (r: Bytes)
    requires at.Some? ==> at.value + 2 <= |raw|
    ensures |r| == |raw|
  {
    if at.Some? then Put(raw, at.value, Be16(x)) else raw
  }

  /** A record with its size and date fields overwritten. */
  function PatchRaw(raw: Bytes, n: nat, stamp: Stamp): (r: Bytes)
    requires |raw| >= 18
    ensures |r| == |raw|
  {
    PutDates(PutExtension(Put(raw, 6, Be32(n)), ExtensionAt(raw), SizeHigh(n)), stamp)
  }

  /** The two records agree outside the low size, the dates, and the two bytes at `p`. */
  ghost predicate AgreeBut(a: Bytes, b: Bytes, p: nat) {
    |a| == |b| && forall i :: 0 <= i < |a| && (i < 6 || 16 <= i) && !(p <= i < p + 2) ==> a[i] == b[i]
  }

  lemma ExtensionBehind(raw: Bytes)
    requires |raw| >= 18
    ensures ExtensionAt(raw).Some? ==> ExtensionAt(raw).value >= ExtraStart(raw) + 2
                                       && ExtensionAt(raw).value + 2 <= |raw|
    ensures ExtraStart(raw) >= 18
            && (18 + raw[17] as nat < |raw| ==>
                  ExtraStart(raw) >= 18 + raw[17] as nat + 1 + raw[18 + raw[17] as nat] as nat)
  {
    hide Flag;
  }

  lemma PatchedBytes(raw: Bytes, n: nat, stamp: Stamp)
    requires |raw| >= 18 && stamp.day < U16 && stamp.minute < U16 && stamp.tick < U16
    ensures var r := PatchRaw(raw, n, stamp);
            && AgreeBut(raw, r, if ExtensionAt(raw).Some? then ExtensionAt(raw).value else |raw|)
            && Get32(r, 6) == n % U32 && Get16(r, 10) == stamp.day && Get16(r, 12) == stamp.minute
               && Get16(r, 14) == stamp.tick
            && (ExtensionAt(raw).Some? ==> Get16(r, ExtensionAt(raw).value) == SizeHigh(n))
  {
    ExtensionBehind(raw);
    hide ExtensionAt, ExtraStart, Get16, Get32, Be16, Be32, PutDates, PutExtension, Put;
    var at := ExtensionAt(raw);
    var r1 := Put(raw, 6, Be32(n));
    PutSame(raw, 6, Be32(n));
    Put32Get(raw, 6, n, 6);
    var r2 := PutExtension(r1, at, SizeHigh(n));
    ExtensionBytes(r1, at, SizeHigh(n));
    Kept32(r1, r2, 6);
    DatesBytes(r2, stamp);
    var r3 := PutDates(r2, stamp);
    Kept32(r2, r3, 6);
    if at.Some? { Kept16(r2, r3, at.value); }
  }

  /** Nothing outside the written range changes. */
  lemma PutSame(d: Bytes, i: nat, x: Bytes)
    requires i + |x| <= |d|
    ensures forall j {:trigger Put(d, i, x)[j]} :: 0 <= j < |d| && !(i <= j < i + |x|) ==> Put(d, i, x)[j] == d[j]
  {
  }

  lemma ExtensionBytes(raw: Bytes, at: Option<nat>, x: nat)
    requires (at.Some? ==> at.value + 2 <= |raw|) && x < U16
    ensures var r := PutExtension(raw, at, x);
            && (forall j {:trigger r[j]} :: 0 <= j < |raw| && !(at.Some? && at.value <= j < at.value + 2) ==>
                                              r[j] == raw[j])
            && (at.Some? ==> Get16(r, at.value) == x)
  {
    if at.Some? {
      PutSame(raw, at.value, Be16(x));
      Put16Get(raw, at.value, x, at.value);
    }
  }

  lemma DatesBytes(raw: Bytes, stamp: Stamp)
    requires |raw| >= 18 && stamp.day < U16 && stamp.minute < U16 && stamp.tick < U16
    ensures var r := PutDates(raw, stamp);
            && (forall j {:trigger r[j]} :: 0 <= j < |raw| && !(10 <= j < 16) ==> r[j] == raw[j])
            && Get16(r, 10) == stamp.day && Get16(r, 12) == stamp.minute && Get16(r, 14) == stamp.tick
  {
    hide Get16, Be16, Put;
    var r1 := Put(raw, 10, Be16(stamp.day));
    var r2 := Put(r1, 12, Be16(stamp.minute));
    PutSame(raw, 10, Be16(stamp.day));
    PutSame(r1, 12, Be16(stamp.minute));
    PutSame(r2, 14, Be16(stamp.tick));
    Put16Get(raw, 10, stamp.day, 10);
    Put16Get(r1, 12, stamp.minute, 10);
    Put16Get(r1, 12, stamp.minute, 12);
    Put16Get(r2, 14, stamp.tick, 10);
    Put16Get(r2, 14, stamp.tick, 12);
    Put16Get(r2, 14, stamp.tick, 14);
  }

  lemma Kept16(a: Bytes, b: Bytes, i: nat)
    requires |a| == |b| && i + 2 <= |a| && a[i] == b[i] && a[i + 1] == b[i + 1]
    ensures Get16(b, i) == Get16(a, i)
  {
  }

  lemma Kept32(a: Bytes, b: Bytes, i: nat)
    requires |a| == |b| && i + 4 <= |a| && a[i] == b[i] && a[i + 1] == b[i + 1] && a[i + 2] == b[i + 2]
             && a[i + 3] == b[i + 3]
    ensures Get32(b, i) == Get32(a, i)
  {
  }

  lemma FieldSame(a: Bytes, b: Bytes, flags: nat, bit: nat, width: nat, pos: nat, p: nat)
    requires AgreeBut(a, b, p) && bit > 0 && (width == 2 || width == 4) && 16 <= pos
             && Field(a, flags, bit, width, pos).1 <= p
    ensures Field(b, flags, bit, width, pos) == Field(a, flags, bit, width, pos)
            && Field(a, flags, bit, width, pos).1 >= pos
  {
    hide Flag;
  }

  lemma FieldMonotone(raw: Bytes, flags: nat, bit: nat, width: nat, pos: nat)
    requires bit > 0 && (width == 2 || width == 4)
    ensures Field(raw, flags, bit, width, pos).1 >= pos
  {
    hide Flag;
  }

  /** The fields before the size extension are where and what they were. */
  lemma FieldsSame(a: Bytes, b: Bytes, flags: nat, p0: nat, p: nat)
    requires AgreeBut(a, b, p) && 16 <= p0 && ExtensionPos(a, flags, p0) <= p
    ensures ExtensionPos(b, flags, p0) == ExtensionPos(a, flags, p0)
    ensures var p1 := Field(a, flags, 0x01, 4, p0).1; var p2 := Field(a, flags, 0x02, 2, p1).1;
    var p3 := Field(a, flags, 0x04, 2, p2).1;
            var p4 := Field(a, flags, 0x08, 4, p3).1; var p5 := Field(a, flags, 0x10, 4, p4).1;
            && Field(b, flags, 0x01, 4, p0) == Field(a, flags, 0x01, 4, p0)
               && Field(b, flags, 0x02, 2, p1) == Field(a, flags, 0x02, 2, p1)
            && Field(b, flags, 0x04, 2, p2) == Field(a, flags, 0x04, 2, p2)
               && Field(b, flags, 0x08, 4, p3) == Field(a, flags, 0x08, 4, p3)
            && Field(b, flags, 0x10, 4, p4) == Field(a, flags, 0x10, 4, p4)
               && Field(b, flags, 0x20, 4, p5) == Field(a, flags, 0x20, 4, p5)
  {
    hide Field, AgreeBut;
    var p1 := Field(a, flags, 0x01, 4, p0).1;
    var p2 := Field(a, flags, 0x02, 2, p1).1;
    var p3 := Field(a, flags, 0x04, 2, p2).1;
    var p4 := Field(a, flags, 0x08, 4, p3).1;
    var p5 := Field(a, flags, 0x10, 4, p4).1;
    FieldMonotone(a, flags, 0x20, 4, p5);
    FieldMonotone(a, flags, 0x10, 4, p4);
    FieldMonotone(a, flags, 0x08, 4, p3);
    FieldMonotone(a, flags, 0x04, 2, p2);
    FieldMonotone(a, flags, 0x02, 2, p1);
    FieldMonotone(a, flags, 0x01, 4, p0);
    FieldSame(a, b, flags, 0x01, 4, p0, p);
    FieldSame(a, b, flags, 0x02, 2, p1, p);
    FieldSame(a, b, flags, 0x04, 2, p2, p);
    FieldSame(a, b, flags, 0x08, 4, p3, p);
    FieldSame(a, b, flags, 0x10, 4, p4, p);
    FieldSame(a, b, flags, 0x20, 4, p5, p);
  }

  lemma ExtensionPosMonotone(raw: Bytes, flags: nat, p0: nat)
    ensures ExtensionPos(raw, flags, p0) >= p0
  {
    hide Flag, Get16, Get32;
  }

  lemma AgreeRead16(a: Bytes, b: Bytes, p: nat, i: nat)
    requires AgreeBut(a, b, p) && 16 <= i && i + 2 <= |a| && i + 2 <= p
    ensures Get16(b, i) == Get16(a, i)
  {
  }

  /** Patching changes nothing the parser reads but the size and the date. */
  lemma PatchedExtra(a: Bytes, b: Bytes, x: nat)
    requires |a| >= 18 && AgreeBut(a, b, if ExtensionAt(a).Some? then ExtensionAt(a).value else |a|)
    requires ExtensionAt(a).Some? ==> Get16(b, ExtensionAt(a).value) == x
    ensures ParseExtra(b) == ParseExtra(a).(fsizex := if ExtensionAt(a).Some? then x else 0)
            && ExtensionAt(b) == ExtensionAt(a)
  {
    hide Field;
    ExtensionBehind(a);
    StartSame(a, b);
    var start, p := ExtraStart(a), if ExtensionAt(a).Some? then ExtensionAt(a).value else |a|;
    if start + 2 <= |a| {
      AgreeRead16(a, b, p, start);
      var flags := Get16(a, start);
      ExtensionPosMonotone(a, flags, start + 2);
      PosInside(a, flags, start + 2);
      hide ExtraStart, AgreeBut, Get16, Flag, Field;
      FieldsSame(a, b, flags, start + 2, p);
      LastField(a, b, flags, ExtensionPos(a, flags, start + 2), x);
    }
  }

  lemma LastField(a: Bytes, b: Bytes, flags: nat, p: nat, x: nat)
    requires |a| == |b| && (Flag(flags, 0x40) && p + 2 <= |a| ==> Get16(b, p) == x)
    ensures Field(b, flags, 0x40, 2, p).0 == if Flag(flags, 0x40) && p + 2 <= |a| then x else 0
  {
    hide Flag;
  }

  lemma PosInside(raw: Bytes, flags: nat, p0: nat)
    requires p0 <= |raw|
    ensures ExtensionPos(raw, flags, p0) <= |raw|
  {
    hide Flag, Get16, Get32;
  }

  lemma StartSame(a: Bytes, b: Bytes)
    requires |a| >= 18 && AgreeBut(a, b, if ExtensionAt(a).Some? then ExtensionAt(a).value else |a|)
    ensures |b| == |a| && ExtraStart(b) == ExtraStart(a) && Comment(b) == Comment(a) && b[17] == a[17]
    ensures b[18..Upto(18 + b[17] as nat, |b|)] == a[18..Upto(18 + a[17] as nat, |a|)]
  {
    ExtensionBehind(a);
    hide ExtensionAt;
    assert b[17] == a[17];
    var nend := 18 + a[17] as nat;
    if nend < |a| { assert b[nend] == a[nend]; }
  }

  /** Seen through the parser, patching a record is patching its entry. */
  lemma ParsePatched(raw: Bytes, n: nat, stamp: Stamp)
    requires |raw| >= 18 && stamp.day < U16 && stamp.minute < U16 && stamp.tick < U16
    ensures ParseRaw(PatchRaw(raw, n, stamp)) == PatchSize(ParseRaw(raw), n, stamp)
  {
    PatchedBytes(raw, n, stamp);
    var r := PatchRaw(raw, n, stamp);
    PatchedExtra(raw, r, SizeHigh(n));
    StartSame(raw, r);
    hide PatchRaw, ParseExtra, ExtensionAt, Comment, SizeHigh;
    assert r[0] == raw[0] && r[1] == raw[1] && r[16] == raw[16] && Get32(r, 2) == Get32(raw, 2)
      by { FrontSame(raw, r); }
  }

  lemma FrontSame(a: Bytes, b: Bytes)
    requires |a| >= 18 && AgreeBut(a, b, if ExtensionAt(a).Some? then ExtensionAt(a).value else |a|)
    ensures |b| == |a| && b[0] == a[0] && b[1] == a[1] && b[16] == a[16] && Get32(b, 2) == Get32(a, 2)
  {
    ExtensionBehind(a);
    hide ExtensionAt;
  }
}
