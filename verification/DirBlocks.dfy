/** Directory blocks as bytes: packed records behind a header, edited in place, seen through the
    parser as a list of entries. */
module DirBlocks {
  import opened Types
  import opened Directory
  import opened Codec

  // ---------------------------------------------------------------- well-formed records and blocks

  function Wide(flags: nat, bit: nat, width: nat): nat
    requires bit > 0
  {
    if Flag(flags, bit) then width else 0
  }

  /** Bytes the announced fields before the size extension take. */
  function Announced(flags: nat): nat {
    Wide(flags, 0x01, 4) + Wide(flags, 0x02, 2) + Wide(flags, 0x04, 2) + Wide(flags, 0x08, 4) + Wide(flags, 0x10, 4)
      + Wide(flags, 0x20, 4)
  }

  /** A record that carries its length, keeps the next one at an even offset, and has room for its
      name and the fields it announces. */
  predicate WellRaw(raw: Bytes) {
    && SelfSized(raw) && |raw| % 2 == 0 && 18 + raw[17] as nat <= |raw|
    && (ExtraStart(raw) + 2 <= |raw| ==> ExtraStart(raw) + 2 + Announced(Get16(raw, ExtraStart(raw))) <= |raw|)
  }

  predicate AllWell(raws: seq<Bytes>) {
    forall i :: 0 <= i < |raws| ==> WellRaw(raws[i])
  }

  function Flatten(raws: seq<Bytes>): Bytes {
    if |raws| == 0 then [] else Flatten(raws[..|raws| - 1]) + raws[|raws| - 1]
  }

  lemma {:induction false} FlattenAppend(a: seq<Bytes>, b: seq<Bytes>)
    ensures Flatten(a + b) == Flatten(a) + Flatten(b)
  {
    if |b| == 0 {
      assert a + b == a;
    } else {
      assert (a + b)[..|a + b| - 1] == a + b[..|b| - 1];
      FlattenAppend(a, b[..|b| - 1]);
    }
  }

  lemma FlattenOne(r: Bytes)
    ensures Flatten([r]) == r
  {
    assert [r][..0] == [];
  }

  /** Behind the header come the records, then the terminator or the end of the block. */
  ghost predicate Packed(d: Bytes, raws: seq<Bytes>, rest: Bytes) {
    && |d| >= DIR_HEADER && AllWell(raws) && (|rest| > 0 ==> rest[0] == 0)
    && d == d[..DIR_HEADER] + Flatten(raws) + rest
  }

  /** Offset of record `i`. */
  function Pos(raws: seq<Bytes>, i: nat): nat
    requires i <= |raws|
  {
    DIR_HEADER + |Flatten(raws[..i])|
  }

  lemma FlattenSnoc(raws: seq<Bytes>, i: nat)
    requires i < |raws|
    ensures Flatten(raws[..i + 1]) == Flatten(raws[..i]) + raws[i]
  {
    var s := raws[..i + 1];
    assert s[..|s| - 1] == raws[..i] && s[|s| - 1] == raws[i];
  }

  lemma Around(raws: seq<Bytes>, i: nat)
    requires i < |raws|
    ensures Flatten(raws) == Flatten(raws[..i]) + raws[i] + Flatten(raws[i + 1..])
    ensures Flatten(raws[..i + 1]) == Flatten(raws[..i]) + raws[i]
  {
    hide Flatten;
    FlattenSnoc(raws, i);
    assert raws == raws[..i + 1] + raws[i + 1..];
    FlattenAppend(raws[..i + 1], raws[i + 1..]);
  }

  /** A packed block, split at record `i`. */
  lemma SplitAt(d: Bytes, raws: seq<Bytes>, rest: Bytes, i: nat)
    requires Packed(d, raws, rest) && i < |raws|
    ensures Pos(raws, i) + |raws[i]| == Pos(raws, i + 1) <= |d|
    ensures d == d[..Pos(raws, i)] + raws[i] + d[Pos(raws, i + 1)..] && d[Pos(raws, i)..Pos(raws, i + 1)] == raws[i]
    ensures d[..Pos(raws, i)] == d[..DIR_HEADER] + Flatten(raws[..i])
            && d[Pos(raws, i + 1)..] == Flatten(raws[i + 1..]) + rest
  {
    Around(raws, i);
    hide Flatten, AllWell;
    var a, b, c := Flatten(raws[..i]), raws[i], Flatten(raws[i + 1..]);
    Cut(d[..DIR_HEADER], a, b, c, rest);
  }

  lemma Cut(h: Bytes, a: Bytes, b: Bytes, c: Bytes, rest: Bytes)
    ensures var d := h + (a + b + c) + rest; var p, q := |h| + |a|, |h| + |a| + |b|;
            d[..p] == h + a && d[p..q] == b && d[q..] == c + rest && d == d[..p] + b + d[q..]
  {
  }

  lemma EndAt(d: Bytes, raws: seq<Bytes>, rest: Bytes)
    requires Packed(d, raws, rest)
    ensures Pos(raws, |raws|) + |rest| == |d| && d[Pos(raws, |raws|)..] == rest
            && d[..Pos(raws, |raws|)] == d[..DIR_HEADER] + Flatten(raws)
  {
    assert raws[..|raws|] == raws;
    hide Flatten, AllWell;
  }

  // ---------------------------------------------------------------- the parser's view

  function ParseFrom(d: Bytes, off: nat): seq<Entry>
    decreases |d| - off
  {
    match Parse(d, off)
    case None => []
    case Some(p) => assert p.1 > off && p.1 <= |d|; [p.0] + ParseFrom(d, p.1)
  }

  /** Parse all entries of a block. */
  method ParseBlock(d: Bytes) returns (es: seq<Entry>)
    ensures es == ParseFrom(d, DIR_HEADER)
  {
    hide ParseRaw;
    es := [];
    var off := DIR_HEADER;
    while off < |d|
      invariant es + ParseFrom(d, off) == ParseFrom(d, DIR_HEADER)
      decreases |d| - off
    {
      match Parse(d, off)
      case Some(p) =>
        es := es + [p.0];
        off := p.1;
      case None =>
        return;
    }
  }

  function EntriesOf(raws: seq<Bytes>): (es: seq<Entry>)
    requires AllWell(raws)
    ensures |es| == |raws| && forall i :: 0 <= i < |raws| ==> es[i] == ParseRaw(raws[i])
  {
    seq(|raws|, i requires 0 <= i < |raws| => ParseRaw(raws[i]))
  }

  lemma {:induction false} ParsePackedFrom(d: Bytes, raws: seq<Bytes>, rest: Bytes, i: nat)
    requires Packed(d, raws, rest) && i <= |raws|
    ensures ParseFrom(d, Pos(raws, i)) == EntriesOf(raws)[i..]
    decreases |raws| - i
  {
    hide ParseRaw, Flatten, WellRaw;
    if i == |raws| {
      EndAt(d, raws, rest);
      hide Packed;
      assert |rest| > 0 ==> d[Pos(raws, i)] == rest[0];
    } else {
      ParsePackedFrom(d, raws, rest, i + 1);
      SplitAt(d, raws, rest, i);
      assert SelfSized(raws[i]) by { Sized(raws, i); }
      hide Packed, Parse;
      ParseAt(d[..Pos(raws, i)], raws[i], d[Pos(raws, i + 1)..]);
      assert EntriesOf(raws)[i..] == [EntriesOf(raws)[i]] + EntriesOf(raws)[i + 1..];
    }
  }

  lemma Sized(raws: seq<Bytes>, i: nat)
    requires AllWell(raws) && i < |raws|
    ensures SelfSized(raws[i]) && WellRaw(raws[i])
  {
  }

  /** The parser sees exactly the records of a packed block, in order. */
  lemma ParsePacked(d: Bytes, raws: seq<Bytes>, rest: Bytes)
    requires Packed(d, raws, rest)
    ensures ParseFrom(d, DIR_HEADER) == EntriesOf(raws)
  {
    ParsePackedFrom(d, raws, rest, 0);
    assert Pos(raws, 0) == DIR_HEADER by { assert raws[..0] == []; }
    assert EntriesOf(raws)[0..] == EntriesOf(raws);
  }

  /** Bytes in use, as the entries' own sizes say. */
  lemma {:induction false} UsedBytes(raws: seq<Bytes>)
    requires AllWell(raws)
    ensures Used(EntriesOf(raws)) == DIR_HEADER + |Flatten(raws)|
  {
    hide ParseExtra, ExtensionAt, Comment;
    if |raws| > 0 {
      var n := |raws| - 1;
      UsedBytes(raws[..n]);
      assert EntriesOf(raws)[..n] == EntriesOf(raws[..n]);
      Sized(raws, n);
    }
  }

  // ---------------------------------------------------------------- scanning

  /** The offset behind the last record. */
  method FindEnd(d: Bytes, ghost raws: seq<Bytes>, ghost rest: Bytes) returns (pos: nat)
    requires Packed(d, raws, rest)
    ensures pos == Pos(raws, |raws|)
  {
    hide Flatten, WellRaw, AllWell;
    ghost var i := 0;
    pos := DIR_HEADER;
    assert raws[..0] == [] && Flatten([]) == [] by { EmptyFlatten(); }
    EndAt(d, raws, rest);
    while pos < |d|
      invariant i <= |raws| && pos == Pos(raws, i)
      decreases |d| - pos
    {
      if i < |raws| {
        SplitAt(d, raws, rest, i);
        Sized(raws, i);
        assert d[pos] == raws[i][0];
      } else {
        assert d[pos] == rest[0];
      }
      if d[pos] == 0 { break; }
      pos := pos + d[pos] as nat;
      i := i + 1;
    }
    if i < |raws| {
      SplitAt(d, raws, rest, i);
      Sized(raws, i);
    }
  }

  lemma EmptyFlatten()
    ensures Flatten([]) == []
  {
  }

  ghost predicate HasName(raws: seq<Bytes>, name: Name)
    requires AllWell(raws)
  {
    exists j :: 0 <= j < |raws| && NameEqCi(EntriesOf(raws)[j].name, name)
  }

  /** The first record with this name, ignoring case: its index and offset. */
  method FindRecord(d: Bytes, name: Name, ghost raws: seq<Bytes>, ghost rest: Bytes)
      returns (r: Option<nat>, ghost i: nat)
    requires Packed(d, raws, rest)
    ensures r.Some? <==> HasName(raws, name)
    ensures r.Some? ==> i < |raws| && r.value == Pos(raws, i) && NameEqCi(EntriesOf(raws)[i].name, name)
    ensures forall j :: 0 <= j < (if r.Some? then i else |raws|) && j < |raws| ==>
                          !NameEqCi(EntriesOf(raws)[j].name, name)
    ensures r.Some? ==> Alike(EntriesOf(raws)[i].name, name)
    ensures forall j :: 0 <= j < (if r.Some? then i else |raws|) && j < |raws| ==>
                          !Alike(EntriesOf(raws)[j].name, name)
  {
    hide Flatten, WellRaw, ParseRaw, NameEqCi, Alike;
    forall j | 0 <= j < |raws| ensures NameEqCi(EntriesOf(raws)[j].name, name) <==>
      Alike(EntriesOf(raws)[j].name, name) {
      SameNameIff(EntriesOf(raws)[j].name, name);
    }
    i := 0;
    var pos := DIR_HEADER;
    assert raws[..0] == [] && Flatten([]) == [] by { EmptyFlatten(); }
    EndAt(d, raws, rest);
    while pos < |d|
      invariant i <= |raws| && pos == Pos(raws, i)
      invariant forall j :: 0 <= j < i ==> !NameEqCi(EntriesOf(raws)[j].name, name)
      decreases |d| - pos
    {
      if i < |raws| {
        SplitAt(d, raws, rest, i);
        Sized(raws, i);
        RecordName(d, pos, raws[i]);
      } else {
        assert d[pos] == rest[0];
      }
      if d[pos] == 0 { break; }
      var nlen := d[pos + 17] as nat;
      if NameEqCi(d[pos + 18..pos + 18 + nlen], name) {
        assert NameEqCi(EntriesOf(raws)[i].name, name);
        return Some(pos), i;
      }
      pos := pos + d[pos] as nat;
      i := i + 1;
    }
    if i < |raws| {
      SplitAt(d, raws, rest, i);
      Sized(raws, i);
    }
    return None, i;
  }

  lemma RecordName(d: Bytes, pos: nat, raw: Bytes)
    requires WellRaw(raw) && pos + |raw| <= |d| && d[pos..pos + |raw|] == raw
    ensures pos < |d| && d[pos] as nat == |raw| && d[pos] != 0 && pos + 18 + d[pos + 17] as nat <= |d|
    ensures d[pos + 18..pos + 18 + d[pos + 17] as nat] == ParseRaw(raw).name
  {
    hide ParseExtra, ExtensionAt, Comment, Get16, Get32;
    assert forall i :: 0 <= i < |raw| ==> d[pos + i] == raw[i];
  }

  // ---------------------------------------------------------------- inserting

  ghost function Stamped(hdr: Bytes, ds: nat): Bytes
    requires |hdr| == DIR_HEADER
  {
    Put(hdr, 4, Be32(ds))
  }

  /** Append a record when it fits with the terminator behind it. */
  method InsertRecord(d: Bytes, e: Bytes, ds: nat, ghost raws: seq<Bytes>, ghost rest: Bytes)
      returns (r: Option<Bytes>, ghost rest': Bytes)
    requires Packed(d, raws, rest) && WellRaw(e)
    ensures r.Some? <==> Fits(|d|, EntriesOf(raws), ParseRaw(e))
    ensures r.Some? ==> |r.value| == |d| && |rest'| > 0 && Packed(r.value, raws + [e], rest')
                        && r.value[..DIR_HEADER] == Stamped(d[..DIR_HEADER], ds)
    ensures r.Some? ==> ParseFrom(r.value, DIR_HEADER) == ParseFrom(d, DIR_HEADER) + [ParseRaw(e)]
  {
    hide WellRaw, ParseRaw, Fits, Parse, ParseFrom;
    var pos := FindEnd(d, raws, rest);
    EndAt(d, raws, rest);
    FitsBytes(d, raws, e);
    rest' := rest;
    if pos + |e| < |d| {
      var data := Put(d, pos, e);
      data := data[pos + |e| := 0];
      data := Put(data, 4, Be32(ds));
      rest' := [0] + rest[|e| + 1..];
      InsertedBytes(d, raws, rest, e, ds, data);
      ParsePacked(d, raws, rest);
      ParsePacked(data, raws + [e], rest');
      EntriesSnoc(raws, e);
      return Some(data), rest';
    }
    return None, rest';
  }

  lemma FitsBytes(d: Bytes, raws: seq<Bytes>, e: Bytes)
    requires AllWell(raws) && WellRaw(e)
    ensures Fits(|d|, EntriesOf(raws), ParseRaw(e)) <==> Pos(raws, |raws|) + |e| < |d|
  {
    UsedBytes(raws);
    assert raws[..|raws|] == raws;
    hide ParseExtra, ExtensionAt, Comment, Used, Flatten;
  }

  lemma EntriesSnoc(raws: seq<Bytes>, e: Bytes)
    requires AllWell(raws) && WellRaw(e)
    ensures AllWell(raws + [e]) && EntriesOf(raws + [e]) == EntriesOf(raws) + [ParseRaw(e)]
  {
    hide WellRaw, ParseRaw;
  }

  lemma InsertedBytes(d: Bytes, raws: seq<Bytes>, rest: Bytes, e: Bytes, ds: nat, data: Bytes)
    requires Packed(d, raws, rest) && WellRaw(e) && |e| < |rest|
    requires var pos := Pos(raws, |raws|); pos + |e| < |d| && data == Put(Put(d, pos, e)[pos + |e| := 0], 4, Be32(ds))
    ensures Packed(data, raws + [e], [0] + rest[|e| + 1..]) && |data| == |d|
            && data[..DIR_HEADER] == Stamped(d[..DIR_HEADER], ds)
  {
    EndAt(d, raws, rest);
    FlattenAppend(raws, [e]);
    FlattenOne(e);
    assert AllWell(raws + [e]) by { EntriesSnoc(raws, e); }
    assert raws[..|raws|] == raws;
    hide Flatten, WellRaw, AllWell, Be32;
    InsertedSeq(d[..DIR_HEADER], Flatten(raws), rest, e, Be32(ds));
  }

  lemma InsertedSeq(h: Bytes, f: Bytes, rest: Bytes, e: Bytes, x: Bytes)
    requires |h| == DIR_HEADER && |e| < |rest| && |x| == 4
    ensures var d := h + f + rest; var pos := |h| + |f|; var data := Put(Put(d, pos, e)[pos + |e| := 0], 4, x);
            data == Put(h, 4, x) + (f + e) + ([0] + rest[|e| + 1..]) && data[..DIR_HEADER] == Put(h, 4, x)
  {
  }

  // ---------------------------------------------------------------- removing

  function Zeros(n: nat): Bytes {
    seq(n, _ => 0)
  }

  /** Close the gap of the record at `pos` and clear the bytes that become free at the end. */
  method RemoveRecord(d: Bytes, pos: nat, ds: nat, ghost raws: seq<Bytes>, ghost rest: Bytes, ghost i: nat)
      returns (r: Bytes)
    requires Packed(d, raws, rest) && i < |raws| && pos == Pos(raws, i)
    ensures |r| == |d| && Packed(r, raws[..i] + raws[i + 1..], rest + Zeros(|raws[i]|))
            && r[..DIR_HEADER] == Stamped(d[..DIR_HEADER], ds)
    ensures ParseFrom(d, DIR_HEADER) == EntriesOf(raws)
            && ParseFrom(r, DIR_HEADER) == EntriesOf(raws)[..i] + EntriesOf(raws)[i + 1..]
  {
    hide WellRaw, ParseRaw, Parse, ParseFrom, Flatten;
    SplitAt(d, raws, rest, i);
    Sized(raws, i);
    assert pos < |d| && d[pos] as nat == |raws[i]| by { RecordName(d, pos, raws[i]); }
    var esize := d[pos] as nat;
    var end := pos + esize;
    r := d[..pos] + d[end..] + Zeros(esize);
    r := Put(r, 4, Be32(ds));
    RemovedBytes(d, raws, rest, i, ds, r);
    ParsePacked(d, raws, rest);
    ParsePacked(r, raws[..i] + raws[i + 1..], rest + Zeros(|raws[i]|));
    EntriesWithout(raws, i);
  }

  lemma EntriesWithout(raws: seq<Bytes>, i: nat)
    requires AllWell(raws) && i < |raws|
    ensures AllWell(raws[..i] + raws[i + 1..])
            && EntriesOf(raws[..i] + raws[i + 1..]) == EntriesOf(raws)[..i] + EntriesOf(raws)[i + 1..]
  {
    hide WellRaw, ParseRaw;
  }

  lemma RemovedBytes(d: Bytes, raws: seq<Bytes>, rest: Bytes, i: nat, ds: nat, r: Bytes)
    requires Packed(d, raws, rest) && i < |raws| && Pos(raws, i) + |raws[i]| <= |d|
    requires r == Put(d[..Pos(raws, i)] + d[Pos(raws, i) + |raws[i]|..] + Zeros(|raws[i]|), 4, Be32(ds))
    ensures Packed(r, raws[..i] + raws[i + 1..], rest + Zeros(|raws[i]|))
            && r[..DIR_HEADER] == Stamped(d[..DIR_HEADER], ds)
  {
    SplitAt(d, raws, rest, i);
    FlattenAppend(raws[..i], raws[i + 1..]);
    EntriesWithout(raws, i);
    hide Flatten, WellRaw, AllWell, Be32;
    RemovedSeq(d[..DIR_HEADER], Flatten(raws[..i]), Flatten(raws[i + 1..]), rest, Zeros(|raws[i]|), Be32(ds));
  }

  lemma RemovedSeq(h: Bytes, a: Bytes, c: Bytes, rest: Bytes, z: Bytes, x: Bytes)
    requires |h| == DIR_HEADER && |x| == 4
    ensures Put((h + a) + (c + rest) + z, 4, x) == Put(h, 4, x) + (a + c) + (rest + z)
    ensures Put((h + a) + (c + rest) + z, 4, x)[..DIR_HEADER] == Put(h, 4, x)
  {
  }

  // ---------------------------------------------------------------- patching

  /** Step over a field that the flags announce; None once the record's end is passed. */
  function Skip(fp: Option<nat>, flags: nat, bit: nat, width: nat, end: nat): Option<nat>
    requires bit > 0
  {
    if fp.None? || !Flag(flags, bit) then fp
    else if fp.value + width > end then None else Some(fp.value + width)
  }

  function SkipAll(fp: nat, flags: nat, end: nat): Option<nat> {
    Skip(Skip(Skip(Skip(Skip(Skip(Some(fp), flags, 0x01, 4, end), flags, 0x02, 2, end), flags, 0x04, 2, end), flags,
                   0x08, 4, end),
              flags, 0x10, 4, end), flags, 0x20, 4, end)
  }

  /** Where the size patcher, walking the block itself, finds the size extension of the record at
      `pos`. It aligns on block offsets where the parser aligns on record offsets. */
  function PatchAt(d: Bytes, pos: nat): Option<nat>
    requires pos + 18 <= |d| && pos + d[pos] as nat <= |d|
  {
    var end, coff := pos + d[pos] as nat, pos + 18 + d[pos + 17] as nat;
    if coff >= end then None else
    var fp := Even(coff + 1 + d[coff] as nat);
    if fp + 2 > end then None else
    var flags := Get16(d, fp);
    var q := SkipAll(fp + 2, flags, end);
    if q.Some? && Flag(flags, 0x40) && q.value + 2 <= end then q else None
  }

  function Shift(at: Option<nat>, pos: nat): Option<nat> {
    if at.Some? then Some(at.value + pos) else None
  }

  lemma WalksAgree(raw: Bytes, flags: nat, p: nat, pos: nat)
    requires p + Announced(flags) <= |raw|
    ensures ExtensionPos(raw, flags, p) == p + Announced(flags)
            && SkipAll(p + pos, flags, pos + |raw|) == Some(p + Announced(flags) + pos)
  {
    hide Flag, Get16, Get32;
  }

  /** On well-formed records at even offsets patcher and parser agree on the size extension. */
  lemma PatchAgrees(d: Bytes, pos: nat, raw: Bytes)
    requires WellRaw(raw) && pos % 2 == 0 && pos + |raw| <= |d| && d[pos..pos + |raw|] == raw
    ensures d[pos] as nat == |raw| && PatchAt(d, pos) == Shift(ExtensionAt(raw), pos)
  {
    hide Announced, ExtensionPos, SkipAll, Flag, Get16, Even;
    ByteOf(d, pos, raw, 0);
    ByteOf(d, pos, raw, 17);
    var nend := 18 + raw[17] as nat;
    if nend < |raw| {
      ByteOf(d, pos, raw, nend);
      var start := ExtraStart(raw);
      EvenShift(nend + 1 + raw[nend] as nat, pos);
      if start + 2 <= |raw| {
        WordOf(d, pos, raw, start);
        WalksAgree(raw, Get16(raw, start), start + 2, pos);
      }
    }
  }

  lemma ByteOf(d: Bytes, pos: nat, raw: Bytes, i: nat)
    requires pos + |raw| <= |d| && d[pos..pos + |raw|] == raw && i < |raw|
    ensures d[pos + i] == raw[i]
  {
  }

  lemma WordOf(d: Bytes, pos: nat, raw: Bytes, i: nat)
    requires pos + |raw| <= |d| && d[pos..pos + |raw|] == raw && i + 2 <= |raw|
    ensures Get16(d, i + pos) == Get16(raw, i)
  {
    ByteOf(d, pos, raw, i);
    ByteOf(d, pos, raw, i + 1);
  }

  lemma EvenShift(n: nat, pos: nat)
    requires pos % 2 == 0
    ensures Even(n + pos) == Even(n) + pos
  {
  }

  lemma {:induction false} EvenPos(raws: seq<Bytes>, i: nat)
    requires AllWell(raws) && i <= |raws|
    ensures Pos(raws, i) % 2 == 0
  {
    if i == 0 {
      assert raws[..0] == [];
    } else {
      EvenPos(raws, i - 1);
      FlattenSnoc(raws, i - 1);
      Sized(raws, i - 1);
    }
  }

  /** Overwrite size and date of the record at `pos`, in the block. */
  method PatchRecord(d: Bytes, pos: nat, n: nat, stamp: Stamp, ds: nat, ghost raws: seq<Bytes>, ghost rest: Bytes,
                     ghost i: nat) returns (r: Bytes)
    requires Packed(d, raws, rest) && i < |raws| && pos == Pos(raws, i) && stamp.day < U16 && stamp.minute < U16
             && stamp.tick < U16
    ensures |r| == |d| && Packed(r, raws[i := PatchRaw(raws[i], n, stamp)], rest)
            && r[..DIR_HEADER] == Stamped(d[..DIR_HEADER], ds)
    ensures ParseFrom(d, DIR_HEADER) == EntriesOf(raws)
            && ParseFrom(r, DIR_HEADER) == EntriesOf(raws)[i := PatchSize(EntriesOf(raws)[i], n, stamp)]
  {
    hide WellRaw, ParseRaw, Parse, ParseFrom, Flatten, PatchAt, ExtensionAt, Be16, Be32, SizeHigh, PatchSize, Put;
    SplitAt(d, raws, rest, i);
    Sized(raws, i);
    EvenPos(raws, i);
    ghost var raw := raws[i];
    ghost var pre, post := d[..pos], d[Pos(raws, i + 1)..];
    assert SelfSized(raw) && d[pos] as nat == |raw| by { RecordName(d, pos, raw); }
    PatchAgrees(d, pos, raw);
    ExtensionBehind(raw);
    hide SelfSized, Packed, AllWell, Pos;
    r := d;
    PutInside(pre, raw, post, 6, Be32(n));
    r := Put(r, pos + 6, Be32(n));
    ghost var raw1 := Put(raw, 6, Be32(n));
    var at := PatchAt(d, pos);
    if at.Some? {
      PutInside(pre, raw1, post, at.value - pos, Be16(SizeHigh(n)));
      r := Put(r, at.value, Be16(SizeHigh(n)));
    }
    ghost var raw2 := PutExtension(raw1, ExtensionAt(raw), SizeHigh(n));
    PutInside(pre, raw2, post, 10, Be16(stamp.day));
    r := Put(r, pos + 10, Be16(stamp.day));
    ghost var raw3 := Put(raw2, 10, Be16(stamp.day));
    PutInside(pre, raw3, post, 12, Be16(stamp.minute));
    r := Put(r, pos + 12, Be16(stamp.minute));
    ghost var raw4 := Put(raw3, 12, Be16(stamp.minute));
    PutInside(pre, raw4, post, 14, Be16(stamp.tick));
    r := Put(r, pos + 14, Be16(stamp.tick));
    r := Put(r, 4, Be32(ds));
    PatchedBlock(d, raws, rest, i, n, stamp, ds, r);
  }

  lemma PutInside(pre: Bytes, raw: Bytes, post: Bytes, i: nat, x: Bytes)
    requires i + |x| <= |raw|
    ensures Put(pre + raw + post, |pre| + i, x) == pre + Put(raw, i, x) + post
  {
  }

  lemma {:induction false} FlattenUpdate(raws: seq<Bytes>, i: nat, raw: Bytes)
    requires i < |raws|
    ensures Flatten(raws[i := raw]) == Flatten(raws[..i]) + raw + Flatten(raws[i + 1..])
  {
    hide Flatten;
    Around(raws[i := raw], i);
    assert raws[i := raw][..i] == raws[..i] && raws[i := raw][i + 1..] == raws[i + 1..];
  }

  lemma PatchedBlock(d: Bytes, raws: seq<Bytes>, rest: Bytes, i: nat, n: nat, stamp: Stamp, ds: nat, r: Bytes)
    requires Packed(d, raws, rest) && i < |raws| && Pos(raws, i) + |raws[i]| <= |d| && WellRaw(raws[i])
    requires stamp.day < U16 && stamp.minute < U16 && stamp.tick < U16
    requires r == Put(d[..Pos(raws, i)] + PatchRaw(raws[i], n, stamp) + d[Pos(raws, i) + |raws[i]|..], 4, Be32(ds))
    ensures |r| == |d| && Packed(r, raws[i := PatchRaw(raws[i], n, stamp)], rest)
            && r[..DIR_HEADER] == Stamped(d[..DIR_HEADER], ds)
    ensures ParseFrom(d, DIR_HEADER) == EntriesOf(raws)
            && ParseFrom(r, DIR_HEADER) == EntriesOf(raws)[i := PatchSize(EntriesOf(raws)[i], n, stamp)]
  {
    hide WellRaw, ParseRaw, Parse, ParseFrom, Flatten, PatchSize, PatchRaw, Be32, Put, Packed, Pos, Stamped, AllWell;
    PackedWell(d, raws, rest);
    Sized(raws, i);
    var raw' := PatchRaw(raws[i], n, stamp);
    PatchedWell(raws[i], n, stamp);
    ParsePatched(raws[i], n, stamp);
    ReplacedBytes(d, raws, rest, i, raw', ds, r);
    EntriesUpdate(raws, i, raw');
    ParsePacked(d, raws, rest);
    ParsePacked(r, raws[i := raw'], rest);
  }

  lemma PackedWell(d: Bytes, raws: seq<Bytes>, rest: Bytes)
    requires Packed(d, raws, rest)
    ensures AllWell(raws) && |d| >= DIR_HEADER
  {
  }

  lemma EntriesUpdate(raws: seq<Bytes>, i: nat, raw: Bytes)
    requires AllWell(raws) && i < |raws| && WellRaw(raw)
    ensures AllWell(raws[i := raw]) && EntriesOf(raws[i := raw]) == EntriesOf(raws)[i := ParseRaw(raw)]
            && EntriesOf(raws)[i] == ParseRaw(raws[i])
  {
    hide WellRaw, ParseRaw;
  }

  lemma ReplacedBytes(d: Bytes, raws: seq<Bytes>, rest: Bytes, i: nat, raw: Bytes, ds: nat, r: Bytes)
    requires Packed(d, raws, rest) && i < |raws| && Pos(raws, i) + |raws[i]| <= |d| && WellRaw(raw)
             && |raw| == |raws[i]|
    requires r == Put(d[..Pos(raws, i)] + raw + d[Pos(raws, i) + |raws[i]|..], 4, Be32(ds))
    ensures |r| == |d| && Packed(r, raws[i := raw], rest) && r[..DIR_HEADER] == Stamped(d[..DIR_HEADER], ds)
  {
    SplitAt(d, raws, rest, i);
    FlattenUpdate(raws, i, raw);
    EntriesUpdate(raws, i, raw);
    hide Flatten, WellRaw, AllWell, Be32;
    ReplacedSeq(d[..DIR_HEADER], Flatten(raws[..i]), raw, Flatten(raws[i + 1..]), rest, Be32(ds));
  }

  lemma ReplacedSeq(h: Bytes, a: Bytes, b: Bytes, c: Bytes, rest: Bytes, x: Bytes)
    requires |h| == DIR_HEADER && |x| == 4
    ensures Put((h + a) + b + (c + rest), 4, x) == Put(h, 4, x) + (a + b + c) + rest
    ensures Put((h + a) + b + (c + rest), 4, x)[..DIR_HEADER] == Put(h, 4, x)
  {
  }

  /** Patching keeps a record well formed. */
  lemma PatchedWell(raw: Bytes, n: nat, stamp: Stamp)
    requires WellRaw(raw) && stamp.day < U16 && stamp.minute < U16 && stamp.tick < U16
    ensures WellRaw(PatchRaw(raw, n, stamp))
  {
    var r := PatchRaw(raw, n, stamp);
    PatchedBytes(raw, n, stamp);
    StartSame(raw, r);
    FrontSame(raw, r);
    ExtensionBehind(raw);
    hide PatchRaw, ExtensionAt, Announced;
    var start, p := ExtraStart(raw), if ExtensionAt(raw).Some? then ExtensionAt(raw).value else |raw|;
    if start + 2 <= |raw| { AgreeRead16(raw, r, p, start); }
  }

  /** Records the writer builds are well formed. */
  lemma BuiltWell(name: Name, etype: int, anode: nat, fsize: nat, protection: nat, stamp: Stamp)
    requires Fields(etype, anode, protection, stamp)
    ensures WellRaw(BuildBytes(name, etype, anode, fsize, protection, stamp))
  {
    var nlen, x := Min(|name|, NAME_MAX), SizeHigh(fsize);
    var raw := BuildBytes(name, etype, anode, fsize, protection, stamp);
    hide FixedBytes, TailBytes, Get16, Get32, Announced, ExtraStart, Signed, SizeHigh;
    EvenLength(nlen, x > 0);
    hide EntryLength;
    FixedParse(EntryLength(nlen, x > 0), etype, anode, fsize, stamp, protection, nlen,
               name[..nlen] + TailBytes(nlen, x));
    assert raw == FixedBytes(EntryLength(nlen, x > 0), etype, anode, fsize, stamp, protection,
                             nlen) + (name[..nlen] + TailBytes(nlen, x));
    assert raw[18 + nlen..] == TailBytes(nlen, x);
    TailFlags(raw, nlen, x);
  }

  lemma EvenLength(nlen: nat, wide: bool)
    ensures EntryLength(nlen, wide) % 2 == 0
  {
  }

  lemma TailFlags(raw: Bytes, nlen: nat, x: nat)
    requires |raw| >= 18 && raw[17] as nat == nlen && x < U16 && |raw| == 18 + nlen + |TailBytes(nlen, x)|
    requires raw[18 + nlen..] == TailBytes(nlen, x)
    ensures ExtraStart(raw) + 2 <= |raw| && Announced(Get16(raw, ExtraStart(raw))) == 0
  {
    var t := TailBytes(nlen, x);
    assert forall i :: 0 <= i < |t| ==> raw[18 + nlen + i] == t[i];
    var start := ExtraStart(raw);
    assert start == Even(18 + nlen + 1);
    assert Get16(raw, start) == if x > 0 then 0x40 else 0;
    FlagsClear(if x > 0 then 0x40 else 0);
  }
}
