/** Bytes and blocks: every staged write, made in the bytes of a reserved block, decodes to the same
    write made in the typed block. */
module Refine {
  import opened Types
  import opened Codec
  import opened Bitmap
  import opened Transitions
  import opened Directory
  import opened DirBlocks
  import opened Records
  import opened WordBits

  const INDEX_HEADER: nat := 12

  // ---------------------------------------------------------------- what bytes mean

  function EntryBase(i: nat): nat {
    INDEX_HEADER + 4 * i
  }

  ghost predicate SlotsAre(d: Bytes, slots: seq<Slot>) {
    forall o :: 0 <= o < |slots| ==> SlotBase(o) + ANODE_BYTES <= |d| && GetSlot(d, o) == slots[o]
  }

  ghost predicate LinksAre(d: Bytes, es: seq<nat>) {
    forall i :: 0 <= i < |es| ==> EntryBase(i) + 4 <= |d| && Get32(d, EntryBase(i)) == es[i]
  }

  ghost predicate WordsAre(d: Bytes, ws: seq<Word>) {
    WordsAt(d, INDEX_HEADER, ws)
  }

  ghost predicate RecordsAre(d: Bytes, raws: seq<Bytes>, rest: Bytes, es: seq<Entry>) {
    Packed(d, raws, rest) && EntriesOf(raws) == es
  }

  const ANODE_ID: nat := 0x4142
  const INDEX_ID: nat := 0x4942
  const BITMAP_ID: nat := 0x424D
  const BITMAP_INDEX_ID: nat := 0x4D49
  const DIR_ID: nat := 0x4442

  /** The block carries the identifier of its kind, without which readers refuse it. */
  ghost predicate Marked(d: Bytes, blk: Block)
    requires |d| >= 2
  {
    match blk
    case AnodeBlk(_) => Get16(d, 0) == ANODE_ID
    case IndexBlk(_) => Get16(d, 0) == INDEX_ID || Get16(d, 0) == BITMAP_INDEX_ID
    case BitmapBlk(_) => Get16(d, 0) == BITMAP_ID
    case DirBlk(_) => Get16(d, 0) == DIR_ID
  }

  /** The bytes of a reserved block hold this block. */
  ghost predicate Represents(d: Bytes, blk: Block) {
    |d| >= 8 && Marked(d, blk) &&
    match blk
    case AnodeBlk(slots) => SlotsAre(d, slots)
    case IndexBlk(es) => LinksAre(d, es)
    case BitmapBlk(ws) => WordsAre(d, ws)
    case DirBlk(es) => exists raws, rest :: RecordsAre(d, raws, rest, es)
  }

  /** Bytes hold blocks of at most one kind. */
  lemma OneKind(d: Bytes, a: Block, b: Block)
    requires Represents(d, a) && Represents(d, b)
    ensures (a.AnodeBlk? <==> b.AnodeBlk?) && (a.IndexBlk? <==> b.IndexBlk?) && (a.BitmapBlk? <==> b.BitmapBlk?)
            && (a.DirBlk? <==> b.DirBlk?)
  {
    hide SlotsAre, LinksAre, WordsAre, RecordsAre;
  }

  lemma PutKeepsId(d: Bytes, i: nat, x: Bytes)
    requires 2 <= i && i + |x| <= |d|
    ensures Get16(Put(d, i, x), 0) == Get16(d, 0)
  {
  }

  lemma StampedKeepsId(d: Bytes, q: Bytes, ds: nat)
    requires |d| >= DIR_HEADER && |q| >= DIR_HEADER && q[..DIR_HEADER] == Stamped(d[..DIR_HEADER], ds)
    ensures Get16(q, 0) == Get16(d, 0)
  {
    PutKeepsId(d[..DIR_HEADER], 4, Be32(ds));
    assert q[0] == q[..DIR_HEADER][0] && q[1] == q[..DIR_HEADER][1];
    assert d[0] == d[..DIR_HEADER][0] && d[1] == d[..DIR_HEADER][1];
  }

  /** Bytes hold at most one directory, and at most one bitmap or index or anode block of a length. */
  lemma Decodes(d: Bytes, a: Block, b: Block)
    requires Represents(d, a) && Represents(d, b)
    ensures a.DirBlk? && b.DirBlk? ==> a == b
    ensures a.AnodeBlk? && b.AnodeBlk? && |a.slots| == |b.slots| ==> a == b
    ensures a.IndexBlk? && b.IndexBlk? && |a.entries| == |b.entries| ==> a == b
    ensures a.BitmapBlk? && b.BitmapBlk? && |a.words| == |b.words| ==> a == b
  {
    hide Packed, GetSlot, Get32, EntriesOf;
    if a.DirBlk? && b.DirBlk? {
      var raws, rest :| RecordsAre(d, raws, rest, a.ents);
      var raws', rest' :| RecordsAre(d, raws', rest', b.ents);
      ParsePacked(d, raws, rest);
      ParsePacked(d, raws', rest');
    }
    if a.BitmapBlk? && b.BitmapBlk? && |a.words| == |b.words| {
      forall i | 0 <= i < |a.words| ensures a.words[i] == b.words[i] { ValueInjective(a.words[i], b.words[i]); }
    }
  }

  // ---------------------------------------------------------------- the writes

  datatype Edit =
    | PutAnode(o: nat, x: Slot)
    | PutLink(i: nat, nr: nat)
    | PutWords(words: seq<Word>)
    | AddRecord(raw: Bytes)
    | DropRecord(name: Name)
    | PatchNamed(name: Name, n: nat, stamp: Stamp)

  /** The write is meant for a block of this kind. */
  ghost predicate Suits(ed: Edit, blk: Block) {
    match ed
    case PutAnode(o, x) => blk.AnodeBlk? && o < |blk.slots| && Fits32(x)
    case PutLink(i, nr) => blk.IndexBlk? && i < |blk.entries| && nr < U32
    case PutWords(ws) => blk.BitmapBlk? && |ws| == |blk.words| && WordsOk(ws)
    case AddRecord(raw) => blk.DirBlk? && WellRaw(raw)
    case DropRecord(_) => blk.DirBlk?
    case PatchNamed(_, _, stamp) => blk.DirBlk? && stamp.day < U16 && stamp.minute < U16 && stamp.tick < U16
  }

  /** The first entry with this name, or the length. */
  function FirstNamed(es: seq<Entry>, name: Name): (k: nat)
    ensures k <= |es| && (k < |es| ==> NameEqCi(es[k].name, name))
            && forall i :: 0 <= i < k ==> !NameEqCi(es[i].name, name)
  {
    if |es| == 0 then 0
    else
      var k := FirstNamed(es[..|es| - 1], name);
      if k < |es| - 1 then k else if NameEqCi(es[|es| - 1].name, name) then |es| - 1 else |es|
  }

  lemma FirstNamedIs(es: seq<Entry>, name: Name, k: nat)
    requires k <= |es| && (k < |es| ==> NameEqCi(es[k].name, name))
             && forall i :: 0 <= i < k ==> !NameEqCi(es[i].name, name)
    ensures FirstNamed(es, name) == k
  {
    hide FirstNamed, NameEqCi;
  }

  /** The write made in the typed block; None when an entry does not fit or is not there. */
  ghost function Edited(rbs: nat, blk: Block, ed: Edit): Option<Block>
    requires Suits(ed, blk)
  {
    match ed
    case PutAnode(o, x) => Some(AnodeBlk(blk.slots[o := x]))
    case PutLink(i, nr) => Some(IndexBlk(blk.entries[i := nr]))
    case PutWords(ws) => Some(BitmapBlk(ws))
    case AddRecord(raw) => if Fits(rbs, blk.ents, ParseRaw(raw)) then Some(DirBlk(blk.ents + [ParseRaw(raw)])) else None
    case DropRecord(name) =>
      var k := FirstNamed(blk.ents, name);
      if k < |blk.ents| then Some(DirBlk(Without(blk.ents, k))) else None
    case PatchNamed(name, n, stamp) =>
      var k := FirstNamed(blk.ents, name);
      if k < |blk.ents| then Some(DirBlk(blk.ents[k := PatchSize(blk.ents[k], n, stamp)])) else None
  }

  // ---------------------------------------------------------------- block by block

  lemma SlotKeepsId(d: Bytes, o: nat, x: Slot, ds: nat)
    requires SlotBase(o) + ANODE_BYTES <= |d|
    ensures Get16(PutSlot(d, o, x, ds), 0) == Get16(d, 0)
  {
    hide Put, Be32, Get16;
    var b := SlotBase(o);
    var d1 := Put(d, b, Be32(x.size));
    var d2 := Put(d1, b + 4, Be32(x.blk));
    var d3 := Put(d2, b + 8, Be32(x.next));
    PutKeepsId(d, b, Be32(x.size));
    PutKeepsId(d1, b + 4, Be32(x.blk));
    PutKeepsId(d2, b + 8, Be32(x.next));
    PutKeepsId(d3, 4, Be32(ds));
  }

  lemma SlotPut(d: Bytes, slots: seq<Slot>, o: nat, x: Slot, ds: nat)
    requires SlotsAre(d, slots) && o < |slots| && Fits32(x)
    ensures SlotBase(o) + ANODE_BYTES <= |d| && SlotsAre(PutSlot(d, o, x, ds), slots[o := x])
    ensures Get16(PutSlot(d, o, x, ds), 0) == Get16(d, 0)
  {
    SlotKeepsId(d, o, x, ds);
    hide GetSlot, PutSlot;
    forall p | 0 <= p < |slots|
      ensures GetSlot(PutSlot(d, o, x, ds), p) == slots[o := x][p] { PutSlotGet(d, o, x, ds, p); }
  }

  /** Write entry `i` of an index block, then the datestamp. */
  function PutEntry(d: Bytes, i: nat, v: nat, ds: nat): (r: Bytes)
    requires EntryBase(i) + 4 <= |d|
    ensures |r| == |d|
  {
    Put(Put(d, EntryBase(i), Be32(v)), 4, Be32(ds))
  }

  lemma StampKeeps(d: Bytes, ds: nat, i: nat)
    requires 8 <= EntryBase(i) && EntryBase(i) + 4 <= |d|
    ensures Get32(Put(d, 4, Be32(ds)), EntryBase(i)) == Get32(d, EntryBase(i))
  {
    hide Get32, Put, Be32;
    Put32Get(d, 4, ds, EntryBase(i));
  }

  lemma LinkPut(d: Bytes, es: seq<nat>, i: nat, v: nat, ds: nat)
    requires LinksAre(d, es) && i < |es| && v < U32
    ensures EntryBase(i) + 4 <= |d| && LinksAre(PutEntry(d, i, v, ds), es[i := v])
    ensures Get16(PutEntry(d, i, v, ds), 0) == Get16(d, 0)
  {
    hide Get32, Get16, Put, Be32;
    var d1 := Put(d, EntryBase(i), Be32(v));
    PutKeepsId(d, EntryBase(i), Be32(v));
    PutKeepsId(d1, 4, Be32(ds));
    forall j | 0 <= j < |es| ensures Get32(PutEntry(d, i, v, ds), EntryBase(j)) == es[i := v][j] {
      Put32Get(d, EntryBase(i), v, EntryBase(j));
      StampKeeps(d1, ds, j);
    }
  }

  /** The first `n` words have been written. */
  ghost predicate SomeWords(d: Bytes, ws: seq<Word>, n: nat) {
    && n <= |ws| && WordsOk(ws) && (|ws| > 0 ==> EntryBase(|ws| - 1) + 4 <= |d|)
    && forall i :: 0 <= i < n ==> EntryBase(i) + 4 <= |d| && Get32(d, EntryBase(i)) == Value(ws[i])
  }

  /** Write the datestamp, then all words. */
  method PutAllWords(d: Bytes, ws: seq<Word>, ds: nat) returns (r: Bytes)
    requires WordsOk(ws) && |d| >= 8 && (|ws| > 0 ==> EntryBase(|ws| - 1) + 4 <= |d|)
    ensures |r| == |d| && WordsAre(r, ws) && BitsAt(r, INDEX_HEADER, ws) && Get16(r, 0) == Get16(d, 0)
  {
    hide Put, Be32, Get32, Get16, Value, BitsAt;
    PutKeepsId(d, 4, Be32(ds));
    r := Put(d, 4, Be32(ds));
    for i := 0 to |ws|
      invariant |r| == |d| && SomeWords(r, ws, i) && Get16(r, 0) == Get16(d, 0)
    {
      PutKeepsId(r, EntryBase(i), Be32(Value(ws[i])));
      WordBound(ws[i]);
      forall j | 0 <= j <= i ensures Get32(Put(r, EntryBase(i), Be32(Value(ws[i]))), EntryBase(j)) == Value(ws[j]) {
        Put32Get(r, EntryBase(i), Value(ws[i]), EntryBase(j));
      }
      r := Put(r, EntryBase(i), Be32(Value(ws[i])));
    }
    WordsBits(r, INDEX_HEADER, ws);
  }

  lemma RoomForWords(d: Bytes, ws: seq<Word>, n: nat)
    requires WordsAre(d, ws) && n == |ws|
    ensures n > 0 ==> EntryBase(n - 1) + 4 <= |d|
  {
    hide Get32, Value;
  }

  /** Every staged write, made in the bytes of a block, gives the bytes of the block with that write
      made in it; it is refused in the bytes exactly when it is refused in the block. */
  method EditBytes(d: Bytes, ed: Edit, ds: nat, ghost blk: Block) returns (r: Option<Bytes>)
    requires Represents(d, blk) && Suits(ed, blk)
    ensures r.Some? <==> Edited(|d|, blk, ed).Some?
    ensures r.Some? ==> |r.value| == |d| && Represents(r.value, Edited(|d|, blk, ed).value)
  {
    hide SlotsAre, LinksAre, WordsAre, RecordsAre, Get16, PutSlot, PutEntry, FirstNamed, PatchSize, ParseRaw, Fits,
         WellRaw,
         Without;
    match ed
    case PutAnode(o, x) =>
      SlotPut(d, blk.slots, o, x, ds);
      return Some(PutSlot(d, o, x, ds));
    case PutLink(i, nr) =>
      LinkPut(d, blk.entries, i, nr, ds);
      return Some(PutEntry(d, i, nr, ds));
    case PutWords(ws) =>
      RoomForWords(d, blk.words, |ws|);
      var q := PutAllWords(d, ws, ds);
      return Some(q);
    case AddRecord(raw) =>
      r := Add(d, raw, ds, blk.ents);
    case DropRecord(name) =>
      r := Drop(d, name, ds, blk.ents);
    case PatchNamed(name, n, stamp) =>
      r := PatchBytes(d, name, n, stamp, ds, blk.ents);
  }

  method Add(d: Bytes, raw: Bytes, ds: nat, ghost es: seq<Entry>) returns (r: Option<Bytes>)
    requires Represents(d, DirBlk(es)) && WellRaw(raw)
    ensures r.Some? <==> Fits(|d|, es, ParseRaw(raw))
    ensures r.Some? ==> |r.value| == |d| && Represents(r.value, DirBlk(es + [ParseRaw(raw)]))
  {
    hide Packed, EntriesOf, ParseRaw, Fits, WellRaw, Stamped, ParseFrom, Get16;
    ghost var raws, rest :| RecordsAre(d, raws, rest, es);
    ghost var rest';
    r, rest' := InsertRecord(d, raw, ds, raws, rest);
    WellPacked(d, raws, rest);
    if r.Some? { StampedKeepsId(d, r.value, ds); Added(r.value, raws, rest', es, raw); }
  }

  method Drop(d: Bytes, name: Name, ds: nat, ghost es: seq<Entry>) returns (r: Option<Bytes>)
    requires Represents(d, DirBlk(es))
    ensures r.Some? <==> FirstNamed(es, name) < |es|
    ensures r.Some? ==> |r.value| == |d| && Represents(r.value, DirBlk(Without(es, FirstNamed(es, name))))
  {
    hide Packed, EntriesOf, ParseRaw, WellRaw, Stamped, ParseFrom, FirstNamed, NameEqCi, Alike, Without, Get16;
    ghost var raws, rest :| RecordsAre(d, raws, rest, es);
    WellPacked(d, raws, rest);
    var pos, i := FindRecord(d, name, raws, rest);
    FoundFirst(raws, es, name, pos.Some?, i);
    if pos.None? { return None; }
    var q := RemoveRecord(d, pos.value, ds, raws, rest, i);
    StampedKeepsId(d, q, ds);
    Dropped(q, raws, rest, es, i);
    return Some(q);
  }

  method PatchBytes(d: Bytes, name: Name, n: nat, stamp: Stamp, ds: nat, ghost es: seq<Entry>)
      returns (r: Option<Bytes>)
    requires Represents(d, DirBlk(es)) && stamp.day < U16 && stamp.minute < U16 && stamp.tick < U16
    ensures r.Some? <==> FirstNamed(es, name) < |es|
    ensures r.Some? ==> |r.value| == |d| &&
                        Represents(r.value, DirBlk(es[FirstNamed(es, name) := PatchSize(es[FirstNamed(es, name)], n,
                                                            stamp)]))
  {
    hide Packed, EntriesOf, ParseRaw, WellRaw, Stamped, ParseFrom, FirstNamed, NameEqCi, Alike, PatchSize, Get16;
    ghost var raws, rest :| RecordsAre(d, raws, rest, es);
    WellPacked(d, raws, rest);
    var pos, i := FindRecord(d, name, raws, rest);
    FoundFirst(raws, es, name, pos.Some?, i);
    if pos.None? { return None; }
    var q := PatchRecord(d, pos.value, n, stamp, ds, raws, rest, i);
    StampedKeepsId(d, q, ds);
    assert SelfSized(raws[i]) by { DirBlocks.Sized(raws, i); }
    PatchedHere(q, raws, rest, es, i, n, stamp);
    return Some(q);
  }

  lemma WellPacked(d: Bytes, raws: seq<Bytes>, rest: Bytes)
    requires Packed(d, raws, rest)
    ensures AllWell(raws) && |d| >= DIR_HEADER
  {
    hide WellRaw;
  }

  lemma Added(d: Bytes, raws: seq<Bytes>, rest: Bytes, es: seq<Entry>, raw: Bytes)
    requires AllWell(raws) && WellRaw(raw) && EntriesOf(raws) == es && Packed(d, raws + [raw], rest)
    ensures RecordsAre(d, raws + [raw], rest, es + [ParseRaw(raw)])
  {
    hide Packed, EntriesOf, ParseRaw, WellRaw;
    EntriesSnoc(raws, raw);
  }

  lemma FoundFirst(raws: seq<Bytes>, es: seq<Entry>, name: Name, found: bool, i: nat)
    requires AllWell(raws) && EntriesOf(raws) == es && (found <==> HasName(raws, name))
             && (found ==> i < |raws| && NameEqCi(es[i].name, name))
    requires forall j :: 0 <= j < (if found then i else |raws|) && j < |raws| ==> !NameEqCi(es[j].name, name)
    ensures FirstNamed(es, name) == if found then i else |es|
  {
    hide FirstNamed, NameEqCi, ParseRaw, WellRaw;
    FirstNamedIs(es, name, if found then i else |es|);
  }

  lemma Dropped(d: Bytes, raws: seq<Bytes>, rest: Bytes, es: seq<Entry>, i: nat)
    requires AllWell(raws) && EntriesOf(raws) == es && i < |raws|
             && Packed(d, raws[..i] + raws[i + 1..], rest + Zeros(|raws[i]|))
    ensures RecordsAre(d, raws[..i] + raws[i + 1..], rest + Zeros(|raws[i]|), Without(es, i))
  {
    hide Packed, EntriesOf, WellRaw, Zeros;
    EntriesWithout(raws, i);
  }

  lemma PatchedHere(q: Bytes, raws: seq<Bytes>, rest: Bytes, es: seq<Entry>, i: nat, n: nat, stamp: Stamp)
    requires AllWell(raws) && EntriesOf(raws) == es && i < |raws| && SelfSized(raws[i])
             && Packed(q, raws[i := PatchRaw(raws[i], n, stamp)], rest)
    requires ParseFrom(q, DIR_HEADER) == es[i := PatchSize(es[i], n, stamp)]
    ensures RecordsAre(q, raws[i := PatchRaw(raws[i], n, stamp)], rest, es[i := PatchSize(es[i], n, stamp)])
  {
    hide EntriesOf, WellRaw, PatchSize, ParseFrom, PatchRaw;
    ParsePacked(q, raws[i := PatchRaw(raws[i], n, stamp)], rest);
  }

  // ---------------------------------------------------------------- fresh blocks

  /** The header of an anode block: identifier, datestamp, sequence number. */
  function AnodeHeader(ds: nat, seqnr: nat): (r: Bytes)
    ensures |r| == ANODE_HEADER
  {
    [0x41, 0x42, 0, 0] + Be32(ds) + Be32(seqnr) + [0, 0, 0, 0]
  }

  /** The header of a directory block: identifier, datestamp, its directory and the parent. */
  function DirHeader(ds: nat, anode: nat, parent: nat): (r: Bytes)
    ensures |r| == DIR_HEADER
  {
    [0x44, 0x42, 0, 0] + Be32(ds) + [0, 0, 0, 0] + Be32(anode) + Be32(parent)
  }

  /** A new anode block: every slot is vacant. */
  method FreshAnodes(rbs: nat, apb: nat, ds: nat, seqnr: nat) returns (r: Bytes)
    requires SlotBase(apb) <= rbs
    ensures |r| == rbs && Represents(r, AnodeBlk(seq(apb, _ => EMPTY_SLOT)))
  {
    r := AnodeHeader(ds, seqnr) + DirBlocks.Zeros(rbs - ANODE_HEADER);
    hide AnodeHeader;
    forall o | 0 <= o < apb ensures SlotBase(o) + ANODE_BYTES <= |r| && GetSlot(r, o) == EMPTY_SLOT {
      assert forall i :: ANODE_HEADER <= i < rbs ==> r[i] == 0;
    }
  }

  /** A new directory block without entries. */
  method FreshDir(rbs: nat, ds: nat, anode: nat, parent: nat) returns (r: Bytes)
    requires DIR_HEADER < rbs
    ensures |r| == rbs && Represents(r, DirBlk([]))
  {
    var hdr := DirHeader(ds, anode, parent);
    r := hdr + DirBlocks.Zeros(rbs - DIR_HEADER);
    hide DirHeader;
    ghost var rest := DirBlocks.Zeros(rbs - DIR_HEADER);
    assert r[..DIR_HEADER] == hdr && r == hdr + [] + rest && Flatten([]) == [];
    assert RecordsAre(r, [], rest, []);
  }

  /** A new directory block with one entry. */
  method FreshDirWith(rbs: nat, ds: nat, anode: nat, parent: nat, raw: Bytes) returns (r: Bytes)
    requires WellRaw(raw) && DIR_HEADER + |raw| < rbs
    ensures |r| == rbs && Represents(r, DirBlk([ParseRaw(raw)]))
  {
    assert |raw| >= 18;
    hide WellRaw, ParseRaw;
    var hdr := DirHeader(ds, anode, parent);
    r := hdr + raw + DirBlocks.Zeros(rbs - DIR_HEADER - |raw|);
    hide DirHeader;
    ghost var rest := DirBlocks.Zeros(rbs - DIR_HEADER - |raw|);
    FlattenOne(raw);
    assert r[..DIR_HEADER] == hdr;
    assert Packed(r, [raw], rest);
    assert EntriesOf([raw]) == [ParseRaw(raw)];
    assert RecordsAre(r, [raw], rest, [ParseRaw(raw)]);
  }

  // ---------------------------------------------------------------- the whole store

  /** Every block of the store is there in bytes. */
  ghost predicate AllShown(raws: map<nat, Bytes>, view: map<nat, Block>) {
    forall b :: b in view ==> b in raws && Represents(raws[b], view[b])
  }

  /** A staged write to a block of the store, in bytes: the bytes still show the store. */
  method EditStore(raws: map<nat, Bytes>, b: nat, ed: Edit, ds: nat, ghost view: map<nat, Block>)
      returns (r: Option<map<nat, Bytes>>)
    requires AllShown(raws, view) && b in view && Suits(ed, view[b])
    ensures r.Some? <==> Edited(|raws[b]|, view[b], ed).Some?
    ensures r.Some? ==> AllShown(r.value, view[b := Edited(|raws[b]|, view[b], ed).value])
  {
    hide Represents, Suits, Edited;
    var q := EditBytes(raws[b], ed, ds, view[b]);
    if q.None? { return None; }
    return Some(raws[b := q.value]);
  }
}
