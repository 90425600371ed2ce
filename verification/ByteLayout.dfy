/** Where everything is in the bytes of reserved blocks and directory records, offset by offset. */
module ByteLayout {
  import opened Types
  import opened Codec
  import opened Directory
  import opened DirBlocks
  import opened Steps
  import opened Records
  import opened ByteBits
  import opened WordBits
  import opened Refine
  import DiskBytes
  import Format

  /** Four bytes from `at` on, the highest first, make this number. */
  predicate Number(d: Bytes, at: nat, v: nat) {
    at + 4 <= |d| && v == d[at] as nat * 16777216 + d[at + 1] as nat * 65536 + d[at + 2] as nat * 256 + d[at + 3] as nat
  }

  predicate Short(d: Bytes, at: nat, v: nat) {
    at + 2 <= |d| && v == d[at] as nat * 256 + d[at + 1] as nat
  }

  /** An anode block starts with "AB"; each slot takes twelve bytes: size, block, next anode. */
  lemma SlotLayout(d: Bytes, slots: seq<Slot>, o: nat)
    requires Represents(d, AnodeBlk(slots)) && o < |slots|
    ensures d[0] == 0x41 && d[1] == 0x42
    ensures Number(d, 16 + 12 * o, slots[o].size) && Number(d, 20 + 12 * o, slots[o].blk)
            && Number(d, 24 + 12 * o, slots[o].next)
  {
    assert SlotsAre(d, slots);
    assert GetSlot(d, o) == slots[o];
  }

  /** In the first anode block the root directory is slot 5. */
  lemma RootSlotLayout(d: Bytes, rootdir: nat)
    requires Represents(d, AnodeBlk(Format.RootSlots(rootdir)))
    ensures Number(d, 76, 1) && Number(d, 80, rootdir) && Number(d, 84, 0)
  {
    hide Represents;
    SlotLayout(d, Format.RootSlots(rootdir), 5);
  }

  /** A slot counts as vacant exactly when size and block are zero, whatever its next anode. */
  lemma VacantLayout(d: Bytes, slots: seq<Slot>, o: nat)
    requires Represents(d, AnodeBlk(slots)) && o < |slots|
    ensures 24 + 12 * o <= |d| && (Vacant(slots[o]) <==> forall k :: 16 + 12 * o <= k < 24 + 12 * o ==> d[k] == 0)
  {
    SlotLayout(d, slots, o);
    hide Represents;
    var at := 16 + 12 * o;
    if forall k :: at <= k < at + 8 ==> d[k] == 0 {
      assert d[at] == d[at + 1] == d[at + 2] == d[at + 3] == d[at + 4] == d[at + 5] == d[at + 6] == d[at + 7] == 0;
    }
  }

  /** An index block starts with "IB" or "MI"; its entries take four bytes each. */
  lemma IndexLayout(d: Bytes, es: seq<nat>, i: nat)
    requires Represents(d, IndexBlk(es)) && i < |es|
    ensures (d[0] == 0x49 && d[1] == 0x42) || (d[0] == 0x4D && d[1] == 0x49)
    ensures Number(d, 12 + 4 * i, es[i])
  {
    assert LinksAre(d, es);
    assert Get32(d, EntryBase(i)) == es[i];
  }

  /** A bitmap block starts with "BM"; bit `j` of word `i` is one of the bits of byte `12 + 4 * i + j / 8`, the
      highest first. */
  lemma BitmapLayout(d: Bytes, ws: seq<Word>, i: nat, j: nat)
    requires Represents(d, BitmapBlk(ws)) && i < |ws| && j < 32
    ensures d[0] == 0x42 && d[1] == 0x4D
    ensures 12 + 4 * i + 4 <= |d| && (ws[i][j] <==> BitSet(d[12 + 4 * i + j / 8], j % 8))
  {
    assert Get16(d, 0) == 0x424D;
    hide BitSet, Get32, Value;
    WordsBits(d, 12, ws);
    OneBit(d, 12, ws, i, j);
  }

  /** A directory block starts with "DB"; its first record is at byte 20, and a zero there ends it. */
  lemma DirLayout(d: Bytes, es: seq<Entry>)
    requires Represents(d, DirBlk(es))
    ensures d[0] == 0x44 && d[1] == 0x42 && es == ParseFrom(d, 20)
    ensures |d| > 20 ==> (d[20] == 0 <==> es == [])
  {
    assert Get16(d, 0) == 0x4442;
    hide Get16;
    var raws, rest :| RecordsAre(d, raws, rest, es);
    ParsePacked(d, raws, rest);
    if |d| > 20 && es == [] { NoRecords(d, raws, rest); }
  }

  lemma NoRecords(d: Bytes, raws: seq<Bytes>, rest: Bytes)
    requires Packed(d, raws, rest) && |d| > 20 && raws == []
    ensures d[20] == 0
  {
    assert Flatten(raws) == [];
    assert d[20] == rest[0];
  }

  /** Datestamp, free reserved blocks and free data blocks in the root block; behind it, at byte 12 of the
      next sector, the reserved bitmap. */
  lemma RootLayout(d: Bytes, bs: nat, root: Root, i: nat, j: nat)
    requires DiskBytes.RootShown(d, bs, root) && i < |root.res| && j < 32
    ensures Number(d, 8, root.datestamp) && Number(d, 60, root.reservedFree) && Number(d, 68, root.blocksFree)
    ensures bs + 12 + 4 * i + 4 <= |d| && (root.res[i][j] <==> BitSet(d[bs + 12 + 4 * i + j / 8], j % 8))
  {
    assert DiskBytes.CountersAre(d, root.datestamp, root.reservedFree, root.blocksFree);
    hide BitSet, Value;
    WordsBits(d, bs + 12, root.res);
    OneBit(d, bs + 12, root.res, i, j);
  }

  /** The fixed part of a record: its length, type, anode, low size, date, protection and the name. */
  lemma RecordLayout(raw: Bytes)
    requires |raw| >= 18
    ensures var e := ParseRaw(raw);
            && e.entrySize == raw[0] as nat
               && e.entryType == (if raw[1] < 128 then raw[1] as int else raw[1] as int - 256)
            && Number(raw, 2, e.anode) && Number(raw, 6, e.fsize)
            && Short(raw, 10, e.stamp.day) && Short(raw, 12, e.stamp.minute) && Short(raw, 14, e.stamp.tick)
            && e.protection == raw[16] as nat
            && (18 + raw[17] as nat <= |raw| ==> e.name == raw[18..18 + raw[17] as nat])
  {
    hide ParseExtra, ExtensionAt, Comment;
  }

  /** What the writer builds ends in the comment's length and the flags, with the upper size behind them
      where there is one. */
  lemma BuiltLayout(name: Name, etype: int, anode: nat, fsize: nat, protection: nat, stamp: Stamp)
    requires Fields(etype, anode, protection, stamp)
    ensures var raw := BuildBytes(name, etype, anode, fsize, protection, stamp);
            && |raw| % 2 == 0 && |raw| >= 18 + |ShortName(name)| + 3 && raw[0] as nat == |raw|
            && raw[17] as nat == |ShortName(name)| && raw[18..18 + |ShortName(name)|] == ShortName(name)
            && raw[18 + |ShortName(name)|] == 0
            && (etype == ST_USERDIR ==> raw[1] == 2) && (etype == ST_FILE ==> raw[1] == 253)
            && if fsize / 0x1_0000_0000 % 0x1_0000 == 0 then Short(raw, |raw| - 2, 0)
               else Short(raw, |raw| - 4, 0x40) && Short(raw, |raw| - 2, fsize / 0x1_0000_0000 % 0x1_0000)
  {
    hide Lo;
    var x := SizeHigh(fsize);
    Digits(x);
    Digits(0x40);
    Digits(0);
  }

  /** A record with every extra field: link, user, group, protection, virtual size, roll pointer, upper size. */
  lemma ExtraLayout(raw: Bytes, at: nat)
    requires |raw| >= 18 && at == ExtraStart(raw) && at + 24 <= |raw| && Short(raw, at, 0x7F)
    ensures var x := ParseExtra(raw);
            && Number(raw, at + 2, x.link) && Short(raw, at + 6, x.uid) && Short(raw, at + 8, x.gid)
            && Number(raw, at + 10, x.prot) && Number(raw, at + 14, x.virtualsize)
               && Number(raw, at + 18, x.rollpointer)
            && Short(raw, at + 22, x.fsizex)
    ensures ExtensionAt(raw) == Some(at + 22)
  {
    hide ExtraStart;
    AllFlags();
  }

  lemma AllFlags()
    ensures Flag(0x7F, 0x01) && Flag(0x7F, 0x02) && Flag(0x7F, 0x04) && Flag(0x7F, 0x08) && Flag(0x7F, 0x10)
            && Flag(0x7F, 0x20) && Flag(0x7F, 0x40)
  {
  }
}
