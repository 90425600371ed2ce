/** Value types shared by every layer: bytes, names, anode slots, parsed directory
    entries, typed reserved blocks and the geometry of a volume. */
module Types {

  newtype byte = x: int | 0 <= x < 256

  type Bytes = seq<byte>

  /** File names are byte strings: Latin-1 decoding maps each byte to one character. */
  type Name = seq<byte>

  datatype Option<+T> = None | Some(value: T)

  datatype Error = AnodeNotFound | InvalidPartition | NotFound | DiskFull | NotEmpty | NotADirectory

  datatype Result<+T> = Ok(value: T) | Err(error: Error)

  const ANODE_EOF: nat := 0
  const ANODE_ROOTDIR: nat := 5
  const ANODE_USERFIRST: nat := 6

  const ST_FILE: int := -3
  const ST_USERDIR: int := 2
  const ST_ROLLOVERFILE: int := -16

  const U16: nat := 0x1_0000
  const U32: nat := 0x1_0000_0000

  /** One anode record: an extent of `size` blocks from `blk`, and the next anode. */
  datatype Slot = Slot(size: nat, blk: nat, next: nat)

  const EMPTY_SLOT := Slot(0, 0, 0)

  /** The allocator treats a slot as free when size and block are both zero. */
  predicate Vacant(s: Slot) {
    s.size == 0 && s.blk == 0
  }

  datatype Extra = Extra(link: nat, uid: nat, gid: nat, prot: nat,
                         virtualsize: nat, rollpointer: nat, fsizex: nat)

  const NO_EXTRA := Extra(0, 0, 0, 0, 0, 0, 0)

  datatype Stamp = Stamp(day: nat, minute: nat, tick: nat)

  /** A parsed directory entry. `carriesX` records whether the extended size field is
      physically present; the parser's own record does not keep that bit, but the
      size patcher depends on it. */
  datatype Entry = Entry(entrySize: nat, entryType: int, anode: nat, fsize: nat, stamp: Stamp,
                         protection: nat, name: Name, comment: Name, extra: Extra, carriesX: bool)

  predicate IsDir(e: Entry) {
    e.entryType == ST_USERDIR
  }

  function FileSize(e: Entry): nat {
    e.fsize + e.extra.fsizex * U32
  }

  function Lower(b: byte): byte {
    if 65 <= b <= 90 then b + 32 else b
  }

  /** Canonical spelling: two names are the same file name when these agree. */
  function Canon(n: Name): (c: Name)
    ensures |c| == |n|
  {
    seq(|n|, i requires 0 <= i < |n| => Lower(n[i]))
  }

  predicate NameEqCi(a: Name, b: Name) {
    |a| == |b| && forall i :: 0 <= i < |a| ==> Lower(a[i]) == Lower(b[i])
  }

  /** The same letter, in upper or lower case, or the same byte. */
  predicate SameLetter(a: byte, b: byte) {
    a == b || ('A' as int <= a as int <= 'Z' as int && b as int == a as int + 32)
    || ('A' as int <= b as int <= 'Z' as int && a as int == b as int + 32)
  }

  /** Byte for byte the same but for the case of ASCII letters. */
  predicate Alike(a: Name, b: Name) {
    |a| == |b| && forall i :: 0 <= i < |a| ==> SameLetter(a[i], b[i])
  }

  lemma LowerIff(a: byte, b: byte)
    ensures Lower(a) == Lower(b) <==> SameLetter(a, b)
  {
  }

  /** Two names are the same exactly when they are byte for byte, ignoring the case of ASCII letters. */
  lemma SameNameIff(a: Name, b: Name)
    ensures NameEqCi(a, b) <==> Alike(a, b)
    ensures Canon(a) == Canon(b) <==> Alike(a, b)
  {
    hide SameLetter, Lower;
    NameEqIsCanon(a, b);
    forall i | 0 <= i < |a| && |a| == |b| ensures Lower(a[i]) == Lower(b[i]) <==> SameLetter(a[i], b[i]) {
      LowerIff(a[i], b[i]);
    }
  }

  lemma NameEqIsCanon(a: Name, b: Name)
    ensures NameEqCi(a, b) <==> Canon(a) == Canon(b)
  {
    if Canon(a) == Canon(b) {
      forall i | 0 <= i < |a| ensures Lower(a[i]) == Lower(b[i]) {
        assert Canon(a)[i] == Canon(b)[i];
      }
    }
  }

  /** Bitmap words: 32 bits, most significant first. */
  type Word = seq<bool>

  /** Decoded reserved blocks. Headers and datestamps are dropped: no reader uses them. */
  datatype Block =
    | AnodeBlk(slots: seq<Slot>)
    | IndexBlk(entries: seq<nat>)
    | BitmapBlk(words: seq<Word>)
    | DirBlk(ents: seq<Entry>)

  /** Geometry of an open volume. `stride` is 65536 with split anode numbers and
      `apb` (anodes per block) otherwise. The root cluster takes `cluster` sectors from `first` on, a
      reserved block `rescluster` sectors. */
  datatype Geo = Geo(bs: nat, rbs: nat, ipb: nat, apb: nat, stride: nat,
                     first: nat, rescluster: nat, cluster: nat, numRes: nat,
                     bmStart: nat, dataEnd: nat, indexblocks: seq<nat>, bmIndex: seq<nat>)

  predicate GeoOk(g: Geo) {
    && 0 < g.bs <= U16 && 0 < g.ipb && 0 < g.rescluster && 0 < g.first
    && ANODE_USERFIRST < g.apb <= 1024 && g.apb <= g.stride
    && g.first + g.numRes * g.rescluster <= g.bmStart <= g.dataEnd < U32
    && g.first + g.cluster <= g.bmStart && 1024 <= g.rbs == g.rescluster * g.bs
  }

  /** The reserved block with index `q`. */
  function ReservedAt(g: Geo, q: nat): nat {
    g.first + q * g.rescluster
  }

  /** A whole reserved block between the root cluster and the data area. */
  ghost predicate InReserved(g: Geo, b: nat) {
    g.first + g.cluster <= b && b + g.rescluster <= g.bmStart && exists q: nat :: b == ReservedAt(g, q)
  }

  predicate InData(g: Geo, x: nat) {
    g.bmStart <= x < g.dataEnd
  }
}
