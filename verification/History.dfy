/** Whole runs: the operations a user asks for, as changes to the map of names, and what holds
    over every sequence of them. */
module History {
  import opened Types
  import opened Ownership
  import opened Directory
  import opened Compose
  import opened Overwriting
  import opened Renaming

  type Spot = (nat, Name)

  datatype Op =
    | WriteOp(k: Spot, name: Name, data: Bytes)
    | MakeDirOp(k: Spot, name: Name)
    | RemoveOp(k: Spot)
    | MoveOp(src: Spot, k: Spot, name: Name)

  /** One committed operation and the names after it. */
  datatype Event = Event(op: Op, after: FS)

  /** No name denotes `h`. */
  ghost predicate NewHead(fs: FS, h: nat) {
    forall k :: k in fs ==> fs[k].anode != h
  }

  /** What is stored is the data, except that the recorded size of an existing file may lose the
      bits above the low 32. */
  predicate StoredAs(data: Bytes, x: Bytes) {
    x == data || (|data| >= U32 && x <= data)
  }

  ghost predicate Rewritten(fs: FS, fs': FS, k: Spot, data: Bytes) {
    k in fs && exists x :: StoredAs(data, x) && fs' == fs[k := fs[k].(data := x)]
  }

  ghost predicate Added(fs: FS, fs': FS, k: Spot, etype: int, name: Name, data: Bytes) {
    k !in fs && exists h :: NewHead(fs, h) && fs' == fs[k := Obj(h, etype, name, 0, data)]
  }

  /** The meaning of one operation. */
  ghost predicate SpecStep(fs: FS, op: Op, fs': FS) {
    match op
    case WriteOp(k, name, data) => if k in fs then Rewritten(fs, fs', k, data)
                                                   else Added(fs, fs', k, ST_FILE, name, data)
    case MakeDirOp(k, name) => Added(fs, fs', k, ST_USERDIR, name, [])
    case RemoveOp(k) => k in fs && !Occupied(fs, k) && fs' == fs - {k}
    case MoveOp(src, k, name) => (src == k || k !in fs) && !IntoItself(fs, src, k.0) && Renamed(fs, fs', src, k, name)
  }

  /** The names after a log, starting from `first`. */
  function After(first: FS, log: seq<Event>): FS {
    if |log| == 0 then first else log[|log| - 1].after
  }

  /** Every event of the log is a legal step from the one before. */
  ghost predicate Legal(first: FS, log: seq<Event>) {
    |log| > 0 ==> Legal(first, log[..|log| - 1])
                  && SpecStep(After(first, log[..|log| - 1]), log[|log| - 1].op, log[|log| - 1].after)
  }

  lemma LegalMore(first: FS, log: seq<Event>, op: Op, fs': FS)
    requires Legal(first, log) && SpecStep(After(first, log), op, fs')
    ensures Legal(first, log + [Event(op, fs')]) && After(first, log + [Event(op, fs')]) == fs'
  {
    hide SpecStep;
    var more := log + [Event(op, fs')];
    assert more[..|more| - 1] == log;
  }

  /** The log once a name is free: an operation removed it if it was in use. */
  function Cleared(log: seq<Event>, fs: FS, k: Spot): seq<Event> {
    if k in fs then log + [Event(RemoveOp(k), fs - {k})] else log
  }

  predicate Touches(op: Op, k: Spot) {
    op.k == k || (op.MoveOp? && op.src == k)
  }

  lemma UntouchedStep(fs: FS, op: Op, fs': FS, k: Spot)
    requires SpecStep(fs, op, fs') && !Touches(op, k)
    ensures (k in fs' <==> k in fs) && (k in fs ==> fs'[k] == fs[k])
  {
    hide Occupied, IntoItself;
  }

  /** Over any run, a name that no operation touches keeps denoting the same object: same head,
      same contents. */
  lemma {:induction false} UntouchedRun(first: FS, log: seq<Event>, k: Spot)
    requires Legal(first, log) && forall i :: 0 <= i < |log| ==> !Touches(log[i].op, k)
    ensures (k in After(first, log) <==> k in first) && (k in first ==> After(first, log)[k] == first[k])
  {
    if |log| > 0 {
      var n := |log| - 1;
      UntouchedRun(first, log[..n], k);
      hide SpecStep;
      UntouchedStep(After(first, log[..n]), log[n].op, log[n].after, k);
    }
  }

  lemma {:induction false} LegalSuffix(first: FS, log: seq<Event>, n: nat)
    requires Legal(first, log) && n <= |log|
    ensures Legal(first, log[..n]) && Legal(After(first, log[..n]), log[n..])
            && After(After(first, log[..n]), log[n..]) == After(first, log)
    decreases |log|
  {
    hide SpecStep;
    if n == |log| {
      assert log[..n] == log && log[n..] == [];
    } else {
      var m := |log| - 1;
      LegalSuffix(first, log[..m], n);
      assert log[..m][..n] == log[..n] && log[..m][n..] == log[n..][..m - n];
      assert log[n..][m - n] == log[m];
    }
  }

  lemma WriteStored(fs: FS, op: Op, fs': FS)
    requires op.WriteOp? && SpecStep(fs, op, fs')
    ensures op.k in fs' && StoredAs(op.data, fs'[op.k].data)
  {
  }

  /** Over any run, the last write to a name is what the name reads as, whatever happened to other names
      since and however often it was overwritten before. From 2^32 bytes on it may be cut, as the entry
      cannot always record the size. */
  lemma LastWriteWins(first: FS, log: seq<Event>, i: nat)
    requires Legal(first, log) && i < |log| && log[i].op.WriteOp?
    requires forall j :: i < j < |log| ==> !Touches(log[j].op, log[i].op.k)
    ensures var k := log[i].op.k; k in After(first, log) && StoredAs(log[i].op.data, After(first, log)[k].data)
  {
    hide SpecStep, StoredAs;
    var k := log[i].op.k;
    LegalSuffix(first, log, i + 1);
    var head, tail := log[..i + 1], log[i + 1..];
    assert head[..i] == log[..i] && head[i] == log[i];
    WriteStored(After(first, log[..i]), log[i].op, log[i].after);
    assert forall j :: 0 <= j < |tail| ==> tail[j] == log[i + 1 + j];
    UntouchedRun(After(first, head), tail, k);
  }

  /** Overwriting keeps the head: over a run of writes to an existing name, its anode never changes. */
  lemma {:induction false} HeadStable(first: FS, log: seq<Event>, k: Spot)
    requires Legal(first, log) && k in first
    requires forall i :: 0 <= i < |log| && Touches(log[i].op, k) ==> log[i].op.WriteOp?
    ensures k in After(first, log) && After(first, log)[k].anode == first[k].anode
            && After(first, log)[k].entryType == first[k].entryType
  {
    if |log| > 0 {
      var n := |log| - 1;
      HeadStable(first, log[..n], k);
      if !Touches(log[n].op, k) { UntouchedStep(After(first, log[..n]), log[n].op, log[n].after, k); }
    }
  }

  // ---------------------------------------------------------------- what each operation contributes

  lemma NewHeadIs(g: Geo, o: Own, sect: Sectors, h: nat)
    requires h !in o.f.tab && Inv(g, o, sect)
    ensures NewHead(o.fs, h)
  {
    hide Inv;
    NamedInTab(g, o, sect, h);
    forall j | j in o.fs ensures o.fs[j].anode != h { NamedBy(g, o, sect, j); }
  }

  lemma CreateStep(g: Geo, o: Own, sect: Sectors, k: Spot, h: nat, name: Name, data: Bytes)
    requires k !in o.fs && h !in o.f.tab && Inv(g, o, sect)
    ensures SpecStep(o.fs, WriteOp(k, name, data), o.fs[k := NewObj(h, name, data)])
  {
    hide Inv, NewHead;
    NewHeadIs(g, o, sect, h);
  }

  lemma MakeDirStep(g: Geo, o: Own, sect: Sectors, k: Spot, h: nat, name: Name)
    requires k !in o.fs && h !in o.f.tab && Inv(g, o, sect)
    ensures SpecStep(o.fs, MakeDirOp(k, name), o.fs[k := Obj(h, ST_USERDIR, name, 0, [])])
  {
    hide Inv, NewHead;
    NewHeadIs(g, o, sect, h);
  }

  lemma RemoveStep(fs: FS, k: Spot)
    requires k in fs && !Occupied(fs, k)
    ensures SpecStep(fs, RemoveOp(k), fs - {k})
  {
    hide Occupied;
  }

  lemma MoveStep(fs: FS, fs': FS, src: Spot, k: Spot, name: Name)
    requires (src == k || k !in fs) && !IntoItself(fs, src, k.0) && Renamed(fs, fs', src, k, name)
    ensures SpecStep(fs, MoveOp(src, k, name), fs')
  {
    hide IntoItself, Renamed;
  }

  lemma OverwriteStep(fs: FS, k: Spot, w: Wit, name: Name, data: Bytes)
    requires k in fs && fs[k].anode in w.ent
    ensures SpecStep(fs, WriteOp(k, name, data), Updated(fs, k, w, data))
  {
    RecordedIff(w.ent[fs[k].anode], data);
    PatchedSizeIff(w.ent[fs[k].anode], |data|, w.ent[fs[k].anode].stamp);
    var x := Recorded(w.ent[fs[k].anode], data);
    assert StoredAs(data, x);
  }
}
