/** Directory entries as values: what building, sizing and patching an entry mean. */
module Directory {
  import opened Types

  const NAME_MAX: nat := 107
  const DIR_HEADER: nat := 0x14

  function Min(a: nat, b: nat): nat {
    if a <= b then a else b
  }

  /** Bytes an entry occupies: 18 fixed, the name, the comment length, two or four bytes of
      extra fields, rounded up to even. */
  function EntryLength(nlen: nat, wide: bool): nat {
    var n := 18 + nlen + 1 + if wide then 4 else 2;
    n + n % 2
  }

  function SizeHigh(fsize: nat): nat {
    (fsize / U32) % U16
  }

  /** The entry the writer creates; names are cut at 107 bytes, sizes at 48 bits. */
  function BuildEntry(name: Name, etype: int, anode: nat, fsize: nat, protection: nat, stamp: Stamp): Entry {
    var nlen := Min(|name|, NAME_MAX);
    var x := SizeHigh(fsize);
    Entry(EntryLength(nlen, x > 0), etype, anode, fsize % U32, stamp, protection, name[..nlen], [],
          NO_EXTRA.(fsizex := x), x > 0)
  }

  /** What the writer keeps of a name. */
  function ShortName(name: Name): (c: Name)
    ensures |c| <= NAME_MAX
  {
    if |name| <= NAME_MAX then name else name[..NAME_MAX]
  }

  lemma ShortEntry(name: Name, etype: int, anode: nat, fsize: nat, protection: nat, stamp: Stamp)
    ensures BuildEntry(name, etype, anode, fsize, protection, stamp)
         == BuildEntry(ShortName(name), etype, anode, fsize, protection, stamp)
    ensures BuildEntry(name, etype, anode, fsize, protection, stamp).name == ShortName(name)
  {
  }

  /** Sizes below 2^48 survive, and larger ones do not. */
  lemma BuildSize(name: Name, etype: int, anode: nat, fsize: nat, protection: nat, stamp: Stamp)
    ensures FileSize(BuildEntry(name, etype, anode, fsize, protection, stamp)) == fsize % (U32 * U16)
    ensures FileSize(BuildEntry(name, etype, anode, fsize, protection, stamp)) == fsize <==> fsize < U32 * U16
  {
  }

  /** Overwriting the recorded size: the upper bits only where the entry has room for them. */
  function PatchSize(e: Entry, n: nat, stamp: Stamp): Entry {
    e.(fsize := n % U32, extra := e.extra.(fsizex := if e.carriesX then SizeHigh(n) else 0), stamp := stamp)
  }

  /** Exactly when the recorded size is the new size. */
  lemma PatchedSizeIff(e: Entry, n: nat, stamp: Stamp)
    ensures FileSize(PatchSize(e, n, stamp)) <= n
    ensures FileSize(PatchSize(e, n, stamp)) == n <==> n < U32 || (e.carriesX && n < U32 * U16)
  {
  }

  /** Four gigabytes written over an entry without the extended field are recorded as nothing. */
  lemma SizeLostExample(e: Entry, stamp: Stamp)
    requires !e.carriesX
    ensures FileSize(PatchSize(e, U32, stamp)) == 0
  {
  }

  /** Bytes taken by a block's entries, headers included. */
  function Used(es: seq<Entry>): nat {
    if |es| == 0 then DIR_HEADER else Used(es[..|es| - 1]) + es[|es| - 1].entrySize
  }

  /** Room for one more entry and the terminator. */
  predicate Fits(rbs: nat, es: seq<Entry>, e: Entry) {
    Used(es) + e.entrySize < rbs
  }

  /** Index of the first entry with this name, ignoring case, or the length. */
  method FindName(es: seq<Entry>, name: Name) returns (k: nat)
    ensures k <= |es| && (k < |es| ==> NameEqCi(es[k].name, name))
    ensures forall i :: 0 <= i < k ==> !NameEqCi(es[i].name, name)
    ensures k < |es| ==> Alike(es[k].name, name)
    ensures forall i :: 0 <= i < k ==> !Alike(es[i].name, name)
  {
    hide NameEqCi, Alike;
    forall i | 0 <= i < |es| ensures NameEqCi(es[i].name, name) <==> Alike(es[i].name, name) {
      SameNameIff(es[i].name, name);
    }
    k := 0;
    while k < |es| && !NameEqCi(es[k].name, name)
      invariant k <= |es| && forall i :: 0 <= i < k ==> !NameEqCi(es[i].name, name)
      decreases |es| - k
    {
      k := k + 1;
    }
  }
}
