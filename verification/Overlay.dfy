/** Staged writes over a device: a list of (block, contents) pairs without duplicate
    blocks, refining a plain map from block to contents. */
module Overlay {
  import opened Types

  type Staged<T> = seq<(nat, T)>

  ghost predicate UniqueKeys<T>(p: Staged<T>) {
    forall i, j :: 0 <= i < j < |p| ==> p[i].0 != p[j].0
  }

  /** The device as it will be once everything staged is written. */
  function View<T>(dev: map<nat, T>, p: Staged<T>): map<nat, T> {
    if |p| == 0 then dev else View(dev, p[..|p| - 1])[p[|p| - 1].0 := p[|p| - 1].1]
  }

  /** Index of the (first) pair for block `b`, or the length. */
  method Position<T>(p: Staged<T>, b: nat) returns (k: nat)
    ensures k <= |p| && (k < |p| ==> p[k].0 == b)
    ensures forall i :: 0 <= i < k ==> p[i].0 != b
  {
    k := 0;
    while k < |p| && p[k].0 != b
      invariant k <= |p| && forall i :: 0 <= i < k ==> p[i].0 != b
    {
      k := k + 1;
    }
  }

  /** Contents of `b` as seen through the staged writes, the latest one winning. */
  method Read<T>(dev: map<nat, T>, p: Staged<T>, b: nat) returns (v: T)
    requires b in View(dev, p)
    ensures v == View(dev, p)[b]
  {
    var k := |p|;
    assert p[..k] == p;
    while k > 0
      invariant 0 <= k <= |p| && b in View(dev, p[..k]) && View(dev, p[..k])[b] == View(dev, p)[b]
    {
      assert p[..k][..k - 1] == p[..k - 1] && p[..k][k - 1] == p[k - 1];
      if p[k - 1].0 == b { return p[k - 1].1; }
      k := k - 1;
    }
    return dev[b];
  }

  function Put<T>(p: Staged<T>, b: nat, k: nat, v: T): Staged<T>
    requires k <= |p|
  {
    if k < |p| then p[k := (b, v)] else p + [(b, v)]
  }

  lemma {:induction false} ViewReplace<T>(dev: map<nat, T>, p: Staged<T>, b: nat, k: nat, v: T)
    requires UniqueKeys(p) && k < |p| && p[k].0 == b
    ensures View(dev, p[k := (b, v)]) == View(dev, p)[b := v]
  {
    var n, q := |p| - 1, p[k := (b, v)];
    if k < n {
      assert q[..n] == p[..n][k := (b, v)];
      ViewReplace(dev, p[..n], b, k, v);
      assert p[n].0 != b;
    } else {
      assert q[..n] == p[..n];
    }
  }

  /** Staging is a plain map update, and keeps block numbers unique. */
  lemma PutView<T>(dev: map<nat, T>, p: Staged<T>, b: nat, k: nat, v: T)
    requires UniqueKeys(p) && k <= |p| && (k < |p| ==> p[k].0 == b)
    requires k == |p| ==> forall i :: 0 <= i < |p| ==> p[i].0 != b
    ensures UniqueKeys(Put(p, b, k, v)) && View(dev, Put(p, b, k, v)) == View(dev, p)[b := v]
  {
    if k < |p| {
      ViewReplace(dev, p, b, k, v);
    } else {
      assert (p + [(b, v)])[..|p|] == p;
    }
  }

  method Stage<T>(p: Staged<T>, b: nat, v: T) returns (q: Staged<T>)
    requires UniqueKeys(p)
    ensures UniqueKeys(q)
    ensures forall dev :: View(dev, q) == View(dev, p)[b := v]
    ensures |q| == |p| || |q| == |p| + 1
  {
    var k := Position(p, b);
    q := Put(p, b, k, v);
    forall dev ensures View(dev, q) == View(dev, p)[b := v] { PutView(dev, p, b, k, v); }
    PutView(map[], p, b, k, v);
  }

  /** Flushing writes each pair in turn; the device becomes the view. */
  method Flush<T>(dev: map<nat, T>, p: Staged<T>) returns (dev': map<nat, T>)
    ensures dev' == View(dev, p)
  {
    dev' := dev;
    for k := 0 to |p|
      invariant dev' == View(dev, p[..k])
    {
      assert p[..k + 1][..k] == p[..k];
      dev' := dev'[p[k].0 := p[k].1];
    }
    assert p[..|p|] == p;
  }

  // ---------------------------------------------------------------- whole sequences of staged writes

  /** The plain map a sequence of writes denotes. */
  function Apply<T>(dev: map<nat, T>, ws: seq<(nat, T)>): map<nat, T> {
    if |ws| == 0 then dev else Apply(dev, ws[..|ws| - 1])[ws[|ws| - 1].0 := ws[|ws| - 1].1]
  }

  /** Refinement over every run: staging any sequence of writes keeps one pair per block, reads
      see exactly the plain map, and a flush turns the device into it. */
  method StageRun<T>(dev: map<nat, T>, ws: seq<(nat, T)>) returns (p: Staged<T>, dev': map<nat, T>)
    ensures UniqueKeys(p) && View(dev, p) == Apply(dev, ws)
    ensures dev' == Apply(dev, ws)
    ensures forall b :: b in dev' && (forall i :: 0 <= i < |ws| ==> ws[i].0 != b) ==> b in dev && dev'[b] == dev[b]
  {
    p := [];
    for i := 0 to |ws|
      invariant UniqueKeys(p) && View(dev, p) == Apply(dev, ws[..i])
    {
      p := Stage(p, ws[i].0, ws[i].1);
      assert ws[..i + 1][..i] == ws[..i];
    }
    assert ws[..|ws|] == ws;
    dev' := Flush(dev, p);
    forall b | b in dev' && (forall i :: 0 <= i < |ws| ==> ws[i].0 != b) ensures b in dev && dev'[b] == dev[b] {
      ApplyOther(dev, ws, b);
    }
  }

  lemma {:induction false} ApplyOther<T>(dev: map<nat, T>, ws: seq<(nat, T)>, b: nat)
    requires forall i :: 0 <= i < |ws| ==> ws[i].0 != b
    ensures b in Apply(dev, ws) <==> b in dev
    ensures b in dev ==> Apply(dev, ws)[b] == dev[b]
  {
    if |ws| > 0 { ApplyOther(dev, ws[..|ws| - 1], b); }
  }

  /** Reading a block of the plain map returns the last value written to it. */
  lemma ApplyLast<T>(dev: map<nat, T>, ws: seq<(nat, T)>, k: nat)
    requires k < |ws| && forall i :: k < i < |ws| ==> ws[i].0 != ws[k].0
    ensures ws[k].0 in Apply(dev, ws) && Apply(dev, ws)[ws[k].0] == ws[k].1
  {
    if k < |ws| - 1 { ApplyLast(dev, ws[..|ws| - 1], k); }
  }
}
