/** Circular doubly linked lists whose nodes are blocks of a pool. */
module Rings {
  import opened MemPools

  const NULL := -1

  datatype Node<T> = Node(val: T, prev: int, next: int)

  type Heap<T> = seq<ObjectBlock<Node<T>>>

  ghost predicate Distinct(r: seq<nat>) {
    forall i, j :: 0 <= i < j < |r| ==> r[i] != r[j]
  }

  function Before(i: nat, n: nat): nat
    requires i < n
  {
    if i == 0 then n - 1 else i - 1
  }

  /** The i-th block of r is in use and linked to its neighbours in r. */
  ghost predicate LinkedAt<T>(b: Heap<T>, r: seq<nat>, i: nat) {
    && i < |r| && r[i] < |b| && !b[r[i]].isFree
    && b[r[i]].item.next == r[After(i, |r|)]
    && b[r[i]].item.prev == r[Before(i, |r|)]
  }

  /** The blocks of r, in order, form a circular doubly linked list. */
  ghost predicate IsRing<T>(b: Heap<T>, r: seq<nat>) {
    && Distinct(r)
    && forall i: nat :: i < |r| ==> LinkedAt(b, r, i)
  }

  function SetNext<T>(b: Heap<T>, i: nat, v: int): Heap<T>
    requires i < |b|
  {
    b[i := b[i].(item := b[i].item.(next := v))]
  }

  function SetPrev<T>(b: Heap<T>, i: nat, v: int): Heap<T>
    requires i < |b|
  {
    b[i := b[i].(item := b[i].item.(prev := v))]
  }

  /** x linked to itself. */
  function Alone<T>(b: Heap<T>, x: nat): Heap<T>
    requires x < |b|
  {
    SetPrev(SetNext(b, x, x), x, x)
  }

  /** x linked between its new neighbours p and q. */
  function Splice<T>(b: Heap<T>, p: nat, x: nat, q: nat): Heap<T>
    requires p < |b| && x < |b| && q < |b|
  {
    SetPrev(SetNext(SetNext(SetPrev(b, x, p), x, q), p, x), q, x)
  }

  /** x taken out from between p and q, its own links reset. */
  function Unlink<T>(b: Heap<T>, p: nat, x: nat, q: nat): Heap<T>
    requires p < |b| && x < |b| && q < |b|
  {
    SetNext(SetPrev(SetPrev(SetNext(b, p, q), q, p), x, NULL), x, NULL)
  }

  /** Two heaps that differ at most in links, and there only on the blocks of s. */
  ghost predicate SameExceptLinks<T>(b: Heap<T>, c: Heap<T>, s: set<nat>) {
    && |b| == |c|
    && (forall i: nat :: i < |b| ==> c[i].isFree == b[i].isFree && c[i].item.val == b[i].item.val)
    && (forall i: nat :: i < |b| && i !in s ==> c[i] == b[i])
  }

  lemma AloneIsRing<T>(b: Heap<T>, x: nat)
    requires x < |b| && !b[x].isFree
    ensures IsRing(Alone(b, x), [x])
    ensures SameExceptLinks(b, Alone(b, x), {x})
  {
    assert LinkedAt(Alone(b, x), [x], 0);
  }

  lemma RingMembers<T>(b: Heap<T>, r: seq<nat>)
    requires IsRing(b, r)
    ensures forall i: nat :: i < |r| ==> r[i] < |b| && !b[r[i]].isFree
  {
    forall i: nat | i < |r|
      ensures r[i] < |b| && !b[r[i]].isFree
    {
      assert LinkedAt(b, r, i);
    }
  }

  /** c is b with the next links of p and the previous links of q redirected, and new links for x. */
  ghost predicate Relinked<T>(b: Heap<T>, c: Heap<T>, p: nat, pNext: int, x: nat, xPrev: int, xNext: int, q: nat,
      qPrev: int) {
    && |b| == |c|
    && forall i: nat :: i < |b| ==>
         && c[i].isFree == b[i].isFree && c[i].item.val == b[i].item.val
         && c[i].item.next == (if i == x then xNext else if i == p then pNext else b[i].item.next)
         && c[i].item.prev == (if i == x then xPrev else if i == q then qPrev else b[i].item.prev)
  }

  lemma DistinctInsert(r: seq<nat>, k: nat, x: nat)
    requires Distinct(r) && k <= |r| && x !in r
    ensures Distinct(r[..k] + [x] + r[k..])
  {
  }

  lemma DistinctRemove(r: seq<nat>, k: nat)
    requires Distinct(r) && k < |r|
    ensures Distinct(r[..k] + r[k + 1..])
  {
  }

  lemma SplicedNode<T>(b: Heap<T>, c: Heap<T>, r: seq<nat>, t: seq<nat>, k: nat, x: nat, i: nat)
    requires IsRing(b, r) && k < |r| && x < |b| && !b[x].isFree && x !in r
    requires Relinked(b, c, r[Before(k, |r|)], x, x, r[Before(k, |r|)], r[k], r[k], x)
    requires t == r[..k] + [x] + r[k..] && i < |t|
    ensures LinkedAt(c, t, i)
  {
    var n, h := |r|, Before(k, |r|);
    assert |t| == n + 1;
    if i == k {
      assert t[After(i, n + 1)] == r[k];
      assert t[Before(i, n + 1)] == r[h];
    } else {
      var j := if i < k then i else i - 1;
      assert t[i] == r[j];
      assert LinkedAt(b, r, j);
      assert r[j] == r[k] <==> j == k;
      assert r[j] == r[h] <==> j == h;
      assert t[After(i, n + 1)] == if j == h then x else r[After(j, n)];
      assert t[Before(i, n + 1)] == if j == k then x else r[Before(j, n)];
    }
  }

  lemma SplicedRing<T>(b: Heap<T>, c: Heap<T>, r: seq<nat>, k: nat, x: nat)
    requires IsRing(b, r) && k < |r| && x < |b| && !b[x].isFree && x !in r
    requires Relinked(b, c, r[Before(k, |r|)], x, x, r[Before(k, |r|)], r[k], r[k], x)
    ensures IsRing(c, r[..k] + [x] + r[k..])
  {
    var t := r[..k] + [x] + r[k..];
    DistinctInsert(r, k, x);
    forall i: nat | i < |t|
      ensures LinkedAt(c, t, i)
    {
      SplicedNode(b, c, r, t, k, x, i);
    }
  }

  lemma UnlinkedNode<T>(b: Heap<T>, c: Heap<T>, r: seq<nat>, t: seq<nat>, k: nat, i: nat)
    requires IsRing(b, r) && k < |r| && |r| >= 2
    requires var p, q := r[Before(k, |r|)], r[After(k, |r|)];
             Relinked(b, c, p, q, r[k], NULL, NULL, q, p)
    requires t == r[..k] + r[k + 1..] && i < |t|
    ensures LinkedAt(c, t, i)
  {
    var n, h, l := |r|, Before(k, |r|), After(k, |r|);
    assert |t| == n - 1;
    var j := if i < k then i else i + 1;
    assert t[i] == r[j];
    assert LinkedAt(b, r, j);
    assert r[j] != r[k];
    assert r[j] == r[h] <==> j == h;
    assert r[j] == r[l] <==> j == l;
    assert t[After(i, n - 1)] == if j == h then r[l] else r[After(j, n)];
    assert t[Before(i, n - 1)] == if j == l then r[h] else r[Before(j, n)];
  }

  lemma UnlinkedRing<T>(b: Heap<T>, c: Heap<T>, r: seq<nat>, k: nat)
    requires IsRing(b, r) && k < |r| && |r| >= 2
    requires var p, q := r[Before(k, |r|)], r[After(k, |r|)];
             Relinked(b, c, p, q, r[k], NULL, NULL, q, p)
    ensures IsRing(c, r[..k] + r[k + 1..])
  {
    var t := r[..k] + r[k + 1..];
    DistinctRemove(r, k);
    forall i: nat | i < |t|
      ensures LinkedAt(c, t, i)
    {
      UnlinkedNode(b, c, r, t, k, i);
    }
  }

  /** x linked between the neighbours at positions k - 1 and k (circularly) becomes position k. */
  lemma SpliceAt<T>(b: Heap<T>, r: seq<nat>, k: nat, x: nat)
    requires IsRing(b, r) && k < |r| && x < |b| && !b[x].isFree && x !in r
    ensures r[k] < |b| && r[Before(k, |r|)] < |b|
    ensures IsRing(Splice(b, r[Before(k, |r|)], x, r[k]), r[..k] + [x] + r[k..])
    ensures SameExceptLinks(b, Splice(b, r[Before(k, |r|)], x, r[k]), {x, r[Before(k, |r|)], r[k]})
  {
    var h := Before(k, |r|);
    assert LinkedAt(b, r, k) && LinkedAt(b, r, h);
    var c := Splice(b, r[h], x, r[k]);
    assert x != r[h] && x != r[k];
    assert Relinked(b, c, r[h], x, x, r[h], r[k], r[k], x);
    SplicedRing(b, c, r, k, x);
  }

  lemma Rotate<T>(b: Heap<T>, x: nat, r: seq<nat>)
    requires IsRing(b, [x] + r)
    ensures IsRing(b, r + [x])
  {
    var t, u := [x] + r, r + [x];
    forall i, j | 0 <= i < j < |u|
      ensures u[i] != u[j]
    {
      assert u[i] == t[After(i, |u|)] && u[j] == t[After(j, |u|)];
    }
    forall i: nat | i < |u|
      ensures LinkedAt(b, u, i)
    {
      var k := After(i, |u|);
      assert LinkedAt(b, t, k);
      assert Before(k, |u|) == i;
    }
  }

  /** Linking x between the last and the first block appends it. */
  lemma SpliceLast<T>(b: Heap<T>, r: seq<nat>, x: nat)
    requires IsRing(b, r) && r != [] && x < |b| && !b[x].isFree && x !in r
    ensures r[0] < |b| && r[|r| - 1] < |b|
    ensures IsRing(Splice(b, r[|r| - 1], x, r[0]), r + [x])
    ensures SameExceptLinks(b, Splice(b, r[|r| - 1], x, r[0]), {x, r[|r| - 1], r[0]})
  {
    SpliceAt(b, r, 0, x);
    assert r[..0] + [x] + r[0..] == [x] + r;
    Rotate(Splice(b, r[|r| - 1], x, r[0]), x, r);
  }

  lemma UnlinkAt<T>(b: Heap<T>, r: seq<nat>, k: nat)
    requires IsRing(b, r) && k < |r| && |r| >= 2
    ensures r[k] < |b| && r[Before(k, |r|)] < |b| && r[After(k, |r|)] < |b|
    ensures var p, q := r[Before(k, |r|)], r[After(k, |r|)];
            && IsRing(Unlink(b, p, r[k], q), r[..k] + r[k + 1..])
            && SameExceptLinks(b, Unlink(b, p, r[k], q), {p, r[k], q})
  {
    var h, l := Before(k, |r|), After(k, |r|);
    assert LinkedAt(b, r, k) && LinkedAt(b, r, h) && LinkedAt(b, r, l);
    assert r[k] != r[h] && r[k] != r[l];
    var c := Unlink(b, r[h], r[k], r[l]);
    assert Relinked(b, c, r[h], r[l], r[k], NULL, NULL, r[l], r[h]);
    UnlinkedRing(b, c, r, k);
  }

  /** A ring survives any change that leaves its own blocks alone. */
  lemma RingFrame<T>(b: Heap<T>, c: Heap<T>, r: seq<nat>)
    requires IsRing(b, r) && |b| <= |c|
    requires forall i: nat :: i < |r| && r[i] < |b| ==> c[r[i]] == b[r[i]]
    ensures IsRing(c, r)
  {
    forall i: nat | i < |r|
      ensures LinkedAt(c, r, i)
    {
      assert LinkedAt(b, r, i);
    }
  }
}
