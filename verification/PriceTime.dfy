/**
 * One side of a limit order book as the sequence of its resting orders, most aggressive price first and
 * first-in-first-out within a price.
 */
module PriceTime {
  import opened Types

  /** p is strictly more aggressive than q. */
  predicate Better(side: Side, p: int, q: int) {
    if side == Buy then p > q else p < q
  }

  predicate AtLeast(side: Side, p: int, q: int) {
    p == q || Better(side, p, q)
  }

  /** How many orders of s a newcomer at the given price queues behind. */
  function Rank<K>(s: seq<Entry<K>>, side: Side, price: int): (r: nat)
    ensures r <= |s|
  {
    if s == [] || !AtLeast(side, s[0].order.price, price) then 0 else 1 + Rank(s[1..], side, price)
  }

  function Insert<K>(s: seq<Entry<K>>, e: Entry<K>): seq<Entry<K>> {
    var r := Rank(s, e.order.side, e.order.price);
    s[..r] + [e] + s[r..]
  }

  /** s with e behind all orders of at least the given price, whatever the price of e. */
  function Appended<K>(s: seq<Entry<K>>, e: Entry<K>, side: Side, price: int): seq<Entry<K>> {
    var r := Rank(s, side, price);
    s[..r] + [e] + s[r..]
  }

  lemma AppendedIsInsert<K>(s: seq<Entry<K>>, e: Entry<K>)
    ensures Appended(s, e, e.order.side, e.order.price) == Insert(s, e)
  {
  }

  function Without<K(==)>(s: seq<Entry<K>>, key: K): seq<Entry<K>> {
    if s == [] then [] else (if s[0].key == key then [] else [s[0]]) + Without(s[1..], key)
  }

  function WithQty<K(==)>(s: seq<Entry<K>>, key: K, qty: nat): (r: seq<Entry<K>>)
    ensures |r| == |s|
    ensures forall i :: 0 <= i < |s| ==>
      r[i] == if s[i].key == key then s[i].(order := s[i].order.(qty := qty)) else s[i]
  {
    if s == [] then []
    else [if s[0].key == key then s[0].(order := s[0].order.(qty := qty)) else s[0]] + WithQty(s[1..], key, qty)
  }

  /** The priority a newcomer at the given price receives. */
  function NextPriority<K>(s: seq<Entry<K>>, side: Side, price: int): nat {
    var r := Rank(s, side, price);
    if r > 0 && s[r - 1].order.price == price then s[r - 1].order.priority + 1 else 1
  }

  /** The order in which resting orders are served. */
  ghost predicate InOrder(side: Side, a: MktOrder, b: MktOrder) {
    Better(side, a.price, b.price) || (a.price == b.price && a.id < b.id && a.priority < b.priority)
  }

  /** a is served before b, and the two are different orders. */
  ghost predicate Queued<K>(side: Side, a: Entry<K>, b: Entry<K>) {
    InOrder(side, a.order, b.order) && a.key != b.key && a.order.id != b.order.id
  }

  /** What a side looks like in every reachable state. */
  ghost predicate Wf<K>(side: Side, s: seq<Entry<K>>) {
    && (forall i :: 0 <= i < |s| ==> s[i].order.side == side && s[i].order.qty > 0 && s[i].order.priority > 0)
    && (forall i, j {:trigger Queued(side, s[i], s[j])} :: 0 <= i < j < |s| ==> Queued(side, s[i], s[j]))
  }

  ghost predicate HasKey<K(!new)>(s: seq<Entry<K>>, key: K) {
    exists i :: 0 <= i < |s| && s[i].key == key
  }

  lemma {:induction false} RankSplit<K>(a: seq<Entry<K>>, b: seq<Entry<K>>, side: Side, price: int)
    requires forall i :: 0 <= i < |a| ==> AtLeast(side, a[i].order.price, price)
    requires b == [] || !AtLeast(side, b[0].order.price, price)
    ensures Rank(a + b, side, price) == |a|
  {
    if a == [] {
      assert a + b == b;
    } else {
      assert (a + b)[1..] == a[1..] + b;
      RankSplit(a[1..], b, side, price);
    }
  }

  lemma TailWf<K>(side: Side, s: seq<Entry<K>>)
    requires Wf(side, s) && s != []
    ensures Wf(side, s[1..])
    ensures forall i :: 0 <= i < |s[1..]| ==> Queued(side, s[0], s[1..][i])
  {
    var t := s[1..];
    forall i, j | 0 <= i < j < |t|
      ensures Queued(side, t[i], t[j])
    {
      assert Queued(side, s[i + 1], s[j + 1]);
    }
    forall i | 0 <= i < |t|
      ensures Queued(side, s[0], t[i])
    {
      assert Queued(side, s[0], s[i + 1]);
    }
  }

  /** Everything before the rank goes first, everything from it on is strictly less aggressive. */
  lemma {:induction false} RankIsBoundary<K>(s: seq<Entry<K>>, side: Side, price: int)
    requires Wf(side, s)
    ensures var r := Rank(s, side, price);
            && (forall i :: 0 <= i < r ==> AtLeast(side, s[i].order.price, price))
            && (forall i :: r <= i < |s| ==> Better(side, price, s[i].order.price))
  {
    if s != [] {
      TailWf(side, s);
      RankIsBoundary(s[1..], side, price);
      assert forall i :: 1 <= i < |s| ==> s[i] == s[1..][i - 1];
    }
  }

  /** Queueing an order behind everything at its price that is older keeps a side well formed. */
  lemma InsertLaterKeepsWf<K(!new)>(side: Side, s: seq<Entry<K>>, e: Entry<K>)
    requires Wf(side, s) && e.order.side == side && e.order.qty > 0 && e.order.priority > 0 && !HasKey(s, e.key)
    requires forall i :: 0 <= i < |s| ==>
      s[i].order.id != e.order.id && (s[i].order.price == e.order.price ==> InOrder(side, s[i].order, e.order))
    ensures Wf(side, Insert(s, e))
  {
    var r, t := Rank(s, side, e.order.price), Insert(s, e);
    RankIsBoundary(s, side, e.order.price);
    forall i, j | 0 <= i < j < |t|
      ensures Queued(side, t[i], t[j])
    {
      if i == r {
        assert t[j] == s[j - 1];
      } else if j == r {
        assert t[i] == s[i];
      } else {
        assert Queued(side, s[if i < r then i else i - 1], s[if j < r then j else j - 1]);
      }
    }
  }

  /** The priority handed out exceeds those of all orders at the price. */
  lemma NextPriorityExceeds<K>(side: Side, s: seq<Entry<K>>, price: int)
    requires Wf(side, s)
    ensures forall i :: 0 <= i < |s| && s[i].order.price == price ==> s[i].order.priority < NextPriority(s, side, price)
  {
    var r := Rank(s, side, price);
    RankIsBoundary(s, side, price);
    forall i | 0 <= i < |s| && s[i].order.price == price
      ensures s[i].order.priority < NextPriority(s, side, price)
    {
      assert i < r - 1 ==> Queued(side, s[i], s[r - 1]);
    }
  }

  /** Resting a fresh, latest order keeps a side well formed, and its priority exceeds those ahead at its price. */
  lemma InsertKeepsWf<K(!new)>(side: Side, s: seq<Entry<K>>, e: Entry<K>)
    requires Wf(side, s) && e.order.side == side && e.order.qty > 0 && !HasKey(s, e.key)
    requires forall i :: 0 <= i < |s| ==> s[i].order.id < e.order.id
    requires e.order.priority == NextPriority(s, side, e.order.price)
    ensures Wf(side, Insert(s, e))
  {
    NextPriorityExceeds(side, s, e.order.price);
    InsertLaterKeepsWf(side, s, e);
  }

  lemma InsertMembers<K>(s: seq<Entry<K>>, e: Entry<K>)
    ensures forall x :: x in Insert(s, e) <==> x == e || x in s
    ensures forall i :: 0 <= i < |Insert(s, e)| ==> Insert(s, e)[i] == e || Insert(s, e)[i] in s
  {
    var r, t := Rank(s, e.order.side, e.order.price), Insert(s, e);
    assert t[r] == e;
    forall i | 0 <= i < |s|
      ensures s[i] in t
    {
      assert t[if i < r then i else i + 1] == s[i];
    }
  }

  lemma {:induction false} WithoutConcat<K>(a: seq<Entry<K>>, b: seq<Entry<K>>, key: K)
    ensures Without(a + b, key) == Without(a, key) + Without(b, key)
  {
    if a == [] {
      assert a + b == b;
    } else {
      assert (a + b)[1..] == a[1..] + b;
      WithoutConcat(a[1..], b, key);
    }
  }

  lemma {:induction false} WithoutAbsent<K(!new)>(s: seq<Entry<K>>, key: K)
    requires !HasKey(s, key)
    ensures Without(s, key) == s
  {
    if s != [] {
      assert forall i :: 0 <= i < |s[1..]| ==> s[1..][i] == s[i + 1];
      WithoutAbsent(s[1..], key);
    }
  }

  /** Taking out the only order with a key closes the gap and nothing else. */
  lemma WithoutAt<K(!new)>(a: seq<Entry<K>>, e: Entry<K>, b: seq<Entry<K>>)
    requires !HasKey(a, e.key) && !HasKey(b, e.key)
    ensures Without(a + [e] + b, e.key) == a + b
  {
    WithoutConcat(a + [e], b, e.key);
    WithoutConcat(a, [e], e.key);
    WithoutAbsent(a, e.key);
    WithoutAbsent(b, e.key);
  }

  /** The index of a key, or the length when it does not occur. */
  function IndexOf<K(==)>(s: seq<Entry<K>>, key: K): (i: nat)
    ensures i <= |s|
    ensures i < |s| ==> s[i].key == key
    ensures forall j :: 0 <= j < i ==> s[j].key != key
  {
    if s == [] || s[0].key == key then 0 else 1 + IndexOf(s[1..], key)
  }

  /** An order shares its key with no order before or after it. */
  lemma SoleKeyAt<K(!new)>(side: Side, s: seq<Entry<K>>, i: nat)
    requires Wf(side, s) && i < |s|
    ensures !HasKey(s[..i], s[i].key) && !HasKey(s[i + 1..], s[i].key)
  {
    forall j | 0 <= j < i
      ensures s[..i][j].key != s[i].key
    {
      assert Queued(side, s[j], s[i]);
    }
    var behind := s[i + 1..];
    forall j | 0 <= j < |behind|
      ensures behind[j].key != s[i].key
    {
      assert Queued(side, s[i], s[i + 1 + j]);
    }
  }

  lemma SplitAt<T>(s: seq<T>, i: nat)
    requires i < |s|
    ensures s == s[..i] + [s[i]] + s[i + 1..]
  {
  }

  lemma WithoutIndex<K(!new)>(side: Side, s: seq<Entry<K>>, i: nat)
    requires Wf(side, s) && i < |s|
    ensures Without(s, s[i].key) == s[..i] + s[i + 1..]
  {
    SoleKeyAt(side, s, i);
    SplitAt(s, i);
    hide Wf, HasKey, Without;
    var before, e, behind := s[..i], s[i], s[i + 1..];
    WithoutAt(before, e, behind);
  }

  lemma {:induction false} WithoutMembers<K>(s: seq<Entry<K>>, key: K, e: Entry<K>)
    ensures e in Without(s, key) <==> e in s && e.key != key
  {
    if s != [] {
      WithoutMembers(s[1..], key, e);
      assert s == [s[0]] + s[1..];
    }
  }

  lemma RemoveKeepsWf<K(!new)>(side: Side, s: seq<Entry<K>>, key: K)
    requires Wf(side, s)
    ensures Wf(side, Without(s, key))
  {
    var i := IndexOf(s, key);
    if i < |s| {
      WithoutIndex(side, s, i);
      var t := s[..i] + s[i + 1..];
      forall j, k | 0 <= j < k < |t|
        ensures Queued(side, t[j], t[k])
      {
        assert Queued(side, s[if j < i then j else j + 1], s[if k < i then k else k + 1]);
      }
    } else {
      WithoutAbsent(s, key);
    }
  }

  lemma ModifyKeepsWf<K>(side: Side, s: seq<Entry<K>>, key: K, qty: nat)
    requires Wf(side, s) && qty > 0
    ensures Wf(side, WithQty(s, key, qty))
  {
    var t := WithQty(s, key, qty);
    forall i, j | 0 <= i < j < |t|
      ensures Queued(side, t[i], t[j])
    {
      assert Queued(side, s[i], s[j]);
    }
  }

  /** A side is determined by the set of its orders: there is only one way to queue them. */
  lemma {:induction false} SortedUnique<K(!new)>(side: Side, s: seq<Entry<K>>, t: seq<Entry<K>>)
    requires Wf(side, s) && Wf(side, t)
    requires forall e :: e in s <==> e in t
    ensures s == t
  {
    assert s != [] ==> s[0] in s;
    assert t != [] ==> t[0] in t;
    if s != [] && t != [] {
      HeadFirst(side, s, t);
      HeadFirst(side, t, s);
      assert s[0] == t[0];
      forall e
        ensures e in s[1..] <==> e in t[1..]
      {
        TailMembers(side, s, e);
        TailMembers(side, t, e);
      }
      TailWf(side, s);
      TailWf(side, t);
      SortedUnique(side, s[1..], t[1..]);
      assert s == [s[0]] + s[1..] && t == [t[0]] + t[1..];
    }
  }

  /** The head of t is not served before the head of s when t's head occurs in s. */
  lemma HeadFirst<K>(side: Side, s: seq<Entry<K>>, t: seq<Entry<K>>)
    requires Wf(side, s) && s != [] && t != [] && t[0] in s
    ensures t[0] == s[0] || Queued(side, s[0], t[0])
  {
    var j :| 0 <= j < |s| && s[j] == t[0];
    assert j > 0 ==> Queued(side, s[0], s[j]);
  }

  lemma TailMembers<K>(side: Side, s: seq<Entry<K>>, e: Entry<K>)
    requires Wf(side, s) && s != []
    ensures e in s[1..] <==> e in s && e != s[0]
  {
    assert s == [s[0]] + s[1..];
    TailWf(side, s);
  }
}
