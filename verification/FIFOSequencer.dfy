/** The sequencer: requests gathered from all connections, published to the matching engine by receive time. */
module FIFOSequencers {
  import opened Framing

  /** A pending request: when it was received, who sent it under which number, and what it asks for. */
  datatype Received = Received(time: nat, client: nat, seqNum: nat, request: Bytes)

  ghost predicate Sorted(s: seq<Received>) {
    forall i, j :: 0 <= i < j < |s| ==> s[i].time <= s[j].time
  }

  /** An outcome the library's sort may have: it orders by time and promises nothing about equal times. */
  ghost predicate SortOf(pending: seq<Received>, s: seq<Received>) {
    multiset(s) == multiset(pending) && Sorted(s)
  }

  function Inserted(s: seq<Received>, r: Received): seq<Received> {
    if s == [] || r.time < s[0].time then [r] + s else [s[0]] + Inserted(s[1..], r)
  }

  lemma {:induction false} InsertedSorted(s: seq<Received>, r: Received)
    requires Sorted(s)
    ensures Sorted(Inserted(s, r))
    ensures forall i :: 0 <= i < |Inserted(s, r)| ==>
              Inserted(s, r)[i].time >= r.time || (s != [] && Inserted(s, r)[i].time >= s[0].time)
  {
    if s != [] && r.time >= s[0].time {
      InsertedSorted(s[1..], r);
    }
  }

  lemma {:induction false} InsertedMembers(s: seq<Received>, r: Received)
    ensures multiset(Inserted(s, r)) == multiset(s) + multiset{r}
  {
    if s != [] && r.time >= s[0].time {
      InsertedMembers(s[1..], r);
      assert s == [s[0]] + s[1..];
    }
  }

  /** A sort that keeps the order in which it meets requests of equal time. */
  function Sort(s: seq<Received>): seq<Received> {
    if s == [] then [] else Inserted(Sort(s[..|s| - 1]), s[|s| - 1])
  }

  /** Whatever arrangement of the batch it starts from, the outcome is a permutation in order of receive time. */
  lemma {:induction false} SortSorts(s: seq<Received>)
    ensures SortOf(s, Sort(s))
  {
    if s != [] {
      var init, r := s[..|s| - 1], s[|s| - 1];
      SortSorts(init);
      assert s == init + [r];
      InsertedSorted(Sort(init), r);
      InsertedMembers(Sort(init), r);
    }
  }

  lemma {:induction false} InsertedLast(s: seq<Received>, r: Received)
    requires forall i :: 0 <= i < |s| ==> s[i].time <= r.time
    ensures Inserted(s, r) == s + [r]
  {
    if s != [] {
      InsertedLast(s[1..], r);
    }
  }

  /** What is in order stays as it is, so every outcome that the library's sort may have is reached. */
  lemma {:induction false} SortedStays(s: seq<Received>)
    requires Sorted(s)
    ensures Sort(s) == s
  {
    if s != [] {
      SortedStays(s[..|s| - 1]);
      InsertedLast(s[..|s| - 1], s[|s| - 1]);
    }
  }

  /** Different requests that were received at the same time. */
  ghost predicate Tie(s: seq<Received>, i: nat, j: nat) {
    i < j < |s| && s[i] != s[j] && s[i].time == s[j].time
  }

  lemma MultisetMember(s: seq<Received>, t: seq<Received>, x: Received)
    requires multiset(s) == multiset(t) && x in s
    ensures x in t
  {
    assert x in multiset(s);
  }

  lemma FirstIsLeast(s: seq<Received>, t: seq<Received>)
    requires SortOf(t, s) && Sorted(t) && s != []
    ensures t != [] && s[0].time == t[0].time
  {
    assert |s| == |multiset(s)| == |multiset(t)| == |t|;
    MultisetMember(s, t, s[0]);
    MultisetMember(t, s, t[0]);
  }

  ghost predicate NoTies(s: seq<Received>) {
    forall i, j :: 0 <= i < |s| && 0 <= j < |s| && s[i].time == s[j].time ==> s[i] == s[j]
  }

  lemma {:induction false} OnlyOrder(s: seq<Received>, t: seq<Received>)
    requires multiset(s) == multiset(t) && Sorted(s) && Sorted(t) && NoTies(s)
    ensures s == t
  {
    assert |s| == |multiset(s)| == |multiset(t)| == |t|;
    if s != [] {
      SameFirst(s, t);
      assert s == [s[0]] + s[1..] && t == [t[0]] + t[1..];
      assert multiset(s[1..]) == multiset(s) - multiset{s[0]};
      assert multiset(t[1..]) == multiset(t) - multiset{t[0]};
      OnlyOrder(s[1..], t[1..]);
    }
  }

  lemma SameFirst(s: seq<Received>, t: seq<Received>)
    requires multiset(s) == multiset(t) && Sorted(s) && Sorted(t) && NoTies(s) && s != []
    ensures t != [] && s[0] == t[0]
  {
    FirstIsLeast(s, t);
    MultisetMember(t, s, t[0]);
    var j :| 0 <= j < |s| && s[j] == t[0];
  }

  /** Between two different neighbours-in-time there are two adjacent ones. */
  lemma {:induction false} AdjacentTie(s: seq<Received>, i: nat, j: nat) returns (k: nat)
    requires Sorted(s) && Tie(s, i, j)
    ensures Tie(s, k, k + 1)
    decreases j - i
  {
    if s[i] != s[i + 1] {
      k := i;
    } else {
      k := AdjacentTie(s, i + 1, j);
    }
  }

  /** Exchanging two neighbours received at the same time gives another outcome. */
  lemma Exchanged(pending: seq<Received>, s: seq<Received>, k: nat)
    requires SortOf(pending, s) && Tie(s, k, k + 1)
    ensures SortOf(pending, s[k := s[k + 1]][k + 1 := s[k]]) && s[k := s[k + 1]][k + 1 := s[k]] != s
  {
    var t := s[k := s[k + 1]][k + 1 := s[k]];
    assert s == s[..k] + [s[k], s[k + 1]] + s[k + 2..];
    assert t == s[..k] + [s[k + 1], s[k]] + s[k + 2..];
    assert multiset([s[k], s[k + 1]]) == multiset([s[k + 1], s[k]]);
    assert t[k] != s[k];
  }

  /** The batch is published in one possible order only, exactly when no two different requests share a receive time. */
  lemma OrderIsDeterminedIff(pending: seq<Received>)
    ensures (forall s, t :: SortOf(pending, s) && SortOf(pending, t) ==> s == t)
            <==> forall x, y :: x in pending && y in pending && x.time == y.time ==> x == y
  {
    if forall x, y :: x in pending && y in pending && x.time == y.time ==> x == y {
      forall s, t | SortOf(pending, s) && SortOf(pending, t)
        ensures s == t
      {
        forall i | 0 <= i < |s|
          ensures s[i] in pending
        {
          MultisetMember(s, pending, s[i]);
        }
        OnlyOrder(s, t);
      }
    } else {
      var x, y :| x in pending && y in pending && x.time == y.time && x != y;
      var s, t := TwoOutcomes(pending, x, y);
    }
  }

  /** Two different requests received at the same time may be published in either order. */
  lemma TwoOutcomes(pending: seq<Received>, x: Received, y: Received) returns (s: seq<Received>, t: seq<Received>)
    requires x in pending && y in pending && x.time == y.time && x != y
    ensures SortOf(pending, s) && SortOf(pending, t) && s != t
  {
    s := Sort(pending);
    SortSorts(pending);
    hide Sort;
    MultisetMember(pending, s, x);
    MultisetMember(pending, s, y);
    var a: nat :| a < |s| && s[a] == x;
    var b: nat :| b < |s| && s[b] == y;
    var k := AdjacentTie(s, if a < b then a else b, if a < b then b else a);
    t := s[k := s[k + 1]][k + 1 := s[k]];
    Exchanged(pending, s, k);
  }

  function Requests(s: seq<Received>): (r: seq<Bytes>)
    ensures |r| == |s| && forall i :: 0 <= i < |s| ==> r[i] == s[i].request
  {
    seq(|s|, i requires 0 <= i < |s| => s[i].request)
  }

  class FIFOSequencer {
    const maxPending: nat
    var pendingClientRequests: seq<Received>
    var published: seq<Bytes>

    constructor (maxPending: nat)
      ensures pendingClientRequests == [] && published == [] && this.maxPending == maxPending
    {
      this.maxPending := maxPending;
      pendingClientRequests, published := [], [];
    }

    /** addClientRequest; when too many are pending the program exits, here ok is false. */
    method AddClientRequest(r: Received) returns (ok: bool)
      modifies this`pendingClientRequests
      ensures ok <==> |old(pendingClientRequests)| < maxPending
      ensures pendingClientRequests == old(pendingClientRequests) + if ok then [r] else []
    {
      if |pendingClientRequests| >= maxPending {
        return false;
      }
      pendingClientRequests := pendingClientRequests + [r];
      return true;
    }

    /**
     * sequenceAndPublish: every pending request is published once, earlier ones first. The library's sort is not
     * stable; arrangement is the order in which it may happen to take requests of equal time.
     */
    method SequenceAndPublish(arrangement: seq<Received>)
      requires multiset(arrangement) == multiset(pendingClientRequests)
      modifies this
      ensures SortOf(old(pendingClientRequests), Sort(arrangement))
      ensures pendingClientRequests == [] && published == old(published) + Requests(Sort(arrangement))
    {
      SortSorts(arrangement);
      assert |arrangement| == |multiset(arrangement)| == |pendingClientRequests|;
      if |pendingClientRequests| == 0 {
        return;
      }
      var sorted := SortBatch(arrangement);
      pendingClientRequests := sorted;
      for i := 0 to |pendingClientRequests|
        invariant pendingClientRequests == sorted && published == old(published) + Requests(sorted[..i])
      {
        published := published + [pendingClientRequests[i].request];
      }
      assert sorted[..|sorted|] == sorted;
      pendingClientRequests := [];
    }
  }

  method SortBatch(arrangement: seq<Received>) returns (sorted: seq<Received>)
    ensures sorted == Sort(arrangement)
  {
    sorted := [];
    for i := 0 to |arrangement|
      invariant sorted == Sort(arrangement[..i])
    {
      assert arrangement[..i + 1][..i] == arrangement[..i];
      sorted := Inserted(sorted, arrangement[i]);
    }
    assert arrangement[..|arrangement|] == arrangement;
  }
}
