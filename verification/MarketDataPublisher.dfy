/** The market data publisher: it numbers the updates of the matching engine and passes them to both streams. */
module MarketDataPublishers {
  import opened Types
  import opened LFQueues
  import opened Snapshots

  /** The updates as messages numbered from first on. */
  function Numbered(first: nat, us: seq<Update>): (ms: seq<Message>)
    ensures |ms| == |us| && forall i :: 0 <= i < |us| ==> ms[i] == Message(first + i, us[i])
  {
    seq(|us|, i requires 0 <= i < |us| => Message(first + i, us[i]))
  }

  class MarketDataPublisher {
    const outgoingMdUpdates: LFQueue<Update>
    const snapshotMdUpdates: LFQueue<Message>
    var nextIncSeqNum: nat
    var incrementalSocket: seq<Message>

    ghost predicate Valid()
      reads this, outgoingMdUpdates, outgoingMdUpdates.store, snapshotMdUpdates, snapshotMdUpdates.store
    {
      && outgoingMdUpdates.Valid() && snapshotMdUpdates.Valid()
      && outgoingMdUpdates as object != snapshotMdUpdates
        && outgoingMdUpdates.store as object != snapshotMdUpdates.store
    }

    constructor (marketUpdates: LFQueue<Update>, capacity: nat, blank: Message)
      requires marketUpdates.Valid() && capacity > 0
      ensures Valid() && outgoingMdUpdates == marketUpdates && fresh(snapshotMdUpdates)
      ensures fresh(snapshotMdUpdates.store)
      ensures nextIncSeqNum == 1 && incrementalSocket == [] && snapshotMdUpdates.contents == []
      ensures snapshotMdUpdates.store.Length == capacity
    {
      outgoingMdUpdates := marketUpdates;
      snapshotMdUpdates := new LFQueue(capacity, blank);
      nextIncSeqNum, incrementalSocket := 1, [];
    }

    /**
     * The body of run's loop: the oldest update is published, its slot released, and then, from the released slot,
     * forwarded to the snapshot synthesizer under the same number.
     */
    method Publish(marketUpdate: nat)
      requires Valid() && outgoingMdUpdates.contents != [] && marketUpdate < outgoingMdUpdates.store.Length
      requires outgoingMdUpdates.store[marketUpdate] == outgoingMdUpdates.contents[0]
      requires |snapshotMdUpdates.contents| < snapshotMdUpdates.store.Length
      modifies this, outgoingMdUpdates, snapshotMdUpdates, snapshotMdUpdates.store
      ensures Valid() && outgoingMdUpdates.contents == old(outgoingMdUpdates.contents)[1..]
      ensures nextIncSeqNum == old(nextIncSeqNum) + 1
      ensures var m := Message(old(nextIncSeqNum), old(outgoingMdUpdates.contents[0]));
              incrementalSocket == old(incrementalSocket) + [m]
                  && snapshotMdUpdates.contents == old(snapshotMdUpdates.contents) + [m]
    {
      incrementalSocket := incrementalSocket + [Message(nextIncSeqNum, outgoingMdUpdates.store[marketUpdate])];
      outgoingMdUpdates.UpdateReadIndex();
      snapshotMdUpdates.Write(Message(nextIncSeqNum, outgoingMdUpdates.store[marketUpdate]));
      nextIncSeqNum := nextIncSeqNum + 1;
    }

    /** One turn of run: everything queued is published and forwarded under consecutive numbers, in order. */
    method Drain()
      requires Valid()
      requires |outgoingMdUpdates.contents| + |snapshotMdUpdates.contents| <= snapshotMdUpdates.store.Length
      modifies this, outgoingMdUpdates, snapshotMdUpdates, snapshotMdUpdates.store
      ensures Valid() && outgoingMdUpdates.contents == []
      ensures nextIncSeqNum == old(nextIncSeqNum) + old(|outgoingMdUpdates.contents|)
      ensures var ms := Numbered(old(nextIncSeqNum), old(outgoingMdUpdates.contents));
              incrementalSocket == old(incrementalSocket) + ms
                  && snapshotMdUpdates.contents == old(snapshotMdUpdates.contents) + ms
    {
      ghost var us := outgoingMdUpdates.contents;
      ghost var all := Numbered(nextIncSeqNum, us);
      ghost var k := 0;
      var some: bool, marketUpdate: nat := outgoingMdUpdates.GetNextToRead();
      while some
        invariant Valid() && k <= |us| && outgoingMdUpdates.contents == us[k..]
        invariant nextIncSeqNum == old(nextIncSeqNum) + k
        invariant some <==> outgoingMdUpdates.contents != []
        invariant some ==> marketUpdate < outgoingMdUpdates.store.Length
        invariant some ==> outgoingMdUpdates.store[marketUpdate] == outgoingMdUpdates.contents[0]
        invariant incrementalSocket == old(incrementalSocket) + all[..k]
        invariant snapshotMdUpdates.contents == old(snapshotMdUpdates.contents) + all[..k]
        decreases |us| - k
      {
        Publish(marketUpdate);
        assert all[..k + 1] == all[..k] + [all[k]];
        k := k + 1;
        some, marketUpdate := outgoingMdUpdates.GetNextToRead();
      }
      assert all[..k] == all;
    }
  }
}
