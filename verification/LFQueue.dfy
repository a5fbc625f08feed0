/**
 * The lock-free single-producer single-consumer queue, one atomic operation at a time. Either side may be paused
 * between any two of its operations while the other runs on.
 */
module LFQueues {

  /** Where the producer stands between two of its operations. */
  datatype Producer<T> =
    | Away
    | Filling(slot: nat)
    | Full(value: T)
    | GotWriteIndex(index: nat, value: T)
    | MovedWriteIndex(value: T)

  /** Where the consumer stands; it may go on using a slot after it has been released. */
  datatype Consumer<T> =
    | Waiting
    | SawElements
    | Holding(slot: nat)
    | Used(slot: nat, value: T)
    | GotReadIndex(index: nat, slot: nat, value: T)
    | MovedReadIndex(slot: nat, value: T)
    | Released(slot: nat, value: T)

  /** The shared memory, the two sides, and the values written and read so far. */
  datatype Queue<T> = Queue(
    store: seq<T>, writeIndex: nat, readIndex: nat, count: nat,
    producer: Producer<T>, consumer: Consumer<T>, written: seq<T>, read: seq<T>, released: nat)

  datatype Operation<T> =
    | Begin | Fill(value: T) | LoadWriteIndex | StoreWriteIndex | Increment
    | LoadCount | LoadReadIndex | Use | ReloadReadIndex | StoreReadIndex | Decrement

  function Fresh<T>(store: seq<T>): Queue<T> {
    Queue(store, 0, 0, 0, Away, Waiting, [], [], 0)
  }

  /** A write starts only while at least spare slots are free; nothing in the queue itself checks that. */
  predicate Enabled<T>(q: Queue<T>, spare: nat, op: Operation<T>) {
    match op
    case Begin => q.producer.Away? && q.count + spare <= |q.store|
    case Fill(_) => q.producer.Filling? && q.producer.slot < |q.store|
    case LoadWriteIndex => q.producer.Full?
    case StoreWriteIndex => q.producer.GotWriteIndex? && |q.store| > 0
    case Increment => q.producer.MovedWriteIndex?
    case LoadCount => q.consumer.Waiting? || q.consumer.Released?
    case LoadReadIndex => q.consumer.SawElements?
    case Use => q.consumer.Holding? && q.consumer.slot < |q.store|
    case ReloadReadIndex => q.consumer.Used?
    case StoreReadIndex => q.consumer.GotReadIndex? && |q.store| > 0
    case Decrement => q.consumer.MovedReadIndex? && q.count > 0
  }

  function Do<T>(q: Queue<T>, spare: nat, op: Operation<T>): Queue<T>
    requires Enabled(q, spare, op)
  {
    match op
    case Begin => q.(producer := Filling(q.writeIndex))
    case Fill(value) => q.(store := q.store[q.producer.slot := value], producer := Full(value))
    case LoadWriteIndex => q.(producer := GotWriteIndex(q.writeIndex, q.producer.value))
    case StoreWriteIndex => q.(writeIndex := (q.producer.index + 1) % |q.store|,
                                 producer := MovedWriteIndex(q.producer.value))
    case Increment => q.(count := q.count + 1, written := q.written + [q.producer.value], producer := Away)
    case LoadCount => q.(consumer := if q.count > 0 then SawElements else Waiting)
    case LoadReadIndex => q.(consumer := Holding(q.readIndex))
    case Use =>
      var v := q.store[q.consumer.slot];
      q.(read := q.read + [v], consumer := Used(q.consumer.slot, v))
    case ReloadReadIndex => q.(consumer := GotReadIndex(q.readIndex, q.consumer.slot, q.consumer.value))
    case StoreReadIndex =>
      q.(readIndex := (q.consumer.index + 1) % |q.store|, consumer := MovedReadIndex(q.consumer.slot, q.consumer.value))
    case Decrement =>
      q.(count := q.count - 1, released := q.released + 1, consumer := Released(q.consumer.slot, q.consumer.value))
  }

  // ----- the invariant

  /** The k-th value written is still in its slot. */
  ghost predicate Kept<T>(q: Queue<T>, k: nat) {
    k < |q.written| && |q.store| > 0 && q.store[k % |q.store|] == q.written[k]
  }

  ghost predicate ProducerOk<T>(q: Queue<T>, spare: nat)
    requires |q.store| > 0
  {
    var n, w := |q.store|, |q.written|;
    && (!q.producer.Away? ==> q.count + spare <= n)
    && q.writeIndex == (if q.producer.MovedWriteIndex? then w + 1 else w) % n
    && match q.producer
       case Away => true
       case Filling(slot) => slot == w % n
       case Full(value) => q.store[w % n] == value
       case GotWriteIndex(index, value) => index == w % n && q.store[w % n] == value
       case MovedWriteIndex(value) => q.store[w % n] == value
  }

  /** How many values the consumer has used without having released their slots: none or one. */
  function Unreleased<T>(c: Consumer<T>): nat {
    if c.Used? || c.GotReadIndex? || c.MovedReadIndex? then 1 else 0
  }

  ghost predicate ConsumerOk<T>(q: Queue<T>, spare: nat)
    requires |q.store| > 0 && |q.read| <= |q.written|
  {
    var n, r := |q.store|, q.released;
    && q.read == q.written[..|q.read|]
    && |q.read| == r + Unreleased(q.consumer)
    && q.readIndex == (if q.consumer.MovedReadIndex? then r + 1 else r) % n
    && (q.consumer.SawElements? || q.consumer.Holding? || Unreleased(q.consumer) == 1 ==> q.count > 0)
    && match q.consumer
       case Waiting => true
       case SawElements => true
       case Holding(slot) => slot == r % n
       case Used(slot, value) => slot == r % n && value == q.written[r]
       case GotReadIndex(index, slot, value) => index == slot == r % n && value == q.written[r]
       case MovedReadIndex(slot, value) => slot == r % n && value == q.written[r]
       case Released(slot, value) => r > 0 && slot == (r - 1) % n && value == q.written[r - 1]
                                     && (spare >= 2 ==> q.store[slot] == value)
  }

  ghost predicate Inv<T>(q: Queue<T>, spare: nat) {
    && |q.store| > 0 && q.released + q.count == |q.written| && q.count <= |q.store| && |q.read| <= |q.written|
    && (forall k: nat {:trigger Kept(q, k)} :: q.released <= k < |q.written| ==> Kept(q, k))
    && ProducerOk(q, spare) && ConsumerOk(q, spare)
  }

  lemma FreshInv<T>(store: seq<T>, spare: nat)
    requires |store| > 0
    ensures Inv(Fresh(store), spare)
  {
  }

  /** Numbers less than a lap apart fall into different slots. */
  lemma DifferentSlots(a: nat, b: nat, n: nat)
    requires a < b < a + n
    ensures a % n != b % n
  {
    var d := b / n - a / n;
    assert a == a / n * n + a % n && b == b / n * n + b % n;
    assert b - a == d * n + (b % n - a % n);
    if d >= 1 {
      LapsPositive(d, n);
    } else {
      LapsNegative(d, n);
    }
  }

  lemma LapsPositive(d: int, n: nat)
    requires d >= 1
    ensures d * n >= n
  {
  }

  lemma LapsNegative(d: int, n: nat)
    requires d <= 0
    ensures d * n <= 0
  {
  }

  lemma NextSlot(k: nat, n: nat)
    requires n > 0
    ensures (k % n + 1) % n == (k + 1) % n
  {
    NextInLap(k, k / n, k % n, n);
  }

  lemma NextInLap(k: nat, q: nat, r: nat, n: nat)
    requires n > 0 && r < n && k == q * n + r
    ensures (r + 1) % n == (k + 1) % n
  {
    if r + 1 < n {
      RemainderIs(k + 1, q, r + 1, n);
      RemainderIs(r + 1, 0, r + 1, n);
    } else {
      OneMoreLap(q, n);
      OneMoreLap(0, n);
      RemainderIs(k + 1, q + 1, 0, n);
      RemainderIs(r + 1, 1, 0, n);
    }
  }

  lemma OneMoreLap(q: nat, n: nat)
    ensures (q + 1) * n == q * n + n
  {
  }

  lemma RemainderIs(x: nat, q: nat, r: nat, n: nat)
    requires r < n && x == q * n + r
    ensures x % n == r
  {
    var d := x / n - q;
    assert x == x / n * n + x % n;
    assert d * n == r - x % n;
    if d >= 1 {
      LapsPositive(d, n);
    } else if d <= -1 {
      LapsPositive(-d, n);
    }
  }

  lemma FillKeeps<T>(q: Queue<T>, spare: nat, value: T)
    requires Inv(q, spare) && spare >= 1 && Enabled(q, spare, Fill(value))
    ensures Inv(Do(q, spare, Fill(value)), spare)
  {
    var t, n, w := Do(q, spare, Fill(value)), |q.store|, |q.written|;
    forall k: nat | q.released <= k < w
      ensures Kept(t, k)
    {
      assert Kept(q, k);
      DifferentSlots(k, w, n);
    }
    if spare >= 2 && q.consumer.Released? {
      DifferentSlots(q.released - 1, w, n);
    }
  }

  lemma IncrementKeeps<T>(q: Queue<T>, spare: nat)
    requires Inv(q, spare) && spare >= 1 && Enabled(q, spare, Increment)
    ensures Inv(Do(q, spare, Increment), spare)
  {
    var t := Do(q, spare, Increment);
    forall k: nat | t.released <= k < |t.written|
      ensures Kept(t, k)
    {
      assert k < |q.written| ==> Kept(q, k);
    }
  }

  lemma DecrementKeeps<T>(q: Queue<T>, spare: nat)
    requires Inv(q, spare) && spare >= 1 && Enabled(q, spare, Decrement)
    ensures Inv(Do(q, spare, Decrement), spare)
  {
    var t := Do(q, spare, Decrement);
    assert Kept(q, q.released);
    forall k: nat | t.released <= k < |t.written|
      ensures Kept(t, k)
    {
      assert Kept(q, k);
    }
  }

  lemma DoKeeps<T>(q: Queue<T>, spare: nat, op: Operation<T>)
    requires Inv(q, spare) && spare >= 1 && Enabled(q, spare, op)
    ensures Inv(Do(q, spare, op), spare)
  {
    var t := Do(q, spare, op);
    match op
    case Fill(value) => FillKeeps(q, spare, value);
    case Increment => IncrementKeeps(q, spare);
    case Decrement => DecrementKeeps(q, spare);
    case StoreWriteIndex =>
      NextSlot(|q.written|, |q.store|);
      SameKept(q, t);
    case StoreReadIndex =>
      NextSlot(q.released, |q.store|);
      SameKept(q, t);
    case Use =>
      assert Kept(q, q.released);
      SameKept(q, t);
    case _ =>
      SameKept(q, t);
  }

  lemma SameKept<T>(q: Queue<T>, t: Queue<T>)
    requires t.store == q.store && t.written == q.written
    ensures forall k: nat {:trigger Kept(t, k)} :: Kept(q, k) ==> Kept(t, k)
  {
  }

  // ----- all interleavings

  ghost predicate Runs<T>(store: seq<T>, spare: nat, ops: seq<Operation<T>>)
    decreases |ops|, 0
  {
    ops == [] || (Runs(store, spare, ops[..|ops| - 1])
        && Enabled(After(store, spare, ops[..|ops| - 1]), spare, ops[|ops| - 1]))
  }

  ghost function After<T>(store: seq<T>, spare: nat, ops: seq<Operation<T>>): Queue<T>
    requires Runs(store, spare, ops)
    decreases |ops|, 1
  {
    if ops == [] then Fresh(store) else Do(After(store, spare, ops[..|ops| - 1]), spare, ops[|ops| - 1])
  }

  lemma {:induction false} InvAlways<T>(store: seq<T>, spare: nat, ops: seq<Operation<T>>)
    requires |store| > 0 && spare >= 1 && Runs(store, spare, ops)
    ensures Inv(After(store, spare, ops), spare)
  {
    if ops == [] {
      FreshInv(store, spare);
    } else {
      hide Inv, Enabled, Do;
      InvAlways(store, spare, ops[..|ops| - 1]);
      DoKeeps(After(store, spare, ops[..|ops| - 1]), spare, ops[|ops| - 1]);
    }
  }

  /**
   * In every interleaving in which writes start only with a free slot, the values read are a prefix of those written,
   * the count never exceeds the capacity, and the check before the decrement never fails.
   */
  lemma ReadsArePrefix<T>(store: seq<T>, spare: nat, ops: seq<Operation<T>>)
    requires |store| > 0 && spare >= 1 && Runs(store, spare, ops)
    ensures var q := After(store, spare, ops);
            && q.read <= q.written && q.count <= |store| && |q.store| == |store|
            && (q.consumer.MovedReadIndex? ==> q.count > 0)
  {
    InvAlways(store, spare, ops);
    StoreSize(store, spare, ops);
  }

  lemma {:induction false} StoreSize<T>(store: seq<T>, spare: nat, ops: seq<Operation<T>>)
    requires Runs(store, spare, ops)
    ensures |After(store, spare, ops).store| == |store|
  {
    if ops != [] {
      StoreSize(store, spare, ops[..|ops| - 1]);
    }
  }

  /** A slot that was released and not left yet still holds the value read from it. */
  ghost predicate SlotKept<T>(q: Queue<T>) {
    q.consumer.Released? ==>
      && q.consumer.slot < |q.store| && |q.read| > 0
      && q.store[q.consumer.slot] == q.consumer.value == q.read[|q.read| - 1]
  }

  /**
   * If writes start only with two free slots, a slot just released still holds the value read from it until the
   * consumer turns to the next one.
   */
  lemma ReleasedSlotStays<T>(store: seq<T>, spare: nat, ops: seq<Operation<T>>)
    requires |store| > 0 && spare >= 2 && Runs(store, spare, ops)
    ensures SlotKept(After(store, spare, ops))
  {
    InvAlways(store, spare, ops);
  }

  // ----- why both bounds are needed

  lemma OneMore<T>(store: seq<T>, spare: nat, ops: seq<Operation<T>>, op: Operation<T>)
    requires Runs(store, spare, ops) && Enabled(After(store, spare, ops), spare, op)
    ensures Runs(store, spare, ops + [op]) && After(store, spare, ops + [op]) == Do(After(store, spare, ops), spare, op)
  {
    hide Enabled, Do;
    assert (ops + [op])[..|ops|] == ops;
  }

  /** A whole write, nothing else happening meanwhile. */
  function Wrote<T>(q: Queue<T>, value: T): Queue<T>
    requires q.writeIndex < |q.store|
  {
    q.(store := q.store[q.writeIndex := value], writeIndex := (q.writeIndex + 1) % |q.store|, count := q.count + 1,
       written := q.written + [value])
  }

  lemma WriteThrough<T>(store: seq<T>, spare: nat, ops: seq<Operation<T>>, value: T) returns (ops': seq<Operation<T>>)
    requires Runs(store, spare, ops)
    requires var q := After(store, spare, ops);
             q.producer == Away && q.count + spare <= |q.store| && q.writeIndex < |q.store|
    ensures Runs(store, spare, ops') && After(store, spare, ops') == Wrote(After(store, spare, ops), value)
  {
    hide Runs, After;
    OneMore(store, spare, ops, Begin);
    ops' := ops + [Begin];
    OneMore(store, spare, ops', Fill(value));
    ops' := ops' + [Fill(value)];
    OneMore(store, spare, ops', LoadWriteIndex);
    ops' := ops' + [LoadWriteIndex];
    OneMore(store, spare, ops', StoreWriteIndex);
    ops' := ops' + [StoreWriteIndex];
    OneMore(store, spare, ops', Increment);
    ops' := ops' + [Increment];
  }

  /** A whole read, ending with the release of the slot. */
  function ReadOut<T>(q: Queue<T>): Queue<T>
    requires q.readIndex < |q.store| && q.count > 0
  {
    var v := q.store[q.readIndex];
    q.(readIndex := (q.readIndex + 1) % |q.store|, count := q.count - 1, read := q.read + [v],
        released := q.released + 1,
       consumer := Released(q.readIndex, v))
  }

  lemma ReadThrough<T>(store: seq<T>, spare: nat, ops: seq<Operation<T>>) returns (ops': seq<Operation<T>>)
    requires Runs(store, spare, ops)
    requires var q := After(store, spare, ops); q.consumer.Waiting? && q.count > 0 && q.readIndex < |q.store|
    ensures Runs(store, spare, ops') && After(store, spare, ops') == ReadOut(After(store, spare, ops))
  {
    hide Runs, After;
    OneMore(store, spare, ops, LoadCount);
    ops' := ops + [LoadCount];
    OneMore(store, spare, ops', LoadReadIndex);
    ops' := ops' + [LoadReadIndex];
    OneMore(store, spare, ops', Use);
    ops' := ops' + [Use];
    OneMore(store, spare, ops', ReloadReadIndex);
    ops' := ops' + [ReloadReadIndex];
    OneMore(store, spare, ops', StoreReadIndex);
    ops' := ops' + [StoreReadIndex];
    OneMore(store, spare, ops', Decrement);
    ops' := ops' + [Decrement];
  }

  lemma NothingDone<T>(store: seq<T>, spare: nat)
    ensures Runs(store, spare, []) && After(store, spare, []) == Fresh(store)
  {
  }

  /** What some whole writes leave as it was, and where they leave the write index. */
  ghost predicate WroteSome<T>(q: Queue<T>, t: Queue<T>, k: nat) {
    && t.producer == Away && t.consumer == q.consumer && t.readIndex == q.readIndex && t.read == q.read
    && |t.store| == |q.store| > 0 && t.writeIndex == (q.writeIndex + k) % |q.store| && t.count == q.count + k
    && q.written <= t.written
  }

  lemma WroteOneMore<T>(q: Queue<T>, t: Queue<T>, k: nat, value: T)
    requires WroteSome(q, t, k) && t.writeIndex < |t.store|
    ensures WroteSome(q, Wrote(t, value), k + 1)
  {
    NextSlot(q.writeIndex + k, |q.store|);
  }

  lemma IndexInside(i: nat, n: nat)
    requires n > 0
    ensures i % n < n && (i < n ==> i % n == i)
  {
  }

  lemma {:induction false} WriteMany<T>(store: seq<T>, spare: nat, ops: seq<Operation<T>>, value: T, k: nat)
    returns (ops': seq<Operation<T>>)
    requires Runs(store, spare, ops)
    requires var q := After(store, spare, ops);
             q.producer == Away && q.writeIndex < |q.store| && (k > 0 ==> q.count + k - 1 + spare <= |q.store|)
    ensures Runs(store, spare, ops') && WroteSome(After(store, spare, ops), After(store, spare, ops'), k)
  {
    hide Runs, After;
    var q := After(store, spare, ops);
    IndexInside(q.writeIndex, |q.store|);
    if k == 0 {
      ops' := ops;
    } else {
      ops' := WriteMany(store, spare, ops, value, k - 1);
      var t := After(store, spare, ops');
      IndexInside(q.writeIndex + (k - 1), |q.store|);
      hide WroteSome;
      WroteSomeBasics(q, t, k - 1);
      WroteOneMore(q, t, k - 1, value);
      ops' := WriteThrough(store, spare, ops', value);
    }
  }

  lemma WroteSomeBasics<T>(q: Queue<T>, t: Queue<T>, k: nat)
    requires WroteSome(q, t, k)
    ensures t.producer == Away && |t.store| == |q.store| > 0 && t.count == q.count + k && t.consumer == q.consumer
    ensures t.readIndex == q.readIndex && t.read == q.read && q.written <= t.written
    ensures t.writeIndex == (q.writeIndex + k) % |q.store| < |q.store|
  {
    IndexInside(q.writeIndex + k, |q.store|);
  }

  /** Going on from slot 1 by all slots but one leads to slot 0. */
  lemma OnceRound(n: nat)
    requires n > 0
    ensures (1 % n + (n - 1)) % n == 0
  {
    if n > 1 {
      IndexInside(1, n);
    }
    OneMoreLap(0, n);
    RemainderIs(n, 1, 0, n);
  }

  /** Whatever the capacity, a queue written to without regard to room hands out a value that was not written first. */
  lemma UnreadSlotOverwritten<T>(store: seq<T>, a: T, b: T) returns (ops: seq<Operation<T>>)
    requires |store| > 0 && a != b
    ensures Runs(store, 0, ops) && !(After(store, 0, ops).read <= After(store, 0, ops).written)
  {
    hide Runs, After;
    var n := |store|;
    NothingDone(store, 0);
    ops := WriteThrough(store, 0, [], a);
    IndexInside(1, n);
    OnceRound(n);
    var q := After(store, 0, ops);
    ops := WriteMany(store, 0, ops, b, n - 1);
    var t := After(store, 0, ops);
    WroteSomeBasics(q, t, n - 1);
    hide WroteSome;
    ops := WriteThrough(store, 0, ops, b);
    ops := ReadThrough(store, 0, ops);
    assert After(store, 0, ops).read == [b] && After(store, 0, ops).written[0] == a;
  }

  /** Whatever the capacity, one free slot is not enough to keep the slot just released. */
  lemma ReleasedSlotOverwritten<T>(store: seq<T>, spare: nat, a: T, b: T) returns (ops: seq<Operation<T>>)
    requires |store| > 0 && spare <= 1 && a != b
    ensures Runs(store, spare, ops) && !SlotKept(After(store, spare, ops))
  {
    hide Runs, After;
    var n := |store|;
    NothingDone(store, spare);
    ops := WriteThrough(store, spare, [], a);
    IndexInside(1, n);
    OnceRound(n);
    ops := ReadThrough(store, spare, ops);
    var q := After(store, spare, ops);
    ops := WriteMany(store, spare, ops, b, n - 1);
    var t := After(store, spare, ops);
    WroteSomeBasics(q, t, n - 1);
    hide WroteSome;
    ops := WriteThrough(store, spare, ops, b);
  }

  /** The values read are a prefix of those written in every interleaving if and only if writes wait for a free slot. */
  lemma ReadsArePrefixIff<T>(store: seq<T>, spare: nat, a: T, b: T)
    requires |store| > 0 && a != b
    ensures (forall ops :: Runs(store, spare, ops) ==>
            After(store, spare, ops).read <= After(store, spare, ops).written)
            <==> spare >= 1
  {
    if spare >= 1 {
      forall ops | Runs(store, spare, ops)
        ensures After(store, spare, ops).read <= After(store, spare, ops).written
      {
        ReadsArePrefix(store, spare, ops);
      }
    } else {
      var ops := UnreadSlotOverwritten(store, a, b);
    }
  }

  /** A released slot keeps its value in every interleaving if and only if writes wait for two free slots. */
  lemma ReleasedSlotStaysIff<T>(store: seq<T>, spare: nat, a: T, b: T)
    requires |store| > 0 && a != b
    ensures (forall ops :: Runs(store, spare, ops) ==> SlotKept(After(store, spare, ops))) <==> spare >= 2
  {
    if spare >= 2 {
      forall ops | Runs(store, spare, ops)
        ensures SlotKept(After(store, spare, ops))
      {
        ReleasedSlotStays(store, spare, ops);
      }
    } else {
      var ops := ReleasedSlotOverwritten(store, spare, a, b);
    }
  }

  // ----- the object, as one thread at a time sees it

  function Wrap(i: nat, n: nat): nat
    requires i < 2 * n
  {
    if i < n then i else i - n
  }

  /** The index after i, as the code computes it. */
  function NextIndex(i: nat, n: nat): nat
    requires n > 0
  {
    (i + 1) % n
  }

  lemma NextIndexWraps(i: nat, n: nat)
    requires i < n
    ensures NextIndex(i, n) == Wrap(i + 1, n)
  {
    if i + 1 < n {
      RemainderIs(i + 1, 0, i + 1, n);
    } else {
      OneMoreLap(0, n);
      RemainderIs(i + 1, 1, 0, n);
    }
  }

  class LFQueue<T> {
    const store: array<T>
    var nextWriteIndex: nat
    var nextReadIndex: nat
    var numElements: nat
    ghost var contents: seq<T>

    ghost predicate Valid()
      reads this, store
    {
      && nextReadIndex < store.Length && numElements == |contents| <= store.Length
      && nextWriteIndex == Wrap(nextReadIndex + numElements, store.Length)
      && forall i :: 0 <= i < |contents| ==> store[Wrap(nextReadIndex + i, store.Length)] == contents[i]
    }

    constructor (numElems: nat, blank: T)
      requires numElems > 0
      ensures Valid() && fresh(store) && contents == [] && store.Length == numElems
    {
      store := new T[numElems](_ => blank);
      nextWriteIndex, nextReadIndex, numElements, contents := 0, 0, 0, [];
    }

    /** Assignment through getNextToWriteTo, then updateWriteIndex; nothing here checks that there is room. */
    method Write(v: T)
      requires Valid() && numElements < store.Length
      modifies this, store
      ensures Valid() && contents == old(contents) + [v] && nextReadIndex == old(nextReadIndex)
    {
      NextIndexWraps(nextWriteIndex, store.Length);
      hide NextIndex;
      store[nextWriteIndex] := v;
      nextWriteIndex := NextIndex(nextWriteIndex, store.Length);
      numElements := numElements + 1;
      contents := contents + [v];
    }

    /** getNextToRead: the slot of the oldest element, if any. */
    method GetNextToRead() returns (some: bool, slot: nat)
      requires Valid()
      ensures some <==> contents != []
      ensures some ==> slot < store.Length && store[slot] == contents[0]
    {
      some, slot := numElements != 0, nextReadIndex;
      if some {
        assert store[Wrap(nextReadIndex + 0, store.Length)] == contents[0];
      }
    }

    /** updateReadIndex: the slot is released, its value stays where it is. */
    method UpdateReadIndex()
      requires Valid() && contents != []
      modifies this
      ensures Valid() && contents == old(contents)[1..]
    {
      ghost var before, first := contents, nextReadIndex;
      NextIndexWraps(nextReadIndex, store.Length);
      hide NextIndex;
      nextReadIndex := NextIndex(nextReadIndex, store.Length);
      numElements := numElements - 1;
      contents := contents[1..];
      forall i | 0 <= i < |contents|
        ensures store[Wrap(nextReadIndex + i, store.Length)] == contents[i]
      {
        assert contents[i] == before[i + 1];
        assert Wrap(nextReadIndex + i, store.Length) == Wrap(first + (i + 1), store.Length);
      }
    }
  }
}
