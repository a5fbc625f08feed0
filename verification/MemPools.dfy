/** The fixed-capacity object pool. A pointer to an object is the index of its block. */
module MemPools {

  datatype ObjectBlock<T> = ObjectBlock(item: T, isFree: bool)

  /** Indices of the blocks in use. */
  ghost function LiveSet<T>(blocks: seq<ObjectBlock<T>>): set<nat> {
    set i: nat | i < |blocks| && !blocks[i].isFree
  }

  /** The block visited after i by the circular scan. */
  function After(i: nat, n: nat): nat {
    if i + 1 == n then 0 else i + 1
  }

  /** Whether j lies on the circular walk that starts at i and stops before k. */
  predicate OnWalk(i: nat, j: nat, k: nat) {
    if i <= k then i <= j < k else i <= j || j < k
  }

  lemma LiveBound<T>(blocks: seq<ObjectBlock<T>>, free: set<nat>)
    requires forall i :: i in free ==> i < |blocks| && blocks[i].isFree
    ensures |LiveSet(blocks)| + |free| <= |blocks|
    ensures (forall i: nat :: i < |blocks| && blocks[i].isFree ==> i in free)
            ==> |LiveSet(blocks)| + |free| == |blocks|
  {
    var live := LiveSet(blocks);
    var all := Indices(|blocks|);
    assert live !! free && live + free <= all;
    SubsetSize(live + free, all);
    assert |live + free| == |live| + |free|;
    if forall i: nat :: i < |blocks| && blocks[i].isFree ==> i in free {
      assert live + free == all;
    }
  }

  ghost function Indices(n: nat): (r: set<nat>)
    ensures |r| == n && forall i: nat :: i in r <==> i < n
  {
    if n == 0 then {} else Indices(n - 1) + {n - 1}
  }

  lemma {:induction false} SubsetSize<T>(a: set<T>, b: set<T>)
    requires a <= b
    ensures |a| <= |b|
  {
    if a != {} {
      var x :| x in a;
      SubsetSize(a - {x}, b - {x});
    }
  }

  class MemPool<T> {
    const store: array<ObjectBlock<T>>
    var nextFreeIndex: nat

    /** Between calls the cursor designates a free block. */
    ghost predicate Valid()
      reads this, store
    {
      nextFreeIndex < store.Length && store[nextFreeIndex].isFree
    }

    ghost function Blocks(): seq<ObjectBlock<T>>
      reads store
    {
      store[..]
    }

    constructor (numElems: nat, initial: T)
      requires numElems > 0
      ensures Valid() && fresh(store)
      ensures |Blocks()| == numElems && LiveSet(Blocks()) == {}
    {
      store := new ObjectBlock<T>[numElems](_ => ObjectBlock(initial, true));
      nextFreeIndex := 0;
    }

    /**
     * Puts obj in the block under the cursor and moves the cursor to the next free block.
     * When no other block is free the program reports "out of space" and exits, here ok is false.
     */
    method Allocate(obj: T) returns (ok: bool, r: nat)
      requires Valid()
      modifies this, store
      ensures r == old(nextFreeIndex) < store.Length && old(store[r].isFree)
      ensures Blocks() == old(Blocks())[r := ObjectBlock(obj, false)]
      ensures LiveSet(Blocks()) == old(LiveSet(Blocks())) + {r}
      ensures ok <==> old(|LiveSet(Blocks())|) < store.Length - 1
      ensures ok ==> Valid() && forall j: nat :: OnWalk(r, j, nextFreeIndex) && j < store.Length ==> !store[j].isFree
    {
      r := nextFreeIndex;
      store[r] := ObjectBlock(obj, false);
      ok := UpdateNextFreeIndex();
      ghost var before := old(Blocks());
      LiveBound(before, {r});
      if ok {
        assert before[nextFreeIndex].isFree;
        LiveBound(before, {r, nextFreeIndex});
      }
    }

    /** The circular scan; false when it returns to where it started. */
    method UpdateNextFreeIndex() returns (ok: bool)
      requires nextFreeIndex < store.Length && !store[nextFreeIndex].isFree
      modifies this`nextFreeIndex
      ensures ok ==> Valid() && forall j: nat ::
                     OnWalk(old(nextFreeIndex), j, nextFreeIndex) && j < store.Length ==> !store[j].isFree
      ensures !ok <==> forall j: nat :: j < store.Length ==> !store[j].isFree
    {
      var initial := nextFreeIndex;
      var steps := 0;
      while !store[nextFreeIndex].isFree
        invariant nextFreeIndex < store.Length
        invariant forall j: nat :: OnWalk(initial, j, nextFreeIndex) && j < store.Length ==> !store[j].isFree
        invariant nextFreeIndex == initial ==> steps == 0
        invariant steps == if initial <= nextFreeIndex then nextFreeIndex - initial
                           else nextFreeIndex + store.Length - initial
        decreases store.Length - steps
      {
        nextFreeIndex := After(nextFreeIndex, store.Length);
        steps := steps + 1;
        if nextFreeIndex == initial {
          return false;
        }
      }
      return true;
    }

    /** Marks a block in use as free again. */
    method Deallocate(i: nat)
      requires Valid() && i < store.Length && !store[i].isFree
      modifies store
      ensures Valid()
      ensures Blocks() == old(Blocks())[i := old(store[i]).(isFree := true)]
      ensures LiveSet(Blocks()) == old(LiveSet(Blocks())) - {i}
    {
      store[i] := store[i].(isFree := true);
    }

    /** Assignment through a pointer. */
    method Write(i: nat, obj: T)
      requires i < store.Length
      modifies store
      ensures Blocks() == old(Blocks())[i := old(store[i]).(item := obj)]
      ensures old(Valid()) ==> Valid()
      ensures LiveSet(Blocks()) == old(LiveSet(Blocks()))
    {
      store[i] := store[i].(item := obj);
    }
  }
}
