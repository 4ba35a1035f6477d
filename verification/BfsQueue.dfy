/** The breadth-first search queue shared by both cuckoo tables: a fixed ring of search entries. */
module BfsQueue {
  import opened Hashing

  const MAX_CUCKOO_COUNT: nat := 512
  const MAX_BFS_PATH_LEN: nat := 5

  /** A search entry: the bucket it reached, the base-S code of the slots taken, and its depth. */
  datatype BSlot = BSlot(bucket: nat, pathcode: nat, depth: int)

  /** The ring cell that lies i cells after `first`. */
  function Cell(first: nat, i: nat): nat
  {
    if first + i < MAX_CUCKOO_COUNT then first + i else first + i - MAX_CUCKOO_COUNT
  }

  /** The masked increment steps to the next cell and wraps to 0 after the last. */
  lemma IncrementWraps(ind: nat)
    requires ind < MAX_CUCKOO_COUNT
    ensures And(ind + 1, MAX_CUCKOO_COUNT - 1) == Cell(ind, 1)
  {
    assert Pow2(9) == MAX_CUCKOO_COUNT;
    MaskIsRemainder(ind + 1, 9);
  }

  class BQueue {
    ghost var contents: seq<BSlot>
    const slots: array<BSlot>
    var first: nat
    var last: nat

    ghost predicate Valid()
      reads this, slots
    {
      && slots.Length == MAX_CUCKOO_COUNT
      && first < MAX_CUCKOO_COUNT && last < MAX_CUCKOO_COUNT
      && |contents| < MAX_CUCKOO_COUNT
      && last == Cell(first, |contents|)
      && forall i :: 0 <= i < |contents| ==> contents[i] == slots[Cell(first, i)]
    }

    constructor ()
      ensures Valid() && fresh(slots)
      ensures contents == []
    {
      slots := new BSlot[MAX_CUCKOO_COUNT](_ => BSlot(0, 0, 0));
      first, last := 0, 0;
      contents := [];
    }

    function Increment(ind: nat): nat { And(ind + 1, MAX_CUCKOO_COUNT - 1) }

    predicate Empty()
      requires Valid()
      reads this, slots
      ensures Empty() <==> contents == []
    {
      first == last
    }

    /** One cell of the ring always stays unused. */
    predicate Full()
      requires Valid()
      reads this, slots
      ensures Full() <==> |contents| == MAX_CUCKOO_COUNT - 1
    {
      IncrementWraps(last);
      Increment(last) == first
    }

    method Enqueue(x: BSlot)
      requires Valid() && !Full()
      modifies this, slots
      ensures Valid()
      ensures contents == old(contents) + [x]
    {
      IncrementWraps(last);
      slots[last] := x;
      last := Increment(last);
      contents := contents + [x];
    }

    method Dequeue() returns (x: BSlot)
      requires Valid() && !Empty()
      modifies this
      ensures Valid()
      ensures x == old(contents)[0] && contents == old(contents)[1..]
    {
      IncrementWraps(first);
      x := slots[first];
      first := Increment(first);
      contents := contents[1..];
    }
  }
}
