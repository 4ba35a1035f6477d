/** The packed cache-line table, run under its bin locks: chains of bucket objects in which the entries come
    first and are kept together, so that a search may stop at the first bucket that is not full. */
module ClhtPacked {
  import opened Hashing

  const ENTRIES_PER_BUCKET: nat := 3

  type Item = (nat, nat)

  class Bucket {
    var last: nat
    const key: array<nat>
    const val: array<nat>
    var next: Bucket?

    /** clht_bucket_create. */
    constructor ()
      ensures last == 0 && next == null
      ensures key.Length == val.Length == ENTRIES_PER_BUCKET && key != val
      ensures fresh(key) && fresh(val)
    {
      last, next := 0, null;
      key := new nat[ENTRIES_PER_BUCKET](_ => 0);
      val := new nat[ENTRIES_PER_BUCKET](_ => 0);
    }
  }

  // ------------------------------------------------------------------ chains

  ghost function Objects(chain: seq<Bucket>): set<object>
  {
    (set b: Bucket | b in chain :: b as object) + (set b: Bucket | b in chain :: b.key as object)
        + (set b: Bucket | b in chain :: b.val as object)
  }

  lemma InObjects(chain: seq<Bucket>, i: nat)
    requires i < |chain|
    ensures chain[i] in Objects(chain) && chain[i].key in Objects(chain) && chain[i].val in Objects(chain)
  {
    assert chain[i] in chain;
  }

  lemma ObjectsGrow(chain: seq<Bucket>, b: Bucket)
    ensures Objects(chain + [b]) == Objects(chain) + {b, b.key, b.val}
  {
    assert forall x :: x in chain + [b] <==> x in chain || x == b;
  }

  /** Different buckets of a chain are different objects with different arrays. */
  ghost predicate Separate(chain: seq<Bucket>)
  {
    && (forall i :: 0 <= i < |chain| ==>
        chain[i].key.Length == chain[i].val.Length == ENTRIES_PER_BUCKET && chain[i].key != chain[i].val)
    && (forall i, j :: 0 <= i < j < |chain| ==> chain[i] != chain[j])
    && (forall i, j :: 0 <= i < j < |chain| ==> chain[i].key != chain[j].key && chain[i].key != chain[j].val)
    && (forall i, j :: 0 <= i < j < |chain| ==> chain[i].val != chain[j].key && chain[i].val != chain[j].val)
  }

  ghost predicate Linked(chain: seq<Bucket>)
    reads Objects(chain)
  {
    && |chain| >= 1 && Separate(chain)
    && forall i :: 0 <= i < |chain| ==> chain[i].next == if i + 1 < |chain| then chain[i + 1] else null
  }

  /** How many of n packed entries lie in bucket i. */
  function Share(n: int, i: int): (r: nat)
    ensures r <= 3 && (r > 0 ==> 3 * i + r <= n)
  {
    if n - 3 * i <= 0 then 0 else if n - 3 * i >= 3 then 3 else n - 3 * i
  }

  lemma ShareGrows(n: nat, i: nat)
    requires 3 * i <= n < 3 * i + 3
    ensures forall i': nat :: Share(n + 1, i') == if i' == i then Share(n, i') + 1 else Share(n, i')
    ensures 3 * i + Share(n, i) == n
  {
  }

  /** The chain holds exactly the items, in order and without a gap. */
  ghost predicate Holds(chain: seq<Bucket>, items: seq<Item>)
    reads Objects(chain)
  {
    && Linked(chain) && |items| <= 3 * |chain|
    && (forall i :: 0 <= i < |chain| ==> chain[i].last == Share(|items|, i))
    && (forall i, j :: 0 <= i < |chain| && 0 <= j < Share(|items|, i) ==>
          chain[i].key[j] == items[3 * i + j].0 && chain[i].val[j] == items[3 * i + j].1)
  }

  /** Full buckets come first, then at most one that is partly filled, then only empty ones. */
  lemma PackedShape(chain: seq<Bucket>, items: seq<Item>, i: nat, j: nat)
    requires Holds(chain, items) && i < j < |chain|
    ensures chain[j].last > 0 ==> chain[i].last == ENTRIES_PER_BUCKET
    ensures chain[i].last < ENTRIES_PER_BUCKET ==> chain[j].last == 0
  {
  }

  ghost predicate HasKey(items: seq<Item>, k: nat)
  {
    exists p :: 0 <= p < |items| && items[p].0 == k
  }

  ghost predicate Absent(items: seq<Item>, k: nat, n: int)
  {
    forall p :: 0 <= p < n && p < |items| ==> items[p].0 != k
  }

  lemma NotEmpty(chain: seq<Bucket>, items: seq<Item>)
    requires Holds(chain, items)
    ensures |chain| >= 1
  {
  }

  lemma BucketFacts(chain: seq<Bucket>, items: seq<Item>, i: nat)
    requires Holds(chain, items) && i < |chain|
    ensures chain[i].key.Length == chain[i].val.Length == ENTRIES_PER_BUCKET
    ensures chain[i].last == Share(|items|, i) <= ENTRIES_PER_BUCKET
        && (chain[i].last > 0 ==> 3 * i + chain[i].last <= |items|)
    ensures chain[i].last < ENTRIES_PER_BUCKET ==> |items| <= 3 * i + chain[i].last
    ensures chain[i].next == if i + 1 < |chain| then chain[i + 1] else null
    ensures forall j :: 0 <= j < chain[i].last ==>
        chain[i].key[j] == items[3 * i + j].0 && chain[i].val[j] == items[3 * i + j].1
  {
  }

  /** bucket_exists. */
  method Exists(head: Bucket, ghost chain: seq<Bucket>, ghost items: seq<Item>, k: nat) returns (found: bool)
    requires Holds(chain, items) && chain[0] == head
    ensures found <==> HasKey(items, k)
  {
    hide Linked, Separate, Share;
    NotEmpty(chain, items);
    var bucket: Bucket? := head;
    ghost var i := 0;
    while bucket != null
      invariant 0 <= i <= |chain| && (bucket == null <==> i == |chain|)
      invariant i < |chain| ==> bucket == chain[i]
      invariant Holds(chain, items) && Absent(items, k, 3 * i)
      decreases |chain| - i
    {
      BucketFacts(chain, items, i);
      var buLast: int := bucket.last - 1;
      var j := buLast;
      while j >= 0
        invariant -1 <= j <= buLast == chain[i].last - 1
        invariant forall q :: 3 * i + j < q <= 3 * i + buLast ==> items[q].0 != k
      {
        if bucket.key[j] == k {
          assert items[3 * i + j].0 == k;
          return true;
        }
        j := j - 1;
      }
      assert Absent(items, k, 3 * i + chain[i].last);
      if buLast < ENTRIES_PER_BUCKET - 1 { break; }
      bucket := bucket.next;
      i := i + 1;
    }
    assert Absent(items, k, |items|);
    found := false;
  }

  /** clht_get on one chain. */
  method Lookup(head: Bucket, ghost chain: seq<Bucket>, ghost items: seq<Item>, k: nat) returns (r: nat)
    requires Holds(chain, items) && chain[0] == head
    ensures if HasKey(items, k) then (k, r) in items else r == 0
  {
    hide Linked, Separate, Share;
    NotEmpty(chain, items);
    var bucket: Bucket? := head;
    ghost var i := 0;
    while bucket != null
      invariant 0 <= i <= |chain| && (bucket == null <==> i == |chain|)
      invariant i < |chain| ==> bucket == chain[i]
      invariant Holds(chain, items) && Absent(items, k, 3 * i)
      decreases |chain| - i
    {
      BucketFacts(chain, items, i);
      var buLast: int := bucket.last - 1;
      var j := buLast;
      while j >= 0
        invariant -1 <= j <= buLast == chain[i].last - 1
        invariant forall q :: 3 * i + j < q <= 3 * i + buLast ==> items[q].0 != k
      {
        var val := bucket.val[j];
        if bucket.key[j] == k {
          assert items[3 * i + j] == (k, val);
          r := if bucket.val[j] == val then val else 0;
          return;
        }
        j := j - 1;
      }
      assert Absent(items, k, 3 * i + chain[i].last);
      if buLast < ENTRIES_PER_BUCKET - 1 { break; }
      bucket := bucket.next;
      i := i + 1;
    }
    assert Absent(items, k, |items|);
    r := 0;
  }

  /** What has been added to a chain is new. */
  ghost predicate Extends(chain: seq<Bucket>, chain': seq<Bucket>)
  {
    |chain| <= |chain'| && chain'[..|chain|] == chain
  }

  /** Writes an entry behind the last one of a bucket that is not full. */
  method PlaceLast(bucket: Bucket, ghost chain: seq<Bucket>, ghost items: seq<Item>, ghost i: nat, k: nat, v: nat)
    requires Holds(chain, items) && i < |chain| && bucket == chain[i]
    requires bucket.last < ENTRIES_PER_BUCKET && |items| >= 3 * i
    modifies bucket`last, bucket.key, bucket.val
    ensures Holds(chain, items + [(k, v)])
  {
    ShareGrows(|items|, i);
    hide Share;
    var buLast := bucket.last;
    bucket.val[buLast] := v;
    bucket.key[buLast] := k;
    bucket.last := bucket.last + 1;
  }

  /** Links a new bucket with one entry behind a chain of full buckets. */
  method LinkNew(bucket: Bucket, ghost chain: seq<Bucket>, ghost items: seq<Item>, k: nat, v: nat) returns (b: Bucket)
    requires Holds(chain, items) && bucket == chain[|chain| - 1] && |items| == 3 * |chain|
    modifies bucket`next
    ensures fresh(b) && fresh(b.key) && fresh(b.val)
    ensures Holds(chain + [b], items + [(k, v)])
  {
    hide Share, Separate, Holds;
    FullChain(chain, items);
    b := new Bucket();
    LinkSeparate(chain, b);
    bucket.next := b;
    b.key[0] := k;
    b.val[0] := v;
    b.last := b.last + 1;
    LinkedHolds(chain, items, b, k, v);
  }

  /** What a chain of full buckets is, and what it is with one entry behind it. */
  lemma FullChain(chain: seq<Bucket>, items: seq<Item>)
    requires Holds(chain, items) && |items| == 3 * |chain|
    ensures |chain| >= 1 && Separate(chain)
    ensures forall i :: 0 <= i < |chain| ==> chain[i].last == 3
    ensures forall i :: 0 <= i < |chain| - 1 ==> chain[i].next == chain[i + 1]
    ensures forall i, j :: 0 <= i < |chain| && 0 <= j < 3 ==>
              (chain[i].key[j], chain[i].val[j]) == items[3 * i + j]
  {
  }

  lemma LinkedHolds(chain: seq<Bucket>, items: seq<Item>, b: Bucket, k: nat, v: nat)
    requires |chain| >= 1 && |items| == 3 * |chain| && Separate(chain + [b]) && Separate(chain)
    requires forall i :: 0 <= i < |chain| ==> chain[i].last == 3
    requires forall i :: 0 <= i < |chain| - 1 ==> chain[i].next == chain[i + 1]
    requires forall i, j :: 0 <= i < |chain| && 0 <= j < 3 ==>
               (chain[i].key[j], chain[i].val[j]) == items[3 * i + j]
    requires chain[|chain| - 1].next == b && b.next == null && b.last == 1
    requires b.key.Length == b.val.Length == 3 && (b.key[0], b.val[0]) == (k, v)
    ensures Holds(chain + [b], items + [(k, v)])
  {
  }

  lemma LinkSeparate(chain: seq<Bucket>, b: Bucket)
    requires Separate(chain) && b.key.Length == b.val.Length == ENTRIES_PER_BUCKET && b.key != b.val
    requires forall i :: 0 <= i < |chain| ==> chain[i] != b && chain[i].key != b.key && chain[i].key != b.val
    requires forall i :: 0 <= i < |chain| ==> chain[i].val != b.key && chain[i].val != b.val
    ensures Separate(chain + [b])
  {
  }

  /** clht_put on one chain: what happens under the lock. */
  method PutInChain(head: Bucket, ghost chain: seq<Bucket>, ghost items: seq<Item>, k: nat, v: nat)
    returns (ok: bool, ghost chain': seq<Bucket>, ghost items': seq<Item>)
    requires Holds(chain, items) && chain[0] == head
    modifies Objects(chain)
    ensures Holds(chain', items')
    ensures Extends(chain, chain')
    ensures Objects(chain) <= Objects(chain') && fresh(Objects(chain') - Objects(chain))
    ensures ok <==> !HasKey(items, k)
    ensures items' == if ok then items + [(k, v)] else items
  {
    hide Separate, Objects, Share;
    chain', items' := chain, items;
    var bucket := head;
    ghost var i := 0;
    while true
      invariant 0 <= i < |chain| && bucket == chain[i]
      invariant Absent(items, k, 3 * i) && |items| >= 3 * i
      invariant Holds(chain, items)
      decreases |chain| - i
    {
      InObjects(chain, i);
      BucketFacts(chain, items, i);
      var buLast := bucket.last;
      var j := 0;
      while j < buLast
        invariant 0 <= j <= buLast == chain[i].last && Absent(items, k, 3 * i + j)
        invariant Holds(chain, items)
        invariant forall q :: 0 <= q < buLast ==> chain[i].key[q] == items[3 * i + q].0
      {
        if bucket.key[j] == k {
          assert items[3 * i + j].0 == k;
          ok := false;
          return;
        }
        j := j + 1;
      }
      assert Absent(items, k, 3 * i + buLast);
      if buLast < ENTRIES_PER_BUCKET {
        assert Absent(items, k, |items|);
        PlaceLast(bucket, chain, items, i, k, v);
        items' := items + [(k, v)];
        ok := true;
        return;
      } else if bucket.next == null {
        assert Absent(items, k, |items|);
        var b := LinkNew(bucket, chain, items, k, v);
        ObjectsGrow(chain, b);
        chain', items' := chain + [b], items + [(k, v)];
        ok := true;
        return;
      }
      bucket := bucket.next;
      i := i + 1;
    }
  }

  /** Entry p taken out, and the last entry put in its place. */
  function SwapOut(items: seq<Item>, p: nat): (r: seq<Item>)
    requires p < |items|
    ensures |r| == |items| - 1
    ensures forall q :: 0 <= q < |r| ==> r[q] == if q == p then items[|items| - 1] else items[q]
  {
    items[p := items[|items| - 1]][..|items| - 1]
  }

  lemma ShareShrinks(n: nat, m: nat)
    requires 3 * m < n <= 3 * m + 3
    ensures Share(n, m) >= 1 && 3 * m + Share(n, m) == n
    ensures forall i': nat :: Share(n - 1, i') == if i' == m then Share(n, i') - 1 else Share(n, i')
    ensures forall i': nat :: Share(n, i') <= 3 && (Share(n, i') > 0 ==> 3 * i' + Share(n, i') <= n)
  {
  }

  /** No other bucket shares an array with bucket i. */
  lemma Apart(chain: seq<Bucket>, i: nat)
    requires Separate(chain) && i < |chain|
    ensures chain[i].key.Length == chain[i].val.Length == ENTRIES_PER_BUCKET && chain[i].key != chain[i].val
    ensures forall i' :: 0 <= i' < |chain| && i' != i ==>
              chain[i'] != chain[i] && chain[i'].key != chain[i].key && chain[i'].val != chain[i].val
    ensures forall i' :: 0 <= i' < |chain| ==> chain[i'].key != chain[i].val && chain[i'].val != chain[i].key
  {
  }

  lemma SwapOutAt(items: seq<Item>, p: nat, q: nat)
    requires p < |items| && q < |items| - 1
    ensures SwapOut(items, p)[q] == if q == p then items[|items| - 1] else items[q]
  {
  }

  /** Slot (i, j) holds the last entry of the chain, and every other slot what it has held. */
  ghost predicate HoleFilled(chain: seq<Bucket>, items: seq<Item>, i: nat, j: nat)
    requires items != []
    reads Objects(chain)
  {
    && Linked(chain) && |items| - 1 <= 3 * |chain|
    && (forall i' :: 0 <= i' < |chain| ==> chain[i'].last == Share(|items| - 1, i'))
    && (forall i', j' :: 0 <= i' < |chain| && 0 <= j' < Share(|items| - 1, i') && 3 * i' + j' < |items| ==>
          var x := if i' == i && j' == j then items[|items| - 1] else items[3 * i' + j'];
          chain[i'].key[j'] == x.0 && chain[i'].val[j'] == x.1)
  }

  lemma FilledHolds(chain: seq<Bucket>, items: seq<Item>, i: nat, j: nat)
    requires 3 * i + j < |items| && j < 3 && HoleFilled(chain, items, i, j)
    ensures Holds(chain, SwapOut(items, 3 * i + j))
  {
    hide SwapOut, Share;
    forall i', j' | 0 <= i' < |chain| && 0 <= j' < Share(|items| - 1, i')
      ensures chain[i'].key[j'] == SwapOut(items, 3 * i + j)[3 * i' + j'].0
      ensures chain[i'].val[j'] == SwapOut(items, 3 * i + j)[3 * i' + j'].1
    {
      PlaceOf(|items| - 1, i', j', i, j);
      SwapOutAt(items, 3 * i + j, 3 * i' + j');
    }
  }

  lemma PlaceOf(n: nat, i': nat, j': nat, i: nat, j: nat)
    requires j' < Share(n, i') && j < 3
    ensures j' < 3 && 3 * i' + j' < n && (3 * i' + j' == 3 * i + j ==> i' == i && j' == j)
  {
  }

  /** The last entry of the chain, in the last slot in use of bucket m. */
  lemma LastEntry(chain: seq<Bucket>, items: seq<Item>, m: nat)
    requires Holds(chain, items) && m < |chain| && 3 * m < |items| <= 3 * m + 3
    ensures var l := chain[m].last;
            1 <= l <= chain[m].key.Length && l <= chain[m].val.Length
            && (chain[m].key[l - 1], chain[m].val[l - 1]) == items[|items| - 1]
  {
    BucketFacts(chain, items, m);
    ShareShrinks(|items|, m);
    hide Share;
  }

  /** Overwrites slot j of a bucket with the last entry of another, or of itself, and gives that entry's slot up. */
  method MoveLast(bucket: Bucket, j: nat, blast: Bucket)
    requires bucket.key.Length == bucket.val.Length == blast.key.Length == blast.val.Length == ENTRIES_PER_BUCKET
    requires bucket.key != bucket.val && bucket.key != blast.val && bucket.val != blast.key
    requires j < ENTRIES_PER_BUCKET && 1 <= blast.last <= ENTRIES_PER_BUCKET
    modifies bucket.key, bucket.val, blast`last
    ensures blast.last == old(blast.last) - 1
    ensures forall j' :: 0 <= j' < ENTRIES_PER_BUCKET && j' != j ==>
              bucket.key[j'] == old(bucket.key[j']) && bucket.val[j'] == old(bucket.val[j'])
    ensures bucket.val[j] == old(blast.val[blast.last - 1])
    ensures bucket.key[j] == if bucket.key == blast.key && j == old(blast.last) - 1 then 0
                             else old(blast.key[blast.last - 1])
  {
    bucket.key[j] := 0;
    var blastLast := blast.last;
    assert blastLast != 0;
    bucket.val[j] := blast.val[blastLast - 1];
    bucket.key[j] := blast.key[blastLast - 1];
    blast.last := blast.last - 1;
  }

  /** What Holds says, piece by piece. */
  lemma ChainFacts(chain: seq<Bucket>, items: seq<Item>)
    requires Holds(chain, items)
    ensures |chain| >= 1 && Separate(chain) && |items| <= 3 * |chain|
    ensures forall i :: 0 <= i < |chain| ==> chain[i].next == if i + 1 < |chain| then chain[i + 1] else null
    ensures forall i :: 0 <= i < |chain| ==> chain[i].last == Share(|items|, i)
    ensures forall i, j :: 0 <= i < |chain| && 0 <= j < Share(|items|, i) ==>
              chain[i].key[j] == items[3 * i + j].0 && chain[i].val[j] == items[3 * i + j].1
  {
  }

  /** Such a move fills the hole: only slot (i, j) and the count of bucket m are not those of Holds any more. */
  lemma MovedFills(chain: seq<Bucket>, items: seq<Item>, i: nat, j: nat, m: nat)
    requires |chain| >= 1 && Separate(chain) && |items| <= 3 * |chain| && i < |chain| && m < |chain|
    requires 3 * m < |items| <= 3 * m + 3 && j < ENTRIES_PER_BUCKET && 3 * i + j < |items|
    requires forall i' :: 0 <= i' < |chain| ==> chain[i'].next == if i' + 1 < |chain| then chain[i' + 1] else null
    requires forall i' :: 0 <= i' < |chain| && i' != m ==> chain[i'].last == Share(|items|, i')
    requires chain[m].last == Share(|items|, m) - 1
    requires forall i', j' :: 0 <= i' < |chain| && 0 <= j' < Share(|items|, i') && !(i' == i && j' == j) ==>
               chain[i'].key[j'] == items[3 * i' + j'].0 && chain[i'].val[j'] == items[3 * i' + j'].1
    requires j < Share(|items| - 1, i) ==> (chain[i].key[j], chain[i].val[j]) == items[|items| - 1]
    ensures HoleFilled(chain, items, i, j)
  {
    hide Share, Separate;
    ShareShrinks(|items|, m);
  }

  /** Overwrites slot j of a bucket with the last entry of the chain, and gives that entry's slot up. */
  method FillHole(bucket: Bucket, blast: Bucket, ghost chain: seq<Bucket>, ghost items: seq<Item>, ghost i: nat,
        j: nat, ghost m: nat)
    requires Holds(chain, items) && i <= m < |chain| && bucket == chain[i] && blast == chain[m]
    requires 3 * m < |items| <= 3 * m + 3 && j < bucket.last && 3 * i + j < |items|
    modifies bucket.key, bucket.val, blast`last
    ensures Holds(chain, SwapOut(items, 3 * i + j))
  {
    hide SwapOut, Share, Separate, Holds, HoleFilled;
    ChainFacts(chain, items);
    ShareShrinks(|items|, m);
    LastEntry(chain, items, m);
    BucketFacts(chain, items, i);
    Apart(chain, i);
    Apart(chain, m);
    MoveLast(bucket, j, blast);
    MovedFills(chain, items, i, j, m);
    FilledHolds(chain, items, i, j);
  }

  /** clht_remove on one chain: what happens under the lock. */
  method RemoveFromChain(head: Bucket, ghost chain: seq<Bucket>, ghost items: seq<Item>, k: nat)
        returns (r: nat, ghost p: int)
    requires Holds(chain, items) && chain[0] == head
    modifies Objects(chain)
    ensures if HasKey(items, k) then 0 <= p < |items| && items[p] == (k, r) && Holds(chain, SwapOut(items, p))
            else r == 0 && p == -1 && Holds(chain, items)
  {
    hide Separate, Objects, Share, SwapOut;
    NotEmpty(chain, items);
    var bucket: Bucket? := head;
    ghost var i := 0;
    p := -1;
    while bucket != null
      invariant 0 <= i <= |chain| && (bucket == null <==> i == |chain|)
      invariant i < |chain| ==> bucket == chain[i]
      invariant Holds(chain, items) && Absent(items, k, 3 * i) && p == -1
      decreases |chain| - i
    {
      BucketFacts(chain, items, i);
      InObjects(chain, i);
      var buLast := bucket.last;
      var j := 0;
      while j < buLast
        invariant 0 <= j <= buLast == chain[i].last && Absent(items, k, 3 * i + j)
        invariant Holds(chain, items) && p == -1
        invariant forall q :: 0 <= q < buLast ==>
            chain[i].key[q] == items[3 * i + q].0 && chain[i].val[q] == items[3 * i + q].1
      {
        if bucket.key[j] == k {
          p := 3 * i + j;
          assert items[p] == (k, chain[i].val[j]);
          r := bucket.val[j];
          var blast, m := LastUsed(bucket, chain, items, i);
          InObjects(chain, m);
          FillHole(bucket, blast, chain, items, i, j, m);
          return;
        }
        j := j + 1;
      }
      assert Absent(items, k, 3 * i + buLast);
      if buLast < ENTRIES_PER_BUCKET { break; }
      bucket := bucket.next;
      i := i + 1;
    }
    assert Absent(items, k, |items|);
    r := 0;
  }

  /** The last bucket with an entry, from a bucket that has one. */
  method LastUsed(bucket: Bucket, ghost chain: seq<Bucket>, ghost items: seq<Item>, ghost i: nat)
        returns (blast: Bucket, ghost m: nat)
    requires Holds(chain, items) && i < |chain| && bucket == chain[i] && bucket.last > 0
    ensures i <= m < |chain| && blast == chain[m] && 3 * m < |items| <= 3 * m + 3
  {
    hide Separate;
    blast, m := bucket, i;
    while blast.next != null && blast.next.last > 0
      invariant i <= m < |chain| && blast == chain[m] && blast.last > 0
      invariant Holds(chain, items)
      decreases |chain| - m
    {
      BucketFacts(chain, items, m);
      blast, m := blast.next, m + 1;
    }
    BucketFacts(chain, items, m);
    if m + 1 < |chain| { BucketFacts(chain, items, m + 1); }
  }

  // ------------------------------------------------------------------ the table

  /** The items of all bins are exactly the bindings of the map, each in the bin of its key. */
  ghost predicate Models(items: seq<seq<Item>>, m: map<nat, nat>)
  {
    && |items| >= 1
    && (forall b, p :: 0 <= b < |items| && 0 <= p < |items[b]| ==>
          BinOf(|items|, items[b][p].0) == b && items[b][p].0 in m && m[items[b][p].0] == items[b][p].1)
    && (forall b, p, q ::
        0 <= b < |items| && 0 <= p < |items[b]| && 0 <= q < |items[b]| && items[b][p].0 == items[b][q].0 ==> p == q)
    && (forall k :: k in m ==> HasKey(items[BinOf(|items|, k)], k))
  }

  lemma ModelsLookup(items: seq<seq<Item>>, m: map<nat, nat>, k: nat)
    requires Models(items, m)
    ensures k in m <==> HasKey(items[BinOf(|items|, k)], k)
    ensures forall p :: 0 <= p < |items[BinOf(|items|, k)]| && items[BinOf(|items|, k)][p].0 == k ==>
        k in m && m[k] == items[BinOf(|items|, k)][p].1
  {
    hide BinOf;
  }

  lemma ModelsPut(items: seq<seq<Item>>, m: map<nat, nat>, k: nat, v: nat)
    requires Models(items, m) && k !in m
    ensures var b := BinOf(|items|, k); Models(items[b := items[b] + [(k, v)]], m[k := v])
  {
    hide BinOf;
    var b := BinOf(|items|, k);
    var items' := items[b := items[b] + [(k, v)]];
    forall q | q in m[k := v] ensures HasKey(items'[BinOf(|items'|, q)], q) {
      if q == k {
        assert items'[b][|items[b]|].0 == k;
      } else {
        var p :| 0 <= p < |items[BinOf(|items|, q)]| && items[BinOf(|items|, q)][p].0 == q;
        assert items'[BinOf(|items'|, q)][p].0 == q;
      }
    }
  }

  lemma ModelsRemove(items: seq<seq<Item>>, m: map<nat, nat>, b: nat, p: nat)
    requires Models(items, m) && b < |items| && p < |items[b]|
    ensures Models(items[b := SwapOut(items[b], p)], m - {items[b][p].0})
  {
    hide BinOf;
    var k := items[b][p].0;
    var items' := items[b := SwapOut(items[b], p)];
    var last := |items[b]| - 1;
    forall q | q in m - {k} ensures HasKey(items'[BinOf(|items'|, q)], q) {
      var bq := BinOf(|items|, q);
      var j :| 0 <= j < |items[bq]| && items[bq][j].0 == q;
      var j' := if bq == b && j == last then p else j;
      assert items'[bq][j'].0 == q;
    }
  }

  // ------------------------------------------------------------------ counting

  function Total(items: seq<seq<Item>>): nat
  {
    if items == [] then 0 else Total(items[..|items| - 1]) + |items[|items| - 1]|
  }

  ghost function Keys(s: seq<Item>): set<nat>
  {
    set p | 0 <= p < |s| :: s[p].0
  }

  ghost predicate DistinctKeys(s: seq<Item>)
  {
    forall p, q :: 0 <= p < |s| && 0 <= q < |s| && s[p].0 == s[q].0 ==> p == q
  }

  lemma {:induction false} KeysCount(s: seq<Item>)
    requires DistinctKeys(s)
    ensures |Keys(s)| == |s|
  {
    if s == [] {
      assert Keys(s) == {};
    } else {
      var n := |s| - 1;
      assert forall p :: 0 <= p < n ==> s[..n][p] == s[p];
      KeysCount(s[..n]);
      assert Keys(s) == Keys(s[..n]) + {s[n].0};
      assert s[n].0 !in Keys(s[..n]);
    }
  }

  /** The bindings whose keys lie in the first n bins. */
  ghost function KeysBelow(m: map<nat, nat>, bins: nat, n: nat): set<nat>
    requires bins >= 1
  {
    set k | k in m && BinOf(bins, k) < n
  }

  lemma KeysBelowStep(items: seq<seq<Item>>, m: map<nat, nat>, n: nat)
    requires Models(items, m) && 1 <= n <= |items|
    ensures KeysBelow(m, |items|, n) == KeysBelow(m, |items|, n - 1) + Keys(items[n - 1])
    ensures KeysBelow(m, |items|, n - 1) !! Keys(items[n - 1])
  {
    hide BinOf;
    forall k | k in m && BinOf(|items|, k) == n - 1 ensures k in Keys(items[n - 1]) {
      var p :| 0 <= p < |items[n - 1]| && items[n - 1][p].0 == k;
    }
  }

  lemma {:induction false} TotalIsSize(items: seq<seq<Item>>, m: map<nat, nat>, n: nat)
    requires Models(items, m) && n <= |items|
    ensures Total(items[..n]) == |KeysBelow(m, |items|, n)|
  {
    hide BinOf;
    if n == 0 {
      assert KeysBelow(m, |items|, 0) == {};
    } else {
      KeysBelowStep(items, m, n);
      TotalIsSize(items, m, n - 1);
      assert items[..n][..n - 1] == items[..n - 1];
      assert DistinctKeys(items[n - 1]);
      hide Keys, KeysBelow, Models;
      KeysCount(items[n - 1]);
    }
  }

  // ------------------------------------------------------------------ the operations

  class PackedTable {
    const table: array<Bucket>
    ghost var chains: seq<seq<Bucket>>
    ghost var items: seq<seq<Item>>
    ghost var model: map<nat, nat>
    ghost var Repr: set<object>

    ghost predicate Valid()
      reads this, table, Repr
    {
      && table.Length == |chains| == |items|
      && this !in Repr && table !in Repr
      && (forall b :: 0 <= b < |chains| ==>
          Objects(chains[b]) <= Repr && Holds(chains[b], items[b]) && chains[b][0] == table[b])
      && (forall b, b' :: 0 <= b < b' < |chains| ==> Objects(chains[b]) !! Objects(chains[b']))
      && Models(items, model)
    }

    method Get(k: nat) returns (r: nat)
      requires Valid()
      ensures r == if k in model then model[k] else 0
    {
      hide BinOf, Models;
      NotNothing(items, model);
      var b := BinOf(table.Length, k);
      ModelsLookup(items, model, k);
      r := Lookup(table[b], chains[b], items[b], k);
    }

    lemma NotNothing(items: seq<seq<Item>>, m: map<nat, nat>)
      requires Models(items, m)
      ensures |items| >= 1
    {
    }

    /** clht_put: looks for the key without the lock first. */
    method Put(k: nat, v: nat) returns (ok: bool)
      requires Valid()
      modifies this, Repr
      ensures Valid() && fresh(Repr - old(Repr))
      ensures ok <==> k !in old(model)
      ensures model == if ok then old(model)[k := v] else old(model)
    {
      hide BinOf, Models, Objects, Separate, Share;
      NotNothing(items, model);
      var b := BinOf(table.Length, k);
      ModelsLookup(items, model, k);
      var found := Exists(table[b], chains[b], items[b], k);
      if found { return false; }
      ModelsPut(items, model, k, v);
      ghost var chain, its;
      ok, chain, its := PutInChain(table[b], chains[b], items[b], k, v);
      Repr := Repr + Objects(chain);
      chains := chains[b := chain];
      items := items[b := its];
      model := model[k := v];
    }

    /** clht_remove: looks for the key without the lock first. */
    method Remove(k: nat) returns (r: nat)
      requires Valid()
      modifies this, Repr
      ensures Valid() && Repr == old(Repr)
      ensures r == if k in old(model) then old(model)[k] else 0
      ensures model == old(model) - {k}
    {
      hide BinOf, Models, Objects, Separate, Share, SwapOut;
      NotNothing(items, model);
      var b := BinOf(table.Length, k);
      ModelsLookup(items, model, k);
      var found := Exists(table[b], chains[b], items[b], k);
      if !found { return 0; }
      ghost var p;
      r, p := RemoveFromChain(table[b], chains[b], items[b], k);
      ModelsRemove(items, model, b, p);
      items := items[b := SwapOut(items[b], p)];
      model := model - {k};
    }

    /** clht_size: counts the entries of each chain up to the first bucket that is not full. */
    method Size() returns (size: nat)
      requires Valid()
      ensures size == |model|
    {
      hide BinOf, Models, Objects, Separate, Share;
      size := 0;
      var bin := 0;
      assert items[..0] == [];
      while bin < table.Length
        invariant 0 <= bin <= table.Length && size == Total(items[..bin]) && Valid()
      {
        assert items[..bin + 1][..bin] == items[..bin];
        NotEmpty(chains[bin], items[bin]);
        var n := CountChain(table[bin], chains[bin], items[bin]);
        size := size + n;
        bin := bin + 1;
      }
      assert items[..bin] == items;
      AllKeys(items, model);
    }

    /** clht_hashtable_create, for at least one bucket. */
    constructor (n: nat)
      requires n >= 1
      ensures Valid() && fresh(Repr) && model == map[]
    {
      hide BinOf, Objects, Separate, Share;
      var bs := NewBins(n);
      table := new Bucket[n](j requires 0 <= j < |bs| => bs[j]);
      chains := seq(n, j requires 0 <= j < |bs| => [bs[j]]);
      items := seq(n, _ => []);
      model := map[];
      Repr := AllObjects(bs);
      new;
      AllObjectsCover(bs);
      forall b | 0 <= b < n ensures Holds(chains[b], items[b]) && Objects(chains[b]) <= Repr {
        EmptyBinHolds(bs[b]);
      }
      NoTableAmong(bs, this, table);
    }
  }

  ghost function AllObjects(bs: seq<Bucket>): (r: set<object>)
  {
    if bs == [] then {} else AllObjects(bs[..|bs| - 1]) + Objects([bs[|bs| - 1]])
  }

  lemma {:induction false} AllObjectsCover(bs: seq<Bucket>)
    ensures forall j :: 0 <= j < |bs| ==> Objects([bs[j]]) <= AllObjects(bs)
  {
    hide Objects;
    if bs != [] {
      AllObjectsCover(bs[..|bs| - 1]);
      assert forall j :: 0 <= j < |bs| - 1 ==> bs[..|bs| - 1][j] == bs[j];
    }
  }

  lemma {:induction false} NoTableAmong(bs: seq<Bucket>, t: PackedTable, a: array<Bucket>)
    ensures t !in AllObjects(bs) && a !in AllObjects(bs)
  {
    if bs != [] { NoTableAmong(bs[..|bs| - 1], t, a); }
  }

  predicate EmptyBin(b: Bucket)
    reads b
  {
    b.last == 0 && b.next == null && b.key.Length == b.val.Length == ENTRIES_PER_BUCKET && b.key != b.val
  }

  lemma EmptyBinHolds(b: Bucket)
    requires EmptyBin(b)
    ensures Holds([b], [])
  {
  }

  /** The buckets of an empty table. */
  method NewBins(n: nat) returns (bs: seq<Bucket>)
    ensures |bs| == n && fresh(AllObjects(bs))
    ensures forall j :: 0 <= j < n ==> EmptyBin(bs[j])
    ensures forall j, j' :: 0 <= j < j' < n ==> Objects([bs[j]]) !! Objects([bs[j']])
  {
    hide Objects;
    bs := [];
    while |bs| < n
      invariant |bs| <= n && fresh(AllObjects(bs))
      invariant forall j :: 0 <= j < |bs| ==> EmptyBin(bs[j])
      invariant forall j, j' :: 0 <= j < j' < |bs| ==> Objects([bs[j]]) !! Objects([bs[j']])
    {
      var b := NewBin(AllObjects(bs));
      AllObjectsCover(bs);
      assert (bs + [b])[..|bs|] == bs;
      bs := bs + [b];
    }
  }

  /** A new bucket shares nothing with the objects that there are. */
  method NewBin(ghost used: set<object>) returns (b: Bucket)
    ensures EmptyBin(b) && fresh(Objects([b])) && Objects([b]) !! used
  {
    b := new Bucket();
    ObjectsGrow([], b);
    assert [] + [b] == [b] && Objects([]) == {};
  }

  /** The entries of one chain. */
  method CountChain(head: Bucket, ghost chain: seq<Bucket>, ghost items: seq<Item>) returns (n: nat)
    requires Holds(chain, items) && chain[0] == head
    ensures n == |items|
  {
    hide Linked, Separate, Share;
    NotEmpty(chain, items);
    n := 0;
    var bucket: Bucket? := head;
    ghost var i := 0;
    while bucket != null
      invariant 0 <= i <= |chain| && (bucket == null <==> i == |chain|)
      invariant i < |chain| ==> bucket == chain[i]
      invariant Holds(chain, items) && n == 3 * i <= |items|
      decreases |chain| - i
    {
      BucketFacts(chain, items, i);
      var buLast := bucket.last;
      var j := 0;
      while j < buLast
        invariant 0 <= j <= buLast && n == 3 * i + j
      {
        n := n + 1;
        j := j + 1;
      }
      if buLast < ENTRIES_PER_BUCKET { break; }
      bucket := bucket.next;
      i := i + 1;
    }
  }

  lemma AllKeys(items: seq<seq<Item>>, m: map<nat, nat>)
    requires Models(items, m)
    ensures Total(items) == |m|
  {
    hide BinOf;
    TotalIsSize(items, m, |items|);
    assert items[..|items|] == items;
    assert KeysBelow(m, |items|, |items|) == m.Keys;
  }
}
