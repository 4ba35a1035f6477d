/** The older copy of the cuckoo search, which unlocks a bucket only when the entry it scans is not of
    the greatest depth.  It gives back every lock all the same, because an entry of the greatest depth
    never leaves the queue. */
module TbbSlotSearch {
  import opened Hashing
  import opened BfsQueue
  import opened CuckooPath
  import LockOrder

  // ------------------------------------------------------------------ two and three locks

  /** lock_two: the locks in the order in which they are taken. */
  function LockTwo(i1: nat, i2: nat): seq<nat>
  {
    if i1 < i2 then [i1, i2] else if i2 < i1 then [i2, i1] else [i1]
  }

  /** lock_three, by its own case distinction. */
  function LockThree(i1: nat, i2: nat, i3: nat): seq<nat>
  {
    if i1 == i2 then LockTwo(i1, i3)
    else if i2 == i3 then LockTwo(i1, i3)
    else if i1 == i3 then LockTwo(i1, i2)
    else if i1 < i2 then
      if i2 < i3 then [i1, i2, i3] else if i1 < i3 then [i1, i3, i2] else [i3, i1, i2]
    else if i2 < i3 then
      if i1 < i3 then [i2, i1, i3] else [i2, i3, i1]
    else [i3, i2, i1]
  }

  /** Both copies of the table take the same locks in the same, increasing order. */
  lemma SameLockOrder(i1: nat, i2: nat, i3: nat)
    ensures LockTwo(i1, i2) == LockOrder.OrderTwo(i1, i2)
    ensures LockThree(i1, i2, i3) == LockOrder.OrderThree(i1, i2, i3)
    ensures LockOrder.Increasing(LockThree(i1, i2, i3))
  {
  }

  // ------------------------------------------------------------------ candidate buckets

  /** hv >> hashpower plus one, times the 32-bit Murmur constant, in 64-bit arithmetic. */
  function TagHash(hp: nat, hv: nat): nat { (hv / Pow2(hp) + 1) * 0x5bd1e995 % WORD }

  function AlternateIndex(hp: nat, hv: nat, index: nat): nat { And(Xor(index, TagHash(hp, hv)), HashMask(hp)) }

  /** The alternate of the alternate is the bucket itself. */
  lemma AlternateTwice(hp: nat, hv: nat, i: nat)
    requires i < Pow2(hp)
    ensures AlternateIndex(hp, hv, i) < Pow2(hp) && AlternateIndex(hp, hv, AlternateIndex(hp, hv, i)) == i
  {
    hide Xor, And, Pow2, TagHash;
    var h := TagHash(hp, hv);
    MaskIsRemainder(Xor(i, h), hp);
    XorWithinMask(i, h, hp);
    var a := AlternateIndex(hp, hv, i);
    MaskIsRemainder(Xor(a, h), hp);
    XorWithinMask(a, h, hp);
    XorCancels(i, h % Pow2(hp));
  }

  /** Unlike in the newer copy, the two buckets of a key may be the same one.  They are exactly when the number of the
      tag, counted from one, is a multiple of the number of buckets. */
  lemma AlternateIsItself(hp: nat, hv: nat, i: nat)
    requires hp <= 64 && i < Pow2(hp)
    ensures AlternateIndex(hp, hv, i) == i <==> (hv / Pow2(hp) + 1) % Pow2(hp) == 0
  {
    hide Xor, And, Pow2;
    hide TagHash;
    var h := TagHash(hp, hv);
    MaskIsRemainder(Xor(i, h), hp);
    XorWithinMask(i, h, hp);
    XorFixes(i, h % Pow2(hp));
    TagHashRemainder(hp, hv);
  }

  lemma TagHashRemainder(hp: nat, hv: nat)
    requires hp <= 64
    ensures TagHash(hp, hv) % Pow2(hp) == 0 <==> (hv / Pow2(hp) + 1) % Pow2(hp) == 0
  {
    hide Pow2;
    var tag := hv / Pow2(hp) + 1;
    LowBitsOfWord(tag * 0x5bd1e995, hp);
    OddFactor(tag, 0x5bd1e995, hp);
  }

  /** Such a hash value, in a table of two buckets. */
  lemma AlternateMayBeItself()
    ensures AlternateIndex(1, 2, IndexHash(1, 2)) == IndexHash(1, 2)
  {
    hide Xor, And, AlternateIndex;
    assert Pow2(1) == 2;
    MaskIsRemainder(2, 1);
    AlternateIsItself(1, 2, 0);
  }

  // ------------------------------------------------------------------ the counting argument

  lemma TwoRoots(s: nat)
    ensures Codes(s, 0) == 2
  {
  }

  lemma RootsInQueue(i1: nat, i2: nat)
    ensures Depths(0, 2, [BSlot(i1, 0, 0), BSlot(i2, 1, 0)])
  {
  }

  /** Each level of the search is S times as large as the one before. */
  lemma CodesTimes(s: nat, d: nat)
    ensures Codes(s, d + 1) == s * Codes(s, d)
  {
    assert s * (2 * Power(s, d)) == 2 * (s * Power(s, d));
  }

  lemma {:induction false} PowerMonotone(s: nat, s': nat, d: nat)
    requires s <= s'
    ensures Power(s, d) <= Power(s', d)
  {
    if d > 0 {
      PowerMonotone(s, s', d - 1);
      ProductMonotone(s, Power(s, d - 1), Power(s', d - 1));
      ProductMonotone(Power(s', d - 1), s, s');
    }
  }

  /** Whenever S^5 reaches the capacity of the queue, a whole last level of 2 * S^4 entries exceeds it. */
  lemma LastLevelOverflows(s: nat)
    requires Power(s, MAX_BFS_PATH_LEN) >= MAX_CUCKOO_COUNT
    ensures s >= 4 && Codes(s, MAX_BFS_PATH_LEN - 1) > MAX_CUCKOO_COUNT - 1
  {
    assert Power(3, 5) == 243 && Power(4, 4) == 256 by { assert Power(3, 3) == 27 && Power(4, 2) == 16; }
    if s <= 3 { PowerMonotone(s, 3, 5); }
    PowerMonotone(4, s, 4);
  }

  /** The first `left` entries have depth d, the others d + 1. */
  ghost predicate Depths(d: nat, left: nat, q: seq<BSlot>)
  {
    left <= |q| && forall i :: 0 <= i < |q| ==> q[i].depth == if i < left then d else d + 1
  }

  lemma DepthsAppend(d: nat, left: nat, q: seq<BSlot>, y: BSlot)
    requires Depths(d, left, q) && y.depth == d + 1
    ensures Depths(d, left, q + [y])
  {
  }

  lemma DepthsPop(d: nat, left: nat, q: seq<BSlot>)
    requires Depths(d, left, q) && left >= 1
    ensures |q| >= left && q[0].depth == d && Depths(d, left - 1, q[1..])
  {
  }

  /** The queue between two dequeues: `left` entries of depth d, then the children of those that have
      gone. */
  ghost predicate Levels(s: nat, d: nat, left: nat, whole: bool, q: seq<BSlot>)
  {
    && Depths(d, left, q) && left <= Codes(s, d)
    && (whole ==> |q| - left == s * (Codes(s, d) - left))
  }

  /** The entry at the head is never of the greatest depth. */
  lemma HeadIsShallow(s: nat, d: nat, left: nat, q: seq<BSlot>) returns (d': nat, left': nat)
    requires Power(s, MAX_BFS_PATH_LEN) >= MAX_CUCKOO_COUNT && |q| < MAX_CUCKOO_COUNT && q != []
    requires Levels(s, d, left, true, q) && d < MAX_BFS_PATH_LEN - 1
    ensures Levels(s, d', left', true, q) && left' >= 1 && d <= d' < MAX_BFS_PATH_LEN - 1
    ensures d' > d || (d' == d && left' == left)
  {
    hide Power;
    d', left' := d, left;
    if left == 0 {
      LastLevelOverflows(s);
      CodesTimes(s, d);
      d', left' := d + 1, |q|;
    }
  }

  lemma ChildrenAdded(s: nat, d: nat, left: nat, n: nat)
    requires 1 <= left <= Codes(s, d) && n == s * (Codes(s, d) - left)
    ensures n + s == s * (Codes(s, d) - (left - 1))
  {
    hide Codes;
  }

  // ------------------------------------------------------------------ the search

  /** What a locked look at a slot finds: nothing, or an item with a hash value. */
  datatype Look = Vacant | Taken(hv: nat)

  /** A search: bucket size, hashpower, the two roots and what the looks find. */
  datatype Problem = Problem(s: nat, hp: nat, i1: nat, i2: nat, looks: nat -> Look)

  function HashOf(look: Look): nat { if look.Taken? then look.hv else 0 }

  /** Whose turn look number m is, and the how-manieth look at that entry it is. */
  function Turn(s: nat, m: nat): (k: nat)
    requires s >= 1
    ensures k <= m
  {
    QuotientSmaller(s, m);
    m / s
  }

  function Round(s: nat, m: nat): nat
    requires s >= 1
  {
    m % s
  }

  lemma QuotientSmaller(s: nat, m: nat)
    requires s >= 1
    ensures 0 <= m / s <= m
  {
  }

  lemma TurnAndRound(s: nat, k: nat, i: nat)
    requires i < s
    ensures Turn(s, k * s + i) == k && Round(s, k * s + i) == i
  {
    DigitAndRest(s, k, i);
  }

  /** The entries that get into the queue, in order: the two roots, and then one entry for each look, for the other
      bucket of the item that it finds.  Look number m is at an entry that the queue got long before. */
  function EntryOf(p: Problem, e: nat): BSlot
    requires p.s >= 1
    decreases e
  {
    if e == 0 then BSlot(p.i1, 0, 0)
    else if e == 1 then BSlot(p.i2, 1, 0)
    else Successor(p.s, p.hp, EntryOf(p, Turn(p.s, e - 2)), Round(p.s, e - 2), p.looks(e - 2))
  }

  /** The slot at which the look number i of an entry is. */
  function SlotOf(s: nat, x: BSlot, i: nat): nat
    requires s >= 1
  {
    Scan(s, x.pathcode % s, i)
  }

  /** The entry for what the look number i at the slots of x finds. */
  function Successor(s: nat, hp: nat, x: BSlot, i: nat, look: Look): BSlot
    requires s >= 1
  {
    BSlot(AlternateIndex(hp, HashOf(look), x.bucket), Extend(s, x.pathcode, SlotOf(s, x, i)), x.depth + 1)
  }

  /** The bucket and the slot of look number m: each entry in turn, and each of its slots in turn. */
  function PlaceOf(p: Problem, m: nat): (nat, nat)
    requires p.s >= 1
  {
    var x := EntryOf(p, Turn(p.s, m));
    (x.bucket, SlotOf(p.s, x, Round(p.s, m)))
  }

  /** The entries that n looks leave in the queue: each adds one, and the entries looked at have left. */
  function QueueAfter(s: nat, n: nat): int
    requires s >= 1
  {
    2 + n - (n + s - 1) / s
  }

  lemma QueueAt(s: nat, k: nat, i: nat)
    requires i <= s && s >= 1
    ensures i == 0 ==> QueueAfter(s, k * s + i) == 2 + k * s - k
    ensures i > 0 ==> QueueAfter(s, k * s + i) == 2 + k * s + i - (k + 1)
  {
    if i == 0 { Remainder(k * s + s - 1, s, k, s - 1); }
    else { Remainder(k * s + i + s - 1, s, k + 1, i - 1); }
  }

  /** More looks never leave fewer entries. */
  lemma {:induction false} QueueGrows(s: nat, n: nat, n': nat)
    requires s >= 1 && n <= n'
    ensures QueueAfter(s, n) <= QueueAfter(s, n')
    decreases n'
  {
    if n < n' {
      QueueGrows(s, n, n' - 1);
      OneMoreLook(s, n' - 1);
    }
  }

  lemma OneMoreLook(s: nat, n: nat)
    requires s >= 1
    ensures QueueAfter(s, n) <= QueueAfter(s, n + 1)
  {
    var k, i := n / s, n % s;
    assert n == k * s + i;
    QueueAt(s, k, i);
    QueueAt(s, k, i + 1);
  }

  /** With four slots per bucket the queue is full after 679 looks. */
  lemma LooksOfFourSlots(n: nat)
    ensures QueueAfter(4, n) < MAX_CUCKOO_COUNT - 1 <==> n < 679
  {
    if n < 679 { QueueGrows(4, n, 678); } else { QueueGrows(4, 679, n); }
  }

  /** The entries number lo up to hi, as the queue holds them. */
  function Entries(p: Problem, lo: nat, hi: nat): (q: seq<BSlot>)
    requires p.s >= 1 && lo <= hi
    ensures |q| == hi - lo && forall j :: 0 <= j < hi - lo ==> q[j] == EntryOf(p, lo + j)
  {
    hide *;
    seq(hi - lo, j requires 0 <= j < hi - lo => EntryOf(p, lo + j))
  }

  lemma RootsAreEntries(p: Problem)
    requires p.s >= 1
    ensures Entries(p, 0, 2) == [BSlot(p.i1, 0, 0), BSlot(p.i2, 1, 0)]
  {
  }

  lemma HeadIsEntry(p: Problem, lo: nat, hi: nat)
    requires p.s >= 1 && lo < hi
    ensures Entries(p, lo, hi)[0] == EntryOf(p, lo)
    ensures Entries(p, lo, hi)[1..] == Entries(p, lo + 1, hi)
  {
    hide EntryOf;
  }

  /** Look number k * p.s + i is at slot number i of entry k, and adds entry k * p.s + i + 2. */
  lemma LookIsNext(p: Problem, k: nat, i: nat, x: BSlot)
    requires p.s >= 1 && i < p.s && x == EntryOf(p, k)
    ensures PlaceOf(p, k * p.s + i) == (x.bucket, SlotOf(p.s, x, i))
    ensures EntryOf(p, k * p.s + i + 2) == Successor(p.s, p.hp, x, i, p.looks(k * p.s + i))
  {
    hide Successor, SlotOf, Turn, Round;
    TurnAndRound(p.s, k, i);
  }

  lemma EntryAdded(p: Problem, lo: nat, hi: nat)
    requires p.s >= 1 && lo <= hi
    ensures Entries(p, lo, hi + 1)
         == Entries(p, lo, hi) + [EntryOf(p, hi)]
  {
    hide EntryOf;
  }

  /** n looks have been made, in turn, before the queue was full, and all but perhaps the last have found items. */
  ghost predicate Looked(p: Problem, n: nat, places: seq<(nat, nat)>)
    requires p.s >= 1
  {
    && |places| == n
    && (forall m: nat :: m < n ==> places[m] == PlaceOf(p, m))
    && (forall m: nat :: m < n ==> QueueAfter(p.s, m) < MAX_CUCKOO_COUNT - 1)
    && (forall m: nat :: m + 1 < n ==> p.looks(m).Taken?)
  }

  /** k entries have left the queue, and n looks have been made. */
  ghost predicate Between(p: Problem, k: nat, n: nat, whole: bool, places: seq<(nat, nat)>, q: seq<BSlot>)
    requires p.s >= 1
  {
    && Looked(p, n, places) && (forall m: nat :: m < n ==> p.looks(m).Taken?)
    && k <= n + 2 && q == Entries(p, k, n + 2)
    && (whole ==> n == k * p.s) && QueueAfter(p.s, n) == |q|
  }

  /** Entry k has left the queue, and i of its slots have been looked at. */
  ghost predicate Within(p: Problem, k: nat, i: nat, n: nat, places: seq<(nat, nat)>, x: BSlot, q: seq<BSlot>)
    requires p.s >= 1
  {
    && Looked(p, n, places) && (forall m: nat :: m < n ==> p.looks(m).Taken?)
    && i <= p.s && n == k * p.s + i && x == EntryOf(p, k)
    && k + 1 <= n + 2 && q == Entries(p, k + 1, n + 2)
    && QueueAfter(p.s, n) == |q| + if i == 0 then 1 else 0
  }

  lemma SearchBegins(p: Problem)
    requires p.s >= 1
    ensures Between(p, 0, 0, true, [], [BSlot(p.i1, 0, 0), BSlot(p.i2, 1, 0)])
  {
    RootsAreEntries(p);
    QueueAt(p.s, 0, 0);
  }

  lemma EntryLeaves(p: Problem, k: nat, n: nat, places: seq<(nat, nat)>, q: seq<BSlot>)
    requires p.s >= 1 && Between(p, k, n, true, places, q) && q != []
    ensures Within(p, k, 0, n, places, q[0], q[1..])
  {
    hide Looked, EntryOf, Entries, QueueAfter;
    HeadIsEntry(p, k, n + 2);
  }

  /** One look: it has its turn, and, if it finds an item, adds an entry to the queue. */
  lemma LookHasItsTurn(p: Problem, k: nat, i: nat, n: nat, places: seq<(nat, nat)>, x: BSlot, q: seq<BSlot>)
    requires p.s >= 1 && Within(p, k, i, n, places, x, q) && i < p.s && |q| < MAX_CUCKOO_COUNT - 1
    requires i == 0 ==> |q| < MAX_CUCKOO_COUNT - 2
    ensures Looked(p, n + 1, places + [(x.bucket, SlotOf(p.s, x, i))])
    ensures p.looks(n).Taken? ==>
              Within(p, k, i + 1, n + 1, places + [(x.bucket, SlotOf(p.s, x, i))], x,
                     q + [Successor(p.s, p.hp, x, i, p.looks(n))])
  {
    hide EntryOf, Entries, QueueAfter, PlaceOf, SlotOf, Successor;
    LookIsNext(p, k, i, x);
    QueueAt(p.s, k, i);
    QueueAt(p.s, k, i + 1);
    EntryAdded(p, k + 1, n + 2);
  }

  lemma EntryScanned(p: Problem, k: nat, i: nat, n: nat, places: seq<(nat, nat)>, x: BSlot, q: seq<BSlot>)
    requires p.s >= 1 && Within(p, k, i, n, places, x, q) && i >= 1
    ensures Between(p, k + 1, n, i == p.s, places, q)
  {
    hide Looked, EntryOf, Entries, QueueAfter;
  }

  /** Whether the looks before the queue is full have all found items. */
  ghost predicate AllTaken(p: Problem)
    requires p.s >= 1
  {
    forall m: nat :: QueueAfter(p.s, m) < MAX_CUCKOO_COUNT - 1 ==> p.looks(m).Taken?
  }

  /** What the search answers after n looks: a free slot, found by the last look at the entry whose turn it was; or
      nothing, if and only if no look finds a free slot before the queue is full. */
  ghost predicate Answer(p: Problem, x: BSlot, n: nat, places: seq<(nat, nat)>)
    requires p.s >= 1
  {
    && Looked(p, n, places)
    && (x.depth == -1 <==> AllTaken(p))
    && if x.depth == -1 then x == BSlot(0, 0, -1) && QueueAfter(p.s, n) == MAX_CUCKOO_COUNT - 1
       else
         && n >= 1 && p.looks(n - 1) == Vacant
         && var e := EntryOf(p, Turn(p.s, n - 1));
            0 <= e.depth < MAX_BFS_PATH_LEN - 1 && x == e.(pathcode := Extend(p.s, e.pathcode, places[n - 1].1))
  }

  lemma SearchSucceeds(p: Problem, k: nat, i: nat, n: nat, places: seq<(nat, nat)>, x: BSlot, q: seq<BSlot>)
    requires p.s >= 1 && Within(p, k, i, n, places, x, q) && i < p.s && |q| < MAX_CUCKOO_COUNT - 1
    requires i == 0 ==> |q| < MAX_CUCKOO_COUNT - 2
    requires p.looks(n) == Vacant && 0 <= x.depth < MAX_BFS_PATH_LEN - 1
    ensures Answer(p, x.(pathcode := Extend(p.s, x.pathcode, SlotOf(p.s, x, i))), n + 1,
                   places + [(x.bucket, SlotOf(p.s, x, i))])
  {
    LookHasItsTurn(p, k, i, n, places, x, q);
    hide Looked, EntryOf, Entries, QueueAfter, Turn, Round, Extend, SlotOf;
    TurnAndRound(p.s, k, i);
    var places' := places + [(x.bucket, SlotOf(p.s, x, i))];
    assert |places| == n by { LookCount(p, n, places); }
    assert places'[n] == (x.bucket, SlotOf(p.s, x, i));
    assert !AllTaken(p);
  }

  lemma LookCount(p: Problem, n: nat, places: seq<(nat, nat)>)
    requires p.s >= 1 && Looked(p, n, places)
    ensures |places| == n
  {
  }

  lemma FullQueueEnds(p: Problem, k: nat, n: nat, whole: bool, places: seq<(nat, nat)>, q: seq<BSlot>)
    requires p.s >= 1 && Between(p, k, n, whole, places, q) && |q| == MAX_CUCKOO_COUNT - 1
    ensures Answer(p, BSlot(0, 0, -1), n, places)
  {
    hide Looked, Entries, QueueAfter, EntryOf, Turn;
    forall m: nat | QueueAfter(p.s, m) < MAX_CUCKOO_COUNT - 1 ensures p.looks(m).Taken? {
      if m >= n { QueueGrows(p.s, n, m); }
    }
  }

  class Search {
    const slotPerBucket: nat
    var held: set<nat>

    constructor (s: nat)
      requires Power(s, MAX_BFS_PATH_LEN) >= MAX_CUCKOO_COUNT
      ensures slotPerBucket == s && held == {}
    {
      slotPerBucket := s;
      held := {};
    }

    /** Taking a lock twice would wait for ever. */
    method Lock(b: nat)
      requires LockInd(b) !in held
      modifies this`held
      ensures held == old(held) + {LockInd(b)}
    {
      held := held + {LockInd(b)};
    }

    method Unlock(b: nat)
      requires LockInd(b) in held
      modifies this`held
      ensures held == old(held) - {LockInd(b)}
    {
      held := held - {LockInd(b)};
    }

    /** Other threads change the table between two looks, so what the looks find, one after the other,
        is any sequence at all.  The search looks on until it finds a free slot or the queue is full. */
    method SlotSearch(hp: nat, i1: nat, i2: nat, looks: nat -> Look)
      returns (x: BSlot, n: nat, ghost places: seq<(nat, nat)>)
      requires Power(slotPerBucket, MAX_BFS_PATH_LEN) >= MAX_CUCKOO_COUNT && held == {}
      modifies this`held
      ensures held == {} && slotPerBucket >= 1
      ensures Answer(Problem(slotPerBucket, hp, i1, i2, looks), x, n, places)
    {
      hide Power, Codes, LockInd, AlternateIndex, Scan, Extend, Depths, And, Cell, Pow2, EntryOf, Looked, Between,
           Within, QueueAfter, Answer;
      var s := slotPerBucket;
      ghost var p := Problem(s, hp, i1, i2, looks);
      var q := new BQueue();
      q.Enqueue(BSlot(i1, 0, 0));
      q.Enqueue(BSlot(i2, 1, 0));
      n, places := 0, [];
      ghost var d: nat, left: nat, whole, k: nat := 0, 2, true, 0;
      LastLevelOverflows(s);
      TwoRoots(s);
      RootsInQueue(i1, i2);
      SearchBegins(p);
      assert q.contents == [BSlot(i1, 0, 0), BSlot(i2, 1, 0)];
      while !q.Full() && !q.Empty()
        invariant fresh(q) && fresh(q.slots) && q.Valid() && held == {}
        invariant d < MAX_BFS_PATH_LEN - 1 && Levels(s, d, left, whole, q.contents) && q.contents != []
        invariant whole || q.Full()
        invariant Between(p, k, n, whole, places, q.contents)
        decreases MAX_BFS_PATH_LEN - d, left
      {
        d, left := HeadIsShallow(s, d, left, q.contents);
        DepthsPop(d, left, q.contents);
        EntryLeaves(p, k, n, places, q.contents);
        x := q.Dequeue();
        left := left - 1;
        ghost var before := |q.contents| - left;
        var startingSlot := x.pathcode % s;
        var i := 0;
        while i < s && !q.Full()
          invariant fresh(q) && fresh(q.slots) && q.Valid() && held == {}
          invariant 0 <= i <= s && x.depth == d && (i == 0 ==> |q.contents| < MAX_CUCKOO_COUNT - 2)
          invariant |q.contents| - left == before + i && Depths(d, left, q.contents)
          invariant startingSlot == x.pathcode % s && Within(p, k, i, n, places, x, q.contents)
        {
          var slot := Scan(s, startingSlot, i);
          LookHasItsTurn(p, k, i, n, places, x, q.contents);
          Lock(x.bucket);
          var look := looks(n);
          if look.Vacant? { SearchSucceeds(p, k, i, n, places, x, q.contents); }
          places := places + [(x.bucket, slot)];
          n := n + 1;
          if look.Vacant? {
            x := x.(pathcode := Extend(s, x.pathcode, slot));
            Unlock(x.bucket);
            return;
          }
          if x.depth < MAX_BFS_PATH_LEN - 1 {
            Unlock(x.bucket);
            var y := BSlot(AlternateIndex(hp, look.hv, x.bucket), Extend(s, x.pathcode, slot), x.depth + 1);
            DepthsAppend(d, left, q.contents, y);
            q.Enqueue(y);
          }
          i := i + 1;
        }
        whole := i == s;
        EntryScanned(p, k, i, n, places, x, q.contents);
        if whole { ChildrenAdded(s, d, left + 1, before); }
        k := k + 1;
      }
      FullQueueEnds(p, k, n, whole, places, q.contents);
      x := BSlot(0, 0, -1);
    }
  }
}
