/** The breadth-first search of the cuckoo table, look by look: which entry is in the queue when, which slots
    are looked at before the queue runs full, and what the search knows when it ends. */
module CuckooSearch {
  import opened Hashing
  import opened CuckooLayout
  import opened BfsQueue
  import opened CuckooPath

  // ------------------------------------------------------------------ the order of the looks

  /** The code of the entry at position p of level d, in the order in which the queue gets them. */
  function Nth(s: nat, d: nat, p: nat): nat
    requires s >= 1
    decreases d
  {
    if d == 0 then p
    else var c := Nth(s, d - 1, p / s); Extend(s, c, Scan(s, c % s, p % s))
  }

  /** The position at which an entry gets into its level. */
  function Child(s: nat, p: nat, i: nat): nat { p * s + i }

  lemma NthChild(s: nat, d: nat, p: nat, i: nat)
    requires i < s
    ensures Nth(s, d + 1, Child(s, p, i)) == Extend(s, Nth(s, d, p), Scan(s, Nth(s, d, p) % s, i))
  {
    DigitAndRest(s, p, i);
  }

  lemma {:induction false} NthBound(s: nat, d: nat, p: nat)
    requires s >= 1 && p < Codes(s, d)
    ensures Nth(s, d, p) < Codes(s, d)
  {
    hide Codes, Scan, Extend;
    if d > 0 {
      hide Nth;
      DropDigitBound(s, p, d);
      NthBound(s, d - 1, p / s);
      NthInNextLevel(s, d - 1, p);
    }
  }

  lemma NthInNextLevel(s: nat, d: nat, p: nat)
    requires s >= 1 && Nth(s, d, p / s) < Codes(s, d)
    ensures Nth(s, d + 1, p) < Codes(s, d + 1)
  {
    hide Codes, Scan;
    var c := Nth(s, d, p / s);
    FoundCode(s, c, Scan(s, c % s, p % s), d);
  }

  /** Every code of a level has a position. */
  lemma {:induction false} NthCovers(s: nat, d: nat, code: nat) returns (p: nat)
    requires s >= 1 && code < Codes(s, d)
    ensures p < Codes(s, d) && Nth(s, d, p) == code
  {
    p := code;
    if d > 0 {
      DropDigitBound(s, code, d);
      var q := NthCovers(s, d - 1, code / s);
      p := NthCoversChild(s, d - 1, q, code);
    }
  }

  lemma NthCoversChild(s: nat, d: nat, q: nat, code: nat) returns (p: nat)
    requires s >= 1 && q < Codes(s, d) && Nth(s, d, q) == code / s
    ensures p < Codes(s, d + 1) && Nth(s, d + 1, p) == code
  {
    hide Nth, Codes, Scan, Extend, Child;
    var i := CyclicScanIsComplete(s, code / s % s, code % s);
    NthChild(s, d, q, i);
    FoundCode(s, q, i, d);
    p := Child(s, q, i);
    ExtendInverse(s, code);
    ChildIsExtend(s, q, i);
  }

  lemma ExtendInverse(s: nat, code: nat)
    requires s >= 1
    ensures Extend(s, code / s, code % s) == code
  {
  }

  lemma ChildIsExtend(s: nat, p: nat, i: nat)
    ensures Child(s, p, i) == Extend(s, p, i)
  {
  }

  /** What the i-th look at the entry at position p of level d finds. */
  function Look(g: Maze, d: nat, p: nat, i: nat): Slot
    requires g.c.slots >= 1
  {
    var c := Nth(g.c.slots, d, p);
    SlotAt(g.t, Walk(g, c, d), Scan(g.c.slots, c % g.c.slots, i))
  }

  /** How many entries the queue has held when a look is decided on.  The last level adds no entries. */
  function QueueBefore(s: nat, d: nat, p: nat, i: nat): int
  {
    if d == MAX_BFS_PATH_LEN - 1 then Codes(s, d) else Codes(s, d) - p + Child(s, p, if i == 0 then 0 else i - 1)
  }

  /** The looks that a search takes unless it finds a free slot: those before the queue is full. */
  predicate InReach(s: nat, d: nat, p: nat, i: nat)
  {
    d < MAX_BFS_PATH_LEN && p < Codes(s, d) && i < s && QueueBefore(s, d, p, i) < MAX_CUCKOO_COUNT - 1
  }

  /** No look within reach finds a free slot. */
  ghost predicate Exhausted(g: Maze)
    requires g.c.slots >= 1
  {
    forall d: nat, p: nat, i: nat :: InReach(g.c.slots, d, p, i) ==> Look(g, d, p, i).Item?
  }

  /** A bucket without a free slot has been scanned from any of its slots on. */
  lemma ScannedBucketIsFull(g: Maze, d: nat, code: nat, p: nat)
    requires g.c.slots >= 1 && Nth(g.c.slots, d, p) == code
    requires forall i: nat :: i < g.c.slots ==> Look(g, d, p, i).Item?
    ensures BucketFull(g, Walk(g, code, d))
  {
    forall slot | 0 <= slot < g.c.slots ensures SlotAt(g.t, Walk(g, code, d), slot).Item? {
      var i := CyclicScanIsComplete(g.c.slots, code % g.c.slots, slot);
      assert Look(g, d, p, i).Item?;
    }
  }

  lemma ScannedLevelIsFull(g: Maze, d: nat)
    requires g.c.slots >= 1
    requires forall p: nat, i: nat :: p < Codes(g.c.slots, d) && i < g.c.slots ==> Look(g, d, p, i).Item?
    ensures LevelFull(g, d)
  {
    hide Look;
    forall code: nat | code < Codes(g.c.slots, d) ensures BucketFull(g, Walk(g, code, d)) {
      var p := NthCovers(g.c.slots, d, code);
      ScannedBucketIsFull(g, d, code, p);
    }
  }

  /** A level whose successors fit in the queue is searched completely. */
  lemma SmallLevelsAreSearched(g: Maze, d: nat)
    requires g.c.slots >= 1 && Exhausted(g) && d < MAX_BFS_PATH_LEN
    requires Codes(g.c.slots, if d < MAX_BFS_PATH_LEN - 1 then d + 1 else d) < MAX_CUCKOO_COUNT - 1
    ensures LevelFull(g, d)
  {
    hide Codes, Look;
    var s := g.c.slots;
    forall p: nat, i: nat | p < Codes(s, d) && i < s ensures Look(g, d, p, i).Item? {
      if d < MAX_BFS_PATH_LEN - 1 { QueueWithinNext(s, d, p, i); }
      assert InReach(s, d, p, i);
    }
    ScannedLevelIsFull(g, d);
  }

  /** Scanning p entries and i slots of a level leaves no more entries than the next level has. */
  lemma QueueWithinNext(s: nat, d: nat, p: nat, i: nat)
    requires s >= 1 && p < Codes(s, d) && i <= s
    ensures Codes(s, d) - p - 1 + Child(s, p, i) <= Codes(s, d + 1)
    ensures Codes(s, d) - p + Child(s, p, 0) <= Codes(s, d + 1)
  {
    CodesStep(s, d);
    hide Codes;
    var n := Codes(s, d);
    ProductMonotone(n - p - 1, 1, s);
    assert s * n == (n - p - 1) * s + p * s + s;
  }

  /** With four slots per bucket the search looks at every slot of the first three levels and at all but the very
      last slot of the fourth, and at nothing beyond. */
  lemma ReachOfFourSlots(d: nat, p: nat, i: nat)
    ensures InReach(4, d, p, i) <==> d <= 3 && p < Codes(4, d) && i < 4 && !(d == 3 && p == 127 && i == 3)
  {
    assert Power(4, 2) == 16 && Power(4, 3) == 64 && Power(4, 4) == 256;
  }

  // ------------------------------------------------------------------ the queue during the search

  /** The entries of level d at the positions lo <= p < hi. */
  function Stretch(g: Maze, d: nat, lo: nat, hi: nat): (r: seq<BSlot>)
    requires g.c.slots >= 1 && lo <= hi
    ensures |r| == hi - lo && forall q :: 0 <= q < hi - lo ==> r[q] == Entry(g, Nth(g.c.slots, d, lo + q), d)
  {
    seq(hi - lo, q requires 0 <= q < hi - lo => Entry(g, Nth(g.c.slots, d, lo + q), d))
  }

  /** The number of successors that looks have added to the queue. */
  function Added(d: nat, looks: nat): nat { if d < MAX_BFS_PATH_LEN - 1 then looks else 0 }

  predicate Earlier(d': nat, p': nat, i': nat, d: nat, p: nat, i: nat)
  {
    d' < d || (d' == d && (p' < p || (p' == p && i' < i)))
  }

  /** All looks before (d, p, i) have found items. */
  ghost predicate Passed(g: Maze, d: nat, p: nat, i: nat)
    requires g.c.slots >= 1
  {
    forall d': nat, p': nat, i': nat :: p' < Codes(g.c.slots, d') && i' < g.c.slots && Earlier(d', p', i', d, p, i) ==>
      Look(g, d', p', i').Item?
  }

  /** The search has come to entry p of level d.  While it is scanning, the entry has left the queue and i of its
      slots have been looked at. */
  ghost predicate Searching(g: Maze, d: nat, p: nat, i: nat, scanning: bool, contents: seq<BSlot>)
    requires g.c.slots >= 1
  {
    && d < MAX_BFS_PATH_LEN && p <= Codes(g.c.slots, d) && i <= g.c.slots
    && (if scanning then p < Codes(g.c.slots, d) else i == 0)
    && (d >= 1 ==> Codes(g.c.slots, d) < MAX_CUCKOO_COUNT - 1)
    && contents == Stretch(g, d, if scanning then p + 1 else p, Codes(g.c.slots, d))
                 + Stretch(g, d + 1, 0, Added(d, Child(g.c.slots, p, i)))
    && Passed(g, d, p, i)
  }

  lemma SearchStarts(g: Maze)
    requires g.c.slots >= 1
    ensures Searching(g, 0, 0, 0, false, [BSlot(g.i1, 0, 0), BSlot(g.i2, 1, 0)])
  {
    assert Codes(g.c.slots, 0) == 2;
    assert Stretch(g, 0, 0, 2) == [BSlot(g.i1, 0, 0), BSlot(g.i2, 1, 0)];
  }

  lemma QueueLength(g: Maze, d: nat, p: nat, i: nat, scanning: bool, contents: seq<BSlot>)
    requires g.c.slots >= 1 && Searching(g, d, p, i, scanning, contents)
    ensures |contents| == Codes(g.c.slots, d) - p - (if scanning then 1 else 0) + Added(d, Child(g.c.slots, p, i))
  {
    hide Codes, Child;
  }

  /** Where the entry at the head of the queue belongs: to this level, or it is the first of the next. */
  lemma HeadOfQueue(g: Maze, d: nat, p: nat, contents: seq<BSlot>) returns (d': nat, p': nat)
    requires g.c.slots >= 1 && Searching(g, d, p, 0, false, contents)
    requires contents != [] && |contents| < MAX_CUCKOO_COUNT - 1
    ensures Searching(g, d', p', 0, false, contents) && d' < MAX_BFS_PATH_LEN && p' < Codes(g.c.slots, d')
    ensures d' > d || (d' == d && p' == p)
  {
    hide Look;
    d', p' := d, p;
    if p == Codes(g.c.slots, d) {
      d', p' := d + 1, 0;
      LevelDone(g, d, contents);
    }
  }

  /** When a level has been scanned, the queue holds the next one. */
  lemma LevelDone(g: Maze, d: nat, contents: seq<BSlot>)
    requires g.c.slots >= 1 && Searching(g, d, Codes(g.c.slots, d), 0, false, contents)
    requires contents != [] && |contents| < MAX_CUCKOO_COUNT - 1
    ensures d + 1 < MAX_BFS_PATH_LEN && 0 < Codes(g.c.slots, d + 1)
    ensures Searching(g, d + 1, 0, 0, false, contents)
  {
    hide Look, Passed, Codes, Stretch, Power, Nth, Entry;
    var s := g.c.slots;
    var p := Codes(s, d);
    CodesStep(s, d);
    CodesGrow(s, 0, d + 1);
    assert Child(s, p, 0) == Codes(s, d + 1) && Child(s, 0, 0) == 0;
    assert Stretch(g, d, p, p) + Stretch(g, d + 1, 0, Codes(s, d + 1))
        == Stretch(g, d + 1, 0, Codes(s, d + 1)) + Stretch(g, d + 2, 0, 0);
    hide Child;
    NextLevelPassed(g, d);
  }

  lemma NextLevelPassed(g: Maze, d: nat)
    requires g.c.slots >= 1 && Passed(g, d, Codes(g.c.slots, d), 0)
    ensures Passed(g, d + 1, 0, 0)
  {
    hide Codes, Look;
  }

  /** Taking the entry off the queue. */
  lemma EntryTaken(g: Maze, d: nat, p: nat, contents: seq<BSlot>)
    requires g.c.slots >= 1 && Searching(g, d, p, 0, false, contents) && p < Codes(g.c.slots, d)
    ensures contents != [] && contents[0] == Entry(g, Nth(g.c.slots, d, p), d)
    ensures Searching(g, d, p, 0, true, contents[1..])
  {
    hide Codes, Look, Child, Passed;
    var n := Codes(g.c.slots, d);
    assert Stretch(g, d, p, n)[1..] == Stretch(g, d, p + 1, n);
    var kids := Stretch(g, d + 1, 0, Added(d, Child(g.c.slots, p, 0)));
    assert (Stretch(g, d, p, n) + kids)[1..] == Stretch(g, d, p, n)[1..] + kids;
  }

  lemma OneMorePassed(g: Maze, d: nat, p: nat, i: nat)
    requires g.c.slots >= 1 && Passed(g, d, p, i) && Look(g, d, p, i).Item?
    ensures Passed(g, d, p, i + 1)
  {
    hide Codes, Look;
  }

  /** A look at slot `slot` of bucket b, the end of walk c, finds an item: its alternate bucket goes to the end of
      the queue. */
  lemma LookPassed(g: Maze, d: nat, p: nat, i: nat, contents: seq<BSlot>, c: nat, b: nat, slot: nat)
    requires g.c.slots >= 1 && Searching(g, d, p, i, true, contents) && i < g.c.slots
    requires LooksAt(g, d, p, i, c, b, slot) && SlotAt(g.t, b, slot).Item?
    ensures d < MAX_BFS_PATH_LEN - 1 ==>
              var y := BSlot(AltIndex(g.hp, SlotAt(g.t, b, slot).partial, b), Extend(g.c.slots, c, slot), d + 1);
              Searching(g, d, p, i + 1, true, contents + [y])
    ensures d == MAX_BFS_PATH_LEN - 1 ==> Searching(g, d, p, i + 1, true, contents)
  {
    hide *;
    SearchingPassed(g, d, p, i, true, contents);
    ItemSeen(g, d, p, i, c, b, slot);
    OneMorePassed(g, d, p, i);
    if d < MAX_BFS_PATH_LEN - 1 {
      OneMoreAdded(g, d, p, i, c, b, slot);
      QueueGrows(g, d, p, i, contents);
    } else {
      LastLevelGoesOn(g, d, p, i, contents);
    }
  }

  lemma SearchingPassed(g: Maze, d: nat, p: nat, i: nat, scanning: bool, contents: seq<BSlot>)
    requires g.c.slots >= 1 && Searching(g, d, p, i, scanning, contents)
    ensures d < MAX_BFS_PATH_LEN && Passed(g, d, p, i)
  {
    hide Passed;
  }

  lemma ItemSeen(g: Maze, d: nat, p: nat, i: nat, c: nat, b: nat, slot: nat)
    requires g.c.slots >= 1 && LooksAt(g, d, p, i, c, b, slot) && SlotAt(g.t, b, slot).Item?
    ensures Look(g, d, p, i).Item?
  {
    hide Nth, Walk, Scan, SlotAt;
  }

  lemma QueueGrows(g: Maze, d: nat, p: nat, i: nat, contents: seq<BSlot>)
    requires g.c.slots >= 1 && Searching(g, d, p, i, true, contents) && i < g.c.slots
    requires d < MAX_BFS_PATH_LEN - 1 && Passed(g, d, p, i + 1)
    ensures Searching(g, d, p, i + 1, true,
                      contents + [Entry(g, Nth(g.c.slots, d + 1, Child(g.c.slots, p, i)), d + 1)])
  {
    hide Passed, Codes, Nth, Stretch, Entry;
    var n := Child(g.c.slots, p, i);
    assert Child(g.c.slots, p, i + 1) == n + 1;
    hide Child;
    StretchGrows(g, d + 1, n);
  }

  lemma LastLevelGoesOn(g: Maze, d: nat, p: nat, i: nat, contents: seq<BSlot>)
    requires g.c.slots >= 1 && Searching(g, d, p, i, true, contents) && i < g.c.slots
    requires d == MAX_BFS_PATH_LEN - 1 && Passed(g, d, p, i + 1)
    ensures Searching(g, d, p, i + 1, true, contents)
  {
    hide Passed, Codes, Nth, Stretch, Entry, Child;
  }

  predicate LooksAt(g: Maze, d: nat, p: nat, i: nat, c: nat, b: nat, slot: nat)
    requires g.c.slots >= 1
  {
    c == Nth(g.c.slots, d, p) && b == Walk(g, c, d) && slot == Scan(g.c.slots, c % g.c.slots, i)
  }

  lemma StretchGrows(g: Maze, d: nat, n: nat)
    requires g.c.slots >= 1
    ensures Stretch(g, d, 0, n + 1) == Stretch(g, d, 0, n) + [Entry(g, Nth(g.c.slots, d, n), d)]
  {
    hide Entry, Nth;
  }

  lemma OneMoreAdded(g: Maze, d: nat, p: nat, i: nat, c: nat, b: nat, slot: nat)
    requires i < g.c.slots && LooksAt(g, d, p, i, c, b, slot) && SlotAt(g.t, b, slot).Item?
    ensures Entry(g, Nth(g.c.slots, d + 1, Child(g.c.slots, p, i)), d + 1)
         == BSlot(AltIndex(g.hp, SlotAt(g.t, b, slot).partial, b), Extend(g.c.slots, c, slot), d + 1)
  {
    NthChild(g.c.slots, d, p, i);
    hide Nth, Walk;
    ChildEntry(g, d, c, slot);
  }

  lemma ChildEntry(g: Maze, d: nat, code: nat, slot: nat)
    requires slot < g.c.slots && SlotAt(g.t, Walk(g, code, d), slot).Item?
    ensures Entry(g, Extend(g.c.slots, code, slot), d + 1)
         == BSlot(AltIndex(g.hp, SlotAt(g.t, Walk(g, code, d), slot).partial, Walk(g, code, d)),
                  Extend(g.c.slots, code, slot), d + 1)
  {
    DigitAndRest(g.c.slots, code, slot);
  }

  /** A bucket has been scanned to its end. */
  lemma EntryDone(g: Maze, d: nat, p: nat, contents: seq<BSlot>)
    requires g.c.slots >= 1 && Searching(g, d, p, g.c.slots, true, contents)
    ensures Searching(g, d, p + 1, 0, false, contents)
  {
    assert Child(g.c.slots, p, g.c.slots) == Child(g.c.slots, p + 1, 0);
    hide Codes, Look, Child;
  }

  // ------------------------------------------------------------------ how the search ends

  /** A free slot within reach: it is at the end of a shortest walk. */
  lemma LookFinds(g: Maze, d: nat, p: nat, i: nat, contents: seq<BSlot>, c: nat, b: nat, slot: nat)
    requires g.c.slots >= 1 && Searching(g, d, p, i, true, contents) && i < g.c.slots
    requires if i == 0 then |contents| < MAX_CUCKOO_COUNT - 2 else |contents| < MAX_CUCKOO_COUNT - 1
    requires LooksAt(g, d, p, i, c, b, slot) && SlotAt(g.t, b, slot).Free?
    ensures FoundShortest(g, BSlot(b, Extend(g.c.slots, c, slot), d)) && !Exhausted(g)
  {
    var s := g.c.slots;
    NthBound(s, d, p);
    FoundCode(s, c, slot, d);
    forall d' | 0 <= d' < d ensures LevelFull(g, d') { EarlierLevelIsFull(g, d, p, i, d'); }
    QueueLength(g, d, p, i, true, contents);
    assert InReach(s, d, p, i) by { hide Codes, Extend, Walk; }
    assert Look(g, d, p, i).Free?;
  }

  lemma EarlierLevelIsFull(g: Maze, d: nat, p: nat, i: nat, d': nat)
    requires g.c.slots >= 1 && Passed(g, d, p, i) && d' < d
    ensures LevelFull(g, d')
  {
    hide Codes, Look;
    ScannedLevelIsFull(g, d');
  }

  /** A queue that has run full, or empty, leaves no look within reach. */
  lemma SearchEnds(g: Maze, d: nat, p: nat, i: nat, scanning: bool, contents: seq<BSlot>)
    requires g.c.slots >= 1 && Searching(g, d, p, i, scanning, contents)
    requires if scanning then |contents| == MAX_CUCKOO_COUNT - 1 && i >= 1 else
             |contents| == MAX_CUCKOO_COUNT - 1 || contents == []
    ensures Exhausted(g)
  {
    var s := g.c.slots;
    QueueLength(g, d, p, i, scanning, contents);
    CodesGrow(s, 0, d);
    hide Codes, Look;
    if |contents| == MAX_CUCKOO_COUNT - 1 {
      forall d': nat, p': nat, i': nat | InReach(s, d', p', i') ensures Earlier(d', p', i', d, p, i) {
        if !Earlier(d', p', i', d, p, i) { BeyondReach(s, d, p, i, scanning, d', p', i'); }
      }
    } else {
      assert p == Codes(s, d);
      if d < MAX_BFS_PATH_LEN - 1 { ProductMonotone(p, 1, s); }
    }
  }

  /** Once the queue is full, no later look is within reach. */
  lemma BeyondReach(s: nat, d: nat, p: nat, i: nat, scanning: bool, d': nat, p': nat, i': nat)
    requires s >= 1 && d < MAX_BFS_PATH_LEN - 1 && p <= Codes(s, d) && i <= s
    requires if scanning then p < Codes(s, d) && i >= 1 else i == 0
    requires Codes(s, d) - p - (if scanning then 1 else 0) + Child(s, p, i) >= MAX_CUCKOO_COUNT - 1
    requires !Earlier(d', p', i', d, p, i)
    ensures !InReach(s, d', p', i')
  {
    if InReach(s, d', p', i') {
      if d' == d {
        LaterOnLevel(s, d, p, i, scanning, p', i');
      } else {
        CodesGrow(s, d + 1, d');
        WholeQueueWithinNext(s, d, p, i, scanning);
        hide Codes;
        ProductMonotone(p', 1, s);
      }
    }
  }

  lemma LaterOnLevel(s: nat, d: nat, p: nat, i: nat, scanning: bool, p': nat, i': nat)
    requires s >= 1 && d < MAX_BFS_PATH_LEN - 1 && i <= s && (scanning ==> i >= 1) && (!scanning ==> i == 0)
    requires p' > p || (p' == p && i' >= i)
    ensures QueueBefore(s, d, p', i') >= Codes(s, d) - p - (if scanning then 1 else 0) + Child(s, p, i)
  {
    hide Codes;
    if p' > p {
      ProductMonotone(s - 1, p + 1, p');
      Unfolded(s, p');
      Unfolded(s, p + 1);
      assert (p + 1) * s == p * s + s;
      hide *;
    }
  }

  lemma Unfolded(s: nat, p: nat)
    requires s >= 1
    ensures p * s == (s - 1) * p + p
  {
  }

  lemma WholeQueueWithinNext(s: nat, d: nat, p: nat, i: nat, scanning: bool)
    requires s >= 1 && p <= Codes(s, d) && i <= s && if scanning then p < Codes(s, d) else i == 0
    ensures Codes(s, d) - p - (if scanning then 1 else 0) + Child(s, p, i) <= Codes(s, d + 1)
  {
    if p < Codes(s, d) { QueueWithinNext(s, d, p, i); } else { CodesStep(s, d); }
  }

  /** Neither the code of a queued entry, nor that of a slot it leads to, overflows its word, given that S^5 is
      below 2^64. */
  lemma SearchCodesFitWord(g: Maze, d: nat, p: nat, i: nat, scanning: bool, contents: seq<BSlot>)
    requires g.c.slots >= 1 && Searching(g, d, p, i, scanning, contents)
    requires Power(g.c.slots, MAX_BFS_PATH_LEN) < WORD
    ensures forall q, slot: nat :: 0 <= q < |contents| && contents[q].depth == d && slot < g.c.slots ==>
              contents[q].pathcode < WORD && Extend(g.c.slots, contents[q].pathcode, slot) < WORD
    ensures forall q :: 0 <= q < |contents| ==> contents[q].pathcode < WORD
  {
    var s := g.c.slots;
    CodesFitWord(s, d);
    CodesGrow(s, d, d + 1);
    WholeQueueWithinNext(s, d, p, i, scanning);
    AddedWithinNext(s, d, p, i, scanning);
    hide Power, Codes, Look, Passed;
    forall e: nat, q: nat | q < Codes(s, e) ensures Nth(s, e, q) < Codes(s, e) { NthBound(s, e, q); }
    hide Nth;
    forall q, slot: nat | 0 <= q < |contents| && contents[q].depth == d && slot < s
      ensures Extend(s, contents[q].pathcode, slot) < WORD
    {
      FoundCode(s, contents[q].pathcode, slot, d);
    }
  }

  lemma AddedWithinNext(s: nat, d: nat, p: nat, i: nat, scanning: bool)
    requires s >= 1 && p <= Codes(s, d) && i <= s && if scanning then p < Codes(s, d) else i == 0
    ensures Added(d, Child(s, p, i)) <= Codes(s, d + 1)
  {
    WholeQueueWithinNext(s, d, p, i, scanning);
  }

  // ------------------------------------------------------------------ full tables

  /** What makes an insertion of a new key fail: both its buckets are full, and no look within reach finds a free
      slot. */
  ghost predicate Stuck(g: Maze)
    requires g.c.slots >= 1
  {
    BucketFull(g, g.i1) && BucketFull(g, g.i2) && Exhausted(g)
  }

  /** In a table without any free slot every insertion is stuck. */
  lemma FullTableIsStuck(g: Maze)
    requires Shape(g.c, g.hp, g.t) && g.i1 < Pow2(g.hp) && g.i2 < Pow2(g.hp)
    requires forall b :: 0 <= b < |g.t| ==> BucketFull(g, b)
    ensures Stuck(g)
  {
    hide Walk, Nth, Codes, InReach, Scan, Pow2;
    assert |g.t| == Pow2(g.hp);
    forall d: nat, p: nat, i: nat | InReach(g.c.slots, d, p, i) ensures Look(g, d, p, i).Item? {
      WalkInTable(g, Nth(g.c.slots, d, p), d);
      assert BucketFull(g, Walk(g, Nth(g.c.slots, d, p), d));
    }
  }
}
