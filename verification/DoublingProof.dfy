/** Gradual unlocking is safe for every order of the workers' and the other threads' steps. */
module DoublingProof {
  import opened Hashing
  import opened CuckooLayout
  import opened CuckooTable
  import opened Doubling

  // ------------------------------------------------------------------ the invariant

  /** The old bucket whose split fills bucket b. */
  function Home(e: Setting, b: nat): nat { if b < HashSize(e.hp) then b else b - HashSize(e.hp) }

  predicate ExpanderHolds(st: State, l: nat) { l in st.owners && st.owners[l] == Expander }

  ghost predicate Sizes(e: Setting, st: State)
  {
    && e.hp >= 1 && e.c.slots >= 1 && e.cores >= 1
    && Shape(e.c, e.hp + 1, st.t)
    && |st.scanned| == |st.arrived| == HashSize(e.hp)
    && (forall o: nat :: o < HashSize(e.hp) ==> st.arrived[o] <= st.scanned[o] <= e.c.slots)
  }

  /** Both buckets that come from old bucket o have their final layout. */
  predicate Split(e: Setting, st: State, o: nat)
  {
    o < |st.scanned| && st.scanned[o] == e.c.slots
  }

  /** Where an item may be while its bucket is being split. */
  predicate Staged(e: Setting, st: State, b: nat, s: nat, x: Slot)
    requires x.Item? && |st.scanned| == |st.arrived| == HashSize(e.hp) && b < 2 * HashSize(e.hp)
  {
    if b < HashSize(e.hp) then WellPlaced(e.c, if s < st.scanned[b] then e.hp + 1 else e.hp, b, x)
    else WellPlaced(e.c, e.hp + 1, b, x) && (Split(e, st, b - HashSize(e.hp)) || s < st.arrived[b - HashSize(e.hp)])
  }

  ghost predicate TableOk(e: Setting, st: State)
    requires Sizes(e, st)
  {
    && Unique(st.t) && Represents(st.t, st.m)
    && (forall b: nat, s: nat :: SlotAt(st.t, b, s).Item? ==> Staged(e, st, b, s, SlotAt(st.t, b, s)))
  }

  ghost predicate LocksOk(e: Setting, st: State)
  {
    && (forall l: nat :: l in st.owners ==> l < LockCount(e.hp + 1))
    && (forall b: nat :: b < HashSize(e.hp + 1) && !ExpanderHolds(st, LockInd(b)) ==> Split(e, st, Home(e, b)))
    && (forall l: nat :: l < LockCount(e.hp + 1) ==> st.releases[l] == if ExpanderHolds(st, l) then 0 else 1)
    && (forall l: nat :: l in st.releases ==> l < LockCount(e.hp + 1))
  }

  predicate Before(w: Worker, o: nat) { LockInd(o) < w.l || (LockInd(o) == w.l && o < w.b) }

  predicate After(w: Worker, o: nat) { LockInd(o) > w.l || (LockInd(o) == w.l && o > w.b) }

  predicate InRange(e: Setting, i: nat, l: nat)
    requires i < e.cores
  {
    RangeStart(0, LockCount(e.hp), e.cores, i) <= l < RangeEnd(0, LockCount(e.hp), e.cores, i)
  }

  ghost predicate WorkerOk(e: Setting, st: State, i: nat, w: Worker)
    requires i < e.cores && |st.scanned| == |st.arrived| == HashSize(e.hp)
  {
    && RangeStart(0, LockCount(e.hp), e.cores, i) <= w.l <= w.end == RangeEnd(0, LockCount(e.hp), e.cores, i)
    && (forall l: nat :: InRange(e, i, l) ==> (ExpanderHolds(st, l) <==> w.l <= l))
    && w.newSlot <= w.slot <= e.c.slots
    && (w.l < w.end ==> LockInd(w.b) == w.l)
    && (w.l < w.end && w.b < HashSize(e.hp) ==> st.scanned[w.b] == w.slot && st.arrived[w.b] == w.newSlot)
    && (forall o: nat :: o < HashSize(e.hp) && InRange(e, i, LockInd(o)) && Before(w, o) ==> Split(e, st, o))
    && (forall o: nat :: o < HashSize(e.hp) && InRange(e, i, LockInd(o)) && After(w, o) ==>
        st.scanned[o] == 0 && st.arrived[o] == 0)
  }

  ghost predicate AllSplit(e: Setting, st: State)
  {
    forall o: nat :: o < HashSize(e.hp) ==> Split(e, st, o)
  }

  ghost predicate ReleaserOk(e: Setting, st: State, i: nat, r: Range)
    requires i < e.cores && LockCount(e.hp) <= LockCount(e.hp + 1)
  {
    && RangeStart(LockCount(e.hp), LockCount(e.hp + 1), e.cores, i) <= r.l <= r.end
        == RangeEnd(LockCount(e.hp), LockCount(e.hp + 1), e.cores, i)
    && (forall l: nat :: RangeStart(LockCount(e.hp), LockCount(e.hp + 1), e.cores, i) <= l < r.end ==>
        (ExpanderHolds(st, l) <==> r.l <= l))
  }

  ghost predicate PhaseOk(e: Setting, st: State)
    requires Sizes(e, st)
  {
    && LockCount(e.hp) <= LockCount(e.hp + 1)
    && match st.phase
       case Moving(ws) =>
         && |ws| == e.cores && (forall i :: 0 <= i < e.cores ==> WorkerOk(e, st, i, ws[i]))
         && (forall l: nat :: LockCount(e.hp) <= l < LockCount(e.hp + 1) ==> ExpanderHolds(st, l))
       case Releasing(rs) =>
         && |rs| == e.cores && (forall i :: 0 <= i < e.cores ==> ReleaserOk(e, st, i, rs[i]))
         && AllSplit(e, st) && (forall l: nat :: l < LockCount(e.hp) ==> !ExpanderHolds(st, l))
       case Finished =>
         AllSplit(e, st) && (forall l: nat :: l < LockCount(e.hp + 1) ==> !ExpanderHolds(st, l))
  }

  ghost predicate StateOk(e: Setting, st: State)
  {
    Sizes(e, st) && TableOk(e, st) && LocksOk(e, st) && PhaseOk(e, st)
  }

  lemma Twice(e: Setting)
    ensures HashSize(e.hp + 1) == 2 * HashSize(e.hp)
  {
  }

  // ------------------------------------------------------------------ finding a key

  /** The locks of a key's new buckets guard the bucket where the key still is. */
  lemma SplitBehindLocks(e: Setting, st: State, u: nat, k: Key, b: nat)
    requires Sizes(e, st) && LocksOk(e, st) && HoldsKey(e, st, u, k) && b < HashSize(e.hp)
    requires b == Index1(e.hp, e.c.hash(k)) || b == Index2(e.hp, e.c.hash(k))
    ensures Split(e, st, b)
  {
    hide LockInd, Index1, Index2, Split, Pow2, LockCount;
    var hv := e.c.hash(k);
    CandidatesAfterDoubling(e.hp, hv);
    CandidatesAreBuckets(e.hp + 1, hv);
    var b' := if b == Index1(e.hp, hv) then Index1(e.hp + 1, hv) else Index2(e.hp + 1, hv);
    assert HoldsBucket(st, u, b') && Home(e, b') == b;
  }

  /** A thread that holds both locks of a key finds the key in its two new buckets, if it is bound. */
  lemma BoundIsFound(e: Setting, st: State, u: nat, k: Key)
    requires StateOk(e, st) && HoldsKey(e, st, u, k) && k in st.m
    ensures exists b, s :: FoundAt(e, st, k, b, s) && SlotAt(st.t, b, s).val == st.m[k]
  {
    hide LockInd, Index1, Index2, Pow2, LocksOk, PhaseOk, LockCount;
    Twice(e);
    assert Stores(st.t, k);
    var b, s :| SlotAt(st.t, b, s).Item? && SlotAt(st.t, b, s).key == k;
    assert Staged(e, st, b, s, SlotAt(st.t, b, s));
    if b < HashSize(e.hp) && s >= st.scanned[b] {
      SplitBehindLocks(e, st, u, k, b);
    }
    assert FoundAt(e, st, k, b, s);
  }

  lemma FoundIsBound(e: Setting, st: State, k: Key, b: int, s: int)
    requires StateOk(e, st) && FoundAt(e, st, k, b, s)
    ensures k in st.m && st.m[k] == SlotAt(st.t, b, s).val
  {
    hide LockInd, Index1, Index2, Pow2, LocksOk, PhaseOk;
  }

  // ------------------------------------------------------------------ one slot of a split

  /** Moving an item to a free slot changes nothing about which items there are. */
  lemma {:induction false} MoveKeepsMap(t: Table, m: map<Key, Val>, b: nat, s: nat, b': nat, s': nat)
    requires Unique(t) && Represents(t, m)
    requires b < |t| && s < |t[b]| && b' < |t| && s' < |t[b']| && t[b][s].Item? && t[b'][s'].Free?
    ensures var t' := Put(Put(t, b', s', t[b][s]), b, s, Free);
            && Unique(t') && Represents(t', m)
            && (forall b1, s1 :: SlotAt(t', b1, s1) ==
                  if b1 == b && s1 == s then Free else if b1 == b' && s1 == s' then t[b][s] else SlotAt(t, b1, s1))
  {
    var x := t[b][s];
    var t1 := Write(t, b', s', x);
    var t' := Write(t1, b, s, Free);
    assert Put(Put(t, b', s', x), b, s, Free) == t';
    assert SlotAt(t, b, s) == x;
    forall b1, s1 | SlotAt(t', b1, s1).Item?
      ensures SlotAt(t', b1, s1).key in m && m[SlotAt(t', b1, s1).key] == SlotAt(t', b1, s1).val
    {
      if b1 != b' || s1 != s' { assert SlotAt(t', b1, s1) == SlotAt(t, b1, s1); }
    }
    forall b1, s1, b2, s2 | SameKey(t', b1, s1, b2, s2) ensures b1 == b2 && s1 == s2 {
      var p1, q1 := if b1 == b' && s1 == s' then b else b1, if b1 == b' && s1 == s' then s else s1;
      var p2, q2 := if b2 == b' && s2 == s' then b else b2, if b2 == b' && s2 == s' then s else s2;
      assert SameKey(t, p1, q1, p2, q2);
    }
    forall k | k in m ensures Stores(t', k) {
      assert Stores(t, k);
      var b1, s1 :| SlotAt(t, b1, s1).Item? && SlotAt(t, b1, s1).key == k;
      if b1 == b && s1 == s {
        assert SlotAt(t', b', s').Item? && SlotAt(t', b', s').key == k;
      } else {
        assert SlotAt(t', b1, s1).Item? && SlotAt(t', b1, s1).key == k;
      }
    }
  }

  /** The target of a move is inside the fresh bucket, and free: the split never overflows and never
      overwrites an item. */
  lemma TargetIsFree(e: Setting, st: State, w: Worker)
    requires Sizes(e, st) && TableOk(e, st) && w.b < HashSize(e.hp) && w.slot < e.c.slots
    requires st.scanned[w.b] == w.slot && st.arrived[w.b] == w.newSlot
    ensures w.b + HashSize(e.hp) < |st.t| && w.newSlot < |st.t[w.b + HashSize(e.hp)]|
    ensures st.t[w.b + HashSize(e.hp)][w.newSlot].Free?
  {
    hide Index1, Index2, Pow2, Unique, Represents;
    Twice(e);
    var b' := w.b + HashSize(e.hp);
    assert SlotAt(st.t, b', w.newSlot) == st.t[b'][w.newSlot];
  }

  /** The state after a worker has looked at one slot of its bucket. */
  function Looked(e: Setting, st: State, b: nat, slot: nat, newSlot: nat): State
    requires |st.scanned| == |st.arrived| && b < |st.scanned|
  {
    var x := SlotAt(st.t, b, slot);
    if x.Item? && Leaves(e.c, e.hp, b, x) then
      st.(t := Put(Put(st.t, b + HashSize(e.hp), newSlot, x), b, slot, Free),
          scanned := st.scanned[b := slot + 1], arrived := st.arrived[b := newSlot + 1])
    else st.(scanned := st.scanned[b := slot + 1])
  }

  lemma LookedTable(e: Setting, st: State, w: Worker)
    requires Sizes(e, st) && TableOk(e, st) && w.b < HashSize(e.hp) && w.slot < e.c.slots
    requires st.scanned[w.b] == w.slot && st.arrived[w.b] == w.newSlot
    ensures var st' := Looked(e, st, w.b, w.slot, w.newSlot); Sizes(e, st') && TableOk(e, st')
  {
    hide Pow2, Unique, Represents, Leaves, WellPlaced;
    Twice(e);
    var b, slot := w.b, w.slot;
    var b' := b + HashSize(e.hp);
    var st' := Looked(e, st, b, slot, w.newSlot);
    TargetIsFree(e, st, w);
    var x := SlotAt(st.t, b, slot);
    if x.Item? {
      assert Staged(e, st, b, slot, x);
      SplitPlacement(e.c, e.hp, b, x);
    }
    if x.Item? && Leaves(e.c, e.hp, b, x) {
      MoveKeepsMap(st.t, st.m, b, slot, b', w.newSlot);
    }
    forall b1: nat, s1: nat | SlotAt(st'.t, b1, s1).Item? ensures Staged(e, st', b1, s1, SlotAt(st'.t, b1, s1)) {
      if x.Item? && Leaves(e.c, e.hp, b, x) && b1 == b' && s1 == w.newSlot {
      } else {
        assert SlotAt(st'.t, b1, s1) == SlotAt(st.t, b1, s1);
        assert Staged(e, st, b1, s1, SlotAt(st.t, b1, s1));
      }
    }
  }

  // ------------------------------------------------------------------ the worker that steps, and the others

  /** Two workers never have the same lock in their ranges. */
  lemma OneRange(e: Setting, i: nat, j: nat, l: nat)
    requires i < e.cores && j < e.cores && InRange(e, i, l) && InRange(e, j, l)
    ensures i == j
  {
    hide LockCount, RangeStart;
    if i < j { RangesApart(0, LockCount(e.hp), e.cores, i, j); }
    if j < i { RangesApart(0, LockCount(e.hp), e.cores, j, i); }
  }

  /** A bucket with the lock of the worker's bucket that is not before it, and not beyond the next one. */
  lemma BeforeNext(w: Worker, o: nat)
    requires LockInd(w.b) == w.l
    ensures Before(w.(b := w.b + NUM_LOCKS), o) ==> Before(w, o) || o == w.b
    ensures After(w.(b := w.b + NUM_LOCKS), o) ==> After(w, o)
  {
    hide LockInd;
    if Before(w.(b := w.b + NUM_LOCKS), o) && !Before(w, o) { SameLock(w.b, o); }
  }

  lemma BeforeNextLock(e: Setting, w: Worker, o: nat)
    requires w.b >= HashSize(e.hp) && o < HashSize(e.hp)
    ensures Before(Worker(w.l + 1, w.end, w.l + 1, 0, 0), o) ==> Before(w, o)
    ensures After(Worker(w.l + 1, w.end, w.l + 1, 0, 0), o) ==> After(w, o)
  {
    hide LockInd, Pow2;
    LockIndAtMost(o);
  }

  lemma OwnLock(e: Setting, l: nat)
    requires l < LockCount(e.hp)
    ensures LockInd(l) == l
  {
    hide LockInd, Pow2;
    LockIndIsRemainder(l);
    SmallRemainder(l, NUM_LOCKS);
  }

  /** A worker that does not step stays where it was. */
  lemma OtherWorkerKept(e: Setting, st: State, st': State, i: nat, j: nat, wi: Worker, w: Worker)
    requires i < e.cores && j < e.cores && i != j && WellSized(e, st) && WellSized(e, st')
    requires WorkerOk(e, st, i, wi) && WorkerOk(e, st, j, w) && wi.l < wi.end
    requires forall o: nat :: o < HashSize(e.hp) && LockInd(o) != wi.l ==>
        st'.scanned[o] == st.scanned[o] && st'.arrived[o] == st.arrived[o]
    requires forall l: nat :: l != wi.l ==> (ExpanderHolds(st', l) <==> ExpanderHolds(st, l))
    ensures WorkerOk(e, st', j, w)
  {
    hide LockInd, Pow2, LockCount, RangeStart, RangeEnd;
    assert InRange(e, i, wi.l);
    forall l: nat | InRange(e, j, l) ensures l != wi.l {
      if l == wi.l { OneRange(e, i, j, l); }
    }
    if w.l < w.end { assert InRange(e, j, w.l); }
  }

  predicate WellSized(e: Setting, st: State) { |st.scanned| == |st.arrived| == HashSize(e.hp) }

  /** Looking at a slot. */
  lemma LookedWorker(e: Setting, st: State, st': State, i: nat, w: Worker, w': Worker)
    requires i < e.cores && WellSized(e, st) && WellSized(e, st') && WorkerOk(e, st, i, w) && w.l < w.end
    requires w.b < HashSize(e.hp) && w.slot < e.c.slots && st'.owners == st.owners
    requires w' == Worker(w.l, w.end, w.b, w.slot + 1, w'.newSlot) && w.newSlot <= w'.newSlot <= w.newSlot + 1
    requires st'.scanned == st.scanned[w.b := w'.slot] && st'.arrived == st.arrived[w.b := w'.newSlot]
    ensures WorkerOk(e, st', i, w')
  {
    hide LockInd, Pow2, LockCount, RangeStart, RangeEnd;
    forall o: nat | o < HashSize(e.hp) && InRange(e, i, LockInd(o)) && Before(w', o) ensures Split(e, st', o) {
      assert Before(w, o) && Split(e, st, o);
    }
    forall o: nat | o < HashSize(e.hp) && InRange(e, i, LockInd(o)) && After(w', o)
      ensures st'.scanned[o] == 0 && st'.arrived[o] == 0
    {
      assert After(w, o);
    }
  }

  /** On to the next bucket of the lock. */
  lemma NextBucketWorker(e: Setting, st: State, i: nat, w: Worker)
    requires i < e.cores && WellSized(e, st) && WorkerOk(e, st, i, w) && w.l < w.end
    requires w.b < HashSize(e.hp) && w.slot >= e.c.slots
    ensures WorkerOk(e, st, i, w.(b := w.b + NUM_LOCKS, slot := 0, newSlot := 0))
  {
    hide LockInd, Pow2, LockCount, RangeStart, RangeEnd;
    var w' := w.(b := w.b + NUM_LOCKS, slot := 0, newSlot := 0);
    NextSameLock(w.b);
    forall o: nat | o < HashSize(e.hp) && InRange(e, i, LockInd(o))
      ensures Before(w', o) ==> Split(e, st, o)
      ensures After(w', o) ==> st.scanned[o] == 0 && st.arrived[o] == 0
    {
      BeforeNext(w, o);
    }
    if w'.b < HashSize(e.hp) { assert After(w, w'.b) && InRange(e, i, LockInd(w'.b)); }
  }

  /** The unlock, and on to the next lock. */
  lemma UnlockWorker(e: Setting, st: State, st': State, i: nat, w: Worker)
    requires i < e.cores && WellSized(e, st) && WorkerOk(e, st, i, w) && w.l < w.end && w.b >= HashSize(e.hp)
    requires st'.scanned == st.scanned && st'.arrived == st.arrived && st'.owners == st.owners - {w.l}
    ensures WorkerOk(e, st', i, Worker(w.l + 1, w.end, w.l + 1, 0, 0))
    ensures forall o: nat :: o < HashSize(e.hp) && LockInd(o) == w.l ==> Split(e, st, o)
  {
    hide LockInd, Pow2, LockCount, RangeStart;
    var w' := Worker(w.l + 1, w.end, w.l + 1, 0, 0);
    RangeOrder(0, LockCount(e.hp), e.cores, i);
    forall o: nat | o < HashSize(e.hp) && InRange(e, i, LockInd(o))
      ensures Before(w', o) ==> Split(e, st', o)
      ensures After(w', o) ==> st'.scanned[o] == 0 && st'.arrived[o] == 0
    {
      BeforeNextLock(e, w, o);
    }
    if w'.l < w'.end {
      OwnLock(e, w'.l);
      if w'.b < HashSize(e.hp) { assert After(w, w'.b) && InRange(e, i, LockInd(w'.b)); }
    }
    assert InRange(e, i, w.l);
  }

  // ------------------------------------------------------------------ the steps of the expander

  predicate Running(e: Setting, st: State, i: nat)
  {
    st.phase.Moving? && i < |st.phase.ws| && st.phase.ws[i].l < st.phase.ws[i].end
  }

  lemma SplitGrows(e: Setting, st: State, st': State, b: nat, n: nat)
    requires LocksOk(e, st) && b < |st.scanned| && st.scanned[b] < e.c.slots
    requires st'.owners == st.owners && st'.releases == st.releases && st'.scanned == st.scanned[b := n]
    ensures LocksOk(e, st')
  {
    hide LockInd, Pow2, LockCount;
    assert forall o: nat :: Split(e, st, o) ==> Split(e, st', o);
  }

  lemma WorkersKept(e: Setting, st: State, st': State, i: nat, w': Worker)
    requires Running(e, st, i) && |st.phase.ws| == e.cores && WellSized(e, st) && WellSized(e, st')
    requires forall j :: 0 <= j < e.cores ==> WorkerOk(e, st, j, st.phase.ws[j])
    requires st'.phase == Moving(st.phase.ws[i := w']) && WorkerOk(e, st', i, w')
    requires forall o: nat :: o < HashSize(e.hp) && LockInd(o) != st.phase.ws[i].l ==>
        st'.scanned[o] == st.scanned[o] && st'.arrived[o] == st.arrived[o]
    requires forall l: nat :: l != st.phase.ws[i].l ==> (ExpanderHolds(st', l) <==> ExpanderHolds(st, l))
    ensures forall j :: 0 <= j < e.cores ==> WorkerOk(e, st', j, st'.phase.ws[j])
  {
    hide LockInd, Pow2, WorkerOk;
    forall j | 0 <= j < e.cores ensures WorkerOk(e, st', j, st'.phase.ws[j]) {
      if j != i { OtherWorkerKept(e, st, st', i, j, st.phase.ws[i], st.phase.ws[j]); }
    }
  }

  /** The worker's view of looking at a slot. */
  lemma LookWorkers(e: Setting, st: State, i: nat)
    requires Running(e, st, i) && |st.phase.ws| == e.cores && WellSized(e, st)
    requires st.phase.ws[i].b < HashSize(e.hp) && st.phase.ws[i].slot < e.c.slots
    requires forall j :: 0 <= j < e.cores ==> WorkerOk(e, st, j, st.phase.ws[j])
    ensures WorkerStep(e, st, i).phase.Moving? && |WorkerStep(e, st, i).phase.ws| == e.cores
    ensures forall j :: 0 <= j < e.cores ==> WorkerOk(e, WorkerStep(e, st, i), j, WorkerStep(e, st, i).phase.ws[j])
  {
    hide LockInd, Pow2, LockCount, Leaves, RangeStart, RangeEnd;
    var w := st.phase.ws[i];
    assert WorkerOk(e, st, i, w);
    var st' := WorkerStep(e, st, i);
    var w' := st'.phase.ws[i];
    assert st'.scanned == st.scanned[w.b := w'.slot] && st'.arrived == st.arrived[w.b := w'.newSlot];
    hide WorkerOk;
    LookedWorker(e, st, st', i, w, w');
    assert st'.phase.ws == st.phase.ws[i := w'];
    hide WorkerStep;
    BucketLock(e, st, i, w);
    WorkersKept(e, st, st', i, w');
  }

  lemma BucketLock(e: Setting, st: State, i: nat, w: Worker)
    requires i < e.cores && WellSized(e, st) && WorkerOk(e, st, i, w) && w.l < w.end
    ensures LockInd(w.b) == w.l && w.newSlot <= w.slot <= e.c.slots
    ensures w.b < HashSize(e.hp) ==> st.scanned[w.b] == w.slot && st.arrived[w.b] == w.newSlot
  {
    hide LockInd, Pow2, LockCount, RangeStart, RangeEnd;
  }

  lemma LookStep(e: Setting, st: State, i: nat)
    requires StateOk(e, st) && Running(e, st, i) && st.phase.ws[i].b < HashSize(e.hp) && st.phase.ws[i].slot < e.c.slots
    ensures StateOk(e, WorkerStep(e, st, i))
  {
    hide LockInd, Pow2, LockCount, Leaves, TableOk, LocksOk, Sizes, WorkerOk;
    SizesFacts(e, st);
    var w := st.phase.ws[i];
    BucketLock(e, st, i, w);
    LookWorkers(e, st, i);
    var st1 := Looked(e, st, w.b, w.slot, w.newSlot);
    var st' := WorkerStep(e, st, i);
    assert st' == st1.(phase := st'.phase) && st1.scanned == st.scanned[w.b := w.slot + 1] && st1.owners == st.owners
        && st1.releases == st.releases;
    hide WorkerStep, Looked;
    LookedTable(e, st, w);
    SameSizes(e, st1, st');
    assert forall l: nat :: ExpanderHolds(st', l) <==> ExpanderHolds(st, l);
    SplitGrows(e, st, st', w.b, w.slot + 1);
  }

  lemma SizesFacts(e: Setting, st: State)
    requires Sizes(e, st)
    ensures WellSized(e, st) && e.c.slots >= 1 && e.cores >= 1
    ensures |st.t| == HashSize(e.hp + 1) == 2 * HashSize(e.hp)
  {
  }

  /** The phase and the locks are no part of the table. */
  lemma SameSizes(e: Setting, st: State, st': State)
    requires Sizes(e, st) && TableOk(e, st)
    requires st'.t == st.t && st'.m == st.m && st'.scanned == st.scanned && st'.arrived == st.arrived
    ensures Sizes(e, st') && TableOk(e, st')
  {
    hide WellPlaced, Pow2, Unique, Represents;
    SizesFacts(e, st);
    forall b: nat, s: nat | SlotAt(st'.t, b, s).Item? ensures Staged(e, st', b, s, SlotAt(st'.t, b, s)) {
      assert Staged(e, st, b, s, SlotAt(st.t, b, s));
    }
  }

  lemma NextBucketStep(e: Setting, st: State, i: nat)
    requires StateOk(e, st) && Running(e, st, i) && st.phase.ws[i].b < HashSize(e.hp)
        && st.phase.ws[i].slot >= e.c.slots
    ensures StateOk(e, WorkerStep(e, st, i))
  {
    hide LockInd, Pow2, LockCount, Leaves, TableOk, Sizes;
    SizesFacts(e, st);
    var ws := st.phase.ws;
    var w := ws[i];
    var st' := WorkerStep(e, st, i);
    SameSizes(e, st, st');
    assert LocksOk(e, st');
    hide LocksOk;
    NextBucketWorker(e, st, i, w);
    forall j | 0 <= j < e.cores ensures WorkerOk(e, st', j, st'.phase.ws[j]) {
      SameWorker(e, st, st', j, if j == i then st'.phase.ws[i] else ws[j]);
    }
  }

  lemma SameWorker(e: Setting, st: State, st': State, j: nat, w: Worker)
    requires j < e.cores && WellSized(e, st) && WorkerOk(e, st, j, w)
    requires st'.owners == st.owners && st'.scanned == st.scanned && st'.arrived == st.arrived
    ensures WorkerOk(e, st', j, w)
  {
    hide LockInd, Pow2, LockCount, RangeStart, RangeEnd;
  }

  /** Every bucket that the lock guards under the new hashpower is final. */
  lemma GuardedIsSplit(e: Setting, st: State, l: nat)
    requires l < LockCount(e.hp) && WellSized(e, st)
    requires forall o: nat :: o < HashSize(e.hp) && LockInd(o) == l ==> Split(e, st, o)
    ensures forall b: nat :: b < HashSize(e.hp + 1) && LockInd(b) == l ==> Split(e, st, Home(e, b))
  {
    hide LockInd;
    forall b: nat | b < HashSize(e.hp + 1) && LockInd(b) == l ensures Split(e, st, Home(e, b)) {
      if b >= HashSize(e.hp) {
        var o: nat := b - HashSize(e.hp);
        LockOfNewBucket(e.hp, o);
        assert LockInd(o) == l;
      }
    }
  }

  lemma UnlockLocks(e: Setting, st: State, st': State, l: nat)
    requires WellSized(e, st) && LocksOk(e, st) && l < LockCount(e.hp + 1) && ExpanderHolds(st, l)
    requires forall b: nat :: b < HashSize(e.hp + 1) && LockInd(b) == l ==> Split(e, st, Home(e, b))
    requires st'.owners == st.owners - {l} && st'.releases == st.releases + multiset{l} && st'.scanned == st.scanned
    ensures LocksOk(e, st')
  {
    hide LockInd, Pow2, LockCount;
    assert forall l': nat :: ExpanderHolds(st', l') <==> l' != l && ExpanderHolds(st, l');
    forall b: nat | b < HashSize(e.hp + 1) && !ExpanderHolds(st', LockInd(b)) ensures Split(e, st', Home(e, b)) {
      assert Split(e, st, Home(e, b));
    }
  }

  lemma UnlockWorkers(e: Setting, st: State, i: nat)
    requires Running(e, st, i) && |st.phase.ws| == e.cores && WellSized(e, st) && st.phase.ws[i].b >= HashSize(e.hp)
    requires forall j :: 0 <= j < e.cores ==> WorkerOk(e, st, j, st.phase.ws[j])
    ensures WorkerStep(e, st, i).phase.Moving? && |WorkerStep(e, st, i).phase.ws| == e.cores
    ensures forall j :: 0 <= j < e.cores ==> WorkerOk(e, WorkerStep(e, st, i), j, WorkerStep(e, st, i).phase.ws[j])
    ensures st.phase.ws[i].l < LockCount(e.hp) && ExpanderHolds(st, st.phase.ws[i].l)
    ensures forall b: nat :: b < HashSize(e.hp + 1) && LockInd(b) == st.phase.ws[i].l ==> Split(e, st, Home(e, b))
  {
    hide LockInd, Pow2, LockCount, Leaves, RangeStart;
    var w := st.phase.ws[i];
    assert WorkerOk(e, st, i, w) && InRange(e, i, w.l) && ExpanderHolds(st, w.l);
    hide WorkerOk;
    var st' := WorkerStep(e, st, i);
    assert st'.phase.ws == st.phase.ws[i := st'.phase.ws[i]];
    UnlockWorker(e, st, st', i, w);
    RangeOrder(0, LockCount(e.hp), e.cores, i);
    assert w.l < LockCount(e.hp);
    GuardedIsSplit(e, st, w.l);
    hide WorkerStep, Split;
    WorkersKept(e, st, st', i, st'.phase.ws[i]);
  }

  lemma UnlockStep(e: Setting, st: State, i: nat)
    requires StateOk(e, st) && Running(e, st, i) && st.phase.ws[i].b >= HashSize(e.hp)
    ensures StateOk(e, WorkerStep(e, st, i))
  {
    hide LockInd, Pow2, Leaves, TableOk, Sizes, LocksOk, WorkerOk;
    SizesFacts(e, st);
    var l := st.phase.ws[i].l;
    var st' := WorkerStep(e, st, i);
    UnlockWorkers(e, st, i);
    assert st'.owners == st.owners - {l} && st'.releases == st.releases + multiset{l};
    SameSizes(e, st, st');
    hide WorkerStep, LockCount;
    UnlockLocks(e, st, st', l);
    assert forall l': nat :: ExpanderHolds(st', l') <==> l' != l && ExpanderHolds(st, l');
  }

  /** When the workers have joined, every bucket is split and every lock of the old table released. */
  lemma AllWorkersDone(e: Setting, st: State)
    requires e.cores >= 1 && WellSized(e, st) && st.phase.Moving? && |st.phase.ws| == e.cores
    requires forall i :: 0 <= i < e.cores ==> WorkerOk(e, st, i, st.phase.ws[i])
    requires forall i :: 0 <= i < e.cores ==> st.phase.ws[i].l >= st.phase.ws[i].end
    ensures AllSplit(e, st) && forall l: nat :: l < LockCount(e.hp) ==> !ExpanderHolds(st, l)
  {
    hide LockInd, Pow2, LockCount, RangeStart, RangeEnd;
    forall o: nat | o < HashSize(e.hp) ensures Split(e, st, o) {
      LockIndBound(e.hp, o);
      var i := RangesCover(0, LockCount(e.hp), e.cores, LockInd(o), e.cores);
      assert InRange(e, i, LockInd(o)) && WorkerOk(e, st, i, st.phase.ws[i]);
      assert Before(st.phase.ws[i], o);
    }
    forall l: nat | l < LockCount(e.hp) ensures !ExpanderHolds(st, l) {
      var i := RangesCover(0, LockCount(e.hp), e.cores, l, e.cores);
      assert InRange(e, i, l) && WorkerOk(e, st, i, st.phase.ws[i]);
    }
  }

  lemma SameSplit(e: Setting, st: State, st': State)
    requires AllSplit(e, st) && st'.scanned == st.scanned
    ensures AllSplit(e, st')
  {
    hide Pow2;
    assert forall o: nat :: Split(e, st, o) ==> Split(e, st', o);
  }

  lemma JoinStep(e: Setting, st: State)
    requires StateOk(e, st) && st.phase.Moving? && forall i :: 0 <= i < |st.phase.ws| ==>
        st.phase.ws[i].l >= st.phase.ws[i].end
    requires LockCount(e.hp) <= LockCount(e.hp + 1) && e.cores >= 1
    ensures StateOk(e, st.(phase := Releasing(Ranges(LockCount(e.hp), LockCount(e.hp + 1), e.cores))))
  {
    hide LockInd, Pow2, LockCount, TableOk, Sizes, RangeStart, RangeEnd;
    SizesFacts(e, st);
    var st' := st.(phase := Releasing(Ranges(LockCount(e.hp), LockCount(e.hp + 1), e.cores)));
    SameSizes(e, st, st');
    AllWorkersDone(e, st);
    assert LocksOk(e, st');
    hide LocksOk;
    forall i | 0 <= i < e.cores ensures ReleaserOk(e, st', i, st'.phase.rs[i]) {
      RangeOrder(LockCount(e.hp), LockCount(e.hp + 1), e.cores, i);
    }
    SameSplit(e, st, st');
  }

  lemma ReleaseStep(e: Setting, st: State, i: nat)
    requires StateOk(e, st) && st.phase.Releasing? && i < |st.phase.rs| && st.phase.rs[i].l < st.phase.rs[i].end
    ensures StateOk(e, ReleaserStep(st, i))
  {
    hide LockInd, Pow2, LockCount, TableOk, Sizes, RangeStart, RangeEnd, LocksOk;
    var rs := st.phase.rs;
    var r := rs[i];
    var st' := ReleaserStep(st, i);
    SizesFacts(e, st);
    SameSizes(e, st, st');
    assert ReleaserOk(e, st, i, r);
    RangeOrder(LockCount(e.hp), LockCount(e.hp + 1), e.cores, i);
    HomeIsOld(e);
    UnlockLocks(e, st, st', r.l);
    assert forall l: nat :: ExpanderHolds(st', l) <==> l != r.l && ExpanderHolds(st, l);
    forall j | 0 <= j < e.cores ensures ReleaserOk(e, st', j, st'.phase.rs[j]) {
      assert ReleaserOk(e, st, j, rs[j]);
      if j < i { RangesApart(LockCount(e.hp), LockCount(e.hp + 1), e.cores, j, i); }
      if i < j { RangesApart(LockCount(e.hp), LockCount(e.hp + 1), e.cores, i, j); }
    }
    SameSplit(e, st, st');
  }

  lemma HomeIsOld(e: Setting)
    ensures forall b: nat :: b < HashSize(e.hp + 1) ==> Home(e, b) < HashSize(e.hp)
  {
  }

  lemma FinishStep(e: Setting, st: State)
    requires StateOk(e, st) && st.phase.Releasing? && forall i :: 0 <= i < |st.phase.rs| ==>
        st.phase.rs[i].l >= st.phase.rs[i].end
    ensures StateOk(e, st.(phase := Finished))
  {
    hide LockInd, Pow2, LockCount, TableOk, Sizes, RangeStart, RangeEnd;
    var st' := st.(phase := Finished);
    SizesFacts(e, st);
    SameSizes(e, st, st');
    assert LocksOk(e, st');
    forall l: nat | l < LockCount(e.hp + 1) ensures !ExpanderHolds(st', l) {
      if l >= LockCount(e.hp) {
        var i := RangesCover(LockCount(e.hp), LockCount(e.hp + 1), e.cores, l, e.cores);
        assert ReleaserOk(e, st, i, st.phase.rs[i]);
      }
    }
    SameSplit(e, st, st');
  }

  // ------------------------------------------------------------------ the steps of other threads

  /** A bucket whose lock the expander has released is final. */
  lemma HeldIsSplit(e: Setting, st: State, u: nat, b: nat)
    requires LocksOk(e, st) && HoldsBucket(st, u, b) && b < HashSize(e.hp + 1)
    ensures Split(e, st, Home(e, b))
  {
    hide LockInd, Pow2, LockCount, Split;
  }

  /** Writing an item into, or freeing, a slot of a final bucket. */
  lemma EditStaged(e: Setting, st: State, st': State, b: nat, s: nat, x: Slot)
    requires Sizes(e, st) && TableOk(e, st) && b < |st.t| && s < |st.t[b]| && Split(e, st, Home(e, b))
    requires st'.t == Write(st.t, b, s, x) && st'.scanned == st.scanned && st'.arrived == st.arrived
    requires x.Item? ==> WellPlaced(e.c, e.hp + 1, b, x)
    ensures Sizes(e, st')
    ensures forall b': nat, s': nat :: SlotAt(st'.t, b', s').Item? ==> Staged(e, st', b', s', SlotAt(st'.t, b', s'))
  {
    hide Pow2, Unique, Represents, WellPlaced;
    SizesFacts(e, st);
    forall b': nat, s': nat | SlotAt(st'.t, b', s').Item? ensures Staged(e, st', b', s', SlotAt(st'.t, b', s')) {
      if b' != b || s' != s { assert Staged(e, st, b', s', SlotAt(st.t, b', s')); }
    }
  }

  lemma InsertKeepsMap(t: Table, m: map<Key, Val>, b: nat, s: nat, k: Key, v: Val, p: int)
    requires Unique(t) && Represents(t, m) && k !in m && b < |t| && s < |t[b]| && t[b][s].Free?
    ensures Unique(Write(t, b, s, Item(p, k, v))) && Represents(Write(t, b, s, Item(p, k, v)), m[k := v])
  {
    var t' := Write(t, b, s, Item(p, k, v));
    forall b1, s1, b2, s2 | SameKey(t', b1, s1, b2, s2) ensures b1 == b2 && s1 == s2 {
      if (b1 != b || s1 != s) && (b2 != b || s2 != s) { assert SameKey(t, b1, s1, b2, s2); }
    }
    forall q | q in m[k := v] ensures Stores(t', q) {
      if q == k {
        assert SlotAt(t', b, s).Item? && SlotAt(t', b, s).key == k;
      } else {
        assert Stores(t, q);
        var b1, s1 :| SlotAt(t, b1, s1).Item? && SlotAt(t, b1, s1).key == q;
        assert SlotAt(t', b1, s1).Item? && SlotAt(t', b1, s1).key == q;
      }
    }
  }

  lemma DeleteKeepsMap(t: Table, m: map<Key, Val>, b: nat, s: nat, k: Key)
    requires Unique(t) && Represents(t, m) && b < |t| && s < |t[b]| && t[b][s].Item? && t[b][s].key == k
    ensures Unique(Write(t, b, s, Free)) && Represents(Write(t, b, s, Free), m - {k})
  {
    var t' := Write(t, b, s, Free);
    forall b1, s1, b2, s2 | SameKey(t', b1, s1, b2, s2) ensures b1 == b2 && s1 == s2 {
      assert SameKey(t, b1, s1, b2, s2);
    }
    forall b1, s1 | SlotAt(t', b1, s1).Item?
      ensures SlotAt(t', b1, s1).key in m - {k} && (m - {k})[SlotAt(t', b1, s1).key] == SlotAt(t', b1, s1).val
    {
      assert SlotAt(t', b1, s1) == SlotAt(t, b1, s1);
      if SlotAt(t, b1, s1).key == k { assert SameKey(t, b, s, b1, s1); }
    }
    forall q | q in m - {k} ensures Stores(t', q) {
      assert Stores(t, q);
      var b1, s1 :| SlotAt(t, b1, s1).Item? && SlotAt(t, b1, s1).key == q;
      assert SlotAt(t', b1, s1).Item? && SlotAt(t', b1, s1).key == q;
    }
  }

  lemma StoreKeepsMap(t: Table, m: map<Key, Val>, b: nat, s: nat, k: Key, v: Val)
    requires Unique(t) && Represents(t, m) && b < |t| && s < |t[b]| && t[b][s].Item? && t[b][s].key == k
    ensures Unique(Write(t, b, s, Item(t[b][s].partial, k, v)))
        && Represents(Write(t, b, s, Item(t[b][s].partial, k, v)), m[k := v])
  {
    DeleteKeepsMap(t, m, b, s, k);
    var t1 := Write(t, b, s, Free);
    InsertKeepsMap(t1, m - {k}, b, s, k, v, t[b][s].partial);
    var x := Item(t[b][s].partial, k, v);
    assert t1[b][s := x] == t[b][s := x];
    assert Write(t1, b, s, x) == Write(t, b, s, x);
    assert (m - {k})[k := v] == m[k := v];
  }

  /** What holds of the parts that an edit of the table does not touch. */
  lemma EditRest(e: Setting, st: State, st': State)
    requires Sizes(e, st) && Sizes(e, st') && LocksOk(e, st) && PhaseOk(e, st)
    requires st'.phase == st.phase && st'.scanned == st.scanned && st'.arrived == st.arrived
        && st'.releases == st.releases
    requires forall l: nat :: ExpanderHolds(st', l) <==> ExpanderHolds(st, l)
    requires forall l: nat :: l in st'.owners ==> l < LockCount(e.hp + 1)
    ensures LocksOk(e, st') && PhaseOk(e, st')
  {
    hide LockInd, Pow2, LockCount, RangeStart, RangeEnd;
    SizesFacts(e, st);
    assert forall o: nat :: Split(e, st', o) <==> Split(e, st, o);
    match st.phase
    case Moving(ws) =>
      forall i | 0 <= i < e.cores ensures WorkerOk(e, st', i, ws[i]) { assert WorkerOk(e, st, i, ws[i]); }
    case Releasing(rs) =>
      forall i | 0 <= i < e.cores ensures ReleaserOk(e, st', i, rs[i]) { assert ReleaserOk(e, st, i, rs[i]); }
    case Finished =>
  }

  lemma InsertStep(e: Setting, st: State, u: nat, k: Key, v: Val, b: nat, s: nat, st': State)
    requires StateOk(e, st) && OtherNext(e, st, u, Insert(k, v, b, s), st')
    ensures StateOk(e, st')
  {
    hide LockInd, Pow2, LockCount, LocksOk, PhaseOk, Index1, Index2;
    if k in st.m { BoundIsFound(e, st, u, k); }
    hide FoundAt;
    SizesFacts(e, st);
    var x := Item(PartialKey(e.c.hash(k)), k, v);
    OwnersKnown(e, st);
    HeldIsSplit(e, st, u, b);
    hide Unique, Represents;
    EditStaged(e, st, st', b, s, x);
    InsertKeepsMap(st.t, st.m, b, s, k, v, x.partial);
    hide Sizes;
    EditRest(e, st, st');
  }

  lemma OwnersKnown(e: Setting, st: State)
    requires LocksOk(e, st)
    ensures forall l: nat :: l in st.owners ==> l < LockCount(e.hp + 1)
  {
    hide LockInd, Pow2, LockCount;
  }

  lemma DeleteStep(e: Setting, st: State, u: nat, k: Key, b: nat, s: nat, st': State)
    requires StateOk(e, st) && OtherNext(e, st, u, Delete(k, b, s), st')
    ensures StateOk(e, st')
  {
    hide LockInd, Pow2, LockCount, LocksOk, PhaseOk, Index1, Index2;
    SizesFacts(e, st);
    OwnersKnown(e, st);
    HeldIsSplit(e, st, u, b);
    hide Unique, Represents;
    EditStaged(e, st, st', b, s, Free);
    DeleteKeepsMap(st.t, st.m, b, s, k);
    hide Sizes;
    EditRest(e, st, st');
  }

  lemma StoreStep(e: Setting, st: State, u: nat, k: Key, v: Val, b: nat, s: nat, st': State)
    requires StateOk(e, st) && OtherNext(e, st, u, Store(k, v, b, s), st')
    ensures StateOk(e, st')
  {
    hide LockInd, Pow2, LockCount, LocksOk, PhaseOk, Index1, Index2;
    SizesFacts(e, st);
    OwnersKnown(e, st);
    HeldIsSplit(e, st, u, b);
    SplitIsPlaced(e, st, b, s);
    hide Unique, Represents;
    EditStaged(e, st, st', b, s, Item(SlotAt(st.t, b, s).partial, k, v));
    StoreKeepsMap(st.t, st.m, b, s, k, v);
    hide Sizes;
    EditRest(e, st, st');
  }

  /** Every item of a final bucket is in one of its two buckets of the doubled table. */
  lemma SplitIsPlaced(e: Setting, st: State, b: nat, s: int)
    requires Sizes(e, st) && TableOk(e, st) && b < HashSize(e.hp + 1) && Split(e, st, Home(e, b))
        && SlotAt(st.t, b, s).Item?
    ensures WellPlaced(e.c, e.hp + 1, b, SlotAt(st.t, b, s))
  {
    hide Pow2, Unique, Represents, WellPlaced;
    SizesFacts(e, st);
    assert Staged(e, st, b, s, SlotAt(st.t, b, s));
  }

  lemma AlternateIsPlaced(c: Config, hp: nat, b: nat, b': nat, x: Slot)
    requires hp >= 1 && x.Item? && WellPlaced(c, hp, b, x) && b' == AltIndex(hp, PartialKey(c.hash(x.key)), b)
    ensures WellPlaced(c, hp, b', x) && b' < HashSize(hp)
  {
    hide AltIndex, IndexHash;
    CandidatesAreBuckets(hp, c.hash(x.key));
  }

  lemma HopStep(e: Setting, st: State, u: nat, b: nat, s: nat, b': nat, s': nat, st': State)
    requires StateOk(e, st) && OtherNext(e, st, u, Hop(b, s, b', s'), st')
    ensures StateOk(e, st')
  {
    hide LockInd, Pow2, LockCount, LocksOk, PhaseOk, AltIndex, Unique, Represents;
    SizesFacts(e, st);
    OwnersKnown(e, st);
    var x := SlotAt(st.t, b, s);
    HeldIsSplit(e, st, u, b);
    SplitIsPlaced(e, st, b, s);
    AlternateIsPlaced(e.c, e.hp + 1, b, b', x);
    HeldIsSplit(e, st, u, b');
    hide WellPlaced;
    MoveKeepsMap(st.t, st.m, b, s, b', s');
    forall b1: nat, s1: nat | SlotAt(st'.t, b1, s1).Item? ensures Staged(e, st', b1, s1, SlotAt(st'.t, b1, s1)) {
      if b1 != b' || s1 != s' { assert Staged(e, st, b1, s1, SlotAt(st.t, b1, s1)); }
    }
    assert Sizes(e, st');
    hide Sizes;
    EditRest(e, st, st');
  }

  lemma LockStep(e: Setting, st: State, u: nat, d: Edit, st': State)
    requires StateOk(e, st) && OtherNext(e, st, u, d, st') && (d.Take? || d.Drop?)
    ensures StateOk(e, st')
  {
    hide LockInd, Pow2, LockCount, TableOk, Sizes, PhaseOk;
    SameSizes(e, st, st');
    OwnersKnown(e, st);
    hide LocksOk;
    EditRest(e, st, st');
  }

  // ------------------------------------------------------------------ every run

  lemma InitOk(e: Setting, st: State)
    requires e.cores >= 1 && Init(e, st)
    ensures StateOk(e, st)
  {
    hide LockInd, Leaves, Unique, RangeStart, RangeEnd;
    var t0 :| Inv(e.c, e.hp, t0, st.m) && st.t == Widened(e.c, t0);
    InitTable(e, st, t0);
    SizesFacts(e, st);
    LockCountGrows(e.hp);
    hide Pow2, LockCount, TableOk, Sizes, Placed, Represents;
    forall b: nat | b < HashSize(e.hp + 1) ensures ExpanderHolds(st, LockInd(b)) { LockIndBound(e.hp + 1, b); }
    forall i | 0 <= i < e.cores ensures WorkerOk(e, st, i, st.phase.ws[i]) { InitWorker(e, st, i); }
  }

  lemma InitWorker(e: Setting, st: State, i: nat)
    requires e.cores >= 1 && Init(e, st) && WellSized(e, st) && i < e.cores
    ensures WorkerOk(e, st, i, st.phase.ws[i])
  {
    hide LockInd, Pow2, LockCount, RangeStart, RangeEnd;
    var w := st.phase.ws[i];
    RangeOrder(0, LockCount(e.hp), e.cores, i);
    LockCountGrows(e.hp);
    if w.l < w.end { OwnLock(e, w.l); }
    forall o: nat | o < HashSize(e.hp) && InRange(e, i, LockInd(o)) ensures !Before(w, o) {
      if LockInd(o) == w.l { LockIndAtMost(o); }
    }
  }

  lemma InitTable(e: Setting, st: State, t0: Table)
    requires e.cores >= 1 && Inv(e.c, e.hp, t0, st.m) && st.t == Widened(e.c, t0)
    requires st.scanned == st.arrived == seq(HashSize(e.hp), _ => 0)
    ensures Sizes(e, st) && TableOk(e, st)
  {
    hide WellPlaced;
    forall b, s ensures SlotAt(st.t, b, s) == SlotAt(t0, b, s) { }
    forall b1, s1, b2, s2 | SameKey(st.t, b1, s1, b2, s2)
        ensures b1 == b2 && s1 == s2 { assert SameKey(t0, b1, s1, b2, s2); }
    forall k | k in st.m ensures Stores(st.t, k) {
      assert Stores(t0, k);
      var b, s :| SlotAt(t0, b, s).Item? && SlotAt(t0, b, s).key == k;
      assert SlotAt(st.t, b, s).Item? && SlotAt(st.t, b, s).key == k;
    }
  }

  lemma NextKeeps(e: Setting, st: State, st': State)
    requires e.cores >= 1 && StateOk(e, st) && Next(e, st, st')
    ensures StateOk(e, st')
  {
    hide StateOk, WorkerStep, ReleaserStep, OtherNext, LockCount, Pow2;
    if u, d :| OtherNext(e, st, u, d, st') {
      match d
      case Take(_) => LockStep(e, st, u, d, st');
      case Drop(_) => LockStep(e, st, u, d, st');
      case Insert(k, v, b, s) => InsertStep(e, st, u, k, v, b, s, st');
      case Delete(k, b, s) => DeleteStep(e, st, u, k, b, s, st');
      case Store(k, v, b, s) => StoreStep(e, st, u, k, v, b, s, st');
      case Hop(b, s, b', s') => HopStep(e, st, u, b, s, b', s', st');
    } else {
      ExpanderKeeps(e, st, st');
    }
  }

  lemma ExpanderKeeps(e: Setting, st: State, st': State)
    requires e.cores >= 1 && StateOk(e, st) && WellSized(e, st) && ExpanderNext(e, st, st')
    ensures StateOk(e, st')
  {
    hide StateOk, WorkerStep, ReleaserStep, LockCount, Pow2;
    match st.phase
    case Moving(ws) =>
      if i: nat :| i < |ws| && ws[i].l < ws[i].end && st' == WorkerStep(e, st, i) {
        if ws[i].b >= HashSize(e.hp) { UnlockStep(e, st, i); }
        else if ws[i].slot < e.c.slots { LookStep(e, st, i); }
        else { NextBucketStep(e, st, i); }
      } else {
        JoinStep(e, st);
      }
    case Releasing(rs) =>
      if i: nat :| i < |rs| && rs[i].l < rs[i].end && st' == ReleaserStep(st, i) {
        ReleaseStep(e, st, i);
      } else {
        FinishStep(e, st);
      }
  }

  lemma {:induction false} RunOk(e: Setting, r: seq<State>, i: nat)
    requires Run(e, r) && i < |r|
    ensures StateOk(e, r[i])
  {
    hide StateOk, Init, Next;
    if i == 0 {
      InitOk(e, r[0]);
    } else {
      RunOk(e, r, i - 1);
      NextKeeps(e, r[i - 1], r[i]);
    }
  }

  // ------------------------------------------------------------------ the theorems

  /** A lock that the expander no longer holds guards final buckets only: every item in them is in one
      of its two buckets of the doubled table, and the split of their old bucket is over. */
  lemma ReleasedLocksGuardFinalBuckets(e: Setting, r: seq<State>, i: nat, b: nat)
    requires Run(e, r) && i < |r| && b < HashSize(e.hp + 1) && !ExpanderHolds(r[i], LockInd(b))
    ensures Split(e, r[i], Home(e, b))
    ensures forall s :: SlotAt(r[i].t, b, s).Item? ==> WellPlaced(e.c, e.hp + 1, b, SlotAt(r[i].t, b, s))
  {
    hide Run, LockInd, Pow2, WellPlaced, Split, LockCount;
    RunOk(e, r, i);
    forall s | SlotAt(r[i].t, b, s).Item? ensures WellPlaced(e.c, e.hp + 1, b, SlotAt(r[i].t, b, s)) {
      SplitIsPlaced(e, r[i], b, s);
    }
  }

  /** While the doubling is still going on, a thread that holds the locks of a key's two new buckets
      finds the key there exactly when it is bound, with its value. */
  lemma HolderFindsExactlyTheBound(e: Setting, r: seq<State>, i: nat, u: nat, k: Key)
    requires Run(e, r) && i < |r| && HoldsKey(e, r[i], u, k)
    ensures k in r[i].m <==> exists b, s :: FoundAt(e, r[i], k, b, s)
    ensures forall b, s :: FoundAt(e, r[i], k, b, s) ==> k in r[i].m && SlotAt(r[i].t, b, s).val == r[i].m[k]
  {
    RunOk(e, r, i);
    hide Run, StateOk, FoundAt, HoldsKey;
    if k in r[i].m { BoundIsFound(e, r[i], u, k); }
    forall b, s | FoundAt(e, r[i], k, b, s) ensures k in r[i].m && SlotAt(r[i].t, b, s).val == r[i].m[k] {
      FoundIsBound(e, r[i], k, b, s);
    }
  }

  /** The expander unlocks a lock at most once, and only locks it holds; in the end it has unlocked every
      lock of the doubled table exactly once. */
  lemma EveryLockReleasedOnce(e: Setting, r: seq<State>, i: nat, l: nat)
    requires Run(e, r) && i < |r|
    ensures r[i].releases[l] == if l < LockCount(e.hp + 1) && !ExpanderHolds(r[i], l) then 1 else 0
    ensures r[i].phase.Finished? ==> r[i].releases[l] == if l < LockCount(e.hp + 1) then 1 else 0
  {
    hide Run, LockInd, Pow2, LockCount;
    RunOk(e, r, i);
  }

  /** The doubled table, with all that the other threads have done to it meanwhile, is well formed and
      stands for the abstract map. */
  lemma FinishedTableIsTheMap(e: Setting, r: seq<State>, i: nat)
    requires Run(e, r) && i < |r| && r[i].phase.Finished?
    ensures Inv(e.c, e.hp + 1, r[i].t, r[i].m)
  {
    hide Run, LockInd, Pow2, WellPlaced, LockCount, Unique, Represents;
    RunOk(e, r, i);
    SizesFacts(e, r[i]);
    HomeIsOld(e);
    forall b, s | SlotAt(r[i].t, b, s).Item? ensures WellPlaced(e.c, e.hp + 1, b, SlotAt(r[i].t, b, s)) {
      SplitIsPlaced(e, r[i], b, s);
    }
  }

  /** An item that a worker moves goes to a free slot inside the fresh bucket, under locks that the
      expander still holds. */
  lemma MovesNeverOverflow(e: Setting, r: seq<State>, i: nat, j: nat)
    requires Run(e, r) && i < |r| && Running(e, r[i], j)
    requires r[i].phase.ws[j].b < HashSize(e.hp) && r[i].phase.ws[j].slot < e.c.slots
    ensures var w := r[i].phase.ws[j];
            IsFree(r[i], w.b + HashSize(e.hp), w.newSlot) && w.b < |r[i].t| && w.slot < |r[i].t[w.b]|
    ensures var b := r[i].phase.ws[j].b;
            ExpanderHolds(r[i], LockInd(b)) && ExpanderHolds(r[i], LockInd(b + HashSize(e.hp)))
  {
    hide Run, LockInd, Pow2, LockCount, RangeStart, RangeEnd, LocksOk, TableOk;
    RunOk(e, r, i);
    var st := r[i];
    var w := st.phase.ws[j];
    SizesFacts(e, st);
    BucketLock(e, st, j, w);
    TargetIsFree(e, st, w);
    LockOfNewBucket(e.hp, w.b);
    LockIndBound(e.hp, w.b);
    assert InRange(e, j, w.l);
    NewLockHeld(e, st, w.b);
  }

  lemma NewLockHeld(e: Setting, st: State, b: nat)
    requires Sizes(e, st) && PhaseOk(e, st) && st.phase.Moving? && b < HashSize(e.hp) && ExpanderHolds(st, LockInd(b))
    ensures ExpanderHolds(st, LockInd(b + HashSize(e.hp)))
  {
    hide LockInd, WorkerOk;
    LockOfNewBucket(e.hp, b);
  }

  /** The expander is never stuck before it has finished. */
  lemma ExpanderNeverStuck(e: Setting, r: seq<State>, i: nat)
    requires Run(e, r) && i < |r| && !r[i].phase.Finished?
    ensures |r[i].scanned| == |r[i].arrived| == HashSize(e.hp) && exists st' :: ExpanderNext(e, r[i], st')
  {
    RunOk(e, r, i);
    hide Run, LockInd, Pow2, LockCount, RangeStart, RangeEnd, LocksOk, TableOk, WorkerStep, ReleaserStep;
    var st := r[i];
    SizesFacts(e, st);
    match st.phase
    case Moving(ws) =>
      if j: nat :| j < |ws| && ws[j].l < ws[j].end {
        assert ExpanderNext(e, st, WorkerStep(e, st, j));
      } else {
        assert ExpanderNext(e, st, st.(phase := Releasing(Ranges(LockCount(e.hp), LockCount(e.hp + 1), e.cores))));
      }
    case Releasing(rs) =>
      if j: nat :| j < |rs| && rs[j].l < rs[j].end {
        assert ExpanderNext(e, st, ReleaserStep(st, j));
      } else {
        assert ExpanderNext(e, st, st.(phase := Finished));
      }
  }
}
