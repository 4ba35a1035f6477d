/** How a doubling gives its locks back while other threads already use the doubled table.  The machine
    starts when all locks are taken and the hashpower has been raised; workers split the buckets and
    release the locks of the old table one by one, the added locks follow when all workers have
    joined.  Other threads take released locks, and edit the buckets under them, at any time. */
module Doubling {
  import opened Hashing
  import opened CuckooLayout
  import opened CuckooTable
  import CuckooPath

  datatype Owner = Expander | Other(u: nat)

  /** A thread of the first parallel_exec: the lock it is at, the end of its range, the bucket it is
      splitting, and its two slot counters. */
  datatype Worker = Worker(l: nat, end: nat, b: nat, slot: nat, newSlot: nat)

  /** A thread of the second parallel_exec. */
  datatype Range = Range(l: nat, end: nat)

  datatype Phase = Moving(ws: seq<Worker>) | Releasing(rs: seq<Range>) | Finished

  /** m is the abstract map.  scanned and arrived record, for each old bucket, how many slots have been
      looked at and how many items have gone to its partner; releases, what the expander has unlocked. */
  datatype State = State(t: Table, m: map<Key, Val>, owners: map<nat, Owner>, phase: Phase,
                         scanned: seq<nat>, arrived: seq<nat>, releases: multiset<nat>)

  /** The table type, whether its keys are simple, the hashpower before the doubling and the number of threads. */
  datatype Setting = Setting(c: Config, simple: bool, hp: nat, cores: nat)

  // ------------------------------------------------------------------ parallel_exec

  function RangeStart(lo: nat, hi: nat, n: nat, i: nat): nat
    requires lo <= hi && i < n
  {
    lo + i * ((hi - lo) / n)
  }

  /** Equal ranges, and the rest for the last thread. */
  function RangeEnd(lo: nat, hi: nat, n: nat, i: nat): nat
    requires lo <= hi && i < n
  {
    if i < n - 1 then RangeStart(lo, hi, n, i + 1) else hi
  }

  function Workers(hi: nat, n: nat): (ws: seq<Worker>)
    requires n >= 1
    ensures |ws| == n
    ensures forall i :: 0 <= i < n ==>
        ws[i] == Worker(RangeStart(0, hi, n, i), RangeEnd(0, hi, n, i), RangeStart(0, hi, n, i), 0, 0)
  {
    seq(n, i requires 0 <= i < n => Worker(RangeStart(0, hi, n, i), RangeEnd(0, hi, n, i), RangeStart(0, hi, n, i), 0,
        0))
  }

  function Ranges(lo: nat, hi: nat, n: nat): (rs: seq<Range>)
    requires n >= 1 && lo <= hi
    ensures |rs| == n
    ensures forall i :: 0 <= i < n ==> rs[i] == Range(RangeStart(lo, hi, n, i), RangeEnd(lo, hi, n, i))
  {
    seq(n, i requires 0 <= i < n => Range(RangeStart(lo, hi, n, i), RangeEnd(lo, hi, n, i)))
  }

  lemma {:induction false} RangeOrder(lo: nat, hi: nat, n: nat, i: nat)
    requires lo <= hi && i < n
    ensures lo <= RangeStart(lo, hi, n, i) <= RangeEnd(lo, hi, n, i) <= hi
    ensures RangeStart(lo, hi, n, 0) == lo
  {
    WorkerRange(hi - lo, n, i);
    RangeBounds(lo, hi - lo, (hi - lo) / n, i);
  }

  lemma RangeBounds(lo: nat, count: nat, w: nat, i: nat)
    requires i * w <= count
    ensures lo <= lo + i * w <= lo + count && lo + 0 * w == lo
  {
  }

  /** The ranges do not overlap. */
  lemma RangesApart(lo: nat, hi: nat, n: nat, i: nat, j: nat)
    requires lo <= hi && i < j < n
    ensures RangeEnd(lo, hi, n, i) <= RangeStart(lo, hi, n, j)
  {
    CuckooPath.ProductMonotone((hi - lo) / n, i + 1, j);
  }

  /** The ranges cover everything. */
  lemma {:induction false} RangesCover(lo: nat, hi: nat, n: nat, x: nat, k: nat) returns (i: nat)
    requires lo <= x < hi && 1 <= k <= n && (k == n || x < RangeStart(lo, hi, n, k))
    ensures i < n && RangeStart(lo, hi, n, i) <= x < RangeEnd(lo, hi, n, i)
  {
    i := k - 1;
    if x < RangeStart(lo, hi, n, k - 1) {
      RangeOrder(lo, hi, n, 0);
      i := RangesCover(lo, hi, n, x, k - 1);
    }
  }

  // ------------------------------------------------------------------ the steps

  /** A store into a slot; a store outside the bucket is not a store of this machine. */
  function Put(t: Table, b: nat, s: nat, x: Slot): (t': Table)
    ensures |t'| == |t|
    ensures b < |t| && s < |t[b]| ==> t' == Write(t, b, s, x)
  {
    if b < |t| && s < |t[b]| then Write(t, b, s, x) else t
  }

  /** One step of worker i: one slot, or on to the next bucket of the lock, or the unlock. */
  function WorkerStep(e: Setting, st: State, i: nat): State
    requires st.phase.Moving? && i < |st.phase.ws| && |st.scanned| == |st.arrived| == HashSize(e.hp)
  {
    var w := st.phase.ws[i];
    var ws := st.phase.ws;
    if w.b >= HashSize(e.hp) then
      st.(owners := st.owners - {w.l}, releases := st.releases + multiset{w.l},
          phase := Moving(ws[i := Worker(w.l + 1, w.end, w.l + 1, 0, 0)]))
    else if w.slot < e.c.slots then
      var x := SlotAt(st.t, w.b, w.slot);
      if x.Item? && Leaves(e.c, e.hp, w.b, x) then
        st.(t := Put(Put(st.t, w.b + HashSize(e.hp), w.newSlot, x), w.b, w.slot, Free),
            scanned := st.scanned[w.b := w.slot + 1], arrived := st.arrived[w.b := w.newSlot + 1],
            phase := Moving(ws[i := w.(slot := w.slot + 1, newSlot := w.newSlot + 1)]))
      else
        st.(scanned := st.scanned[w.b := w.slot + 1], phase := Moving(ws[i := w.(slot := w.slot + 1)]))
    else
      st.(phase := Moving(ws[i := w.(b := w.b + NUM_LOCKS, slot := 0, newSlot := 0)]))
  }

  function ReleaserStep(st: State, i: nat): State
    requires st.phase.Releasing? && i < |st.phase.rs|
  {
    var r := st.phase.rs[i];
    st.(owners := st.owners - {r.l}, releases := st.releases + multiset{r.l},
        phase := Releasing(st.phase.rs[i := r.(l := r.l + 1)]))
  }

  /** The thread that doubles: a worker steps, the workers join, the added locks go, the threads join. */
  ghost predicate ExpanderNext(e: Setting, st: State, st': State)
    requires e.cores >= 1 && |st.scanned| == |st.arrived| == HashSize(e.hp)
  {
    match st.phase
    case Moving(ws) =>
      || (exists i: nat :: i < |ws| && ws[i].l < ws[i].end && st' == WorkerStep(e, st, i))
      || ((forall i :: 0 <= i < |ws| ==> ws[i].l >= ws[i].end)
          && LockCount(e.hp) <= LockCount(e.hp + 1)
          && st' == st.(phase := Releasing(Ranges(LockCount(e.hp), LockCount(e.hp + 1), e.cores))))
    case Releasing(rs) =>
      || (exists i: nat :: i < |rs| && rs[i].l < rs[i].end && st' == ReleaserStep(st, i))
      || ((forall i :: 0 <= i < |rs| ==> rs[i].l >= rs[i].end) && st' == st.(phase := Finished))
    case Finished => false
  }

  /** Thread u holds the lock of bucket b. */
  predicate HoldsBucket(st: State, u: nat, b: nat)
  {
    LockInd(b) in st.owners && st.owners[LockInd(b)] == Other(u)
  }

  predicate HoldsKey(e: Setting, st: State, u: nat, k: Key)
  {
    HoldsBucket(st, u, Index1(e.hp + 1, e.c.hash(k))) && HoldsBucket(st, u, Index2(e.hp + 1, e.c.hash(k)))
  }

  /** The scan of both buckets of a key, as find and insert do it: partial keys first, unless keys are simple. */
  ghost predicate FoundAt(e: Setting, st: State, k: Key, b: int, s: int)
  {
    && (b == Index1(e.hp + 1, e.c.hash(k)) || b == Index2(e.hp + 1, e.c.hash(k)))
    && var x := SlotAt(st.t, b, s); x.Item? && (e.simple || x.partial == PartialKey(e.c.hash(k))) && x.key == k
  }

  datatype Edit =
    | Take(l: nat)
    | Drop(l: nat)
    | Insert(k: Key, v: Val, b: nat, s: nat)
    | Delete(k: Key, b: nat, s: nat)
    | Store(k: Key, v: Val, b: nat, s: nat)
    | Hop(b: nat, s: nat, b': nat, s': nat)

  predicate IsFree(st: State, b: nat, s: nat) { b < |st.t| && s < |st.t[b]| && st.t[b][s].Free? }

  /** What another thread u may do: take a free lock, drop one of its own, and, under both locks of a
      key, insert it when neither of its buckets has it, delete it, change its value, or move an item
      from one of its buckets to the other. */
  ghost predicate OtherNext(e: Setting, st: State, u: nat, d: Edit, st': State)
  {
    match d
    case Take(l) => l < LockCount(e.hp + 1) && l !in st.owners && st' == st.(owners := st.owners[l := Other(u)])
    case Drop(l) => l in st.owners && st.owners[l] == Other(u) && st' == st.(owners := st.owners - {l})
    case Insert(k, v, b, s) =>
      && HoldsKey(e, st, u, k) && (forall b', s' :: !FoundAt(e, st, k, b', s')) && IsFree(st, b, s)
      && (b == Index1(e.hp + 1, e.c.hash(k)) || b == Index2(e.hp + 1, e.c.hash(k)))
      && st' == st.(t := Put(st.t, b, s, Item(PartialKey(e.c.hash(k)), k, v)), m := st.m[k := v])
    case Delete(k, b, s) =>
      HoldsKey(e, st, u, k) && FoundAt(e, st, k, b, s) && st' == st.(t := Put(st.t, b, s, Free), m := st.m - {k})
    case Store(k, v, b, s) =>
      HoldsKey(e, st, u, k) && FoundAt(e, st, k, b, s)
      && st' == st.(t := Put(st.t, b, s, Item(SlotAt(st.t, b, s).partial, k, v)), m := st.m[k := v])
    case Hop(b, s, b', s') =>
      var x := SlotAt(st.t, b, s);
      && HoldsBucket(st, u, b) && HoldsBucket(st, u, b') && x.Item? && IsFree(st, b', s')
      && b' == AltIndex(e.hp + 1, PartialKey(e.c.hash(x.key)), b)
      && st' == st.(t := Put(Put(st.t, b', s', x), b, s, Free))
  }

  ghost predicate Next(e: Setting, st: State, st': State)
    requires e.cores >= 1
  {
    || (|st.scanned| == |st.arrived| == HashSize(e.hp) && ExpanderNext(e, st, st'))
    || (exists u, d :: OtherNext(e, st, u, d, st'))
  }

  /** The table t0 has just been widened, and the expander holds every lock. */
  ghost predicate Init(e: Setting, st: State)
    requires e.cores >= 1
  {
    && (exists t0 :: Inv(e.c, e.hp, t0, st.m) && st.t == Widened(e.c, t0))
    && (forall l: nat :: l in st.owners <==> l < LockCount(e.hp + 1))
    && (forall l: nat :: l in st.owners ==> st.owners[l] == Expander)
    && st.phase == Moving(Workers(LockCount(e.hp), e.cores))
    && st.scanned == st.arrived == seq(HashSize(e.hp), _ => 0)
    && st.releases == multiset{}
  }

  ghost predicate Run(e: Setting, r: seq<State>)
  {
    e.cores >= 1 && |r| > 0 && Init(e, r[0]) && forall i :: 0 <= i < |r| - 1 ==> Next(e, r[i], r[i + 1])
  }
}
