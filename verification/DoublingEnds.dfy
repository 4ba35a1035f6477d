/** A doubling ends: each step of the thread that doubles, and of its workers, brings it nearer to the end, and no step
    of another thread takes it away from there again. */
module DoublingEnds {
  import opened Hashing
  import opened CuckooLayout
  import opened CuckooTable
  import opened Doubling
  import opened DoublingProof

  // ------------------------------------------------------------------ how much is left to do

  /** The sum of n equal numbers. */
  function Times(n: nat, x: nat): nat { if n == 0 then 0 else x + Times(n - 1, x) }

  lemma {:induction false} TimesMore(n: nat, m: nat, x: nat)
    requires n <= m
    ensures Times(n, x) <= Times(m, x)
  {
    if n < m { TimesMore(n, m - 1, x); }
  }

  /** The steps for all buckets of a lock, at most: the slots of each, the move to the next, and the unlock. */
  function LockWork(e: Setting): nat { Times(HashSize(e.hp), e.c.slots + 1) + 1 }

  /** The same for a worker's bucket and those that follow. */
  function BucketWork(e: Setting, w: Worker): nat
  {
    if w.b >= HashSize(e.hp) || w.slot > e.c.slots then 1
    else Times(HashSize(e.hp) - w.b - 1, e.c.slots + 1) + (e.c.slots + 1 - w.slot) + 1
  }

  function WorkerLeft(e: Setting, w: Worker): nat
  {
    if w.l >= w.end then 0 else Times(w.end - w.l - 1, LockWork(e)) + BucketWork(e, w)
  }

  function WorkersLeft(e: Setting, ws: seq<Worker>): nat
  {
    if ws == [] then 0 else WorkerLeft(e, ws[0]) + WorkersLeft(e, ws[1..])
  }

  function RangesLeft(rs: seq<Range>): nat
  {
    if rs == [] then 0 else (if rs[0].l < rs[0].end then rs[0].end - rs[0].l else 0) + RangesLeft(rs[1..])
  }

  /** The added locks. */
  function Added(e: Setting): nat
  {
    if LockCount(e.hp) <= LockCount(e.hp + 1) then LockCount(e.hp + 1) - LockCount(e.hp) else 0
  }

  /** The steps that the doubling still has to take, at most. */
  function Left(e: Setting, st: State): nat
  {
    match st.phase
    case Moving(ws) => WorkersLeft(e, ws) + Times(e.cores, Added(e)) + 2
    case Releasing(rs) => RangesLeft(rs) + 1
    case Finished => 0
  }

  // ------------------------------------------------------------------ every step of it makes that less

  lemma {:induction false} OneWorker(e: Setting, ws: seq<Worker>, i: nat, w: Worker)
    requires i < |ws|
    ensures WorkersLeft(e, ws[i := w]) + WorkerLeft(e, ws[i]) == WorkersLeft(e, ws) + WorkerLeft(e, w)
  {
    hide WorkerLeft;
    if i == 0 {
      assert ws[0 := w][1..] == ws[1..];
    } else {
      assert ws[i := w][1..] == ws[1..][i - 1 := w];
      OneWorker(e, ws[1..], i - 1, w);
    }
  }

  lemma {:induction false} OneRangeLess(rs: seq<Range>, i: nat, r: Range)
    requires i < |rs| && rs[i].l < rs[i].end && r == rs[i].(l := rs[i].l + 1)
    ensures RangesLeft(rs[i := r]) < RangesLeft(rs)
  {
    if i == 0 {
      assert rs[0 := r][1..] == rs[1..];
    } else {
      assert rs[i := r][1..] == rs[1..][i - 1 := r];
      OneRangeLess(rs[1..], i - 1, r);
    }
  }

  lemma {:induction false} RangesWithin(rs: seq<Range>, m: nat)
    requires forall i :: 0 <= i < |rs| ==> rs[i].end <= rs[i].l + m
    ensures RangesLeft(rs) <= Times(|rs|, m)
  {
    if rs != [] { RangesWithin(rs[1..], m); }
  }

  /** The unlock, and on to the next lock. */
  lemma NextLockIsLess(e: Setting, w: Worker)
    requires w.l < w.end
    ensures WorkerLeft(e, Worker(w.l + 1, w.end, w.l + 1, 0, 0)) <= Times(w.end - w.l - 1, LockWork(e))
  {
    hide Pow2;
    var w' := Worker(w.l + 1, w.end, w.l + 1, 0, 0);
    var n := HashSize(e.hp);
    if w'.l < w'.end { TimesMore(n - (if w'.b < n then w'.b else n), n, e.c.slots + 1); }
  }

  lemma NextBucketIsLess(e: Setting, w: Worker)
    requires w.b < HashSize(e.hp) && w.slot == e.c.slots
    ensures BucketWork(e, w.(b := w.b + NUM_LOCKS, slot := 0, newSlot := 0)) < BucketWork(e, w)
  {
    hide Pow2;
    var n := HashSize(e.hp);
    if w.b + NUM_LOCKS < n { TimesMore(n - w.b - NUM_LOCKS, n - w.b - 1, e.c.slots + 1); }
  }

  lemma WorkerStepIsLess(e: Setting, st: State, i: nat)
    requires st.phase.Moving? && i < |st.phase.ws| && |st.scanned| == |st.arrived| == HashSize(e.hp)
    requires st.phase.ws[i].l < st.phase.ws[i].end && st.phase.ws[i].slot <= e.c.slots
    ensures Left(e, WorkerStep(e, st, i)) < Left(e, st) && WorkerStep(e, st, i).m == st.m
  {
    hide Pow2, WorkersLeft, SlotAt, Leaves, Added, Put, BucketWork, LockWork;
    var ws, w := st.phase.ws, st.phase.ws[i];
    var w' := WorkerStep(e, st, i).phase.ws[i];
    assert WorkerStep(e, st, i).phase.ws == ws[i := w'];
    OneWorker(e, ws, i, w');
    if w.b >= HashSize(e.hp) {
      NextLockIsLess(e, w);
      LastBucket(e, w);
    } else if w.slot < e.c.slots {
      NextSlotIsLess(e, w, w');
    } else {
      NextBucketIsLess(e, w);
    }
  }

  lemma LastBucket(e: Setting, w: Worker)
    requires w.b >= HashSize(e.hp)
    ensures BucketWork(e, w) == 1
  {
  }

  lemma NextSlotIsLess(e: Setting, w: Worker, w': Worker)
    requires w.b == w'.b < HashSize(e.hp) && w.slot < e.c.slots && w'.slot == w.slot + 1
    ensures BucketWork(e, w') < BucketWork(e, w)
  {
    hide Pow2;
  }

  lemma JoinIsLess(e: Setting, st: State)
    requires st.phase.Moving? && e.cores >= 1 && LockCount(e.hp) <= LockCount(e.hp + 1)
    ensures Left(e, st.(phase := Releasing(Ranges(LockCount(e.hp), LockCount(e.hp + 1), e.cores)))) < Left(e, st)
  {
    hide LockCount, Pow2, RangeStart, RangeEnd, Ranges;
    var lo, hi := LockCount(e.hp), LockCount(e.hp + 1);
    var rs := Ranges(lo, hi, e.cores);
    forall i | 0 <= i < |rs| ensures rs[i].end <= rs[i].l + Added(e) { RangeOrder(lo, hi, e.cores, i); }
    RangesWithin(rs, Added(e));
  }

  lemma ExpanderIsLess(e: Setting, st: State, st': State)
    requires e.cores >= 1 && StateOk(e, st) && |st.scanned| == |st.arrived| == HashSize(e.hp)
    requires ExpanderNext(e, st, st')
    ensures Left(e, st') < Left(e, st) && st'.m == st.m
  {
    hide Left, LockCount, Pow2, LocksOk, TableOk, WorkerStep, Ranges, RangeStart, RangeEnd, LockInd;
    match st.phase
    case Moving(ws) =>
      if i: nat :| i < |ws| && ws[i].l < ws[i].end && st' == WorkerStep(e, st, i) {
        assert WorkerOk(e, st, i, ws[i]);
        WorkerStepIsLess(e, st, i);
      } else {
        JoinIsLess(e, st);
      }
    case Releasing(rs) =>
      if i: nat :| i < |rs| && rs[i].l < rs[i].end && st' == ReleaserStep(st, i) {
        ReleaseIsLess(e, st, i);
      } else {
        FinishIsLess(e, st);
      }
  }

  lemma ReleaseIsLess(e: Setting, st: State, i: nat)
    requires st.phase.Releasing? && i < |st.phase.rs| && st.phase.rs[i].l < st.phase.rs[i].end
    ensures Left(e, ReleaserStep(st, i)) < Left(e, st)
  {
    hide RangesLeft;
    OneRangeLess(st.phase.rs, i, st.phase.rs[i].(l := st.phase.rs[i].l + 1));
  }

  lemma FinishIsLess(e: Setting, st: State)
    requires st.phase.Releasing?
    ensures Left(e, st.(phase := Finished)) < Left(e, st)
  {
    hide RangesLeft;
  }

  lemma OthersLeaveIt(e: Setting, st: State, u: nat, d: Edit, st': State)
    requires OtherNext(e, st, u, d, st')
    ensures st'.phase == st.phase && Left(e, st') == Left(e, st)
  {
    hide LockInd, Pow2, WorkersLeft, RangesLeft, Put, FoundAt, AltIndex;
  }

  // ------------------------------------------------------------------ the theorems

  /** The steps of the thread that doubles among the first i of a run. */
  ghost function OwnSteps(e: Setting, r: seq<State>, i: nat): nat
    requires Run(e, r) && i < |r|
  {
    if i == 0 then 0 else OwnSteps(e, r, i - 1) + if Own(e, r[i - 1], r[i]) then 1 else 0
  }

  ghost predicate Own(e: Setting, st: State, st': State)
    requires e.cores >= 1
  {
    |st.scanned| == |st.arrived| == HashSize(e.hp) && ExpanderNext(e, st, st')
  }

  /** However the other threads step in between, the steps of the doubling are bounded by what it had to do at first, so
      that it cannot go on for ever. */
  lemma {:induction false} DoublingIsBounded(e: Setting, r: seq<State>, i: nat)
    requires Run(e, r) && i < |r|
    ensures OwnSteps(e, r, i) + Left(e, r[i]) <= Left(e, r[0])
  {
    hide Left, StateOk, ExpanderNext, OtherNext, Init;
    if i > 0 {
      DoublingIsBounded(e, r, i - 1);
      RunOk(e, r, i - 1);
      assert Next(e, r[i - 1], r[i - 1 + 1]);
      hide Run;
      if Own(e, r[i - 1], r[i]) {
        ExpanderIsLess(e, r[i - 1], r[i]);
      } else {
        var u, d :| OtherNext(e, r[i - 1], u, d, r[i]);
        OthersLeaveIt(e, r[i - 1], u, d, r[i]);
      }
    }
  }

  lemma {:induction false} Appended(e: Setting, r: seq<State>, st: State)
    requires Run(e, r) && Own(e, r[|r| - 1], st)
    ensures Run(e, r + [st])
  {
    hide Init, ExpanderNext, OtherNext;
    var r' := r + [st];
    forall i | 0 <= i < |r'| - 1 ensures Next(e, r'[i], r'[i + 1]) {
      if i < |r| - 1 { assert r'[i] == r[i] && r'[i + 1] == r[i + 1]; }
    }
  }

  /** Every step from number a on is one of the thread that doubles. */
  ghost predicate OnlyOwn(e: Setting, r: seq<State>, a: nat)
    requires e.cores >= 1
  {
    forall i :: a <= i < |r| - 1 ==> Own(e, r[i], r[i + 1])
  }

  /** From every state of every run the doubling finishes, in that many steps of its own: what it leaves is a
      well-formed table of the next hashpower that stands for the map as it was. */
  lemma {:induction false} DoublingFinishes(e: Setting, r: seq<State>) returns (r': seq<State>)
    requires Run(e, r)
    ensures Run(e, r') && r <= r' && OnlyOwn(e, r', |r| - 1) && |r'| <= |r| + Left(e, r[|r| - 1])
    ensures var st := r'[|r'| - 1]; st.phase.Finished? && st.m == r[|r| - 1].m && Inv(e.c, e.hp + 1, st.t, st.m)
    decreases Left(e, r[|r| - 1])
  {
    hide Init, Next, Left, StateOk, ExpanderNext, Inv;
    var st := r[|r| - 1];
    r' := r;
    hide Run;
    if st.phase.Finished? {
      FinishedTableIsTheMap(e, r, |r| - 1);
    } else {
      ExpanderNeverStuck(e, r, |r| - 1);
      var st' :| ExpanderNext(e, st, st');
      RunOk(e, r, |r| - 1);
      ExpanderIsLess(e, st, st');
      Appended(e, r, st');
      r' := DoublingFinishes(e, r + [st']);
      assert r'[|r| - 1] == st && r'[|r|] == st' by { assert r'[..|r| + 1] == r + [st']; }
    }
  }
}
