/** Two resizes that overlap: a run in which a resizer that has read h->ht before a put and a whole resize by another
    thread is about to take the resize lock with a table that is no longer the published one. */
module ClhtLbResOverlap {
  import opened Hashing
  import opened History
  import opened ClhtLbRes
  import opened ClhtLbResProof
  import opened ClhtLbResStale

  lemma {:induction false} Appended(r: seq<State>, st: State)
    requires Run(r) && Next(r[|r| - 1], st)
    ensures Run(r + [st])
  {
    hide Next;
    forall i | 0 <= i < |r| ensures Next((r + [st])[i], (r + [st])[i + 1]) {
      if i < |r| - 1 { assert Next(r[i], r[i + 1]); }
    }
  }

  /** Thread 1 takes a step. */
  lemma Acts(r: seq<State>) returns (r': seq<State>)
    requires Run(r) && CanStep(r[|r| - 1], 1) && FreshResizer(r[|r| - 1], r[|r| - 1].threads[1])
    ensures Run(r') && |r'| > 0 && r'[|r'| - 1] == Step(r[|r| - 1], 1)
  {
    var st := r[|r| - 1];
    assert Next(st, Step(st, 1)) by { hide Step, Shape; }
    Appended(r, Step(st, 1));
    r' := r + [Step(st, 1)];
  }

  lemma Begins(r: seq<State>, t: nat, op: Op) returns (r': seq<State>)
    requires Run(r) && GoodOp(op) && (t in r[|r| - 1].threads ==> r[|r| - 1].threads[t].pc.Done?)
    ensures Run(r') && |r'| == |r| + 1 && r <= r'
    ensures var st := r[|r| - 1];
            r'[|r'| - 1] == st.(threads := st.threads[t := Thread(op, |st.events|, LoadHt)])
  {
    var st := r[|r| - 1];
    var st' := st.(threads := st.threads[t := Thread(op, |st.events|, LoadHt)]);
    assert Invoke(st, t, op, st');
    Appended(r, st');
    r' := r + [st'];
  }

  /** There are two threads, and thread 0 is a resizer that has read the first table and not yet taken the resize
      lock. */
  ghost predicate Pending(st: State, n: nat)
  {
    && st.threads.Keys == {0, 1} && |st.tables| >= 1
    && st.threads[0].op == Resize(n) && st.threads[0].pc == TakeResize(0)
  }

  /** No lock is taken by an update while neither thread is inside a critical section. */
  lemma NoUpdates(st: State, n: nat, h: nat, b: nat)
    requires StateOk(st) && Pending(st, n) && !InCrit(st.threads[1].pc) && InTable(st, h, b)
    ensures !LockAt(st, h, b).UPDATE?
    ensures LockAt(st, h, b).RESIZE? <==> h < Cur(st) || b < Progress(st)
  {
    hide Represents, ThreadsOk, TablesOk, ResizerOk, Home, Progress;
  }

  // ------------------------------------------------------------------ the put

  /** The put has stored its key. */
  predicate Committed(pc: Pc) { pc.Unlock? || pc.Done? }

  /** Thread 1 is at its put, which does not meet its key. */
  ghost predicate Putting(st: State, n: nat, k: nat, v: nat)
  {
    && Pending(st, n) && |st.tables| == 1 && st.resizer.Nobody? && st.threads[1].op == Put(k, v)
    && st.contents == (if Committed(st.threads[1].pc) then map[k := v] else map[])
    && match st.threads[1].pc
       case LoadHt => true
       case Peek(h, _) => h == 0
       case TryLock(h) => h == 0
       case Scan(h, _, _) => h == 0
       case WriteVal(h, _) => h == 0
       case WriteKey(h, _) => h == 0
       case LinkNew(h) => h == 0
       case Unlock(h, r) => h == 0 && r == 1
       case Done(_) => true
       case _ => false
  }

  /** How far a put has still to go. */
  function PutRank(pc: Pc): nat
  {
    match pc
    case LoadHt => 8
    case Peek(_, _) => 7
    case TryLock(_) => 6
    case Scan(_, _, _) => 5
    case WriteVal(_, _) => 4
    case WriteKey(_, _) => 3
    case LinkNew(_) => 3
    case Unlock(_, _) => 2
    case _ => 0
  }

  function SlotsLeft(st: State, th: Thread): nat
    requires Shape(st, th)
  {
    match th.pc
    case Peek(h, j) => ChainLength(st, h, th.op.k) - j
    case Scan(h, j, _) => ChainLength(st, h, th.op.k) - j
    case _ => 0
  }

  /** The put has come closer to its end. */
  ghost predicate Nearer(st: State, st': State)
    requires 1 in st.threads && 1 in st'.threads && Shape(st, st.threads[1])
  {
    var pc, pc' := st.threads[1].pc, st'.threads[1].pc;
    || PutRank(pc') < PutRank(pc)
    || (PutRank(pc') == PutRank(pc) && Shape(st', st'.threads[1])
        && SlotsLeft(st', st'.threads[1]) < SlotsLeft(st, st.threads[1]))
  }

  lemma PutReads(st: State, n: nat, k: nat, v: nat)
    requires Putting(st, n, k, v) && Shape(st, st.threads[1]) && Reading(st.threads[1].pc)
    requires forall b, j :: At(st.tables[0], b, j).key == 0
    requires k != 0
    ensures var st' := Log(Goto(st, 1, NextPc(st, st.threads[1])), Internal); Putting(st', n, k, v) && Nearer(st, st')
  {
    hide BinOf;
  }

  lemma PutWrites(st: State, n: nat, k: nat, v: nat)
    requires Putting(st, n, k, v) && Shape(st, st.threads[1]) && Writing(st.threads[1].pc)
    ensures var st' := StepWrite(st, 1, st.threads[1]); Putting(st', n, k, v) && Nearer(st, st')
  {
    hide BinOf, SetSlot, Link, At;
  }

  lemma PutLocks(st: State, n: nat, k: nat, v: nat)
    requires Putting(st, n, k, v) && Shape(st, st.threads[1]) && st.threads[1].pc.TryLock?
    requires LockOf(st, 0, k) == FREE
    ensures var st' := StepTryLock(st, 1, st.threads[1]); Putting(st', n, k, v) && Nearer(st, st')
  {
    hide BinOf, SetLock;
  }

  lemma PutUnlocks(st: State, n: nat, k: nat, v: nat)
    requires Putting(st, n, k, v) && Shape(st, st.threads[1]) && st.threads[1].pc.Unlock?
    ensures var st' := StepUnlock(st, 1, st.threads[1]); Putting(st', n, k, v) && Nearer(st, st')
  {
    hide BinOf, SetLock;
  }

  lemma PutStep(st: State, n: nat, k: nat, v: nat)
    requires StateOk(st) && Putting(st, n, k, v) && CanStep(st, 1) && k != 0
    ensures Putting(Step(st, 1), n, k, v) && Nearer(st, Step(st, 1))
  {
    hide StateOk, BinOf, Step, NextPc, StepTryLock, StepUnlock, StepWrite, StepResize, Nearer, Shape;
    var th := st.threads[1];
    StepKinds(st, 1);
    if Reading(th.pc) {
      NothingStored(st);
      PutReads(st, n, k, v);
    } else if th.pc.TryLock? {
      NothingLocked(st, n, 0, HomeOf(st, k));
      PutLocks(st, n, k, v);
    } else if th.pc.Unlock? {
      PutUnlocks(st, n, k, v);
    } else {
      PutWrites(st, n, k, v);
    }
  }

  ghost function HomeOf(st: State, k: nat): (b: nat)
    requires StateOk(st) && |st.tables| == 1
    ensures InTable(st, 0, b) && IsTable(st, 0) && b == Home(st, 0, k)
  {
    Home(st, 0, k)
  }

  lemma NothingLocked(st: State, n: nat, h: nat, b: nat)
    requires StateOk(st) && Pending(st, n) && |st.tables| == 1 && InTable(st, h, b)
    requires st.resizer.Nobody? && !InCrit(st.threads[1].pc)
    ensures st.tables[h][b].lock == FREE
  {
    NoUpdates(st, n, h, b);
    assert LockAt(st, h, b) == st.tables[h][b].lock;
    hide StateOk;
  }

  /** A table for the empty map has no keys. */
  lemma NothingStored(st: State)
    requires StateOk(st) && |st.tables| == 1 && st.contents == map[]
    ensures forall b, j :: At(st.tables[0], b, j).key == 0
  {
    hide LocksOk, ResizerOk, ThreadsOk, TablesOk, BinOf;
  }

  lemma {:induction false} PutRuns(r: seq<State>, n: nat, k: nat, v: nat) returns (r': seq<State>)
    requires |r| > 0 && Run(r) && k != 0 && Putting(r[|r| - 1], n, k, v) && Shape(r[|r| - 1], r[|r| - 1].threads[1])
    ensures |r'| > 0 && Run(r') && Putting(r'[|r'| - 1], n, k, v) && r'[|r'| - 1].threads[1].pc.Done?
    decreases PutRank(r[|r| - 1].threads[1].pc), SlotsLeft(r[|r| - 1], r[|r| - 1].threads[1])
  {
    hide StateOk, Step, Run, Next, Shape, SlotsLeft;
    r' := r;
    var st := r[|r| - 1];
    if !st.threads[1].pc.Done? {
      RunOk(r, |r| - 1);
      PutStep(st, n, k, v);
      r' := Acts(r);
      RunOk(r', |r'| - 1);
      ThreadIsOk(r'[|r'| - 1], 1);
      r' := PutRuns(r', n, k, v);
    }
  }

  // ------------------------------------------------------------------ the resize in between

  /** Thread 1 is at a resize, while the map is m. */
  ghost predicate Resizes(st: State, n: nat, m: map<nat, nat>)
  {
    && Pending(st, n) && st.threads[1].op.Resize? && st.contents == m
    && match st.threads[1].pc
       case LoadHt => |st.tables| == 1 && st.resizer.Nobody?
       case TakeResize(h) => |st.tables| == 1 && st.resizer.Nobody? && h == 0
       case LockBin(h, _) => |st.tables| == 1 && st.resizer == Somebody(1) && h == 0
       case Copy(h, _, _) => |st.tables| == 1 && st.resizer == Somebody(1) && h == 0
       case Swap(h) => |st.tables| == 1 && st.resizer == Somebody(1) && h == 0
       case SetNew(h) => |st.tables| == 2 && st.resizer == Somebody(1) && h == 0
       case ReleaseResize => |st.tables| == 2 && st.resizer == Somebody(1)
       case Done(_) => |st.tables| == 2 && st.resizer.Nobody?
       case _ => false
  }

  /** How many bins, what stages and how many slots a resize has still to go through. */
  function BinsLeft(st: State, th: Thread): nat
    requires Shape(st, th) && |st.tables| >= 1
  {
    match th.pc
    case LoadHt => |st.tables[0]| + 2
    case TakeResize(_) => |st.tables[0]| + 1
    case LockBin(h, b) => |st.tables[h]| - b
    case Copy(h, b, _) => |st.tables[h]| - b
    case _ => 0
  }

  function StagesLeft(pc: Pc): nat
  {
    match pc
    case LockBin(_, _) => 4
    case Copy(_, _, _) => 3
    case Swap(_) => 3
    case SetNew(_) => 2
    case ReleaseResize => 1
    case _ => 0
  }

  function CopiesLeft(st: State, th: Thread): nat
    requires Shape(st, th)
  {
    match th.pc
    case Copy(h, b, j) => |st.tables[h][b].slots| - j
    case _ => 0
  }

  ghost predicate Advances(st: State, st': State)
    requires |st.tables| >= 1 && 1 in st.threads && Shape(st, st.threads[1])
    requires |st'.tables| >= 1 && 1 in st'.threads && Shape(st', st'.threads[1])
  {
    var a, b := st.threads[1], st'.threads[1];
    || BinsLeft(st', b) < BinsLeft(st, a)
    || (BinsLeft(st', b) == BinsLeft(st, a)
        && (StagesLeft(b.pc) < StagesLeft(a.pc)
            || (StagesLeft(b.pc) == StagesLeft(a.pc) && CopiesLeft(st', b) < CopiesLeft(st, a))))
  }

  lemma ResizeAdvances(st: State, n: nat, m: map<nat, nat>)
    requires Resizes(st, n, m) && Shape(st, st.threads[1]) && Resizing(st.threads[1].pc)
    requires st.threads[1].pc.LockBin? && st.threads[1].pc.b < |st.tables[0]| ==>
               st.tables[0][st.threads[1].pc.b].lock == FREE
    ensures var st' := StepResize(st, 1, st.threads[1]);
            Resizes(st', n, m) && (Shape(st', st'.threads[1]) ==> Advances(st, st'))
  {
    hide BinOf, PutSeq, SetLock, NewTable, StepResize, At;
    match st.threads[1].pc
    case LockBin(_, _) => LockBinAdvances(st, n, m);
    case Copy(_, _, _) => CopyAdvances(st, n, m);
    case TakeResize(_) => TakeResizeAdvances(st, n, m);
    case _ => SingleStepAdvances(st, n, m);
  }

  lemma SingleStepAdvances(st: State, n: nat, m: map<nat, nat>)
    requires Resizes(st, n, m) && Shape(st, st.threads[1])
    requires var pc := st.threads[1].pc; pc.Swap? || pc.SetNew? || pc.ReleaseResize?
    ensures var st' := StepResize(st, 1, st.threads[1]);
            Resizes(st', n, m) && (Shape(st', st'.threads[1]) ==> Advances(st, st'))
  {
    hide BinOf, NewTable;
  }

  lemma TakeResizeAdvances(st: State, n: nat, m: map<nat, nat>)
    requires Resizes(st, n, m) && Shape(st, st.threads[1]) && st.threads[1].pc.TakeResize?
    ensures var st' := StepResize(st, 1, st.threads[1]);
            Resizes(st', n, m) && (Shape(st', st'.threads[1]) ==> Advances(st, st'))
  {
    hide BinOf, NewTable;
  }

  lemma LockBinAdvances(st: State, n: nat, m: map<nat, nat>)
    requires Resizes(st, n, m) && Shape(st, st.threads[1]) && st.threads[1].pc.LockBin?
    requires st.threads[1].pc.b < |st.tables[0]| ==> st.tables[0][st.threads[1].pc.b].lock == FREE
    ensures var st' := StepResize(st, 1, st.threads[1]);
            Resizes(st', n, m) && (Shape(st', st'.threads[1]) ==> Advances(st, st'))
  {
    hide BinOf, SetLock;
  }

  lemma CopyAdvances(st: State, n: nat, m: map<nat, nat>)
    requires Resizes(st, n, m) && Shape(st, st.threads[1]) && st.threads[1].pc.Copy?
    ensures var st' := StepResize(st, 1, st.threads[1]);
            Resizes(st', n, m) && (Shape(st', st'.threads[1]) ==> Advances(st, st'))
  {
    hide BinOf, PutSeq, At;
  }

  lemma LoadAdvances(st: State, n: nat, m: map<nat, nat>)
    requires Resizes(st, n, m) && Shape(st, st.threads[1]) && st.threads[1].pc.LoadHt?
    ensures var st' := Log(Goto(st, 1, NextPc(st, st.threads[1])), Internal);
            Resizes(st', n, m) && (Shape(st', st'.threads[1]) ==> Advances(st, st'))
  {
  }

  lemma ResizeStep(st: State, n: nat, m: map<nat, nat>)
    requires StateOk(st) && Resizes(st, n, m) && CanStep(st, 1)
    ensures Resizes(Step(st, 1), n, m) && (Shape(Step(st, 1), Step(st, 1).threads[1]) ==> Advances(st, Step(st, 1)))
  {
    hide StateOk, BinOf, Step, NextPc, StepTryLock, StepUnlock, StepWrite, StepResize, Advances, Shape;
    var th := st.threads[1];
    StepKinds(st, 1);
    if th.pc.LoadHt? {
      LoadAdvances(st, n, m);
    } else {
      if th.pc.LockBin? { NextBinIsFree(st, n, th.pc.b); }
      ResizeAdvances(st, n, m);
    }
  }

  /** The bin that the resizer comes to is not in RESIZE yet. */
  lemma NextBinIsFree(st: State, n: nat, b: nat)
    requires StateOk(st) && Pending(st, n) && |st.tables| == 1
    requires st.resizer == Somebody(1) && st.threads[1].pc == LockBin(0, b)
    ensures b < |st.tables[0]| ==> st.tables[0][b].lock == FREE
  {
    if b < |st.tables[0]| {
      NoUpdates(st, n, 0, b);
      assert LockAt(st, 0, b) == st.tables[0][b].lock;
      hide StateOk;
    }
  }

  lemma {:induction false} ResizeRuns(r: seq<State>, n: nat, m: map<nat, nat>) returns (r': seq<State>)
    requires |r| > 0 && Run(r) && Resizes(r[|r| - 1], n, m) && Shape(r[|r| - 1], r[|r| - 1].threads[1])
    ensures |r'| > 0 && Run(r') && Resizes(r'[|r'| - 1], n, m) && r'[|r'| - 1].threads[1].pc.Done?
    decreases BinsLeft(r[|r| - 1], r[|r| - 1].threads[1]), StagesLeft(r[|r| - 1].threads[1].pc),
              CopiesLeft(r[|r| - 1], r[|r| - 1].threads[1])
  {
    hide StateOk, Step, Run, Next, Shape, BinsLeft, StagesLeft, CopiesLeft;
    r' := r;
    var st := r[|r| - 1];
    if !st.threads[1].pc.Done? {
      RunOk(r, |r| - 1);
      ResizeStep(st, n, m);
      r' := Acts(r);
      RunOk(r', |r'| - 1);
      ThreadIsOk(r'[|r'| - 1], 1);
      r' := ResizeRuns(r', n, m);
    }
  }

  // ------------------------------------------------------------------ the whole run

  /** Thread 0 begins a resize and reads h->ht, in a fresh table of n0 buckets. */
  lemma FirstResizerLoads(n0: nat, n: nat) returns (r: seq<State>)
    requires n0 >= 1 && n >= 1
    ensures |r| == 3 && Run(r)
    ensures var st := r[2];
            && st.threads == map[0 := Thread(Resize(n), 0, TakeResize(0))] && |st.tables| == 1 && |st.tables[0]| == n0
            && st.resizer.Nobody? && st.contents == map[]
  {
    var st0 := State([NewTable(n0)], {}, Nobody, [], map[], map[], map[], [map[]], []);
    assert Init(st0);
    var st1 := st0.(threads := map[0 := Thread(Resize(n), 0, LoadHt)]);
    assert Invoke(st0, 0, Resize(n), st1) by { assert st0.threads[0 := Thread(Resize(n), 0, LoadHt)] == st1.threads; }
    var st2 := Step(st1, 0);
    assert Shape(st1, st1.threads[0]);
    assert Next(st0, st1) && Next(st1, st2);
    r := [st0, st1, st2];
    assert st2.threads == map[0 := Thread(Resize(n), 0, TakeResize(0))];
  }

  /** From any fresh table, with any put and any two new sizes: a reachable state in which the map is not empty, nobody
      holds the resize lock, and thread 0 is about to take it with a table that is no longer the published one. */
  lemma StaleResizerIsReached(n0: nat, n1: nat, n2: nat, k: nat, v: nat) returns (r: seq<State>)
    requires n0 >= 1 && n1 >= 1 && n2 >= 1 && k != 0 && v != 0
    ensures Run(r)
    ensures var st := r[|r| - 1];
            && 0 in st.threads && st.threads[0].op == Resize(n1) && st.threads[0].pc == TakeResize(0)
            && 0 != Cur(st) && st.resizer.Nobody? && st.contents == map[k := v]
  {
    hide StateOk, Step, Run, Next, Shape, Init;
    r := FirstResizerLoads(n0, n1);
    r := Begins(r, 1, Put(k, v));
    ShapeOfLast(r, 1);
    r := PutRuns(r, n1, k, v);
    r := Begins(r, 1, Resize(n2));
    ShapeOfLast(r, 1);
    r := ResizeRuns(r, n1, map[k := v]);
  }

  /** When thread 0 goes on from there, it publishes a table that has lost the binding. */
  lemma OverlapLosesTheBinding(n0: nat, n1: nat, n2: nat, k: nat, v: nat) returns (r: seq<State>, s: seq<State>)
    requires n0 >= 1 && n1 >= 1 && n2 >= 1 && k != 0 && v != 0
    ensures Run(r) && Solo(s, 0) && s[0] == r[|r| - 1]
    ensures var st := s[|s| - 1];
            st.contents == map[k := v] && |st.tables| >= 1 && !Represents(st.tables[|st.tables| - 1], st.contents)
  {
    hide StateOk, Step, Next, Shape, Represents;
    r := StaleResizerIsReached(n0, n1, n2, k, v);
    s := StaleResizerLosesTheMap(r, |r| - 1, 0);
    assert k in map[k := v];
    assert r[|r| - 1].contents != map[];
  }

  lemma ShapeOfLast(r: seq<State>, t: nat)
    requires |r| > 0 && Run(r) && t in r[|r| - 1].threads
    ensures Shape(r[|r| - 1], r[|r| - 1].threads[t])
  {
    RunOk(r, |r| - 1);
    ThreadIsOk(r[|r| - 1], t);
  }
}
