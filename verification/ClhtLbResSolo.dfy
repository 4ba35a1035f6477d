/** What an operation on the resizing lock-based table does when its thread steps alone, while no other operation is
    under way: it answers, and does to the map what its answer says.  And what a resize answers in any run. */
module ClhtLbResSolo {
  import opened Hashing
  import opened History
  import opened ClhtLbRes
  import opened ClhtLbResProof

  ghost predicate OthersRest(st: State, t: nat)
  {
    t in st.threads && forall u :: u in st.threads && u != t ==> st.threads[u].pc.Done?
  }

  predicate MayStep(st: State, t: nat)
  {
    t in st.threads && Shape(st, st.threads[t]) && !st.threads[t].pc.Done? && FreshResizer(st, st.threads[t])
  }

  // ------------------------------------------------------------------ nobody is in the way

  /** No bucket is locked for an update by another thread, and no other thread resizes. */
  ghost predicate Undisturbed(st: State, t: nat)
    requires |st.tables| >= 1 && t in st.threads
  {
    && (!InCrit(st.threads[t].pc) ==> forall h, b :: InTable(st, h, b) ==> !LockAt(st, h, b).UPDATE?)
    && (!Active(st.threads[t].pc) ==>
          && st.resizer.Nobody?
          && (forall h, b :: InTable(st, h, b) ==> (LockAt(st, h, b).RESIZE? <==> h < Cur(st)))
          && (forall h: nat :: h < Cur(st) ==> h in st.published))
  }

  lemma NobodyDisturbs(st: State, t: nat)
    requires StateOk(st) && OthersRest(st, t)
    ensures |st.tables| >= 1 && Undisturbed(st, t)
  {
    hide Represents, ThreadsOk, BuildOk, CopyOk, Home;
    if !Active(st.threads[t].pc) {
      NobodyResizes(st, t);
      assert Progress(st) == 0;
    }
  }

  lemma NobodyResizes(st: State, t: nat)
    requires |st.tables| >= 1 && |st.tables[|st.tables| - 1]| >= 1 && ResizerOk(st) && OthersRest(st, t)
    requires !Active(st.threads[t].pc)
    ensures st.resizer.Nobody?
  {
    hide BuildOk, CopyOk;
  }

  // ------------------------------------------------------------------ how far there is to go

  /** The stages that a thread has still to go through. */
  function Stages(st: State, th: Thread): nat
    requires |st.tables| >= 1 && Shape(st, th)
  {
    match th.pc
    case LoadHt => if th.op.Resize? then |st.tables[|st.tables| - 1]| + 6 else 12
    case Peek(_, _) => 11
    case TryLock(h) => if h == |st.tables| - 1 then 7 else 10
    case WaitNew(_) => 9
    case Reload => 8
    case Scan(_, _, _) => 6
    case WriteVal(_, _) => 5
    case ReadVal(_, _) => 5
    case WriteKey(_, _) => 4
    case LinkNew(_) => 4
    case ClearKey(_, _, _) => 4
    case Unlock(_, _) => 3
    case TakeResize(h) => |st.tables[h]| + 5
    case LockBin(h, b) => |st.tables[h]| - b + 4
    case Copy(h, b, _) => |st.tables[h]| - b + 4
    case Swap(_) => 3
    case SetNew(_) => 2
    case ReleaseResize => 1
    case Done(_) => 0
  }

  /** The slots that it has still to look at in its stage. */
  function SlotsLeft(st: State, th: Thread): nat
    requires Shape(st, th)
  {
    match th.pc
    case Peek(h, j) => ChainLength(st, h, th.op.k) - j
    case Scan(h, j, _) => ChainLength(st, h, th.op.k) - j
    case LockBin(h, b) => if b < |st.tables[h]| then |st.tables[h][b].slots| + 1 else 0
    case Copy(h, b, j) => |st.tables[h][b].slots| - j
    case _ => 0
  }

  /** From st to st' thread t has come nearer to its answer. */
  ghost predicate Nearer(st: State, st': State, t: nat)
    requires |st.tables| >= 1 && t in st.threads && Shape(st, st.threads[t])
  {
    && |st'.tables| >= 1 && t in st'.threads
    && (Shape(st', st'.threads[t]) ==>
          var th, th' := st.threads[t], st'.threads[t];
          || Stages(st', th') < Stages(st, th)
          || (Stages(st', th') == Stages(st, th) && SlotsLeft(st', th') < SlotsLeft(st, th)))
  }

  lemma ReadsNearer(st: State, t: nat)
    requires |st.tables| >= 1 && MayStep(st, t) && Undisturbed(st, t) && Reading(st.threads[t].pc)
    requires st.threads[t].pc.WaitNew? ==> st.threads[t].pc.h < Cur(st)
    ensures Nearer(st, Log(Goto(st, t, NextPc(st, st.threads[t])), Internal), t)
  {
    hide BinOf;
  }

  lemma LocksNearer(st: State, t: nat)
    requires |st.tables| >= 1 && MayStep(st, t) && Undisturbed(st, t) && st.threads[t].pc.TryLock?
    ensures Nearer(st, StepTryLock(st, t, st.threads[t]), t)
  {
    hide BinOf, SetLock;
    var th := st.threads[t];
    assert InTable(st, th.pc.h, Home(st, th.pc.h, th.op.k));
    assert LockAt(st, th.pc.h, Home(st, th.pc.h, th.op.k)) == LockOf(st, th.pc.h, th.op.k);
    hide Home;
  }

  lemma WritesNearer(st: State, t: nat)
    requires |st.tables| >= 1 && MayStep(st, t)
    ensures Writing(st.threads[t].pc) ==> Nearer(st, StepWrite(st, t, st.threads[t]), t)
    ensures st.threads[t].pc.Unlock? ==> Nearer(st, StepUnlock(st, t, st.threads[t]), t)
  {
    hide BinOf, Home, SetSlot, SetLock, Link, At;
  }

  lemma LockBinNearer(st: State, t: nat)
    requires |st.tables| >= 1 && MayStep(st, t) && Undisturbed(st, t) && st.threads[t].pc.LockBin?
    ensures Nearer(st, StepResize(st, t, st.threads[t]), t)
  {
    hide BinOf;
    var h, b := st.threads[t].pc.h, st.threads[t].pc.b;
    if b < |st.tables[h]| { assert InTable(st, h, b) && LockAt(st, h, b) == st.tables[h][b].lock; }
  }

  lemma CopyNearer(st: State, t: nat)
    requires |st.tables| >= 1 && MayStep(st, t) && st.threads[t].pc.Copy?
    ensures Nearer(st, StepResize(st, t, st.threads[t]), t)
  {
    hide BinOf, PutSeq, At;
  }

  lemma ResizesNearer(st: State, t: nat)
    requires |st.tables| >= 1 && MayStep(st, t) && Undisturbed(st, t)
    requires Resizing(st.threads[t].pc) && !st.threads[t].pc.LockBin? && !st.threads[t].pc.Copy?
    ensures Nearer(st, StepResize(st, t, st.threads[t]), t)
  {
    hide BinOf, NewTable;
  }

  lemma StepNearer(st: State, t: nat)
    requires StateOk(st) && OthersRest(st, t) && MayStep(st, t)
    ensures |st.tables| >= 1 && Nearer(st, Step(st, t), t)
  {
    hide StateOk, Step, NextPc, StepTryLock, StepUnlock, StepWrite, StepResize, Nearer, Shape, Undisturbed;
    NobodyDisturbs(st, t);
    StepKinds(st, t);
    var th := st.threads[t];
    if Reading(th.pc) {
      if th.pc.WaitNew? { WaitsForOld(st, t); }
      ReadsNearer(st, t);
    } else if th.pc.TryLock? {
      LocksNearer(st, t);
    } else if Writing(th.pc) || th.pc.Unlock? {
      WritesNearer(st, t);
    } else if th.pc.LockBin? {
      LockBinNearer(st, t);
    } else if th.pc.Copy? {
      CopyNearer(st, t);
    } else {
      ResizesNearer(st, t);
    }
  }

  /** A thread that waits for a newer table waits on an old one. */
  lemma WaitsForOld(st: State, t: nat)
    requires StateOk(st) && t in st.threads && st.threads[t].pc.WaitNew? && OthersRest(st, t)
    ensures st.threads[t].pc.h < |st.tables| - 1
  {
    hide Represents, BuildOk, CopyOk, Home, LocksOk;
    ThreadIsOk(st, t);
    NobodyResizes(st, t);
  }

  // ------------------------------------------------------------------ the operation ends

  /** From position a on, the run consists of steps of thread t. */
  ghost predicate OnlySteps(r: seq<State>, a: nat, t: nat)
  {
    forall i :: a <= i < |r| - 1 ==> MayStep(r[i], t) && r[i + 1] == Step(r[i], t)
  }

  /** From event number a on, every event is one of thread t, or changes nothing. */
  ghost predicate OwnEvents(events: seq<Event>, a: nat, t: nat)
  {
    forall i :: a <= i < |events| ==> events[i].Internal? || events[i].t == t
  }

  lemma StaysFresh(st: State, t: nat)
    requires StateOk(st) && MayStep(st, t)
    ensures t in Step(st, t).threads && FreshResizer(Step(st, t), Step(st, t).threads[t])
  {
    hide StateOk, Step, StepTryLock, StepUnlock, StepWrite, StepResize, NextPc, Shape;
    ThreadIsOk(st, t);
    StepKinds(st, t);
    ShapeIsKnown(st, t);
    if Reading(st.threads[t].pc) { LoadsFresh(st, t); } else { NoTakeResize(st, t); }
  }

  lemma ShapeIsKnown(st: State, t: nat)
    requires MayStep(st, t)
    ensures Shape(st, st.threads[t])
  {
  }

  lemma LoadsFresh(st: State, t: nat)
    requires |st.tables| >= 1 && MayStep(st, t) && Reading(st.threads[t].pc)
    ensures var st' := Log(Goto(st, t, NextPc(st, st.threads[t])), Internal); FreshResizer(st', st'.threads[t])
  {
    hide BinOf, Home;
  }

  lemma NoTakeResize(st: State, t: nat)
    requires MayStep(st, t)
    ensures var pc := st.threads[t].pc;
            && (pc.TryLock? ==> !StepTryLock(st, t, st.threads[t]).threads[t].pc.TakeResize?)
            && (pc.Unlock? ==> !StepUnlock(st, t, st.threads[t]).threads[t].pc.TakeResize?)
            && (Writing(pc) ==> !StepWrite(st, t, st.threads[t]).threads[t].pc.TakeResize?)
            && (Resizing(pc) ==> !StepResize(st, t, st.threads[t]).threads[t].pc.TakeResize?)
    ensures var pc := st.threads[t].pc;
            && (pc.TryLock? ==> t in StepTryLock(st, t, st.threads[t]).threads)
            && (pc.Unlock? ==> t in StepUnlock(st, t, st.threads[t]).threads)
            && (Writing(pc) ==> t in StepWrite(st, t, st.threads[t]).threads)
            && (Resizing(pc) ==> t in StepResize(st, t, st.threads[t]).threads)
  {
    hide BinOf, Home, SetSlot, SetLock, Link, At, PutSeq, NewTable;
  }

  lemma {:induction false} Appended(r: seq<State>, t: nat)
    requires |r| > 0 && Run(r) && MayStep(r[|r| - 1], t)
    ensures Run(r + [Step(r[|r| - 1], t)])
  {
    var st := r[|r| - 1];
    assert Next(st, Step(st, t)) by { hide Step, Shape; }
    hide Next, Step, MayStep;
    var r' := r + [Step(st, t)];
    forall i | 0 <= i < |r'| - 1 ensures Next(r'[i], r'[i + 1]) {
      if i < |r| - 1 { assert r'[i] == r[i] && r'[i + 1] == r[i + 1]; }
    }
  }

  /** What a step of thread t leaves as it was. */
  lemma StepIsOwn(st: State, t: nat)
    requires StateOk(st) && MayStep(st, t)
    ensures Logged(st, Step(st, t), t, EventOf(t, st.threads[t])) && StateOk(Step(st, t))
    ensures Shape(Step(st, t), Step(st, t).threads[t])
  {
    hide StateOk, Step, Shape, Commits, Logged;
    ShapeIsKnown(st, t);
    NotDone(st, t);
    StepKeeps(st, t);
    StepLogs(st, t);
    LoggedThread(st, Step(st, t), t, EventOf(t, st.threads[t]));
    ThreadIsOk(Step(st, t), t);
  }

  lemma NotDone(st: State, t: nat)
    requires MayStep(st, t)
    ensures t in st.threads && !st.threads[t].pc.Done? && FreshResizer(st, st.threads[t])
  {
  }

  lemma LoggedThread(st: State, st': State, t: nat, ev: Event)
    requires t in st.threads && Logged(st, st', t, ev)
    ensures t in st'.threads && st'.threads == st.threads[t := st'.threads[t]]
    ensures st'.threads[t].op == st.threads[t].op && st'.threads[t].start == st.threads[t].start
    ensures st'.hist == st.hist + [st'.contents] && st'.events == st.events + [ev]
  {
  }

  /** A resizer whose turn nobody disputes answers one. */
  lemma ResizeWins(st: State, t: nat)
    requires |st.tables| >= 1 && MayStep(st, t) && Undisturbed(st, t)
    requires st.threads[t].op.Resize? && GoodOp(st.threads[t].op)
    requires t in Step(st, t).threads
    ensures Step(st, t).threads[t].pc.Done? ==> Step(st, t).threads[t].pc.result == 1
  {
    hide BinOf, Home, SetSlot, SetLock, Link, At, PutSeq, NewTable;
  }

  /** Thread t goes on alone until it has answered. */
  lemma {:induction false} GoesOnAlone(r: seq<State>, t: nat) returns (r': seq<State>)
    requires |r| > 0 && Run(r) && OthersRest(r[|r| - 1], t) && FreshResizer(r[|r| - 1], r[|r| - 1].threads[t])
    requires |r[|r| - 1].tables| >= 1 && Shape(r[|r| - 1], r[|r| - 1].threads[t])
    ensures Run(r') && r <= r' && OnlySteps(r', |r| - 1, t)
    ensures var st, st' := r[|r| - 1], r'[|r'| - 1];
            && OthersRest(st', t) && st'.threads == st.threads[t := st'.threads[t]]
            && st'.threads[t].pc.Done? && st'.threads[t].op == st.threads[t].op
            && st'.threads[t].start == st.threads[t].start
            && st.hist <= st'.hist && st.events <= st'.events && OwnEvents(st'.events, |st.events|, t)
            && (st.threads[t].op.Resize? && !st.threads[t].pc.Done? ==> st'.threads[t].pc.result == 1)
    decreases Stages(r[|r| - 1], r[|r| - 1].threads[t]), SlotsLeft(r[|r| - 1], r[|r| - 1].threads[t])
  {
    hide Run, StateOk, Step, Shape, FreshResizer, Logged, Stages, SlotsLeft, Undisturbed, Nearer;
    r' := r;
    var st := r[|r| - 1];
    RunOk(r, |r| - 1);
    if st.threads[t].pc.Done? {
      assert st.threads[t := st.threads[t]] == st.threads;
    } else {
      var st1 := Step(st, t);
      StepIsOwn(st, t);
      StaysFresh(st, t);
      StepNearer(st, t);
      IsNearer(st, st1, t);
      LoggedThread(st, st1, t, EventOf(t, st.threads[t]));
      NobodyDisturbs(st, t);
      ThreadIsOk(st, t);
      if st.threads[t].op.Resize? { ResizeWins(st, t); }
      Appended(r, t);
      r' := GoesOnAlone(r + [st1], t);
      StepsJoin(r, st1, r', t);
    }
  }

  lemma IsNearer(st: State, st': State, t: nat)
    requires |st.tables| >= 1 && t in st.threads && Shape(st, st.threads[t]) && Nearer(st, st', t)
    requires t in st'.threads && Shape(st', st'.threads[t])
    ensures |st'.tables| >= 1
    ensures var th, th' := st.threads[t], st'.threads[t];
            || Stages(st', th') < Stages(st, th)
            || (Stages(st', th') == Stages(st, th) && SlotsLeft(st', th') < SlotsLeft(st, th))
  {
    hide Stages, SlotsLeft, Shape;
  }

  lemma StepsJoin(r: seq<State>, st1: State, r': seq<State>, t: nat)
    requires |r| > 0 && r + [st1] <= r' && OnlySteps(r', |r|, t) && MayStep(r[|r| - 1], t) && st1 == Step(r[|r| - 1], t)
    ensures OnlySteps(r', |r| - 1, t)
  {
    hide Step, MayStep;
    assert r'[|r| - 1] == r[|r| - 1] && r'[|r|] == st1;
  }

  // ------------------------------------------------------------------ what it answers

  /** If thread t has changed nothing, and only it has stepped, the map is what it was. */
  lemma {:induction false} NothingHappens(hist: seq<map<nat, nat>>, events: seq<Event>, a: nat, t: nat, i: nat)
    requires |hist| == |events| + 1 && a <= i < |hist|
    requires forall j :: 0 <= j < |events| ==> Effect(hist[j], events[j], hist[j + 1])
    requires OwnEvents(events, a, t) && forall j :: a <= j < i ==> !By(events[j], t)
    ensures hist[i] == hist[a]
    decreases i
  {
    if a < i {
      NothingHappens(hist, events, a, t, i - 1);
      assert events[i - 1].Internal?;
    }
  }

  lemma {:induction false} NothingAfter(hist: seq<map<nat, nat>>, events: seq<Event>, a: nat, t: nat, i: nat)
    requires |hist| == |events| + 1 && a <= i < |hist|
    requires forall j :: 0 <= j < |events| ==> Effect(hist[j], events[j], hist[j + 1])
    requires OwnEvents(events, a, t) && forall j :: i <= j < |events| ==> !By(events[j], t)
    ensures hist[|events|] == hist[i]
    decreases |events| - i
  {
    if i < |events| {
      NothingAfter(hist, events, a, t, i + 1);
      assert events[i].Internal?;
    }
  }

  /** The operation on the map. */
  ghost predicate Performs(m: map<nat, nat>, op: Op, m': map<nat, nat>, answer: nat)
  {
    match op
    case Put(k, v) => if k in m then m' == m && answer == 0 else m' == m[k := v] && answer == 1
    case Remove(k) => m' == m - {k} && answer == if k in m then m[k] else 0
    case Resize(_) => m' == m
  }

  lemma AnswerIsRight(hist: seq<map<nat, nat>>, events: seq<Event>, t: nat, th: Thread, r: nat)
    requires |hist| == |events| + 1 && th.start <= |events|
    requires forall j :: 0 <= j < |events| ==> Effect(hist[j], events[j], hist[j + 1])
    requires OwnEvents(events, th.start, t) && Explained(hist, events, t, th, r)
    requires forall k :: k in hist[th.start] ==> hist[th.start][k] != 0
    ensures Performs(hist[th.start], th.op, hist[|events|], r)
  {
    var a := th.start;
    if NoEventSince(events, a, t) {
      forall i | a <= i < |hist| ensures hist[i] == hist[a] { NothingHappens(hist, events, a, t, i); }
      if th.op.Remove? && th.op.k !in hist[a] { assert hist[a] - {th.op.k} == hist[a]; }
      NoneIsNotOne(events, a, t);
    } else {
      var e := if th.op.Put? then Inserted(t, th.op.k, th.op.v) else Removed(t, th.op.k, r);
      var i :| a <= i < |events| && events[i] == e && forall i' :: a <= i' < |events| && i' != i ==> !By(events[i'], t);
      NothingHappens(hist, events, a, t, i);
      NothingAfter(hist, events, a, t, i + 1);
      assert Effect(hist[i], events[i], hist[i + 1]);
    }
  }

  lemma NoneIsNotOne(events: seq<Event>, a: nat, t: nat)
    requires NoEventSince(events, a, t)
    ensures forall e :: By(e, t) ==> !OneEventSince(events, a, t, e)
  {
  }

  /** A call of op made by thread t. */
  function Called(st: State, t: nat, op: Op): State
  {
    st.(threads := st.threads[t := Thread(op, |st.events|, LoadHt)])
  }

  lemma CallsNext(r: seq<State>, t: nat, op: Op)
    requires |r| > 0 && Run(r) && GoodOp(op) && (t in r[|r| - 1].threads ==> r[|r| - 1].threads[t].pc.Done?)
    ensures Run(r + [Called(r[|r| - 1], t, op)])
  {
    var st := r[|r| - 1];
    var r' := r + [Called(st, t, op)];
    assert Next(st, Called(st, t, op)) by { hide Step, Shape; assert Invoke(st, t, op, Called(st, t, op)); }
    hide Next;
    forall i | 0 <= i < |r'| - 1 ensures Next(r'[i], r'[i + 1]) {
      if i < |r| - 1 { assert r'[i] == r[i] && r'[i + 1] == r[i + 1]; }
    }
  }

  ghost predicate AllRest(st: State) { forall u :: u in st.threads ==> st.threads[u].pc.Done? }

  /** While no operation is under way, a call ends when its thread steps alone, and performs the operation on the map:
      a put answers whether it has added its key, a remove the value that it has taken out, or zero, and a resize that
      it has been made. */
  lemma CallAlone(r: seq<State>, t: nat, op: Op) returns (r': seq<State>)
    requires |r| > 0 && Run(r) && GoodOp(op) && AllRest(r[|r| - 1])
    ensures Run(r') && r + [Called(r[|r| - 1], t, op)] <= r' && OnlySteps(r', |r|, t)
    ensures var st, st' := r[|r| - 1], r'[|r'| - 1];
            && AllRest(st') && t in st'.threads && st'.threads == st.threads[t := st'.threads[t]]
            && st'.threads[t].op == op && st'.threads[t].pc.Done?
            && Performs(st.contents, op, st'.contents, st'.threads[t].pc.result)
            && (op.Resize? ==> st'.threads[t].pc.result == 1)
  {
    hide Run, StateOk, Step, Shape, Performs, HistoryOk;
    var st := r[|r| - 1];
    var st1 := Called(st, t, op);
    CallsNext(r, t, op);
    var r1 := r + [st1];
    RunOk(r1, |r|);
    ThreadIsOk(st1, t);
    r' := GoesOnAlone(r1, t);
    var st' := r'[|r'| - 1];
    RunOk(r', |r'| - 1);
    RunHistory(r', |r'| - 1);
    ContentsAreLast(st1);
    ContentsAreLast(st');
    Answers(st', t);
  }

  lemma ContentsAreLast(st: State)
    requires StateOk(st)
    ensures |st.hist| == |st.events| + 1 && st.hist[|st.events|] == st.contents
    ensures forall k :: k in st.contents ==> st.contents[k] != 0
  {
    hide TablesOk, LocksOk, Represents, ResizerOk, ThreadsOk;
  }

  lemma Answers(st: State, t: nat)
    requires StateOk(st) && HistoryOk(st) && t in st.threads && st.threads[t].pc.Done?
    requires var a := st.threads[t].start; a <= |st.events| && a < |st.hist| && OwnEvents(st.events, a, t)
    requires forall k :: k in st.hist[st.threads[t].start] ==> st.hist[st.threads[t].start][k] != 0
    ensures Performs(st.hist[st.threads[t].start], st.threads[t].op, st.contents, st.threads[t].pc.result)
  {
    ContentsAreLast(st);
    hide StateOk, Effect, Explained, OwnEvents, Performs;
    assert Accounted(st, t);
    AnswerIsRight(st.hist, st.events, t, st.threads[t], st.threads[t].pc.result);
  }

  /** From any point of an operation, while no other is under way, it ends when its thread steps alone. */
  lemma OperationEndsAlone(r: seq<State>, t: nat) returns (r': seq<State>)
    requires |r| > 0 && Run(r) && OthersRest(r[|r| - 1], t) && FreshResizer(r[|r| - 1], r[|r| - 1].threads[t])
    ensures Run(r') && r <= r' && OnlySteps(r', |r| - 1, t)
    ensures t in r'[|r'| - 1].threads && r'[|r'| - 1].threads[t].pc.Done?
  {
    hide Run, StateOk, Step, Shape, FreshResizer;
    RunOk(r, |r| - 1);
    ThreadIsOk(r[|r| - 1], t);
    r' := GoesOnAlone(r, t);
  }

  // ------------------------------------------------------------------ what a resize answers, in any run

  /** The table that a resizer fills has the size that it has been asked for. */
  ghost predicate BuildSized(st: State)
  {
    forall u :: u in st.threads && Migrating(st.threads[u].pc) && st.threads[u].op.Resize? ==>
      |st.build| == st.threads[u].op.n
  }

  /** The step of another thread of a resizer's leaves the table alone that it fills. */
  lemma BuildStaysSized(st: State, t: nat)
    requires StateOk(st) && BuildSized(st) && MayStep(st, t)
    ensures BuildSized(Step(st, t))
  {
    hide StateOk, Step, StepTryLock, StepUnlock, StepWrite, StepResize, NextPc, Shape, BuildSized;
    ThreadIsOk(st, t);
    StepKinds(st, t);
    ShapeIsKnown(st, t);
    if Resizing(st.threads[t].pc) { ResizerBuilds(st, t); } else { OthersDoNotBuild(st, t); }
  }

  lemma OthersDoNotBuild(st: State, t: nat)
    requires BuildSized(st) && MayStep(st, t) && |st.tables| >= 1
    ensures var th := st.threads[t];
            && (Reading(th.pc) ==> BuildSized(Log(Goto(st, t, NextPc(st, th)), Internal)))
            && (th.pc.TryLock? ==> BuildSized(StepTryLock(st, t, th)))
            && (th.pc.Unlock? ==> BuildSized(StepUnlock(st, t, th)))
            && (Writing(th.pc) ==> BuildSized(StepWrite(st, t, th)))
  {
    hide BinOf, Home, SetSlot, SetLock, Link, At;
  }

  lemma ResizerBuilds(st: State, t: nat)
    requires StateOk(st) && BuildSized(st) && MayStep(st, t) && Resizing(st.threads[t].pc)
    ensures BuildSized(StepResize(st, t, st.threads[t]))
  {
    hide BinOf, Home, SetLock, At, PutSeq, TablesOk, LocksOk, Represents, ThreadsOk, BuildOk, CopyOk;
    if Active(st.threads[t].pc) || st.resizer.Nobody? { HolderAlone(st, t); }
  }

  /** While a resizer is at work, or takes the resize lock, no other is. */
  lemma HolderAlone(st: State, t: nat)
    requires StateOk(st) && t in st.threads && (Active(st.threads[t].pc) || st.resizer.Nobody?)
    ensures forall u :: u in st.threads && u != t ==> !Active(st.threads[u].pc)
  {
    hide TablesOk, LocksOk, Represents, ThreadsOk, BuildOk, CopyOk;
  }

  /** Thread t begins an operation. */
  ghost predicate Begins(st: State, t: nat, st': State) { exists op :: Invoke(st, t, op, st') }

  lemma CallsBuildNothing(st: State, t: nat, st': State)
    requires BuildSized(st) && Begins(st, t, st')
    ensures BuildSized(st')
  {
  }

  /** A step of a run is a call, or a step of one of the threads. */
  lemma StepOfRun(r: seq<State>, i: nat) returns (t: nat)
    requires Run(r) && i + 1 < |r|
    ensures Begins(r[i], t, r[i + 1]) || (MayStep(r[i], t) && r[i + 1] == Step(r[i], t))
  {
    hide Step, Shape, FreshResizer, Init, Invoke;
    var st, st' := r[i], r[i + 1];
    assert Next(st, st');
    if u, op :| Invoke(st, u, op, st') {
      t := u;
    } else {
      t :| t in st.threads && Shape(st, st.threads[t]) && !st.threads[t].pc.Done? && FreshResizer(st, st.threads[t])
          && st' == Step(st, t);
    }
  }

  lemma {:induction false} BuildIsSized(r: seq<State>, i: nat)
    requires Run(r) && i < |r|
    ensures BuildSized(r[i])
  {
    if i == 0 {
      assert Init(r[0]);
    } else {
      hide Run, StateOk, Step, MayStep, Begins, BuildSized;
      BuildIsSized(r, i - 1);
      RunOk(r, i - 1);
      var t := StepOfRun(r, i - 1);
      if Begins(r[i - 1], t, r[i]) {
        CallsBuildNothing(r[i - 1], t, r[i]);
      } else {
        BuildStaysSized(r[i - 1], t);
      }
    }
  }

  /** Step number j is the swap of thread t. */
  ghost predicate SwapsAt(r: seq<State>, j: nat, t: nat)
  {
    && j + 1 < |r| && t in r[j].threads && r[j].threads[t].pc.Swap? && t in r[j + 1].threads
    && r[j + 1].threads[t].pc.SetNew?
  }

  /** Step number j appends a table of n buckets to the published ones, and leaves the others alone. */
  ghost predicate PublishesAt(r: seq<State>, j: nat, n: nat)
  {
    j + 1 < |r| && |r[j + 1].tables| == |r[j].tables| + 1 && r[j].tables <= r[j + 1].tables
    && |r[j + 1].tables[|r[j].tables|]| == n
  }

  /** How often thread t has swapped from a to i, by its point: once after its swap, and not at all before. */
  ghost predicate SwappedSoFar(r: seq<State>, a: nat, i: nat, t: nat)
    requires i < |r| && t in r[i].threads
  {
    var pc := r[i].threads[t].pc;
    if pc.SetNew? || pc.ReleaseResize? || pc == Done(1) then SwappedOnce(r, a, i, t)
    else NeverSwapped(r, a, i, t) && (pc.Done? ==> pc.result == 0)
  }

  ghost predicate NeverSwapped(r: seq<State>, a: nat, i: nat, t: nat)
  {
    forall j: nat :: a <= j < i ==> !SwapsAt(r, j, t)
  }

  ghost predicate SwappedOnce(r: seq<State>, a: nat, i: nat, t: nat)
  {
    exists j: nat :: a <= j < i && SwapsAt(r, j, t) && forall j': nat :: a <= j' < i && j' != j ==> !SwapsAt(r, j', t)
  }

  /** Thread t is under way from a to before b with a resize to n buckets. */
  ghost predicate Resizes(r: seq<State>, a: nat, b: nat, t: nat, n: nat)
  {
    && a <= b < |r| && (forall i :: a <= i < b ==> t in r[i].threads && !r[i].threads[t].pc.Done?)
    && t in r[a].threads && r[a].threads[t].op == Resize(n) && r[a].threads[t].pc == LoadHt
  }

  /** What a step of a resize does to its point. */
  predicate ResizePc(pc: Pc, pc': Pc)
  {
    match pc
    case LoadHt => pc'.TakeResize?
    case TakeResize(_) => pc'.LockBin? || pc' == Done(0)
    case LockBin(_, _) => pc'.LockBin? || pc'.Copy? || pc'.Swap?
    case Copy(_, _, _) => pc'.Copy? || pc'.LockBin?
    case Swap(_) => pc'.SetNew?
    case SetNew(_) => pc'.ReleaseResize?
    case ReleaseResize => pc' == Done(1)
    case _ => false
  }

  lemma ResizeStepPc(st: State, t: nat)
    requires |st.tables| >= 1 && MayStep(st, t) && st.threads[t].op.Resize?
    ensures t in Step(st, t).threads && Step(st, t).threads[t].op == st.threads[t].op
    ensures ResizePc(st.threads[t].pc, Step(st, t).threads[t].pc)
    ensures st.threads[t].pc.Swap? ==> Step(st, t).tables == st.tables + [st.build]
  {
    hide BinOf, Home, SetLock, At, PutSeq, NewTable;
  }

  /** Between two states of a run the point of a resizer is the same, or its own step has changed it. */
  lemma ResizerPc(r: seq<State>, i: nat, t: nat)
    requires Run(r) && i + 1 < |r| && t in r[i].threads && r[i].threads[t].op.Resize? && !r[i].threads[t].pc.Done?
    ensures t in r[i + 1].threads && r[i + 1].threads[t].op == r[i].threads[t].op
    ensures r[i + 1].threads[t].pc == r[i].threads[t].pc || ResizePc(r[i].threads[t].pc, r[i + 1].threads[t].pc)
    ensures SwapsAt(r, i, t) ==> r[i + 1].tables == r[i].tables + [r[i].build]
  {
    hide Run, StateOk, Step, Shape, FreshResizer, Logged;
    RunOk(r, i);
    var st, st' := r[i], r[i + 1];
    ThreadIsOk(st, t);
    var u := StepOfRun(r, i);
    if Begins(st, u, st') {
      assert u != t;
    } else if u == t {
      ResizeStepPc(st, t);
    } else {
      StepIsOwn(st, u);
      LoggedThread(st, st', u, EventOf(u, st.threads[u]));
    }
  }

  lemma {:induction false} SwapsAreCounted(r: seq<State>, a: nat, b: nat, t: nat, n: nat, i: nat)
    requires Run(r) && Resizes(r, a, b, t, n) && a <= i <= b < |r|
    ensures t in r[i].threads && r[i].threads[t].op == Resize(n) && SwappedSoFar(r, a, i, t)
    decreases i
  {
    hide Run, SwapsAt;
    if a < i {
      SwapsAreCounted(r, a, b, t, n, i - 1);
      ResizerPc(r, i - 1, t);
      OneMoreCounted(r, a, i - 1, t);
    }
  }

  lemma OneMoreCounted(r: seq<State>, a: nat, i: nat, t: nat)
    requires a <= i && i + 1 < |r| && t in r[i].threads && t in r[i + 1].threads && !r[i].threads[t].pc.Done?
    requires r[i + 1].threads[t].pc == r[i].threads[t].pc || ResizePc(r[i].threads[t].pc, r[i + 1].threads[t].pc)
    requires SwappedSoFar(r, a, i, t)
    ensures SwappedSoFar(r, a, i + 1, t)
  {
    hide SwapsAt, SwappedOnce, NeverSwapped;
    SwapsNow(r, i, t);
    var pc, pc' := r[i].threads[t].pc, r[i + 1].threads[t].pc;
    if pc.SetNew? || pc.ReleaseResize? {
      OnceStays(r, a, i, t);
    } else if SwapsAt(r, i, t) {
      NowOnce(r, a, i, t);
    } else {
      NeverStays(r, a, i, t);
    }
  }

  lemma SwapsNow(r: seq<State>, i: nat, t: nat)
    requires i + 1 < |r| && t in r[i].threads && t in r[i + 1].threads
    ensures SwapsAt(r, i, t) <==> r[i].threads[t].pc.Swap? && r[i + 1].threads[t].pc.SetNew?
  {
  }

  lemma OnceStays(r: seq<State>, a: nat, i: nat, t: nat)
    requires SwappedOnce(r, a, i, t) && !SwapsAt(r, i, t)
    ensures SwappedOnce(r, a, i + 1, t)
  {
    hide SwapsAt;
    var j: nat :| a <= j < i && SwapsAt(r, j, t) && forall j': nat :: a <= j' < i && j' != j ==> !SwapsAt(r, j', t);
    forall j': nat | a <= j' < i + 1 && j' != j ensures !SwapsAt(r, j', t) { if j' < i {} }
  }

  lemma NowOnce(r: seq<State>, a: nat, i: nat, t: nat)
    requires a <= i && NeverSwapped(r, a, i, t) && SwapsAt(r, i, t)
    ensures SwappedOnce(r, a, i + 1, t)
  {
    hide SwapsAt;
  }

  lemma NeverStays(r: seq<State>, a: nat, i: nat, t: nat)
    requires NeverSwapped(r, a, i, t) && !SwapsAt(r, i, t)
    ensures NeverSwapped(r, a, i + 1, t)
  {
    hide SwapsAt;
  }

  /** In any run, a resize that is over has answered 1 or 0: 1 exactly if it has published a table, which it has done
      once, and the table has as many buckets as it was asked for. */
  lemma ResizeAnswers(r: seq<State>, a: nat, b: nat, t: nat, n: nat)
    requires Run(r) && Resizes(r, a, b, t, n) && t in r[b].threads && r[b].threads[t].pc.Done?
    ensures var answer := r[b].threads[t].pc.result;
            && (answer == 0 || answer == 1)
            && (answer == 1 ==> SwappedOnce(r, a, b, t)) && (answer == 0 ==> NeverSwapped(r, a, b, t))
    ensures forall j: nat :: a <= j < b && SwapsAt(r, j, t) ==> PublishesAt(r, j, n)
  {
    hide Run, SwapsAt, SwappedOnce, NeverSwapped;
    SwapsAreCounted(r, a, b, t, n, b);
    forall j: nat | a <= j < b && SwapsAt(r, j, t) ensures PublishesAt(r, j, n) {
      SwapsAreCounted(r, a, b, t, n, j);
      ResizerPc(r, j, t);
      BuildIsSized(r, j);
      SwapsOwnBuild(r, j, t, n);
    }
  }

  lemma SwapsOwnBuild(r: seq<State>, j: nat, t: nat, n: nat)
    requires SwapsAt(r, j, t) && r[j].threads[t].op == Resize(n) && BuildSized(r[j])
    requires r[j + 1].tables == r[j].tables + [r[j].build]
    ensures PublishesAt(r, j, n)
  {
  }
}
