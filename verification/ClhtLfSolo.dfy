/** What an operation on the lock-free bucket does when its thread steps alone: it answers within a fixed number of
    steps, as the operation on the map does.  The one exception is a put of a new key into a bucket that has no unused
    slot, which goes on for ever. */
module ClhtLfSolo {
  import opened History
  import opened ClhtLf
  import opened ClhtLfProof

  /** The bucket and the thread after n steps of the thread and none of others. */
  function Alone(b: Bucket, t: nat, th: Thread, n: nat): (Bucket, Thread)
    decreases n
  {
    if n == 0 || !Shape(b) || !ThreadShape(th) || th.pc.Done? then (b, th)
    else var o := Step(b, t, th); Alone(o.b, t, o.th, n - 1)
  }

  lemma {:induction false} AloneAdds(b: Bucket, t: nat, th: Thread, m: nat, n: nat)
    ensures Alone(b, t, th, m + n) == Alone(Alone(b, t, th, m).0, t, Alone(b, t, th, m).1, n)
    decreases m
  {
    hide Step;
    if m == 0 {
    } else if !Shape(b) || !ThreadShape(th) || th.pc.Done? {
      Stays(b, t, th, n);
    } else {
      var o := Step(b, t, th);
      AloneAdds(o.b, t, o.th, m - 1, n);
    }
  }

  lemma Stays(b: Bucket, t: nat, th: Thread, n: nat)
    requires n == 0 || !Shape(b) || !ThreadShape(th) || th.pc.Done?
    ensures Alone(b, t, th, n) == (b, th)
  {
  }

  /** The thread gets from one point to the other in n steps, and from there to the next. */
  lemma Then(b: Bucket, t: nat, th: Thread, m: nat, b': Bucket, th': Thread, n: nat, b'': Bucket, th'': Thread)
    requires Alone(b, t, th, m) == (b', th') && Alone(b', t, th', n) == (b'', th'')
    ensures Alone(b, t, th, m + n) == (b'', th'')
  {
    hide Alone;
    AloneAdds(b, t, th, m, n);
  }

  /** A run may go on with n steps of thread t alone. */
  lemma {:induction false} RunsAlone(r: seq<State>, t: nat, n: nat) returns (r': seq<State>)
    requires |r| > 0 && Run(r) && t in r[|r| - 1].threads
    ensures |r'| > 0 && Run(r') && r <= r' && |r'| <= |r| + n
    ensures var st, st' := r[|r| - 1], r'[|r'| - 1];
            st'.b == Alone(st.b, t, st.threads[t], n).0
            && st'.threads == st.threads[t := Alone(st.b, t, st.threads[t], n).1]
    decreases n
  {
    hide Step, Run;
    r' := r;
    var st := r[|r| - 1];
    if n > 0 && CanStep(st, t) {
      OneMore(r, t);
      r' := RunsAlone(r + [StepThread(st, t)], t, n - 1);
    } else {
      assert st.threads[t := st.threads[t]] == st.threads;
    }
  }

  lemma OneMore(r: seq<State>, t: nat)
    requires Run(r) && CanStep(r[|r| - 1], t)
    ensures Run(r + [StepThread(r[|r| - 1], t)])
  {
    var st := r[|r| - 1];
    assert Next(st, StepThread(st, t));
    hide Next, Step;
    var r' := r + [StepThread(st, t)];
    forall i | 0 <= i < |r'| - 1 ensures Next(r'[i], r'[i + 1]) {
      if i < |r| - 1 { assert r'[i] == r[i] && r'[i + 1] == r[i + 1]; }
    }
  }

  // ------------------------------------------------------------------ the search

  lemma First(b: Bucket, t: nat, th: Thread, n: nat, b': Bucket, th': Thread)
    requires Shape(b) && ThreadShape(th) && !th.pc.Done? && Step(b, t, th).b == b' && Step(b, t, th).th == th'
    ensures Alone(b, t, th, n + 1) == Alone(b', t, th', n)
  {
    hide Step;
  }

  /** Where a thread is after reading slot i in a search that began at th: it has found its key, or goes on. */
  function AfterSlot(b: Bucket, th: Thread, i: nat): Thread
    requires ThreadShape(th)
  {
    if Valid(b, i) && b.key[i] == th.op.k then Found(b, th, b.val[i]).th else NextSlot(b, th, i).th
  }

  lemma OneSlot(b: Bucket, t: nat, th: Thread, i: nat) returns (n: nat)
    requires Sound(b) && ThreadShape(th) && th.pc == SearchVal(i)
    ensures 2 <= n <= 4 && Alone(b, t, th, n) == (b, AfterSlot(b, th, i))
  {
    hide Alone;
    var v := b.val[i];
    var th1, th2, th3 := th.(pc := SearchMap(i, v)), th.(pc := SearchKey(i, v)), th.(pc := SearchChk(i, v));
    Stays(b, t, AfterSlot(b, th, i), 0);
    n := if !Valid(b, i) then 2 else if b.key[i] != th.op.k then 3 else 4;
    First(b, t, th, n - 1, b, th1);
    if n == 2 {
      First(b, t, th1, 0, b, AfterSlot(b, th, i));
    } else {
      First(b, t, th1, n - 2, b, th2);
      if n == 3 {
        First(b, t, th2, 0, b, AfterSlot(b, th, i));
      } else {
        First(b, t, th2, 1, b, th3);
        First(b, t, th3, 0, b, AfterSlot(b, th, i));
      }
    }
  }

  /** Where a search from slot i on ends: it has found the key, or it has not. */
  function SearchEnd(b: Bucket, th: Thread, i: nat): Thread
    requires ThreadShape(th)
    decreases SLOTS - i
  {
    if i >= SLOTS then NotFound(b, th).th
    else if Valid(b, i) && b.key[i] == th.op.k then Found(b, th, b.val[i]).th
    else SearchEnd(b, th, i + 1)
  }

  lemma {:induction false} SearchAlone(b: Bucket, t: nat, th: Thread, i: nat) returns (n: nat)
    requires Sound(b) && ThreadShape(th) && i < SLOTS && th.pc == SearchVal(i)
    ensures n <= 4 * (SLOTS - i) && Alone(b, t, th, n) == (b, SearchEnd(b, th, i))
    decreases SLOTS - i
  {
    hide Alone;
    n := OneSlot(b, t, th, i);
    if !(Valid(b, i) && b.key[i] == th.op.k) && i + 1 < SLOTS {
      var th' := th.(pc := SearchVal(i + 1));
      SamePlaceEnd(b, th, th', i + 1);
      var m := SearchAlone(b, t, th', i + 1);
      Then(b, t, th, n, b, th', m, b, SearchEnd(b, th', i + 1));
      n := n + m;
    }
  }

  lemma {:induction false} SamePlaceEnd(b: Bucket, th: Thread, th': Thread, i: nat)
    requires ThreadShape(th) && ThreadShape(th') && th' == th.(pc := th'.pc)
    ensures SearchEnd(b, th, i) == SearchEnd(b, th', i)
    decreases SLOTS - i
  {
    if i < SLOTS { SamePlaceEnd(b, th, th', i + 1); }
  }

  /** The search finds exactly what is bound. */
  lemma SearchDecides(b: Bucket, th: Thread)
    requires Sound(b) && ThreadShape(th)
    ensures SearchEnd(b, th, 0) ==
              if th.op.k in Abs(b) then Found(b, th, Abs(b)[th.op.k]).th else NotFound(b, th).th
  {
    hide Found, NotFound, Abs;
    AbsHas(b, th.op.k);
    if Valid(b, 0) { AbsAt(b, 0); }
    if Valid(b, 1) { AbsAt(b, 1); }
    if Valid(b, 2) { AbsAt(b, 2); }
    assert SearchEnd(b, th, 3) == NotFound(b, th).th;
    assert SearchEnd(b, th, 2) == if Valid(b, 2) && b.key[2] == th.op.k then Found(b, th, b.val[2]).th
                                  else SearchEnd(b, th, 3);
    assert SearchEnd(b, th, 1) == if Valid(b, 1) && b.key[1] == th.op.k then Found(b, th, b.val[1]).th
                                  else SearchEnd(b, th, 2);
  }

  lemma WholeSearch(b: Bucket, t: nat, th: Thread) returns (n: nat)
    requires Sound(b) && ThreadShape(th) && th.pc == SearchVal(0)
    ensures n <= 12
    ensures Alone(b, t, th, n) ==
              (b, if th.op.k in Abs(b) then Found(b, th, Abs(b)[th.op.k]).th else NotFound(b, th).th)
  {
    hide Alone, Found, NotFound, Abs, SearchEnd;
    n := SearchAlone(b, t, th, 0);
    SearchDecides(b, th);
  }

  // ------------------------------------------------------------------ get and remove

  /** What the map has for k, 0 for nothing. */
  ghost function Lookup(b: Bucket, k: nat): nat
    requires Sound(b)
  {
    if k in Abs(b) then Abs(b)[k] else 0
  }

  lemma GetAlone(b: Bucket, t: nat, th: Thread) returns (n: nat)
    requires Sound(b) && ThreadShape(th) && th.op.Get? && th.pc == SearchVal(0)
    ensures n <= 12 && Alone(b, t, th, n) == (b, th.(pc := Done(Lookup(b, th.op.k))))
  {
    hide Alone, Abs;
    n := WholeSearch(b, t, th);
  }

  /** A remove reads the word and looks for its key, slot by slot. */
  lemma {:induction false} RemoveScan(b: Bucket, t: nat, th: Thread, i: nat) returns (n: nat, b': Bucket, r: nat)
    requires Sound(b) && ThreadShape(th) && th.op.Remove? && i < SLOTS && th.pc == RemKey(i) && th.s == b.snap
    requires forall m :: 0 <= m < i && Valid(b, m) ==> b.key[m] != th.op.k
    ensures n <= 5 - i && r == Lookup(b, th.op.k) && Sound(b') && Abs(b') == Abs(b) - {th.op.k}
    ensures Alone(b, t, th, n) == (b', th.(pc := Done(r)))
    decreases SLOTS - i
  {
    hide Alone, Abs;
    AbsHas(b, th.op.k);
    if Valid(b, i) && b.key[i] == th.op.k {
      n, b', r := RemoveTakes(b, t, th, i);
    } else if i + 1 < SLOTS {
      var th' := th.(pc := RemKey(i + 1));
      var m;
      m, b', r := RemoveScan(b, t, th', i + 1);
      First(b, t, th, m, b, th');
      n := m + 1;
    } else {
      b', r, n := b, 0, 1;
      First(b, t, th, 0, b, th.(pc := Done(0)));
      Stays(b, t, th.(pc := Done(0)), 0);
      assert Abs(b) - {th.op.k} == Abs(b);
    }
  }

  lemma RemoveTakes(b: Bucket, t: nat, th: Thread, i: nat) returns (n: nat, b': Bucket, r: nat)
    requires Sound(b) && ThreadShape(th) && th.op.Remove? && th.pc == RemKey(i) && th.s == b.snap
    requires Valid(b, i) && b.key[i] == th.op.k
    ensures n == 3 && r == Lookup(b, th.op.k) && Sound(b') && Abs(b') == Abs(b) - {th.op.k}
    ensures Alone(b, t, th, n) == (b', th.(pc := Done(r)))
  {
    hide Alone, Abs;
    var th1, th2 := th.(pc := RemVal(i)), th.(pc := RemCas(i, b.val[i]));
    b', r, n := b.(snap := SnapSetMap(b.snap, i, INVLD)), b.val[i], 3;
    AbsAt(b, i);
    DropSlot(b, b', i);
    Stays(b', t, th.(pc := Done(r)), 0);
    First(b, t, th, 2, b, th1);
    First(b, t, th1, 1, b, th2);
    First(b, t, th2, 0, b', th.(pc := Done(r)));
  }

  lemma RemoveAlone(b: Bucket, t: nat, th: Thread) returns (n: nat, b': Bucket, th': Thread)
    requires Sound(b) && ThreadShape(th) && th.op.Remove? && th.pc == ReadSnap
    ensures n <= 6 && Alone(b, t, th, n) == (b', th') && Sound(b') && Abs(b') == Abs(b) - {th.op.k}
    ensures th'.op == th.op && th'.pc == Done(Lookup(b, th.op.k))
  {
    hide Alone, Abs;
    var th1 := th.(s := b.snap, pc := RemKey(0));
    var m, r;
    m, b', r := RemoveScan(b, t, th1, 0);
    First(b, t, th, m, b, th1);
    n, th' := m + 1, th1.(pc := Done(r));
  }

  // ------------------------------------------------------------------ put

  predicate HasRoom(b: Bucket) { Shape(b) && exists i :: 0 <= i < SLOTS && b.snap.marks[i] == INVLD }

  /** What a put owns is as it has left it. */
  predicate Ready(b: Bucket, th: Thread)
  {
    && Shape(b) && ThreadShape(th) && th.op.Put? && th.op.v != 0 && th.pc == ReadSnap
    && (th.ei >= 0 ==> b.snap.marks[th.ei] == INSRT && b.val[th.ei] == th.op.v && b.key[th.ei] == th.op.k)
  }

  /** The put finds its key. */
  lemma PutFindsKey(b: Bucket, t: nat, th: Thread) returns (n: nat, b': Bucket, th': Thread)
    requires Sound(b) && Ready(b, th) && th.op.k in Abs(b)
    ensures n <= 14 && Alone(b, t, th, n) == (b', th') && Sound(b') && Abs(b') == Abs(b)
    ensures th'.op == th.op && th'.pc == Done(0)
  {
    hide Alone, Abs;
    var th1 := th.(s := b.snap, pc := SearchVal(0));
    var m := WholeSearch(b, t, th1);
    First(b, t, th, m, b, th1);
    if th.ei < 0 {
      n, b', th' := m + 1, b, th1.(pc := Done(0));
    } else {
      var th2 := th1.(pc := AbortStore);
      b', th' := b.(snap := SnapSetMap(b.snap, th.ei, INVLD)), th1.(pc := Done(0));
      First(b, t, th2, 0, b', th');
      Stays(b', t, th', 0);
      Then(b, t, th, m + 1, b, th2, 1, b', th');
      n := m + 2;
      SameAbs(b, b');
    }
  }

  /** The put has a slot of its own already, and commits it. */
  lemma PutCommits(b: Bucket, t: nat, th: Thread) returns (b': Bucket)
    requires Sound(b) && ThreadShape(th) && th.op.Put? && th.op.v != 0 && th.pc == Cas2 && th.s == b.snap
    requires b.snap.marks[th.ei] == INSRT && b.val[th.ei] == th.op.v && b.key[th.ei] == th.op.k
    requires th.op.k !in Abs(b)
    ensures Alone(b, t, th, 1) == (b', th.(pc := Done(1))) && Sound(b') && Abs(b') == Abs(b)[th.op.k := th.op.v]
  {
    hide Alone, Abs;
    b' := b.(snap := SnapSetMapAndIncVersion(b.snap, th.ei, VALID));
    AbsHas(b, th.op.k);
    AddSlot(b, b', th.ei);
    First(b, t, th, 0, b', th.(pc := Done(1)));
    Stays(b', t, th.(pc := Done(1)), 0);
  }

  /** The put takes an unused slot, fills it and commits it. */
  lemma PutFills(b: Bucket, t: nat, th: Thread) returns (b': Bucket, th': Thread)
    requires Sound(b) && ThreadShape(th) && th.op.Put? && th.op.v != 0 && th.pc == Cas1 && th.s == b.snap
    requires b.snap.marks[th.ei] == INVLD && th.op.k !in Abs(b)
    ensures Alone(b, t, th, 4) == (b', th') && Sound(b') && Abs(b') == Abs(b)[th.op.k := th.op.v]
    ensures th'.op == th.op && th'.pc == Done(1)
  {
    hide Alone, Abs;
    var s1 := SnapSetMap(b.snap, th.ei, INSRT);
    var b1, th1 := b.(snap := s1), th.(s := s1, pc := StoreVal);
    var b2, th2 := b1.(val := b1.val[th.ei := th.op.v]), th1.(pc := StoreKey);
    var b3, th3 := b2.(key := b2.key[th.ei := th.op.k]), th1.(pc := Cas2);
    First(b, t, th, 3, b1, th1);
    First(b1, t, th1, 2, b2, th2);
    First(b2, t, th2, 1, b3, th3);
    SameAbs(b, b3);
    b' := PutCommits(b3, t, th3);
    th' := th3.(pc := Done(1));
  }

  lemma PutAdds(b: Bucket, t: nat, th: Thread) returns (n: nat, b': Bucket, th': Thread)
    requires Sound(b) && Ready(b, th) && th.op.k !in Abs(b) && (th.ei >= 0 || HasRoom(b))
    ensures n <= 17 && Alone(b, t, th, n) == (b', th') && Sound(b') && Abs(b') == Abs(b)[th.op.k := th.op.v]
    ensures th'.op == th.op && th'.pc == Done(1)
  {
    hide Alone, Abs;
    var th1 := th.(s := b.snap, pc := SearchVal(0));
    var m := WholeSearch(b, t, th1);
    First(b, t, th, m, b, th1);
    var th2 := NotFound(b, th1).th;
    if th.ei < 0 {
      b', th' := PutFills(b, t, th2);
      Then(b, t, th, m + 1, b, th2, 4, b', th');
      n := m + 5;
    } else {
      assert b.snap.marks[th.ei := INSRT] == b.snap.marks;
      b' := PutCommits(b, t, th2);
      th' := th2.(pc := Done(1));
      Then(b, t, th, m + 1, b, th2, 1, b', th');
      n := m + 2;
    }
  }

  /** Without an unused slot, and without one of its own, the put of a new key begins again. */
  lemma PutBeginsAgain(b: Bucket, t: nat, th: Thread) returns (n: nat, th': Thread)
    requires Sound(b) && Ready(b, th) && th.op.k !in Abs(b) && th.ei < 0 && !HasRoom(b)
    ensures n > 0 && Alone(b, t, th, n) == (b, th') && Ready(b, th') && th'.op == th.op && th'.ei < 0
  {
    hide Alone, Abs;
    var th1 := th.(s := b.snap, pc := SearchVal(0));
    var m := WholeSearch(b, t, th1);
    First(b, t, th, m, b, th1);
    n, th' := m + 1, NotFound(b, th1).th;
  }

  lemma {:induction false} PutNeverAnswers(b: Bucket, t: nat, th: Thread, n: nat)
    requires Sound(b) && Ready(b, th) && th.op.k !in Abs(b) && th.ei < 0 && !HasRoom(b)
    ensures !Alone(b, t, th, n).1.pc.Done?
    decreases n
  {
    hide Alone, Abs;
    var m, th' := PutBeginsAgain(b, t, th);
    if n < m {
      AloneAdds(b, t, th, n, m - n);
      if Alone(b, t, th, n).1.pc.Done? { Stays(Alone(b, t, th, n).0, t, Alone(b, t, th, n).1, m - n); }
    } else {
      AloneAdds(b, t, th, m, n - m);
      PutNeverAnswers(b, t, th', n - m);
    }
  }

  // ------------------------------------------------------------------ an operation that is under way

  /** How many steps a thread may take before it answers or begins again. */
  function StepsLeft(pc: Pc): nat
  {
    match pc
    case SearchVal(i) => if i < SLOTS then 20 - 4 * i else 0
    case SearchMap(i, _) => if i < SLOTS then 19 - 4 * i else 0
    case SearchKey(i, _) => if i < SLOTS then 18 - 4 * i else 0
    case SearchChk(i, _) => if i < SLOTS then 17 - 4 * i else 0
    case ReadSnap => 0
    case AbortStore => 1
    case Cas1 => 4
    case StoreVal => 3
    case StoreKey => 2
    case Cas2 => 1
    case RemKey(i) => if i < SLOTS then 5 - i else 0
    case RemVal(_) => 2
    case RemCas(_, _) => 1
    case Done(_) => 0
  }

  lemma StepsGetFewer(b: Bucket, t: nat, th: Thread)
    requires Shape(b) && ThreadShape(th) && !th.pc.Done? && !th.pc.ReadSnap?
    ensures StepsLeft(th.pc) > 0 && StepsLeft(Step(b, t, th).th.pc) < StepsLeft(th.pc)
  {
  }

  lemma {:induction false} AnswersOrBeginsAgain(b: Bucket, t: nat, th: Thread) returns (n: nat)
    requires Shape(b) && ThreadShape(th)
    ensures n <= StepsLeft(th.pc) <= 20
    ensures var c := Alone(b, t, th, n); c.1.op == th.op && (c.1.pc.Done? || c.1.pc.ReadSnap?)
    decreases StepsLeft(th.pc)
  {
    n := 0;
    if !th.pc.Done? && !th.pc.ReadSnap? {
      StepsGetFewer(b, t, th);
      StepShape(b, t, th);
      hide Step;
      var o := Step(b, t, th);
      n := AnswersOrBeginsAgain(o.b, t, o.th);
      First(b, t, th, n, o.b, o.th);
      n := n + 1;
    }
  }

  // ------------------------------------------------------------------ the theorems

  /** A call of op made by thread t. */
  function Called(st: State, t: nat, op: Op): State
  {
    st.(threads := st.threads[t := Thread(op, |st.events|, -2, EMPTY.snap, if op.Get? then SearchVal(0) else ReadSnap)],
        used := if op.Put? then st.used + {op.v} else st.used,
        distinct := st.distinct && (op.Put? ==> op.v !in st.used))
  }

  lemma CallsNext(r: seq<State>, t: nat, op: Op)
    requires |r| > 0 && Run(r) && (op.Put? ==> op.v != 0)
    requires t in r[|r| - 1].threads ==> r[|r| - 1].threads[t].pc.Done?
    ensures Run(r + [Called(r[|r| - 1], t, op)])
  {
    var st := r[|r| - 1];
    assert Invoke(st, t, op, Called(st, t, op));
    hide Next;
    var r' := r + [Called(st, t, op)];
    assert Next(st, Called(st, t, op)) by { InvokeIsNext(st, t, op, Called(st, t, op)); }
    forall i | 0 <= i < |r'| - 1 ensures Next(r'[i], r'[i + 1]) {
      if i < |r| - 1 { assert r'[i] == r[i] && r'[i + 1] == r[i + 1]; }
    }
  }

  lemma InvokeIsNext(st: State, t: nat, op: Op, st': State)
    requires Invoke(st, t, op, st')
    ensures Next(st, st')
  {
  }

  /** The operation on the map. */
  ghost predicate Performs(b: Bucket, op: Op, b': Bucket, answer: nat)
    requires Sound(b) && Sound(b')
  {
    var k := op.k;
    match op
    case Get(_) => Abs(b') == Abs(b) && answer == Lookup(b, k)
    case Put(_, v) => if k in Abs(b) then Abs(b') == Abs(b) && answer == 0 else Abs(b') == Abs(b)[k := v] && answer == 1
    case Remove(_) => Abs(b') == Abs(b) - {k} && answer == Lookup(b, k)
  }

  /** The next attempt of a put cannot succeed, and will not find its key: it is new, no slot is unused, and the put has
      none of its own. */
  ghost predicate NoWay(b: Bucket, th: Thread)
    requires Sound(b)
  {
    th.op.Put? && th.ei < 0 && th.op.k !in Abs(b) && !HasRoom(b)
  }

  /** In any state of any run, whatever the other threads are in the middle of: an operation at the beginning of an
      attempt, with its thread stepping alone, performs the operation on the map within 17 steps, unless there is no
      way. */
  lemma AttemptAlone(b: Bucket, t: nat, th: Thread) returns (n: nat, b': Bucket, th': Thread)
    requires Sound(b) && ThreadShape(th) && (th.op.Put? ==> Ready(b, th)) && !NoWay(b, th)
    requires th.pc == if th.op.Get? then SearchVal(0) else ReadSnap
    ensures n <= 17 && Alone(b, t, th, n) == (b', th') && th'.op == th.op && th'.pc.Done?
    ensures Sound(b') && Performs(b, th.op, b', th'.pc.result)
  {
    hide Alone, Abs, Ready, HasRoom;
    match th.op
    case Get(_) =>
      n := GetAlone(b, t, th);
      b', th' := b, th.(pc := Done(Lookup(b, th.op.k)));
    case Put(_, _) =>
      if th.op.k in Abs(b) { n, b', th' := PutFindsKey(b, t, th); } else { n, b', th' := PutAdds(b, t, th); }
    case Remove(_) =>
      n, b', th' := RemoveAlone(b, t, th);
  }

  lemma ReadyInRun(r: seq<State>, i: nat, t: nat)
    requires Run(r) && i < |r| && t in r[i].threads && r[i].threads[t].op.Put? && r[i].threads[t].pc == ReadSnap
    ensures Sound(r[i].b) && Ready(r[i].b, r[i].threads[t])
  {
    RunOk(r, i);
    hide Run;
    assert ThreadOk(r[i], t, r[i].threads[t]);
  }

  lemma SoundInRun(r: seq<State>, i: nat)
    requires Run(r) && i < |r|
    ensures Sound(r[i].b) && forall t :: t in r[i].threads ==> ThreadShape(r[i].threads[t])
  {
    RunOk(r, i);
    hide Run, Sound;
    forall t | t in r[i].threads ensures ThreadShape(r[i].threads[t]) { assert ThreadOk(r[i], t, r[i].threads[t]); }
  }

  /** From any state of any run, a call whose thread steps alone performs the operation on the map within 17 steps:
      a get and a remove answer the bound value or zero, a put answers whether it has added its key.  Only a put of a
      new key needs an unused slot. */
  lemma CallAlone(r: seq<State>, t: nat, op: Op) returns (r': seq<State>)
    requires |r| > 0 && Run(r) && (op.Put? ==> op.v != 0)
    requires t in r[|r| - 1].threads ==> r[|r| - 1].threads[t].pc.Done?
    requires Sound(r[|r| - 1].b) && (op.Put? && op.k !in Abs(r[|r| - 1].b) ==> HasRoom(r[|r| - 1].b))
    ensures Run(r') && r + [Called(r[|r| - 1], t, op)] <= r' && |r'| <= |r| + 1 + 17
    ensures var st, st' := r[|r| - 1], r'[|r'| - 1];
            && Sound(st'.b) && t in st'.threads && st'.threads == st.threads[t := st'.threads[t]]
            && st'.threads[t].op == op && st'.threads[t].pc.Done?
            && Performs(st.b, op, st'.b, st'.threads[t].pc.result)
  {
    hide Run, Alone, Abs, HasRoom, Performs;
    var st := r[|r| - 1];
    var st1 := Called(st, t, op);
    CallsNext(r, t, op);
    SoundInRun(r + [st1], |r|);
    if op.Put? { ReadyInRun(r + [st1], |r|, t); }
    var n, b', th' := AttemptAlone(st.b, t, st1.threads[t]);
    r' := RunsAlone(r + [st1], t, n);
  }

  /** Without one the put never answers, however long its thread steps alone. */
  lemma PutNeedsRoom(r: seq<State>, t: nat, op: Op, n: nat) returns (r': seq<State>)
    requires |r| > 0 && Run(r) && (t in r[|r| - 1].threads ==> r[|r| - 1].threads[t].pc.Done?) && op.Put? && op.v != 0
    requires Sound(r[|r| - 1].b) && op.k !in Abs(r[|r| - 1].b) && !HasRoom(r[|r| - 1].b)
    ensures Run(r') && r + [Called(r[|r| - 1], t, op)] <= r'
    ensures var st, st' := r[|r| - 1], r'[|r'| - 1];
            && t in st'.threads && !st'.threads[t].pc.Done?
            && (st'.b, st'.threads[t]) == Alone(st.b, t, Called(st, t, op).threads[t], n)
  {
    hide Run, Alone, Abs, HasRoom;
    var st := r[|r| - 1];
    var st1 := Called(st, t, op);
    CallsNext(r, t, op);
    ReadyInRun(r + [st1], |r|, t);
    PutNeverAnswers(st.b, t, st1.threads[t], n);
    r' := RunsAlone(r + [st1], t, n);
  }

  /** From any point of an operation, with its thread stepping alone, it has answered after at most 37 steps, or it is
      a put that has no way. */
  lemma OperationEndsAlone(r: seq<State>, t: nat) returns (r': seq<State>)
    requires |r| > 0 && Run(r) && t in r[|r| - 1].threads
    ensures |r'| > 0 && Run(r') && r <= r' && |r'| <= |r| + 37
    ensures var st, st' := r[|r| - 1], r'[|r'| - 1];
            && Sound(st'.b) && t in st'.threads && st'.threads == st.threads[t := st'.threads[t]]
            && st'.threads[t].op == st.threads[t].op
            && (st'.threads[t].pc.Done? || NoWay(st'.b, st'.threads[t]))
  {
    hide Run, Alone, Abs, HasRoom, StepsLeft;
    var st := r[|r| - 1];
    SoundInRun(r, |r| - 1);
    var n := AnswersOrBeginsAgain(st.b, t, st.threads[t]);
    var r1 := RunsAlone(r, t, n);
    var st1 := r1[|r1| - 1];
    SoundInRun(r1, |r1| - 1);
    r' := r1;
    if !st1.threads[t].pc.Done? && !NoWay(st1.b, st1.threads[t]) {
      if st1.threads[t].op.Put? { ReadyInRun(r1, |r1| - 1, t); }
      ShapeOfAttempt(st1.threads[t]);
      var m, b', th' := AttemptAlone(st1.b, t, st1.threads[t]);
      r' := RunsAlone(r1, t, m);
    }
  }

  lemma ShapeOfAttempt(th: Thread)
    requires ThreadShape(th) && th.pc == ReadSnap
    ensures !th.op.Get?
  {
  }

  ghost predicate OthersRest(st: State, t: nat)
  {
    forall u :: u in st.threads && u != t ==> st.threads[u].pc.Done?
  }

  /** While nobody else is under way, a put of a new key lacks an unused slot only if all three slots hold bindings. */
  lemma RoomUnlessBound(r: seq<State>, t: nat)
    requires |r| > 0 && Run(r)
    requires OthersRest(r[|r| - 1], t)
    requires t in r[|r| - 1].threads ==> !Owns(r[|r| - 1].threads[t])
    ensures Sound(r[|r| - 1].b) && (HasRoom(r[|r| - 1].b) <==> |Abs(r[|r| - 1].b)| < SLOTS)
  {
    RunOk(r, |r| - 1);
    hide Run;
    BoundSlots(r[|r| - 1].b);
  }

  function Part(b: Bucket, i: nat): set<nat>
    requires Shape(b) && i < SLOTS
  {
    if Valid(b, i) then {b.key[i]} else {}
  }

  /** Each VALID slot is a binding of its own. */
  lemma BoundSlots(b: Bucket)
    requires Sound(b)
    ensures |Abs(b)| == |Part(b, 0)| + |Part(b, 1)| + |Part(b, 2)|
  {
    var m, p, q, s := Abs(b), Part(b, 0), Part(b, 1), Part(b, 2);
    forall k ensures k in m <==> k in p + q + s {
      AbsHas(b, k);
      PartsHave(b, k);
    }
    PartsApart(b);
    hide Abs, Part;
    assert m.Keys == p + q + s;
    assert |p + q| == |p| + |q|;
    assert |p + q + s| == |p + q| + |s|;
  }

  lemma PartsHave(b: Bucket, k: nat)
    requires Sound(b)
    ensures Present(b, k) <==> k in Part(b, 0) + Part(b, 1) + Part(b, 2)
  {
    if Present(b, k) {
      var i :| Valid(b, i) && b.key[i] == k;
      assert k in Part(b, i);
    }
  }

  lemma PartsApart(b: Bucket)
    requires Sound(b)
    ensures Part(b, 0) !! Part(b, 1) && (Part(b, 0) + Part(b, 1)) !! Part(b, 2)
  {
  }
}
