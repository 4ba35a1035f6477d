/** What an operation on the bucket with removal by tagging does when its thread steps alone: it answers within a fixed
    number of steps, and does to the entries what its answer says.  The one exception is a put of a new key into a
    bucket that has no unused slot, which goes on for ever. */
module ClhtMapRemSolo {
  import opened History
  import opened ClhtMapRem

  /** The bucket and the thread after n steps of the thread and none of others. */
  function Alone(b: Bucket, t: nat, th: Thread, n: nat): (Bucket, Thread)
    decreases n
  {
    if n == 0 || !Shape(b) || !ThreadShape(th) || th.pc.Done? then (b, th)
    else var o := Step(b, t, th); Alone(o.b, t, o.th, n - 1)
  }

  lemma {:induction false} AloneAdds(b: Bucket, t: nat, th: Thread, m: nat, n: nat)
    ensures Alone(b, t, th, m + n) == Alone(Alone(b, t, th, m).0, t, Alone(b, t, th, m).1, n)
    decreases m
  {
    hide Step;
    if m == 0 {
    } else if !Shape(b) || !ThreadShape(th) || th.pc.Done? {
      Stays(b, t, th, n);
    } else {
      var o := Step(b, t, th);
      AloneAdds(o.b, t, o.th, m - 1, n);
    }
  }

  lemma Stays(b: Bucket, t: nat, th: Thread, n: nat)
    requires n == 0 || !Shape(b) || !ThreadShape(th) || th.pc.Done?
    ensures Alone(b, t, th, n) == (b, th)
  {
  }

  /** The thread gets from one point to the other in n steps, and from there to the next. */
  lemma Then(b: Bucket, t: nat, th: Thread, m: nat, b': Bucket, th': Thread, n: nat, b'': Bucket, th'': Thread)
    requires Alone(b, t, th, m) == (b', th') && Alone(b', t, th', n) == (b'', th'')
    ensures Alone(b, t, th, m + n) == (b'', th'')
  {
    hide Alone;
    AloneAdds(b, t, th, m, n);
  }

  /** A run may go on with n steps of thread t alone. */
  lemma {:induction false} RunsAlone(r: seq<State>, t: nat, n: nat) returns (r': seq<State>)
    requires |r| > 0 && Run(r) && t in r[|r| - 1].threads
    ensures |r'| > 0 && Run(r') && r <= r' && |r'| <= |r| + n
    ensures var st, st' := r[|r| - 1], r'[|r'| - 1];
            st'.b == Alone(st.b, t, st.threads[t], n).0
            && st'.threads == st.threads[t := Alone(st.b, t, st.threads[t], n).1]
    decreases n
  {
    hide Step, Run;
    r' := r;
    var st := r[|r| - 1];
    if n > 0 && CanStep(st, t) {
      OneMore(r, t);
      r' := RunsAlone(r + [StepThread(st, t)], t, n - 1);
    } else {
      assert st.threads[t := st.threads[t]] == st.threads;
    }
  }

  lemma OneMore(r: seq<State>, t: nat)
    requires Run(r) && CanStep(r[|r| - 1], t)
    ensures Run(r + [StepThread(r[|r| - 1], t)])
  {
    var st := r[|r| - 1];
    assert Next(st, StepThread(st, t));
    hide Next, Step;
    var r' := r + [StepThread(st, t)];
    forall i | 0 <= i < |r'| - 1 ensures Next(r'[i], r'[i + 1]) {
      if i < |r| - 1 { assert r'[i] == r[i] && r'[i + 1] == r[i + 1]; }
    }
  }

  // ------------------------------------------------------------------ the search

  lemma First(b: Bucket, t: nat, th: Thread, n: nat, b': Bucket, th': Thread)
    requires Shape(b) && ThreadShape(th) && !th.pc.Done? && Step(b, t, th).b == b' && Step(b, t, th).th == th'
    ensures Alone(b, t, th, n + 1) == Alone(b', t, th', n)
  {
    hide Step;
  }

  /** The search of a put has found its key. */
  function Found(th: Thread): Thread { th.(pc := if th.ei >= 0 then AbortStore else Done(0)) }

  /** Where a put is after reading slot i in a search that began at th: it has found its key, or goes on. */
  function AfterSlot(b: Bucket, th: Thread, i: nat): Thread
    requires ThreadShape(th)
  {
    if Held(b, i) && b.key[i] == th.op.k then Found(th) else NextSlot(b, th, i).th
  }

  lemma OneSlot(b: Bucket, t: nat, th: Thread, i: nat) returns (n: nat)
    requires Shape(b) && Unique(b) && ThreadShape(th) && th.pc == SearchVal(i)
    ensures 2 <= n <= 4 && Alone(b, t, th, n) == (b, AfterSlot(b, th, i))
  {
    hide Alone;
    var v := b.val[i];
    var th1, th2, th3 := th.(pc := SearchMap(i, v)), th.(pc := SearchKey(i, v)), th.(pc := SearchChk(i, v));
    Stays(b, t, AfterSlot(b, th, i), 0);
    n := if !Held(b, i) then 2 else if b.key[i] != th.op.k then 3 else 4;
    First(b, t, th, n - 1, b, th1);
    if n == 2 {
      First(b, t, th1, 0, b, AfterSlot(b, th, i));
    } else {
      First(b, t, th1, n - 2, b, th2);
      if n == 3 {
        First(b, t, th2, 0, b, AfterSlot(b, th, i));
      } else {
        assert HeldIn(b.snap, i);
        First(b, t, th2, 1, b, th3);
        First(b, t, th3, 0, b, AfterSlot(b, th, i));
      }
    }
  }

  /** The key is in a slot that is not before i. */
  ghost predicate KeyFrom(b: Bucket, k: nat, i: nat)
  {
    exists m: nat :: i <= m && Held(b, m) && b.key[m] == k
  }

  lemma {:induction false} SearchAlone(b: Bucket, t: nat, th: Thread, i: nat) returns (n: nat)
    requires Shape(b) && Unique(b) && ThreadShape(th) && i < SLOTS && th.pc == SearchVal(i)
    ensures n <= 4 * (SLOTS - i)
    ensures Alone(b, t, th, n) == (b, if KeyFrom(b, th.op.k, i) then Found(th) else NotFound(b, th).th)
    decreases SLOTS - i
  {
    hide Alone, Unique, Found, NotFound;
    n := OneSlot(b, t, th, i);
    if Held(b, i) && b.key[i] == th.op.k {
      assert KeyFrom(b, th.op.k, i);
    } else {
      assert KeyFrom(b, th.op.k, i) <==> KeyFrom(b, th.op.k, i + 1);
      if i + 1 < SLOTS {
        var th' := th.(pc := SearchVal(i + 1));
        SameEnd(b, th, th');
        var m := SearchAlone(b, t, th', i + 1);
        AloneAdds(b, t, th, n, m);
        n := n + m;
      }
    }
  }

  lemma SameEnd(b: Bucket, th: Thread, th': Thread)
    requires ThreadShape(th) && ThreadShape(th') && th' == th.(pc := th'.pc)
    ensures Found(th) == Found(th') && NotFound(b, th).th == NotFound(b, th').th
  {
  }

  // ------------------------------------------------------------------ remove

  /** The key is in a slot that is not before i, and nobody has tagged it. */
  ghost predicate ValidFrom(b: Bucket, k: nat, i: nat)
  {
    exists m: nat :: i <= m && Valid(b, m) && b.key[m] == k
  }

  predicate Valid(b: Bucket, i: nat) { Shape(b) && i < SLOTS && b.snap.marks[i] == VALID }

  /** What a remove answers: the value of the entry that it has taken out, or zero. */
  ghost predicate Removes(b: Bucket, k: nat, b': Bucket, r: nat)
  {
    if ValidFrom(b, k, 0) then r != 0 && Entries(b) == Entries(b') + multiset{(k, r)} else r == 0 && b' == b
  }

  lemma {:induction false} RemoveScan(b: Bucket, t: nat, th: Thread, i: nat) returns (n: nat, b': Bucket, r: nat)
    requires Shape(b) && Unique(b) && ThreadShape(th) && th.op.Remove? && i < SLOTS && th.pc == RemVal(i)
    requires ValidFrom(b, th.op.k, 0) <==> ValidFrom(b, th.op.k, i)
    ensures n <= 20 - 4 * i && Removes(b, th.op.k, b', r) && Shape(b')
    ensures Alone(b, t, th, n) == (b', th.(pc := Done(r)))
    decreases SLOTS - i
  {
    hide Alone, Unique, Entries;
    if Valid(b, i) && b.key[i] == th.op.k {
      n, b', r := RemoveTakes(b, t, th, i);
    } else {
      assert ValidFrom(b, th.op.k, i) <==> ValidFrom(b, th.op.k, i + 1);
      var th' := th.(pc := if i + 1 < SLOTS then RemVal(i + 1) else Done(0));
      n := RemovePasses(b, t, th, i, th');
      if i + 1 < SLOTS {
        var m;
        m, b', r := RemoveScan(b, t, th', i + 1);
        AloneAdds(b, t, th, n, m);
        n := n + m;
      } else {
        b', r := b, 0;
      }
    }
  }

  lemma RemovePasses(b: Bucket, t: nat, th: Thread, i: nat, th': Thread) returns (n: nat)
    requires Shape(b) && ThreadShape(th) && th.op.Remove? && th.pc == RemVal(i)
    requires !(Valid(b, i) && b.key[i] == th.op.k)
    requires th' == th.(pc := if i + 1 < SLOTS then RemVal(i + 1) else Done(0))
    ensures 2 <= n <= 3 && Alone(b, t, th, n) == (b, th')
  {
    hide Alone;
    var v := b.val[i];
    var th1, th2 := th.(pc := RemMap(i, v)), th.(pc := RemKey(i, v));
    Stays(b, t, th', 0);
    n := if Valid(b, i) then 3 else 2;
    First(b, t, th, n - 1, b, th1);
    if n == 2 {
      First(b, t, th1, 0, b, th');
    } else {
      First(b, t, th1, 1, b, th2);
      First(b, t, th2, 0, b, th');
    }
  }

  lemma RemoveTakes(b: Bucket, t: nat, th: Thread, i: nat) returns (n: nat, b': Bucket, r: nat)
    requires Shape(b) && Unique(b) && ThreadShape(th) && th.op.Remove? && th.pc == RemVal(i)
    requires Valid(b, i) && b.key[i] == th.op.k
    ensures n == 8 && Removes(b, th.op.k, b', r) && Shape(b')
    ensures Alone(b, t, th, n) == (b', th.(pc := Done(r)))
  {
    hide Alone, Entries, Removes, Unique;
    RemoveFinds(b, t, th, i);
    var th' := th.(pc := TagCas(i));
    b', r := RemoveClears(b, t, th', i);
    AloneAdds(b, t, th, 4, 4);
    n := 8;
    RemoveIsRight(b, i, b');
  }

  lemma RemoveFinds(b: Bucket, t: nat, th: Thread, i: nat)
    requires ThreadShape(th) && th.op.Remove? && th.pc == RemVal(i) && Valid(b, i) && b.key[i] == th.op.k
    ensures Alone(b, t, th, 4) == (b, th.(pc := TagCas(i)))
  {
    hide Alone;
    var v := b.val[i];
    First(b, t, th, 3, b, th.(pc := RemMap(i, v)));
    First(b, t, th.(pc := RemMap(i, v)), 2, b, th.(pc := RemKey(i, v)));
    First(b, t, th.(pc := RemKey(i, v)), 1, b, th.(pc := RemChk(i, v)));
    First(b, t, th.(pc := RemChk(i, v)), 0, b, th.(pc := TagCas(i)));
    Stays(b, t, th.(pc := TagCas(i)), 0);
  }

  lemma RemoveClears(b: Bucket, t: nat, th: Thread, i: nat) returns (b': Bucket, r: nat)
    requires ThreadShape(th) && th.op.Remove? && th.pc == TagCas(i) && Valid(b, i) && b.key[i] == th.op.k
    ensures r == b.val[i] && b' == b.(snap := SetMark(b.snap, i, INVLD))
    ensures Alone(b, t, th, 4) == (b', th.(pc := Done(r)))
  {
    hide Alone;
    r := b.val[i];
    var b1 := b.(snap := SetMark(b.snap, i, REMOV));
    b' := b.(snap := SetMark(b.snap, i, INVLD));
    assert b1.snap.marks[i := INVLD] == b.snap.marks[i := INVLD];
    First(b, t, th, 3, b1, th.(pc := Recheck(i)));
    First(b1, t, th.(pc := Recheck(i)), 2, b1, th.(pc := ReadBack(i)));
    First(b1, t, th.(pc := ReadBack(i)), 1, b1, th.(pc := Clear(i, r)));
    First(b1, t, th.(pc := Clear(i, r)), 0, b', th.(pc := Done(r)));
    Stays(b', t, th.(pc := Done(r)), 0);
  }

  lemma RemoveIsRight(b: Bucket, i: nat, b': Bucket)
    requires Shape(b) && Unique(b) && Valid(b, i) && b' == b.(snap := SetMark(b.snap, i, INVLD))
    ensures Shape(b') && Removes(b, b.key[i], b', b.val[i])
  {
    hide Entries;
    assert HeldIn(b.snap, i) && ValidFrom(b, b.key[i], 0);
    EntriesChange(b, b', i);
    assert HeldAt(b, i) == multiset{(b.key[i], b.val[i])} && HeldAt(b', i) == multiset{};
  }

  // ------------------------------------------------------------------ put

  predicate HasRoom(b: Bucket) { Shape(b) && exists i :: 0 <= i < SLOTS && b.snap.marks[i] == INVLD }

  /** What a put owns is as it has left it. */
  predicate Ready(b: Bucket, th: Thread)
  {
    && Shape(b) && ThreadShape(th) && th.op.Put? && th.op.v != 0 && th.pc == ReadSnap
    && (th.ei >= 0 ==> b.snap.marks[th.ei] == INSRT && b.val[th.ei] == th.op.v && b.key[th.ei] == th.op.k)
  }

  /** What a put answers: whether it has added its entry, which it does exactly if its key is in no slot. */
  ghost predicate Puts(b: Bucket, k: nat, v: nat, b': Bucket, r: nat)
  {
    if KeyFrom(b, k, 0) then r == 0 && Entries(b') == Entries(b)
    else r == 1 && Entries(b') == Entries(b) + multiset{(k, v)}
  }

  /** The put finds its key. */
  lemma PutFindsKey(b: Bucket, t: nat, th: Thread) returns (n: nat, b': Bucket, th': Thread)
    requires Ready(b, th) && Unique(b) && KeyFrom(b, th.op.k, 0)
    ensures n <= 14 && Alone(b, t, th, n) == (b', th') && Shape(b') && Puts(b, th.op.k, th.op.v, b', 0)
    ensures th'.op == th.op && th'.pc == Done(0)
  {
    hide Alone, Entries, Unique;
    var th1 := th.(s := b.snap, pc := SearchVal(0));
    var m := SearchAlone(b, t, th1, 0);
    First(b, t, th, m, b, th1);
    if th.ei < 0 {
      n, b', th' := m + 1, b, th1.(pc := Done(0));
    } else {
      var th2 := th1.(pc := AbortStore);
      b', th' := b.(snap := SetMark(b.snap, th.ei, INVLD)), th1.(pc := Done(0));
      First(b, t, th2, 0, b', th');
      Stays(b', t, th', 0);
      Then(b, t, th, m + 1, b, th2, 1, b', th');
      n := m + 2;
      EntriesSame(b, b', th.ei);
    }
  }

  /** The put has a slot of its own already, and commits it. */
  lemma PutCommits(b: Bucket, t: nat, th: Thread) returns (b': Bucket)
    requires Shape(b) && ThreadShape(th) && th.op.Put? && th.pc == Cas2 && th.s == b.snap
    requires b.snap.marks[th.ei] == INSRT && b.val[th.ei] == th.op.v && b.key[th.ei] == th.op.k
    ensures Alone(b, t, th, 1) == (b', th.(pc := Done(1))) && Shape(b')
    ensures Entries(b') == Entries(b) + multiset{(th.op.k, th.op.v)}
  {
    hide Alone, Entries;
    b' := b.(snap := Snap(b.snap.version + 1, b.snap.marks[th.ei := VALID]));
    First(b, t, th, 0, b', th.(pc := Done(1)));
    Stays(b', t, th.(pc := Done(1)), 0);
    EntriesChange(b, b', th.ei);
    assert HeldAt(b, th.ei) == multiset{} && HeldAt(b', th.ei) == multiset{(th.op.k, th.op.v)};
  }

  /** The put takes an unused slot, fills it and commits it. */
  lemma PutFills(b: Bucket, t: nat, th: Thread) returns (b': Bucket, th': Thread)
    requires Shape(b) && ThreadShape(th) && th.op.Put? && th.pc == Cas1 && th.s == b.snap
    requires b.snap.marks[th.ei] == INVLD
    ensures Alone(b, t, th, 4) == (b', th') && Shape(b')
    ensures Entries(b') == Entries(b) + multiset{(th.op.k, th.op.v)} && th'.op == th.op && th'.pc == Done(1)
  {
    hide Alone, Entries;
    var s1 := SetMark(b.snap, th.ei, INSRT);
    var b1, th1 := b.(snap := s1), th.(s := s1, pc := StoreVal);
    var b2, th2 := b1.(val := b1.val[th.ei := th.op.v]), th1.(pc := StoreKey);
    var b3, th3 := b2.(key := b2.key[th.ei := th.op.k]), th1.(pc := Cas2);
    First(b, t, th, 3, b1, th1);
    First(b1, t, th1, 2, b2, th2);
    First(b2, t, th2, 1, b3, th3);
    EntriesSame(b, b3, th.ei);
    b' := PutCommits(b3, t, th3);
    th' := th3.(pc := Done(1));
  }

  lemma PutAdds(b: Bucket, t: nat, th: Thread) returns (n: nat, b': Bucket, th': Thread)
    requires Ready(b, th) && Unique(b) && !KeyFrom(b, th.op.k, 0) && (th.ei >= 0 || HasRoom(b))
    ensures n <= 17 && Alone(b, t, th, n) == (b', th') && Shape(b') && Puts(b, th.op.k, th.op.v, b', 1)
    ensures th'.op == th.op && th'.pc == Done(1)
  {
    hide Alone, Entries, Unique;
    var th1 := th.(s := b.snap, pc := SearchVal(0));
    var m := SearchAlone(b, t, th1, 0);
    First(b, t, th, m, b, th1);
    var th2 := NotFound(b, th1).th;
    if th.ei < 0 {
      b', th' := PutFills(b, t, th2);
      Then(b, t, th, m + 1, b, th2, 4, b', th');
      n := m + 5;
    } else {
      assert b.snap.marks[th.ei := INSRT] == b.snap.marks;
      b' := PutCommits(b, t, th2);
      th' := th2.(pc := Done(1));
      Then(b, t, th, m + 1, b, th2, 1, b', th');
      n := m + 2;
    }
  }

  /** Without an unused slot, and without one of its own, the put of a new key begins again. */
  lemma PutBeginsAgain(b: Bucket, t: nat, th: Thread) returns (n: nat, th': Thread)
    requires Ready(b, th) && Unique(b) && !KeyFrom(b, th.op.k, 0) && th.ei < 0 && !HasRoom(b)
    ensures n > 0 && Alone(b, t, th, n) == (b, th') && Ready(b, th') && th'.op == th.op && th'.ei < 0
  {
    hide Alone, Unique;
    var th1 := th.(s := b.snap, pc := SearchVal(0));
    var m := SearchAlone(b, t, th1, 0);
    First(b, t, th, m, b, th1);
    n, th' := m + 1, NotFound(b, th1).th;
  }

  lemma {:induction false} PutNeverAnswers(b: Bucket, t: nat, th: Thread, n: nat)
    requires Ready(b, th) && Unique(b) && !KeyFrom(b, th.op.k, 0) && th.ei < 0 && !HasRoom(b)
    ensures !Alone(b, t, th, n).1.pc.Done?
    decreases n
  {
    hide Alone, Unique;
    var m, th' := PutBeginsAgain(b, t, th);
    if n < m {
      AloneAdds(b, t, th, n, m - n);
      if Alone(b, t, th, n).1.pc.Done? { Stays(Alone(b, t, th, n).0, t, Alone(b, t, th, n).1, m - n); }
    } else {
      AloneAdds(b, t, th, m, n - m);
      PutNeverAnswers(b, t, th', n - m);
    }
  }

  // ------------------------------------------------------------------ an operation that is under way

  /** How many steps a thread may take before it answers or begins again. */
  function StepsLeft(pc: Pc): nat
  {
    match pc
    case SearchVal(i) => if i < SLOTS then 20 - 4 * i else 0
    case SearchMap(i, _) => if i < SLOTS then 19 - 4 * i else 0
    case SearchKey(i, _) => if i < SLOTS then 18 - 4 * i else 0
    case SearchChk(i, _) => if i < SLOTS then 17 - 4 * i else 0
    case ReadSnap => 0
    case AbortStore => 1
    case Cas1 => 4
    case StoreVal => 3
    case StoreKey => 2
    case Cas2 => 1
    case RemVal(i) => if i < SLOTS then 20 - 4 * i else 0
    case RemMap(i, _) => if i < SLOTS then 19 - 4 * i else 0
    case RemKey(i, _) => if i < SLOTS then 18 - 4 * i else 0
    case RemChk(i, _) => if i < SLOTS then 17 - 4 * i else 0
    case TagCas(_) => 4
    case Recheck(_) => 3
    case ReadBack(_) => 2
    case Clear(_, _) => 1
    case Restore(_) => 1
    case Done(_) => 0
  }

  lemma StepsGetFewer(b: Bucket, t: nat, th: Thread)
    requires Shape(b) && ThreadShape(th) && !th.pc.Done? && !th.pc.ReadSnap?
    ensures StepsLeft(th.pc) > 0 && StepsLeft(Step(b, t, th).th.pc) < StepsLeft(th.pc)
  {
  }

  lemma StepKeepsShape(b: Bucket, t: nat, th: Thread)
    requires Shape(b) && ThreadShape(th) && !th.pc.Done?
    ensures var o := Step(b, t, th); Shape(o.b) && ThreadShape(o.th) && o.th.op == th.op
  {
  }

  lemma {:induction false} AnswersOrBeginsAgain(b: Bucket, t: nat, th: Thread) returns (n: nat)
    requires Shape(b) && ThreadShape(th)
    ensures n <= StepsLeft(th.pc) <= 20
    ensures var c := Alone(b, t, th, n); c.1.op == th.op && (c.1.pc.Done? || c.1.pc.ReadSnap?)
    decreases StepsLeft(th.pc)
  {
    n := 0;
    if !th.pc.Done? && !th.pc.ReadSnap? {
      StepsGetFewer(b, t, th);
      StepKeepsShape(b, t, th);
      hide Step;
      var o := Step(b, t, th);
      n := AnswersOrBeginsAgain(o.b, t, o.th);
      First(b, t, th, n, o.b, o.th);
      n := n + 1;
    }
  }

  // ------------------------------------------------------------------ the theorems

  /** A call of op made by thread t. */
  function Called(st: State, t: nat, op: Op): State
  {
    st.(threads := st.threads[t := Thread(op, |st.events|, -2, EMPTY.snap, if op.Put? then ReadSnap else RemVal(0))])
  }

  predicate MayCall(st: State, t: nat, op: Op)
  {
    (t in st.threads ==> st.threads[t].pc.Done?) && op.k != 0 && (op.Put? ==> op.v != 0)
  }

  lemma CallsNext(r: seq<State>, t: nat, op: Op)
    requires |r| > 0 && Run(r) && MayCall(r[|r| - 1], t, op)
    ensures Run(r + [Called(r[|r| - 1], t, op)])
  {
    var st := r[|r| - 1];
    var r' := r + [Called(st, t, op)];
    assert Next(st, Called(st, t, op)) by { assert Invoke(st, t, op, Called(st, t, op)); }
    hide Next;
    forall i | 0 <= i < |r'| - 1 ensures Next(r'[i], r'[i + 1]) {
      if i < |r| - 1 { assert r'[i] == r[i] && r'[i + 1] == r[i + 1]; }
    }
  }

  /** What the operation does to the entries, and what it answers. */
  ghost predicate Performs(b: Bucket, op: Op, b': Bucket, answer: nat)
  {
    match op
    case Put(k, v) => Puts(b, k, v, b', answer)
    case Remove(k) => Removes(b, k, b', answer)
  }

  /** The next attempt of a put cannot succeed, and will not find its key: it is new, no slot is unused, and the put has
      none of its own. */
  ghost predicate NoWay(b: Bucket, th: Thread)
  {
    th.op.Put? && th.ei < 0 && !KeyFrom(b, th.op.k, 0) && !HasRoom(b)
  }

  lemma AttemptAlone(b: Bucket, t: nat, th: Thread) returns (n: nat, b': Bucket, th': Thread)
    requires Shape(b) && Unique(b) && ThreadShape(th) && (th.op.Put? ==> Ready(b, th)) && !NoWay(b, th)
    requires th.op.Remove? ==> th.pc == RemVal(0)
    ensures n <= 20 && Alone(b, t, th, n) == (b', th') && th'.op == th.op && th'.pc.Done?
    ensures Shape(b') && Performs(b, th.op, b', th'.pc.result)
  {
    hide Alone, Entries, Ready, HasRoom, Unique, KeyFrom, Puts, Removes;
    match th.op
    case Put(_, _) =>
      if KeyFrom(b, th.op.k, 0) { n, b', th' := PutFindsKey(b, t, th); } else { n, b', th' := PutAdds(b, t, th); }
    case Remove(_) =>
      var r;
      n, b', r := RemoveScan(b, t, th, 0);
      th' := th.(pc := Done(r));
  }

  lemma ReadyInRun(r: seq<State>, i: nat, t: nat)
    requires Run(r) && i < |r| && t in r[i].threads && r[i].threads[t].op.Put? && r[i].threads[t].pc == ReadSnap
    ensures Ready(r[i].b, r[i].threads[t])
  {
    RunOk(r, i);
    hide Run, Inserts, Removals, Entries, Unique;
    var th := r[i].threads[t];
    assert ThreadOk(r[i].b, th);
    if th.ei >= 0 { assert OwnsSlot(th, th.ei); }
  }

  lemma SoundInRun(r: seq<State>, i: nat)
    requires Run(r) && i < |r|
    ensures Shape(r[i].b) && Unique(r[i].b) && forall t :: t in r[i].threads ==> ThreadShape(r[i].threads[t])
  {
    RunOk(r, i);
    hide Run, Unique, Inserts, Removals, Entries, OwnersOk;
    forall t | t in r[i].threads ensures ThreadShape(r[i].threads[t]) { assert ThreadOk(r[i].b, r[i].threads[t]); }
  }

  /** From any state of any run, a call whose thread steps alone answers within 20 steps, whatever the other threads
      are in the middle of: a put whether it has added its entry, a remove the value of the entry that it has taken
      out, and zero if none with its key is untagged.  Only a put of a new key needs an unused slot. */
  lemma CallAlone(r: seq<State>, t: nat, op: Op) returns (r': seq<State>)
    requires |r| > 0 && Run(r) && MayCall(r[|r| - 1], t, op)
    requires op.Put? && !KeyFrom(r[|r| - 1].b, op.k, 0) ==> HasRoom(r[|r| - 1].b)
    ensures Run(r') && r + [Called(r[|r| - 1], t, op)] <= r' && |r'| <= |r| + 1 + 20
    ensures var st, st' := r[|r| - 1], r'[|r'| - 1];
            && t in st'.threads && st'.threads == st.threads[t := st'.threads[t]]
            && st'.threads[t].op == op && st'.threads[t].pc.Done?
            && Performs(st.b, op, st'.b, st'.threads[t].pc.result)
  {
    hide Run, Alone, HasRoom, Performs, KeyFrom, Unique;
    var st := r[|r| - 1];
    var st1 := Called(st, t, op);
    CallsNext(r, t, op);
    SoundInRun(r + [st1], |r|);
    if op.Put? { ReadyInRun(r + [st1], |r|, t); }
    var n, b', th' := AttemptAlone(st.b, t, st1.threads[t]);
    r' := RunsAlone(r + [st1], t, n);
  }

  /** Without one the put never answers, however long its thread steps alone. */
  lemma PutNeedsRoom(r: seq<State>, t: nat, op: Op, n: nat) returns (r': seq<State>)
    requires |r| > 0 && Run(r) && MayCall(r[|r| - 1], t, op) && op.Put?
    requires !KeyFrom(r[|r| - 1].b, op.k, 0) && !HasRoom(r[|r| - 1].b)
    ensures Run(r') && r + [Called(r[|r| - 1], t, op)] <= r'
    ensures var st, st' := r[|r| - 1], r'[|r'| - 1];
            && t in st'.threads && !st'.threads[t].pc.Done?
            && (st'.b, st'.threads[t]) == Alone(st.b, t, Called(st, t, op).threads[t], n)
  {
    hide Run, Alone, HasRoom, KeyFrom, Unique;
    var st := r[|r| - 1];
    var st1 := Called(st, t, op);
    CallsNext(r, t, op);
    SoundInRun(r + [st1], |r|);
    ReadyInRun(r + [st1], |r|, t);
    PutNeverAnswers(st.b, t, st1.threads[t], n);
    r' := RunsAlone(r + [st1], t, n);
  }

  /** From any point of an operation, with its thread stepping alone, it has answered after at most 40 steps, or it is
      a put that has no way. */
  lemma OperationEndsAlone(r: seq<State>, t: nat) returns (r': seq<State>)
    requires |r| > 0 && Run(r) && t in r[|r| - 1].threads
    ensures |r'| > 0 && Run(r') && r <= r' && |r'| <= |r| + 40
    ensures var st, st' := r[|r| - 1], r'[|r'| - 1];
            && t in st'.threads && st'.threads == st.threads[t := st'.threads[t]]
            && st'.threads[t].op == st.threads[t].op
            && (st'.threads[t].pc.Done? || NoWay(st'.b, st'.threads[t]))
  {
    hide Run, Alone, HasRoom, StepsLeft, KeyFrom, Unique;
    var st := r[|r| - 1];
    SoundInRun(r, |r| - 1);
    var n := AnswersOrBeginsAgain(st.b, t, st.threads[t]);
    var r1 := RunsAlone(r, t, n);
    var st1 := r1[|r1| - 1];
    SoundInRun(r1, |r1| - 1);
    r' := r1;
    if !st1.threads[t].pc.Done? && !NoWay(st1.b, st1.threads[t]) {
      ShapeOfAttempt(st1.threads[t]);
      ReadyInRun(r1, |r1| - 1, t);
      var m, b', th' := AttemptAlone(st1.b, t, st1.threads[t]);
      r' := RunsAlone(r1, t, m);
    }
  }

  lemma ShapeOfAttempt(th: Thread)
    requires ThreadShape(th) && th.pc == ReadSnap
    ensures th.op.Put?
  {
  }
}
