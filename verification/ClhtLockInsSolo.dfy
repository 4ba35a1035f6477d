/** What an operation on the chain with locked insertion does when its thread steps alone: it answers within a number of
    steps that the length of the chain bounds, and does to the entries what its answer says.  The one exception is a
    put of a new key while another put holds the lock, which waits. */
module ClhtLockInsSolo {
  import opened History
  import opened ClhtLockIns

  /** The chain, the lock and the point of one thread. */
  datatype Scene = Scene(slots: seq<Slot>, lock: Holder, th: Thread)

  predicate CanGo(c: Scene) { Shape(c.slots, c.th) && !c.th.pc.Done? }

  function Go(c: Scene, t: nat): Scene
    requires CanGo(c)
  {
    var o := Step(c.slots, c.lock, t, c.th);
    Scene(o.slots, o.lock, c.th.(pc := o.pc))
  }

  /** n steps of the thread and none of others. */
  function Alone(c: Scene, t: nat, n: nat): Scene
    decreases n
  {
    if n == 0 || !CanGo(c) then c else Alone(Go(c, t), t, n - 1)
  }

  lemma {:induction false} AloneAdds(c: Scene, t: nat, m: nat, n: nat)
    ensures Alone(c, t, m + n) == Alone(Alone(c, t, m), t, n)
    decreases m
  {
    hide Go;
    if m == 0 {
    } else if !CanGo(c) {
      Stays(c, t, n);
    } else {
      AloneAdds(Go(c, t), t, m - 1, n);
    }
  }

  lemma Stays(c: Scene, t: nat, n: nat)
    requires n == 0 || !CanGo(c)
    ensures Alone(c, t, n) == c
  {
  }

  lemma First(c: Scene, t: nat, n: nat, c': Scene)
    requires CanGo(c) && Go(c, t) == c'
    ensures Alone(c, t, n + 1) == Alone(c', t, n)
  {
    hide Go;
  }

  function SceneOf(st: State, t: nat): Scene
    requires t in st.threads
  {
    Scene(st.slots, st.lock, st.threads[t])
  }

  /** A run may go on with n steps of thread t alone. */
  lemma {:induction false} RunsAlone(r: seq<State>, t: nat, n: nat) returns (r': seq<State>)
    requires |r| > 0 && Run(r) && t in r[|r| - 1].threads
    ensures |r'| > 0 && Run(r') && r <= r' && |r'| <= |r| + n
    ensures var st, st' := r[|r| - 1], r'[|r'| - 1];
            && t in st'.threads && st'.threads == st.threads[t := st'.threads[t]]
            && SceneOf(st', t) == Alone(SceneOf(st, t), t, n)
    decreases n
  {
    hide Step, Run;
    r' := r;
    var st := r[|r| - 1];
    if n > 0 && CanStep(st, t) {
      OneMore(r, t);
      r' := RunsAlone(r + [StepThread(st, t)], t, n - 1);
    } else {
      assert st.threads[t := st.threads[t]] == st.threads;
    }
  }

  lemma OneMore(r: seq<State>, t: nat)
    requires |r| > 0 && Run(r) && CanStep(r[|r| - 1], t)
    ensures Run(r + [StepThread(r[|r| - 1], t)])
  {
    var st := r[|r| - 1];
    assert Next(st, StepThread(st, t));
    hide Next, Step;
    var r' := r + [StepThread(st, t)];
    forall i | 0 <= i < |r'| - 1 ensures Next(r'[i], r'[i + 1]) {
      if i < |r| - 1 { assert r'[i] == r[i] && r'[i + 1] == r[i + 1]; }
    }
  }

  // ------------------------------------------------------------------ the scans

  /** The key is in a slot that is not before j. */
  ghost predicate KeyFrom(slots: seq<Slot>, k: int, j: nat)
  {
    exists i: nat :: j <= i && i < |slots| && KeyAt(slots, i) == k
  }

  lemma OneFurther(slots: seq<Slot>, k: int, j: nat)
    requires j < |slots|
    ensures KeyFrom(slots, k, j) <==> slots[j].key == k || KeyFrom(slots, k, j + 1)
  {
    if slots[j].key == k { assert KeyAt(slots, j) == k; }
  }

  /** The look without the lock. */
  lemma {:induction false} PeekAlone(c: Scene, t: nat, j: nat) returns (n: nat)
    requires c.th.op.Put? && j <= |c.slots| && c.th.pc == Peek(j)
    ensures n <= |c.slots| - j + 1
    ensures Alone(c, t, n) == c.(th := c.th.(pc := if KeyFrom(c.slots, c.th.op.k, j) then Done(0) else TryLock))
    decreases |c.slots| - j
  {
    hide Alone;
    if j < |c.slots| { OneFurther(c.slots, c.th.op.k, j); }
    var c' := Go(c, t);
    if j < |c.slots| && c.slots[j].key != c.th.op.k {
      n := PeekAlone(c', t, j + 1);
    } else {
      n := 0;
      Stays(c', t, 0);
    }
    First(c, t, n, c');
    n := n + 1;
  }

  /** The scan under the lock of a chain without the key: it remembers the first free slot. */
  lemma {:induction false} ScanAlone(c: Scene, t: nat, j: nat, e: int) returns (n: nat, e': int)
    requires c.th.op.Put? && e < j <= |c.slots| && c.th.pc == Scan(j, e) && !KeyFrom(c.slots, c.th.op.k, j)
    requires e >= 0 ==> KeyAt(c.slots, e) == 0
    ensures n <= |c.slots| - j + 1 && (e' >= 0 ==> e' < |c.slots| && KeyAt(c.slots, e') == 0)
    ensures Alone(c, t, n) == c.(th := c.th.(pc := if e' < 0 then LinkNew else WriteVal(e')))
    decreases |c.slots| - j
  {
    hide Alone;
    var c' := Go(c, t);
    if j < |c.slots| {
      OneFurther(c.slots, c.th.op.k, j);
      n, e' := ScanAlone(c', t, j + 1, if e < 0 && c.slots[j].key == 0 then j else e);
    } else {
      n, e' := 0, e;
      Stays(c', t, 0);
    }
    First(c, t, n, c');
    n := n + 1;
  }

  // ------------------------------------------------------------------ put

  /** The stores of the put, and the unlock. */
  lemma StoresAlone(c: Scene, t: nat, e: nat) returns (c': Scene)
    requires c.th.op.Put? && c.th.op.k > 0 && e < |c.slots| && c.th.pc == WriteVal(e) && c.slots[e].key == 0
    ensures Alone(c, t, 3) == c' && c'.lock.Nobody? && c'.th == c.th.(pc := Done(1))
    ensures Entries(c'.slots) == Entries(c.slots) + multiset{(c.th.op.k, c.th.op.v)}
  {
    hide Alone, Entries;
    var k, v := c.th.op.k, c.th.op.v;
    var s1 := c.slots[e := Slot(0, v)];
    var s2 := c.slots[e := Slot(k, v)];
    assert s1[e := Slot(k, v)] == s2;
    var c1, c2 := Scene(s1, c.lock, c.th.(pc := WriteKey(e))), Scene(s2, c.lock, c.th.(pc := Unlock(1)));
    c' := Scene(s2, Nobody, c.th.(pc := Done(1)));
    First(c, t, 2, c1);
    First(c1, t, 1, c2);
    First(c2, t, 0, c');
    Stays(c', t, 0);
    EntriesSet(c.slots, e, Slot(k, v));
  }

  lemma LinksAlone(c: Scene, t: nat) returns (c': Scene)
    requires c.th.op.Put? && c.th.op.k > 0 && c.th.pc == LinkNew
    ensures Alone(c, t, 4) == c' && c'.lock.Nobody? && c'.th == c.th.(pc := Done(1))
    ensures Entries(c'.slots) == Entries(c.slots) + multiset{(c.th.op.k, c.th.op.v)}
  {
    hide Alone, Entries;
    var c1 := Scene(c.slots + [EMPTY, EMPTY, EMPTY], c.lock, c.th.(pc := WriteVal(|c.slots|)));
    First(c, t, 3, c1);
    EntriesAppend(c.slots);
    c' := StoresAlone(c1, t, |c.slots|);
  }

  /** A put of a key that the chain does not have, once it is about to take the lock, which is free. */
  lemma AddsAlone(c: Scene, t: nat) returns (n: nat, c': Scene)
    requires c.th.op.Put? && c.th.op.k > 0 && c.th.pc == TryLock && c.lock.Nobody?
    requires !KeyFrom(c.slots, c.th.op.k, 0)
    ensures n <= |c.slots| + 6 && Alone(c, t, n) == c' && c'.lock.Nobody? && c'.th == c.th.(pc := Done(1))
    ensures Entries(c'.slots) == Entries(c.slots) + multiset{(c.th.op.k, c.th.op.v)}
  {
    hide Alone, Entries;
    var c1 := Scene(c.slots, Somebody(t), c.th.(pc := Scan(0, -1)));
    var m, e := ScanAlone(c1, t, 0, -1);
    First(c, t, m, c1);
    if e < 0 {
      var c2 := c1.(th := c1.th.(pc := LinkNew));
      c' := LinksAlone(c2, t);
      AloneAdds(c, t, m + 1, 4);
      n := m + 5;
    } else {
      var c2 := c1.(th := c1.th.(pc := WriteVal(e)));
      c' := StoresAlone(c2, t, e);
      AloneAdds(c, t, m + 1, 3);
      n := m + 4;
    }
  }

  // ------------------------------------------------------------------ remove

  lemma {:induction false} RemoveAlone(c: Scene, t: nat, j: nat) returns (n: nat, c': Scene)
    requires Unique(c.slots) && c.th.op.Remove? && c.th.op.k > 0 && j <= |c.slots| && c.th.pc == RemScan(j)
    ensures n <= |c.slots| - j + 4 && Alone(c, t, n) == c' && c'.lock == c.lock && c'.th.op == c.th.op && c'.th.pc.Done?
    ensures Removes(c.slots, c.th.op.k, j, c'.slots, c'.th.pc.result)
    decreases |c.slots| - j
  {
    hide Alone, Entries;
    if j < |c.slots| { OneFurther(c.slots, c.th.op.k, j); }
    if j < |c.slots| && c.slots[j].key == c.th.op.k {
      n := 4;
      c' := TakesAlone(c, t, j);
      assert KeyAt(c.slots, j) > 0;
    } else {
      c' := Go(c, t);
      if j < |c.slots| {
        var c1 := c';
        n, c' := RemoveAlone(c1, t, j + 1);
        First(c, t, n, c1);
      } else {
        n := 0;
        Stays(c', t, 0);
        First(c, t, 0, c');
      }
      n := n + 1;
    }
  }

  /** What a remove answers: the value of the entry that it has taken out, or zero. */
  ghost predicate Removes(slots: seq<Slot>, k: nat, j: nat, slots': seq<Slot>, r: nat)
  {
    if KeyFrom(slots, k, j) then r != 0 && Entries(slots) == Entries(slots') + multiset{(k, r)}
    else r == 0 && slots' == slots
  }

  lemma TakesAlone(c: Scene, t: nat, j: nat) returns (c': Scene)
    requires c.th.op.Remove? && c.th.op.k > 0 && j < |c.slots| && c.th.pc == RemScan(j) && c.slots[j].key == c.th.op.k
    ensures Alone(c, t, 4) == c' && c'.lock == c.lock && c'.th == c.th.(pc := Done(c.slots[j].val))
    ensures Entries(c.slots) == Entries(c'.slots) + multiset{(c.th.op.k, c.slots[j].val)}
  {
    hide Alone, Entries;
    var v := c.slots[j].val;
    var s1, s2 := c.slots[j := Slot(KEY_BLCK, v)], c.slots[j := Slot(0, v)];
    assert s1[j := Slot(0, v)] == s2;
    var c1, c2 := c.(th := c.th.(pc := BlockCas(j))), Scene(s1, c.lock, c.th.(pc := ReadVal(j)));
    var c3 := Scene(s1, c.lock, c.th.(pc := Clear(j, v)));
    c' := Scene(s2, c.lock, c.th.(pc := Done(v)));
    First(c, t, 3, c1);
    First(c1, t, 2, c2);
    First(c2, t, 1, c3);
    First(c3, t, 0, c');
    Stays(c', t, 0);
    EntriesSet(c.slots, j, Slot(0, v));
  }

  // ------------------------------------------------------------------ an operation that is under way

  /** How many steps a thread may take before it answers, while the lock is free or its own. */
  function StepsLeft(n: nat, pc: Pc): nat
  {
    match pc
    case Peek(j) => if j <= n then 2 * n - j + 7 else 0
    case TryLock => n + 6
    case Scan(j, _) => if j <= n then n - j + 5 else 0
    case LinkNew => 4
    case WriteVal(_) => 3
    case WriteKey(_) => 2
    case Unlock(_) => 1
    case RemScan(j) => if j <= n then n - j + 4 else 0
    case BlockCas(_) => 3
    case ReadVal(_) => 2
    case Clear(_, _) => 1
    case Done(_) => 0
  }

  /** A put that is about to take the lock, while somebody has it. */
  predicate Waits(c: Scene) { c.th.pc == TryLock && c.lock.Somebody? }

  lemma StepsGetFewer(c: Scene, t: nat)
    requires CanGo(c) && !Waits(c)
    ensures StepsLeft(|c.slots|, c.th.pc) > 0
    ensures StepsLeft(|Go(c, t).slots|, Go(c, t).th.pc) < StepsLeft(|c.slots|, c.th.pc)
    ensures Shape(Go(c, t).slots, Go(c, t).th) && Go(c, t).th.op == c.th.op
  {
  }

  lemma {:induction false} AnswersOrWaits(c: Scene, t: nat) returns (n: nat)
    requires Shape(c.slots, c.th)
    ensures n <= StepsLeft(|c.slots|, c.th.pc)
    ensures var c' := Alone(c, t, n); c'.th.op == c.th.op && (c'.th.pc.Done? || Waits(c'))
    decreases StepsLeft(|c.slots|, c.th.pc)
  {
    n := 0;
    if !c.th.pc.Done? && !Waits(c) {
      StepsGetFewer(c, t);
      hide Go;
      n := AnswersOrWaits(Go(c, t), t);
      First(c, t, n, Go(c, t));
      n := n + 1;
    }
  }

  /** A put that waits does so as long as nobody else steps. */
  lemma {:induction false} WaitsOn(c: Scene, t: nat, n: nat)
    requires CanGo(c) && Waits(c)
    ensures Alone(c, t, n) == c
    decreases n
  {
    if n > 0 { WaitsOn(c, t, n - 1); }
  }

  // ------------------------------------------------------------------ the theorems

  /** A call of op made by thread t. */
  function Called(st: State, t: nat, op: Op): State
  {
    st.(threads := st.threads[t := Thread(op, |st.events|, if op.Put? then Peek(0) else RemScan(0))])
  }

  predicate MayCall(st: State, t: nat, op: Op)
  {
    (t in st.threads ==> st.threads[t].pc.Done?) && op.k != 0 && (op.Put? ==> op.v != 0)
  }

  lemma CallsNext(r: seq<State>, t: nat, op: Op)
    requires |r| > 0 && Run(r) && MayCall(r[|r| - 1], t, op)
    ensures Run(r + [Called(r[|r| - 1], t, op)])
  {
    var st := r[|r| - 1];
    var r' := r + [Called(st, t, op)];
    assert Next(st, Called(st, t, op)) by { assert Invoke(st, t, op, Called(st, t, op)); }
    hide Next;
    forall i | 0 <= i < |r'| - 1 ensures Next(r'[i], r'[i + 1]) {
      if i < |r| - 1 { assert r'[i] == r[i] && r'[i + 1] == r[i + 1]; }
    }
  }

  /** What an operation answers and does to the entries. */
  ghost predicate Performs(slots: seq<Slot>, op: Op, slots': seq<Slot>, answer: nat)
  {
    match op
    case Put(k, v) =>
      if KeyFrom(slots, k, 0) then answer == 0 && slots' == slots
      else answer == 1 && Entries(slots') == Entries(slots) + multiset{(k, v)}
    case Remove(k) => Removes(slots, k, 0, slots', answer)
  }

  lemma SceneAlone(c: Scene, t: nat) returns (n: nat, c': Scene)
    requires Unique(c.slots) && c.th.op.k > 0 && c.th.pc == if c.th.op.Put? then Peek(0) else RemScan(0)
    requires c.th.op.Put? && !KeyFrom(c.slots, c.th.op.k, 0) ==> c.lock.Nobody?
    ensures n <= 2 * |c.slots| + 7 && Alone(c, t, n) == c' && c'.th.op == c.th.op && c'.th.pc.Done?
    ensures Performs(c.slots, c.th.op, c'.slots, c'.th.pc.result) && c'.lock == c.lock
  {
    hide Alone, Entries, Unique, KeyFrom;
    if c.th.op.Put? {
      n := PeekAlone(c, t, 0);
      c' := Alone(c, t, n);
      if !KeyFrom(c.slots, c.th.op.k, 0) {
        var m;
        m, c' := AddsAlone(c.(th := c.th.(pc := TryLock)), t);
        AloneAdds(c, t, n, m);
        n := n + m;
      }
    } else {
      n, c' := RemoveAlone(c, t, 0);
    }
  }

  lemma UniqueInRun(r: seq<State>, i: nat)
    requires Run(r) && i < |r|
    ensures Unique(r[i].slots) && forall t :: t in r[i].threads ==> Shape(r[i].slots, r[i].threads[t])
  {
    RunOk(r, i);
    hide Run, Answered, Inserts, Removals, Entries, Unique;
    forall t | t in r[i].threads ensures Shape(r[i].slots, r[i].threads[t]) { assert ThreadOk(r[i], t); }
  }

  /** From any state of any run, a call whose thread steps alone answers within 2 * n + 7 steps on a chain of n slots,
      whatever the other threads are in the middle of: a put whether it has added its entry, a remove the value of the
      entry that it has taken out, or zero.  Only a put of a new key needs the lock to be free. */
  lemma CallAlone(r: seq<State>, t: nat, op: Op) returns (r': seq<State>)
    requires |r| > 0 && Run(r) && MayCall(r[|r| - 1], t, op)
    requires op.Put? && !KeyFrom(r[|r| - 1].slots, op.k, 0) ==> r[|r| - 1].lock.Nobody?
    ensures Run(r') && r + [Called(r[|r| - 1], t, op)] <= r' && |r'| <= |r| + 1 + 2 * |r[|r| - 1].slots| + 7
    ensures var st, st' := r[|r| - 1], r'[|r'| - 1];
            && t in st'.threads && st'.threads == st.threads[t := st'.threads[t]]
            && st'.threads[t].op == op && st'.threads[t].pc.Done? && st'.lock == st.lock
            && Performs(st.slots, op, st'.slots, st'.threads[t].pc.result)
  {
    hide Run, Alone, Performs, KeyFrom, Unique;
    var st := r[|r| - 1];
    var st1 := Called(st, t, op);
    CallsNext(r, t, op);
    UniqueInRun(r + [st1], |r|);
    var n, c' := SceneAlone(SceneOf(st1, t), t);
    r' := RunsAlone(r + [st1], t, n);
  }

  /** From any point of an operation, with its thread stepping alone, it answers, or it is a put that comes to wait for
      a lock that somebody else has. */
  lemma OperationEndsAlone(r: seq<State>, t: nat) returns (r': seq<State>)
    requires |r| > 0 && Run(r) && t in r[|r| - 1].threads
    ensures |r'| > 0 && Run(r') && r <= r'
    ensures |r'| <= |r| + StepsLeft(|r[|r| - 1].slots|, r[|r| - 1].threads[t].pc)
    ensures var st, st' := r[|r| - 1], r'[|r'| - 1];
            && t in st'.threads && st'.threads == st.threads[t := st'.threads[t]]
            && st'.threads[t].op == st.threads[t].op
            && (st'.threads[t].pc.Done? || Waits(SceneOf(st', t)))
  {
    hide Run, Alone, StepsLeft, Unique;
    UniqueInRun(r, |r| - 1);
    var n := AnswersOrWaits(SceneOf(r[|r| - 1], t), t);
    r' := RunsAlone(r, t, n);
  }

  /** The lock is taken only by a put that is in its critical section. */
  ghost predicate LockInUse(st: State)
  {
    st.lock.Somebody? ==> st.lock.t in st.threads && InCrit(st.threads[st.lock.t].pc)
  }

  lemma {:induction false} LockIsInUse(r: seq<State>, i: nat)
    requires Run(r) && i < |r|
    ensures LockInUse(r[i])
  {
    if i > 0 {
      LockIsInUse(r, i - 1);
      RunOk(r, i - 1);
      assert Next(r[i - 1], r[i - 1 + 1]);
      hide Run, StateOk;
      NextKeepsLock(r[i - 1], r[i]);
    }
  }

  lemma NextKeepsLock(st: State, st': State)
    requires StateOk(st) && LockInUse(st) && Next(st, st')
    ensures LockInUse(st')
  {
    hide Unique, Answered, Inserts, Removals, Entries, OneBlocker, Knows;
    if t, op :| Invoke(st, t, op, st') {
      assert st.lock.Somebody? ==> st.lock.t != t;
    } else {
      var t :| CanStep(st, t) && st' == StepThread(st, t);
      assert ThreadOk(st, t);
    }
  }
}
