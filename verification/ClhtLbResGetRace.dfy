/** Why a get in the resizing lock-based table needs values that are stored only once: a run in which one value is
    stored twice, and a get returns it although its key is never bound to it while the get is under way. */
module ClhtLbResGetRace {
  import opened Hashing
  import opened History
  import opened ClhtLbRes
  import opened ClhtLbResProof
  import opened ClhtLbResStale
  import opened ClhtLbResOverlap
  import opened ClhtLbResGet

  /** What there is to see while one thread works on a table of one bucket: its slots, the map and the thread's
      point. */
  datatype View = View(slots: seq<Slot>, lock: LockState, m: map<nat, nat>, pc: Pc)

  ghost predicate Shows(st: State, op: Op, w: View)
  {
    && |st.tables| == 1 && st.tables[0] == [Bin(w.lock, w.slots)] && st.resizer.Nobody? && st.contents == w.m
    && 0 in st.threads && st.threads[0].op == op && st.threads[0].pc == w.pc
  }

  /** The points of a put and a remove, on table 0. */
  predicate Known(w: View, op: Op)
  {
    && !op.Resize?
    && match w.pc
       case LoadHt => true
       case Peek(h, j) => h == 0 && j <= |w.slots|
       case TryLock(h) => h == 0 && w.lock == FREE
       case Scan(h, j, e) => h == 0 && j <= |w.slots| && e < j
       case WriteVal(h, e) => h == 0 && e < |w.slots| && op.Put?
       case WriteKey(h, e) => h == 0 && e < |w.slots| && op.Put?
       case ReadVal(h, j) => h == 0 && j < |w.slots| && op.Remove?
       case ClearKey(h, j, _) => h == 0 && j < |w.slots| && op.Remove?
       case Unlock(h, _) => h == 0
       case _ => false
  }

  /** The step of the thread, as it shows. */
  function Follow(w: View, op: Op): View
    requires Known(w, op)
  {
    match w.pc
    case LoadHt => w.(pc := Peek(0, 0))
    case Peek(_, j) =>
      w.(pc := if j == |w.slots| then (if op.Put? then TryLock(0) else Done(0))
               else if w.slots[j].key == op.k then (if op.Put? then Done(0) else TryLock(0))
               else Peek(0, j + 1))
    case TryLock(_) => w.(lock := UPDATE(0), pc := Scan(0, 0, -1))
    case Scan(_, j, e) =>
      w.(pc := if j == |w.slots| then
                 (if op.Remove? then Unlock(0, 0) else if e >= 0 then WriteVal(0, e) else LinkNew(0))
               else if w.slots[j].key == op.k then (if op.Put? then Unlock(0, 0) else ReadVal(0, j))
               else Scan(0, j + 1, if e < 0 && w.slots[j].key == 0 then j else e))
    case WriteVal(_, e) => w.(slots := w.slots[e := w.slots[e].(val := op.v)], pc := WriteKey(0, e))
    case WriteKey(_, e) =>
      w.(slots := w.slots[e := w.slots[e].(key := op.k)], m := w.m[op.k := op.v], pc := Unlock(0, 1))
    case ReadVal(_, j) => w.(pc := ClearKey(0, j, w.slots[j].val))
    case ClearKey(_, j, v) =>
      w.(slots := w.slots[j := w.slots[j].(key := 0)], m := w.m - {op.k}, pc := Unlock(0, v))
    case Unlock(_, v) => w.(lock := FREE, pc := Done(v))
  }

  lemma OneBin(st: State, op: Op, w: View)
    requires Shows(st, op, w) && Known(w, op)
    ensures IsTable(st, 0) && Home(st, 0, op.k) == 0 && Shape(st, st.threads[0])
    ensures forall j :: Cell(st, 0, op.k, j) == if 0 <= j < |w.slots| then w.slots[j] else EMPTY
    ensures ChainLength(st, 0, op.k) == |w.slots| && LockOf(st, 0, op.k) == w.lock
  {
  }

  lemma ReadingFollows(st: State, op: Op, w: View)
    requires Shows(st, op, w) && Known(w, op) && Reading(w.pc)
    ensures Shape(st, st.threads[0])
    ensures Shows(Log(Goto(st, 0, NextPc(st, st.threads[0])), Internal), op, Follow(w, op))
  {
    hide BinOf, Home, Cell, ChainLength, LockOf, Shape;
    OneBin(st, op, w);
  }

  lemma WritingFollows(st: State, op: Op, w: View)
    requires Shows(st, op, w) && Known(w, op) && Writing(w.pc)
    ensures Shape(st, st.threads[0]) && Shows(StepWrite(st, 0, st.threads[0]), op, Follow(w, op))
  {
    hide BinOf, Home, Shape;
    OneBin(st, op, w);
  }

  lemma LockingFollows(st: State, op: Op, w: View)
    requires Shows(st, op, w) && Known(w, op) && (w.pc.TryLock? || w.pc.Unlock?)
    ensures Shape(st, st.threads[0])
    ensures w.pc.TryLock? ==> Shows(StepTryLock(st, 0, st.threads[0]), op, Follow(w, op))
    ensures w.pc.Unlock? ==> Shows(StepUnlock(st, 0, st.threads[0]), op, Follow(w, op))
  {
    hide BinOf, Home, Shape;
    OneBin(st, op, w);
  }

  lemma StepFollows(st: State, op: Op, w: View)
    requires Shows(st, op, w) && Known(w, op)
    ensures CanStep(st, 0) && Shows(Step(st, 0), op, Follow(w, op))
  {
    hide Step, NextPc, StepWrite, StepTryLock, StepUnlock, StepResize, Follow, Shape;
    OneBin(st, op, w);
    StepKinds(st, 0);
    if Reading(w.pc) { ReadingFollows(st, op, w); }
    else if Writing(w.pc) { WritingFollows(st, op, w); }
    else { LockingFollows(st, op, w); }
  }

  /** From position a on, k is not bound to v. */
  ghost predicate Never(r: seq<State>, a: nat, k: nat, v: nat)
  {
    forall i :: a <= i < |r| && k in r[i].contents ==> r[i].contents[k] != v
  }

  predicate Apart(m: map<nat, nat>, k: nat, v: nat) { k in m ==> m[k] != v }

  /** Thread 0 takes a step. */
  lemma Goes(r: seq<State>, op: Op, w: View, a: nat, k: nat, v: nat) returns (r': seq<State>)
    requires |r| > 0 && Run(r) && Shows(r[|r| - 1], op, w) && Known(w, op)
    ensures |r'| > 0 && Run(r') && Shows(r'[|r'| - 1], op, Follow(w, op)) && r <= r' && |r'| == |r| + 1
    ensures Never(r, a, k, v) && Apart(Follow(w, op).m, k, v) ==> Never(r', a, k, v)
  {
    hide Step, Follow, Shape, Run;
    var st := r[|r| - 1];
    StepFollows(st, op, w);
    assert Next(st, Step(st, 0));
    hide Next;
    Appended(r, Step(st, 0));
    r' := r + [Step(st, 0)];
  }

  /** A put of the only key, up to the store of its value. */
  lemma PutStoresValue(r: seq<State>, k: nat, v: nat, x: nat, a: nat, q: nat, y: nat) returns (r': seq<State>)
    requires |r| > 0 && Run(r) && k != 0 && v != 0 && Never(r, a, q, y)
    requires Shows(r[|r| - 1], Put(k, v), View([Slot(0, x), EMPTY, EMPTY], FREE, map[], LoadHt))
    ensures |r'| > 0 && Run(r') && r <= r' && Never(r', a, q, y)
    ensures Shows(r'[|r'| - 1], Put(k, v), View([Slot(0, v), EMPTY, EMPTY], UPDATE(0), map[], WriteKey(0, 0)))
  {
    hide Run, Shows, Never;
    var op, s := Put(k, v), [Slot(0, x), EMPTY, EMPTY];
    r' := Goes(r, op, View(s, FREE, map[], LoadHt), a, q, y);
    r' := Goes(r', op, View(s, FREE, map[], Peek(0, 0)), a, q, y);
    r' := Goes(r', op, View(s, FREE, map[], Peek(0, 1)), a, q, y);
    r' := Goes(r', op, View(s, FREE, map[], Peek(0, 2)), a, q, y);
    r' := Goes(r', op, View(s, FREE, map[], Peek(0, 3)), a, q, y);
    r' := Goes(r', op, View(s, FREE, map[], TryLock(0)), a, q, y);
    r' := Goes(r', op, View(s, UPDATE(0), map[], Scan(0, 0, -1)), a, q, y);
    r' := Goes(r', op, View(s, UPDATE(0), map[], Scan(0, 1, 0)), a, q, y);
    r' := Goes(r', op, View(s, UPDATE(0), map[], Scan(0, 2, 0)), a, q, y);
    r' := Goes(r', op, View(s, UPDATE(0), map[], Scan(0, 3, 0)), a, q, y);
    r' := Goes(r', op, View(s, UPDATE(0), map[], WriteVal(0, 0)), a, q, y);
    assert s[0 := Slot(0, v)] == [Slot(0, v), EMPTY, EMPTY];
  }

  /** The rest of the put. */
  lemma PutStoresKey(r: seq<State>, k: nat, v: nat, a: nat, q: nat, y: nat) returns (r': seq<State>)
    requires |r| > 0 && Run(r) && k != 0 && v != 0 && Never(r, a, q, y) && Apart(map[k := v], q, y)
    requires Shows(r[|r| - 1], Put(k, v), View([Slot(0, v), EMPTY, EMPTY], UPDATE(0), map[], WriteKey(0, 0)))
    ensures |r'| > 0 && Run(r') && r <= r' && Never(r', a, q, y)
    ensures Shows(r'[|r'| - 1], Put(k, v), View([Slot(k, v), EMPTY, EMPTY], FREE, map[k := v], Done(1)))
  {
    hide Run, Shows, Never;
    var op := Put(k, v);
    r' := Goes(r, op, View([Slot(0, v), EMPTY, EMPTY], UPDATE(0), map[], WriteKey(0, 0)), a, q, y);
    assert [Slot(0, v), EMPTY, EMPTY][0 := Slot(k, v)] == [Slot(k, v), EMPTY, EMPTY];
    r' := Goes(r', op, View([Slot(k, v), EMPTY, EMPTY], UPDATE(0), map[k := v], Unlock(0, 1)), a, q, y);
  }

  /** A whole remove of the only key.  Its value stays in the slot. */
  lemma RemovesKey(r: seq<State>, k: nat, v: nat, a: nat, q: nat, y: nat) returns (r': seq<State>)
    requires |r| > 0 && Run(r) && k != 0 && v != 0 && Never(r, a, q, y) && Apart(map[k := v], q, y)
    requires Shows(r[|r| - 1], Remove(k), View([Slot(k, v), EMPTY, EMPTY], FREE, map[k := v], LoadHt))
    ensures |r'| > 0 && Run(r') && r <= r' && Never(r', a, q, y)
    ensures Shows(r'[|r'| - 1], Remove(k), View([Slot(0, v), EMPTY, EMPTY], FREE, map[], Done(v)))
  {
    hide Run, Shows, Never;
    var op, s, m := Remove(k), [Slot(k, v), EMPTY, EMPTY], map[k := v];
    r' := Goes(r, op, View(s, FREE, m, LoadHt), a, q, y);
    r' := Goes(r', op, View(s, FREE, m, Peek(0, 0)), a, q, y);
    r' := Goes(r', op, View(s, FREE, m, TryLock(0)), a, q, y);
    r' := Goes(r', op, View(s, UPDATE(0), m, Scan(0, 0, -1)), a, q, y);
    r' := Goes(r', op, View(s, UPDATE(0), m, ReadVal(0, 0)), a, q, y);
    r' := Goes(r', op, View(s, UPDATE(0), m, ClearKey(0, 0, v)), a, q, y);
    assert s[0 := Slot(0, v)] == [Slot(0, v), EMPTY, EMPTY] && m - {k} == map[];
    r' := Goes(r', op, View([Slot(0, v), EMPTY, EMPTY], UPDATE(0), map[], Unlock(0, v)), a, q, y);
  }

  /** Thread 0 begins its next operation. */
  lemma BeginsNext(r: seq<State>, op0: Op, w: View, op: Op, a: nat, q: nat, y: nat) returns (r': seq<State>)
    requires |r| > 0 && Run(r) && Shows(r[|r| - 1], op0, w) && w.pc.Done? && GoodOp(op)
    requires Never(r, a, q, y) && Apart(w.m, q, y)
    ensures |r'| > |r| && Run(r') && r <= r' && Never(r', a, q, y) && Shows(r'[|r'| - 1], op, w.(pc := LoadHt))
  {
    hide Run;
    r' := Begins(r, 0, op);
  }

  /** A put, and a remove after it. */
  lemma PutsAndRemoves(r: seq<State>, op0: Op, r0: nat, x: nat, k: nat, v: nat, a: nat, q: nat, y: nat)
    returns (r': seq<State>, i: nat)
    requires |r| > 0 && Run(r) && k != 0 && v != 0 && Never(r, a, q, y) && Apart(map[k := v], q, y)
    requires Shows(r[|r| - 1], op0, View([Slot(0, x), EMPTY, EMPTY], FREE, map[], Done(r0)))
    ensures |r'| > 0 && Run(r') && r <= r' && Never(r', a, q, y) && |r| <= i < |r'|
    ensures Shows(r'[i], Put(k, v), View([Slot(k, v), EMPTY, EMPTY], FREE, map[k := v], Done(1)))
    ensures Shows(r'[|r'| - 1], Remove(k), View([Slot(0, v), EMPTY, EMPTY], FREE, map[], Done(v)))
  {
    hide Run, Shows, Never;
    r' := BeginsNext(r, op0, View([Slot(0, x), EMPTY, EMPTY], FREE, map[], Done(r0)), Put(k, v), a, q, y);
    r' := PutStoresValue(r', k, v, x, a, q, y);
    r' := PutStoresKey(r', k, v, a, q, y);
    i := |r'| - 1;
    r' := BeginsNext(r', Put(k, v), View([Slot(k, v), EMPTY, EMPTY], FREE, map[k := v], Done(1)), Remove(k), a, q, y);
    r' := RemovesKey(r', k, v, a, q, y);
  }

  /** Thread 0 begins a put in a fresh table of one bucket. */
  lemma FreshTable(k: nat, v: nat) returns (r: seq<State>)
    requires k != 0 && v != 0
    ensures |r| > 0 && Run(r)
    ensures Shows(r[|r| - 1], Put(k, v), View([EMPTY, EMPTY, EMPTY], FREE, map[], LoadHt))
  {
    var st := State([NewTable(1)], {}, Nobody, [], map[], map[], map[], [map[]], []);
    assert Init(st);
    r := Begins([st], 0, Put(k, v));
  }

  lemma NeverYet(r: seq<State>, op: Op, w: View, k: nat, v: nat)
    requires |r| > 0 && Shows(r[|r| - 1], op, w) && Apart(w.m, k, v)
    ensures Never(r, |r| - 1, k, v)
  {
  }

  /** What a get reads there. */
  lemma SlotShown(st: State, op: Op, w: View, k: nat)
    requires Shows(st, op, w) && |w.slots| > 0
    ensures |st.tables| == 1 && CellOf(st, 0, k, 0) == w.slots[0]
  {
  }

  /** For any two keys, the same one twice included, and any two values: thread 0 puts and removes (k1, v), puts and
      removes (k2, w), and stores v for k1 once more.  A get of k2 that begins after the first remove returns v, while
      k2 is never bound to v from its first load to its last. */
  lemma EqualValuesMisleadGet(k1: nat, k2: nat, v: nat, w: nat)
    returns (r: seq<State>, at: seq<nat>, ps: seq<Reader>)
    requires k1 != 0 && k2 != 0 && v != 0 && w != 0 && v != w
    ensures Run(r) && Gets(r, k2, at, ps) && ps[|at|] == Returned(v)
    ensures forall i :: at[0] <= i <= at[|at| - 1] && k2 in r[i].contents ==> r[i].contents[k2] != v
  {
    hide Run, Shows, Never, CellOf;
    var a, b;
    r, a := FirstRemove(k1, v);
    NeverYet(r, Remove(k1), View([Slot(0, v), EMPTY, EMPTY], FREE, map[], Done(v)), k2, v);
    SlotShown(r[a], Remove(k1), View([Slot(0, v), EMPTY, EMPTY], FREE, map[], Done(v)), k2);
    var r0 := r;
    r, b := PutsAndRemoves(r, Remove(k1), v, v, k2, w, a, k2, v);
    SlotShown(r[b], Put(k2, w), View([Slot(k2, w), EMPTY, EMPTY], FREE, map[k2 := w], Done(1)), k2);
    var r1 := r;
    r := BeginsNext(r, Remove(k2), View([Slot(0, w), EMPTY, EMPTY], FREE, map[], Done(w)), Put(k1, v), a, k2, v);
    r := PutStoresValue(r, k1, v, w, a, k2, v);
    var c := |r| - 1;
    SlotShown(r[c], Put(k1, v), View([Slot(0, v), EMPTY, EMPTY], UPDATE(0), map[], WriteKey(0, 0)), k2);
    assert r[a] == r0[a] && r[b] == r1[b];
    at := [a, a, b, c];
    ps := [Start, FirstVal(0, 0), KeyOf(0, 0, v), SecondVal(0, 0, v), Returned(v)];
    NeverIs(r, a, k2, v);
  }

  lemma FirstRemove(k: nat, v: nat) returns (r: seq<State>, a: nat)
    requires k != 0 && v != 0
    ensures |r| > 0 && Run(r) && a == |r| - 1
    ensures Shows(r[a], Remove(k), View([Slot(0, v), EMPTY, EMPTY], FREE, map[], Done(v)))
  {
    hide Run, Shows, Never;
    r := FreshTable(k, v);
    NeverAfter(r);
    r := PutStoresValue(r, k, v, 0, |r|, 0, 0);
    NeverAfter(r);
    r := PutStoresKey(r, k, v, |r|, 0, 0);
    NeverAfter(r);
    r := BeginsNext(r, Put(k, v), View([Slot(k, v), EMPTY, EMPTY], FREE, map[k := v], Done(1)), Remove(k), |r|, 0, 0);
    NeverAfter(r);
    r := RemovesKey(r, k, v, |r|, 0, 0);
    a := |r| - 1;
  }

  lemma NeverAfter(r: seq<State>)
    ensures Never(r, |r|, 0, 0)
  {
  }

  lemma NeverIs(r: seq<State>, a: nat, k: nat, v: nat)
    requires Never(r, a, k, v)
    ensures forall i :: a <= i < |r| && k in r[i].contents ==> r[i].contents[k] != v
  {
  }
}
