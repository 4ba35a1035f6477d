/** What a failed operation on the chain with locked insertion has seen: a put that returns false has met its key, and a
    remove that returns zero has seen a moment without its key. */
module ClhtLockInsAnswers {
  import opened History
  import opened ClhtLockIns

  /** A get would find the key in slot m. */
  predicate FoundIn(st: State, k: nat, m: int) { k != 0 && KeyAt(st.slots, m) == k }

  ghost predicate Present(st: State, k: nat) { exists m :: FoundIn(st, k, m) }

  // ------------------------------------------------------------------ a remove that meets its key

  /** Thread t, which removes k, has not passed slot m. */
  predicate OnItsWay(st: State, t: nat, k: nat, m: int)
  {
    && t in st.threads && st.threads[t].op == Remove(k)
    && match st.threads[t].pc
       case RemScan(j) => j <= m
       case BlockCas(j) => j == m
       case _ => false
  }

  lemma SameSlot(st: State, st': State, k: nat, m: int, m': int, u: nat)
    requires StateOk(st) && CanStep(st, u) && st' == StepThread(st, u) && StateOk(st')
    requires FoundIn(st, k, m) && FoundIn(st', k, m')
    ensures m' == m
  {
    hide Answered, Inserts, Removals, Entries, OneBlocker;
    assert ThreadOk(st, u);
    hide ThreadOk, Step;
    KeyMoves(st.slots, st.lock, u, st.threads[u], k, m, m');
  }

  /** A key that is there is not written to another slot, and a slot changes its key only when no other does. */
  lemma KeyMoves(slots: seq<Slot>, lock: Holder, t: nat, th: Thread, k: nat, m: int, m': int)
    requires Shape(slots, th) && !th.pc.Done? && Knows(slots, th) && th.op.k != 0
    requires k != 0 && KeyAt(slots, m) == k && KeyAt(Step(slots, lock, t, th).slots, m') == k
    requires Unique(slots)
    ensures m' == m
  {
    if KeyAt(slots, m') != k { KeyAppears(slots, lock, t, th, k, m'); }
  }

  /** Only a put that has found nothing makes a key appear. */
  lemma KeyAppears(slots: seq<Slot>, lock: Holder, t: nat, th: Thread, k: nat, m': int)
    requires Shape(slots, th) && !th.pc.Done? && Knows(slots, th) && th.op.k != 0
    requires k != 0 && KeyAt(slots, m') != k && KeyAt(Step(slots, lock, t, th).slots, m') == k
    ensures forall m :: KeyAt(slots, m) != k
  {
    LinkKeepsKeys(slots, m');
  }

  lemma LinkKeepsKeys(slots: seq<Slot>, m: int)
    ensures KeyAt(slots + [EMPTY, EMPTY, EMPTY], m) == KeyAt(slots, m)
  {
  }

  lemma StepOnTheWay(st: State, st': State, t: nat, k: nat, m0: int) returns (m: int)
    requires StateOk(st) && StateOk(st') && Next(st, st') && Present(st', k)
    requires FoundIn(st, k, m0) && OnItsWay(st, t, k, m0)
    ensures FoundIn(st', k, m) && OnItsWay(st', t, k, m)
  {
    hide StateOk, Step;
    m :| FoundIn(st', k, m);
    if u, op :| Invoke(st, u, op, st') {
      SlotsAreUnique(st, k, m0, m);
    } else {
      var u :| CanStep(st, u) && st' == StepThread(st, u);
      SameSlot(st, st', k, m0, m, u);
      if u == t { OwnStep(st, t, k, m); }
    }
  }

  lemma SlotsAreUnique(st: State, k: nat, m: int, m': int)
    requires StateOk(st) && FoundIn(st, k, m) && FoundIn(st, k, m')
    ensures m == m'
  {
    hide Answered, Inserts, Removals, Entries, OneBlocker, ThreadOk;
  }

  lemma OwnStep(st: State, t: nat, k: nat, m: int)
    requires StateOk(st) && CanStep(st, t) && FoundIn(st, k, m) && OnItsWay(st, t, k, m)
    requires FoundIn(StepThread(st, t), k, m)
    ensures OnItsWay(StepThread(st, t), t, k, m)
  {
    var pc := st.threads[t].pc;
    if pc.RemScan? && FoundIn(st, k, pc.j) { SlotsAreUnique(st, k, m, pc.j); }
    hide StateOk;
  }

  ghost predicate PresentThroughout(r: seq<State>, a: nat, b: nat, k: nat)
  {
    forall j :: a <= j <= b && j < |r| ==> Present(r[j], k)
  }

  lemma {:induction false} StaysOnItsWay(r: seq<State>, a: nat, b: nat, t: nat, k: nat) returns (m: int)
    requires Run(r) && a <= b < |r| && PresentThroughout(r, a, b, k)
    requires t in r[a].threads && r[a].threads[t].op == Remove(k) && r[a].threads[t].pc == RemScan(0)
    ensures FoundIn(r[b], k, m) && OnItsWay(r[b], t, k, m)
  {
    hide StateOk, Next;
    assert Present(r[b], k);
    if a == b {
      m :| FoundIn(r[b], k, m);
    } else {
      m := StaysOnItsWay(r, a, b - 1, t, k);
      assert Next(r[b - 1], r[b - 1 + 1]);
      RunOk(r, b - 1);
      RunOk(r, b);
      m := StepOnTheWay(r[b - 1], r[b], t, k, m);
    }
  }

  /** A remove that has returned, in particular one that has returned zero, has seen a moment since it began at
      which its key could not be found. */
  lemma RemoveReturnsAfterAbsence(r: seq<State>, a: nat, b: nat, t: nat, k: nat) returns (j: nat)
    requires Run(r) && a <= b < |r|
    requires t in r[a].threads && r[a].threads[t].op == Remove(k) && r[a].threads[t].pc == RemScan(0)
    requires t in r[b].threads && r[b].threads[t].pc.Done?
    ensures a <= j <= b && !Present(r[j], k)
  {
    hide Run;
    if PresentThroughout(r, a, b, k) {
      var m := StaysOnItsWay(r, a, b, t, k);
      j := a;
    } else {
      j :| a <= j <= b && j < |r| && !Present(r[j], k);
    }
  }

  // ------------------------------------------------------------------ a put that does not meet its key

  /** The put of thread t has neither met its key nor stored it. */
  predicate Searching(st: State, t: nat, op: Op)
  {
    && t in st.threads && st.threads[t].op == op && op.Put?
    && var pc := st.threads[t].pc; pc.Peek? || pc.TryLock? || pc.Scan? || pc.LinkNew? || pc.WriteVal? || pc.WriteKey?
  }

  lemma SearchGoesOn(st: State, st': State, t: nat, op: Op)
    requires Next(st, st') && Searching(st, t, op) && op.k != 0 && !Present(st, op.k) && !Present(st', op.k)
    ensures Searching(st', t, op)
  {
    hide Present;
    if u, o :| Invoke(st, u, o, st') {
    } else {
      var u :| CanStep(st, u) && st' == StepThread(st, u);
      if u == t { OwnSearchGoesOn(st, t, op); }
    }
  }

  lemma OwnSearchGoesOn(st: State, t: nat, op: Op)
    requires CanStep(st, t) && Searching(st, t, op) && op.k != 0 && !Present(st, op.k)
    requires !Present(StepThread(st, t), op.k)
    ensures Searching(StepThread(st, t), t, op)
  {
    var st' := StepThread(st, t);
    match st.threads[t].pc
    case Peek(j) => assert !FoundIn(st, op.k, j);
    case Scan(j, _) => assert !FoundIn(st, op.k, j);
    case WriteKey(e) => assert !FoundIn(st', op.k, e);
    case _ =>
  }

  ghost predicate AbsentThroughout(r: seq<State>, a: nat, b: nat, k: nat)
  {
    forall j :: a <= j <= b && j < |r| ==> !Present(r[j], k)
  }

  lemma {:induction false} KeepsSearching(r: seq<State>, a: nat, b: nat, t: nat, op: Op)
    requires Run(r) && a <= b < |r| && op.k != 0 && AbsentThroughout(r, a, b, op.k) && Searching(r[a], t, op)
    ensures Searching(r[b], t, op)
  {
    hide Next, Searching;
    if a < b {
      KeepsSearching(r, a, b - 1, t, op);
      assert Next(r[b - 1], r[b - 1 + 1]);
      SearchGoesOn(r[b - 1], r[b], t, op);
    }
  }

  /** A put that has returned, in particular one that has returned false, has seen a moment since it began at which its
      key could be found. */
  lemma PutReturnsAfterPresence(r: seq<State>, a: nat, b: nat, t: nat, op: Op) returns (j: nat)
    requires Run(r) && a <= b < |r| && t in r[a].threads && r[a].threads[t].op == op
    requires op.Put? && op.k != 0 && r[a].threads[t].pc == Peek(0)
    requires t in r[b].threads && r[b].threads[t].pc.Done?
    ensures a <= j <= b && Present(r[j], op.k)
  {
    hide Run;
    if AbsentThroughout(r, a, b, op.k) {
      KeepsSearching(r, a, b, t, op);
      j := a;
    } else {
      j :| a <= j <= b && j < |r| && Present(r[j], op.k);
    }
  }
}
