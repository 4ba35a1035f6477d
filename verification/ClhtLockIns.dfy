/** The bucket chain with locked insertion and lock-free removal: a put works under the lock of the chain,
    a remove replaces the key by KEY_BLCK with one compare-and-swap, reads the value, and frees the slot.
    Each step is one load, store or compare-and-swap. */
module ClhtLockIns {
  import opened History

  /** No key of the program is negative; 0 marks a free slot. */
  const KEY_BLCK: int := -1

  datatype Slot = Slot(key: int, val: nat)

  const EMPTY: Slot := Slot(0, 0)

  datatype Op = Put(k: nat, v: nat) | Remove(k: nat)

  datatype Pc =
    | Peek(j: nat)
    | TryLock
    | Scan(j: nat, empty: int)
    | LinkNew
    | WriteVal(e: nat)
    | WriteKey(e: nat)
    | Unlock(r: nat)
    | RemScan(j: nat)
    | BlockCas(j: nat)
    | ReadVal(j: nat)
    | Clear(j: nat, r: nat)
    | Done(result: nat)

  datatype Thread = Thread(op: Op, start: nat, pc: Pc)

  datatype Holder = Nobody | Somebody(t: nat)

  /** The chain as one sequence of slots, and its lock. */
  datatype State = State(slots: seq<Slot>, lock: Holder, threads: map<nat, Thread>, events: seq<Event>)

  predicate Shape(slots: seq<Slot>, th: Thread)
  {
    match th.pc
    case Peek(j) => th.op.Put? && j <= |slots|
    case TryLock => th.op.Put?
    case Scan(j, e) => th.op.Put? && j <= |slots| && e < j
    case LinkNew => th.op.Put?
    case WriteVal(e) => th.op.Put? && e < |slots|
    case WriteKey(e) => th.op.Put? && e < |slots|
    case Unlock(r) => th.op.Put?
    case RemScan(j) => th.op.Remove? && j <= |slots|
    case BlockCas(j) => th.op.Remove? && j < |slots|
    case ReadVal(j) => th.op.Remove? && j < |slots|
    case Clear(j, r) => th.op.Remove? && j < |slots|
    case Done(r) => true
  }

  datatype Out = Out(slots: seq<Slot>, lock: Holder, pc: Pc, ev: Event)

  /** One step of thread t. */
  function Step(slots: seq<Slot>, lock: Holder, t: nat, th: Thread): Out
    requires Shape(slots, th) && !th.pc.Done?
  {
    var k: int := th.op.k;
    match th.pc
    case Peek(j) =>
      Out(slots, lock, if j == |slots| then TryLock else if slots[j].key == k then Done(0) else Peek(j + 1), Internal)
    case TryLock => if lock.Nobody? then Out(slots, Somebody(t), Scan(0, -1), Internal)
        else Out(slots, lock, TryLock, Internal)
    case Scan(j, e) =>
      Out(slots, lock,
          if j == |slots| then (if e < 0 then LinkNew else WriteVal(e))
          else if slots[j].key == k then Unlock(0)
          else Scan(j + 1, if e < 0 && slots[j].key == 0 then j else e), Internal)
    case LinkNew => Out(slots + [EMPTY, EMPTY, EMPTY], lock, WriteVal(|slots|), Internal)
    case WriteVal(e) => Out(slots[e := slots[e].(val := th.op.v)], lock, WriteKey(e), Internal)
    case WriteKey(e) => Out(slots[e := slots[e].(key := k)], lock, Unlock(1), Inserted(t, th.op.k, th.op.v))
    case Unlock(r) => Out(slots, Nobody, Done(r), Internal)
    case RemScan(j) =>
      Out(slots, lock, if j == |slots| then Done(0) else if slots[j].key == k then BlockCas(j)
          else RemScan(j + 1), Internal)
    case BlockCas(j) =>
      if slots[j].key == k then Out(slots[j := slots[j].(key := KEY_BLCK)], lock, ReadVal(j),
          Removed(t, th.op.k, slots[j].val))
      else Out(slots, lock, Done(0), Internal)
    case ReadVal(j) => Out(slots, lock, Clear(j, slots[j].val), Internal)
    case Clear(j, r) => Out(slots[j := slots[j].(key := 0)], lock, Done(r), Internal)
  }

  ghost predicate CanStep(st: State, t: nat)
  {
    t in st.threads && Shape(st.slots, st.threads[t]) && !st.threads[t].pc.Done?
  }

  function StepThread(st: State, t: nat): State
    requires t in st.threads && Shape(st.slots, st.threads[t]) && !st.threads[t].pc.Done?
  {
    var out := Step(st.slots, st.lock, t, st.threads[t]);
    State(out.slots, out.lock, st.threads[t := st.threads[t].(pc := out.pc)], st.events + [out.ev])
  }

  /** A thread begins an operation; keys and values are not zero. */
  ghost predicate Invoke(st: State, t: nat, op: Op, st': State)
  {
    && (t in st.threads ==> st.threads[t].pc.Done?)
    && op.k != 0 && (op.Put? ==> op.v != 0)
    && st' == st.(threads := st.threads[t := Thread(op, |st.events|, if op.Put? then Peek(0) else RemScan(0))])
  }

  ghost predicate Next(st: State, st': State)
  {
    || (exists t, op :: Invoke(st, t, op, st'))
    || (exists t :: CanStep(st, t) && st' == StepThread(st, t))
  }

  function Init(): State { State([EMPTY, EMPTY, EMPTY], Nobody, map[], []) }

  ghost predicate Run(r: seq<State>)
  {
    |r| > 0 && r[0] == Init() && forall i :: 0 <= i < |r| - 1 ==> Next(r[i], r[i + 1])
  }

  // ------------------------------------------------------------------ the entries of a chain

  function EntryOf(s: Slot): multiset<(nat, nat)>
  {
    if s.key > 0 then multiset{(s.key, s.val)} else multiset{}
  }

  /** The entries that can be found: a blocked one no longer can. */
  function Entries(slots: seq<Slot>): multiset<(nat, nat)>
  {
    if slots == [] then multiset{} else Entries(slots[..|slots| - 1]) + EntryOf(slots[|slots| - 1])
  }

  lemma {:induction false} EntriesSet(slots: seq<Slot>, j: nat, s: Slot)
    requires j < |slots|
    ensures Entries(slots[j := s]) + EntryOf(slots[j]) == Entries(slots) + EntryOf(s)
  {
    hide EntryOf;
    var n := |slots| - 1;
    var slots' := slots[j := s];
    assert slots'[n] == if j == n then s else slots[n];
    if j == n {
      assert slots'[..n] == slots[..n];
      Exchange(Entries(slots[..n]), EntryOf(s), EntryOf(slots[j]));
    } else {
      assert slots'[..n] == slots[..n][j := s];
      EntriesSet(slots[..n], j, s);
      Regroup(Entries(slots'[..n]), Entries(slots[..n]), EntryOf(slots[n]), EntryOf(slots[j]), EntryOf(s));
    }
  }

  lemma Exchange<T>(a: multiset<T>, b: multiset<T>, c: multiset<T>)
    ensures a + b + c == a + c + b
  {
  }

  lemma Regroup<T>(x: multiset<T>, y: multiset<T>, last: multiset<T>, a: multiset<T>, b: multiset<T>)
    requires x + a == y + b
    ensures x + last + a == y + last + b
  {
    Exchange(x, last, a);
    Exchange(y, last, b);
  }

  lemma EntriesAppend(slots: seq<Slot>)
    ensures Entries(slots + [EMPTY, EMPTY, EMPTY]) == Entries(slots)
  {
    var s1 := slots + [EMPTY];
    var s2 := s1 + [EMPTY];
    assert slots + [EMPTY, EMPTY, EMPTY] == s2 + [EMPTY];
    OneEmpty(slots);
    OneEmpty(s1);
    OneEmpty(s2);
  }

  lemma OneEmpty(slots: seq<Slot>)
    ensures Entries(slots + [EMPTY]) == Entries(slots)
  {
    assert (slots + [EMPTY])[..|slots + [EMPTY]| - 1] == slots;
  }

  // ------------------------------------------------------------------ the invariant

  predicate InCrit(pc: Pc) { pc.Scan? || pc.LinkNew? || pc.WriteVal? || pc.WriteKey? || pc.Unlock? }

  /** This remove has blocked slot j. */
  predicate Blocks(th: Thread, j: nat) { (th.pc.ReadVal? || th.pc.Clear?) && th.pc.j == j }

  function KeyAt(slots: seq<Slot>, j: int): int { if 0 <= j < |slots| then slots[j].key else 0 }

  ghost predicate NoKeyBefore(slots: seq<Slot>, k: int, n: nat)
  {
    forall i :: 0 <= i < n ==> KeyAt(slots, i) != k
  }

  ghost predicate Knows(slots: seq<Slot>, th: Thread)
    requires Shape(slots, th)
  {
    match th.pc
    case Scan(j, e) => NoKeyBefore(slots, th.op.k, j) && (e >= 0 ==> KeyAt(slots, e) == 0)
    case LinkNew => NoKeyBefore(slots, th.op.k, |slots|)
    case WriteVal(e) => NoKeyBefore(slots, th.op.k, |slots|) && KeyAt(slots, e) == 0
    case WriteKey(e) => NoKeyBefore(slots, th.op.k, |slots|) && slots[e] == Slot(0, th.op.v)
    case ReadVal(j) => KeyAt(slots, j) == KEY_BLCK && slots[j].val != 0
    case Clear(j, r) => KeyAt(slots, j) == KEY_BLCK && r == slots[j].val != 0
    case _ => true
  }

  ghost predicate ThreadOk(st: State, t: nat)
    requires t in st.threads
  {
    var th := st.threads[t];
    && th.op.k != 0 && (th.op.Put? ==> th.op.v != 0)
    && Shape(st.slots, th) && Knows(st.slots, th)
    && (InCrit(th.pc) ==> st.lock == Somebody(t))
  }

  ghost predicate Unique(slots: seq<Slot>)
  {
    && (forall i, j :: KeyAt(slots, i) > 0 && KeyAt(slots, i) == KeyAt(slots, j) ==> i == j)
    && (forall i :: KeyAt(slots, i) > 0 ==> slots[i].val != 0)
  }

  ghost predicate OneBlocker(st: State)
  {
    forall t, u, j: nat ::
        t in st.threads && u in st.threads && Blocks(st.threads[t], j) && Blocks(st.threads[u], j) ==> t == u
  }

  /** What a completed operation has done, and one under way. */
  ghost predicate Answered(slots: seq<Slot>, events: seq<Event>, t: nat, th: Thread)
    requires Shape(slots, th)
  {
    match th.pc
    case Unlock(r) => if r == 0 then NoEventSince(events, th.start, t)
        else r == 1 && th.op.Put? && OneEventSince(events, th.start, t, Inserted(t, th.op.k, th.op.v))
    case ReadVal(j) => OneEventSince(events, th.start, t, Removed(t, th.op.k, slots[j].val))
    case Clear(j, r) => OneEventSince(events, th.start, t, Removed(t, th.op.k, r))
    case Done(r) =>
      (if r == 0 then NoEventSince(events, th.start, t)
       else match th.op
            case Put(k, v) => r == 1 && OneEventSince(events, th.start, t, Inserted(t, k, v))
            case Remove(k) => OneEventSince(events, th.start, t, Removed(t, k, r)))
    case _ => NoEventSince(events, th.start, t)
  }

  ghost predicate StateOk(st: State)
  {
    && Unique(st.slots) && OneBlocker(st)
    && (forall t :: t in st.threads ==> ThreadOk(st, t))
    && (forall t :: t in st.threads ==>
        st.threads[t].start <= |st.events| && Answered(st.slots, st.events, t, st.threads[t]))
    && Inserts(st.events) == Removals(st.events) + Entries(st.slots)
  }

  // ------------------------------------------------------------------ every step

  /** What a step does to the slots: one key goes from nothing to something, from a key to KEY_BLCK or from
      there to nothing, or a value is written into a free slot, or free slots are added. */
  ghost predicate Moves(slots: seq<Slot>, slots': seq<Slot>)
  {
    && |slots| <= |slots'|
    && (forall i :: 0 <= i < |slots| && slots[i].key != 0 ==> slots'[i].val == slots[i].val)
    && (forall i :: KeyAt(slots', i) > 0 ==> KeyAt(slots, i) == KeyAt(slots', i) || KeyAt(slots, i) == 0)
  }

  lemma StepMoves(slots: seq<Slot>, lock: Holder, t: nat, th: Thread)
    requires Shape(slots, th) && !th.pc.Done? && Knows(slots, th) && th.op.k != 0
    ensures Moves(slots, Step(slots, lock, t, th).slots)
    ensures Shape(Step(slots, lock, t, th).slots, th.(pc := Step(slots, lock, t, th).pc))
  {
  }

  lemma ShapeGrows(slots: seq<Slot>, slots': seq<Slot>, th: Thread)
    requires Shape(slots, th) && |slots| <= |slots'|
    ensures Shape(slots', th)
  {
  }

  lemma OwnScan(slots: seq<Slot>, lock: Holder, t: nat, th: Thread)
    requires Shape(slots, th) && Knows(slots, th) && th.op.k != 0
        && (th.pc.Peek? || th.pc.TryLock? || th.pc.Scan? || th.pc.Unlock?)
    ensures var out := Step(slots, lock, t, th);
        Shape(out.slots, th.(pc := out.pc)) && Knows(out.slots, th.(pc := out.pc))
  {
  }

  lemma OwnWrite(slots: seq<Slot>, lock: Holder, t: nat, th: Thread)
    requires Shape(slots, th) && Knows(slots, th) && th.op.k != 0
        && (th.pc.LinkNew? || th.pc.WriteVal? || th.pc.WriteKey?)
    ensures var out := Step(slots, lock, t, th);
        Shape(out.slots, th.(pc := out.pc)) && Knows(out.slots, th.(pc := out.pc))
  {
    var slots' := Step(slots, lock, t, th).slots;
    assert !th.pc.WriteKey? ==> forall i :: KeyAt(slots', i) == KeyAt(slots, i);
  }

  lemma OwnRemove(slots: seq<Slot>, lock: Holder, t: nat, th: Thread)
    requires Shape(slots, th) && !th.pc.Done? && Knows(slots, th) && th.op.k != 0 && th.op.Remove? && Unique(slots)
    ensures var out := Step(slots, lock, t, th);
        Shape(out.slots, th.(pc := out.pc)) && Knows(out.slots, th.(pc := out.pc))
  {
    if th.pc.BlockCas? { assert KeyAt(slots, th.pc.j) == slots[th.pc.j].key; }
  }

  lemma OwnKnows(slots: seq<Slot>, lock: Holder, t: nat, th: Thread)
    requires Shape(slots, th) && !th.pc.Done? && Knows(slots, th) && th.op.k != 0 && Unique(slots)
    ensures var out := Step(slots, lock, t, th);
        Shape(out.slots, th.(pc := out.pc)) && Knows(out.slots, th.(pc := out.pc))
  {
    hide Step, Knows, Unique;
    if th.op.Remove? { OwnRemove(slots, lock, t, th); }
    else if th.pc.LinkNew? || th.pc.WriteVal? || th.pc.WriteKey? { OwnWrite(slots, lock, t, th); }
    else { OwnScan(slots, lock, t, th); }
  }

  /** A step outside the critical section makes no key appear and leaves free slots free. */
  lemma OutsideSteps(slots: seq<Slot>, lock: Holder, t: nat, th: Thread)
    requires Shape(slots, th) && !th.pc.Done? && Knows(slots, th) && th.op.k != 0 && !InCrit(th.pc)
    ensures var slots' := Step(slots, lock, t, th).slots;
            && |slots'| == |slots|
            && (forall i :: KeyAt(slots', i) == KeyAt(slots, i) || KeyAt(slots', i) <= 0)
            && (forall i :: KeyAt(slots, i) == 0 ==> KeyAt(slots', i) == 0)
            && (forall i :: 0 <= i < |slots| && slots[i].key == 0 ==> slots'[i] == slots[i])
  {
  }

  /** The lock holder keeps what it knows while removes go on. */
  lemma InsertingKept(slots: seq<Slot>, lock: Holder, t: nat, th: Thread, u: Thread)
    requires Shape(slots, th) && !th.pc.Done? && Knows(slots, th) && th.op.k != 0 && !InCrit(th.pc)
    requires Shape(slots, u) && Knows(slots, u) && InCrit(u.pc) && u.op.k != 0
    ensures Shape(Step(slots, lock, t, th).slots, u) && Knows(Step(slots, lock, t, th).slots, u)
  {
    hide Step;
    OutsideSteps(slots, lock, t, th);
  }

  /** A blocked slot is left alone by everybody but the remove that has blocked it. */
  lemma BlockedKept(slots: seq<Slot>, lock: Holder, t: nat, th: Thread, u: Thread)
    requires Shape(slots, th) && !th.pc.Done? && Knows(slots, th) && th.op.k != 0
    requires Shape(slots, u) && Knows(slots, u) && (u.pc.ReadVal? || u.pc.Clear?) && !Blocks(th, u.pc.j)
    ensures var slots' := Step(slots, lock, t, th).slots;
            Shape(slots', u) && Knows(slots', u) && slots'[u.pc.j] == slots[u.pc.j]
  {
  }

  lemma OtherKept(st: State, t: nat, u: nat)
    requires StateOk(st) && CanStep(st, t) && u in st.threads && u != t
    ensures ThreadOk(StepThread(st, t), u)
  {
    hide Unique, Step, Answered, Entries, Inserts, Removals;
    var th, thu := st.threads[t], st.threads[u];
    assert ThreadOk(st, t) && ThreadOk(st, u);
    StepMoves(st.slots, st.lock, t, th);
    LockSteps(st.slots, st.lock, t, th);
    ShapeGrows(st.slots, Step(st.slots, st.lock, t, th).slots, thu);
    if InCrit(thu.pc) {
      InsertingKept(st.slots, st.lock, t, th, thu);
    } else if thu.pc.ReadVal? || thu.pc.Clear? {
      assert !Blocks(th, thu.pc.j) by { assert Blocks(thu, thu.pc.j); }
      BlockedKept(st.slots, st.lock, t, th, thu);
    }
  }

  lemma LockSteps(slots: seq<Slot>, lock: Holder, t: nat, th: Thread)
    requires Shape(slots, th) && !th.pc.Done? && (InCrit(th.pc) ==> lock == Somebody(t))
    ensures var out := Step(slots, lock, t, th);
            && (InCrit(out.pc) ==> out.lock == Somebody(t))
            && (!InCrit(th.pc) && lock.Somebody? ==> out.lock == lock)
  {
  }

  /** A commit adds an entry whose key was not there, a block takes one out, nothing else changes them. */
  lemma StepEntries(slots: seq<Slot>, lock: Holder, t: nat, th: Thread)
    requires Shape(slots, th) && !th.pc.Done? && Knows(slots, th) && th.op.k != 0 && (th.op.Put? ==> th.op.v != 0)
        && Unique(slots)
    ensures var out := Step(slots, lock, t, th);
            && Unique(out.slots)
            && (out.ev.Internal? ==> Entries(out.slots) == Entries(slots))
            && (out.ev.Inserted? ==> th.pc.WriteKey? && out.ev == Inserted(t, th.op.k, th.op.v)
                                     && Entries(out.slots) == Entries(slots) + multiset{(th.op.k, th.op.v)})
            && (out.ev.Removed? ==> th.pc.BlockCas? && out.ev == Removed(t, th.op.k, slots[th.pc.j].val)
                                    && Entries(slots) == Entries(out.slots) + multiset{(th.op.k, out.ev.v)})
  {
    hide Entries;
    match th.pc
    case LinkNew =>
      EntriesAppend(slots);
      var slots' := slots + [EMPTY, EMPTY, EMPTY];
      assert forall i :: KeyAt(slots', i) == KeyAt(slots, i);
    case WriteVal(e) => Written(slots, e, slots[e].(val := th.op.v));
    case WriteKey(e) => EntriesSet(slots, e, slots[e].(key := th.op.k)); InsertUnique(slots, e, th.op.k);
    case BlockCas(j) =>
      if slots[j].key == th.op.k {
        EntriesSet(slots, j, slots[j].(key := KEY_BLCK));
        EraseUnique(slots, j, KEY_BLCK);
      }
    case Clear(j, r) => Written(slots, j, slots[j].(key := 0));
    case _ =>
  }

  lemma InsertUnique(slots: seq<Slot>, e: nat, k: nat)
    requires Unique(slots) && e < |slots| && NoKeyBefore(slots, k, |slots|) && k > 0 && slots[e].val != 0
        && slots[e].key == 0
    ensures Unique(slots[e := slots[e].(key := k)])
  {
    var slots' := slots[e := slots[e].(key := k)];
    assert forall i :: KeyAt(slots', i) == if i == e then k else KeyAt(slots, i);
  }

  lemma EraseUnique(slots: seq<Slot>, j: nat, k: int)
    requires Unique(slots) && j < |slots| && k <= 0
    ensures Unique(slots[j := slots[j].(key := k)])
  {
    var slots' := slots[j := slots[j].(key := k)];
    assert forall i :: KeyAt(slots', i) == if i == j then k else KeyAt(slots, i);
  }

  /** Writing a slot that holds no entry, before or after. */
  lemma Written(slots: seq<Slot>, e: nat, s: Slot)
    requires Unique(slots) && e < |slots| && slots[e].key <= 0 && s.key <= 0
    ensures Unique(slots[e := s]) && Entries(slots[e := s]) == Entries(slots)
  {
    hide Entries;
    EntriesSet(slots, e, s);
    assert Entries(slots[e := s]) + EntryOf(slots[e]) == Entries(slots[e := s]);
    var slots' := slots[e := s];
    assert forall i :: KeyAt(slots', i) == if i == e then s.key else KeyAt(slots, i);
  }

  lemma OtherAnswered(slots: seq<Slot>, slots': seq<Slot>, events: seq<Event>, e: Event, t: nat, th: Thread)
    requires Shape(slots, th) && Shape(slots', th) && Answered(slots, events, t, th) && th.start <= |events|
        && !By(e, t)
    requires th.pc.ReadVal? ==> slots'[th.pc.j] == slots[th.pc.j]
    ensures Answered(slots', events + [e], t, th)
  {
    hide NoEventSince, OneEventSince;
    match th.pc
    case Unlock(r) =>
      if r == 0 { NoEventGrows(events, e, th.start, t); }
      else { OneEventGrows(events, e, th.start, t, Inserted(t, th.op.k, th.op.v)); }
    case ReadVal(j) => OneEventGrows(events, e, th.start, t, Removed(t, th.op.k, slots[j].val));
    case Clear(j, r) => OneEventGrows(events, e, th.start, t, Removed(t, th.op.k, r));
    case Done(r) =>
      if r == 0 { NoEventGrows(events, e, th.start, t); }
      else if th.op.Put? { OneEventGrows(events, e, th.start, t, Inserted(t, th.op.k, th.op.v)); }
      else { OneEventGrows(events, e, th.start, t, Removed(t, th.op.k, r)); }
    case _ => NoEventGrows(events, e, th.start, t);
  }

  lemma OwnAnswered(slots: seq<Slot>, lock: Holder, events: seq<Event>, t: nat, th: Thread)
    requires Shape(slots, th) && !th.pc.Done? && Knows(slots, th) && th.op.k != 0 && (th.op.Put? ==> th.op.v != 0)
    requires Answered(slots, events, t, th) && th.start <= |events|
    ensures var out := Step(slots, lock, t, th); var th' := th.(pc := out.pc);
            Shape(out.slots, th') && Answered(out.slots, events + [out.ev], t, th')
  {
    hide NoEventSince, OneEventSince;
    var e := Step(slots, lock, t, th).ev;
    match th.pc
    case Unlock(r) =>
      if r == 0 { NoEventGrows(events, e, th.start, t); }
      else { OneEventGrows(events, e, th.start, t, Inserted(t, th.op.k, th.op.v)); }
    case ReadVal(j) => OneEventGrows(events, e, th.start, t, Removed(t, th.op.k, slots[j].val));
    case Clear(j, r) => OneEventGrows(events, e, th.start, t, Removed(t, th.op.k, r));
    case _ => NoEventGrows(events, e, th.start, t);
  }

  lemma BlockersKept(st: State, t: nat)
    requires StateOk(st) && CanStep(st, t)
    ensures OneBlocker(StepThread(st, t))
  {
    hide Answered, Entries, Inserts, Removals, Unique;
    var st' := StepThread(st, t);
    forall u, j: nat | u in st.threads && u != t && Blocks(st.threads[u], j) ensures !Blocks(st'.threads[t], j) {
      assert ThreadOk(st, u) && ThreadOk(st, t);
    }
    forall x, y, j: nat | x in st'.threads && y in st'.threads && Blocks(st'.threads[x], j)
      && Blocks(st'.threads[y], j) ensures x == y
    {
      if x != t && y != t { assert Blocks(st.threads[x], j) && Blocks(st.threads[y], j); }
    }
  }

  /** What StateOk says of one thread. */
  ghost predicate PerThread(st: State, t: nat)
    requires t in st.threads
  {
    ThreadOk(st, t) && st.threads[t].start <= |st.events| && Answered(st.slots, st.events, t, st.threads[t])
  }

  lemma OtherPerThread(st: State, t: nat, u: nat)
    requires StateOk(st) && CanStep(st, t) && u in st.threads && u != t
    ensures PerThread(StepThread(st, t), u)
  {
    hide Unique, Step, Answered, Entries, Inserts, Removals, Knows, OneBlocker;
    var st' := StepThread(st, t);
    var out := Step(st.slots, st.lock, t, st.threads[t]);
    assert ThreadOk(st, t) && ThreadOk(st, u);
    OtherKept(st, t, u);
    if st.threads[u].pc.ReadVal? { SlotStays(st, t, u); }
    EventsOfOwn(st.slots, st.lock, t, st.threads[t]);
    OtherAnswered(st.slots, st'.slots, st.events, out.ev, u, st.threads[u]);
  }

  lemma EventsOfOwn(slots: seq<Slot>, lock: Holder, t: nat, th: Thread)
    requires Shape(slots, th) && !th.pc.Done?
    ensures forall u :: u != t ==> !By(Step(slots, lock, t, th).ev, u)
  {
  }

  lemma OwnPerThread(st: State, t: nat)
    requires StateOk(st) && CanStep(st, t)
    ensures PerThread(StepThread(st, t), t)
  {
    hide Unique, Step, Answered, Entries, Inserts, Removals, Knows, OneBlocker;
    var th := st.threads[t];
    assert ThreadOk(st, t);
    OwnKnows(st.slots, st.lock, t, th);
    LockSteps(st.slots, st.lock, t, th);
    OwnAnswered(st.slots, st.lock, st.events, t, th);
  }

  lemma StepKeeps(st: State, t: nat)
    requires StateOk(st) && CanStep(st, t)
    ensures StateOk(StepThread(st, t))
  {
    hide Unique, Step, Answered, Entries, Inserts, Removals, Knows, OneBlocker, ThreadOk;
    BlockersKept(st, t);
    forall u | u in st.threads ensures PerThread(StepThread(st, t), u) {
      if u == t { OwnPerThread(st, t); } else { OtherPerThread(st, t, u); }
    }
    ConservedByStep(st, t);
  }

  lemma ConservedByStep(st: State, t: nat)
    requires StateOk(st) && CanStep(st, t)
    ensures var st' := StepThread(st, t);
        Unique(st'.slots) && Inserts(st'.events) == Removals(st'.events) + Entries(st'.slots)
  {
    hide Unique, Step, Answered, Entries, Inserts, Removals, Knows, OneBlocker;
    assert ThreadOk(st, t);
    StepEntries(st.slots, st.lock, t, st.threads[t]);
    EventsGrow(st.events, Step(st.slots, st.lock, t, st.threads[t]).ev);
  }

  lemma SlotStays(st: State, t: nat, u: nat)
    requires StateOk(st) && CanStep(st, t) && u in st.threads && u != t && st.threads[u].pc.ReadVal?
    ensures var j := st.threads[u].pc.j;
        j < |st.slots| <= |StepThread(st, t).slots| && StepThread(st, t).slots[j] == st.slots[j]
  {
    hide Unique, Step, Answered, Entries, Inserts, Removals;
    var th, thu := st.threads[t], st.threads[u];
    assert ThreadOk(st, t) && ThreadOk(st, u);
    StepMoves(st.slots, st.lock, t, th);
    assert !Blocks(th, thu.pc.j) by { assert Blocks(thu, thu.pc.j); }
    BlockedKept(st.slots, st.lock, t, th, thu);
  }

  lemma InvokeKeeps(st: State, t: nat, op: Op, st': State)
    requires StateOk(st) && Invoke(st, t, op, st')
    ensures StateOk(st')
  {
    hide Unique, Entries, Inserts, Removals;
    forall x, j: nat | x in st'.threads && Blocks(st'.threads[x], j) ensures x != t && Blocks(st.threads[x], j) { }
    forall u | u in st'.threads
      ensures ThreadOk(st', u) && st'.threads[u].start <= |st'.events|
          && Answered(st'.slots, st'.events, u, st'.threads[u])
    {
      if u != t { assert ThreadOk(st, u); }
    }
  }

  lemma NextKeeps(st: State, st': State)
    requires StateOk(st) && Next(st, st')
    ensures StateOk(st')
  {
    hide StateOk, StepThread, Invoke;
    if t, op :| Invoke(st, t, op, st') {
      InvokeKeeps(st, t, op, st');
    } else {
      var t :| CanStep(st, t) && st' == StepThread(st, t);
      StepKeeps(st, t);
    }
  }

  lemma InitOk()
    ensures StateOk(Init())
  {
    hide Entries;
    EmptyChain();
  }

  lemma EmptyChain()
    ensures Entries([EMPTY, EMPTY, EMPTY]) == multiset{}
  {
    EntriesAppend([]);
    assert [] + [EMPTY, EMPTY, EMPTY] == [EMPTY, EMPTY, EMPTY];
  }

  lemma {:induction false} RunOk(r: seq<State>, i: nat)
    requires Run(r) && i < |r|
    ensures StateOk(r[i])
  {
    hide StateOk, Next, Init;
    if i == 0 {
      InitOk();
    } else {
      RunOk(r, i - 1);
      NextKeeps(r[i - 1], r[i]);
    }
  }

  // ------------------------------------------------------------------ the theorems

  /** Every committed insert can still be found, or has been taken out by exactly one remove, with the value
      it was put with. */
  lemma RemovedExactlyOnce(r: seq<State>, i: nat)
    requires Run(r) && i < |r|
    ensures Inserts(r[i].events) == Removals(r[i].events) + Entries(r[i].slots)
  {
    hide Run, Inserts, Removals, Entries;
    RunOk(r, i);
  }

  /** The answer of a completed operation tells what it has done: a remove that returns a value has taken
      out one entry, of its key and with that value, although it reads the value only after the
      compare-and-swap; one that returns zero none; a put that returns true has committed its own entry. */
  lemma AnswersAreTrue(r: seq<State>, i: nat, t: nat)
    requires Run(r) && i < |r| && t in r[i].threads && r[i].threads[t].pc.Done?
    ensures Answered(r[i].slots, r[i].events, t, r[i].threads[t])
  {
    hide Run, Answered, Inserts, Removals, Entries;
    RunOk(r, i);
  }

  /** No key can be found in two slots. */
  lemma KeysAreHeldOnce(r: seq<State>, i: nat, j: int, j': int)
    requires Run(r) && i < |r| && KeyAt(r[i].slots, j) > 0 && KeyAt(r[i].slots, j) == KeyAt(r[i].slots, j')
    ensures j == j'
  {
    hide Run, Answered, Inserts, Removals, Entries;
    RunOk(r, i);
  }

  /** At most one thread is past the lock, and it is the lock's holder. */
  lemma OnePutAtATime(r: seq<State>, i: nat, t: nat, u: nat)
    requires Run(r) && i < |r| && t in r[i].threads && u in r[i].threads
    requires InCrit(r[i].threads[t].pc) && InCrit(r[i].threads[u].pc)
    ensures t == u && r[i].lock == Somebody(t)
  {
    hide Run, Answered, Inserts, Removals, Entries;
    RunOk(r, i);
    assert ThreadOk(r[i], t) && ThreadOk(r[i], u);
  }

  /** A slot that a remove has blocked stays blocked, with its value, until that remove frees it. */
  lemma BlockedSlotsStay(r: seq<State>, i: nat, t: nat)
    requires Run(r) && i + 1 < |r| && t in r[i].threads && t in r[i + 1].threads
    requires (r[i].threads[t].pc.ReadVal? || r[i].threads[t].pc.Clear?)
        && Blocks(r[i + 1].threads[t], r[i].threads[t].pc.j)
    ensures var j := r[i].threads[t].pc.j;
            j < |r[i].slots| <= |r[i + 1].slots| && KeyAt(r[i].slots, j) == KEY_BLCK
                && r[i + 1].slots[j] == r[i].slots[j]
  {
    RunOk(r, i);
    RunOk(r, i + 1);
    var st, st' := r[i], r[i + 1];
    assert Next(st, st');
    hide Run, Answered, Inserts, Removals, Entries, Unique;
    assert ThreadOk(st, t) && ThreadOk(st', t);
    if u, op :| Invoke(st, u, op, st') {
    } else {
      var u :| CanStep(st, u) && st' == StepThread(st, u);
      BlockedOver(st, u, t);
    }
  }

  lemma BlockedOver(st: State, u: nat, t: nat)
    requires StateOk(st) && CanStep(st, u) && t in st.threads && (st.threads[t].pc.ReadVal? || st.threads[t].pc.Clear?)
    requires Blocks(StepThread(st, u).threads[t], st.threads[t].pc.j)
    ensures var j := st.threads[t].pc.j;
        j < |st.slots| <= |StepThread(st, u).slots| && StepThread(st, u).slots[j] == st.slots[j]
  {
    hide Unique, Answered, Entries, Inserts, Removals;
    assert ThreadOk(st, t) && ThreadOk(st, u);
    StepMoves(st.slots, st.lock, u, st.threads[u]);
    if u != t {
      assert !Blocks(st.threads[u], st.threads[t].pc.j) by { assert Blocks(st.threads[t], st.threads[t].pc.j); }
      BlockedKept(st.slots, st.lock, u, st.threads[u], st.threads[t]);
    }
  }
}
