/** The locking protocol of the cuckoo table: lock_one, lock_two, lock_three, the check of the hashpower
    after the first lock, and a doubling that takes the expansion lock and then every bucket lock.
    Any number of threads, each step one attempt at a lock, one check or one release. */
module LockOrder {
  import opened Hashing
  import opened CuckooTable

  // ------------------------------------------------------------------ the order of locks

  predicate Increasing(ls: seq<nat>)
  {
    forall i, j :: 0 <= i < j < |ls| ==> ls[i] < ls[j]
  }

  function OrderOne(l: nat): (r: seq<nat>)
    ensures Increasing(r) && |r| >= 1 && forall x :: x in r <==> x == l
  {
    [l]
  }

  /** lock_two: the two indices in order, or just one. */
  function OrderTwo(l1: nat, l2: nat): (r: seq<nat>)
    ensures Increasing(r) && |r| >= 1 && forall x :: x in r <==> x == l1 || x == l2
  {
    var lo, hi := if l2 < l1 then l2 else l1, if l2 < l1 then l1 else l2;
    if hi != lo then [lo, hi] else [lo]
  }

  /** std::sort on three elements. */
  function Sorted3(a: nat, b: nat, c: nat): (r: (nat, nat, nat))
    ensures r.0 <= r.1 <= r.2
    ensures r == (a, b, c) || r == (a, c, b) || r == (b, a, c) || r == (b, c, a) || r == (c, a, b) || r == (c, b, a)
  {
    var (lo, hi) := if b < a then (b, a) else (a, b);
    if c < lo then (c, lo, hi) else if c < hi then (lo, c, hi) else (lo, hi, c)
  }

  /** lock_three: sorted, and an index equal to its predecessor is left out. */
  function OrderThree(l1: nat, l2: nat, l3: nat): (r: seq<nat>)
    ensures Increasing(r) && |r| >= 1 && forall x :: x in r <==> x == l1 || x == l2 || x == l3
  {
    var (lo, mid, hi) := Sorted3(l1, l2, l3);
    if mid != lo then if hi != mid then [lo, mid, hi] else [lo, mid]
    else if hi != mid then [lo, hi] else [lo]
  }

  // ------------------------------------------------------------------ threads

  /** hp is the hashpower that the thread works with.  Want waits for ls[got] and holds the locks before
      it; Check holds the first lock and compares the hashpower; Hold has what it asked for. */
  datatype Pc =
    | Idle
    | Snapped(hp: nat)
    | Want(hp: nat, ls: seq<nat>, got: nat)
    | Check(hp: nat, ls: seq<nat>)
    | Hold(hp: nat, held: set<nat>)
    | WaitExpansion(hp: nat)
    | HasExpansion(hp: nat)
    | LockAll(hp: nat, got: nat)
    | Grow(hp: nat)
    | Unlocking(hp: nat, held: set<nat>)

  datatype Holder = Nobody | Somebody(t: nat)

  /** lockCount is the number of locks of the array. */
  datatype State = State(hashpower: nat, lockCount: nat, locks: map<nat, nat>, expansion: Holder, threads: map<nat, Pc>)

  function PcOf(st: State, t: nat): Pc { if t in st.threads then st.threads[t] else Idle }

  function Goto(st: State, t: nat, pc: Pc): State { st.(threads := st.threads[t := pc]) }

  predicate Owns(st: State, t: nat, l: nat) { l in st.locks && st.locks[l] == t }

  /** The bucket locks that a thread holds. */
  function Held(pc: Pc): set<nat>
  {
    match pc
    case Want(_, ls, got) => if got <= |ls| then (set i | 0 <= i < got :: ls[i]) else {}
    case Check(_, ls) => if |ls| >= 1 then {ls[0]} else {}
    case Hold(_, held) => held
    case LockAll(_, got) => Upto(got)
    case Grow(hp) => Upto(LockCount(hp + 1))
    case Unlocking(_, held) => held
    case _ => {}
  }

  predicate HasMutex(pc: Pc) { pc.HasExpansion? || pc.LockAll? || pc.Grow? || pc.Unlocking? }

  /** The next bucket lock that a thread waits for. */
  predicate Wants(pc: Pc, l: nat)
  {
    match pc
    case Want(_, ls, got) => got < |ls| && ls[got] == l
    case LockAll(hp, got) => got < LockCount(hp + 1) && got == l
    case _ => false
  }

  /** What a thread asks for: the locks of one, two or three buckets of a table of its hashpower. */
  ghost predicate Request(hp: nat, ls: seq<nat>)
  {
    || (exists i: nat :: i < HashSize(hp) && ls == OrderOne(LockInd(i)))
    || (exists i: nat, j: nat :: i < HashSize(hp) && j < HashSize(hp) && ls == OrderTwo(LockInd(i), LockInd(j)))
    || (exists i: nat, j: nat, k: nat ::
        i < HashSize(hp) && j < HashSize(hp) && k < HashSize(hp)
        && ls == OrderThree(LockInd(i), LockInd(j), LockInd(k)))
  }

  /** A thread that holds nothing begins something: it reads the hashpower, asks for locks of buckets of
      a hashpower that it has read, or for the expansion lock. */
  ghost predicate Begin(st: State, t: nat, st': State)
  {
    match PcOf(st, t)
    case Idle => st' == Goto(st, t, Snapped(st.hashpower))
    case Snapped(hp) =>
      || (exists ls :: Request(hp, ls) && st' == Goto(st, t, Want(hp, ls, 0)))
      || st' == Goto(st, t, WaitExpansion(hp))
      || st' == Goto(st, t, Idle)
    case _ => false
  }

  /** A thread that is under way takes its next step.  The bigger bucket array may fail to be allocated,
      and then the locks are given back with the hashpower unchanged. */
  ghost predicate Proceed(st: State, t: nat, st': State)
  {
    match PcOf(st, t)
    case Want(hp, ls, got) =>
      if got < |ls| then
        ls[got] !in st.locks
        && st' == Goto(st.(locks := st.locks[ls[got] := t]), t, if got == 0 then Check(hp, ls)
            else Want(hp, ls, got + 1))
      else st' == Goto(st, t, Hold(hp, Held(PcOf(st, t))))
    case Check(hp, ls) =>
      if st.hashpower != hp then st' == Goto(st.(locks := st.locks - Held(PcOf(st, t))), t, Idle)
      else st' == Goto(st, t, Want(hp, ls, 1))
    case Hold(hp, held) =>
      exists gone :: {} < gone <= held
        && st' == Goto(st.(locks := st.locks - gone), t, if gone == held then Snapped(hp) else Hold(hp, held - gone))
    case WaitExpansion(hp) =>
      st.expansion.Nobody? && st' == Goto(st.(expansion := Somebody(t)), t, HasExpansion(hp))
    case HasExpansion(hp) =>
      if st.hashpower != hp then st' == Goto(st.(expansion := Nobody), t, Idle)
      else st' == Goto(st.(lockCount := LockCount(hp + 1)), t, LockAll(hp, 0))
    case LockAll(hp, got) =>
      if got < LockCount(hp + 1) then got !in st.locks && st' == Goto(st.(locks := st.locks[got := t]), t,
          LockAll(hp, got + 1))
      else st' == Goto(st, t, Grow(hp))
    case Grow(hp) =>
      || st' == Goto(st.(hashpower := hp + 1), t, Unlocking(hp, Held(PcOf(st, t))))
      || st' == Goto(st, t, Unlocking(hp, Held(PcOf(st, t))))
    case Unlocking(hp, held) =>
      if held == {} then st' == Goto(st.(expansion := Nobody), t, Idle)
      else exists l :: l in held && st' == Goto(st.(locks := st.locks - {l}), t, Unlocking(hp, held - {l}))
    case _ => false
  }

  ghost predicate Next(st: State, st': State)
  {
    exists t :: Begin(st, t, st') || Proceed(st, t, st')
  }

  ghost predicate Init(st: State)
  {
    st.hashpower >= 1 && st.lockCount == LockCount(st.hashpower) && st.locks == map[] && st.expansion == Nobody
        && st.threads == map[]
  }

  ghost predicate Run(r: seq<State>)
  {
    |r| > 0 && Init(r[0]) && forall i :: 0 <= i < |r| - 1 ==> Next(r[i], r[i + 1])
  }

  // ------------------------------------------------------------------ the invariant

  /** What a thread's point says about the locks it holds or asks for. */
  predicate PcOk(st: State, pc: Pc)
  {
    match pc
    case Snapped(hp) => hp <= st.hashpower
    case Want(hp, ls, got) =>
      hp <= st.hashpower && Increasing(ls) && |ls| >= 1 && got <= |ls|
          && (forall i :: 0 <= i < |ls| ==> ls[i] < st.lockCount)
      && (got >= 1 ==> hp == st.hashpower)
    case Check(hp, ls) => hp <= st.hashpower && Increasing(ls) && |ls| >= 1 && forall i :: 0 <= i < |ls| ==>
        ls[i] < st.lockCount
    case Hold(hp, held) => held != {} && hp == st.hashpower && forall l :: l in held ==> l < st.lockCount
    case WaitExpansion(hp) => true
    case LockAll(hp, got) => hp == st.hashpower && got <= st.lockCount == LockCount(hp + 1)
    case Grow(hp) => hp == st.hashpower && st.lockCount == LockCount(hp + 1)
    case Unlocking(hp, held) => forall l :: l in held ==> l < st.lockCount
    case _ => true
  }

  ghost predicate StateOk(st: State)
  {
    && LockCount(st.hashpower) <= st.lockCount <= LockCount(st.hashpower + 1)
    && (forall t: nat :: PcOk(st, PcOf(st, t)))
    && (forall t: nat, l: nat :: l in Held(PcOf(st, t)) <==> Owns(st, t, l))
    && (forall t: nat :: HasMutex(PcOf(st, t)) <==> st.expansion == Somebody(t))
  }

  // ------------------------------------------------------------------ every step keeps it

  lemma {:induction false} LockIsBelow(hp: nat, b: nat)
    requires b < HashSize(hp)
    ensures LockInd(b) < LockCount(hp)
  {
    LockIndBound(hp, b);
  }

  lemma LockCountMonotone(a: nat, b: nat)
    requires a <= b
    ensures LockCount(a) <= LockCount(b)
  {
    Pow2Monotone(a, b);
  }

  /** A request asks, in increasing order, for locks of the array. */
  lemma RequestOk(hp: nat, now: nat, ls: seq<nat>)
    requires Request(hp, ls) && hp <= now
    ensures Increasing(ls) && |ls| >= 1 && forall i :: 0 <= i < |ls| ==> ls[i] < LockCount(now)
  {
    hide LockInd, Pow2, LockCount, OrderTwo, OrderThree, OrderOne;
    forall b: nat | b < HashSize(hp) ensures LockInd(b) < LockCount(now) {
      LockIsBelow(hp, b);
      LockCountMonotone(hp, now);
    }
    forall i | 0 <= i < |ls| ensures ls[i] < LockCount(now) {
      assert ls[i] in ls;
    }
  }

  lemma InitOk(st: State)
    requires Init(st)
    ensures StateOk(st)
  {
  }

  lemma BeginKeeps(st: State, t: nat, st': State)
    requires StateOk(st) && Begin(st, t, st')
    ensures StateOk(st')
  {
    hide LockInd, Pow2, LockCount;
    if PcOf(st, t).Snapped? {
      var hp := PcOf(st, t).hp;
      assert PcOk(st, PcOf(st, t));
      if ls :| Request(hp, ls) && st' == Goto(st, t, Want(hp, ls, 0)) {
        RequestOk(hp, st.hashpower, ls);
      }
    }
    MoveKeeps(st, st', t);
  }

  /** A thread that goes on without touching locks, the hashpower or the expansion lock. */
  lemma MoveKeeps(st: State, st': State, t: nat)
    requires StateOk(st) && st' == Goto(st, t, PcOf(st', t)) && PcOk(st', PcOf(st', t))
    requires Held(PcOf(st', t)) == Held(PcOf(st, t)) && HasMutex(PcOf(st', t)) == HasMutex(PcOf(st, t))
    ensures StateOk(st')
  {
    hide LockInd, Pow2, LockCount, Held;
    forall u: nat ensures PcOk(st', PcOf(st', u)) { assert PcOk(st, PcOf(st, u)); }
    assert forall u: nat :: u != t ==> PcOf(st', u) == PcOf(st, u);
  }

  /** A thread takes one more lock, or gives some back. */
  lemma LocksKeep(st: State, st': State, t: nat)
    requires StateOk(st) && st' == Goto(st.(locks := st'.locks), t, PcOf(st', t)) && PcOk(st', PcOf(st', t))
    requires HasMutex(PcOf(st', t)) == HasMutex(PcOf(st, t))
    requires forall l: nat :: l in Held(PcOf(st', t)) <==> Owns(st', t, l)
    requires forall l: nat, u: nat :: u != t ==> (Owns(st', u, l) <==> Owns(st, u, l))
    ensures StateOk(st')
  {
    hide LockInd, Pow2, LockCount, Held;
    forall u: nat ensures PcOk(st', PcOf(st', u)) { assert PcOk(st, PcOf(st, u)); }
    assert forall u: nat :: u != t ==> PcOf(st', u) == PcOf(st, u);
  }

  /** A thread takes a free lock. */
  lemma TakeKeeps(st: State, st': State, t: nat, l: nat)
    requires StateOk(st) && l !in st.locks && st' == Goto(st.(locks := st.locks[l := t]), t, PcOf(st', t))
        && PcOk(st', PcOf(st', t))
    requires HasMutex(PcOf(st', t)) == HasMutex(PcOf(st, t)) && Held(PcOf(st', t)) == Held(PcOf(st, t)) + {l}
    ensures StateOk(st')
  {
    hide LockInd, Pow2, LockCount, Held, PcOk, HasMutex;
    forall x: nat ensures x in Held(PcOf(st', t)) <==> Owns(st', t, x) {
      assert x in Held(PcOf(st, t)) <==> Owns(st, t, x);
    }
    LocksKeep(st, st', t);
  }

  /** A thread gives back some of the locks it holds. */
  lemma ReleaseKeeps(st: State, st': State, t: nat, gone: set<nat>)
    requires StateOk(st) && gone <= Held(PcOf(st, t))
    requires st' == Goto(st.(locks := st.locks - gone), t, PcOf(st', t)) && PcOk(st', PcOf(st', t))
    requires HasMutex(PcOf(st', t)) == HasMutex(PcOf(st, t)) && Held(PcOf(st', t)) == Held(PcOf(st, t)) - gone
    ensures StateOk(st')
  {
    hide LockInd, Pow2, LockCount, Held, PcOk, HasMutex;
    forall x: nat
      ensures x in Held(PcOf(st', t)) <==> Owns(st', t, x)
      ensures forall u: nat :: u != t ==> (Owns(st', u, x) <==> Owns(st, u, x))
    {
      assert x in Held(PcOf(st, t)) <==> Owns(st, t, x);
    }
    LocksKeep(st, st', t);
  }

  lemma HeldPrefix(ls: seq<nat>, got: nat, hp: nat)
    requires got < |ls|
    ensures Held(Want(hp, ls, got + 1)) == Held(Want(hp, ls, got)) + {ls[got]}
    ensures Held(Want(hp, ls, 0)) == {} && Held(Want(hp, ls, 1)) == {ls[0]} == Held(Check(hp, ls))
  {
  }

  lemma WantStep(st: State, t: nat, st': State)
    requires StateOk(st) && PcOf(st, t).Want? && Proceed(st, t, st')
    ensures StateOk(st')
  {
    hide LockInd, Pow2, LockCount;
    var hp, ls, got := PcOf(st, t).hp, PcOf(st, t).ls, PcOf(st, t).got;
    assert PcOk(st, PcOf(st, t));
    if got < |ls| {
      HeldPrefix(ls, got, hp);
      var pc' := if got == 0 then Check(hp, ls) else Want(hp, ls, got + 1);
      assert PcOf(st', t) == pc' && Held(pc') == Held(PcOf(st, t)) + {ls[got]};
      TakeKeeps(st, st', t, ls[got]);
    } else {
      assert ls[0] in Held(PcOf(st, t));
      MoveKeeps(st, st', t);
    }
  }

  lemma CheckStep(st: State, t: nat, st': State)
    requires StateOk(st) && PcOf(st, t).Check? && Proceed(st, t, st')
    ensures StateOk(st')
  {
    hide LockInd, Pow2, LockCount;
    var hp, ls := PcOf(st, t).hp, PcOf(st, t).ls;
    assert PcOk(st, PcOf(st, t));
    if st.hashpower != hp {
      ReleaseKeeps(st, st', t, Held(PcOf(st, t)));
    } else {
      HeldPrefix(ls, 0, hp);
      MoveKeeps(st, st', t);
    }
  }

  lemma HoldStep(st: State, t: nat, st': State)
    requires StateOk(st) && PcOf(st, t).Hold? && Proceed(st, t, st')
    ensures StateOk(st')
  {
    hide LockInd, Pow2, LockCount;
    var hp, held := PcOf(st, t).hp, PcOf(st, t).held;
    assert PcOk(st, PcOf(st, t));
    var gone :| {} < gone <= held
        && st' == Goto(st.(locks := st.locks - gone), t, if gone == held then Snapped(hp) else Hold(hp, held - gone));
    assert gone != held ==> held - gone != {};
    ReleaseKeeps(st, st', t, gone);
  }

  /** Taking and releasing the expansion lock. */
  lemma ExpansionStep(st: State, t: nat, st': State)
    requires StateOk(st) && (PcOf(st, t).WaitExpansion? || PcOf(st, t).HasExpansion?) && Proceed(st, t, st')
    ensures StateOk(st')
  {
    hide LockInd, Pow2;
    var hp := PcOf(st, t).hp;
    assert HasMutex(PcOf(st, t)) <==> st.expansion == Somebody(t);
    LockCountMonotone(hp, hp + 1);
    assert Upto(0) == {};
    forall u: nat ensures PcOk(st', PcOf(st', u)) && (HasMutex(PcOf(st', u)) <==> st'.expansion == Somebody(u)) {
      assert PcOk(st, PcOf(st, u));
      assert HasMutex(PcOf(st, u)) <==> st.expansion == Somebody(u);
      if PcOf(st, t).HasExpansion? && st.hashpower == hp && u != t { GrownArray(st, st', PcOf(st, u), hp); }
    }
    assert forall u: nat :: u != t ==> PcOf(st', u) == PcOf(st, u);
    assert forall u: nat, l: nat :: Owns(st', u, l) <==> Owns(st, u, l);
  }

  /** The lock array only grows. */
  lemma GrownArray(st: State, st': State, pc: Pc, hp: nat)
    requires PcOk(st, pc) && !HasMutex(pc) && st'.hashpower == st.hashpower == hp && st'.lockCount == LockCount(hp + 1)
    requires st.lockCount <= LockCount(hp + 1)
    ensures PcOk(st', pc)
  {
    hide LockInd, Pow2, LockCount;
  }

  lemma LockAllStep(st: State, t: nat, st': State)
    requires StateOk(st) && PcOf(st, t).LockAll? && Proceed(st, t, st')
    ensures StateOk(st')
  {
    hide LockInd, Pow2;
    assert PcOk(st, PcOf(st, t));
    var hp, got := PcOf(st, t).hp, PcOf(st, t).got;
    hide LockCount;
    if got < LockCount(hp + 1) {
      assert Upto(got + 1) == Upto(got) + {got};
      TakeKeeps(st, st', t, got);
    } else {
      MoveKeeps(st, st', t);
    }
  }

  /** While every lock is taken, no other thread is between its check and its release. */
  lemma NobodyElseInside(st: State, t: nat, u: nat)
    requires StateOk(st) && PcOf(st, t).Grow? && u != t
    ensures Held(PcOf(st, u)) == {}
  {
    hide LockInd, Pow2, LockCount;
    assert PcOk(st, PcOf(st, t)) && PcOk(st, PcOf(st, u));
    forall l: nat ensures l !in Held(PcOf(st, u)) {
      HeldBelow(st, PcOf(st, u), l);
      HeldBelow(st, PcOf(st, t), l);
      assert l < st.lockCount <==> Owns(st, t, l);
    }
  }

  lemma HeldBelow(st: State, pc: Pc, l: nat)
    requires PcOk(st, pc)
    ensures l in Held(pc) ==> l < st.lockCount
    ensures pc.Grow? ==> (l in Held(pc) <==> l < st.lockCount)
  {
    hide LockInd, Pow2, LockCount;
  }

  lemma GrowStep(st: State, t: nat, st': State)
    requires StateOk(st) && PcOf(st, t).Grow? && Proceed(st, t, st')
    ensures StateOk(st')
  {
    hide LockInd, Pow2, LockCount;
    LockCountMonotone(PcOf(st, t).hp + 1, PcOf(st, t).hp + 2);
    assert PcOk(st, PcOf(st, t));
    var hp := PcOf(st, t).hp;
    forall u: nat ensures PcOk(st', PcOf(st', u)) {
      assert PcOk(st, PcOf(st, u));
      assert HasMutex(PcOf(st, u)) <==> st.expansion == Somebody(u);
      assert HasMutex(PcOf(st, t)) <==> st.expansion == Somebody(t);
      if u != t {
        NobodyElseInside(st, t, u);
        GotMeansHeld(PcOf(st, u));
      }
    }
    assert forall u: nat :: u != t ==> PcOf(st', u) == PcOf(st, u);
    assert forall u: nat, l: nat :: Owns(st', u, l) <==> Owns(st, u, l);
  }

  lemma GotMeansHeld(pc: Pc)
    ensures pc.Want? && 0 < pc.got <= |pc.ls| ==> Held(pc) != {}
  {
    if pc.Want? && 0 < pc.got <= |pc.ls| { assert pc.ls[0] in Held(pc); }
  }

  lemma UnlockingStep(st: State, t: nat, st': State)
    requires StateOk(st) && PcOf(st, t).Unlocking? && Proceed(st, t, st')
    ensures StateOk(st')
  {
    hide LockInd, Pow2, LockCount;
    assert PcOk(st, PcOf(st, t));
    assert HasMutex(PcOf(st, t)) <==> st.expansion == Somebody(t);
    var hp, held := PcOf(st, t).hp, PcOf(st, t).held;
    if held == {} {
      forall u: nat ensures PcOk(st', PcOf(st', u)) && (HasMutex(PcOf(st', u)) <==> st'.expansion == Somebody(u)) {
        assert PcOk(st, PcOf(st, u));
        assert HasMutex(PcOf(st, u)) <==> st.expansion == Somebody(u);
      }
      assert forall u: nat :: u != t ==> PcOf(st', u) == PcOf(st, u);
      assert forall u: nat, l: nat :: Owns(st', u, l) <==> Owns(st, u, l);
    } else {
      var l :| l in held && st' == Goto(st.(locks := st.locks - {l}), t, Unlocking(hp, held - {l}));
      ReleaseKeeps(st, st', t, {l});
    }
  }

  lemma NextKeeps(st: State, st': State)
    requires StateOk(st) && Next(st, st')
    ensures StateOk(st')
  {
    hide StateOk, Begin, Held, PcOk, LockCount, Pow2;
    var t :| Begin(st, t, st') || Proceed(st, t, st');
    if Begin(st, t, st') {
      BeginKeeps(st, t, st');
    } else {
      assert !PcOf(st, t).Idle? && !PcOf(st, t).Snapped?;
      hide Proceed;
      match PcOf(st, t)
      case Want(_, _, _) => WantStep(st, t, st');
      case Check(_, _) => CheckStep(st, t, st');
      case Hold(_, _) => HoldStep(st, t, st');
      case WaitExpansion(_) => ExpansionStep(st, t, st');
      case HasExpansion(_) => ExpansionStep(st, t, st');
      case LockAll(_, _) => LockAllStep(st, t, st');
      case Grow(_) => GrowStep(st, t, st');
      case Unlocking(_, _) => UnlockingStep(st, t, st');
    }
  }

  lemma {:induction false} RunOk(r: seq<State>, i: nat)
    requires Run(r) && i < |r|
    ensures StateOk(r[i])
  {
    hide StateOk, Init, Next;
    if i == 0 {
      InitOk(r[0]);
    } else {
      RunOk(r, i - 1);
      NextKeeps(r[i - 1], r[i]);
    }
  }

  // ------------------------------------------------------------------ the theorems

  /** No bucket lock is held by two threads, and only locks of the array are held. */
  lemma MutualExclusion(r: seq<State>, i: nat, t: nat, u: nat, l: nat)
    requires Run(r) && i < |r| && l in Held(PcOf(r[i], t)) && l in Held(PcOf(r[i], u))
    ensures t == u && l < r[i].lockCount
  {
    RunOk(r, i);
    hide Run, Held, LockCount, Pow2;
    assert Owns(r[i], t, l) && Owns(r[i], u, l);
    assert PcOk(r[i], PcOf(r[i], t));
    HeldBelow(r[i], PcOf(r[i], t), l);
  }

  /** A thread only ever waits for a lock above all locks that it holds, and waits for the expansion
      lock while it holds none. */
  lemma LocksInOrder(r: seq<State>, i: nat, t: nat, l: nat)
    requires Run(r) && i < |r|
    ensures Wants(PcOf(r[i], t), l) ==> forall h :: h in Held(PcOf(r[i], t)) ==> h < l
    ensures PcOf(r[i], t).WaitExpansion? ==> Held(PcOf(r[i], t)) == {}
  {
    RunOk(r, i);
    hide Run, LockCount, Pow2;
    assert PcOk(r[i], PcOf(r[i], t));
  }

  /** From its check on, as long as it holds a lock, a thread works with the hashpower of the table:
      nobody else can change it. */
  lemma HashpowerStays(r: seq<State>, i: nat, t: nat)
    requires Run(r) && i < |r| && (PcOf(r[i], t).Hold? || (PcOf(r[i], t).Want? && PcOf(r[i], t).got > 0))
    ensures PcOf(r[i], t).hp == r[i].hashpower
    ensures i + 1 < |r| ==> r[i + 1].hashpower == r[i].hashpower
  {
    RunOk(r, i);
    var pc := PcOf(r[i], t);
    assert PcOk(r[i], pc);
    if i + 1 < |r| {
      assert Next(r[i], r[i + 1]);
      hide Run;
      var u :| Begin(r[i], u, r[i + 1]) || Proceed(r[i], u, r[i + 1]);
      if PcOf(r[i], u).Grow? {
        NobodyElseInside(r[i], u, t);
        GotMeansHeld(pc);
      }
    }
  }

  predicate Enabled(st: State, t: nat)
  {
    match PcOf(st, t)
    case Idle => false
    case Snapped(_) => false
    case Want(_, ls, got) => got < |ls| ==> ls[got] !in st.locks
    case WaitExpansion(_) => st.expansion.Nobody?
    case LockAll(hp, got) => got < LockCount(hp + 1) ==> got !in st.locks
    case _ => true
  }

  /** Enabled is what its name says. */
  lemma EnabledProceeds(st: State, t: nat)
    requires StateOk(st) && Enabled(st, t)
    ensures exists st' :: Proceed(st, t, st')
  {
    hide LockCount, Pow2, LockInd;
    var pc := PcOf(st, t);
    assert PcOk(st, pc);
    match pc
    case Want(hp, ls, got) =>
      if got < |ls| {
        assert Proceed(st, t, Goto(st.(locks := st.locks[ls[got] := t]), t, if got == 0 then Check(hp, ls)
            else Want(hp, ls, got + 1)));
      } else {
        assert Proceed(st, t, Goto(st, t, Hold(hp, Held(pc))));
      }
    case Check(hp, ls) =>
      assert Proceed(st, t, if st.hashpower != hp then Goto(st.(locks := st.locks - Held(pc)), t, Idle)
          else Goto(st, t, Want(hp, ls, 1)));
    case Hold(hp, held) =>
      assert {} < held <= held;
      assert Proceed(st, t, Goto(st.(locks := st.locks - held), t, Snapped(hp)));
    case WaitExpansion(hp) => assert Proceed(st, t, Goto(st.(expansion := Somebody(t)), t, HasExpansion(hp)));
    case HasExpansion(hp) =>
      assert Proceed(st, t, if st.hashpower != hp then Goto(st.(expansion := Nobody), t, Idle)
                            else Goto(st.(lockCount := LockCount(hp + 1)), t, LockAll(hp, 0)));
    case LockAll(hp, got) =>
      assert Proceed(st, t, if got < LockCount(hp + 1) then Goto(st.(locks := st.locks[got := t]), t,
          LockAll(hp, got + 1)) else Goto(st, t, Grow(hp)));
    case Grow(hp) => assert Proceed(st, t, Goto(st, t, Unlocking(hp, Held(pc))));
    case Unlocking(hp, held) =>
      if held == {} {
        assert Proceed(st, t, Goto(st.(expansion := Nobody), t, Idle));
      } else {
        var l :| l in held;
        assert Proceed(st, t, Goto(st.(locks := st.locks - {l}), t, Unlocking(hp, held - {l})));
      }
  }

  /** From a lock that somebody holds, following who waits for whom leads to higher and higher locks, and
      so to a thread that is not waiting. */
  lemma {:induction false} HolderLeadsToEnabled(st: State, t: nat, l: nat) returns (u: nat)
    requires StateOk(st) && l in Held(PcOf(st, t))
    ensures Enabled(st, u)
    decreases st.lockCount - l
  {
    hide LockCount, Pow2, LockInd, Held;
    assert PcOk(st, PcOf(st, t));
    HeldBelow(st, PcOf(st, t), l);
    u := t;
    if !Enabled(st, t) {
      var l' := WaitsFor(st, t, l);
      var h := st.locks[l'];
      assert Owns(st, h, l');
      u := HolderLeadsToEnabled(st, h, l');
    }
  }

  lemma WaitsFor(st: State, t: nat, l: nat) returns (l': nat)
    requires PcOk(st, PcOf(st, t)) && l in Held(PcOf(st, t)) && !Enabled(st, t)
    ensures l < l' && l' in st.locks
  {
    hide LockCount, Pow2, LockInd;
    var pc := PcOf(st, t);
    l' := if pc.Want? then pc.ls[pc.got] else pc.got;
  }

  /** The protocol is free of deadlock: as long as some thread is under way, some thread can take a step
      that is not the beginning of something new. */
  lemma NoDeadlock(r: seq<State>, i: nat, t: nat)
    requires Run(r) && i < |r| && !PcOf(r[i], t).Idle? && !PcOf(r[i], t).Snapped?
    ensures exists u, st' :: Proceed(r[i], u, st')
  {
    RunOk(r, i);
    hide Run, LockCount, Pow2, LockInd, Held, Proceed;
    var st := r[i];
    var u := SomeEnabled(st, t);
    EnabledProceeds(st, u);
  }

  lemma SomeEnabled(st: State, t: nat) returns (u: nat)
    requires StateOk(st) && !PcOf(st, t).Idle? && !PcOf(st, t).Snapped?
    ensures Enabled(st, u)
  {
    hide LockCount, Pow2, LockInd, Held;
    u := t;
    if !Enabled(st, t) {
      var w := t;
      if PcOf(st, t).WaitExpansion? {
        w := st.expansion.t;
        assert HasMutex(PcOf(st, w)) <==> st.expansion == Somebody(w);
        u := w;
      }
      if !Enabled(st, w) {
        var l := BlockedOn(st, w);
        assert Owns(st, st.locks[l], l);
        u := HolderLeadsToEnabled(st, st.locks[l], l);
      }
    }
  }

  lemma BlockedOn(st: State, t: nat) returns (l: nat)
    requires !Enabled(st, t) && !PcOf(st, t).Idle? && !PcOf(st, t).Snapped? && !PcOf(st, t).WaitExpansion?
    ensures l in st.locks && Wants(PcOf(st, t), l)
  {
    hide LockCount, Pow2, LockInd;
    var pc := PcOf(st, t);
    l := if pc.Want? then pc.ls[pc.got] else pc.got;
  }
}
