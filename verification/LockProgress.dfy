/** The locking protocol makes progress: what a thread has begun takes a bounded number of its own steps, whatever
    the others do, so that all threads come to rest when nobody begins anything new; and a request for free locks is
    granted, unless the table has grown since its thread has read the hashpower. */
module LockProgress {
  import opened Hashing
  import opened CuckooTable
  import opened LockOrder

  // ------------------------------------------------------------------ every step leads nearer to rest

  /** The steps that a thread takes from a point until it rests, at most. */
  function StepsLeft(pc: Pc): nat
  {
    match pc
    case Idle => 0
    case Snapped(_) => 0
    case Want(_, ls, got) =>
      if got == 0 then 2 * |ls| + 2 else if got <= |ls| then 2 * |ls| - got + 1 else 0
    case Check(_, ls) => 2 * |ls| + 1
    case Hold(_, held) => |held|
    case WaitExpansion(hp) => 2 * LockCount(hp + 1) + 5
    case HasExpansion(hp) => 2 * LockCount(hp + 1) + 4
    case LockAll(hp, got) => if got <= LockCount(hp + 1) then 2 * LockCount(hp + 1) - got + 3 else 0
    case Grow(hp) => LockCount(hp + 1) + 2
    case Unlocking(_, held) => |held| + 1
  }

  lemma {:induction false} HeldSize(hp: nat, ls: seq<nat>, got: nat)
    requires got <= |ls|
    ensures |Held(Want(hp, ls, got))| <= got
  {
    if got > 0 {
      HeldSize(hp, ls, got - 1);
      HeldPrefix(ls, got - 1, hp);
    } else {
      assert Held(Want(hp, ls, 0)) == {};
    }
  }

  lemma SmallerSet(gone: set<nat>, held: set<nat>)
    requires {} < gone <= held
    ensures |held - gone| < |held|
  {
    assert held == gone + (held - gone);
    assert |gone| > 0;
  }

  lemma WantLess(st: State, t: nat, st': State)
    requires PcOk(st, PcOf(st, t)) && (PcOf(st, t).Want? || PcOf(st, t).Check?) && Proceed(st, t, st')
    ensures StepsLeft(PcOf(st', t)) < StepsLeft(PcOf(st, t))
  {
    hide LockCount, Pow2, LockInd, Held;
    if PcOf(st, t).Want? { HeldSize(PcOf(st, t).hp, PcOf(st, t).ls, PcOf(st, t).got); }
  }

  lemma HoldLess(st: State, t: nat, st': State)
    requires PcOf(st, t).Hold? && Proceed(st, t, st')
    ensures StepsLeft(PcOf(st', t)) < StepsLeft(PcOf(st, t))
  {
    hide LockCount, Pow2, LockInd, Held;
    var hp, held := PcOf(st, t).hp, PcOf(st, t).held;
    var gone :| {} < gone <= held
        && st' == Goto(st.(locks := st.locks - gone), t, if gone == held then Snapped(hp) else Hold(hp, held - gone));
    SmallerSet(gone, held);
  }

  lemma ExpandLess(st: State, t: nat, st': State)
    requires PcOf(st, t).WaitExpansion? || PcOf(st, t).HasExpansion? || PcOf(st, t).LockAll? || PcOf(st, t).Grow?
    requires PcOk(st, PcOf(st, t)) && Proceed(st, t, st')
    ensures StepsLeft(PcOf(st', t)) < StepsLeft(PcOf(st, t))
  {
    hide LockCount, Pow2, LockInd, Upto;
    UptoSize(LockCount(PcOf(st, t).hp + 1));
  }

  lemma UnlockLess(st: State, t: nat, st': State)
    requires PcOf(st, t).Unlocking? && Proceed(st, t, st')
    ensures StepsLeft(PcOf(st', t)) < StepsLeft(PcOf(st, t))
  {
    hide LockCount, Pow2, LockInd, Held;
    var hp, held := PcOf(st, t).hp, PcOf(st, t).held;
    if l :| l in held && st' == Goto(st.(locks := st.locks - {l}), t, Unlocking(hp, held - {l})) {
      SmallerSet({l}, held);
    }
  }

  lemma LessLeft(st: State, t: nat, st': State)
    requires PcOk(st, PcOf(st, t)) && Proceed(st, t, st')
    ensures StepsLeft(PcOf(st', t)) < StepsLeft(PcOf(st, t))
  {
    assert !PcOf(st, t).Idle? && !PcOf(st, t).Snapped?;
    hide LockCount, Proceed, StepsLeft, PcOk, PcOf;
    match PcOf(st, t)
    case Want(_, _, _) => WantLess(st, t, st');
    case Check(_, _) => WantLess(st, t, st');
    case Hold(_, _) => HoldLess(st, t, st');
    case Unlocking(_, _) => UnlockLess(st, t, st');
    case _ => ExpandLess(st, t, st');
  }

  lemma OthersStay(st: State, t: nat, st': State)
    requires Proceed(st, t, st')
    ensures t in st.threads && st'.threads.Keys == st.threads.Keys
    ensures forall u: nat :: u != t ==> PcOf(st', u) == PcOf(st, u)
  {
    hide LockCount, Pow2, LockInd, Held;
  }

  /** The same for all threads below n. */
  function AllLeft(st: State, n: nat): nat { if n == 0 then 0 else AllLeft(st, n - 1) + StepsLeft(PcOf(st, n - 1)) }

  lemma {:induction false} AllLess(st: State, st': State, t: nat, n: nat)
    requires forall u: nat :: u != t ==> PcOf(st', u) == PcOf(st, u)
    requires StepsLeft(PcOf(st', t)) < StepsLeft(PcOf(st, t))
    ensures AllLeft(st', n) + (if t < n then 1 else 0) <= AllLeft(st, n)
  {
    hide StepsLeft, PcOf;
    if n > 0 { AllLess(st, st', t, n - 1); }
  }

  // ------------------------------------------------------------------ all threads come to rest

  /** From a on, nobody begins anything. */
  ghost predicate NobodyBegins(r: seq<State>, a: nat)
  {
    forall i :: a <= i < |r| - 1 ==> Goes(r[i], r[i + 1])
  }

  ghost predicate Goes(st: State, st': State) { exists t :: Proceed(st, t, st') }

  predicate Rests(pc: Pc) { pc.Idle? || pc.Snapped? }

  ghost predicate AllRest(st: State) { forall t: nat :: Rests(PcOf(st, t)) }

  /** All threads of the state have numbers below n. */
  ghost predicate Below(st: State, n: nat) { forall u :: u in st.threads ==> u < n }

  lemma {:induction false} KeptKeys(r: seq<State>, a: nat, i: nat)
    requires Run(r) && NobodyBegins(r, a) && a <= i < |r|
    ensures r[i].threads.Keys == r[a].threads.Keys
  {
    hide Run, StateOk, Proceed;
    if i > a {
      KeptKeys(r, a, i - 1);
      OneLess(r, i - 1, 0);
    }
  }

  lemma OneLess(r: seq<State>, i: nat, n: nat)
    requires Run(r) && i + 1 < |r| && Goes(r[i], r[i + 1])
    ensures r[i + 1].threads.Keys == r[i].threads.Keys
    ensures Below(r[i], n) ==> AllLeft(r[i + 1], n) < AllLeft(r[i], n)
  {
    hide Run, Proceed, StepsLeft, PcOk, PcOf;
    RunOk(r, i);
    var t :| Proceed(r[i], t, r[i + 1]);
    assert PcOk(r[i], PcOf(r[i], t));
    hide StateOk;
    OthersStay(r[i], t, r[i + 1]);
    LessLeft(r[i], t, r[i + 1]);
    AllLess(r[i], r[i + 1], t, n);
  }

  /** In any run, whatever the threads wait for and in whatever order they step: while nobody begins anything, at
      most so many steps are taken. */
  lemma {:induction false} NobodyGoesOnForEver(r: seq<State>, a: nat, i: nat, n: nat)
    requires Run(r) && NobodyBegins(r, a) && a <= i < |r| && Below(r[a], n)
    ensures i - a <= AllLeft(r[a], n) - AllLeft(r[i], n)
    decreases i
  {
    hide Run, Goes, AllLeft;
    if i > a {
      NobodyGoesOnForEver(r, a, i - 1, n);
      KeptKeys(r, a, i - 1);
      OneLess(r, i - 1, n);
    }
  }

  lemma Appended(r: seq<State>, st: State)
    requires |r| > 0 && Run(r) && Goes(r[|r| - 1], st)
    ensures Run(r + [st])
  {
    hide Init, Begin, Proceed;
    var r' := r + [st];
    forall i | 0 <= i < |r'| - 1 ensures Next(r'[i], r'[i + 1]) {
      if i < |r| - 1 { assert r'[i] == r[i] && r'[i + 1] == r[i + 1]; }
    }
  }

  /** From every state of every run all threads come to rest, if nobody begins anything new. */
  lemma {:induction false} AllComeToRest(r: seq<State>, n: nat) returns (r': seq<State>)
    requires |r| > 0 && Run(r) && Below(r[|r| - 1], n)
    ensures Run(r') && r <= r' && NobodyBegins(r', |r| - 1)
    ensures |r'| <= |r| + AllLeft(r[|r| - 1], n)
    ensures AllRest(r'[|r'| - 1])
    decreases AllLeft(r[|r| - 1], n)
  {
    hide Run, Proceed, AllLeft;
    r' := r;
    var st := r[|r| - 1];
    if t: nat :| !Rests(PcOf(st, t)) {
      NoDeadlock(r, |r| - 1, t);
      var u, st' :| Proceed(st, u, st');
      assert Goes(st, st');
      Appended(r, st');
      var r1 := r + [st'];
      assert r1[|r| - 1] == st && r1[|r|] == st' && |r1| == |r| + 1;
      OneLess(r1, |r| - 1, n);
      r' := AllComeToRest(r1, n);
      assert r'[|r| - 1] == st && r'[|r|] == st' by { assert r'[..|r| + 1] == r1; }
    }
  }

  // ------------------------------------------------------------------ a request is granted

  /** From a to b, only thread t steps, and begins nothing. */
  ghost predicate OnlyOf(r: seq<State>, a: nat, b: nat, t: nat)
  {
    a <= b < |r| && forall i :: a <= i < b ==> Proceed(r[i], t, r[i + 1])
  }

  /** The request of t for ls has come so far that it holds the first got of the locks. */
  ghost predicate GotSoFar(st: State, st0: State, t: nat, hp: nat, ls: seq<nat>, got: nat)
  {
    && 1 <= got <= |ls| && st.hashpower == st0.hashpower && PcOf(st, t) == Want(hp, ls, got)
    && (forall i :: got <= i < |ls| ==> ls[i] !in st.locks)
  }

  lemma TakeNext(st: State, st0: State, t: nat, hp: nat, ls: seq<nat>, got: nat, st': State)
    requires Increasing(ls) && GotSoFar(st, st0, t, hp, ls, got) && got < |ls| && Proceed(st, t, st')
    ensures GotSoFar(st', st0, t, hp, ls, got + 1)
  {
    hide LockCount, Pow2, LockInd;
  }

  lemma {:induction false} TakesRest(r: seq<State>, a: nat, b: nat, t: nat, hp: nat, ls: seq<nat>, i: nat)
    requires |ls| >= 1 && Increasing(ls) && OnlyOf(r, a, b, t) && a + 2 <= i <= b && i - a - 1 <= |ls|
    requires GotSoFar(r[a + 2], r[a], t, hp, ls, 1)
    ensures GotSoFar(r[i], r[a], t, hp, ls, i - a - 1)
    decreases i
  {
    hide Proceed, GotSoFar;
    if i > a + 2 {
      TakesRest(r, a, b, t, hp, ls, i - 1);
      TakeNext(r[i - 1], r[a], t, hp, ls, i - a - 2, r[i]);
    }
  }

  /** The first lock, and the check. */
  lemma FirstAndCheck(st: State, st1: State, st2: State, t: nat, hp: nat, ls: seq<nat>)
    requires |ls| >= 1 && Increasing(ls) && PcOf(st, t) == Want(hp, ls, 0)
    requires forall i :: 0 <= i < |ls| ==> ls[i] !in st.locks
    requires Proceed(st, t, st1) && Proceed(st1, t, st2)
    ensures if st.hashpower == hp then GotSoFar(st2, st, t, hp, ls, 1) else PcOf(st2, t).Idle? && st2.locks == st.locks
  {
    hide LockCount, Pow2, LockInd;
    assert st1.locks == st.locks[ls[0] := t];
    if st.hashpower != hp { assert st.locks[ls[0] := t] - {ls[0]} == st.locks; }
  }

  lemma LastStep(st: State, st0: State, t: nat, hp: nat, ls: seq<nat>, st': State)
    requires GotSoFar(st, st0, t, hp, ls, |ls|) && Proceed(st, t, st')
    ensures PcOf(st', t) == Hold(hp, Held(Want(hp, ls, |ls|))) && st'.hashpower == st0.hashpower
  {
    hide LockCount, Pow2, LockInd;
  }

  lemma RequestShape(r: seq<State>, a: nat, t: nat)
    requires Run(r) && a < |r| && PcOf(r[a], t).Want?
    ensures |PcOf(r[a], t).ls| >= 1 && Increasing(PcOf(r[a], t).ls)
  {
    hide Run, LockCount, Held;
    RunOk(r, a);
    assert PcOk(r[a], PcOf(r[a], t));
  }

  lemma HeldInTheEnd(r: seq<State>, b: nat, t: nat, hp: nat, ls: seq<nat>)
    requires Run(r) && b < |r| && PcOf(r[b], t) == Hold(hp, Held(Want(hp, ls, |ls|)))
    ensures forall l :: l in PcOf(r[b], t).held <==> l in ls
    ensures forall l :: l in ls ==> Owns(r[b], t, l)
  {
    hide Run, LockCount, PcOf, PcOk, HasMutex, Owns;
    RunOk(r, b);
    forall l | l in ls ensures Owns(r[b], t, l) { assert l in Held(PcOf(r[b], t)); }
  }

  /** A thread that asks for free locks, and is not disturbed, gets exactly those if it has read the current hashpower;
      otherwise, after its first lock, it gives that back and holds nothing. */
  lemma RequestIsGranted(r: seq<State>, a: nat, b: nat, t: nat, hp: nat, ls: seq<nat>)
    requires Run(r) && OnlyOf(r, a, b, t) && PcOf(r[a], t) == Want(hp, ls, 0)
    requires forall l :: l in ls ==> l !in r[a].locks
    ensures r[a].hashpower == hp && b == a + |ls| + 2 ==>
              && PcOf(r[b], t).Hold? && PcOf(r[b], t).hp == hp == r[b].hashpower
              && (forall l :: l in PcOf(r[b], t).held <==> l in ls) && (forall l :: l in ls ==> Owns(r[b], t, l))
    ensures r[a].hashpower != hp && b == a + 2 ==> PcOf(r[b], t).Idle? && r[b].locks == r[a].locks
  {
    hide Run, LockCount, Pow2, LockInd, Proceed, GotSoFar, Held;
    RequestShape(r, a, t);
    if b >= a + 2 {
      FirstAndCheck(r[a], r[a + 1], r[a + 2], t, hp, ls);
      if r[a].hashpower == hp && b == a + |ls| + 2 {
        TakesRest(r, a, b, t, hp, ls, b - 1);
        LastStep(r[b - 1], r[a], t, hp, ls, r[b]);
        HeldInTheEnd(r, b, t, hp, ls);
      }
    }
  }

  // ------------------------------------------------------------------ a doubling gets all locks

  ghost predicate AllSoFar(st: State, st0: State, t: nat, hp: nat, got: nat)
  {
    && got <= LockCount(hp + 1) && st.hashpower == st0.hashpower && PcOf(st, t) == LockAll(hp, got)
    && forall l: nat :: got <= l ==> l !in st.locks
  }

  lemma TakeNextOfAll(st: State, st0: State, t: nat, hp: nat, got: nat, st': State)
    requires AllSoFar(st, st0, t, hp, got) && got < LockCount(hp + 1) && Proceed(st, t, st')
    ensures AllSoFar(st', st0, t, hp, got + 1)
  {
    hide LockCount, Pow2, LockInd;
  }

  lemma {:induction false} TakesAll(r: seq<State>, a: nat, b: nat, t: nat, hp: nat, i: nat)
    requires OnlyOf(r, a, b, t) && a + 2 <= i <= b && i - a - 2 <= LockCount(hp + 1)
    requires AllSoFar(r[a + 2], r[a], t, hp, 0)
    ensures AllSoFar(r[i], r[a], t, hp, i - a - 2)
    decreases i
  {
    hide Proceed, AllSoFar, LockCount;
    if i > a + 2 {
      TakesAll(r, a, b, t, hp, i - 1);
      TakeNextOfAll(r[i - 1], r[a], t, hp, i - a - 3, r[i]);
    }
  }

  lemma ExpansionAndCheck(st: State, st1: State, st2: State, t: nat, hp: nat)
    requires PcOf(st, t) == WaitExpansion(hp) && st.locks == map[]
    requires Proceed(st, t, st1) && Proceed(st1, t, st2)
    ensures if st.hashpower == hp then AllSoFar(st2, st, t, hp, 0) else PcOf(st2, t).Idle? && st2.expansion.Nobody?
  {
    hide LockCount, Pow2, LockInd;
  }

  lemma AllTaken(st: State, st0: State, t: nat, hp: nat, st': State)
    requires AllSoFar(st, st0, t, hp, LockCount(hp + 1)) && Proceed(st, t, st')
    ensures PcOf(st', t) == Grow(hp) && st'.hashpower == st0.hashpower
  {
    hide LockCount, Pow2, LockInd;
  }

  lemma AllHeldInTheEnd(r: seq<State>, b: nat, t: nat)
    requires Run(r) && b < |r| && PcOf(r[b], t).Grow?
    ensures forall l: nat :: l < LockCount(PcOf(r[b], t).hp + 1) ==> Owns(r[b], t, l)
  {
    hide Run, LockCount, PcOf, PcOk, HasMutex, Owns, Upto;
    RunOk(r, b);
    forall l: nat | l < LockCount(PcOf(r[b], t).hp + 1) ensures Owns(r[b], t, l) { assert l in Held(PcOf(r[b], t)); }
  }

  /** A thread that wants to double the table while all locks are free, and is not disturbed, gets every lock of the
      bigger table if nobody has doubled it since; otherwise it gives the expansion lock back. */
  lemma DoublingIsGranted(r: seq<State>, a: nat, b: nat, t: nat, hp: nat)
    requires Run(r) && OnlyOf(r, a, b, t) && PcOf(r[a], t) == WaitExpansion(hp) && r[a].locks == map[]
    ensures r[a].hashpower == hp && b == a + LockCount(hp + 1) + 3 ==>
              && PcOf(r[b], t) == Grow(hp) && r[b].hashpower == hp
              && forall l: nat :: l < LockCount(hp + 1) ==> Owns(r[b], t, l)
    ensures r[a].hashpower != hp && b == a + 2 ==> PcOf(r[b], t).Idle? && r[b].expansion.Nobody?
  {
    hide Run, LockCount, Pow2, LockInd, Proceed, AllSoFar;
    if b >= a + 2 {
      ExpansionAndCheck(r[a], r[a + 1], r[a + 2], t, hp);
      if r[a].hashpower == hp && b == a + LockCount(hp + 1) + 3 {
        TakesAll(r, a, b, t, hp, b - 1);
        AllTaken(r[b - 1], r[a], t, hp, r[b]);
        AllHeldInTheEnd(r, b, t);
      }
    }
  }
}
