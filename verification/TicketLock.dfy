/** The ticket lock, with both 32-bit counters wrapping around: mutual exclusion and first-come-first-served
    entry for every interleaving of lock, trylock and unlock by fewer than 2^32 threads. */
module TicketLock {
  import opened Hashing

  const W: nat := 0x1_0000_0000

  /** my is the ticket drawn.  num, the place of that ticket in the order of all tickets ever drawn, is an
      annotation: no step reads it. */
  datatype Pc =
    | Idle
    | Waiting(my: nat, num: nat)
    | Holding(num: nat)
    | Unlocking(cur: nat, num: nat)
    | TryCas(tk: nat, cu: nat)

  /** ticket and curr are the two counters.  taken records who drew each ticket, entered who has got the
      lock, in order; released counts the unlocks. */
  datatype State = State(ticket: nat, curr: nat, threads: map<nat, Pc>, taken: seq<nat>, entered: seq<nat>,
      released: nat)

  function PcOf(st: State, t: nat): Pc { if t in st.threads then st.threads[t] else Idle }

  function Goto(st: State, t: nat, pc: Pc): State { st.(threads := st.threads[t := pc]) }

  /** The 32-bit increment. */
  function Inc(x: nat): nat { (x + 1) % W }

  /** ticket_lock draws a ticket with one fetch-and-increment. */
  function Draw(st: State, t: nat): State
  {
    Goto(st.(ticket := Inc(st.ticket), taken := st.taken + [t]), t, Waiting(st.ticket, |st.taken|))
  }

  /** One look at curr. */
  function Spin(st: State, t: nat): State
    requires PcOf(st, t).Waiting?
  {
    if st.curr == PcOf(st, t).my then Goto(st.(entered := st.entered + [t]), t, Holding(PcOf(st, t).num)) else st
  }

  /** ticket_trylock reads both counters with one load, and gives up when they differ. */
  function TryRead(st: State, t: nat): State
  {
    Goto(st, t, if st.curr == st.ticket then TryCas(st.ticket, st.curr) else Idle)
  }

  /** The compare-and-swap on the word of both counters. */
  function TrySwap(st: State, t: nat): State
    requires PcOf(st, t).TryCas?
  {
    var pc := PcOf(st, t);
    if st.ticket == pc.tk && st.curr == pc.cu
    then Goto(st.(ticket := Inc(pc.tk), curr := pc.cu, taken := st.taken + [t], entered := st.entered + [t]), t,
        Holding(|st.taken|))
    else Goto(st, t, Idle)
  }

  /** curr++ in ticket_unlock is a load and a store. */
  function UnlockLoad(st: State, t: nat): State
    requires PcOf(st, t).Holding?
  {
    Goto(st, t, Unlocking(st.curr, PcOf(st, t).num))
  }

  function UnlockStore(st: State, t: nat): State
    requires PcOf(st, t).Unlocking?
  {
    Goto(st.(curr := Inc(PcOf(st, t).cur), released := st.released + 1), t, Idle)
  }

  /** A step of thread t; the thread numbers stay below `limit`. */
  ghost predicate Step(limit: nat, st: State, t: nat, st': State)
  {
    && t < limit
    && match PcOf(st, t)
       case Idle => st' == Draw(st, t) || st' == TryRead(st, t)
       case Waiting(_, _) => st' == Spin(st, t)
       case Holding(_) => st' == UnlockLoad(st, t)
       case Unlocking(_, _) => st' == UnlockStore(st, t)
       case TryCas(_, _) => st' == TrySwap(st, t)
  }

  ghost predicate Next(limit: nat, st: State, st': State)
  {
    exists t :: Step(limit, st, t, st')
  }

  /** ticket_init. */
  function Init(): State { State(0, 0, map[], [], [], 0) }

  ghost predicate Run(limit: nat, r: seq<State>)
  {
    && limit < W && |r| > 0 && r[0] == Init()
    && forall i :: 0 <= i < |r| - 1 ==> Next(limit, r[i], r[i + 1])
  }

  // ------------------------------------------------------------------ the invariant

  predicate HasTicket(pc: Pc) { pc.Waiting? || pc.Holding? || pc.Unlocking? }

  predicate Inside(pc: Pc) { pc.Holding? || pc.Unlocking? }

  /** The thread with the n-th ticket. */
  predicate Owns(st: State, t: nat, n: nat) { HasTicket(PcOf(st, t)) && PcOf(st, t).num == n }

  ghost predicate PcOk(limit: nat, st: State, t: nat)
  {
    var pc := PcOf(st, t);
    && (t in st.threads ==> t < limit)
    && (HasTicket(pc) ==> st.released <= pc.num < |st.taken| && st.taken[pc.num] == t)
    && (pc.Waiting? ==> pc.my == pc.num % W && |st.entered| <= pc.num)
    && (Inside(pc) ==> pc.num == st.released && |st.entered| == st.released + 1)
    && (pc.Unlocking? ==> pc.cur == st.curr)
    && (pc.TryCas? ==> pc.tk == pc.cu)
  }

  ghost predicate StateOk(limit: nat, st: State)
  {
    && limit < W
    && st.released <= |st.taken| && st.ticket == |st.taken| % W && st.curr == st.released % W
    && (forall t: nat :: PcOk(limit, st, t))
    && (forall n: nat :: st.released <= n < |st.taken| ==> Owns(st, st.taken[n], n))
    && st.released <= |st.entered| <= st.released + 1 && |st.entered| <= |st.taken|
        && st.entered == st.taken[..|st.entered|]
    && (|st.entered| == st.released + 1 ==> Inside(PcOf(st, st.taken[st.released])))
  }

  lemma SameRemainder(a: nat, b: nat)
    requires a % W == b % W && a <= b < a + W
    ensures a == b
  {
  }

  /** Tickets are outstanding for different threads, so there are fewer than 2^32 of them. */
  lemma FewOutstanding(limit: nat, st: State)
    requires StateOk(limit, st)
    ensures |st.taken| - st.released <= limit
  {
    var owners := set n: nat | st.released <= n < |st.taken| :: st.taken[n];
    DistinctOwners(limit, st, st.released);
    UptoSize(limit);
    assert owners <= Upto(limit) by {
      forall n: nat | st.released <= n < |st.taken| ensures st.taken[n] < limit {
        assert Owns(st, st.taken[n], n) && PcOk(limit, st, st.taken[n]);
      }
    }
    SubsetSize(owners, Upto(limit));
  }

  lemma {:induction false} DistinctOwners(limit: nat, st: State, from: nat)
    requires StateOk(limit, st) && st.released <= from <= |st.taken|
    ensures |set n: nat | from <= n < |st.taken| :: st.taken[n]| == |st.taken| - from
    decreases |st.taken| - from
  {
    var s := set n: nat | from <= n < |st.taken| :: st.taken[n];
    if from == |st.taken| {
      assert s == {};
    } else {
      DistinctOwners(limit, st, from + 1);
      var rest := set n: nat | from + 1 <= n < |st.taken| :: st.taken[n];
      assert s == rest + {st.taken[from]};
      forall n: nat | from + 1 <= n < |st.taken| ensures st.taken[n] != st.taken[from] {
        assert Owns(st, st.taken[n], n) && Owns(st, st.taken[from], from);
      }
    }
  }

  // ------------------------------------------------------------------ every step keeps it

  lemma TicketAfter(n: nat)
    ensures Inc(n % W) == (n + 1) % W
  {
  }

  /** With a free word the next ticket is the one being served. */
  lemma FreeWord(limit: nat, st: State)
    requires StateOk(limit, st) && st.ticket == st.curr
    ensures |st.taken| == st.released
  {
    FewOutstanding(limit, st);
    SameRemainder(st.released, |st.taken|);
  }

  lemma DrawStep(limit: nat, st: State, t: nat)
    requires StateOk(limit, st) && t < limit && PcOf(st, t).Idle?
    ensures StateOk(limit, Draw(st, t))
  {
    var st' := Draw(st, t);
    TicketAfter(|st.taken|);
    forall u: nat ensures PcOk(limit, st', u) { assert PcOk(limit, st, u); }
    forall n: nat | st'.released <= n < |st'.taken| ensures Owns(st', st'.taken[n], n) {
      if n < |st.taken| { assert Owns(st, st.taken[n], n); }
    }
    if |st.entered| == st.released + 1 { assert Owns(st, st.taken[st.released], st.released); }
  }

  lemma SpinStep(limit: nat, st: State, t: nat)
    requires StateOk(limit, st) && PcOf(st, t).Waiting?
    ensures StateOk(limit, Spin(st, t))
  {
    var st' := Spin(st, t);
    var n := PcOf(st, t).num;
    assert PcOk(limit, st, t);
    if st.curr == PcOf(st, t).my {
      FewOutstanding(limit, st);
      SameRemainder(st.released, n);
      forall u: nat ensures PcOk(limit, st', u) { assert PcOk(limit, st, u); }
      forall m: nat | st'.released <= m < |st'.taken|
          ensures Owns(st', st'.taken[m], m) { assert Owns(st, st.taken[m], m); }
      assert st.taken[..n + 1] == st.taken[..n] + [t];
    }
  }

  lemma MoveStep(limit: nat, st: State, t: nat, pc: Pc)
    requires StateOk(limit, st) && t < limit
    requires (PcOf(st, t).Idle? && (pc.Idle? || (pc.TryCas? && pc.tk == pc.cu))) || (PcOf(st, t).TryCas? && pc.Idle?)
      || (PcOf(st, t).Holding? && pc == Unlocking(st.curr, PcOf(st, t).num))
    ensures StateOk(limit, Goto(st, t, pc))
  {
    var st' := Goto(st, t, pc);
    assert PcOk(limit, st, t);
    forall u: nat ensures PcOk(limit, st', u) { assert PcOk(limit, st, u); }
    forall m: nat | st'.released <= m < |st'.taken|
        ensures Owns(st', st'.taken[m], m) { assert Owns(st, st.taken[m], m); }
  }

  lemma TrySwapStep(limit: nat, st: State, t: nat)
    requires StateOk(limit, st) && t < limit && PcOf(st, t).TryCas? && PcOf(st, t).tk == PcOf(st, t).cu
    ensures StateOk(limit, TrySwap(st, t))
  {
    var pc := PcOf(st, t);
    if st.ticket == pc.tk && st.curr == pc.cu {
      var st' := TrySwap(st, t);
      FreeWord(limit, st);
      TicketAfter(|st.taken|);
      forall u: nat ensures PcOk(limit, st', u) { assert PcOk(limit, st, u); }
      forall m: nat | st'.released <= m < |st'.taken| ensures Owns(st', st'.taken[m], m) { }
      assert st.taken[..|st.taken|] == st.taken;
      assert st'.taken[..|st'.taken|] == st'.taken;
    } else {
      MoveStep(limit, st, t, Idle);
    }
  }

  lemma UnlockStep(limit: nat, st: State, t: nat)
    requires StateOk(limit, st) && PcOf(st, t).Unlocking?
    ensures StateOk(limit, UnlockStore(st, t))
  {
    var st' := UnlockStore(st, t);
    assert PcOk(limit, st, t);
    TicketAfter(st.released);
    forall u: nat ensures PcOk(limit, st', u) { assert PcOk(limit, st, u); }
    forall m: nat | st'.released <= m < |st'.taken|
        ensures Owns(st', st'.taken[m], m) { assert Owns(st, st.taken[m], m); }
  }

  lemma NextKeeps(limit: nat, st: State, st': State)
    requires StateOk(limit, st) && Next(limit, st, st')
    ensures StateOk(limit, st')
  {
    var t :| Step(limit, st, t, st');
    assert PcOk(limit, st, t);
    hide StateOk;
    match PcOf(st, t)
    case Idle =>
      if st' == Draw(st, t) { DrawStep(limit, st, t); }
      else { MoveStep(limit, st, t, if st.curr == st.ticket then TryCas(st.ticket, st.curr) else Idle); }
    case Waiting(_, _) => SpinStep(limit, st, t);
    case Holding(n) => MoveStep(limit, st, t, Unlocking(st.curr, n));
    case Unlocking(_, _) => UnlockStep(limit, st, t);
    case TryCas(_, _) => TrySwapStep(limit, st, t);
  }

  lemma {:induction false} RunOk(limit: nat, r: seq<State>, i: nat)
    requires Run(limit, r) && i < |r|
    ensures StateOk(limit, r[i])
  {
    if i == 0 {
    } else {
      hide StateOk, Next;
      RunOk(limit, r, i - 1);
      NextKeeps(limit, r[i - 1], r[i]);
    }
  }

  // ------------------------------------------------------------------ the theorems

  /** At most one thread is between getting the lock and having given it back. */
  lemma MutualExclusion(limit: nat, r: seq<State>, i: nat, t: nat, u: nat)
    requires Run(limit, r) && i < |r| && Inside(PcOf(r[i], t)) && Inside(PcOf(r[i], u))
    ensures t == u
  {
    RunOk(limit, r, i);
    assert PcOk(limit, r[i], t) && PcOk(limit, r[i], u);
  }

  /** Threads get the lock in the order in which they drew their tickets, trylock included: those that have
      entered are the first that drew, and they are one more than those that have left, or as many. */
  lemma FirstComeFirstServed(limit: nat, r: seq<State>, i: nat)
    requires Run(limit, r) && i < |r|
    ensures |r[i].entered| <= |r[i].taken| && r[i].entered == r[i].taken[..|r[i].entered|]
    ensures r[i].released <= |r[i].entered| <= r[i].released + 1
  {
    RunOk(limit, r, i);
  }

  /** The number of outstanding tickets, from the 32-bit counters. */
  function Outstanding(st: State): nat { (st.ticket + W - st.curr) % W }

  lemma OutstandingTickets(limit: nat, st: State)
    requires StateOk(limit, st)
    ensures Outstanding(st) == |st.taken| - st.released
  {
    FewOutstanding(limit, st);
    var d := |st.taken| - st.released;
    CyclicDistance(st.released, d);
  }

  lemma CyclicDistance(a: nat, d: nat)
    requires d < W
    ensures ((a + d) % W + W - a % W) % W == d
    ensures (a % W + d) % W == (a + d) % W
  {
    var q, x := a / W, a % W;
    assert a == q * W + x;
    if x + d < W {
      Remainder(a + d, W, q, x + d);
      Remainder(x + d, W, 0, x + d);
      Remainder(x + d + W - x, W, 1, d);
    } else {
      Remainder(a + d, W, q + 1, x + d - W);
      Remainder(x + d, W, 1, x + d - W);
      Remainder(x + d - W + W - x, W, 0, d);
    }
  }

  /** The ticket a thread holds, as a 32-bit word. */
  function TicketOf(st: State, t: nat): nat
  {
    var pc := PcOf(st, t);
    if pc.Waiting? then pc.my else if HasTicket(pc) then pc.num % W else 0
  }

  /** The tickets in use are exactly the cyclic interval from curr to ticket, each used by one thread, even
      while the counters wrap around. */
  lemma TicketsAreAnInterval(limit: nat, r: seq<State>, i: nat, d: nat)
    requires Run(limit, r) && i < |r|
    ensures d < Outstanding(r[i]) ==> exists t :: HasTicket(PcOf(r[i], t)) && TicketOf(r[i], t) == (r[i].curr + d) % W
    ensures forall t: nat :: HasTicket(PcOf(r[i], t)) ==> (TicketOf(r[i], t) + W - r[i].curr) % W < Outstanding(r[i])
    ensures forall t: nat, u: nat ::
        HasTicket(PcOf(r[i], t)) && HasTicket(PcOf(r[i], u)) && TicketOf(r[i], t) == TicketOf(r[i], u) ==> t == u
  {
    RunOk(limit, r, i);
    hide Run, StateOk, W, TicketOf, HasTicket;
    var st := r[i];
    if d < Outstanding(st) { var t := TicketIsOwned(limit, st, d); }
    forall t: nat | HasTicket(PcOf(st, t)) ensures (TicketOf(st, t) + W - st.curr) % W < Outstanding(st) {
      TicketIsInside(limit, st, t);
    }
    forall t: nat, u: nat | HasTicket(PcOf(st, t)) && HasTicket(PcOf(st, u)) && TicketOf(st, t) == TicketOf(st, u)
      ensures t == u
    {
      SameTicket(limit, st, t, u);
    }
  }

  lemma TicketIsOwned(limit: nat, st: State, d: nat) returns (t: nat)
    requires StateOk(limit, st) && d < Outstanding(st)
    ensures HasTicket(PcOf(st, t)) && TicketOf(st, t) == (st.curr + d) % W
  {
    OutstandingTickets(limit, st);
    FewOutstanding(limit, st);
    var n := st.released + d;
    t := st.taken[n];
    assert Owns(st, t, n) && PcOk(limit, st, t);
    CyclicDistance(st.released, d);
  }

  lemma TicketIsInside(limit: nat, st: State, t: nat)
    requires StateOk(limit, st) && HasTicket(PcOf(st, t))
    ensures (TicketOf(st, t) + W - st.curr) % W < Outstanding(st)
  {
    OutstandingTickets(limit, st);
    FewOutstanding(limit, st);
    assert PcOk(limit, st, t);
    CyclicDistance(st.released, PcOf(st, t).num - st.released);
  }

  lemma SameTicket(limit: nat, st: State, t: nat, u: nat)
    requires StateOk(limit, st) && HasTicket(PcOf(st, t)) && HasTicket(PcOf(st, u))
    requires TicketOf(st, t) == TicketOf(st, u)
    ensures t == u
  {
    FewOutstanding(limit, st);
    assert PcOk(limit, st, t) && PcOk(limit, st, u);
    var a, b := PcOf(st, t).num, PcOf(st, u).num;
    if a <= b { SameRemainder(a, b); } else { SameRemainder(b, a); }
  }

  /** trylock gets the lock only when nobody has it or waits for it. */
  lemma TryLockTakesAFreeLock(limit: nat, r: seq<State>, i: nat, t: nat, u: nat)
    requires Run(limit, r) && i < |r| && PcOf(r[i], t).TryCas? && Inside(PcOf(TrySwap(r[i], t), t))
    ensures !HasTicket(PcOf(r[i], u))
  {
    RunOk(limit, r, i);
    var st := r[i];
    assert PcOk(limit, st, t) && PcOk(limit, st, u);
    FreeWord(limit, st);
  }

  /** When a thread waits and nobody has the lock, the next thread in line gets it at its next look. */
  lemma NextInLineEnters(limit: nat, r: seq<State>, i: nat, t: nat) returns (u: nat)
    requires Run(limit, r) && i < |r| && PcOf(r[i], t).Waiting?
    ensures Inside(PcOf(r[i], u)) || (PcOf(r[i], u).Waiting? && Inside(PcOf(Spin(r[i], u), u)))
  {
    RunOk(limit, r, i);
    var st := r[i];
    assert PcOk(limit, st, t);
    u := st.taken[st.released];
    assert Owns(st, u, st.released) && PcOk(limit, st, u);
  }

  /** A run may go on with a step of any thread. */
  lemma {:induction false} Extends(limit: nat, r: seq<State>, t: nat, st': State)
    requires Run(limit, r) && Step(limit, r[|r| - 1], t, st')
    ensures Run(limit, r + [st'])
  {
    hide Step;
    var r' := r + [st'];
    forall i | 0 <= i < |r'| - 1 ensures Next(limit, r'[i], r'[i + 1]) {
      if i < |r| - 1 { assert r'[i] == r[i] && r'[i + 1] == r[i + 1]; }
      else { assert Step(limit, r'[i], t, r'[i + 1]); }
    }
  }

  ghost predicate NobodyHasTicket(st: State) { forall u: nat :: !HasTicket(PcOf(st, u)) }

  /** trylock, its steps taken one after the other: it never waits, and it gets the lock if and only if nobody has it
      or waits for it; otherwise it gives up at its first look.  Its ticket is then the last that was drawn. */
  lemma TryLockAlone(limit: nat, r: seq<State>, t: nat) returns (r': seq<State>)
    requires Run(limit, r) && PcOf(r[|r| - 1], t).Idle? && t < limit
    ensures Run(limit, r') && r <= r' && |r'| <= |r| + 2
    ensures var st, st' := r[|r| - 1], r'[|r'| - 1];
            if !NobodyHasTicket(st) then
              |r'| == |r| + 1 && PcOf(st', t).Idle? && st'.taken == st.taken && st'.entered == st.entered
            else
              |r'| == |r| + 2 && PcOf(st', t).Holding? && st'.taken == st.taken + [t] && st'.entered == st.entered + [t]
  {
    RunOk(limit, r, |r| - 1);
    var st := r[|r| - 1];
    LockIsFree(limit, st);
    r' := r + [TryRead(st, t)];
    Extends(limit, r, t, TryRead(st, t));
    if st.ticket == st.curr {
      Extends(limit, r', t, TrySwap(TryRead(st, t), t));
      r' := r' + [TrySwap(TryRead(st, t), t)];
    }
  }

  /** The counters are equal exactly when nobody has a ticket. */
  lemma LockIsFree(limit: nat, st: State)
    requires StateOk(limit, st)
    ensures st.ticket == st.curr <==> NobodyHasTicket(st)
  {
    if st.ticket == st.curr {
      FreeWord(limit, st);
      forall u: nat ensures !HasTicket(PcOf(st, u)) { assert PcOk(limit, st, u); }
    } else {
      assert Owns(st, st.taken[st.released], st.released);
    }
  }

  /** A lock that nobody has or waits for is got with the ticket and one look. */
  lemma LockAlone(limit: nat, r: seq<State>, t: nat) returns (r': seq<State>)
    requires Run(limit, r) && PcOf(r[|r| - 1], t).Idle? && t < limit
    requires NobodyHasTicket(r[|r| - 1])
    ensures Run(limit, r') && r <= r' && |r'| == |r| + 2
    ensures PcOf(r'[|r'| - 1], t).Holding? && r'[|r'| - 1].entered == r[|r| - 1].entered + [t]
  {
    RunOk(limit, r, |r| - 1);
    var st := r[|r| - 1];
    LockIsFree(limit, st);
    Extends(limit, r, t, Draw(st, t));
    Extends(limit, r + [Draw(st, t)], t, Spin(Draw(st, t), t));
    r' := r + [Draw(st, t)] + [Spin(Draw(st, t), t)];
  }

  /** The two steps of unlock, whatever the others wait for: the lock is given back, and the thread that has waited
      longest, if there is one, gets it at its next look. */
  lemma UnlockPassesOn(limit: nat, r: seq<State>, t: nat) returns (r': seq<State>)
    requires Run(limit, r) && PcOf(r[|r| - 1], t).Holding?
    ensures Run(limit, r') && r <= r' && |r'| == |r| + 2
    ensures var st, st' := r[|r| - 1], r'[|r'| - 1];
            && PcOf(st', t).Idle? && st'.released == st.released + 1 && st'.taken == st.taken
            && (forall u: nat :: u != t ==> PcOf(st', u) == PcOf(st, u))
            && if st'.released < |st'.taken|
               then Inside(PcOf(Spun(st', st'.taken[st'.released]), st'.taken[st'.released]))
               else NobodyHasTicket(st')
  {
    RunOk(limit, r, |r| - 1);
    var st := r[|r| - 1];
    assert PcOk(limit, st, t);
    var st1 := UnlockLoad(st, t);
    Extends(limit, r, t, st1);
    var st' := UnlockStore(st1, t);
    Extends(limit, r + [st1], t, st');
    r' := r + [st1] + [st'];
    RunOk(limit, r', |r'| - 1);
    NextHolder(limit, st');
  }

  /** A look at curr by a thread that waits. */
  function Spun(st: State, u: nat): State { if PcOf(st, u).Waiting? then Spin(st, u) else st }

  lemma NextHolder(limit: nat, st: State)
    requires StateOk(limit, st)
    ensures if st.released < |st.taken| then Inside(PcOf(Spun(st, st.taken[st.released]), st.taken[st.released]))
            else NobodyHasTicket(st)
  {
    if st.released == |st.taken| {
      forall u: nat ensures !HasTicket(PcOf(st, u)) { assert PcOk(limit, st, u); }
    } else {
      var u := st.taken[st.released];
      assert Owns(st, u, st.released) && PcOk(limit, st, u);
    }
  }
}
