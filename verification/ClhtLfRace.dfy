/** Why the answers of a get and of a failed put depend on every put bringing a value of its own: runs of two
    threads in which a slot changes hands between the steps of a search, and the value in it is the same again. */
module ClhtLfRace {
  import opened ClhtLf
  import opened ClhtLfProof

  /** A run, with the bucket and the threads it has come to. */
  datatype Scene = Scene(r: seq<State>, b: Bucket, ths: map<nat, Thread>)

  /** No other puts than the given ones are called in the run. */
  ghost predicate OnlyPuts(r: seq<State>, ops: set<Op>)
  {
    forall i, t :: 0 <= i < |r| && t in r[i].threads && r[i].threads[t].op.Put? ==> r[i].threads[t].op in ops
  }

  ghost predicate Played(s: Scene, ops: set<Op>)
  {
    && Run(s.r) && OnlyPuts(s.r, ops)
    && s.r[|s.r| - 1].b == s.b && s.r[|s.r| - 1].threads == s.ths
    && HistOk(s.r[|s.r| - 1])
  }

  /** The key has not been in the map since `start`. */
  ghost predicate Without(s: Scene, k: nat, start: nat)
  {
    s.r != [] && AbsentSince(s.r[|s.r| - 1].hist, k, start)
  }

  ghost predicate AbsentSince(hist: seq<Bucket>, k: nat, start: nat)
  {
    forall j :: start <= j < |hist| ==> !Present(hist[j], k)
  }

  lemma NotPresent(b: Bucket, k: nat)
    requires Shape(b) && b.snap.marks[1] == b.snap.marks[2] == INVLD && (b.snap.marks[0] == VALID ==> b.key[0] != k)
    ensures !Present(b, k)
  {
  }

  lemma {:induction false} Append(r: seq<State>, st: State)
    requires Run(r) && Next(r[|r| - 1], st)
    ensures Run(r + [st])
  {
    hide Next;
    forall i | 0 <= i < |r| ensures Next((r + [st])[i], (r + [st])[i + 1]) {
      if i < |r| - 1 { assert Next(r[i], r[i + 1]); }
    }
  }

  lemma AppendPuts(r: seq<State>, st: State, ops: set<Op>)
    requires OnlyPuts(r, ops) && forall t :: t in st.threads && st.threads[t].op.Put? ==> st.threads[t].op in ops
    ensures OnlyPuts(r + [st], ops)
  {
  }

  predicate CanGo(s: Scene, t: nat)
  {
    Shape(s.b) && t in s.ths && ThreadShape(s.ths[t]) && !s.ths[t].pc.Done?
  }

  /** Thread t takes a step. */
  lemma Acts(s: Scene, ops: set<Op>, t: nat, k: nat, start: nat) returns (s': Scene)
    requires Played(s, ops) && CanGo(s, t)
    ensures Played(s', ops) && s'.b == Step(s.b, t, s.ths[t]).b && s'.ths == s.ths[t := Step(s.b, t, s.ths[t]).th]
    ensures Without(s, k, start) && !Present(s'.b, k) ==> Without(s', k, start)
  {
    hide Present, Effect;
    var st := s.r[|s.r| - 1];
    var st' := StepThread(st, t);
    assert Next(st, st') by { hide Step; }
    Append(s.r, st');
    RunOk(s.r + [st'], |s.r|);
    StepOp(s.b, t, s.ths[t]);
    hide Step, Next;
    assert forall u :: u in st.threads && st.threads[u].op.Put? ==> st.threads[u].op in ops by {
      assert st == s.r[|s.r| - 1];
    }
    AppendPuts(s.r, st', ops);
    s' := Scene(s.r + [st'], st'.b, st'.threads);
  }

  lemma StepOp(b: Bucket, t: nat, th: Thread)
    requires Shape(b) && ThreadShape(th) && !th.pc.Done?
    ensures Step(b, t, th).th.op == th.op
  {
  }

  /** Thread t begins an operation. */
  lemma Begins(s: Scene, ops: set<Op>, t: nat, op: Op, k: nat, start: nat) returns (s': Scene)
    requires Played(s, ops) && (t in s.ths ==> s.ths[t].pc.Done?) && (op.Put? ==> op.v != 0 && op in ops)
    ensures Played(s', ops) && s'.b == s.b && t in s'.ths && s'.ths == s.ths[t := s'.ths[t]]
    ensures var th := s'.ths[t];
            th == Thread(op, th.start, -2, EMPTY.snap, if op.Get? then SearchVal(0) else ReadSnap)
    ensures Without(s, k, start) ==> Without(s', k, start)
    ensures !Present(s.b, k) ==> Without(s', k, s'.ths[t].start)
  {
    hide Present, Effect;
    var st := s.r[|s.r| - 1];
    var th := Thread(op, |st.events|, -2, EMPTY.snap, if op.Get? then SearchVal(0) else ReadSnap);
    var st' := st.(threads := st.threads[t := th], used := if op.Put? then st.used + {op.v} else st.used,
                   distinct := st.distinct && (op.Put? ==> op.v !in st.used));
    assert Invoke(st, t, op, st');
    Append(s.r, st');
    AppendPuts(s.r, st', ops);
    s' := Scene(s.r + [st'], s.b, st'.threads);
  }

  /** The empty bucket, before anybody has come. */
  lemma Opening(ops: set<Op>) returns (s: Scene)
    ensures Played(s, ops) && s.b == EMPTY && s.ths == map[]
  {
    s := Scene([Init()], EMPTY, map[]);
  }

  // ------------------------------------------------------------------ whole operations

  predicate Vacant(b: Bucket) { Shape(b) && b.snap.marks == [INVLD, INVLD, INVLD] }

  /** The search of a put in a bucket without entries. */
  lemma SearchesInVain(s: Scene, ops: set<Op>, t: nat, k: nat, start: nat) returns (s': Scene)
    requires Played(s, ops) && CanGo(s, t) && Vacant(s.b)
    requires var p := s.ths[t]; p.op.Put? && p.ei == -2 && p.pc == SearchVal(0) && p.s == s.b.snap
    ensures Played(s', ops) && s'.b == s.b && s'.ths == s.ths[t := s.ths[t].(ei := 0, pc := Cas1)]
    ensures Without(s, k, start) ==> Without(s', k, start)
  {
    hide Played, Present, Without;
    var p := s.ths[t];
    NotPresent(s.b, k);
    s' := Acts(s, ops, t, k, start);
    s' := Acts(s', ops, t, k, start);
    assert s'.b == s.b && s'.ths == s.ths[t := p.(pc := SearchVal(1))];
    s' := Acts(s', ops, t, k, start);
    s' := Acts(s', ops, t, k, start);
    assert s'.b == s.b && s'.ths == s.ths[t := p.(pc := SearchVal(2))];
    s' := Acts(s', ops, t, k, start);
    s' := Acts(s', ops, t, k, start);
  }

  /** A put up to its commit. */
  lemma WritesItsSlot(s: Scene, ops: set<Op>, t: nat, k: nat, start: nat) returns (s': Scene)
    requires Played(s, ops) && CanGo(s, t) && Vacant(s.b)
    requires var p := s.ths[t]; p.op.Put? && p.ei == -2 && p.pc == ReadSnap
    ensures Played(s', ops)
    ensures var p := s.ths[t];
            && s'.b == Bucket(Snap(s.b.snap.version, [INSRT, INVLD, INVLD]), s.b.key[0 := p.op.k], s.b.val[0 := p.op.v])
            && s'.ths == s.ths[t := p.(ei := 0, s := s'.b.snap, pc := Cas2)]
    ensures Without(s, k, start) ==> Without(s', k, start)
  {
    hide Played, Present, Without;
    var p := s.ths[t];
    NotPresent(s.b, k);
    s' := Acts(s, ops, t, k, start);
    s' := SearchesInVain(s', ops, t, k, start);
    var claimed := Snap(s.b.snap.version, [INSRT, INVLD, INVLD]);
    assert SnapSetMap(s.b.snap, 0, INSRT) == claimed;
    s' := Acts(s', ops, t, k, start);
    assert s'.b == s.b.(snap := claimed) && s'.ths == s.ths[t := p.(ei := 0, s := claimed, pc := StoreVal)];
    NotPresent(s'.b, k);
    s' := Acts(s', ops, t, k, start);
    NotPresent(s'.b, k);
    s' := Acts(s', ops, t, k, start);
    NotPresent(s'.b, k);
  }

  /** A whole put into a bucket without entries. */
  lemma Puts(s: Scene, ops: set<Op>, t: nat, op: Op, k: nat, start: nat) returns (s': Scene)
    requires Played(s, ops) && Vacant(s.b) && (t in s.ths ==> s.ths[t].pc.Done?) && op.Put? && op.v != 0 && op in ops
    ensures Played(s', ops) && t in s'.ths && s'.ths == s.ths[t := s'.ths[t]] && s'.ths[t].pc.Done?
    ensures HoldsOne(s'.b, op.k, op.v)
    ensures Without(s, k, start) && op.k != k ==> Without(s', k, start)
  {
    hide Played, Present, Without;
    s' := Begins(s, ops, t, op, k, start);
    s' := WritesItsSlot(s', ops, t, k, start);
    s' := Acts(s', ops, t, k, start);
    if op.k != k { NotPresent(s'.b, k); }
  }

  /** The only entry of the bucket is in its first slot. */
  predicate HoldsOne(b: Bucket, k: nat, v: nat)
  {
    Shape(b) && b.snap.marks == [VALID, INVLD, INVLD] && b.key[0] == k && b.val[0] == v
  }

  /** A whole remove of the only entry, which leaves key and value behind. */
  lemma Removes(s: Scene, ops: set<Op>, t: nat, key: nat, val: nat, k: nat, start: nat) returns (s': Scene)
    requires Played(s, ops) && HoldsOne(s.b, key, val) && t in s.ths && s.ths[t].pc.Done?
    ensures Played(s', ops) && t in s'.ths && s'.ths == s.ths[t := s'.ths[t]] && s'.ths[t].pc.Done?
    ensures Vacant(s'.b) && s'.b.key == s.b.key && s'.b.val == s.b.val
    ensures Without(s, k, start) && key != k ==> Without(s', k, start)
  {
    hide Played, Present, Without;
    if key != k { NotPresent(s.b, k); }
    s' := Begins(s, ops, t, Remove(key), k, start);
    var p := s'.ths[t];
    s' := Acts(s', ops, t, k, start);
    s' := Acts(s', ops, t, k, start);
    assert s'.b == s.b && s'.ths[t] == p.(s := s.b.snap, pc := RemVal(0));
    s' := Acts(s', ops, t, k, start);
    assert s'.b == s.b && s'.ths[t] == p.(s := s.b.snap, pc := RemCas(0, val));
    s' := Acts(s', ops, t, k, start);
    NotPresent(s'.b, k);
  }

  // ------------------------------------------------------------------ the misleading runs

  /** A get, or a put past its first load, that has seen value v and a VALID mark in the first slot. */
  predicate HasSeen(th: Thread, v: nat)
  {
    ThreadShape(th) && !th.op.Remove? && th.pc == SearchKey(0, v) && (th.op.Put? ==> th.ei == -2)
  }

  /** The first look of a search: the value and the mark of the first slot. */
  lemma SeesTheValue(s: Scene, ops: set<Op>, k: nat, start: nat) returns (s': Scene)
    requires Played(s, ops) && CanGo(s, 0) && !s.ths[0].op.Remove? && s.ths[0].pc == SearchVal(0)
    ensures Played(s', ops) && s'.b == s.b && s'.ths == s.ths[0 := s.ths[0].(pc := SearchMap(0, s.b.val[0]))]
    ensures Without(s, k, start) && !Present(s.b, k) ==> Without(s', k, start)
  {
    hide Played, Present, Without;
    s' := Acts(s, ops, 0, k, start);
  }

  lemma SeesTheMark(s: Scene, ops: set<Op>, k: nat, start: nat) returns (s': Scene)
    requires Played(s, ops) && CanGo(s, 0) && s.ths[0].pc.SearchMap? && s.ths[0].pc.i == 0 && s.b.snap.marks[0] == VALID
    ensures Played(s', ops) && s'.b == s.b && s'.ths == s.ths[0 := s.ths[0].(pc := SearchKey(0, s.ths[0].pc.v))]
    ensures Without(s, k, start) && !Present(s.b, k) ==> Without(s', k, start)
  {
    hide Played, Present, Without;
    s' := Acts(s, ops, 0, k, start);
  }

  /** The second look: the key has been stored meanwhile by a put that has not committed, and the value is the same. */
  lemma IsMisled(s: Scene, ops: set<Op>, k: nat, v: nat, start: nat) returns (s': Scene)
    requires Played(s, ops) && CanGo(s, 0) && HasSeen(s.ths[0], v) && s.ths[0].op.k == k && v != 0
    requires s.b.snap.marks == [INSRT, INVLD, INVLD] && s.b.key[0] == k && s.b.val[0] == v && Without(s, k, start)
    ensures Played(s', ops) && Without(s', k, start) && 0 in s'.ths
    ensures var th := s'.ths[0];
            th.op == s.ths[0].op && th.start == s.ths[0].start && th.pc == Done(if th.op.Put? then 0 else v)
  {
    hide Played, Present, Without;
    var g := s.ths[0];
    NotPresent(s.b, k);
    s' := Acts(s, ops, 0, k, start);
    assert s'.b == s.b && s'.ths[0] == g.(pc := SearchChk(0, v));
    s' := Acts(s', ops, 0, k, start);
  }

  /** A put of k1 commits, thread 0 reads its value and its mark, k1 is removed, and the slot is taken over by a put of
      k2 with the same value. */
  lemma TwoKeysOneValue(op: Op, k1: nat, k2: nat, v: nat) returns (s: Scene)
    requires k1 != k2 && v != 0 && (op == Get(k2) || (op.Put? && op.k == k2 && op.v != 0))
    ensures Played(s, {Put(k1, v), Put(k2, v), op}) && 0 in s.ths && Without(s, k2, s.ths[0].start)
    ensures s.ths[0].op == op && s.ths[0].pc == Done(if op.Put? then 0 else v)
  {
    hide Played, Present, Without;
    var ops := {Put(k1, v), Put(k2, v), op};
    s := Opening(ops);
    NotPresent(s.b, k2);
    s := Begins(s, ops, 0, op, k2, 0);
    var start := s.ths[0].start;
    if op.Put? { s := Acts(s, ops, 0, k2, start); }
    assert s.b == EMPTY && s.ths[0].pc == SearchVal(0) && s.ths[0].op == op && s.ths[0].start == start;
    s := Puts(s, ops, 1, Put(k1, v), k2, start);
    NotPresent(s.b, k2);
    s := SeesTheValue(s, ops, k2, start);
    s := SeesTheMark(s, ops, k2, start);
    s := Removes(s, ops, 1, k1, v, k2, start);
    s := Begins(s, ops, 1, Put(k2, v), k2, start);
    s := WritesItsSlot(s, ops, 1, k2, start);
    s := IsMisled(s, ops, k2, v, start);
  }

  /** Key k2 has been put with v and removed; a search reads the value that is left; a put of k1 commits in the slot,
      the search reads the mark; k1 is removed, and k2 is put with v again. */
  lemma OneKeyOneValue(k1: nat, k2: nat, v: nat, w: nat) returns (s: Scene)
    requires k1 != k2 && v != 0 && w != 0
    ensures Played(s, {Put(k2, v), Put(k1, w)}) && 0 in s.ths && Without(s, k2, s.ths[0].start)
    ensures s.ths[0].op == Get(k2) && s.ths[0].pc == Done(v)
  {
    hide Played, Present, Without;
    var ops := {Put(k2, v), Put(k1, w)};
    s := Opening(ops);
    s := Puts(s, ops, 1, Put(k2, v), k2, 0);
    s := Removes(s, ops, 1, k2, v, k2, 0);
    NotPresent(s.b, k2);
    s := Begins(s, ops, 0, Get(k2), k2, 0);
    var start := s.ths[0].start;
    s := SeesTheValue(s, ops, k2, start);
    s := Puts(s, ops, 1, Put(k1, w), k2, start);
    NotPresent(s.b, k2);
    s := SeesTheMark(s, ops, k2, start);
    s := Removes(s, ops, 1, k1, w, k2, start);
    s := Begins(s, ops, 1, Put(k2, v), k2, start);
    s := WritesItsSlot(s, ops, 1, k2, start);
    s := IsMisled(s, ops, k2, v, start);
  }

  lemma AbsentMeansUnseen(hist: seq<Bucket>, k: nat, v: nat, start: nat)
    requires AbsentSince(hist, k, start)
    ensures !SeenBound(hist, start, k, v) && !SeenPresent(hist, start, k)
  {
    forall j | start <= j < |hist| ensures !Bound(hist[j], k, v) { assert !Present(hist[j], k); }
  }

  /** For any two keys and any value there is a run whose puts are (k1, v) and (k2, v), in which a get of k2 returns v
      although k2 has not been bound since the get began. */
  lemma EqualValuesMisleadGet(k1: nat, k2: nat, v: nat) returns (r: seq<State>)
    requires k1 != k2 && v != 0
    ensures Run(r) && OnlyPuts(r, {Put(k1, v), Put(k2, v)})
    ensures var st := r[|r| - 1];
            && 0 in st.threads && st.threads[0].op == Get(k2) && st.threads[0].pc == Done(v)
            && !SeenPresent(st.hist, st.threads[0].start, k2) && !SeenBound(st.hist, st.threads[0].start, k2, v)
  {
    var s := TwoKeysOneValue(Get(k2), k1, k2, v);
    r := s.r;
    AbsentMeansUnseen(r[|r| - 1].hist, k2, v, s.ths[0].start);
  }

  /** In such a run a put of k2, whatever its own value w, returns false although k2 has not been present since the put
      began. */
  lemma EqualValuesMisleadPut(k1: nat, k2: nat, v: nat, w: nat) returns (r: seq<State>)
    requires k1 != k2 && v != 0 && w != 0
    ensures Run(r) && OnlyPuts(r, {Put(k1, v), Put(k2, v), Put(k2, w)})
    ensures var st := r[|r| - 1];
            && 0 in st.threads && st.threads[0].op == Put(k2, w) && st.threads[0].pc == Done(0)
            && !SeenPresent(st.hist, st.threads[0].start, k2)
  {
    var s := TwoKeysOneValue(Put(k2, w), k1, k2, v);
    r := s.r;
    AbsentMeansUnseen(r[|r| - 1].hist, k2, v, s.ths[0].start);
  }

  /** Equal values under one key mislead as well: between the two puts of (k2, v) there is one of another key, with any
      value. */
  lemma SameKeyMisleadsGet(k1: nat, k2: nat, v: nat, w: nat) returns (r: seq<State>)
    requires k1 != k2 && v != 0 && w != 0
    ensures Run(r) && OnlyPuts(r, {Put(k2, v), Put(k1, w)})
    ensures var st := r[|r| - 1];
            && 0 in st.threads && st.threads[0].op == Get(k2) && st.threads[0].pc == Done(v)
            && !SeenPresent(st.hist, st.threads[0].start, k2) && !SeenBound(st.hist, st.threads[0].start, k2, v)
  {
    var s := OneKeyOneValue(k1, k2, v, w);
    r := s.r;
    AbsentMeansUnseen(r[|r| - 1].hist, k2, v, s.ths[0].start);
  }
}
