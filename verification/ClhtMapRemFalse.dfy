/** When a put into the bucket with removal by tagging returns false: its key has been present at a moment since it
    began, provided that no value is stored twice; and a run that shows why this is needed. */
module ClhtMapRemFalse {
  import opened History
  import opened ClhtMapRem
  import opened ClhtMapRemScenes

  /** A put stores its value. */
  ghost predicate Stores(st: State, st': State, v: nat)
  {
    exists u :: StoringAt(st, u, v) && st' == StepThread(st, u)
  }

  predicate StoringAt(st: State, u: nat, v: nat)
  {
    && Shape(st.b) && u in st.threads && ThreadShape(st.threads[u])
    && st.threads[u].pc == StoreVal && st.threads[u].op.v == v
  }

  /** No two puts of the run store v. */
  ghost predicate StoredOnce(r: seq<State>, v: nat)
  {
    forall s: nat, s': nat :: s < s' && s' + 1 < |r| && Stores(r[s], r[s + 1], v) ==> !Stores(r[s'], r[s' + 1], v)
  }

  ghost predicate StoredBefore(r: seq<State>, i: nat, v: nat)
  {
    exists s: nat :: s < i && s + 1 < |r| && Stores(r[s], r[s + 1], v)
  }

  function Val(st: State, m: int): nat { if 0 <= m < |st.b.val| then st.b.val[m] else 0 }

  function KeyAt(st: State, m: int): nat { if 0 <= m < |st.b.key| then st.b.key[m] else 0 }

  // ------------------------------------------------------------------ values come from puts

  lemma ValStep(r: seq<State>, i: nat, m: nat)
    requires Run(r) && i + 1 < |r| && Val(r[i + 1], m) != Val(r[i], m)
    ensures Stores(r[i], r[i + 1], Val(r[i + 1], m))
  {
    hide StateOk;
    var st, st' := r[i], r[i + 1];
    assert Next(st, st');
    hide Run;
    if t, op :| Invoke(st, t, op, st') {
    } else {
      var t :| CanStep(st, t) && st' == StepThread(st, t);
      StoreSets(st, t, m);
    }
  }

  lemma StoreSets(st: State, t: nat, m: nat)
    requires CanStep(st, t) && Val(StepThread(st, t), m) != Val(st, m)
    ensures StoringAt(st, t, Val(StepThread(st, t), m))
  {
  }

  lemma StoredLater(r: seq<State>, i: nat, v: nat)
    requires StoredBefore(r, i, v)
    ensures StoredBefore(r, i + 1, v)
  {
    hide Stores;
  }

  lemma NoValueYet(r: seq<State>, m: nat)
    requires Run(r)
    ensures Val(r[0], m) == 0
  {
    hide Next;
  }

  lemma {:induction false} ValueWasStored(r: seq<State>, i: nat, m: nat)
    requires Run(r) && i < |r| && Val(r[i], m) != 0
    ensures StoredBefore(r, i, Val(r[i], m))
  {
    hide Run, Val, Stores;
    if i == 0 {
      NoValueYet(r, m);
    } else {
      if Val(r[i], m) == Val(r[i - 1], m) {
        ValueWasStored(r, i - 1, m);
        StoredLater(r, i - 1, Val(r[i], m));
      } else {
        ValStep(r, i - 1, m);
      }
    }
  }

  /** A slot whose value has come (back) to v has been stored into. */
  lemma {:induction false} ComesBack(r: seq<State>, m: nat, v: nat, a: nat, b: nat) returns (s: nat)
    requires Run(r) && a <= b < |r| && Val(r[a], m) != v && Val(r[b], m) == v
    ensures a <= s < b && Stores(r[s], r[s + 1], v)
    decreases b
  {
    hide Run, Val, Stores;
    s := b - 1;
    if Val(r[b - 1], m) == v {
      s := ComesBack(r, m, v, a, b - 1);
    } else {
      ValStep(r, b - 1, m);
    }
  }

  /** From one moment with the value to another, the slot has it all the time, and nobody stores it. */
  lemma ValueStays(r: seq<State>, m: nat, v: nat, i1: nat, i: nat, i4: nat)
    requires Run(r) && i1 <= i <= i4 < |r| && v != 0 && StoredOnce(r, v) && Val(r[i1], m) == v && Val(r[i4], m) == v
    ensures Val(r[i], m) == v && (i + 1 < |r| ==> !Stores(r[i], r[i + 1], v))
  {
    hide Run, Val, Stores;
    ValueWasStored(r, i1, m);
    if Val(r[i], m) != v { var s := ComesBack(r, m, v, i, i4); }
  }

  // ------------------------------------------------------------------ the key stays with the value

  /** No put is about to store its key in slot m. */
  ghost predicate NobodyWritesKey(st: State, m: nat)
  {
    forall u :: u in st.threads && st.threads[u].pc.StoreKey? ==> st.threads[u].ei != m
  }

  lemma HeldIsWritten(r: seq<State>, i: nat, m: nat)
    requires Run(r) && i < |r| && Held(r[i].b, m)
    ensures NobodyWritesKey(r[i], m)
  {
    hide Run, Inserts, Removals, Entries, Unique;
    RunOk(r, i);
    var st := r[i];
    forall u | u in st.threads && st.threads[u].pc.StoreKey? ensures st.threads[u].ei != m {
      assert ThreadOk(st.b, st.threads[u]);
      assert OwnsSlot(st.threads[u], m) <==> st.threads[u].ei == m;
    }
  }

  /** While the value stays, the key stays. */
  lemma KeyStep(r: seq<State>, i: nat, m: nat, v: nat)
    requires Run(r) && i + 1 < |r| && m < SLOTS && NobodyWritesKey(r[i], m)
    requires Val(r[i + 1], m) == v && !Stores(r[i], r[i + 1], v)
    ensures NobodyWritesKey(r[i + 1], m) && KeyAt(r[i + 1], m) == KeyAt(r[i], m)
  {
    hide StateOk;
    var st, st' := r[i], r[i + 1];
    assert Next(st, st');
    hide Run;
    if t, op :| Invoke(st, t, op, st') {
    } else {
      var t :| CanStep(st, t) && st' == StepThread(st, t);
      KeyStepOf(st, t, m, v);
    }
  }

  lemma KeyStepOf(st: State, t: nat, m: nat, v: nat)
    requires CanStep(st, t) && m < SLOTS && NobodyWritesKey(st, m)
    requires Val(StepThread(st, t), m) == v && !StoringAt(st, t, v)
    ensures NobodyWritesKey(StepThread(st, t), m) && KeyAt(StepThread(st, t), m) == KeyAt(st, m)
  {
    var th := st.threads[t];
    if th.pc.StoreKey? { assert th.ei != m; }
  }

  lemma {:induction false} KeyStays(r: seq<State>, m: nat, v: nat, i1: nat, i2: nat, i: nat, i4: nat)
    requires Run(r) && i1 <= i2 <= i <= i4 < |r| && v != 0 && StoredOnce(r, v) && m < SLOTS
    requires Val(r[i1], m) == v && Val(r[i4], m) == v && Held(r[i2].b, m)
    ensures NobodyWritesKey(r[i], m) && KeyAt(r[i], m) == KeyAt(r[i2], m)
    decreases i
  {
    hide Run, Val, Stores, StoredOnce, NobodyWritesKey, KeyAt;
    if i == i2 {
      HeldIsWritten(r, i, m);
    } else {
      KeyStays(r, m, v, i1, i2, i - 1, i4);
      ValueStays(r, m, v, i1, i, i4);
      ValueStays(r, m, v, i1, i - 1, i4);
      KeyStep(r, i - 1, m, v);
    }
  }

  // ------------------------------------------------------------------ what a put has read

  ghost predicate Present(st: State, k: nat) { KeyHeld(st.b, k) }

  /** The reads by which a put gets to slot m: its value, that it is held, its key, and its value once more. */
  ghost predicate ReadVal(r: seq<State>, a: nat, i: nat, m: nat, v: nat, i1: nat)
  {
    a <= i1 <= i < |r| && m < SLOTS && Val(r[i1], m) == v
  }

  ghost predicate ReadMap(r: seq<State>, a: nat, i: nat, m: nat, v: nat, i1: nat, i2: nat)
  {
    ReadVal(r, a, i, m, v, i1) && i1 <= i2 <= i && Held(r[i2].b, m)
  }

  ghost predicate ReadKey(r: seq<State>, a: nat, i: nat, k: nat, m: nat, v: nat, i1: nat, i2: nat, i3: nat)
  {
    ReadMap(r, a, i, m, v, i1, i2) && i2 <= i3 <= i && KeyAt(r[i3], m) == k
  }

  ghost predicate ReadAll(r: seq<State>, a: nat, i: nat, k: nat, m: nat, v: nat, i1: nat, i2: nat, i3: nat, i4: nat)
  {
    ReadKey(r, a, i, k, m, v, i1, i2, i3) && i3 <= i4 <= i && Val(r[i4], m) == v && v != 0
  }

  ghost predicate HasFound(r: seq<State>, a: nat, i: nat, k: nat)
  {
    exists m, v, i1, i2, i3, i4 :: ReadAll(r, a, i, k, m, v, i1, i2, i3, i4)
  }

  /** What a put of k that has begun at a has read when it is at its point in state i. */
  ghost predicate HasRead(r: seq<State>, a: nat, i: nat, k: nat, pc: Pc)
  {
    match pc
    case SearchMap(m, v) => exists i1 :: ReadVal(r, a, i, m, v, i1)
    case SearchKey(m, v) => exists i1, i2 :: ReadMap(r, a, i, m, v, i1, i2)
    case SearchChk(m, v) => exists i1, i2, i3 :: ReadKey(r, a, i, k, m, v, i1, i2, i3)
    case AbortStore => HasFound(r, a, i, k)
    case Done(x) => x == 0 ==> HasFound(r, a, i, k)
    case _ => true
  }

  lemma HasReadLater(r: seq<State>, a: nat, i: nat, k: nat, pc: Pc)
    requires i + 1 < |r| && HasRead(r, a, i, k, pc)
    ensures HasRead(r, a, i + 1, k, pc)
  {
    hide Val, Held, KeyAt;
    match pc
    case SearchMap(m, v) =>
      var i1 :| ReadVal(r, a, i, m, v, i1);
      assert ReadVal(r, a, i + 1, m, v, i1);
    case SearchKey(m, v) =>
      var i1, i2 :| ReadMap(r, a, i, m, v, i1, i2);
      assert ReadMap(r, a, i + 1, m, v, i1, i2);
    case SearchChk(m, v) =>
      var i1, i2, i3 :| ReadKey(r, a, i, k, m, v, i1, i2, i3);
      assert ReadKey(r, a, i + 1, k, m, v, i1, i2, i3);
    case AbortStore => HasFoundLater(r, a, i, k);
    case Done(x) => if x == 0 { HasFoundLater(r, a, i, k); }
    case _ =>
  }

  lemma HasFoundLater(r: seq<State>, a: nat, i: nat, k: nat)
    requires i + 1 < |r| && HasFound(r, a, i, k)
    ensures HasFound(r, a, i + 1, k)
  {
    hide Val, Held, KeyAt;
    var m, v, i1, i2, i3, i4 :| ReadAll(r, a, i, k, m, v, i1, i2, i3, i4);
    assert ReadAll(r, a, i + 1, k, m, v, i1, i2, i3, i4);
  }

  /** A step of the put itself. */
  lemma PutReads(r: seq<State>, a: nat, i: nat, t: nat, k: nat)
    requires a <= i && i + 1 < |r| && CanStep(r[i], t) && r[i + 1] == StepThread(r[i], t)
    requires r[i].threads[t].op.Put? && r[i].threads[t].op.k == k && HasRead(r, a, i, k, r[i].threads[t].pc)
    ensures r[i + 1].threads[t].op == r[i].threads[t].op && HasRead(r, a, i + 1, k, r[i + 1].threads[t].pc)
  {
    var th, th' := r[i].threads[t], r[i + 1].threads[t];
    match th.pc
    case SearchVal(m) => assert ReadVal(r, a, i + 1, m, Val(r[i], m), i);
    case SearchMap(m, v) =>
      var i1 :| ReadVal(r, a, i, m, v, i1);
      if th'.pc.SearchKey? { assert ReadMap(r, a, i + 1, m, v, i1, i); }
    case SearchKey(m, v) =>
      var i1, i2 :| ReadMap(r, a, i, m, v, i1, i2);
      if th'.pc.SearchChk? { assert ReadKey(r, a, i + 1, k, m, v, i1, i2, i); }
    case SearchChk(m, v) =>
      var i1, i2, i3 :| ReadKey(r, a, i, k, m, v, i1, i2, i3);
      if th'.pc.Done? || th'.pc.AbortStore? { assert ReadAll(r, a, i + 1, k, m, v, i1, i2, i3, i); }
    case AbortStore => HasFoundLater(r, a, i, k);
    case _ =>
  }

  /** Thread t is under way from a to before b with a put of k. */
  ghost predicate UnderWay(r: seq<State>, a: nat, b: nat, t: nat, k: nat)
  {
    && a <= b < |r|
    && (forall i :: a <= i < b ==> t in r[i].threads && !r[i].threads[t].pc.Done?)
    && t in r[a].threads && r[a].threads[t].op.Put? && r[a].threads[t].op.k == k && r[a].threads[t].pc == ReadSnap
  }

  lemma {:induction false} ReadsAlong(r: seq<State>, a: nat, b: nat, t: nat, k: nat, i: nat)
    requires Run(r) && UnderWay(r, a, b, t, k) && a <= i <= b < |r|
    ensures t in r[i].threads && r[i].threads[t].op.Put? && r[i].threads[t].op.k == k
    ensures HasRead(r, a, i, k, r[i].threads[t].pc)
    decreases i
  {
    hide Run, HasRead, UnderWay;
    UnderWayAt(r, a, b, t, k, if i == a then a else i - 1);
    if a < i {
      ReadsAlong(r, a, b, t, k, i - 1);
      ReadsOne(r, a, i - 1, t, k);
    }
  }

  lemma UnderWayAt(r: seq<State>, a: nat, b: nat, t: nat, k: nat, i: nat)
    requires UnderWay(r, a, b, t, k) && a <= i <= b
    ensures b < |r| && (i < b ==> t in r[i].threads && !r[i].threads[t].pc.Done?)
    ensures t in r[a].threads && r[a].threads[t].op.Put? && r[a].threads[t].op.k == k
    ensures HasRead(r, a, a, k, r[a].threads[t].pc)
  {
  }

  lemma ReadsOne(r: seq<State>, a: nat, i: nat, t: nat, k: nat)
    requires Run(r) && a <= i && i + 1 < |r| && t in r[i].threads && !r[i].threads[t].pc.Done?
    requires r[i].threads[t].op.Put? && r[i].threads[t].op.k == k && HasRead(r, a, i, k, r[i].threads[t].pc)
    ensures t in r[i + 1].threads && r[i + 1].threads[t].op.Put? && r[i + 1].threads[t].op.k == k
    ensures HasRead(r, a, i + 1, k, r[i + 1].threads[t].pc)
  {
    hide HasRead;
    var st, st' := r[i], r[i + 1];
    assert Next(st, st');
    hide Run, Step;
    if u, op :| Invoke(st, u, op, st') {
      HasReadLater(r, a, i, k, st.threads[t].pc);
    } else {
      var u :| CanStep(st, u) && st' == StepThread(st, u);
      if u == t { PutReads(r, a, i, t, k); } else { HasReadLater(r, a, i, k, st.threads[t].pc); }
    }
  }

  /** A put that has returned false has seen a moment since it began at which its key was present, provided that no
      value is stored twice. */
  lemma FalseMeansPresent(r: seq<State>, a: nat, b: nat, t: nat, k: nat) returns (i: nat)
    requires Run(r) && UnderWay(r, a, b, t, k) && (forall v :: StoredOnce(r, v))
    requires t in r[b].threads && r[b].threads[t].pc == Done(0)
    ensures a <= i <= b && Present(r[i], k)
  {
    hide Run, Val, Held, KeyAt, StoredOnce;
    ReadsAlong(r, a, b, t, k, b);
    var m, v, i1, i2, i3, i4 :| ReadAll(r, a, b, k, m, v, i1, i2, i3, i4);
    KeyStays(r, m, v, i1, i2, i3, i4);
    i := i2;
    HeldIsPresent(r[i], m, k);
  }

  lemma HeldIsPresent(st: State, m: nat, k: nat)
    requires Held(st.b, m) && KeyAt(st, m) == k
    ensures Present(st, k)
  {
  }

  // ------------------------------------------------------------------ why no value may be stored twice

  /** Thread 0 has begun its put, and the key of the put is not there. */
  lemma WatchStarts(s: Scene, q: nat)
    requires Played(s) && Watchable(s.b, s.ths, q)
    ensures Watched(s.r, |s.r| - 1, q)
  {
    hide KeyHeld;
  }

  /** Thread 0 gets as far as reading the value v of the only entry and that the slot is held. */
  lemma ReadsOtherEntry(s: Scene, k: nat, x: nat, k1: nat, v: nat) returns (s': Scene, a: nat)
    requires Played(s) && HoldsOne(s.b, VALID, k1, v) && 0 !in s.ths && k != 0 && x != 0 && k != k1
    ensures Played(s') && s'.b == s.b && 0 in s'.ths && s'.ths == s.ths[0 := s'.ths[0]]
    ensures ThreadShape(s'.ths[0]) && s'.ths[0].op == Put(k, x) && s'.ths[0].ei == -2 && s'.ths[0].pc == SearchKey(0, v)
    ensures Watched(s'.r, a, k) && a < |s'.r| && 0 in s'.r[a].threads
    ensures s'.r[a].threads[0].op == Put(k, x) && s'.r[a].threads[0].pc == ReadSnap
  {
    hide Played, HeldSince, Watched, KeyHeld;
    OneIsOnly(s.b, VALID, k1, v);
    s', a := BeginsWatched(s, k, x);
    s' := Acts(s', 0, 0, 0);
    s' := Acts(s', 0, 0, 0);
    s' := Acts(s', 0, 0, 0);
  }

  lemma BeginsWatched(s: Scene, k: nat, x: nat) returns (s': Scene, a: nat)
    requires Played(s) && !KeyHeld(s.b, k) && 0 !in s.ths && k != 0 && x != 0
    ensures Played(s') && s'.b == s.b && 0 in s'.ths && s'.ths == s.ths[0 := s'.ths[0]]
    ensures s'.ths[0] == Thread(Put(k, x), s'.ths[0].start, -2, EMPTY.snap, ReadSnap)
    ensures Watched(s'.r, a, k) && a < |s'.r| && s'.r[a].threads == s'.ths
  {
    hide HeldSince, Watched, KeyHeld;
    s' := Begins(s, 0, Put(k, x));
    hide Run;
    a := |s'.r| - 1;
    WatchStarts(s', k);
  }

  /** For any two keys and any value: thread 0 puts k, with any value, and gets false, while k is in no slot from its
      call to its return.  The value v is stored twice, for the other key and by a put of k that does not commit. */
  lemma FalseWithoutPresence(k: nat, k1: nat, v: nat, x: nat) returns (r: seq<State>, a: nat, b: nat)
    requires k != k1 && k != 0 && k1 != 0 && v != 0 && x != 0
    ensures Run(r) && UnderWay(r, a, b, 0, k) && 0 in r[b].threads && r[b].threads[0].pc == Done(0)
    ensures forall i :: a <= i <= b ==> !Present(r[i], k)
  {
    hide Run, Played, Step, Watched, HeldSince, HoldsOne, Vacant, ThreadShape, Storing, KeyHeld;
    var s := Opening();
    s := Puts(s, 1, k1, v);
    s, a := ReadsOtherEntry(s, k, x, k1, v);
    var r0 := s.r;
    s := Removes(s, 1, k1, v);
    s := StoresItsKey(s, 1, k, v, k1);
    StoredKeyShows(s.b, s.ths[1], k, v);
    s := SeesKey(s, a, k, x, v);
    r, b := Returns(s, a, k, x, v);
    assert r[a] == r0[a];
  }

  /** Thread 0 reads its key in the slot. */
  lemma SeesKey(s: Scene, a: nat, k: nat, x: nat, v: nat) returns (s': Scene)
    requires Played(s) && HoldsOne(s.b, INSRT, k, v) && Watched(s.r, a, k) && 0 in s.ths && ThreadShape(s.ths[0])
    requires s.ths[0].op == Put(k, x) && s.ths[0].ei == -2 && s.ths[0].pc == SearchKey(0, v)
    ensures Played(s') && s'.b == s.b && s.r <= s'.r && Watched(s'.r, a, k)
    ensures s'.ths == s.ths[0 := s.ths[0].(pc := SearchChk(0, v))] && ThreadShape(s'.ths[0])
  {
    hide Played, HeldSince, Watched, KeyHeld;
    NoneIsOnly(s.b, k + 1);
    s' := Acts(s, 0, 0, 0);
  }

  /** It reads the value once more, and returns. */
  lemma Returns(s: Scene, a: nat, k: nat, x: nat, v: nat) returns (r: seq<State>, b: nat)
    requires Played(s) && HoldsOne(s.b, INSRT, k, v) && Watched(s.r, a, k) && 0 in s.ths && ThreadShape(s.ths[0])
    requires s.ths[0].op == Put(k, x) && s.ths[0].ei == -2 && s.ths[0].pc == SearchChk(0, v) && v != 0
    ensures Run(r) && s.r <= r && a < b == |r| - 1 && 0 in r[b].threads && r[b].threads[0].pc == Done(0)
    ensures forall i :: a <= i < b ==> 0 in r[i].threads && !r[i].threads[0].pc.Done?
    ensures forall i :: a <= i <= b ==> !Present(r[i], k)
  {
    NoneIsOnly(s.b, k + 1);
    hide HeldSince, KeyHeld, Run;
    var s' := ActsOnce(s, 0);
    r, b := s'.r, |s.r|;
  }

  lemma ActsOnce(s: Scene, t: nat) returns (s': Scene)
    requires Played(s) && CanGo(s, t)
    ensures Played(s') && s'.b == Step(s.b, t, s.ths[t]).b && s'.ths == s.ths[t := Step(s.b, t, s.ths[t]).th]
    ensures s.r <= s'.r && |s'.r| == |s.r| + 1
  {
    s' := Acts(s, t, 0, 0);
  }

  lemma StoredKeyShows(b: Bucket, th: Thread, k: nat, v: nat)
    requires Storing(b, th, k, v) && th.pc == Cas2
    ensures HoldsOne(b, INSRT, k, v)
  {
  }
}
