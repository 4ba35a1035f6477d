/** When a remove that works by tagging returns zero: its key has been absent at a moment, or its entry has been
    tagged by a remover of another key.  The second really happens, to an entry that is in the bucket all the time. */
module ClhtMapRemZero {
  import opened History
  import opened ClhtMapRem

  /** Slot m holds the key, and only thread t, if anybody, has tagged it. */
  predicate Findable(st: State, t: nat, k: nat, m: nat)
  {
    && Shape(st.b) && m < SLOTS && st.b.key[m] == k
    && (st.b.snap.marks[m] == VALID || (st.b.snap.marks[m] == REMOV && t in st.threads && OwnsTag(st.threads[t], m)))
  }

  /** Slot i does not hold the key, and no put is about to write it there. */
  ghost predicate OutOfPlay(st: State, i: nat, k: nat)
  {
    && Shape(st.b) && i < SLOTS && st.b.key[i] != k
    && forall u :: u in st.threads && OwnsInsert(st.threads[u]) && st.threads[u].ei == i ==> st.threads[u].op.k != k
  }

  /** Thread t, which removes k, has not passed slot m. */
  ghost predicate OnItsWay(st: State, t: nat, k: nat, m: nat)
  {
    && Shape(st.b) && m < SLOTS
    && t in st.threads && st.threads[t].op == Remove(k)
    && match st.threads[t].pc
       case RemVal(i) => i <= m
       case RemMap(i, v) => i < m || (i == m && v == st.b.val[m])
       case RemKey(i, v) => (i == m && v == st.b.val[m]) || (i < m && OutOfPlay(st, i, k))
       case RemChk(i, v) => i == m && v == st.b.val[m]
       case TagCas(i) => i == m
       case Recheck(i) => i == m
       case ReadBack(i) => i == m
       case Clear(i, _) => i == m
       case _ => false
  }

  lemma HeldFindable(st: State, t: nat, k: nat, m: nat)
    requires Findable(st, t, k, m)
    ensures Held(st.b, m) && HeldIn(st.b.snap, m)
  {
  }

  /** While the key is held, no put of it takes a slot. */
  lemma NobodyJoins(st: State, u: nat, k: nat, m: nat)
    requires StateOk(st) && CanStep(st, u) && Held(st.b, m) && st.b.key[m] == k
    ensures var th := st.threads[u]; th.pc.Cas1? && st.b.snap == th.s ==> th.op.k != k
  {
    hide Inserts, Removals, Entries, Unique;
    var th := st.threads[u];
    assert ThreadOk(st.b, th);
    assert HeldIn(st.b.snap, m);
  }

  lemma OutOfPlayStays(st: State, u: nat, i: nat, k: nat, m: nat)
    requires StateOk(st) && CanStep(st, u) && Held(st.b, m) && st.b.key[m] == k && OutOfPlay(st, i, k)
    ensures OutOfPlay(StepThread(st, u), i, k)
  {
    NobodyJoins(st, u, k, m);
    hide Inserts, Removals, Entries, Unique;
    var th := st.threads[u];
    assert ThreadOk(st.b, th);
    StepsOutOfPlay(st.b, u, th, i, k);
  }

  lemma StepsOutOfPlay(b: Bucket, u: nat, th: Thread, i: nat, k: nat)
    requires Shape(b) && ThreadShape(th) && !th.pc.Done? && i < SLOTS && b.key[i] != k
    requires OwnsInsert(th) && th.ei == i ==> th.op.k != k
    requires th.pc.Cas1? && b.snap == th.s ==> th.op.k != k
    ensures var out := Step(b, u, th);
            Shape(out.b) && out.b.key[i] != k && (OwnsInsert(out.th) && out.th.ei == i ==> out.th.op.k != k)
  {
  }

  /** What a step of a thread does to a slot that another thread can find the key in. */
  lemma SlotKept(st: State, u: nat, m: nat)
    requires StateOk(st) && CanStep(st, u) && Held(st.b, m)
    ensures var st' := StepThread(st, u);
            Shape(st'.b) && (Held(st'.b, m) ==> st'.b.key[m] == st.b.key[m] && st'.b.val[m] == st.b.val[m])
  {
    hide Inserts, Removals, Entries, Unique;
    var th := st.threads[u];
    assert ThreadOk(st.b, th);
    MarksFit(st, u);
    HeldKept(st.b, u, th, m);
    StepTouches(st.b, u, th);
  }

  lemma MarksFit(st: State, u: nat)
    requires StateOk(st) && CanStep(st, u)
    ensures MarkFits(st.b, st.threads[u])
  {
    hide Inserts, Removals, Entries, Unique, ThreadOk;
  }

  /** If the key can be found before and after a step, it is in the same slot. */
  lemma SameSlot(st: State, st': State, t: nat, k: nat, m: nat, m': nat, u: nat)
    requires StateOk(st) && CanStep(st, u) && st' == StepThread(st, u) && StateOk(st')
    requires Findable(st, t, k, m) && Findable(st', t, k, m')
    ensures m' == m
  {
    hide Inserts, Removals, Entries, ThreadOk, OwnersOk, Step;
    HeldFindable(st, t, k, m);
    HeldFindable(st', t, k, m');
    SlotKept(st, u, m);
    if Held(st'.b, m) {
      assert HeldIn(st'.b.snap, m);
    } else if m' != m {
      OneSlotChanges(st, u, m, m');
    }
  }

  /** A step that ends the life of one entry leaves the other slots alone. */
  lemma OneSlotChanges(st: State, u: nat, m: nat, m': nat)
    requires StateOk(st) && CanStep(st, u) && Held(st.b, m) && !Held(StepThread(st, u).b, m) && m' < SLOTS && m' != m
    ensures var b' := StepThread(st, u).b;
            Shape(b') && b'.key[m'] == st.b.key[m'] && (HeldIn(b'.snap, m') ==> HeldIn(st.b.snap, m'))
  {
    hide Inserts, Removals, Entries, Unique, OwnersOk;
    var th := st.threads[u];
    MarksFit(st, u);
    ThreadKnown(st, u);
    hide ThreadOk, PutKnows;
    StepTouches(st.b, u, th);
    hide Step, OwnerKnows, MarkFits;
  }

  lemma ThreadKnown(st: State, u: nat)
    requires StateOk(st) && CanStep(st, u)
    ensures ThreadOk(st.b, st.threads[u]) && OwnerKnows(st.b, st.threads[u])
  {
    hide Inserts, Removals, Entries, Unique, OwnersOk, PutKnows;
    assert ThreadOk(st.b, st.threads[u]);
  }

  lemma OwnStepOnTheWay(st: State, t: nat, k: nat, m: nat)
    requires StateOk(st) && CanStep(st, t) && Findable(st, t, k, m) && OnItsWay(st, t, k, m)
    requires Findable(StepThread(st, t), t, k, m)
    ensures OnItsWay(StepThread(st, t), t, k, m)
  {
    hide Inserts, Removals, Entries;
    var th := st.threads[t];
    HeldFindable(st, t, k, m);
    if th.pc.RemMap? && th.pc.i < m && st.b.snap.marks[th.pc.i] == VALID {
      assert HeldIn(st.b.snap, th.pc.i);
    }
    hide Unique;
    assert ThreadOk(st.b, th);
  }

  lemma OthersStepOnTheWay(st: State, u: nat, t: nat, k: nat, m: nat)
    requires StateOk(st) && CanStep(st, u) && u != t && Findable(st, t, k, m) && OnItsWay(st, t, k, m)
    requires Findable(StepThread(st, u), t, k, m)
    ensures OnItsWay(StepThread(st, u), t, k, m)
  {
    hide Inserts, Removals, Entries, Unique, StateOk, OutOfPlay, Step;
    HeldFindable(st, t, k, m);
    HeldFindable(StepThread(st, u), t, k, m);
    SlotKept(st, u, m);
    var pc := st.threads[t].pc;
    if pc.RemKey? && pc.i < m { OutOfPlayStays(st, u, pc.i, k, m); }
  }

  /** The key can be found by thread t in every state of the run from a to b. */
  ghost predicate FindableThroughout(r: seq<State>, a: nat, b: nat, t: nat, k: nat)
  {
    forall j :: a <= j <= b && j < |r| ==> CanBeFound(r[j], t, k)
  }

  ghost predicate CanBeFound(st: State, t: nat, k: nat) { exists m :: Findable(st, t, k, m) }

  lemma {:induction false} StaysOnItsWay(r: seq<State>, a: nat, b: nat, t: nat, k: nat) returns (m: nat)
    requires Run(r) && a <= b < |r| && FindableThroughout(r, a, b, t, k)
    requires t in r[a].threads && r[a].threads[t].op == Remove(k) && r[a].threads[t].pc == RemVal(0)
    ensures Findable(r[b], t, k, m) && OnItsWay(r[b], t, k, m)
  {
    hide StateOk, Findable, OnItsWay, Next;
    assert CanBeFound(r[b], t, k);
    if a == b {
      m :| Findable(r[b], t, k, m);
      AtTheStart(r[b], t, k, m);
    } else {
      m := StaysOnItsWay(r, a, b - 1, t, k);
      assert Next(r[b - 1], r[b - 1 + 1]);
      RunOk(r, b - 1);
      RunOk(r, b);
      m := StepOnTheWay(r[b - 1], r[b], t, k, m);
    }
  }

  lemma AtTheStart(st: State, t: nat, k: nat, m: nat)
    requires Findable(st, t, k, m) && t in st.threads && st.threads[t].op == Remove(k) && st.threads[t].pc == RemVal(0)
    ensures OnItsWay(st, t, k, m)
  {
  }

  lemma StepOnTheWay(st: State, st': State, t: nat, k: nat, m0: nat) returns (m: nat)
    requires StateOk(st) && StateOk(st') && Next(st, st') && CanBeFound(st', t, k)
    requires Findable(st, t, k, m0) && OnItsWay(st, t, k, m0)
    ensures Findable(st', t, k, m) && OnItsWay(st', t, k, m)
  {
    hide StateOk, Findable, OnItsWay, Step;
    m :| Findable(st', t, k, m);
    if u, op :| Invoke(st, u, op, st') {
      InvokedOnTheWay(st, u, op, st', t, k, m0, m);
    } else {
      var u :| CanStep(st, u) && st' == StepThread(st, u);
      SameSlot(st, st', t, k, m0, m, u);
      if u == t { OwnStepOnTheWay(st, t, k, m); } else { OthersStepOnTheWay(st, u, t, k, m); }
    }
  }

  lemma InvokedOnTheWay(st: State, u: nat, op: Op, st': State, t: nat, k: nat, m0: nat, m: nat)
    requires StateOk(st) && StateOk(st') && Invoke(st, u, op, st')
    requires Findable(st, t, k, m0) && OnItsWay(st, t, k, m0) && Findable(st', t, k, m)
    ensures m == m0 && OnItsWay(st', t, k, m)
  {
    hide Inserts, Removals, Entries, ThreadOk, OwnersOk;
    HeldFindable(st, t, k, m0);
    HeldFindable(st', t, k, m);
  }

  lemma NotOnItsWayAnyMore(r: seq<State>, a: nat, b: nat, t: nat, k: nat) returns (j: nat)
    requires Run(r) && a <= b < |r|
    requires t in r[a].threads && r[a].threads[t].op == Remove(k) && r[a].threads[t].pc == RemVal(0)
    requires t in r[b].threads && r[b].threads[t].pc.Done?
    ensures a <= j <= b && forall m :: !Findable(r[j], t, k, m)
  {
    hide Run;
    if FindableThroughout(r, a, b, t, k) {
      var m := StaysOnItsWay(r, a, b, t, k);
      j := a;
    } else {
      j :| a <= j <= b && j < |r| && !CanBeFound(r[j], t, k);
    }
  }

  // ------------------------------------------------------------------ who has tagged an entry

  /** Thread u has tagged slot m. */
  predicate HasTagged(st: State, u: nat, m: nat) { u in st.threads && OwnsTag(st.threads[u], m) }

  /** Every tagged slot has been tagged by somebody who is still at it. */
  ghost predicate TagsAreOwned(st: State)
  {
    Shape(st.b) && forall m: nat :: m < SLOTS && st.b.snap.marks[m] == REMOV ==> exists u :: HasTagged(st, u, m)
  }

  lemma TagsStayOwned(st: State, u: nat)
    requires StateOk(st) && TagsAreOwned(st) && CanStep(st, u)
    ensures TagsAreOwned(StepThread(st, u))
  {
    hide Inserts, Removals, Entries, Unique, OwnersOk;
    var st' := StepThread(st, u);
    var th := st.threads[u];
    assert ThreadOk(st.b, th);
    MarksFit(st, u);
    forall m: nat | m < SLOTS && st'.b.snap.marks[m] == REMOV ensures exists u' :: HasTagged(st', u', m) {
      StepTags(st.b, u, th, m);
      if st.b.snap.marks[m] == REMOV && !OwnsTag(st'.threads[u], m) {
        var u' :| HasTagged(st, u', m);
        assert HasTagged(st', u', m);
      } else {
        assert HasTagged(st', u, m);
      }
    }
  }

  /** A step tags a slot only for the stepping thread, and takes a tag off only from its own slot. */
  lemma StepTags(b: Bucket, u: nat, th: Thread, m: nat)
    requires Shape(b) && ThreadOk(b, th) && MarkFits(b, th) && !th.pc.Done? && m < SLOTS
    requires Step(b, u, th).b.snap.marks[m] == REMOV
    ensures b.snap.marks[m] == REMOV || OwnsTag(Step(b, u, th).th, m)
    ensures OwnsTag(th, m) ==> OwnsTag(Step(b, u, th).th, m)
  {
    assert OwnerKnows(b, th);
  }

  lemma TagsOutliveCalls(st: State, u: nat, op: Op, st': State)
    requires TagsAreOwned(st) && Invoke(st, u, op, st')
    ensures TagsAreOwned(st')
  {
    forall m: nat | m < SLOTS && st'.b.snap.marks[m] == REMOV ensures exists u' :: HasTagged(st', u', m) {
      var u' :| HasTagged(st, u', m);
      assert HasTagged(st', u', m);
    }
  }

  lemma {:induction false} TagsOwned(r: seq<State>, i: nat)
    requires Run(r) && i < |r|
    ensures TagsAreOwned(r[i])
  {
    if i > 0 {
      TagsOwned(r, i - 1);
      RunOk(r, i - 1);
      var st, st' := r[i - 1], r[i - 1 + 1];
      assert Next(st, st');
      hide Run, StateOk, Step, TagsAreOwned;
      if u, op :| Invoke(st, u, op, st') {
        TagsOutliveCalls(st, u, op, st');
      } else {
        var u :| CanStep(st, u) && st' == StepThread(st, u);
        TagsStayOwned(st, u);
      }
    }
  }

  // ------------------------------------------------------------------ what a zero means

  ghost predicate Absent(st: State, k: nat)
  {
    forall m :: Held(st.b, m) ==> st.b.key[m] != k
  }

  /** The entry of the key is tagged by a thread other than t. */
  ghost predicate TaggedByAnother(st: State, t: nat, k: nat)
  {
    exists m: nat, u :: Held(st.b, m) && st.b.key[m] == k && u != t && HasTagged(st, u, m)
  }

  lemma AbsentOrTagged(st: State, t: nat, k: nat)
    requires Shape(st.b) && TagsAreOwned(st) && forall m :: !Findable(st, t, k, m)
    ensures Absent(st, k) || TaggedByAnother(st, t, k)
  {
    if m :| Held(st.b, m) && st.b.key[m] == k {
      assert !Findable(st, t, k, m);
      var u :| HasTagged(st, u, m);
      assert u != t;
    }
  }

  /** A remove that has returned, in particular one that has returned zero, has seen a moment since it began at
      which its key was absent or its entry was tagged by another thread. */
  lemma ReturnMeansAbsentOrTagged(r: seq<State>, a: nat, b: nat, t: nat, k: nat)
    requires Run(r) && a <= b < |r|
    requires t in r[a].threads && r[a].threads[t].op == Remove(k) && r[a].threads[t].pc == RemVal(0)
    requires t in r[b].threads && r[b].threads[t].pc.Done?
    ensures exists j :: a <= j <= b && (Absent(r[j], k) || TaggedByAnother(r[j], t, k))
  {
    var j := NotOnItsWayAnyMore(r, a, b, t, k);
    RunOk(r, j);
    TagsOwned(r, j);
    hide Run, StateOk;
    AbsentOrTagged(r[j], t, k);
  }
}
