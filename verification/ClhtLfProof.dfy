/** Safety and linearizability of the lock-free bucket, for every run of any number of threads. */
module ClhtLfProof {
  import opened ClhtLf
  import opened History

  // ------------------------------------------------------------------ the invariant

  /** This put has marked its slot INSRT and still owns it. */
  predicate Owns(th: Thread)
  {
    th.op.Put? && th.ei >= 0 && !th.pc.Cas1? && !th.pc.Done?
  }

  /** This put has not written its value yet. */
  predicate Pending(th: Thread)
  {
    th.op.Put? && !th.pc.Done? && (th.ei < 0 || th.pc.Cas1? || th.pc.StoreVal?)
  }

  /** The value that a search has read and still compares with. */
  predicate Reads(th: Thread, v: nat)
  {
    match th.pc
    case SearchMap(_, u) => u == v
    case SearchKey(_, u) => u == v
    case SearchChk(_, u) => u == v
    case _ => false
  }

  /** No commit has happened since s was read, and every slot that was VALID in s still is. */
  predicate Stable(s: Snap, b: Bucket)
    requires |s.marks| == SLOTS && Shape(b)
  {
    && b.snap.version == s.version
    && forall m :: 0 <= m < SLOTS && s.marks[m] == VALID ==> b.snap.marks[m] == VALID
  }

  /** s is an earlier copy of the word: without a commit in between, no slot has become VALID. */
  predicate Earlier(s: Snap, b: Bucket)
    requires |s.marks| == SLOTS && Shape(b)
  {
    && s.version <= b.snap.version
    && (s.version == b.snap.version ==> forall m :: 0 <= m < SLOTS && b.snap.marks[m] == VALID ==> s.marks[m] == VALID)
  }

  ghost predicate NoKeyBefore(b: Bucket, k: nat, n: int)
  {
    forall m :: 0 <= m < n && Valid(b, m) ==> b.key[m] != k
  }

  /** The key sits in a VALID slot that the scan has not passed. */
  ghost predicate Ahead(b: Bucket, k: nat, i: nat)
  {
    exists m :: i <= m && Valid(b, m) && b.key[m] == k
  }

  /** ... in a slot beyond i, or in slot i with value v. */
  ghost predicate AheadWith(b: Bucket, k: nat, i: nat, v: nat)
  {
    Ahead(b, k, i + 1) || (Valid(b, i) && b.key[i] == k && b.val[i] == v)
  }

  /** Slot i was VALID with value v and the key it has now, at a moment since start. */
  ghost predicate SeenSlot(hist: seq<Bucket>, start: nat, i: nat, v: nat, k: nat)
  {
    exists j :: start <= j < |hist| && Valid(hist[j], i) && hist[j].val[i] == v && hist[j].key[i] == k
  }

  ghost predicate HistOk(st: State)
  {
    && |st.hist| == |st.events| + 1 && st.hist[|st.events|] == st.b
    && (forall j :: 0 <= j < |st.events| ==> Effect(st.hist[j], st.events[j], st.hist[j + 1]))
  }

  ghost predicate Used(st: State, v: nat) { v == 0 || v in st.used }

  predicate SameSlot(th: Thread, th': Thread) { Owns(th) && Owns(th') && th.ei == th'.ei }

  predicate SameValue(th: Thread, th': Thread) { th.op.Put? && th'.op.Put? && th.op.v == th'.op.v }

  /** Slots marked INSRT have one owner each. */
  ghost predicate OwnersOk(st: State)
    requires Shape(st.b)
  {
    && (forall t :: t in st.threads && Owns(st.threads[t]) ==>
        st.threads[t].ei < SLOTS && st.b.snap.marks[st.threads[t].ei] == INSRT)
    && (forall t, u :: t in st.threads && u in st.threads && SameSlot(st.threads[t], st.threads[u]) ==> t == u)
    && (forall i :: 0 <= i < SLOTS && st.b.snap.marks[i] == INSRT ==>
          exists t :: t in st.threads && Owns(st.threads[t]) && st.threads[t].ei == i)
  }

  /** A put that has not stored its value yet brings one that nobody has seen. */
  ghost predicate ValuesOk(st: State)
    requires Shape(st.b)
  {
    && (forall i :: 0 <= i < SLOTS ==> Used(st, st.b.val[i]))
    && (forall t, v :: t in st.threads && Reads(st.threads[t], v) ==> Used(st, v))
    && (forall t :: t in st.threads && st.threads[t].op.Put? ==>
        st.threads[t].op.v != 0 && st.threads[t].op.v in st.used)
    && (forall t, u :: t in st.threads && u in st.threads && SameValue(st.threads[t], st.threads[u]) ==> t == u)
    && (forall t, i :: t in st.threads && Pending(st.threads[t]) && 0 <= i < SLOTS ==>
        st.b.val[i] != st.threads[t].op.v)
    && (forall t, u :: t in st.threads && u in st.threads && Pending(st.threads[t]) ==>
        !Reads(st.threads[u], st.threads[t].op.v))
  }

  /** No putter is about to write its key into slot i. */
  ghost predicate NoKeyPending(threads: map<nat, Thread>, i: nat)
  {
    forall u :: u in threads ==> !(threads[u].pc.StoreKey? && threads[u].ei == i)
  }

  /** No putter of key k owns slot i. */
  ghost predicate NoOwnerOf(threads: map<nat, Thread>, i: nat, k: nat)
  {
    forall u :: u in threads ==> !(Owns(threads[u]) && threads[u].ei == i && threads[u].op.k == k)
  }

  /** What the owner of a slot has written there. */
  predicate OwnWrites(b: Bucket, th: Thread)
    requires Shape(b) && ThreadShape(th)
  {
    Owns(th) && !th.pc.StoreVal? ==> b.val[th.ei] == th.op.v && (!th.pc.StoreKey? ==> b.key[th.ei] == th.op.k)
  }

  /** A search that goes on to return v has seen the binding. */
  ghost predicate SearchSound(st: State, th: Thread)
    requires Shape(st.b) && ThreadShape(th)
  {
    match th.pc
    case SearchKey(i, v) =>
      st.b.val[i] == v ==> NoKeyPending(st.threads, i) && SeenSlot(st.hist, th.start, i, v, st.b.key[i])
    case SearchChk(i, v) =>
      st.b.val[i] == v ==> SeenBound(st.hist, th.start, th.op.k, v)
    case _ => true
  }

  /** A get that has not met the key has it still ahead, or has seen it absent. */
  ghost predicate GetComplete(st: State, th: Thread)
    requires Shape(st.b) && ThreadShape(th)
  {
    th.op.Get? ==>
      (SeenAbsent(st.hist, th.start, th.op.k) ||
       match th.pc
       case SearchVal(i) => Ahead(st.b, th.op.k, i)
       case SearchMap(i, v) => AheadWith(st.b, th.op.k, i, v)
       case SearchKey(i, v) =>
         || (Valid(st.b, i) && st.b.key[i] == th.op.k && st.b.val[i] == v)
         || (Ahead(st.b, th.op.k, i + 1) && st.b.key[i] != th.op.k && NoOwnerOf(st.threads, i, th.op.k))
       case SearchChk(i, v) => Valid(st.b, i) && st.b.key[i] == th.op.k && st.b.val[i] == v
       case _ => true)
  }

  /** A put whose copy of the word is still stable knows that its key is not VALID in the slots
      scanned so far, and a failed comparison means that the copy is stale. */
  ghost predicate PutComplete(b: Bucket, th: Thread)
    requires Shape(b) && ThreadShape(th)
  {
    th.op.Put? && !th.pc.ReadSnap? && !th.pc.Done? && !th.pc.AbortStore? ==>
      && Earlier(th.s, b)
      && (Stable(th.s, b) ==>
            match th.pc
            case SearchVal(i) => NoKeyBefore(b, th.op.k, i)
            case SearchMap(i, v) => NoKeyBefore(b, th.op.k, i) && (Valid(b, i) ==> b.val[i] == v)
            case SearchKey(i, v) => NoKeyBefore(b, th.op.k, i) && th.s.marks[i] == VALID && b.val[i] == v
            case SearchChk(i, v) => th.s.marks[i] == VALID && b.val[i] == v
            case _ => NoKeyBefore(b, th.op.k, SLOTS))
      && (th.pc.Cas1? ==> th.s.marks[th.ei] == INVLD)
      && (Owns(th) ==> th.s.marks[th.ei] == INSRT)
  }

  /** A remove that has not met the key has it still ahead, VALID in its copy, or has seen it absent;
      what it has read of a matching slot is current as long as its copy is stable. */
  ghost predicate RemoveComplete(st: State, th: Thread)
    requires Shape(st.b) && ThreadShape(th)
  {
    th.op.Remove? && !th.pc.ReadSnap? && !th.pc.Done? ==>
      && Earlier(th.s, st.b)
      && match th.pc
         case RemKey(i) =>
           || SeenAbsent(st.hist, th.start, th.op.k)
           || exists m :: i <= m && Valid(st.b, m) && st.b.key[m] == th.op.k && th.s.marks[m] == VALID
         case RemVal(i) =>
           th.s.marks[i] == VALID && (Stable(th.s, st.b) ==> st.b.key[i] == th.op.k)
         case RemCas(i, r) =>
           th.s.marks[i] == VALID && (Stable(th.s, st.b) ==> st.b.key[i] == th.op.k && st.b.val[i] == r)
         case _ => true
  }

  ghost predicate Outcome(st: State, t: nat, th: Thread)
  {
    if th.pc.Done? then Explained(st.hist, st.events, t, th, st.distinct)
    else
      && NoEventSince(st.events, th.start, t)
      && (th.pc.AbortStore? && st.distinct ==> SeenPresent(st.hist, th.start, th.op.k))
  }

  ghost predicate ThreadOk(st: State, t: nat, th: Thread)
    requires Shape(st.b)
  {
    && ThreadShape(th) && th.start <= |st.events| && (th.op.Put? ==> th.op.v != 0)
    && OwnWrites(st.b, th) && (st.distinct ==> SearchSound(st, th)) && GetComplete(st, th)
    && PutComplete(st.b, th) && RemoveComplete(st, th) && Outcome(st, t, th)
  }

  ghost predicate Inv(st: State)
  {
    && Sound(st.b) && HistOk(st) && OwnersOk(st) && (st.distinct ==> ValuesOk(st))
    && forall t :: t in st.threads ==> ThreadOk(st, t, st.threads[t])
  }

  // ------------------------------------------------------------------ initial state and invocations

  lemma InitOk()
    ensures Inv(Init())
  {}

  lemma InvokeOk(st: State, t: nat, op: Op, st': State)
    requires Inv(st) && Invoke(st, t, op, st')
    ensures Inv(st')
  {
    InvokeOwners(st, t, op, st');
    if st'.distinct { InvokeValues(st, t, op, st'); }
    forall u | u in st'.threads ensures ThreadOk(st', u, st'.threads[u]) {
      if u != t { InvokeOthers(st, t, op, st', u); } else { NewThreadOk(st, t, op, st'); }
    }
  }

  lemma InvokeOwners(st: State, t: nat, op: Op, st': State)
    requires Inv(st) && Invoke(st, t, op, st')
    ensures OwnersOk(st')
  {
    forall i | 0 <= i < SLOTS && st'.b.snap.marks[i] == INSRT
      ensures exists u :: u in st'.threads && Owns(st'.threads[u]) && st'.threads[u].ei == i
    {
      var u :| u in st.threads && Owns(st.threads[u]) && st.threads[u].ei == i;
      assert st'.threads[u] == st.threads[u];
    }
  }

  lemma InvokeValues(st: State, t: nat, op: Op, st': State)
    requires Inv(st) && Invoke(st, t, op, st') && st'.distinct
    ensures ValuesOk(st')
  {
    hide ThreadOk, OwnersOk, HistOk;
    assert forall v: nat :: !Reads(st'.threads[t], v);
    assert forall v: nat :: Used(st, v) ==> Used(st', v);
    forall u | u in st'.threads ensures u == t || (u in st.threads && st'.threads[u] == st.threads[u]) {}
    forall u, v: nat | u in st'.threads && Reads(st'.threads[u], v) ensures Used(st', v) {
      if u != t { assert Reads(st.threads[u], v); }
    }
    forall x, y | x in st'.threads && y in st'.threads && SameValue(st'.threads[x], st'.threads[y]) ensures x == y {
      if x != t && y != t { assert SameValue(st.threads[x], st.threads[y]); }
    }
    forall x, i | x in st'.threads && Pending(st'.threads[x]) && 0 <= i < SLOTS
      ensures st'.b.val[i] != st'.threads[x].op.v
    {
      assert Used(st, st.b.val[i]);
    }
    forall x, y | x in st'.threads && y in st'.threads && Pending(st'.threads[x])
      ensures !Reads(st'.threads[y], st'.threads[x].op.v)
    {
      if x != t && y != t { assert !Reads(st.threads[y], st.threads[x].op.v); }
      if x == t && y != t { assert !Used(st, op.v); }
    }
  }

  lemma InvokeOthers(st: State, t: nat, op: Op, st': State, u: nat)
    requires Inv(st) && Invoke(st, t, op, st') && u in st.threads && u != t
    ensures ThreadOk(st', u, st'.threads[u])
  {
    assert ThreadOk(st, u, st.threads[u]);
  }

  lemma NewThreadOk(st: State, t: nat, op: Op, st': State)
    requires Inv(st) && Invoke(st, t, op, st')
    ensures ThreadOk(st', t, st'.threads[t])
  {
    NewGetComplete(st', st'.threads[t]);
  }

  lemma NewGetComplete(st: State, th: Thread)
    requires Sound(st.b) && HistOk(st) && ThreadShape(th) && th.start == |st.events|
    requires th.op.Get? ==> th.pc == SearchVal(0)
    ensures GetComplete(st, th)
  {
    if !Ahead(st.b, th.op.k, 0) {
      assert !Present(st.hist[th.start], th.op.k);
    }
  }

  // ------------------------------------------------------------------ histories only grow

  lemma HistGrows(hist: seq<Bucket>, b': Bucket, start: nat, k: nat)
    ensures SeenAbsent(hist, start, k) ==> SeenAbsent(hist + [b'], start, k)
    ensures SeenPresent(hist, start, k) ==> SeenPresent(hist + [b'], start, k)
    ensures forall v: nat :: SeenBound(hist, start, k, v) ==> SeenBound(hist + [b'], start, k, v)
    ensures forall i: nat, v: nat, k': nat :: SeenSlot(hist, start, i, v, k') ==> SeenSlot(hist + [b'], start, i, v, k')
    ensures start <= |hist| && !Present(b', k) ==> SeenAbsent(hist + [b'], start, k)
  {
    var hist' := hist + [b'];
    if SeenAbsent(hist, start, k) {
      var j :| start <= j < |hist| && !Present(hist[j], k);
      assert !Present(hist'[j], k);
    }
    if SeenPresent(hist, start, k) {
      var j :| start <= j < |hist| && Present(hist[j], k);
      assert Present(hist'[j], k);
    }
    forall v: nat | SeenBound(hist, start, k, v) ensures SeenBound(hist', start, k, v) {
      var j :| start <= j < |hist| && Bound(hist[j], k, v);
      assert Bound(hist'[j], k, v);
    }
    forall i: nat, v: nat, k': nat | SeenSlot(hist, start, i, v, k') ensures SeenSlot(hist', start, i, v, k') {
      var j :| start <= j < |hist| && Valid(hist[j], i) && hist[j].val[i] == v && hist[j].key[i] == k';
      assert Valid(hist'[j], i);
    }
    if start <= |hist| && !Present(b', k) { assert !Present(hist'[|hist|], k); }
  }

  lemma SinceGrows(events: seq<Event>, e: Event, start: nat, t: nat)
    ensures NoEventSince(events, start, t) && !By(e, t) ==> NoEventSince(events + [e], start, t)
    ensures forall e' :: OneEventSince(events, start, t, e') && !By(e, t) ==> OneEventSince(events + [e], start, t, e')
    ensures NoEventSince(events, start, t) && start <= |events| ==> OneEventSince(events + [e], start, t, e)
  {
    var events' := events + [e];
    forall e' | OneEventSince(events, start, t, e') && !By(e, t) ensures OneEventSince(events', start, t, e') {
      var j :| start <= j < |events| && events[j] == e' && forall j' :: start <= j' < |events| && j' != j ==>
          !By(events[j'], t);
      assert events'[j] == e';
    }
    if NoEventSince(events, start, t) && start <= |events| { assert events'[|events|] == e; }
  }

  // ------------------------------------------------------------------ steps

  ghost predicate CanStep(st: State, t: nat)
  {
    Shape(st.b) && t in st.threads && ThreadShape(st.threads[t]) && !st.threads[t].pc.Done?
  }

  /** Once stale, a copy of the word stays stale; an earlier copy stays an earlier copy. */
  lemma StaleStaysStale(st: State, t: nat, s: Snap)
    requires Inv(st) && CanStep(st, t) && |s.marks| == SLOTS
    ensures Earlier(s, st.b) ==> Earlier(s, StepThread(st, t).b)
    ensures Earlier(s, st.b) && Stable(s, StepThread(st, t).b) ==> Stable(s, st.b)
  {
    hide ValuesOk, HistOk, Sound, SearchSound, GetComplete, PutComplete, RemoveComplete, Outcome;
    assert ThreadOk(st, t, st.threads[t]);
  }

  /** A slot that is VALID before and after a step, without a commit, keeps its key and value. */
  lemma ValidSlotsKeep(st: State, t: nat, i: int)
    requires Inv(st) && CanStep(st, t)
    requires Valid(st.b, i)
    ensures StepThread(st, t).b.key[i] == st.b.key[i] && StepThread(st, t).b.val[i] == st.b.val[i]
  {
    assert ThreadOk(st, t, st.threads[t]);
  }

  /** A slot becomes VALID only in a commit, which changes the version. */
  lemma NewValidIsCommit(st: State, t: nat, i: int)
    requires Inv(st) && CanStep(st, t)
    requires !Valid(st.b, i) && Valid(StepThread(st, t).b, i)
    ensures StepThread(st, t).b.snap.version == st.b.snap.version + 1
  {
    assert ThreadOk(st, t, st.threads[t]);
  }

  // ------------------------------------------------------------------ what one step does to a key

  /** A VALID binding survives a step, unless the step removes the key from the bucket. */
  lemma BindingStays(st: State, t: nat, m: nat)
    requires Inv(st) && CanStep(st, t) && Valid(st.b, m)
    ensures var b' := StepThread(st, t).b;
            (Valid(b', m) && b'.key[m] == st.b.key[m] && b'.val[m] == st.b.val[m]) || !Present(b', st.b.key[m])
  {
    assert ThreadOk(st, t, st.threads[t]);
  }

  /** A put marks a slot INSRT only while its key is in no VALID slot. */
  lemma ClaimMeansAbsent(st: State, t: nat)
    requires Inv(st) && CanStep(st, t) && !Owns(st.threads[t]) && Owns(StepThread(st, t).threads[t])
    ensures !Present(StepThread(st, t).b, st.threads[t].op.k)
  {
    assert ThreadOk(st, t, st.threads[t]);
  }

  /** Ownership is gained only by marking, and the key of an owner never changes. */
  lemma NoOwnerStays(st: State, t: nat, i: nat, k: nat)
    requires Inv(st) && CanStep(st, t) && NoOwnerOf(st.threads, i, k)
    ensures NoOwnerOf(StepThread(st, t).threads, i, k) || !Present(StepThread(st, t).b, k)
  {
    var st' := StepThread(st, t);
    assert ThreadOk(st, t, st.threads[t]);
    if !Owns(st.threads[t]) && Owns(st'.threads[t]) { ClaimMeansAbsent(st, t); }
    assert Owns(st.threads[t]) && Owns(st'.threads[t]) ==> st'.threads[t].ei == st.threads[t].ei;
    assert st'.threads[t].op == st.threads[t].op;
  }

  lemma KeyStaysDifferent(st: State, t: nat, i: nat, k: nat)
    requires Inv(st) && CanStep(st, t) && i < SLOTS && NoOwnerOf(st.threads, i, k) && st.b.key[i] != k
    ensures StepThread(st, t).b.key[i] != k
  {
    assert ThreadOk(st, t, st.threads[t]);
  }

  /** Only a putter writes, and only into its own slot: first its value, then its key. */
  lemma SlotWrites(b: Bucket, t: nat, th: Thread, i: nat)
    requires Shape(b) && ThreadShape(th) && !th.pc.Done? && i < SLOTS
    ensures var o := Step(b, t, th);
            && Shape(o.b)
            && (o.b.val[i] == b.val[i] || (Pending(th) && o.b.val[i] == th.op.v))
            && (o.b.key[i] == b.key[i] || (th.pc.StoreKey? && th.ei == i))
            && (o.th.pc.StoreKey? ==> th.pc.StoreVal? && o.th.ei == th.ei && o.b.val[o.th.ei] == th.op.v && Pending(th))
  {}

  /** A value that is gone from a slot does not come back while someone still compares with it, and
      a slot whose value stays gets no new key unless one was already on its way. */
  lemma ComparedSlot(st: State, t: nat, u: nat, i: nat, v: nat)
    requires Inv(st) && st.distinct && CanStep(st, t) && u in st.threads && Reads(st.threads[u], v) && i < SLOTS
    ensures var st' := StepThread(st, t);
            st'.b.val[i] == v ==>
              && st.b.val[i] == v
              && (NoKeyPending(st.threads, i) ==> NoKeyPending(st'.threads, i) && st'.b.key[i] == st.b.key[i])
  {
    hide Step, ThreadOk, OwnersOk, HistOk;
    var st' := StepThread(st, t);
    SlotWrites(st.b, t, st.threads[t], i);
    assert Pending(st.threads[t]) ==> !Reads(st.threads[u], st.threads[t].op.v);
    if st'.b.val[i] == v && NoKeyPending(st.threads, i) {
      assert !(st.threads[t].pc.StoreKey? && st.threads[t].ei == i);
      forall x | x in st'.threads ensures !(st'.threads[x].pc.StoreKey? && st'.threads[x].ei == i) {
        if x != t { assert st'.threads[x] == st.threads[x]; }
      }
    }
  }

  // ------------------------------------------------------------------ the other threads

  lemma OthersWrites(st: State, t: nat, u: nat)
    requires Inv(st) && CanStep(st, t) && u in st.threads && u != t
    ensures OwnWrites(StepThread(st, t).b, st.threads[u])
  {
    assert ThreadOk(st, t, st.threads[t]) && ThreadOk(st, u, st.threads[u]);
    assert !SameSlot(st.threads[t], st.threads[u]);
  }

  lemma OthersSearch(st: State, t: nat, u: nat)
    requires Inv(st) && st.distinct && CanStep(st, t) && u in st.threads && u != t
    ensures SearchSound(StepThread(st, t), st.threads[u])
  {
    var st' := StepThread(st, t);
    var tu := st.threads[u];
    assert ThreadOk(st, u, tu);
    HistGrows(st.hist, st'.b, tu.start, tu.op.k);
    match tu.pc {
      case SearchKey(i, v) => ComparedSlot(st, t, u, i, v);
      case SearchChk(i, v) => ComparedSlot(st, t, u, i, v);
      case _ =>
    }
  }

  /** A key that lies ahead of a scan stays ahead or is seen absent. */
  lemma AheadStays(st: State, t: nat, u: nat, i: nat)
    requires Inv(st) && CanStep(st, t) && u in st.threads && Ahead(st.b, st.threads[u].op.k, i)
    ensures var st', tu := StepThread(st, t), st.threads[u];
            Ahead(st'.b, tu.op.k, i) || SeenAbsent(st'.hist, tu.start, tu.op.k)
  {
    var st', tu := StepThread(st, t), st.threads[u];
    assert ThreadOk(st, u, tu);
    var m :| i <= m && Valid(st.b, m) && st.b.key[m] == tu.op.k;
    BindingStays(st, t, m);
    HistGrows(st.hist, st'.b, tu.start, tu.op.k);
  }

  lemma OthersGet(st: State, t: nat, u: nat)
    requires Inv(st) && CanStep(st, t) && u in st.threads && u != t
    ensures GetComplete(StepThread(st, t), st.threads[u])
  {
    hide Step;
    var st' := StepThread(st, t);
    var tu := st.threads[u];
    var k := tu.op.k;
    assert ThreadOk(st, u, tu);
    HistGrows(st.hist, st'.b, tu.start, k);
    if tu.op.Get? && !SeenAbsent(st.hist, tu.start, k) && Present(st'.b, k) {
      match tu.pc {
        case SearchVal(i) => AheadStays(st, t, u, i);
        case SearchMap(i, v) =>
          if Ahead(st.b, k, i + 1) { AheadStays(st, t, u, i + 1); } else { BindingStays(st, t, i); }
        case SearchKey(i, v) =>
          if Valid(st.b, i) && st.b.key[i] == k && st.b.val[i] == v {
            BindingStays(st, t, i);
          } else {
            AheadStays(st, t, u, i + 1);
            NoOwnerStays(st, t, i, k);
            KeyStaysDifferent(st, t, i, k);
          }
        case SearchChk(i, v) => BindingStays(st, t, i);
        case _ =>
      }
    }
  }

  lemma OthersPut(st: State, t: nat, u: nat)
    requires Inv(st) && CanStep(st, t) && u in st.threads && u != t
    ensures PutComplete(StepThread(st, t).b, st.threads[u])
  {
    hide Step;
    var st' := StepThread(st, t);
    var tu := st.threads[u];
    assert ThreadOk(st, u, tu) && ThreadOk(st, t, st.threads[t]);
    StaleStaysStale(st, t, tu.s);
    forall m: nat | Valid(st'.b, m)
      ensures (Valid(st.b, m) && st'.b.key[m] == st.b.key[m] && st'.b.val[m] == st.b.val[m])
           || st'.b.snap.version == st.b.snap.version + 1
    {
      if Valid(st.b, m) { ValidSlotsKeep(st, t, m); } else { NewValidIsCommit(st, t, m); }
    }
    StepShape(st.b, t, st.threads[t]);
    forall m: nat | Valid(st.b, m) ensures st'.b.key[m] == st.b.key[m] && st'.b.val[m] == st.b.val[m] {
      ValidSlotsKeep(st, t, m);
    }
  }

  lemma OthersRemove(st: State, t: nat, u: nat)
    requires Inv(st) && CanStep(st, t) && u in st.threads && u != t
    ensures RemoveComplete(StepThread(st, t), st.threads[u])
  {
    var st' := StepThread(st, t);
    var tu := st.threads[u];
    assert ThreadOk(st, u, tu);
    StaleStaysStale(st, t, tu.s);
    HistGrows(st.hist, st'.b, tu.start, tu.op.k);
    if tu.pc.RemKey? && tu.op.Remove? && !SeenAbsent(st.hist, tu.start, tu.op.k) {
      var m :| tu.pc.i <= m && Valid(st.b, m) && st.b.key[m] == tu.op.k && tu.s.marks[m] == VALID;
      BindingStays(st, t, m);
    } else if tu.pc.RemVal? || tu.pc.RemCas? {
      if Valid(st.b, tu.pc.i) { ValidSlotsKeep(st, t, tu.pc.i); }
    }
  }

  lemma OthersOutcome(st: State, t: nat, u: nat)
    requires Inv(st) && CanStep(st, t) && u in st.threads && u != t
    ensures Outcome(StepThread(st, t), u, st.threads[u])
  {
    var st' := StepThread(st, t);
    var tu := st.threads[u];
    assert ThreadOk(st, u, tu);
    HistGrows(st.hist, st'.b, tu.start, tu.op.k);
    SinceGrows(st.events, st'.events[|st.events|], tu.start, u);
  }

  // ------------------------------------------------------------------ the thread that steps

  lemma StepShape(b: Bucket, t: nat, th: Thread)
    requires Shape(b) && ThreadShape(th) && !th.pc.Done?
    ensures var o := Step(b, t, th);
            Shape(o.b) && ThreadShape(o.th) && o.th.op == th.op && o.th.start == th.start
  {}

  lemma StepWrites(b: Bucket, t: nat, th: Thread)
    requires Shape(b) && ThreadShape(th) && !th.pc.Done? && OwnWrites(b, th)
    ensures var o := Step(b, t, th); Shape(o.b) && ThreadShape(o.th) && OwnWrites(o.b, o.th)
  {
    StepShape(b, t, th);
  }

  /** The scan of a put, on the bucket and the thread alone. */
  lemma PutScan(b: Bucket, t: nat, th: Thread)
    requires Sound(b) && ThreadShape(th) && th.op.Put? && PutComplete(b, th)
    requires th.pc.SearchVal? || th.pc.SearchMap?
    ensures var o := Step(b, t, th); Shape(o.b) && ThreadShape(o.th) && PutComplete(o.b, o.th)
  {
    StepShape(b, t, th);
  }

  lemma PutScanOn(b: Bucket, t: nat, th: Thread)
    requires Sound(b) && ThreadShape(th) && th.op.Put? && PutComplete(b, th)
    requires th.pc.SearchKey? || th.pc.SearchChk?
    ensures var o := Step(b, t, th); Shape(o.b) && ThreadShape(o.th) && PutComplete(o.b, o.th)
  {
    StepShape(b, t, th);
  }

  lemma PutWrites(b: Bucket, t: nat, th: Thread)
    requires Sound(b) && ThreadShape(th) && th.op.Put? && PutComplete(b, th)
    requires th.pc.ReadSnap? || th.pc.AbortStore? || th.pc.Cas1? || th.pc.StoreVal? || th.pc.StoreKey? || th.pc.Cas2?
    requires Owns(th) ==> b.snap.marks[th.ei] == INSRT
    ensures var o := Step(b, t, th); Shape(o.b) && ThreadShape(o.th) && PutComplete(o.b, o.th)
  {
    StepShape(b, t, th);
  }

  lemma SelfPut(st: State, t: nat)
    requires Inv(st) && CanStep(st, t)
    ensures var st' := StepThread(st, t);
        Shape(st'.b) && ThreadShape(st'.threads[t]) && OwnWrites(st'.b, st'.threads[t])
    ensures PutComplete(StepThread(st, t).b, StepThread(st, t).threads[t])
  {
    hide Step, PutComplete, OwnWrites;
    var th := st.threads[t];
    assert ThreadOk(st, t, th);
    StepWrites(st.b, t, th);
    StepShape(st.b, t, th);
    if th.op.Put? {
      if th.pc.SearchVal? || th.pc.SearchMap? { PutScan(st.b, t, th); }
      else if th.pc.SearchKey? || th.pc.SearchChk? { PutScanOn(st.b, t, th); }
      else { PutWrites(st.b, t, th); }
    } else {
      NoPut(StepThread(st, t).b, StepThread(st, t).threads[t]);
    }
  }

  lemma NoPut(b: Bucket, th: Thread)
    requires Shape(b) && ThreadShape(th) && !th.op.Put?
    ensures PutComplete(b, th)
  {}

  /** What a search step does to the point of the thread; the bucket stays. */
  lemma SearchStep(b: Bucket, t: nat, th: Thread)
    requires Shape(b) && ThreadShape(th) && !th.pc.Done?
    ensures var o := Step(b, t, th);
            match o.th.pc
            case SearchVal(i) =>
              o.b == b && ((i == 0 && th.pc.ReadSnap?)
                           || (i > 0 && th.pc.SearchMap? && th.pc.i == i - 1 && !Valid(b, i - 1))
                           || (i > 0 && th.pc.SearchKey? && th.pc.i == i - 1 && b.key[i - 1] != th.op.k))
            case SearchMap(i, v) => o.b == b && th.pc == SearchVal(i) && v == b.val[i]
            case SearchKey(i, v) => o.b == b && th.pc == SearchMap(i, v) && Valid(b, i)
            case SearchChk(i, v) => o.b == b && th.pc == SearchKey(i, v) && b.key[i] == th.op.k
            case RemKey(i) =>
              o.b == b && ((i == 0 && th.pc.ReadSnap? && o.th.s == b.snap)
                           || (i > 0 && th.pc == RemKey(i - 1) && o.th.s == th.s
                               && !(b.key[i - 1] == th.op.k && th.s.marks[i - 1] == VALID)))
            case RemVal(i) => o.b == b && th.pc == RemKey(i) && o.th.s == th.s && b.key[i] == th.op.k
                && th.s.marks[i] == VALID
            case RemCas(i, r) => o.b == b && th.pc == RemVal(i) && o.th.s == th.s && r == b.val[i]
            case _ => true
  {}

  lemma SelfSearch(st: State, t: nat)
    requires Inv(st) && st.distinct && CanStep(st, t)
    ensures var st' := StepThread(st, t);
            Shape(st'.b) && ThreadShape(st'.threads[t]) && SearchSound(st', st'.threads[t])
  {
    hide Step;
    var st' := StepThread(st, t);
    var th, th' := st.threads[t], st'.threads[t];
    assert ThreadOk(st, t, th);
    StepShape(st.b, t, th);
    SearchStep(st.b, t, th);
    HistGrows(st.hist, st'.b, th.start, th.op.k);
    match th'.pc {
      case SearchKey(i, v) =>
        assert Valid(st'.hist[|st.hist|], i);
        SlotNotPending(st, t, i);
      case SearchChk(i, v) =>
        if st.b.val[i] == v { SeenSlotIsSeenBound(st.hist, th.start, i, v, th.op.k); }
      case _ =>
    }
  }

  lemma SeenSlotIsSeenBound(hist: seq<Bucket>, start: nat, i: nat, v: nat, k: nat)
    requires SeenSlot(hist, start, i, v, k)
    ensures SeenBound(hist, start, k, v)
  {
    var j :| start <= j < |hist| && Valid(hist[j], i) && hist[j].val[i] == v && hist[j].key[i] == k;
    assert Bound(hist[j], k, v);
  }

  /** A VALID slot has no owner, before and after a step that leaves the bucket as it is. */
  lemma SlotNotPending(st: State, t: nat, i: nat)
    requires Inv(st) && CanStep(st, t) && Valid(st.b, i) && StepThread(st, t).b == st.b
    requires StepThread(st, t).threads[t].pc.SearchKey?
    ensures NoKeyPending(StepThread(st, t).threads, i)
    ensures forall k :: !StepThread(st, t).threads[t].op.Put? ==> NoOwnerOf(StepThread(st, t).threads, i, k)
  {
    hide Step;
    var st' := StepThread(st, t);
    forall u | u in st'.threads ensures !(st'.threads[u].pc.StoreKey? && st'.threads[u].ei == i) {
      if u != t { assert ThreadOk(st, u, st.threads[u]); }
    }
    forall u | u in st'.threads && !st'.threads[t].op.Put? ensures !(Owns(st'.threads[u]) && st'.threads[u].ei == i) {
      if u != t { assert ThreadOk(st, u, st.threads[u]); }
    }
  }

  lemma SelfGet(st: State, t: nat)
    requires Inv(st) && CanStep(st, t)
    ensures var st' := StepThread(st, t);
            Shape(st'.b) && ThreadShape(st'.threads[t]) && GetComplete(st', st'.threads[t])
  {
    hide Step;
    var st' := StepThread(st, t);
    var th, th' := st.threads[t], st'.threads[t];
    assert ThreadOk(st, t, th);
    StepShape(st.b, t, th);
    SearchStep(st.b, t, th);
    HistGrows(st.hist, st'.b, th.start, th.op.k);
    if th'.pc.SearchKey? { SlotNotPending(st, t, th'.pc.i); }
  }

  lemma SelfRemove(st: State, t: nat)
    requires Inv(st) && CanStep(st, t)
    ensures var st' := StepThread(st, t);
            Shape(st'.b) && ThreadShape(st'.threads[t]) && RemoveComplete(st', st'.threads[t])
  {
    hide Step;
    var st' := StepThread(st, t);
    var th, th' := st.threads[t], st'.threads[t];
    assert ThreadOk(st, t, th);
    StepShape(st.b, t, th);
    SearchStep(st.b, t, th);
    HistGrows(st.hist, st'.b, th.start, th.op.k);
    if th'.pc.RemKey? && th'.pc.i == 0 && Present(st.b, th.op.k) {
      var m :| Valid(st.b, m) && st.b.key[m] == th.op.k;
    }
  }

  // ------------------------------------------------------------------ the bucket, owners and values

  /** Every step changes the abstract map as its event says. */
  lemma StepEffect(st: State, t: nat)
    requires Inv(st) && CanStep(st, t)
    ensures var o := Step(st.b, t, st.threads[t]); Effect(st.b, o.ev, o.b)
  {
    var b, th := st.b, st.threads[t];
    var o := Step(b, t, th);
    assert ThreadOk(st, t, th);
    if o.ev.Internal? {
      InternalEffect(b, t, th);
    } else if o.ev.Inserted? {
      CommitEffect(b, t, th);
    } else {
      RemoveEffect(b, t, th);
    }
  }

  lemma InternalEffect(b: Bucket, t: nat, th: Thread)
    requires Sound(b) && ThreadShape(th) && !th.pc.Done? && PutComplete(b, th) && OwnWrites(b, th)
    requires Owns(th) ==> b.snap.marks[th.ei] == INSRT
    requires Step(b, t, th).ev.Internal?
    ensures Effect(b, Internal, Step(b, t, th).b)
  {
    var b' := Step(b, t, th).b;
    assert forall i :: Valid(b', i) <==> Valid(b, i);
    assert forall i :: Valid(b, i) ==> b'.key[i] == b.key[i] && b'.val[i] == b.val[i];
    SameAbs(b, b');
  }

  lemma SameAbs(b: Bucket, b': Bucket)
    requires Sound(b) && Shape(b')
    requires forall i :: Valid(b', i) <==> Valid(b, i)
    requires forall i :: Valid(b, i) ==> b'.key[i] == b.key[i] && b'.val[i] == b.val[i]
    ensures Sound(b') && Abs(b') == Abs(b)
  {
    forall k ensures k in Abs(b) <==> k in Abs(b') {
      if k in Abs(b) {
        var i :| 0 <= i < SLOTS && Valid(b, i) && b.key[i] == k;
        assert Valid(b', i) && b'.key[i] == k;
      }
      if k in Abs(b') {
        var i :| 0 <= i < SLOTS && Valid(b', i) && b'.key[i] == k;
        assert Valid(b, i) && b.key[i] == k;
      }
    }
  }

  /** The binding of a VALID slot in the map. */
  lemma AbsAt(b: Bucket, i: nat)
    requires Sound(b) && Valid(b, i)
    ensures b.key[i] in Abs(b) && Abs(b)[b.key[i]] == b.val[i]
  {}

  lemma AbsHas(b: Bucket, k: nat)
    requires Sound(b)
    ensures k in Abs(b) <==> Present(b, k)
  {}

  /** A map that agrees with the VALID slots is the map of the bucket. */
  lemma AbsIs(b: Bucket, m: map<nat, nat>)
    requires Sound(b)
    requires forall x :: x in m ==> Present(b, x)
    requires forall i :: Valid(b, i) ==> b.key[i] in m && m[b.key[i]] == b.val[i]
    ensures Abs(b) == m
  {
    forall x ensures x in Abs(b) <==> x in m { AbsHas(b, x); }
  }

  /** One more VALID slot, with a key that was absent, adds a binding. */
  lemma AddSlot(b: Bucket, b': Bucket, e: nat)
    requires Sound(b) && Shape(b') && e < SLOTS && b'.key == b.key && b'.val == b.val && b.val[e] != 0
    requires forall i :: Valid(b', i) <==> Valid(b, i) || i == e
    requires forall i :: Valid(b, i) ==> b.key[i] != b.key[e]
    ensures Sound(b') && b.key[e] !in Abs(b) && Abs(b') == Abs(b)[b.key[e] := b.val[e]]
  {
    hide Abs;
    var m := Abs(b)[b.key[e] := b.val[e]];
    AbsHas(b, b.key[e]);
    forall x | x in m ensures Present(b', x) {
      AbsHas(b, x);
      if x != b.key[e] { var i :| Valid(b, i) && b.key[i] == x; assert Valid(b', i); } else { assert Valid(b', e); }
    }
    forall i | Valid(b', i) ensures b'.key[i] in m && m[b'.key[i]] == b'.val[i] {
      if i != e { AbsAt(b, i); }
    }
    AbsIs(b', m);
  }

  /** One VALID slot less takes its binding away. */
  lemma DropSlot(b: Bucket, b': Bucket, e: nat)
    requires Sound(b) && Shape(b') && Valid(b, e) && b'.key == b.key && b'.val == b.val
    requires forall i :: Valid(b', i) <==> Valid(b, i) && i != e
    ensures Sound(b') && b.key[e] in Abs(b) && Abs(b)[b.key[e]] == b.val[e] && Abs(b') == Abs(b) - {b.key[e]}
  {
    hide Abs;
    var m := Abs(b) - {b.key[e]};
    AbsAt(b, e);
    forall x | x in m ensures Present(b', x) {
      AbsHas(b, x);
      var i :| Valid(b, i) && b.key[i] == x;
      assert Valid(b', i);
    }
    forall i | Valid(b', i) ensures b'.key[i] in m && m[b'.key[i]] == b'.val[i] { AbsAt(b, i); }
    AbsIs(b', m);
  }

  lemma CommitEffect(b: Bucket, t: nat, th: Thread)
    requires Sound(b) && ThreadShape(th) && !th.pc.Done? && PutComplete(b, th) && OwnWrites(b, th)
    requires th.op.Put? ==> th.op.v != 0
    requires Step(b, t, th).ev.Inserted?
    ensures Effect(b, Step(b, t, th).ev, Step(b, t, th).b)
  {
    AddSlot(b, Step(b, t, th).b, th.ei);
  }

  lemma RemoveEffect(b: Bucket, t: nat, th: Thread)
    requires Sound(b) && ThreadShape(th) && !th.pc.Done?
    requires th.pc.RemCas? && b.snap == th.s && th.s.marks[th.pc.i] == VALID && b.key[th.pc.i] == th.op.k
        && b.val[th.pc.i] == th.pc.r
    ensures Effect(b, Step(b, t, th).ev, Step(b, t, th).b)
  {
    DropSlot(b, Step(b, t, th).b, th.pc.i);
  }

  /** How a step changes ownership and the INSRT marks. */
  lemma OwnStep(b: Bucket, t: nat, th: Thread)
    requires Shape(b) && ThreadShape(th) && !th.pc.Done? && PutComplete(b, th)
    requires Owns(th) ==> b.snap.marks[th.ei] == INSRT
    requires th.pc.RemCas? ==> th.s.marks[th.pc.i] == VALID
    ensures var o := Step(b, t, th);
            && Shape(o.b) && ThreadShape(o.th)
            && (Owns(th) && Owns(o.th) ==> o.th.ei == th.ei)
            && (!Owns(th) && Owns(o.th) ==> b.snap.marks[o.th.ei] == INVLD)
            && (forall i :: 0 <= i < SLOTS ==>
                  (o.b.snap.marks[i] == INSRT <==>
                     if Owns(o.th) && o.th.ei == i then true
                     else b.snap.marks[i] == INSRT && !(Owns(th) && th.ei == i)))
  {}

  lemma StepOwners(st: State, t: nat)
    requires Inv(st) && CanStep(st, t)
    ensures Shape(StepThread(st, t).b) && OwnersOk(StepThread(st, t))
  {
    hide Step, ValuesOk, HistOk, Sound;
    var st' := StepThread(st, t);
    var th, th' := st.threads[t], st'.threads[t];
    assert ThreadOk(st, t, th);
    OwnStep(st.b, t, th);
    hide ThreadOk;
    forall i | 0 <= i < SLOTS && st'.b.snap.marks[i] == INSRT
      ensures exists u :: u in st'.threads && Owns(st'.threads[u]) && st'.threads[u].ei == i
    {
      if Owns(th') && th'.ei == i {
        assert st'.threads[t] == th';
      } else {
        var u :| u in st.threads && Owns(st.threads[u]) && st.threads[u].ei == i;
        assert u != t && st'.threads[u] == st.threads[u];
      }
    }
    forall x | x in st.threads && x != t ensures !SameSlot(st.threads[x], th) {}
    forall x, y | x in st'.threads && y in st'.threads && SameSlot(st'.threads[x], st'.threads[y]) ensures x == y {
      if x != t && y != t { assert SameSlot(st.threads[x], st.threads[y]); }
    }
    forall x | x in st'.threads && Owns(st'.threads[x])
      ensures st'.threads[x].ei < SLOTS && st'.b.snap.marks[st'.threads[x].ei] == INSRT
    {
      if x != t && Owns(th) { assert !SameSlot(st.threads[x], th); }
    }
  }

  /** How a step changes what is pending and what is being compared. */
  lemma ValueStep(b: Bucket, t: nat, th: Thread)
    requires Shape(b) && ThreadShape(th) && !th.pc.Done?
    ensures var o := Step(b, t, th);
            && Shape(o.b) && o.th.op == th.op
            && (Pending(o.th) ==> Pending(th) && o.b.val == b.val)
            && (forall v: nat :: Reads(o.th, v) ==> Reads(th, v) || exists i :: 0 <= i < SLOTS && b.val[i] == v)
            && (forall i :: 0 <= i < SLOTS ==> o.b.val[i] == b.val[i] || (th.op.Put? && o.b.val[i] == th.op.v))
  {}

  lemma StepValues(st: State, t: nat)
    requires Inv(st) && st.distinct && CanStep(st, t)
    ensures Shape(StepThread(st, t).b) && ValuesOk(StepThread(st, t))
  {
    hide Step, ThreadOk, OwnersOk, HistOk;
    var st' := StepThread(st, t);
    var th, th' := st.threads[t], st'.threads[t];
    ValueStep(st.b, t, th);
    forall u, v: nat | u in st'.threads && Reads(st'.threads[u], v) ensures Used(st', v) {
      if u != t { assert Reads(st.threads[u], v); assert Used(st, v); }
      else if Reads(th, v) { assert Used(st, v); }
      else {
        var i :| 0 <= i < SLOTS && st.b.val[i] == v;
        assert Used(st, st.b.val[i]);
        assert Used(st, v);
      }
    }
    forall i | 0 <= i < SLOTS ensures Used(st', st'.b.val[i]) { assert Used(st, st.b.val[i]); }
    forall x, y | x in st'.threads && y in st'.threads && SameValue(st'.threads[x], st'.threads[y]) ensures x == y {
      assert SameValue(st.threads[x], st.threads[y]);
    }
    forall x, i | x in st'.threads && Pending(st'.threads[x]) && 0 <= i < SLOTS
      ensures st'.b.val[i] != st'.threads[x].op.v
    {
      assert Pending(st.threads[x]) && st.b.val[i] != st.threads[x].op.v;
      if x != t && th.op.Put? { assert !SameValue(st.threads[x], th); }
    }
    forall x, y | x in st'.threads && y in st'.threads && Pending(st'.threads[x])
      ensures !Reads(st'.threads[y], st'.threads[x].op.v)
    {
      assert Pending(st.threads[x]) && !Reads(st.threads[y], st.threads[x].op.v);
    }
  }

  // ------------------------------------------------------------------ responses

  /** How a step comes to a response, or to the store that gives a slot up. */
  lemma ResponseStep(b: Bucket, t: nat, th: Thread)
    requires Shape(b) && ThreadShape(th) && !th.pc.Done?
    ensures var o := Step(b, t, th);
            && (o.th.pc.AbortStore? ==> th.op.Put? && o.ev.Internal? && th.pc.SearchChk? && b.val[th.pc.i] == th.pc.v)
            && (o.th.pc.Done? ==>
                  match th.op
                  case Get(k) =>
                    && o.ev.Internal? && o.b == b
                    && (o.th.pc.result != 0 ==> th.pc.SearchChk? && th.pc.v == o.th.pc.result == b.val[th.pc.i])
                    && (o.th.pc.result == 0 ==>
                          || (th.pc.SearchMap? && th.pc.i == SLOTS - 1 && !Valid(b, th.pc.i))
                          || (th.pc.SearchKey? && th.pc.i == SLOTS - 1 && b.key[th.pc.i] != k)
                          || (th.pc.SearchChk? && (th.pc.v == 0 || b.val[th.pc.i] != th.pc.v)))
                  case Put(k, v) =>
                    || (o.th.pc.result == 0 && o.ev.Internal? && th.pc.AbortStore?)
                    || (o.th.pc.result == 0 && o.ev.Internal? && th.pc.SearchChk? && b.val[th.pc.i] == th.pc.v)
                    || (o.th.pc.result == 1 && o.ev == Inserted(t, k, v))
                  case Remove(k) =>
                    || (o.th.pc.result == 0 && o.ev.Internal? && o.b == b && th.pc == RemKey(SLOTS - 1)
                        && !(b.key[SLOTS - 1] == k && th.s.marks[SLOTS - 1] == VALID))
                    || (th.pc.RemCas? && b.snap == th.s && o.th.pc.result == th.pc.r && o.ev == Removed(t, k, th.pc.r)))
            && (!o.th.pc.Done? ==> o.ev.Internal?)
  {}

  lemma BoundIsPresent(hist: seq<Bucket>, start: nat, k: nat, v: nat)
    requires SeenBound(hist, start, k, v)
    ensures SeenPresent(hist, start, k)
  {
    var j :| start <= j < |hist| && Bound(hist[j], k, v);
    assert Present(hist[j], k);
  }

  lemma SelfOutcome(st: State, t: nat)
    requires Inv(st) && CanStep(st, t)
    ensures Outcome(StepThread(st, t), t, StepThread(st, t).threads[t])
  {
    hide Step;
    var st' := StepThread(st, t);
    var th, th' := st.threads[t], st'.threads[t];
    assert ThreadOk(st, t, th);
    StepShape(st.b, t, th);
    ResponseStep(st.b, t, th);
    HistGrows(st.hist, st'.b, th.start, th.op.k);
    SinceGrows(st.events, st'.events[|st.events|], th.start, t);
    if st.distinct && th.pc.SearchChk? && th.op.Put? && st.b.val[th.pc.i] == th.pc.v {
      BoundIsPresent(st.hist, th.start, th.op.k, th.pc.v);
    }
  }

  // ------------------------------------------------------------------ the theorems

  lemma StepHist(st: State, t: nat)
    requires Inv(st) && CanStep(st, t)
    ensures HistOk(StepThread(st, t)) && Sound(StepThread(st, t).b)
  {
    hide Step;
    StepEffect(st, t);
    var st' := StepThread(st, t);
    forall j | 0 <= j < |st'.events| ensures Effect(st'.hist[j], st'.events[j], st'.hist[j + 1]) {
      if j < |st.events| { assert Effect(st.hist[j], st.events[j], st.hist[j + 1]); }
    }
  }

  lemma StepOk(st: State, t: nat)
    requires Inv(st) && CanStep(st, t)
    ensures Inv(StepThread(st, t))
  {
    hide Step, SearchSound, GetComplete, PutComplete, RemoveComplete, Outcome, OwnWrites, HistOk, OwnersOk, ValuesOk;
    var st' := StepThread(st, t);
    StepHist(st, t);
    StepOwners(st, t);
    if st.distinct { StepValues(st, t); }
    forall u | u in st'.threads ensures ThreadOk(st', u, st'.threads[u]) {
      assert ThreadOk(st, u, st.threads[u]);
      if u == t {
        StepShape(st.b, t, st.threads[t]);
        SelfPut(st, t);
        if st.distinct { SelfSearch(st, t); }
        SelfGet(st, t);
        SelfRemove(st, t);
        SelfOutcome(st, t);
      } else {
        OthersWrites(st, t, u);
        if st.distinct { OthersSearch(st, t, u); }
        OthersGet(st, t, u);
        OthersPut(st, t, u);
        OthersRemove(st, t, u);
        OthersOutcome(st, t, u);
      }
    }
  }

  lemma NextOk(st: State, st': State)
    requires Inv(st) && Next(st, st')
    ensures Inv(st')
  {
    if t, op :| Invoke(st, t, op, st') {
      InvokeOk(st, t, op, st');
    } else {
      var t :| CanStep(st, t) && st' == StepThread(st, t);
      StepOk(st, t);
    }
  }

  lemma {:induction false} RunOk(r: seq<State>, n: nat)
    requires Run(r) && n < |r|
    ensures Inv(r[n])
  {
    if n == 0 {
      InitOk();
    } else {
      RunOk(r, n - 1);
      assert Next(r[n - 1], r[n - 1 + 1]);
      NextOk(r[n - 1], r[n]);
    }
  }

  /** In every state of every run no key is VALID in two slots, every INSRT slot has exactly one
      owning put, and the bucket stands for the map that the events build up. */
  lemma BucketIsSafe(r: seq<State>, n: nat)
    requires Run(r) && n < |r|
    ensures Sound(r[n].b) && OwnersOk(r[n])
    ensures |r[n].hist| == |r[n].events| + 1 && r[n].hist[|r[n].events|] == r[n].b
    ensures forall j :: 0 <= j < |r[n].events| ==> Effect(r[n].hist[j], r[n].events[j], r[n].hist[j + 1])
  {
    RunOk(r, n);
  }

  /** The recorded history of a state extends that of every earlier state of the run. */
  lemma {:induction false} HistoryIsKept(r: seq<State>, m: nat, n: nat)
    requires Run(r) && m <= n < |r|
    ensures r[m].hist <= r[n].hist && r[m].events <= r[n].events
  {
    if m < n {
      HistoryIsKept(r, m, n - 1);
      assert Next(r[n - 1], r[n - 1 + 1]);
    }
  }

  /** From one state of a run to the next, a slot that stays VALID keeps its key and its value. */
  lemma ValidSlotsAreImmutable(r: seq<State>, n: nat, i: nat)
    requires Run(r) && n + 1 < |r| && Valid(r[n].b, i) && Valid(r[n + 1].b, i)
    ensures r[n + 1].b.key[i] == r[n].b.key[i] && r[n + 1].b.val[i] == r[n].b.val[i]
  {
    RunOk(r, n);
    assert Next(r[n], r[n + 1]);
    if t :| CanStep(r[n], t) && r[n + 1] == StepThread(r[n], t) { ValidSlotsKeep(r[n], t, i); }
  }

  /** Linearizability.  In every run, every operation that has completed returned what an atomic map
      operation returns at one moment between its invocation and its response, and the map changes
      only at those moments.  For a get that returns a value and a put that returns false this needs
      that each put call has brought a value of its own. */
  lemma Linearizable(r: seq<State>, n: nat, t: nat)
    requires Run(r) && n < |r| && t in r[n].threads && r[n].threads[t].pc.Done?
    ensures Explained(r[n].hist, r[n].events, t, r[n].threads[t], r[n].distinct)
  {
    RunOk(r, n);
    assert ThreadOk(r[n], t, r[n].threads[t]);
  }
}
