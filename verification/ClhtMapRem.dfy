/** The lock-free bucket whose removals work on single bytes of the packed word: a remove tags a slot,
    looks at its key again, and either clears the slot or puts the tag back.  Each step is one load,
    store or compare-and-swap. */
module ClhtMapRem {
  import opened History

  const SLOTS: nat := 3

  datatype Mark = INVLD | INSRT | VALID | REMOV

  /** The packed word. */
  datatype Snap = Snap(version: nat, marks: seq<Mark>)

  datatype Bucket = Bucket(snap: Snap, key: seq<nat>, val: seq<nat>)

  datatype Op = Put(k: nat, v: nat) | Remove(k: nat)

  datatype Pc =
    | ReadSnap
    | SearchVal(i: nat)
    | SearchMap(i: nat, v: nat)
    | SearchKey(i: nat, v: nat)
    | SearchChk(i: nat, v: nat)
    | AbortStore
    | Cas1
    | StoreVal
    | StoreKey
    | Cas2
    | RemVal(i: nat)
    | RemMap(i: nat, v: nat)
    | RemKey(i: nat, v: nat)
    | RemChk(i: nat, v: nat)
    | TagCas(i: nat)
    | Recheck(i: nat)
    | ReadBack(i: nat)
    | Clear(i: nat, r: nat)
    | Restore(i: nat)
    | Done(result: nat)

  /** A thread: its operation, when it began, empty_index, its copy of the word, and its point. */
  datatype Thread = Thread(op: Op, start: nat, ei: int, s: Snap, pc: Pc)

  datatype State = State(b: Bucket, threads: map<nat, Thread>, events: seq<Event>)

  /** map[i] >= MAP_VALID. */
  predicate IsHeld(m: Mark) { m == VALID || m == REMOV }

  function FirstEmpty(s: Snap): (r: int)
    requires |s.marks| == SLOTS
    ensures -1 <= r < SLOTS && (r >= 0 ==> s.marks[r] == INVLD)
  {
    if s.marks[0] == INVLD then 0 else if s.marks[1] == INVLD then 1 else if s.marks[2] == INVLD then 2 else -1
  }

  function SetMark(s: Snap, i: nat, m: Mark): Snap
    requires i < |s.marks|
  {
    s.(marks := s.marks[i := m])
  }

  predicate Shape(b: Bucket) { |b.snap.marks| == |b.key| == |b.val| == SLOTS }

  /** Indices held by a thread are slots. */
  predicate ThreadShape(th: Thread)
  {
    && |th.s.marks| == SLOTS && th.ei < SLOTS
    && match th.pc
       case ReadSnap => th.op.Put?
       case SearchVal(i) => th.op.Put? && i < SLOTS
       case SearchMap(i, _) => th.op.Put? && i < SLOTS
       case SearchKey(i, _) => th.op.Put? && i < SLOTS
       case SearchChk(i, _) => th.op.Put? && i < SLOTS
       case AbortStore => th.op.Put? && th.ei >= 0
       case Cas1 => th.op.Put? && th.ei >= 0
       case StoreVal => th.op.Put? && th.ei >= 0
       case StoreKey => th.op.Put? && th.ei >= 0
       case Cas2 => th.op.Put? && th.ei >= 0
       case RemVal(i) => th.op.Remove? && i < SLOTS
       case RemMap(i, _) => th.op.Remove? && i < SLOTS
       case RemKey(i, _) => th.op.Remove? && i < SLOTS
       case RemChk(i, _) => th.op.Remove? && i < SLOTS
       case TagCas(i) => th.op.Remove? && i < SLOTS
       case Recheck(i) => th.op.Remove? && i < SLOTS
       case ReadBack(i) => th.op.Remove? && i < SLOTS
       case Clear(i, _) => th.op.Remove? && i < SLOTS
       case Restore(i) => th.op.Remove? && i < SLOTS
       case Done(_) => true
  }

  datatype Out = Out(b: Bucket, th: Thread, ev: Event)

  function Quiet(b: Bucket, th: Thread): Out { Out(b, th, Internal) }

  /** The search of a put has found nothing. */
  function NotFound(b: Bucket, th: Thread): Out
    requires |th.s.marks| == SLOTS && th.ei < SLOTS
  {
    if th.ei < 0 then
      var e := FirstEmpty(th.s);
      Quiet(b, th.(ei := e, pc := if e < 0 then ReadSnap else Cas1))
    else Quiet(b, th.(s := SetMark(th.s, th.ei, INSRT), pc := Cas2))
  }

  function NextSlot(b: Bucket, th: Thread, i: nat): Out
    requires |th.s.marks| == SLOTS && th.ei < SLOTS
  {
    if i + 1 < SLOTS then Quiet(b, th.(pc := SearchVal(i + 1))) else NotFound(b, th)
  }

  function NextRem(b: Bucket, th: Thread, i: nat): Out
  {
    Quiet(b, th.(pc := if i + 1 < SLOTS then RemVal(i + 1) else Done(0)))
  }

  function PutStep(b: Bucket, t: nat, th: Thread): Out
    requires Shape(b) && ThreadShape(th) && th.op.Put? && !th.pc.Done?
  {
    match th.pc
    case ReadSnap => Quiet(b, th.(s := b.snap, pc := SearchVal(0)))
    case SearchVal(i) => Quiet(b, th.(pc := SearchMap(i, b.val[i])))
    case SearchMap(i, v) => if IsHeld(b.snap.marks[i]) then Quiet(b, th.(pc := SearchKey(i, v))) else NextSlot(b, th, i)
    case SearchKey(i, v) => if b.key[i] == th.op.k then Quiet(b, th.(pc := SearchChk(i, v))) else NextSlot(b, th, i)
    case SearchChk(i, v) =>
      if b.val[i] == v && v != 0 then Quiet(b, th.(pc := if th.ei >= 0 then AbortStore else Done(0)))
          else NotFound(b, th)
    case AbortStore => Quiet(b.(snap := SetMark(b.snap, th.ei, INVLD)), th.(pc := Done(0)))
    case Cas1 =>
      var s1 := SetMark(th.s, th.ei, INSRT);
      if b.snap == th.s then Quiet(b.(snap := s1), th.(s := s1, pc := StoreVal))
          else Quiet(b, th.(ei := -2, pc := ReadSnap))
    case StoreVal => Quiet(b.(val := b.val[th.ei := th.op.v]), th.(pc := StoreKey))
    case StoreKey => Quiet(b.(key := b.key[th.ei := th.op.k]), th.(pc := Cas2))
    case Cas2 =>
      if b.snap == th.s
      then Out(b.(snap := Snap(th.s.version + 1, th.s.marks[th.ei := VALID])), th.(pc := Done(1)),
          Inserted(t, th.op.k, th.op.v))
      else Quiet(b, th.(pc := ReadSnap))
  }

  function RemoveStep(b: Bucket, t: nat, th: Thread): Out
    requires Shape(b) && ThreadShape(th) && th.op.Remove? && !th.pc.Done?
  {
    match th.pc
    case RemVal(i) => Quiet(b, th.(pc := RemMap(i, b.val[i])))
    case RemMap(i, v) => if b.snap.marks[i] == VALID then Quiet(b, th.(pc := RemKey(i, v))) else NextRem(b, th, i)
    case RemKey(i, v) => if b.key[i] == th.op.k then Quiet(b, th.(pc := RemChk(i, v))) else NextRem(b, th, i)
    case RemChk(i, v) => if b.val[i] == v then Quiet(b, th.(pc := TagCas(i))) else NextRem(b, th, i)
    case TagCas(i) =>
      if b.snap.marks[i] == VALID then Quiet(b.(snap := SetMark(b.snap, i, REMOV)), th.(pc := Recheck(i)))
      else Quiet(b, th.(pc := Done(0)))
    case Recheck(i) => Quiet(b, th.(pc := if b.key[i] == th.op.k then ReadBack(i) else Restore(i)))
    case ReadBack(i) => Quiet(b, th.(pc := Clear(i, b.val[i])))
    case Clear(i, r) => Out(b.(snap := SetMark(b.snap, i, INVLD)), th.(pc := Done(r)), Removed(t, th.op.k, r))
    case Restore(i) => Quiet(b.(snap := SetMark(b.snap, i, VALID)), th.(pc := Done(0)))
  }

  /** One step of thread t. */
  function Step(b: Bucket, t: nat, th: Thread): Out
    requires Shape(b) && ThreadShape(th) && !th.pc.Done?
  {
    if th.op.Put? then PutStep(b, t, th) else RemoveStep(b, t, th)
  }

  const EMPTY: Bucket := Bucket(Snap(0, [INVLD, INVLD, INVLD]), [0, 0, 0], [0, 0, 0])

  function Init(): State { State(EMPTY, map[], []) }

  /** A thread begins an operation; keys and values are not zero. */
  ghost predicate Invoke(st: State, t: nat, op: Op, st': State)
  {
    && (t in st.threads ==> st.threads[t].pc.Done?)
    && op.k != 0 && (op.Put? ==> op.v != 0)
    && st' == st.(threads := st.threads[t := Thread(op, |st.events|, -2, EMPTY.snap, if op.Put? then ReadSnap
        else RemVal(0))])
  }

  function StepThread(st: State, t: nat): State
    requires Shape(st.b) && t in st.threads && ThreadShape(st.threads[t]) && !st.threads[t].pc.Done?
  {
    var out := Step(st.b, t, st.threads[t]);
    State(out.b, st.threads[t := out.th], st.events + [out.ev])
  }

  ghost predicate CanStep(st: State, t: nat)
  {
    Shape(st.b) && t in st.threads && ThreadShape(st.threads[t]) && !st.threads[t].pc.Done?
  }

  ghost predicate Next(st: State, st': State)
  {
    || (exists t, op :: Invoke(st, t, op, st'))
    || (exists t :: CanStep(st, t) && st' == StepThread(st, t))
  }

  ghost predicate Run(r: seq<State>)
  {
    |r| > 0 && r[0] == Init() && forall i :: 0 <= i < |r| - 1 ==> Next(r[i], r[i + 1])
  }

  // ------------------------------------------------------------------ what the claims speak of

  predicate Held(b: Bucket, i: int)
  {
    Shape(b) && 0 <= i < SLOTS && IsHeld(b.snap.marks[i])
  }

  function HeldAt(b: Bucket, i: nat): multiset<(nat, nat)>
  {
    if Held(b, i) then multiset{(b.key[i], b.val[i])} else multiset{}
  }

  /** The entries in the bucket, tagged ones included. */
  function Entries(b: Bucket): multiset<(nat, nat)>
  {
    HeldAt(b, 0) + HeldAt(b, 1) + HeldAt(b, 2)
  }

  // ------------------------------------------------------------------ the invariant

  /** This put has marked its slot INSRT and still owns it. */
  predicate OwnsInsert(th: Thread) { th.op.Put? && th.ei >= 0 && !th.pc.Cas1? && !th.pc.Done? }

  /** This remove has tagged slot i. */
  predicate OwnsTag(th: Thread, i: nat)
  {
    match th.pc
    case Recheck(j) => i == j
    case ReadBack(j) => i == j
    case Clear(j, _) => i == j
    case Restore(j) => i == j
    case _ => false
  }

  predicate OwnsSlot(th: Thread, i: nat) { (OwnsInsert(th) && th.ei == i) || OwnsTag(th, i) }

  ghost predicate OwnersOk(st: State)
    requires Shape(st.b)
  {
    && (forall t, i: nat :: t in st.threads && i < SLOTS && OwnsSlot(st.threads[t], i) ==>
          st.b.snap.marks[i] == if OwnsInsert(st.threads[t]) then INSRT else REMOV)
    && (forall t, u, i: nat ::
        t in st.threads && u in st.threads && i < SLOTS && OwnsSlot(st.threads[t], i) && OwnsSlot(st.threads[u], i) ==>
          t == u)
  }

  predicate HeldIn(s: Snap, i: nat) { i < |s.marks| && IsHeld(s.marks[i]) }

  /** No commit has happened since s was read, and every slot that was held in s still is. */
  ghost predicate Stable(s: Snap, b: Bucket)
  {
    b.snap.version == s.version && forall m: nat :: HeldIn(s, m) ==> HeldIn(b.snap, m)
  }

  /** s is an earlier copy of the word: without a commit in between, no slot has become held. */
  ghost predicate Earlier(s: Snap, b: Bucket)
  {
    s.version <= b.snap.version && (s.version == b.snap.version ==> forall m: nat :: HeldIn(b.snap, m) ==> HeldIn(s, m))
  }

  ghost predicate NoKeyBefore(b: Bucket, k: nat, n: nat)
    requires Shape(b)
  {
    forall m: nat :: m < n && HeldIn(b.snap, m) ==> b.key[m] != k
  }

  /** What a put knows about the bucket, as long as nobody has committed or removed. */
  ghost predicate PutKnows(b: Bucket, th: Thread)
    requires Shape(b) && ThreadShape(th) && th.op.Put?
  {
    match th.pc
    case ReadSnap => true
    case AbortStore => true
    case Done(_) => true
    case SearchVal(i) => Earlier(th.s, b) && (Stable(th.s, b) ==> NoKeyBefore(b, th.op.k, i))
    case SearchMap(i, v) => Earlier(th.s, b)
        && (Stable(th.s, b) ==> NoKeyBefore(b, th.op.k, i) && (HeldIn(b.snap, i) ==> b.val[i] == v))
    case SearchKey(i, v) =>
      Earlier(th.s, b) && (b.snap.version == th.s.version ==> HeldIn(th.s, i))
      && (Stable(th.s, b) ==> NoKeyBefore(b, th.op.k, i) && b.val[i] == v)
    case SearchChk(i, v) =>
      Earlier(th.s, b) && (b.snap.version == th.s.version ==> HeldIn(th.s, i))
      && (Stable(th.s, b) ==> b.val[i] == v)
    case _ => Earlier(th.s, b) && (Stable(th.s, b) ==> NoKeyBefore(b, th.op.k, SLOTS))
  }

  /** What the owner of a slot has written, or read, there. */
  predicate OwnerKnows(b: Bucket, th: Thread)
    requires Shape(b) && ThreadShape(th)
  {
    && (OwnsInsert(th) && !th.pc.StoreVal? ==>
        b.val[th.ei] == th.op.v && (!th.pc.StoreKey? ==> b.key[th.ei] == th.op.k))
    && (OwnsInsert(th) && !th.pc.ReadSnap? && !th.pc.AbortStore? ==> th.s.marks[th.ei] == INSRT)
    && match th.pc
       case Cas1 => th.s.marks[th.ei] == INVLD
       case ReadBack(i) => b.key[i] == th.op.k
       case Clear(i, r) => b.key[i] == th.op.k && b.val[i] == r
       case Restore(i) => b.key[i] != th.op.k
       case _ => true
  }

  ghost predicate ThreadOk(b: Bucket, th: Thread)
    requires Shape(b)
  {
    && ThreadShape(th) && th.op.k != 0 && (th.op.Put? ==> th.op.v != 0)
    && OwnerKnows(b, th) && (th.op.Put? ==> PutKnows(b, th))
  }

  ghost predicate Unique(b: Bucket)
    requires Shape(b)
  {
    && (forall i: nat, j: nat :: HeldIn(b.snap, i) && HeldIn(b.snap, j) && b.key[i] == b.key[j] ==> i == j)
    && (forall i: nat :: HeldIn(b.snap, i) ==> b.val[i] != 0)
  }

  ghost predicate StateOk(st: State)
  {
    && Shape(st.b) && Unique(st.b) && OwnersOk(st)
    && (forall t :: t in st.threads ==> ThreadOk(st.b, st.threads[t]))
    && Inserts(st.events) == Removals(st.events) + Entries(st.b)
  }

  // ------------------------------------------------------------------ what a step does to the bucket

  /** Only slot i has changed. */
  predicate OnlySlot(b: Bucket, b': Bucket, i: nat)
  {
    && Shape(b) && Shape(b')
    && forall j :: 0 <= j < SLOTS && j != i ==>
        b'.snap.marks[j] == b.snap.marks[j] && b'.key[j] == b.key[j] && b'.val[j] == b.val[j]
  }

  /** Without a commit no slot becomes held, and held slots keep their key and value. */
  ghost predicate Rely(b: Bucket, b': Bucket)
    requires Shape(b) && Shape(b')
  {
    && b.snap.version <= b'.snap.version
    && (b.snap.version == b'.snap.version ==>
          forall m: nat :: HeldIn(b'.snap, m) ==> HeldIn(b.snap, m) && b'.key[m] == b.key[m] && b'.val[m] == b.val[m])
  }

  lemma PutKnowsKept(b: Bucket, b': Bucket, th: Thread)
    requires Shape(b) && Shape(b') && Rely(b, b') && ThreadShape(th) && th.op.Put? && PutKnows(b, th)
    ensures PutKnows(b', th)
  {
    if Earlier(th.s, b) && Stable(th.s, b') {
      assert b.snap.version == th.s.version;
      assert forall m: nat :: HeldIn(th.s, m) ==> HeldIn(b'.snap, m);
      assert Stable(th.s, b);
    }
  }

  lemma OtherKept(b: Bucket, b': Bucket, i: nat, th: Thread)
    requires Shape(b) && OnlySlot(b, b', i) && Rely(b, b') && ThreadOk(b, th) && i < SLOTS && !OwnsSlot(th, i)
    ensures ThreadOk(b', th)
  {
    if th.op.Put? { PutKnowsKept(b, b', th); }
  }

  /** The slot that the next step of a thread may change; SLOTS when it only reads. */
  function Touched(b: Bucket, th: Thread): nat
    requires Shape(b) && ThreadShape(th)
  {
    match th.pc
    case AbortStore => th.ei
    case Cas1 => if b.snap == th.s then th.ei else SLOTS
    case StoreVal => th.ei
    case StoreKey => th.ei
    case Cas2 => if b.snap == th.s then th.ei else SLOTS
    case TagCas(i) => if b.snap.marks[i] == VALID then i else SLOTS
    case Clear(i, _) => i
    case Restore(i) => i
    case _ => SLOTS
  }

  /** The slot that a step changes is the stepping thread's own, or free for it to take. */
  predicate MarkFits(b: Bucket, th: Thread)
    requires Shape(b) && ThreadShape(th)
  {
    forall i: nat :: i < SLOTS && OwnsSlot(th, i) ==> b.snap.marks[i] == if OwnsInsert(th) then INSRT else REMOV
  }

  lemma StepTouches(b: Bucket, t: nat, th: Thread)
    requires Shape(b) && ThreadShape(th) && !th.pc.Done? && OwnerKnows(b, th) && MarkFits(b, th)
    ensures var out := Step(b, t, th); var i := Touched(b, th);
            && OnlySlot(b, out.b, i) && Rely(b, out.b) && (i == SLOTS ==> out.b == b)
            && (i < SLOTS ==> OwnsSlot(th, i) || b.snap.marks[i] == INVLD || b.snap.marks[i] == VALID)
  {
    var i := Touched(b, th);
    var b' := Step(b, t, th).b;
    if i < SLOTS {
      assert OwnsSlot(th, i) || th.pc.Cas1? || th.pc.TagCas?;
      forall m: nat | b.snap.version == b'.snap.version && HeldIn(b'.snap, m)
        ensures HeldIn(b.snap, m) && b'.key[m] == b.key[m] && b'.val[m] == b.val[m]
      {
        if m == i { assert OwnsSlot(th, i) ==> b.snap.marks[i] == if OwnsInsert(th) then INSRT else REMOV; }
      }
    }
  }

  // ------------------------------------------------------------------ what the stepping thread knows

  lemma NotFoundKnows(b: Bucket, th: Thread)
    requires Shape(b) && ThreadOk(b, th) && th.op.Put? && (th.pc.SearchMap? || th.pc.SearchKey? || th.pc.SearchChk?)
    requires Earlier(th.s, b) && (Stable(th.s, b) ==> NoKeyBefore(b, th.op.k, SLOTS))
    requires Unique(b) && MarkFits(b, th)
    ensures NotFound(b, th).b == b && ThreadOk(b, NotFound(b, th).th) && MarkFits(b, NotFound(b, th).th)
  {
    if th.ei >= 0 { assert SetMark(th.s, th.ei, INSRT) == th.s; }
  }

  lemma NextSlotKnows(b: Bucket, th: Thread, i: nat)
    requires Shape(b) && ThreadOk(b, th) && th.op.Put? && (th.pc.SearchMap? || th.pc.SearchKey?) && i == th.pc.i < SLOTS
    requires Earlier(th.s, b) && (Stable(th.s, b) ==> NoKeyBefore(b, th.op.k, i + 1))
    requires Unique(b) && MarkFits(b, th)
    ensures NextSlot(b, th, i).b == b && ThreadOk(b, NextSlot(b, th, i).th) && MarkFits(b, NextSlot(b, th, i).th)
  {
    if i + 1 == SLOTS { NotFoundKnows(b, th); }
  }

  lemma SearchOwn(b: Bucket, t: nat, th: Thread)
    requires Shape(b) && Unique(b) && ThreadOk(b, th) && MarkFits(b, th)
    requires th.op.Put? && (th.pc.ReadSnap? || th.pc.SearchVal? || th.pc.SearchMap? || th.pc.SearchKey?
        || th.pc.SearchChk?)
    ensures var out := PutStep(b, t, th); out.b == b && ThreadOk(b, out.th) && MarkFits(b, out.th)
  {
    hide Unique;
    match th.pc
    case SearchMap(i, v) => if !IsHeld(b.snap.marks[i]) { NextSlotKnows(b, th, i); }
    case SearchKey(i, v) => if b.key[i] != th.op.k { NextSlotKnows(b, th, i); }
    case SearchChk(i, v) => SearchChkOwn(b, t, th);
    case _ =>
  }

  lemma SearchChkOwn(b: Bucket, t: nat, th: Thread)
    requires Shape(b) && Unique(b) && ThreadOk(b, th) && MarkFits(b, th) && th.op.Put? && th.pc.SearchChk?
    ensures var out := PutStep(b, t, th); out.b == b && ThreadOk(b, out.th) && MarkFits(b, out.th)
  {
    var i, v := th.pc.i, th.pc.v;
    if !(b.val[i] == v && v != 0) {
      assert b.snap.version == th.s.version ==> HeldIn(th.s, i);
      NotFoundKnows(b, th);
    }
  }

  lemma CasOwn(b: Bucket, t: nat, th: Thread)
    requires Shape(b) && Unique(b) && ThreadOk(b, th) && MarkFits(b, th)
    requires th.op.Put? && (th.pc.Cas1? || th.pc.Cas2? || th.pc.StoreVal? || th.pc.StoreKey? || th.pc.AbortStore?)
    ensures var out := PutStep(b, t, th); Shape(out.b) && ThreadOk(out.b, out.th) && MarkFits(out.b, out.th)
  {
    var out := PutStep(b, t, th);
    match th.pc
    case Cas1 =>
      if b.snap == th.s { assert Stable(th.s, b); }
    case StoreVal => StoreKnows(b, out.b, th);
    case StoreKey => StoreKnows(b, out.b, th);
    case _ =>
  }

  /** Writing into a slot marked INSRT does not touch held entries. */
  lemma StoreKnows(b: Bucket, b': Bucket, th: Thread)
    requires Shape(b) && Shape(b') && ThreadShape(th) && th.op.Put? && (th.pc.StoreVal? || th.pc.StoreKey?)
        && PutKnows(b, th)
    requires OnlySlot(b, b', th.ei) && b'.snap == b.snap && b.snap.marks[th.ei] == INSRT
    ensures Earlier(th.s, b') && (Stable(th.s, b') ==> NoKeyBefore(b', th.op.k, SLOTS))
  {
    assert Stable(th.s, b') ==> Stable(th.s, b);
  }

  lemma RemoveOwn(b: Bucket, t: nat, th: Thread)
    requires Shape(b) && Unique(b) && ThreadOk(b, th) && MarkFits(b, th) && th.op.Remove? && !th.pc.Done?
    ensures var out := RemoveStep(b, t, th); Shape(out.b) && ThreadOk(out.b, out.th) && MarkFits(out.b, out.th)
  {
  }

  lemma OwnStep(b: Bucket, t: nat, th: Thread)
    requires Shape(b) && Unique(b) && ThreadOk(b, th) && MarkFits(b, th) && !th.pc.Done?
    ensures var out := Step(b, t, th);
        Shape(out.b) && ThreadOk(out.b, out.th) && MarkFits(out.b, out.th) && out.th.op == th.op
        && out.th.start == th.start
  {
    hide ThreadOk, MarkFits, Unique;
    assert ThreadShape(th) by { ShapeOf(b, th); }
    if th.op.Remove? { RemoveOwn(b, t, th); }
    else if th.pc.ReadSnap? || th.pc.SearchVal? || th.pc.SearchMap? || th.pc.SearchKey? || th.pc.SearchChk? {
      SearchOwn(b, t, th);
    }
    else { CasOwn(b, t, th); }
  }

  lemma ShapeOf(b: Bucket, th: Thread)
    requires Shape(b) && ThreadOk(b, th)
    ensures ThreadShape(th) && OwnerKnows(b, th)
  {
  }

  // ------------------------------------------------------------------ the entries

  lemma ExchangeFirst<T>(a: multiset<T>, b: multiset<T>, c: multiset<T>, x: multiset<T>)
    ensures x + b + c + a == a + b + c + x
    ensures b + x + c + a == b + a + c + x
    ensures b + c + x + a == b + c + a + x
  {
  }

  lemma EntriesChange(b: Bucket, b': Bucket, i: nat)
    requires OnlySlot(b, b', i) && i < SLOTS
    ensures Entries(b') + HeldAt(b, i) == Entries(b) + HeldAt(b', i)
  {
    forall j: nat | j < SLOTS && j != i ensures HeldAt(b', j) == HeldAt(b, j) { }
    hide HeldAt;
    match i
    case 0 => ExchangeFirst(HeldAt(b, 0), HeldAt(b, 1), HeldAt(b, 2), HeldAt(b', 0));
    case 1 => ExchangeFirst(HeldAt(b, 1), HeldAt(b, 0), HeldAt(b, 2), HeldAt(b', 1));
    case _ => ExchangeFirst(HeldAt(b, 2), HeldAt(b, 0), HeldAt(b, 1), HeldAt(b', 2));
  }

  /** A commit adds an entry whose key was not there; a clear takes out the remover's own entry; nothing
      else changes what the bucket holds. */
  lemma StepEntries(b: Bucket, t: nat, th: Thread)
    requires Shape(b) && Unique(b) && ThreadOk(b, th) && MarkFits(b, th) && !th.pc.Done?
    ensures var out := Step(b, t, th);
            && Shape(out.b) && Unique(out.b)
            && (out.ev.Internal? ==> Entries(out.b) == Entries(b))
            && (out.ev.Inserted? ==>
                out.ev == Inserted(t, th.op.k, th.op.v) && Entries(out.b) == Entries(b) + multiset{(th.op.k, th.op.v)}
                                     && forall i: nat :: HeldIn(b.snap, i) ==> b.key[i] != th.op.k)
            && (out.ev.Removed? ==> out.ev.t == t && out.ev.k == th.op.k && out.ev.v != 0
                                    && Entries(b) == Entries(out.b) + multiset{(th.op.k, out.ev.v)})
  {
    hide Entries, HeldAt;
    if th.pc.Cas2? && b.snap == th.s {
      assert Stable(th.s, b);
      CommitEntries(b, t, th);
    } else if th.pc.Clear? {
      ClearEntries(b, t, th);
    } else {
      QuietEntries(b, t, th);
    }
  }

  lemma CommitEntries(b: Bucket, t: nat, th: Thread)
    requires Shape(b) && Unique(b) && ThreadOk(b, th) && MarkFits(b, th) && th.pc.Cas2? && b.snap == th.s
        && Stable(th.s, b)
    ensures var b' := Step(b, t, th).b;
            && Shape(b') && Unique(b') && Entries(b') == Entries(b) + multiset{(th.op.k, th.op.v)}
            && forall i: nat :: HeldIn(b.snap, i) ==> b.key[i] != th.op.k
  {
    hide Entries, HeldAt;
    var b' := Step(b, t, th).b;
    var i: nat := th.ei;
    assert forall j: nat :: j != i ==> (HeldIn(b'.snap, j) <==> HeldIn(b.snap, j));
    EntriesChange(b, b', i);
    AtSlot(b, i);
    AtSlot(b', i);
  }

  lemma AtSlot(b: Bucket, i: nat)
    requires Shape(b) && i < SLOTS
    ensures HeldAt(b, i) == if HeldIn(b.snap, i) then multiset{(b.key[i], b.val[i])} else multiset{}
  {
  }

  lemma ClearEntries(b: Bucket, t: nat, th: Thread)
    requires Shape(b) && Unique(b) && ThreadOk(b, th) && MarkFits(b, th) && th.pc.Clear?
    ensures var b' := Step(b, t, th).b;
            Shape(b') && Unique(b') && Entries(b) == Entries(b') + multiset{(th.op.k, th.pc.r)} && th.pc.r != 0
  {
    hide Entries, HeldAt;
    var b' := Step(b, t, th).b;
    var i := th.pc.i;
    assert OwnsSlot(th, i) && HeldIn(b.snap, i);
    EntriesChange(b, b', i);
    AtSlot(b, i);
    AtSlot(b', i);
  }

  lemma QuietEntries(b: Bucket, t: nat, th: Thread)
    requires Shape(b) && Unique(b) && ThreadOk(b, th) && MarkFits(b, th) && !th.pc.Done?
    requires !(th.pc.Cas2? && b.snap == th.s) && !th.pc.Clear?
    ensures var out := Step(b, t, th);
            out.ev == Internal && Shape(out.b) && Unique(out.b) && Entries(out.b) == Entries(b)
  {
    hide Entries, HeldAt;
    var out := Step(b, t, th);
    var i := Touched(b, th);
    StepTouches(b, t, th);
    if i < SLOTS {
      assert OwnsSlot(th, i) || th.pc.Cas1? || th.pc.TagCas?;
      assert HeldIn(out.b.snap, i) <==> HeldIn(b.snap, i);
      AtSlot(b, i);
      AtSlot(out.b, i);
      EntriesSame(b, out.b, i);
    }
  }

  lemma EntriesSame(b: Bucket, b': Bucket, i: nat)
    requires OnlySlot(b, b', i) && i < SLOTS && HeldAt(b', i) == HeldAt(b, i)
    ensures Entries(b') == Entries(b)
  {
    forall j: nat | j < SLOTS && j != i ensures HeldAt(b', j) == HeldAt(b, j) { }
    hide HeldAt;
    assert i == 0 || i == 1 || i == 2;
  }

  // ------------------------------------------------------------------ every run

  lemma OwnersAfter(st: State, t: nat, b': Bucket, th': Thread, i: nat, events: seq<Event>)
    requires Shape(st.b) && OwnersOk(st) && t in st.threads && OnlySlot(st.b, b', i)
    requires i < SLOTS ==> OwnsSlot(st.threads[t], i) || st.b.snap.marks[i] == INVLD || st.b.snap.marks[i] == VALID
    requires forall j: nat :: j < SLOTS && OwnsSlot(th', j) ==>
               b'.snap.marks[j] == (if OwnsInsert(th') then INSRT else REMOV) && (OwnsSlot(st.threads[t], j) || j == i)
    ensures OwnersOk(State(b', st.threads[t := th'], events))
  {
    hide OwnsSlot, OwnsInsert;
    var st' := State(b', st.threads[t := th'], events);
    forall u, j: nat | u in st'.threads && j < SLOTS && OwnsSlot(st'.threads[u], j)
      ensures b'.snap.marks[j] == if OwnsInsert(st'.threads[u]) then INSRT else REMOV
      ensures u != t ==> !OwnsSlot(th', j)
    {
      if u != t {
        assert OwnsSlot(st.threads[u], j) && !OwnsSlot(st.threads[t], j);
        assert st.b.snap.marks[j] == if OwnsInsert(st.threads[u]) then INSRT else REMOV;
      }
    }
    forall u, v, j: nat | u in st'.threads && v in st'.threads && OwnsSlot(st'.threads[u], j)
        && OwnsSlot(st'.threads[v], j) && j < SLOTS
      ensures u == v
    {
      if u != t && v != t { assert OwnsSlot(st.threads[u], j) && OwnsSlot(st.threads[v], j); }
    }
  }

  lemma StepOwners(st: State, t: nat)
    requires StateOk(st) && CanStep(st, t)
    ensures Shape(StepThread(st, t).b) && OwnersOk(StepThread(st, t))
  {
    hide ThreadOk, Unique, Entries, Inserts, Removals, Step, OwnersOk, OwnsSlot;
    var th := st.threads[t];
    var out := Step(st.b, t, th);
    ShapeOf(st.b, th);
    FitsOf(st, t);
    OwnStep(st.b, t, th);
    ShapeOf(out.b, out.th);
    StepTouches(st.b, t, th);
    NewlyOwned(st.b, t, th);
    OwnersAfter(st, t, out.b, out.th, Touched(st.b, th), st.events + [out.ev]);
  }

  /** What a thread owns after a step it owned before, or has just marked. */
  lemma NewlyOwned(b: Bucket, t: nat, th: Thread)
    requires Shape(b) && ThreadShape(th) && !th.pc.Done?
    ensures forall j: nat :: j < SLOTS && OwnsSlot(Step(b, t, th).th, j) ==> OwnsSlot(th, j) || j == Touched(b, th)
  {
  }

  lemma OthersKept(st: State, t: nat)
    requires StateOk(st) && CanStep(st, t)
    ensures Shape(StepThread(st, t).b)
    ensures forall u :: u in st.threads && u != t ==> ThreadOk(StepThread(st, t).b, st.threads[u])
  {
    hide ThreadOk, Unique, Entries, Inserts, Removals, Step;
    var th := st.threads[t];
    var b' := StepThread(st, t).b;
    ShapeOf(st.b, th);
    StepTouches(st.b, t, th);
    var i := Touched(st.b, th);
    forall u | u in st.threads && u != t ensures ThreadOk(b', st.threads[u]) {
      if i < SLOTS {
        assert !OwnsSlot(st.threads[u], i);
        OtherKept(st.b, b', i, st.threads[u]);
      }
    }
  }

  lemma StepKeeps(st: State, t: nat)
    requires StateOk(st) && CanStep(st, t)
    ensures StateOk(StepThread(st, t))
  {
    hide ThreadOk, Unique, Entries, Inserts, Removals, Step;
    var th := st.threads[t];
    var out := Step(st.b, t, th);
    StepOwners(st, t);
    OthersKept(st, t);
    hide OwnersOk;
    FitsOf(st, t);
    hide MarkFits;
    OwnStep(st.b, t, th);
    StepEntries(st.b, t, th);
    EventsGrow(st.events, out.ev);
  }

  lemma FitsOf(st: State, t: nat)
    requires Shape(st.b) && OwnersOk(st) && t in st.threads && ThreadShape(st.threads[t])
    ensures MarkFits(st.b, st.threads[t])
  {
  }

  lemma InvokeKeeps(st: State, t: nat, op: Op, st': State)
    requires StateOk(st) && Invoke(st, t, op, st')
    ensures StateOk(st')
  {
    hide Unique, Entries, Inserts, Removals;
    forall u, i: nat | u in st'.threads && i < SLOTS && OwnsSlot(st'.threads[u], i)
        ensures u != t && OwnsSlot(st.threads[u], i) { }
  }

  lemma NextKeeps(st: State, st': State)
    requires StateOk(st) && Next(st, st')
    ensures StateOk(st')
  {
    hide StateOk, StepThread, Invoke;
    if t, op :| Invoke(st, t, op, st') {
      InvokeKeeps(st, t, op, st');
    } else {
      var t :| CanStep(st, t) && st' == StepThread(st, t);
      StepKeeps(st, t);
    }
  }

  lemma {:induction false} RunOk(r: seq<State>, i: nat)
    requires Run(r) && i < |r|
    ensures StateOk(r[i])
  {
    if i == 0 {
      assert Entries(EMPTY) == multiset{};
    } else {
      hide StateOk, Next;
      RunOk(r, i - 1);
      NextKeeps(r[i - 1], r[i]);
    }
  }

  // ------------------------------------------------------------------ answers

  /** What a completed operation has done. */
  ghost predicate Answered(events: seq<Event>, t: nat, th: Thread)
  {
    match th.pc
    case Done(r) =>
      (match th.op
       case Put(k, v) => if r == 0 then NoEventSince(events, th.start, t)
           else r == 1 && OneEventSince(events, th.start, t, Inserted(t, k, v))
       case Remove(k) => if r == 0 then NoEventSince(events, th.start, t)
           else OneEventSince(events, th.start, t, Removed(t, k, r)))
    case _ => NoEventSince(events, th.start, t)
  }

  ghost predicate HistoryOk(st: State)
  {
    forall t :: t in st.threads ==> st.threads[t].start <= |st.events| && Answered(st.events, t, st.threads[t])
  }

  lemma OtherAnswered(events: seq<Event>, e: Event, t: nat, th: Thread)
    requires Answered(events, t, th) && th.start <= |events| && !By(e, t)
    ensures Answered(events + [e], t, th)
  {
    hide NoEventSince, OneEventSince;
    match th.pc
    case Done(r) =>
      if r == 0 { NoEventGrows(events, e, th.start, t); }
      else if th.op.Put? { OneEventGrows(events, e, th.start, t, Inserted(t, th.op.k, th.op.v)); }
      else { OneEventGrows(events, e, th.start, t, Removed(t, th.op.k, r)); }
    case _ => NoEventGrows(events, e, th.start, t);
  }

  lemma OwnAnswered(b: Bucket, events: seq<Event>, t: nat, th: Thread)
    requires Shape(b) && Unique(b) && ThreadOk(b, th) && MarkFits(b, th) && !th.pc.Done?
    requires Answered(events, t, th) && th.start <= |events|
    ensures Answered(events + [Step(b, t, th).ev], t, Step(b, t, th).th)
  {
    hide NoEventSince, OneEventSince, Entries;
    StepEntries(b, t, th);
    hide Unique;
    NoEventGrows(events, Step(b, t, th).ev, th.start, t);
  }

  lemma StepHistory(st: State, t: nat)
    requires StateOk(st) && HistoryOk(st) && CanStep(st, t)
    ensures HistoryOk(StepThread(st, t))
  {
    hide ThreadOk, Unique, Entries, Inserts, Removals, Step, Answered;
    var th := st.threads[t];
    var st' := StepThread(st, t);
    var e := Step(st.b, t, th).ev;
    OwnStep(st.b, t, th);
    OwnAnswered(st.b, st.events, t, th);
    StepEntries(st.b, t, th);
    forall u | u in st'.threads ensures st'.threads[u].start <= |st'.events|
      && Answered(st'.events, u, st'.threads[u])
    {
      if u != t { OtherAnswered(st.events, e, u, st.threads[u]); }
    }
  }

  lemma NextHistory(st: State, st': State)
    requires StateOk(st) && HistoryOk(st) && Next(st, st')
    ensures HistoryOk(st')
  {
    hide StateOk, StepThread;
    if t, op :| Invoke(st, t, op, st') {
    } else {
      var t :| CanStep(st, t) && st' == StepThread(st, t);
      hide HistoryOk;
      StepHistory(st, t);
    }
  }

  lemma {:induction false} RunHistory(r: seq<State>, i: nat)
    requires Run(r) && i < |r|
    ensures HistoryOk(r[i])
  {
    hide StateOk, Next, HistoryOk;
    if i == 0 {
      NobodyYet();
    } else {
      RunHistory(r, i - 1);
      RunOk(r, i - 1);
      NextHistory(r[i - 1], r[i]);
    }
  }

  lemma NobodyYet()
    ensures HistoryOk(Init())
  {
  }

  // ------------------------------------------------------------------ the theorems

  /** Every committed insert is still in the bucket, tagged or not, or has been taken out by exactly one
      remove, with the value it was put with. */
  lemma RemovedExactlyOnce(r: seq<State>, i: nat)
    requires Run(r) && i < |r|
    ensures Shape(r[i].b) && Inserts(r[i].events) == Removals(r[i].events) + Entries(r[i].b)
  {
    hide Run, Inserts, Removals, Entries;
    RunOk(r, i);
  }

  /** A remove that returns a value has taken out one entry, of its key and with that value; one that
      returns zero none.  A put that returns true has committed one entry, its own; one that returns
      false none. */
  lemma AnswersAreTrue(r: seq<State>, i: nat, t: nat)
    requires Run(r) && i < |r| && t in r[i].threads && r[i].threads[t].pc.Done?
    ensures Answered(r[i].events, t, r[i].threads[t])
  {
    hide Run, Answered;
    RunHistory(r, i);
  }

  /** No key is held in two slots, counting tagged entries. */
  lemma KeysAreHeldOnce(r: seq<State>, i: nat, j: nat, j': nat)
    requires Run(r) && i < |r| && Held(r[i].b, j) && Held(r[i].b, j') && r[i].b.key[j] == r[i].b.key[j']
    ensures j == j'
  {
    hide Run;
    RunOk(r, i);
    assert HeldIn(r[i].b.snap, j) && HeldIn(r[i].b.snap, j');
  }

  /** A held entry keeps its key and value until a remove of that very key takes it out; in particular a
      remover that has tagged the entry of another key puts it back as it was. */
  lemma EntriesAreNotHarmed(r: seq<State>, i: nat, j: nat)
    requires Run(r) && i + 1 < |r| && Held(r[i].b, j)
    ensures Held(r[i + 1].b, j) ==> r[i + 1].b.key[j] == r[i].b.key[j] && r[i + 1].b.val[j] == r[i].b.val[j]
    ensures !Held(r[i + 1].b, j) ==>
              |r[i + 1].events| == |r[i].events| + 1 && r[i + 1].events[|r[i].events|].Removed?
              && r[i + 1].events[|r[i].events|].k == r[i].b.key[j] && r[i + 1].events[|r[i].events|].v == r[i].b.val[j]
  {
    RunOk(r, i);
    var st, st' := r[i], r[i + 1];
    assert Next(st, st');
    hide Run, Inserts, Removals, Entries, Unique;
    if t, op :| Invoke(st, t, op, st') {
    } else {
      var t :| CanStep(st, t) && st' == StepThread(st, t);
      HeldKept(st.b, t, st.threads[t], j);
    }
  }

  lemma HeldKept(b: Bucket, t: nat, th: Thread, j: nat)
    requires Shape(b) && ThreadOk(b, th) && MarkFits(b, th) && !th.pc.Done? && Held(b, j)
    ensures var out := Step(b, t, th);
            && (Held(out.b, j) ==> out.b.key[j] == b.key[j] && out.b.val[j] == b.val[j])
            && (!Held(out.b, j) ==> out.ev == Removed(t, b.key[j], b.val[j]))
  {
    var i := Touched(b, th);
    StepTouches(b, t, th);
    if i == j { assert OwnsSlot(th, i) || th.pc.Cas1? || th.pc.TagCas?; }
  }
}
