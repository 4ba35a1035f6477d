/** One bucket of the lock-free cache-line table, shared by any number of threads: a packed word of
    a version and three slot marks, three keys and three values.  Each step is one load, store or
    compare-and-swap; threads interleave in any order. */
module ClhtLf {
  import opened History

  const SLOTS: nat := 3

  datatype Mark = INVLD | VALID | INSRT

  /** The packed word. */
  datatype Snap = Snap(version: nat, marks: seq<Mark>)

  datatype Bucket = Bucket(snap: Snap, key: seq<nat>, val: seq<nat>)

  datatype Op = Get(k: nat) | Put(k: nat, v: nat) | Remove(k: nat)

  /** Where a thread is inside its operation.  The Search points are shared by get and put. */
  datatype Pc =
    | SearchVal(i: nat)
    | SearchMap(i: nat, v: nat)
    | SearchKey(i: nat, v: nat)
    | SearchChk(i: nat, v: nat)
    | ReadSnap
    | AbortStore
    | Cas1
    | StoreVal
    | StoreKey
    | Cas2
    | RemKey(i: nat)
    | RemVal(i: nat)
    | RemCas(i: nat, r: nat)
    | Done(result: nat)

  /** A thread: its operation, when it began, empty_index, its copy of the word, and its point. */
  datatype Thread = Thread(op: Op, start: nat, ei: int, s: Snap, pc: Pc)

  /** hist records the bucket after every step, events what each step did; event j leads from hist[j]
      to hist[j + 1].  used holds the values that put calls have brought along, and distinct tells whether
      each of them has come along only once. */
  datatype State = State(b: Bucket, threads: map<nat, Thread>, hist: seq<Bucket>, events: seq<Event>, used: set<nat>,
      distinct: bool)

  // ------------------------------------------------------------------ word operations

  /** The first slot marked INVLD in a word, or -1. */
  function SnapGetEmptyIndex(s: Snap): (r: int)
    requires |s.marks| == SLOTS
    ensures -1 <= r < SLOTS
    ensures r >= 0 ==> s.marks[r] == INVLD
    ensures r < 0 ==> forall i :: 0 <= i < SLOTS ==> s.marks[i] != INVLD
  {
    if s.marks[0] == INVLD then 0
    else if s.marks[1] == INVLD then 1
    else if s.marks[2] == INVLD then 2
    else -1
  }

  /** The scan of the marks. */
  method SnapGetEmptyIndexLoop(s: Snap) returns (r: int)
    requires |s.marks| == SLOTS
    ensures r == SnapGetEmptyIndex(s)
  {
    var i := 0;
    while i < SLOTS
      invariant 0 <= i <= SLOTS
      invariant forall j :: 0 <= j < i ==> s.marks[j] != INVLD
    {
      if s.marks[i] == INVLD { return i; }
      i := i + 1;
    }
    r := -1;
  }

  function SnapSetMap(s: Snap, i: nat, m: Mark): Snap
    requires i < |s.marks|
  {
    s.(marks := s.marks[i := m])
  }

  function SnapSetMapAndIncVersion(s: Snap, i: nat, m: Mark): Snap
    requires i < |s.marks|
  {
    Snap(s.version + 1, s.marks[i := m])
  }

  // ------------------------------------------------------------------ the steps

  predicate Shape(b: Bucket)
  {
    |b.snap.marks| == |b.key| == |b.val| == SLOTS
  }

  /** Indices held by a thread are slots. */
  predicate ThreadShape(th: Thread)
  {
    && |th.s.marks| == SLOTS && th.ei < SLOTS
    && match th.pc
       case SearchVal(i) => i < SLOTS && !th.op.Remove?
       case SearchMap(i, _) => i < SLOTS && !th.op.Remove?
       case SearchKey(i, _) => i < SLOTS && !th.op.Remove?
       case SearchChk(i, _) => i < SLOTS && !th.op.Remove?
       case ReadSnap => !th.op.Get?
       case AbortStore => th.op.Put? && th.ei >= 0
       case Cas1 => th.op.Put? && th.ei >= 0
       case StoreVal => th.op.Put? && th.ei >= 0
       case StoreKey => th.op.Put? && th.ei >= 0
       case Cas2 => th.op.Put? && th.ei >= 0
       case RemKey(i) => i < SLOTS && th.op.Remove?
       case RemVal(i) => i < SLOTS && th.op.Remove?
       case RemCas(i, _) => i < SLOTS && th.op.Remove?
       case Done(_) => true
  }

  datatype Out = Out(b: Bucket, th: Thread, ev: Event)

  function Quiet(b: Bucket, th: Thread): Out { Out(b, th, Internal) }

  /** The search has returned a non-zero value. */
  function Found(b: Bucket, th: Thread, v: nat): Out
  {
    match th.op
    case Put(_, _) => Quiet(b, th.(pc := if th.ei >= 0 then AbortStore else Done(0)))
    case _ => Quiet(b, th.(pc := Done(v)))
  }

  /** The search has returned zero. */
  function NotFound(b: Bucket, th: Thread): Out
    requires |th.s.marks| == SLOTS && th.ei < SLOTS
  {
    match th.op
    case Put(_, _) =>
      if th.ei < 0 then
        var e := SnapGetEmptyIndex(th.s);
        Quiet(b, th.(ei := e, pc := if e < 0 then ReadSnap else Cas1))
      else Quiet(b, th.(s := SnapSetMap(th.s, th.ei, INSRT), pc := Cas2))
    case _ => Quiet(b, th.(pc := Done(0)))
  }

  function NextSlot(b: Bucket, th: Thread, i: nat): Out
    requires |th.s.marks| == SLOTS && th.ei < SLOTS
  {
    if i + 1 < SLOTS then Quiet(b, th.(pc := SearchVal(i + 1))) else NotFound(b, th)
  }

  /** One step of thread t. */
  function Step(b: Bucket, t: nat, th: Thread): Out
    requires Shape(b) && ThreadShape(th) && !th.pc.Done?
  {
    match th.pc
    case SearchVal(i) => Quiet(b, th.(pc := SearchMap(i, b.val[i])))
    case SearchMap(i, v) =>
      if b.snap.marks[i] == VALID then Quiet(b, th.(pc := SearchKey(i, v))) else NextSlot(b, th, i)
    case SearchKey(i, v) =>
      if b.key[i] == th.op.k then Quiet(b, th.(pc := SearchChk(i, v))) else NextSlot(b, th, i)
    case SearchChk(i, v) =>
      if b.val[i] == v && v != 0 then Found(b, th, v) else NotFound(b, th)
    case ReadSnap =>
      Quiet(b, th.(s := b.snap, pc := if th.op.Remove? then RemKey(0) else SearchVal(0)))
    case AbortStore => Out(b.(snap := SnapSetMap(b.snap, th.ei, INVLD)), th.(pc := Done(0)), Internal)
    case Cas1 =>
      var s1 := SnapSetMap(th.s, th.ei, INSRT);
      if b.snap == th.s then Out(b.(snap := s1), th.(s := s1, pc := StoreVal), Internal)
      else Quiet(b, th.(ei := -2, pc := ReadSnap))
    case StoreVal => Out(b.(val := b.val[th.ei := th.op.v]), th.(pc := StoreKey), Internal)
    case StoreKey => Out(b.(key := b.key[th.ei := th.op.k]), th.(pc := Cas2), Internal)
    case Cas2 =>
      if b.snap == th.s
      then Out(b.(snap := SnapSetMapAndIncVersion(th.s, th.ei, VALID)), th.(pc := Done(1)),
          Inserted(t, th.op.k, th.op.v))
      else Quiet(b, th.(pc := ReadSnap))
    case RemKey(i) =>
      if b.key[i] == th.op.k && th.s.marks[i] == VALID then Quiet(b, th.(pc := RemVal(i)))
      else Quiet(b, th.(pc := if i + 1 < SLOTS then RemKey(i + 1) else Done(0)))
    case RemVal(i) => Quiet(b, th.(pc := RemCas(i, b.val[i])))
    case RemCas(i, r) =>
      if b.snap == th.s
      then Out(b.(snap := SnapSetMap(th.s, i, INVLD)), th.(pc := Done(r)), Removed(t, th.op.k, r))
      else Quiet(b, th.(pc := ReadSnap))
  }

  const EMPTY: Bucket := Bucket(Snap(0, [INVLD, INVLD, INVLD]), [0, 0, 0], [0, 0, 0])

  function Init(): State { State(EMPTY, map[], [EMPTY], [], {}, true) }

  /** A thread begins an operation; a put brings a value that is not zero. */
  ghost predicate Invoke(st: State, t: nat, op: Op, st': State)
  {
    && (t in st.threads ==> st.threads[t].pc.Done?)
    && (op.Put? ==> op.v != 0)
    && st' == st.(threads := st.threads[t := Thread(op, |st.events|, -2, EMPTY.snap, if op.Get? then SearchVal(0)
        else ReadSnap)],
                  used := if op.Put? then st.used + {op.v} else st.used,
                  distinct := st.distinct && (op.Put? ==> op.v !in st.used))
  }

  function StepThread(st: State, t: nat): State
    requires Shape(st.b) && t in st.threads && ThreadShape(st.threads[t]) && !st.threads[t].pc.Done?
  {
    var out := Step(st.b, t, st.threads[t]);
    State(out.b, st.threads[t := out.th], st.hist + [out.b], st.events + [out.ev], st.used, st.distinct)
  }

  ghost predicate Next(st: State, st': State)
  {
    || (exists t, op :: Invoke(st, t, op, st'))
    || (exists t :: Shape(st.b) && t in st.threads && ThreadShape(st.threads[t]) && !st.threads[t].pc.Done?
                 && st' == StepThread(st, t))
  }

  ghost predicate Run(r: seq<State>)
  {
    |r| > 0 && r[0] == Init() && forall i :: 0 <= i < |r| - 1 ==> Next(r[i], r[i + 1])
  }

  // ------------------------------------------------------------------ the abstract map

  predicate Valid(b: Bucket, i: int)
  {
    Shape(b) && 0 <= i < SLOTS && b.snap.marks[i] == VALID
  }

  /** No key is VALID in two slots, and no VALID slot has value zero. */
  ghost predicate Sound(b: Bucket)
  {
    && Shape(b)
    && (forall i, j :: Valid(b, i) && Valid(b, j) && b.key[i] == b.key[j] ==> i == j)
    && (forall i :: Valid(b, i) ==> b.val[i] != 0)
  }

  /** The map that a bucket stands for. */
  ghost function Abs(b: Bucket): map<nat, nat>
    requires Sound(b)
  {
    map i | 0 <= i < SLOTS && Valid(b, i) :: b.key[i] := b.val[i]
  }

  ghost predicate Present(b: Bucket, k: nat)
  {
    exists i :: Valid(b, i) && b.key[i] == k
  }

  ghost predicate Bound(b: Bucket, k: nat, v: nat)
  {
    exists i :: Valid(b, i) && b.key[i] == k && b.val[i] == v
  }

  /** An event is an atomic operation on the abstract map. */
  ghost predicate Effect(b: Bucket, e: Event, b': Bucket)
  {
    && Sound(b) && Sound(b')
    && match e
       case Internal => Abs(b') == Abs(b)
       case Inserted(_, k, v) => k !in Abs(b) && Abs(b') == Abs(b)[k := v]
       case Removed(_, k, v) => k in Abs(b) && Abs(b)[k] == v && Abs(b') == Abs(b) - {k}
  }

  // ------------------------------------------------------------------ what a thread has seen

  ghost predicate SeenAbsent(hist: seq<Bucket>, start: nat, k: nat)
  {
    exists j :: start <= j < |hist| && !Present(hist[j], k)
  }

  ghost predicate SeenBound(hist: seq<Bucket>, start: nat, k: nat, v: nat)
  {
    exists j :: start <= j < |hist| && Bound(hist[j], k, v)
  }

  ghost predicate SeenPresent(hist: seq<Bucket>, start: nat, k: nat)
  {
    exists j :: start <= j < |hist| && Present(hist[j], k)
  }

  /** The response of an operation is that of an atomic map operation at a moment of its interval.  What
      a successful get and a failed put have seen is claimed only while put values are distinct. */
  ghost predicate Explained(hist: seq<Bucket>, events: seq<Event>, t: nat, th: Thread, distinct: bool)
    requires th.pc.Done?
  {
    var r := th.pc.result;
    match th.op
    case Get(k) =>
      && NoEventSince(events, th.start, t)
      && (if r == 0 then SeenAbsent(hist, th.start, k) else distinct ==> SeenBound(hist, th.start, k, r))
    case Put(k, v) =>
      if r == 0 then NoEventSince(events, th.start, t) && (distinct ==> SeenPresent(hist, th.start, k))
      else r == 1 && OneEventSince(events, th.start, t, Inserted(t, k, v))
    case Remove(k) =>
      if r == 0 then NoEventSince(events, th.start, t) && SeenAbsent(hist, th.start, k)
      else OneEventSince(events, th.start, t, Removed(t, k, r))
  }
}
