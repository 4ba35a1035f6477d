/** The lock-based cache-line table that moves to a bigger table while it is in use.  Each bucket lock
    is free, taken for an update, or turned into RESIZE for good.  Putters and removers run in any
    number; one resizer at a time locks, copies and finally swaps the table.  Each step is one load,
    store or compare-and-swap; the resizer's writes into the table it has not published yet are one
    step per entry. */
module ClhtLbRes {
  import opened Hashing
  import opened History

  /** The owner of an UPDATE lock is an annotation: no step reads it. */
  datatype LockState = FREE | UPDATE(owner: nat) | RESIZE

  datatype Slot = Slot(key: nat, val: nat)

  const EMPTY: Slot := Slot(0, 0)

  /** A chain of buckets, as one sequence of slots, under the lock of its first bucket. */
  datatype Bin = Bin(lock: LockState, slots: seq<Slot>)

  type Table = seq<Bin>

  const NEW_BUCKET: seq<Slot> := [EMPTY, EMPTY, EMPTY]

  function NewTable(n: nat): (t: Table)
    ensures |t| == n && forall b :: 0 <= b < n ==> t[b] == Bin(FREE, NEW_BUCKET)
  {
    seq(n, _ => Bin(FREE, NEW_BUCKET))
  }

  function At(t: Table, b: int, j: int): Slot
  {
    if 0 <= b < |t| && 0 <= j < |t[b].slots| then t[b].slots[j] else EMPTY
  }

  function SetLock(t: Table, b: nat, l: LockState): (t': Table)
    requires b < |t|
    ensures |t'| == |t| && t'[b].lock == l
    ensures forall b' :: 0 <= b' < |t| && b' != b ==> t'[b'] == t[b']
    ensures forall b', j :: At(t', b', j) == At(t, b', j)
  {
    t[b := t[b].(lock := l)]
  }

  function SetSlot(t: Table, b: nat, j: nat, s: Slot): (t': Table)
    requires b < |t| && j < |t[b].slots|
    ensures |t'| == |t| && t'[b].lock == t[b].lock && |t'[b].slots| == |t[b].slots|
    ensures forall b' :: 0 <= b' < |t| && b' != b ==> t'[b'] == t[b']
    ensures forall b', j' :: At(t', b', j') == if b' == b && j' == j then s else At(t, b', j')
  {
    t[b := t[b].(slots := t[b].slots[j := s])]
  }

  /** Links a new bucket with one entry to the end of a chain. */
  function Link(t: Table, b: nat, s: Slot): (t': Table)
    requires b < |t|
    ensures |t'| == |t| && t'[b].lock == t[b].lock
    ensures forall b' :: 0 <= b' < |t| && b' != b ==> t'[b'] == t[b']
    ensures forall b', j' :: At(t', b', j') == if b' == b && j' == |t[b].slots| then s else At(t, b', j')
  {
    t[b := t[b].(slots := t[b].slots + [s, EMPTY, EMPTY])]
  }

  /** The first free slot of a chain, or its length. */
  function FirstFree(slots: seq<Slot>): (j: nat)
    ensures j <= |slots|
    ensures j < |slots| ==> slots[j].key == 0
    ensures forall i :: 0 <= i < j ==> slots[i].key != 0
  {
    if slots == [] || slots[0].key == 0 then 0 else 1 + FirstFree(slots[1..])
  }

  /** clht_put_seq: into the first free slot of the chain, or into a new bucket. */
  function PutSeq(t: Table, key: nat, val: nat): (t': Table)
    requires |t| >= 1
    ensures |t'| == |t|
  {
    var b := BinOf(|t|, key);
    var j := FirstFree(t[b].slots);
    if j < |t[b].slots| then SetSlot(t, b, j, Slot(key, val)) else Link(t, b, Slot(key, val))
  }

  // ------------------------------------------------------------------ threads

  datatype Op = Put(k: nat, v: nat) | Remove(k: nat) | Resize(n: nat)

  /** Where a thread is inside its operation; h is the table that it works on. */
  datatype Pc =
    | LoadHt
    | Peek(h: nat, j: nat)
    | TryLock(h: nat)
    | WaitNew(h: nat)
    | Reload
    | Scan(h: nat, j: nat, empty: int)
    | WriteVal(h: nat, e: nat)
    | WriteKey(h: nat, e: nat)
    | LinkNew(h: nat)
    | ReadVal(h: nat, j: nat)
    | ClearKey(h: nat, j: nat, r: nat)
    | Unlock(h: nat, r: nat)
    | TakeResize(h: nat)
    | LockBin(h: nat, b: nat)
    | Copy(h: nat, b: nat, j: nat)
    | Swap(h: nat)
    | SetNew(h: nat)
    | ReleaseResize
    | Done(result: nat)

  /** start is the number of steps taken before the operation began. */
  datatype Thread = Thread(op: Op, start: nat, pc: Pc)

  datatype Holder = Nobody | Somebody(t: nat)

  /** tables holds every table published so far, the last being h->ht; published are those whose
      table_new is set.  build is the table being filled and copied the bindings it has got.  contents
      is the abstract map; hist records it after every step and events what each step did. */
  datatype State = State(tables: seq<Table>, published: set<nat>, resizer: Holder, build: Table, copied: map<nat, nat>,
                         threads: map<nat, Thread>, contents: map<nat, nat>, hist: seq<map<nat, nat>>,
                             events: seq<Event>)

  function Cur(st: State): int { |st.tables| - 1 }

  predicate IsTable(st: State, h: nat) { h < |st.tables| && |st.tables[h]| >= 1 }

  /** The bin of a key in table h. */
  function Home(st: State, h: nat, k: nat): (b: nat)
    requires IsTable(st, h)
    ensures b < |st.tables[h]|
  {
    BinOf(|st.tables[h]|, k)
  }

  function Cell(st: State, h: nat, k: nat, j: int): Slot
    requires IsTable(st, h)
  {
    At(st.tables[h], Home(st, h, k), j)
  }

  function ChainLength(st: State, h: nat, k: nat): nat
    requires IsTable(st, h)
  {
    |st.tables[h][Home(st, h, k)].slots|
  }

  function LockOf(st: State, h: nat, k: nat): LockState
    requires IsTable(st, h)
  {
    st.tables[h][Home(st, h, k)].lock
  }

  /** Points that only put and remove reach, and indices that stay inside the chain. */
  predicate Shape(st: State, th: Thread)
  {
    match th.pc
    case LoadHt => |st.tables| >= 1
    case Peek(h, j) => !th.op.Resize? && IsTable(st, h) && j <= ChainLength(st, h, th.op.k)
    case TryLock(h) => !th.op.Resize? && IsTable(st, h)
    case WaitNew(h) => !th.op.Resize? && IsTable(st, h)
    case Reload => !th.op.Resize? && |st.tables| >= 1
    case Scan(h, j, e) => !th.op.Resize? && IsTable(st, h) && j <= ChainLength(st, h, th.op.k) && e < j
    case WriteVal(h, e) => th.op.Put? && IsTable(st, h) && e < ChainLength(st, h, th.op.k)
    case WriteKey(h, e) => th.op.Put? && IsTable(st, h) && e < ChainLength(st, h, th.op.k)
    case LinkNew(h) => th.op.Put? && IsTable(st, h)
    case ReadVal(h, j) => th.op.Remove? && IsTable(st, h) && j < ChainLength(st, h, th.op.k)
    case ClearKey(h, j, r) => th.op.Remove? && IsTable(st, h) && j < ChainLength(st, h, th.op.k)
    case Unlock(h, r) => !th.op.Resize? && IsTable(st, h)
    case TakeResize(h) => th.op.Resize? && IsTable(st, h) && th.op.n >= 1
    case LockBin(h, b) => th.op.Resize? && IsTable(st, h) && b <= |st.tables[h]|
    case Copy(h, b, j) => th.op.Resize? && IsTable(st, h) && b < |st.tables[h]| && j <= |st.tables[h][b].slots|
        && |st.build| >= 1
    case Swap(h) => th.op.Resize? && IsTable(st, h)
    case SetNew(h) => th.op.Resize? && IsTable(st, h)
    case ReleaseResize => th.op.Resize?
    case Done(r) => true
  }

  predicate Reading(pc: Pc) { pc.LoadHt? || pc.Peek? || pc.WaitNew? || pc.Reload? || pc.Scan? || pc.ReadVal? }

  predicate Writing(pc: Pc) { pc.WriteVal? || pc.WriteKey? || pc.LinkNew? || pc.ClearKey? }

  predicate Resizing(pc: Pc) { pc.TakeResize? || pc.LockBin? || pc.Copy? || pc.Swap? || pc.SetNew?
        || pc.ReleaseResize? }

  // ------------------------------------------------------------------ the steps

  /** Records a step that has led to st. */
  function Log(st: State, ev: Event): State
  {
    st.(hist := st.hist + [st.contents], events := st.events + [ev])
  }

  /** Thread t goes on to pc. */
  function Goto(st: State, t: nat, pc: Pc): State
    requires t in st.threads
  {
    st.(threads := st.threads[t := st.threads[t].(pc := pc)])
  }

  function SetTable(st: State, h: nat, tab: Table): State
    requires h < |st.tables|
  {
    st.(tables := st.tables[h := tab])
  }

  /** The point that follows a step that only reads.  A put that finds its key, or a remove that does
      not, returns without the lock. */
  function NextPc(st: State, th: Thread): Pc
    requires Shape(st, th)
    requires Reading(th.pc)
  {
    match th.pc
    case LoadHt => if th.op.Resize? then TakeResize(|st.tables| - 1) else Peek(|st.tables| - 1, 0)
    case Peek(h, j) =>
      if j == ChainLength(st, h, th.op.k) then (if th.op.Put? then TryLock(h) else Done(0))
      else if Cell(st, h, th.op.k, j).key == th.op.k then (if th.op.Put? then Done(0) else TryLock(h))
      else Peek(h, j + 1)
    case WaitNew(h) => if h in st.published then Reload else WaitNew(h)
    case Reload => TryLock(|st.tables| - 1)
    case Scan(h, j, e) =>
      if j == ChainLength(st, h, th.op.k) then
        (if th.op.Remove? then Unlock(h, 0) else if e >= 0 then WriteVal(h, e) else LinkNew(h))
      else if Cell(st, h, th.op.k, j).key == th.op.k then (if th.op.Put? then Unlock(h, 0) else ReadVal(h, j))
      else Scan(h, j + 1, if e < 0 && Cell(st, h, th.op.k, j).key == 0 then j else e)
    case ReadVal(h, j) => ClearKey(h, j, Cell(st, h, th.op.k, j).val)
  }

  /** lock_acq_chk_resize: one compare-and-swap. */
  function StepTryLock(st: State, t: nat, th: Thread): State
    requires t in st.threads && Shape(st, th) && th.pc.TryLock?
  {
    var h := th.pc.h;
    match LockOf(st, h, th.op.k)
    case FREE => Log(Goto(SetTable(st, h, SetLock(st.tables[h], Home(st, h, th.op.k), UPDATE(t))), t, Scan(h, 0, -1)),
        Internal)
    case UPDATE(_) => Log(st, Internal)
    case RESIZE => Log(Goto(st, t, WaitNew(h)), Internal)
  }

  function StepUnlock(st: State, t: nat, th: Thread): State
    requires t in st.threads && Shape(st, th) && th.pc.Unlock?
  {
    var h := th.pc.h;
    Log(Goto(SetTable(st, h, SetLock(st.tables[h], Home(st, h, th.op.k), FREE)), t, Done(th.pc.r)), Internal)
  }

  /** The stores of a put and a remove.  Storing the key, linking the new bucket and clearing the key
      are the moments at which the abstract map changes. */
  function StepWrite(st: State, t: nat, th: Thread): State
    requires t in st.threads && Shape(st, th)
    requires Writing(th.pc)
  {
    var h, k := th.pc.h, th.op.k;
    var tab, b := st.tables[h], Home(st, h, k);
    match th.pc
    case WriteVal(_, e) =>
      Log(Goto(SetTable(st, h, SetSlot(tab, b, e, At(tab, b, e).(val := th.op.v))), t, WriteKey(h, e)), Internal)
    case WriteKey(_, e) =>
      Log(Goto(SetTable(st, h, SetSlot(tab, b, e, At(tab, b, e).(key := k))).(contents := st.contents[k := th.op.v]),
          t, Unlock(h, 1)),
          Inserted(t, k, th.op.v))
    case LinkNew(_) =>
      Log(Goto(SetTable(st, h, Link(tab, b, Slot(k, th.op.v))).(contents := st.contents[k := th.op.v]), t,
          Unlock(h, 1)),
          Inserted(t, k, th.op.v))
    case ClearKey(_, j, r) =>
      Log(Goto(SetTable(st, h, SetSlot(tab, b, j, At(tab, b, j).(key := 0))).(contents := st.contents - {k}), t,
          Unlock(h, r)),
          Removed(t, k, r))
  }

  /** ht_resize_pes and bucket_cpy. */
  function StepResize(st: State, t: nat, th: Thread): State
    requires t in st.threads && Shape(st, th)
    requires Resizing(th.pc)
  {
    match th.pc
    case TakeResize(h) =>
      if st.resizer.Somebody? then Log(Goto(st, t, Done(0)), Internal)
      else Log(Goto(st.(resizer := Somebody(t), build := NewTable(th.op.n), copied := map[]), t, LockBin(h, 0)),
          Internal)
    case LockBin(h, b) =>
      if b == |st.tables[h]| then Log(Goto(st, t, Swap(h)), Internal)
      else (match st.tables[h][b].lock
            case FREE => Log(Goto(SetTable(st, h, SetLock(st.tables[h], b, RESIZE)), t, Copy(h, b, 0)), Internal)
            case UPDATE(_) => Log(st, Internal)
            case RESIZE => Log(Goto(st, t, LockBin(h, b + 1)), Internal))
    case Copy(h, b, j) =>
      if j == |st.tables[h][b].slots| then Log(Goto(st, t, LockBin(h, b + 1)), Internal)
      else
        var s := At(st.tables[h], b, j);
        if s.key == 0 then Log(Goto(st, t, Copy(h, b, j + 1)), Internal)
        else Log(Goto(st.(build := PutSeq(st.build, s.key, s.val), copied := st.copied[s.key := s.val]), t,
            Copy(h, b, j + 1)), Internal)
    case Swap(h) => Log(Goto(st.(tables := st.tables + [st.build]), t, SetNew(h)), Internal)
    case SetNew(h) => Log(Goto(st.(published := st.published + {h}), t, ReleaseResize), Internal)
    case ReleaseResize => Log(Goto(st.(resizer := Nobody), t, Done(1)), Internal)
  }

  /** One step of thread t. */
  function Step(st: State, t: nat): State
    requires t in st.threads && Shape(st, st.threads[t]) && !st.threads[t].pc.Done?
  {
    var th := st.threads[t];
    if Reading(th.pc) then Log(Goto(st, t, NextPc(st, th)), Internal)
    else if th.pc.TryLock? then StepTryLock(st, t, th)
    else if th.pc.Unlock? then StepUnlock(st, t, th)
    else if Writing(th.pc) then StepWrite(st, t, th)
    else StepResize(st, t, th)
  }

  predicate GoodOp(op: Op)
  {
    match op
    case Put(k, v) => k != 0 && v != 0
    case Remove(k) => k != 0
    case Resize(n) => n >= 1
  }

  /** A thread begins an operation.  Keys and values are not zero and a table has a bucket. */
  ghost predicate Invoke(st: State, t: nat, op: Op, st': State)
  {
    && (t in st.threads ==> st.threads[t].pc.Done?)
    && GoodOp(op)
    && st' == st.(threads := st.threads[t := Thread(op, |st.events|, LoadHt)])
  }

  /** A resizer that gets the resize lock has read h->ht after the last resize. */
  predicate FreshResizer(st: State, th: Thread)
  {
    th.pc.TakeResize? && st.resizer.Nobody? ==> th.pc.h == Cur(st)
  }

  ghost predicate Next(st: State, st': State)
  {
    || (exists t, op :: Invoke(st, t, op, st'))
    || (exists t :: t in st.threads && Shape(st, st.threads[t]) && !st.threads[t].pc.Done? && FreshResizer(st,
        st.threads[t])
                 && st' == Step(st, t))
  }

  /** A fresh table of n buckets, used by nobody. */
  ghost predicate Init(st: State)
  {
    && |st.tables| == 1 && |st.tables[0]| >= 1 && st.tables[0] == NewTable(|st.tables[0]|)
    && st.published == {} && st.resizer == Nobody && st.threads == map[]
    && st.contents == map[] && st.hist == [map[]] && st.events == []
  }

  ghost predicate Run(r: seq<State>)
  {
    |r| > 0 && Init(r[0]) && forall i :: 0 <= i < |r| - 1 ==> Next(r[i], r[i + 1])
  }
}
