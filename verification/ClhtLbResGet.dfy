/** The get of the resizing lock-based table.  It only reads, and takes no lock, so that it is described beside a run of
    the updaters and resizers: each of its loads sees one state of the run.  The table that it reads may be an old one
    by then, with every bucket in RESIZE. */
module ClhtLbResGet {
  import opened Hashing
  import opened ClhtLbRes
  import opened ClhtLbResProof

  /** The next load of a get: h->ht, which the caller reads and hands over, the link to the bucket that starts at slot
      j, the value at slot j, its key, or its value once more.  v is the value that was read first. */
  datatype Reader =
    | Start
    | NextBucket(h: nat, j: nat)
    | FirstVal(h: nat, j: nat)
    | KeyOf(h: nat, j: nat, v: nat)
    | SecondVal(h: nat, j: nat, v: nat)
    | Returned(result: nat)

  function CellOf(st: State, h: nat, k: nat, j: int): Slot { if IsTable(st, h) then Cell(st, h, k, j) else EMPTY }

  function LengthOf(st: State, h: nat, k: nat): nat { if IsTable(st, h) then ChainLength(st, h, k) else 0 }

  function After(h: nat, j: nat): Reader { if j % 3 == 0 then NextBucket(h, j) else FirstVal(h, j) }

  /** One load of clht_get. */
  function Load(st: State, k: nat, p: Reader): Reader
  {
    match p
    case Start => FirstVal(if |st.tables| >= 1 then |st.tables| - 1 else 0, 0)
    case NextBucket(h, j) => if j >= LengthOf(st, h, k) then Returned(0) else FirstVal(h, j)
    case FirstVal(h, j) => KeyOf(h, j, CellOf(st, h, k, j).val)
    case KeyOf(h, j, v) => if CellOf(st, h, k, j).key == k then SecondVal(h, j, v) else After(h, j + 1)
    case SecondVal(h, j, v) => Returned(if CellOf(st, h, k, j).val == v then v else 0)
    case Returned(_) => p
  }

  /** A get of k in the run: its n-th load sees state number at[n], and takes it from ps[n] to ps[n + 1]. */
  ghost predicate Gets(r: seq<State>, k: nat, at: seq<nat>, ps: seq<Reader>)
  {
    && |at| > 0 && |ps| == |at| + 1 && ps[0] == Start
    && (forall n :: 0 <= n < |at| ==> at[n] < |r| && ps[n + 1] == Load(r[at[n]], k, ps[n]))
    && (forall n, n' :: 0 <= n <= n' < |at| ==> at[n] <= at[n'])
  }

  // ------------------------------------------------------------------ what a step does to the current table

  /** A put stores its value, with or before its key. */
  ghost predicate Stores(st: State, st': State, v: nat)
  {
    exists t :: Storing(st, t, v) && st' == Step(st, t)
  }

  predicate Storing(st: State, t: nat, v: nat)
  {
    && t in st.threads && Shape(st, st.threads[t])
    && (st.threads[t].pc.WriteVal? || st.threads[t].pc.LinkNew?)
    && st.threads[t].op == Put(st.threads[t].op.k, v)
  }

  /** From table t to t': a key is only taken away with its binding, and a value changes only in a free slot, by a
      store of the new one. */
  ghost predicate CellsChange(st: State, st': State, t: Table, t': Table)
  {
    && |t'| == |t|
    && (forall b, j :: At(t, b, j).key != 0 && At(t', b, j).key != At(t, b, j).key ==>
          At(t, b, j).key !in st'.contents)
    && (forall b, j :: At(t', b, j).val != At(t, b, j).val ==>
          At(t, b, j).key == 0 && Stores(st, st', At(t', b, j).val))
  }

  lemma SameCellsChange(st: State, st': State, t: Table, t': Table)
    requires SameCells(t, t')
    ensures CellsChange(st, st', t, t')
  {
    SameCellsAt(t, t');
  }

  /** What a step may do to the tables: write into the current one, or publish the next. */
  ghost predicate TablesStep(st: State, st': State)
  {
    && |st.tables| >= 1
    && if |st'.tables| == |st.tables| then
         var c := |st.tables| - 1;
         (forall h :: 0 <= h < c ==> SameCells(st.tables[h], st'.tables[h]))
         && CellsChange(st, st', st.tables[c], st'.tables[c])
       else
         st'.tables == st.tables + [st.build]
  }

  lemma WriterChanges(st: State, t: nat)
    requires StateOk(st) && t in st.threads && Writing(st.threads[t].pc)
    ensures Shape(st, st.threads[t]) && TablesStep(st, Step(st, t))
  {
    hide StateOk, Step, BinOf, Home, NextPc;
    WriterIsCurrent(st, t);
    ThreadIsOk(st, t);
    StepKinds(st, t);
    var st' := Step(st, t);
    var th := st.threads[t];
    WriterStores(st, t, st');
    hide ThreadOk, Shape;
  }

  lemma SetChanges(st: State, st': State, t: Table, b: nat, j: nat, s: Slot)
    requires b < |t| && j < |t[b].slots|
    requires At(t, b, j).key != 0 && s.key != At(t, b, j).key ==> At(t, b, j).key !in st'.contents
    requires s.val != At(t, b, j).val ==> At(t, b, j).key == 0 && Stores(st, st', s.val)
    ensures CellsChange(st, st', t, SetSlot(t, b, j, s))
  {
    hide SetSlot, Stores;
  }

  lemma LinkChanges(st: State, st': State, t: Table, b: nat, s: Slot)
    requires b < |t| && Stores(st, st', s.val)
    ensures CellsChange(st, st', t, Link(t, b, s))
  {
    hide Link, Stores;
  }

  lemma WriterStores(st: State, t: nat, st': State)
    requires |st.tables| >= 1 && t in st.threads && Writing(st.threads[t].pc) && ThreadOk(st, t)
    requires st.threads[t].pc.h == Cur(st) && st' == StepWrite(st, t, st.threads[t]) == Step(st, t)
    ensures TablesStep(st, st')
  {
    hide Step, BinOf, Home, SetSlot, Link, CellsChange;
    var th := st.threads[t];
    var tab, b, k := st.tables[th.pc.h], Home(st, th.pc.h, th.op.k), th.op.k;
    assert th.pc.WriteVal? || th.pc.LinkNew? ==> Storing(st, t, th.op.v);
    match th.pc
    case WriteVal(h, e) =>
      assert Cell(st, h, k, e) == At(tab, b, e);
      SetChanges(st, st', tab, b, e, At(tab, b, e).(val := th.op.v));
    case WriteKey(h, e) =>
      assert Cell(st, h, k, e) == At(tab, b, e);
      SetChanges(st, st', tab, b, e, At(tab, b, e).(key := k));
    case LinkNew(h) =>
      LinkChanges(st, st', tab, b, Slot(k, th.op.v));
    case ClearKey(h, e, v) =>
      assert Cell(st, h, k, e) == At(tab, b, e);
      SetChanges(st, st', tab, b, e, At(tab, b, e).(key := 0));
  }

  lemma LockerChanges(st: State, t: nat)
    requires StateOk(st) && t in st.threads && Shape(st, st.threads[t])
    requires !st.threads[t].pc.Done? && !Writing(st.threads[t].pc)
    ensures TablesStep(st, Step(st, t))
  {
    hide StateOk, Step, BinOf, Home, NextPc, CellsChange, ThreadOk, PutSeq, At;
    ThreadIsOk(st, t);
    StepKinds(st, t);
    var st' := Step(st, t);
    if |st'.tables| == |st.tables| {
      SameCellsChange(st, st', st.tables[|st.tables| - 1], st'.tables[|st.tables| - 1]);
    }
  }

  lemma NextTables(r: seq<State>, i: nat)
    requires Run(r) && i + 1 < |r|
    ensures TablesStep(r[i], r[i + 1])
  {
    hide StateOk, CellsChange, Step;
    RunOk(r, i);
    var st, st' := r[i], r[i + 1];
    assert Next(st, st');
    hide Run;
    if t, op :| Invoke(st, t, op, st') {
      InvokeChanges(st, st');
    } else {
      var t :| t in st.threads && Shape(st, st.threads[t]) && !st.threads[t].pc.Done? && FreshResizer(st, st.threads[t])
               && st' == Step(st, t);
      if Writing(st.threads[t].pc) { WriterChanges(st, t); } else { LockerChanges(st, t); }
    }
  }

  lemma InvokeChanges(st: State, st': State)
    requires StateOk(st) && st'.tables == st.tables
    ensures TablesStep(st, st')
  {
    hide CellsChange;
    SameCellsChange(st, st', st.tables[|st.tables| - 1], st'.tables[|st.tables| - 1]);
  }

  // ------------------------------------------------------------------ an old table shows what the current one held

  /** Table h of a state as it is, or, once it is no longer current, for good. */
  lemma OldTableKept(r: seq<State>, i: nat, h: nat)
    requires Run(r) && i + 1 < |r| && h < |r[i].tables| && h < Cur(r[i + 1])
    ensures |r[i].tables| <= |r[i + 1].tables| && SameCells(r[i].tables[h], r[i + 1].tables[h])
  {
    hide CellsChange, Run;
    NextTables(r, i);
  }

  /** The last moment up to b at which the table that was current at a is still current. */
  lemma {:induction false} LastCurrent(r: seq<State>, a: nat, b: nat) returns (e: nat)
    requires Run(r) && a <= b < |r|
    ensures a <= e <= b && |r[e].tables| == |r[a].tables| >= 1
    ensures forall i :: a <= i <= e ==> Cur(r[i]) == Cur(r[a])
    ensures forall i :: e <= i <= b ==>
              |r[a].tables| <= |r[i].tables| && SameCells(r[e].tables[Cur(r[a])], r[i].tables[Cur(r[a])])
    ensures e < b ==> Cur(r[b]) > Cur(r[a])
    decreases b
  {
    hide Run, SameCells;
    RunOk(r, a);
    HasTables(r[a]);
    e := a;
    SameCellsRefl(r[a].tables[Cur(r[a])]);
    if a < b {
      e := LastCurrent(r, a, b - 1);
      TablesGrow(r, b - 1);
      if Cur(r[b]) == Cur(r[a]) {
        e := b;
        SameCellsRefl(r[b].tables[Cur(r[a])]);
      } else {
        OldTableKept(r, b - 1, Cur(r[a]));
        SameCellsTrans(r[e].tables[Cur(r[a])], r[b - 1].tables[Cur(r[a])], r[b].tables[Cur(r[a])]);
      }
    }
  }

  lemma HasTables(st: State)
    requires StateOk(st)
    ensures |st.tables| >= 1 && (forall h :: 0 <= h < |st.tables| ==> |st.tables[h]| >= 1)
    ensures Represents(st.tables[|st.tables| - 1], st.contents)
  {
    hide Represents, LocksOk, ResizerOk, ThreadsOk;
  }

  lemma TablesGrow(r: seq<State>, i: nat)
    requires Run(r) && i + 1 < |r|
    ensures |r[i].tables| <= |r[i + 1].tables|
  {
    hide CellsChange, Run, SameCells;
    NextTables(r, i);
  }

  lemma SameCellsRefl(t: Table)
    ensures SameCells(t, t)
  {
  }

  lemma SameCellsTrans(t: Table, t': Table, t'': Table)
    requires SameCells(t, t') && SameCells(t', t'')
    ensures SameCells(t, t'')
  {
  }

  /** A get reads one table. */
  lemma {:induction false} OneTable(r: seq<State>, k: nat, at: seq<nat>, ps: seq<Reader>, n: nat)
    requires Gets(r, k, at, ps) && |r[at[0]].tables| >= 1 && 1 <= n <= |at|
    ensures match ps[n]
            case Start => false
            case NextBucket(h, _) => h == Cur(r[at[0]])
            case FirstVal(h, _) => h == Cur(r[at[0]])
            case KeyOf(h, _, _) => h == Cur(r[at[0]])
            case SecondVal(h, _, _) => h == Cur(r[at[0]])
            case Returned(_) => true
  {
    hide CellOf, LengthOf;
    assert ps[n] == Load(r[at[n - 1]], k, ps[n - 1]);
    if n > 1 { OneTable(r, k, at, ps, n - 1); }
  }

  /** Its loads might as well have seen an earlier state, as long as the table was the same. */
  lemma LoadsTheSame(st: State, st': State, k: nat, p: Reader, h: nat)
    requires h < |st.tables| && h < |st'.tables| && SameCells(st.tables[h], st'.tables[h])
    requires match p
             case Start => false
             case NextBucket(h', _) => h' == h
             case FirstVal(h', _) => h' == h
             case KeyOf(h', _, _) => h' == h
             case SecondVal(h', _, _) => h' == h
             case Returned(_) => true
    ensures Load(st, k, p) == Load(st', k, p)
  {
    hide BinOf, After;
    SameCellsAt(st.tables[h], st'.tables[h]);
  }

  /** The loads of a get, moved back to the last moment at which its table was current. */
  function Moved(at: seq<nat>, e: nat): (at': seq<nat>)
    ensures |at'| == |at| && forall n :: 0 <= n < |at| ==> at'[n] == if at[n] <= e then at[n] else e
  {
    seq(|at|, n requires 0 <= n < |at| => if at[n] <= e then at[n] else e)
  }

  /** A get that reads an old table gets the same values as one that has read them all while the table was current. */
  lemma GetsFromCurrent(r: seq<State>, k: nat, at: seq<nat>, ps: seq<Reader>) returns (e: nat)
    requires Run(r) && Gets(r, k, at, ps)
    ensures at[0] <= e <= at[|at| - 1] && |r[at[0]].tables| >= 1
    ensures forall i :: at[0] <= i <= e ==> Cur(r[i]) == Cur(r[at[0]])
    ensures Gets(r, k, Moved(at, e), ps)
  {
    hide Run, Load, SameCells;
    e := LastCurrent(r, at[0], at[|at| - 1]);
    var at' := Moved(at, e);
    var h := Cur(r[at[0]]);
    forall n | 0 <= n < |at| ensures ps[n + 1] == Load(r[at'[n]], k, ps[n]) {
      if at[n] > e {
        assert n > 0 && at[n] <= at[|at| - 1];
        OneTable(r, k, at, ps, n);
        LoadsTheSame(r[e], r[at[n]], k, ps[n], h);
      }
    }
  }

  // ------------------------------------------------------------------ a get that finds nothing

  /** Between the two moments the table is the current one and the map binds k. */
  ghost predicate BoundAlong(r: seq<State>, a: nat, e: nat, k: nat)
  {
    && a <= e < |r| && |r[a].tables| >= 1
    && forall i :: a <= i <= e ==> |r[i].tables| == |r[a].tables| && k in r[i].contents
  }

  /** A key that stays bound stays in its slot, with its value. */
  lemma {:induction false} Stays(r: seq<State>, a: nat, e: nat, k: nat, j: nat, i: nat)
    requires Run(r) && BoundAlong(r, a, e, k) && k != 0 && a <= i <= e
    requires CellOf(r[a], Cur(r[a]), k, j).key == k
    ensures CellOf(r[i], Cur(r[a]), k, j) == CellOf(r[a], Cur(r[a]), k, j)
    decreases i
  {
    hide Run, CellOf;
    if a < i {
      Stays(r, a, e, k, j, i - 1);
      StaysOne(r, i - 1, k, j);
    }
  }

  lemma CurrentCell(r: seq<State>, i: nat, k: nat, j: int)
    requires Run(r) && i < |r|
    ensures |r[i].tables| >= 1 && |r[i].tables[Cur(r[i])]| >= 1
    ensures CellOf(r[i], Cur(r[i]), k, j) == At(r[i].tables[Cur(r[i])], BinOf(|r[i].tables[Cur(r[i])]|, k), j)
  {
    hide Run, BinOf, Represents;
    RunOk(r, i);
    HasTables(r[i]);
  }

  lemma StaysOne(r: seq<State>, i: nat, k: nat, j: nat)
    requires Run(r) && i + 1 < |r| && k != 0 && k in r[i + 1].contents && |r[i + 1].tables| == |r[i].tables| >= 1
    requires CellOf(r[i], Cur(r[i]), k, j).key == k
    ensures CellOf(r[i + 1], Cur(r[i]), k, j) == CellOf(r[i], Cur(r[i]), k, j)
  {
    hide Run, BinOf, CellOf, At, Stores;
    NextTables(r, i);
    CurrentCell(r, i, k, j);
    CurrentCell(r, i + 1, k, j);
  }

  /** Where the key is. */
  lemma BoundHasCell(r: seq<State>, i: nat, k: nat) returns (j: nat)
    requires Run(r) && i < |r| && k in r[i].contents
    ensures k != 0 && |r[i].tables| >= 1 && CellOf(r[i], Cur(r[i]), k, j) == Slot(k, r[i].contents[k])
  {
    hide Run, BinOf;
    RunOk(r, i);
    HasTables(r[i]);
    var t := r[i].tables[Cur(r[i])];
    j :| At(t, BinOf(|t|, k), j).key == k;
  }

  /** The current table shows what the map binds, in one slot. */
  lemma CellIsBinding(r: seq<State>, i: nat, k: nat, j: nat)
    requires Run(r) && i < |r| && k != 0 && |r[i].tables| >= 1 && CellOf(r[i], Cur(r[i]), k, j).key == k
    ensures k in r[i].contents && r[i].contents[k] == CellOf(r[i], Cur(r[i]), k, j).val
    ensures forall j': nat :: CellOf(r[i], Cur(r[i]), k, j').key == k ==> j' == j
  {
    hide Run, BinOf;
    RunOk(r, i);
    HasTables(r[i]);
  }

  /** A get has not passed slot j, and what it has read there is w. */
  predicate Approaches(p: Reader, h: nat, j: nat, w: nat)
  {
    match p
    case Start => true
    case NextBucket(h', j') => h' == h && j' <= j
    case FirstVal(h', j') => h' == h && j' <= j
    case KeyOf(h', j', v) => h' == h && j' <= j && (j' == j ==> v == w)
    case SecondVal(h', j', v) => h' == h && j' == j && v == w
    case Returned(x) => x == w
  }

  lemma ApproachesStep(st: State, k: nat, p: Reader, j: nat, w: nat)
    requires |st.tables| >= 1 && k != 0 && Approaches(p, Cur(st), j, w) && CellOf(st, Cur(st), k, j) == Slot(k, w)
    requires forall j': nat :: CellOf(st, Cur(st), k, j').key == k ==> j' == j
    ensures Approaches(Load(st, k, p), Cur(st), j, w)
  {
    hide BinOf;
  }

  lemma {:induction false} FindsIt(r: seq<State>, k: nat, at: seq<nat>, ps: seq<Reader>, e: nat, j: nat, w: nat, n: nat)
    requires Run(r) && Gets(r, k, at, ps) && k != 0 && n <= |at| && at[|at| - 1] <= e && BoundAlong(r, at[0], e, k)
    requires CellOf(r[at[0]], Cur(r[at[0]]), k, j) == Slot(k, w)
    ensures Approaches(ps[n], Cur(r[at[0]]), j, w)
  {
    hide Run, CellOf, Approaches, Load;
    if n == 0 {
      StartApproaches(ps[0], Cur(r[at[0]]), j, w);
    } else {
      FindsIt(r, k, at, ps, e, j, w, n - 1);
      var i := at[n - 1];
      assert at[0] <= i <= at[|at| - 1];
      Stays(r, at[0], e, k, j, i);
      SameCur(r, at[0], i);
      CellIsBinding(r, i, k, j);
      ApproachesStep(r[i], k, ps[n - 1], j, w);
    }
  }

  lemma StartApproaches(p: Reader, h: nat, j: nat, w: nat)
    requires p == Start
    ensures Approaches(p, h, j, w)
  {
  }

  lemma SameCur(r: seq<State>, a: nat, i: nat)
    requires a < |r| && i < |r| && |r[a].tables| == |r[i].tables|
    ensures Cur(r[i]) == Cur(r[a])
  {
  }

  lemma NoValueIsZero(r: seq<State>, i: nat, k: nat)
    requires Run(r) && i < |r| && k in r[i].contents
    ensures r[i].contents[k] != 0
  {
    hide Run, Represents, TablesOk, LocksOk, ResizerOk, ThreadsOk;
    RunOk(r, i);
  }

  /** A get that returns zero has seen a moment at which its key was not bound. */
  lemma ZeroMeansAbsent(r: seq<State>, k: nat, at: seq<nat>, ps: seq<Reader>, e: nat) returns (i: nat)
    requires Run(r) && Gets(r, k, at, ps) && k != 0 && ps[|at|] == Returned(0) && at[|at| - 1] <= e < |r|
    requires |r[at[0]].tables| >= 1 && forall i :: at[0] <= i <= e ==> Cur(r[i]) == Cur(r[at[0]])
    ensures at[0] <= i <= e && k !in r[i].contents
  {
    hide Run, Gets, CellOf;
    Ordered(r, k, at, ps);
    if !(exists i :: at[0] <= i <= e && k !in r[i].contents) {
      assert BoundAlong(r, at[0], e, k);
      var j := BoundHasCell(r, at[0], k);
      NoValueIsZero(r, at[0], k);
      FindsIt(r, k, at, ps, e, j, r[at[0]].contents[k], |at|);
      assert false;
    }
    i :| at[0] <= i <= e && k !in r[i].contents;
  }

  lemma Ordered(r: seq<State>, k: nat, at: seq<nat>, ps: seq<Reader>)
    requires Gets(r, k, at, ps)
    ensures |at| > 0 && |ps| == |at| + 1 && at[0] <= at[|at| - 1] < |r|
  {
    hide Load;
  }

  // ------------------------------------------------------------------ a get that finds a value

  ghost predicate StoredBefore(r: seq<State>, i: nat, v: nat)
  {
    exists s: nat :: s < i && s + 1 < |r| && Stores(r[s], r[s + 1], v)
  }

  /** No two puts of the run store v. */
  ghost predicate StoredOnce(r: seq<State>, v: nat)
  {
    forall s: nat, s': nat :: s < s' && s' + 1 < |r| && Stores(r[s], r[s + 1], v) ==> !Stores(r[s'], r[s' + 1], v)
  }

  ghost predicate ValuesStored(r: seq<State>, i: nat, t: Table)
  {
    forall b, j :: At(t, b, j).val != 0 ==> StoredBefore(r, i, At(t, b, j).val)
  }

  lemma StoredLater(r: seq<State>, i: nat, i': nat, v: nat)
    requires StoredBefore(r, i, v) && i <= i'
    ensures StoredBefore(r, i', v)
  {
    hide Stores;
  }

  lemma ValuesStoredLater(r: seq<State>, i: nat, t: Table)
    requires ValuesStored(r, i, t)
    ensures ValuesStored(r, i + 1, t)
  {
    hide StoredBefore;
    forall b, j | At(t, b, j).val != 0 ensures StoredBefore(r, i + 1, At(t, b, j).val) {
      StoredLater(r, i, i + 1, At(t, b, j).val);
    }
  }

  lemma ValuesAfterChange(r: seq<State>, i: nat, t: Table, t': Table)
    requires i + 1 < |r| && ValuesStored(r, i, t) && CellsChange(r[i], r[i + 1], t, t')
    ensures ValuesStored(r, i + 1, t')
  {
    hide Stores;
    forall b, j | At(t', b, j).val != 0 ensures StoredBefore(r, i + 1, At(t', b, j).val) {
      if At(t', b, j).val == At(t, b, j).val { StoredLater(r, i, i + 1, At(t, b, j).val); }
    }
  }

  lemma ValuesAfterPut(r: seq<State>, i: nat, t: Table, k: nat, v: nat)
    requires |t| >= 1 && ValuesStored(r, i, t) && (v != 0 ==> StoredBefore(r, i, v))
    ensures ValuesStored(r, i, PutSeq(t, k, v))
  {
    hide BinOf, SetSlot, Link, StoredBefore;
  }

  /** The entry at (b, j) of the current table goes into the one that is being filled. */
  predicate Copies(st: State, st': State, b: int, j: int)
  {
    |st.tables| >= 1 && |st.build| >= 1
    && var s := At(st.tables[|st.tables| - 1], b, j); st'.build == PutSeq(st.build, s.key, s.val)
  }

  /** While there is a resizer, the table that it fills is a new one, or what it was, or has got one more entry. */
  ghost predicate BuildsOn(st: State, st': State)
  {
    && (|st'.tables| > |st.tables| ==> st.resizer.Somebody?)
    && (st'.resizer.Somebody? ==>
          || (exists n :: st'.build == NewTable(n))
          || (st.resizer.Somebody? && (st'.build == st.build || exists b, j :: Copies(st, st', b, j))))
  }

  lemma BuildStep(st: State, t: nat)
    requires StateOk(st) && t in st.threads && Shape(st, st.threads[t]) && !st.threads[t].pc.Done?
    ensures BuildsOn(st, Step(st, t))
  {
    hide StateOk, Step, BinOf, Home, NextPc, PutSeq, ThreadOk, SetSlot, Link, SetLock, NewTable, At, Copies;
    ThreadIsOk(st, t);
    HasTables(st);
    StepKinds(st, t);
    HolderIs(st, t);
    var th := st.threads[t];
    if th.pc.Copy? && th.pc.j < |st.tables[th.pc.h][th.pc.b].slots| { CopyCopies(st, t, th); }
  }

  lemma CopyCopies(st: State, t: nat, th: Thread)
    requires t in st.threads && th == st.threads[t] && Shape(st, th) && th.pc.Copy? && th.pc.h == |st.tables| - 1
    requires th.pc.j < |st.tables[th.pc.h][th.pc.b].slots|
    ensures var st' := StepResize(st, t, th); st'.build == st.build || Copies(st, st', th.pc.b, th.pc.j)
  {
    hide PutSeq, At;
  }

  lemma HolderIs(st: State, t: nat)
    requires StateOk(st) && t in st.threads && Shape(st, st.threads[t])
    ensures Active(st.threads[t].pc) ==> st.resizer == Somebody(t)
    ensures Migrating(st.threads[t].pc) ==> st.threads[t].pc.h == |st.tables| - 1
  {
    hide Represents, LocksOk, ThreadsOk, CopyOk, BuildOk;
  }

  /** Every value in the current table, and in the one being filled, has been stored by a put. */
  ghost predicate AllStored(r: seq<State>, i: nat)
    requires i < |r|
  {
    && |r[i].tables| >= 1 && ValuesStored(r, i, r[i].tables[|r[i].tables| - 1])
    && (r[i].resizer.Somebody? ==> ValuesStored(r, i, r[i].build))
  }

  lemma NextBuilds(r: seq<State>, i: nat)
    requires Run(r) && i + 1 < |r|
    ensures BuildsOn(r[i], r[i + 1])
  {
    hide StateOk, Step, Copies, NewTable;
    RunOk(r, i);
    var st, st' := r[i], r[i + 1];
    assert Next(st, st');
    hide Run;
    if t, op :| Invoke(st, t, op, st') {
    } else {
      var t :| t in st.threads && Shape(st, st.threads[t]) && !st.threads[t].pc.Done? && FreshResizer(st, st.threads[t])
               && st' == Step(st, t);
      BuildStep(st, t);
    }
  }

  lemma NewTableStored(r: seq<State>, i: nat, n: nat)
    ensures ValuesStored(r, i, NewTable(n))
  {
    hide StoredBefore;
  }

  lemma FreshStart(r: seq<State>)
    requires Run(r)
    ensures AllStored(r, 0)
  {
    NewTableStored(r, 0, |r[0].tables[0]|);
    hide ValuesStored;
  }

  lemma BuildStored(r: seq<State>, i: nat)
    requires Run(r) && i + 1 < |r| && AllStored(r, i) && r[i + 1].resizer.Somebody?
    ensures ValuesStored(r, i + 1, r[i + 1].build)
  {
    hide Run, ValuesStored, NewTable;
    NextBuilds(r, i);
    var st, st' := r[i], r[i + 1];
    if n :| st'.build == NewTable(n) {
      NewTableStored(r, i + 1, n);
    } else if st'.build == st.build {
      ValuesStoredLater(r, i, st.build);
    } else {
      var b, j :| Copies(st, st', b, j);
      CopyStored(r, i, b, j);
    }
  }

  lemma CopyStored(r: seq<State>, i: nat, b: int, j: int)
    requires i + 1 < |r| && AllStored(r, i) && r[i].resizer.Somebody? && Copies(r[i], r[i + 1], b, j)
    ensures ValuesStored(r, i + 1, r[i + 1].build)
  {
    hide StoredBefore, PutSeq;
    var t := r[i].tables[|r[i].tables| - 1];
    var s := At(t, b, j);
    ValuesAfterPut(r, i, r[i].build, s.key, s.val);
    ValuesStoredLater(r, i, r[i + 1].build);
  }

  lemma CurrentStored(r: seq<State>, i: nat)
    requires Run(r) && i + 1 < |r| && AllStored(r, i)
    ensures |r[i + 1].tables| >= 1 && ValuesStored(r, i + 1, r[i + 1].tables[|r[i + 1].tables| - 1])
  {
    hide Run, ValuesStored, CellsChange, SameCells, Copies, NewTable;
    NextTables(r, i);
    if |r[i + 1].tables| == |r[i].tables| {
      ValuesAfterChange(r, i, r[i].tables[|r[i].tables| - 1], r[i + 1].tables[|r[i].tables| - 1]);
    } else {
      SwapIsResizers(r, i);
      ValuesStoredLater(r, i, r[i].build);
    }
  }

  lemma SwapIsResizers(r: seq<State>, i: nat)
    requires Run(r) && i + 1 < |r| && |r[i + 1].tables| > |r[i].tables|
    ensures r[i].resizer.Somebody?
  {
    hide Run, Copies, NewTable;
    NextBuilds(r, i);
  }

  lemma {:induction false} ValuesAreStored(r: seq<State>, i: nat)
    requires Run(r) && i < |r|
    ensures AllStored(r, i)
  {
    if i == 0 {
      FreshStart(r);
    } else {
      hide Run, ValuesStored;
      ValuesAreStored(r, i - 1);
      CurrentStored(r, i - 1);
      if r[i].resizer.Somebody? { BuildStored(r, i - 1); }
    }
  }

  /** A cell whose value has come (back) to v has been stored into. */
  lemma {:induction false} ComesBack(r: seq<State>, k: nat, j: nat, v: nat, a: nat, b: nat) returns (s: nat)
    requires Run(r) && a <= b < |r| && |r[a].tables| >= 1
    requires forall i :: a <= i <= b ==> |r[i].tables| == |r[a].tables|
    requires CellOf(r[a], Cur(r[a]), k, j).val != v && CellOf(r[b], Cur(r[b]), k, j).val == v
    ensures a <= s < b && Stores(r[s], r[s + 1], v)
    decreases b
  {
    hide Run, CellOf, Stores;
    s := b - 1;
    if CellOf(r[b - 1], Cur(r[b - 1]), k, j).val == v {
      s := ComesBack(r, k, j, v, a, b - 1);
    } else {
      ValueChanged(r, b - 1, k, j);
    }
  }

  lemma ValueChanged(r: seq<State>, i: nat, k: nat, j: nat)
    requires Run(r) && i + 1 < |r| && |r[i + 1].tables| == |r[i].tables| >= 1
    requires CellOf(r[i], Cur(r[i]), k, j).val != CellOf(r[i + 1], Cur(r[i + 1]), k, j).val
    ensures Stores(r[i], r[i + 1], CellOf(r[i + 1], Cur(r[i + 1]), k, j).val)
  {
    hide Run, BinOf, CellOf, At, Stores;
    NextTables(r, i);
    CurrentCell(r, i, k, j);
    CurrentCell(r, i + 1, k, j);
  }

  /** The three loads by which a get has found its value. */
  ghost predicate Found(r: seq<State>, k: nat, at: seq<nat>, h: nat, j: nat, v: nat, m: nat)
  {
    && m + 2 < |at| && at[m] <= at[m + 1] <= at[m + 2] < |r|
    && CellOf(r[at[m]], h, k, j).val == v && CellOf(r[at[m + 1]], h, k, j).key == k
    && CellOf(r[at[m + 2]], h, k, j).val == v
  }

  lemma {:induction false} HowItFound(r: seq<State>, k: nat, at: seq<nat>, ps: seq<Reader>, v: nat, n: nat)
    returns (m: nat, j: nat)
    requires Gets(r, k, at, ps) && |r[at[0]].tables| >= 1 && n <= |at| && ps[n] == Returned(v) && v != 0
    ensures Found(r, k, at, Cur(r[at[0]]), j, v, m)
  {
    assert n > 0 && ps[n] == Load(r[at[n - 1]], k, ps[n - 1]);
    hide CellOf, LengthOf;
    if ps[n - 1].Returned? {
      m, j := HowItFound(r, k, at, ps, v, n - 1);
    } else {
      OneTable(r, k, at, ps, n - 1);
      assert n > 1 && ps[n - 1] == Load(r[at[n - 2]], k, ps[n - 2]);
      assert n > 2 && ps[n - 2] == Load(r[at[n - 3]], k, ps[n - 3]);
      m, j := n - 3, ps[n - 1].j;
    }
  }

  /** A get that returns a value has seen a moment at which its key was bound to it. */
  lemma ValueMeansBound(r: seq<State>, k: nat, at: seq<nat>, h: nat, j: nat, v: nat, m: nat, a: nat, e: nat)
    requires Run(r) && k != 0 && v != 0 && StoredOnce(r, v) && a <= e < |r| && |r[a].tables| >= 1 && h == Cur(r[a])
    requires forall i :: a <= i <= e ==> Cur(r[i]) == Cur(r[a])
    requires Found(r, k, at, h, j, v, m) && a <= at[m] && at[m + 2] <= e
    ensures k in r[at[m + 1]].contents && r[at[m + 1]].contents[k] == v
  {
    hide Run, CellOf, StoredOnce, AllStored;
    var i := at[m + 1];
    if CellOf(r[i], h, k, j).val != v {
      var s := ComesBack(r, k, j, v, i, at[m + 2]);
      ValuesAreStored(r, at[m]);
      CellWasStored(r, at[m], k, j);
      OnlyOnce(r, v, at[m], s);
    }
    CellIsBinding(r, i, k, j);
  }

  lemma CellWasStored(r: seq<State>, i: nat, k: nat, j: nat)
    requires Run(r) && i < |r| && AllStored(r, i) && CellOf(r[i], Cur(r[i]), k, j).val != 0
    ensures StoredBefore(r, i, CellOf(r[i], Cur(r[i]), k, j).val)
  {
    hide Run, BinOf, CellOf, StoredBefore;
    CurrentCell(r, i, k, j);
  }

  lemma OnlyOnce(r: seq<State>, v: nat, i: nat, s: nat)
    requires StoredOnce(r, v) && StoredBefore(r, i, v) && i <= s && s + 1 < |r|
    ensures !Stores(r[s], r[s + 1], v)
  {
    hide Stores;
  }

  /** Every get that has returned has answered as an atomic operation at a moment between its first load and its last,
      whatever table it has read: zero, when its key was not bound; a value, when its key was bound to it, provided
      that no two puts store that value. */
  lemma GetIsLinearizable(r: seq<State>, k: nat, at: seq<nat>, ps: seq<Reader>) returns (i: nat)
    requires Run(r) && k != 0 && Gets(r, k, at, ps) && ps[|at|].Returned?
    requires ps[|at|].result != 0 ==> StoredOnce(r, ps[|at|].result)
    ensures at[0] <= i <= at[|at| - 1] < |r|
    ensures var v, m := ps[|at|].result, r[i].contents; if v == 0 then k !in m else k in m && m[k] == v
  {
    hide Run, Gets, Found, StoredOnce;
    Ordered(r, k, at, ps);
    var e := GetsFromCurrent(r, k, at, ps);
    var at' := Moved(at, e);
    if ps[|at|].result == 0 {
      MovedOrder(r, k, at, ps, e);
      i := ZeroMeansAbsent(r, k, at', ps, e);
    } else {
      MovedOrder(r, k, at, ps, e);
      var m, j := HowItFound(r, k, at', ps, ps[|at|].result, |at|);
      FoundBetween(r, k, at, ps, e, Cur(r[at[0]]), j, ps[|at|].result, m);
      ValueMeansBound(r, k, at', Cur(r[at[0]]), j, ps[|at|].result, m, at[0], e);
      i := at'[m + 1];
    }
  }

  lemma MovedOrder(r: seq<State>, k: nat, at: seq<nat>, ps: seq<Reader>, e: nat)
    requires Gets(r, k, at, ps) && at[0] <= e
    ensures |at| > 0 && |ps| == |at| + 1 && Moved(at, e)[0] == at[0] && Moved(at, e)[|at| - 1] <= e
  {
  }

  lemma FoundBetween(r: seq<State>, k: nat, at: seq<nat>, ps: seq<Reader>, e: nat, h: nat, j: nat, v: nat, m: nat)
    requires Gets(r, k, at, ps) && at[0] <= e <= at[|at| - 1] && Found(r, k, Moved(at, e), h, j, v, m)
    ensures m + 2 < |at| && at[0] <= Moved(at, e)[m] && Moved(at, e)[m + 2] <= e
    ensures at[0] <= Moved(at, e)[m + 1] <= e
  {
    hide CellOf, Load;
  }

  // ------------------------------------------------------------------ a get ends

  /** The buckets of a chain of n slots, of which there is at least one. */
  function Buckets(n: nat): nat { if n == 0 then 1 else (n + 2) / 3 }

  /** The loads of a get that finds no key in a chain of n slots: two for each slot, one for each link, and the one of
      h->ht. */
  function LoadsOf(n: nat): nat { 1 + 7 * Buckets(n) }

  function LoadsLeft(p: Reader, n: nat): int
  {
    match p
    case Start => LoadsOf(n)
    case NextBucket(_, j) => 7 * (Buckets(n) - j / 3) + 1
    case FirstVal(_, j) => 7 * (Buckets(n) - j / 3) - 2 * (j % 3)
    case KeyOf(_, j, _) => 7 * (Buckets(n) - j / 3) - 2 * (j % 3) - 1
    case SecondVal(_, _, _) => 1
    case Returned(_) => 0
  }

  predicate InChain(p: Reader, n: nat)
  {
    match p
    case NextBucket(_, j) => j % 3 == 0 && j <= 3 * Buckets(n)
    case FirstVal(_, j) => j < 3 * Buckets(n)
    case KeyOf(_, j, _) => j < 3 * Buckets(n)
    case _ => true
  }

  lemma OneLoadLess(st: State, k: nat, p: Reader, n: nat)
    requires InChain(p, n) && !p.Returned? && (p.NextBucket? ==> LengthOf(st, p.h, k) <= n)
    ensures InChain(Load(st, k, p), n) && 0 <= LoadsLeft(Load(st, k, p), n) < LoadsLeft(p, n)
  {
    hide CellOf, LengthOf;
  }

  lemma {:induction false} FewerLeft(r: seq<State>, k: nat, at: seq<nat>, ps: seq<Reader>, n: nat, i: nat)
    requires Gets(r, k, at, ps) && |r[at[0]].tables| >= 1 && i <= |at|
    requires forall i' :: 0 <= i' < |at| ==> LengthOf(r[at[i']], Cur(r[at[0]]), k) <= n
    ensures InChain(ps[i], n) && (ps[i].Returned? || 0 <= LoadsLeft(ps[i], n) <= LoadsOf(n) - i)
  {
    hide LengthOf, CellOf;
    if i > 0 {
      FewerLeft(r, k, at, ps, n, i - 1);
      if i > 1 { OneTable(r, k, at, ps, i - 1); }
      assert ps[i] == Load(r[at[i - 1]], k, ps[i - 1]);
      hide Load, LoadsLeft;
      if ps[i - 1].Returned? {
        ReturnedStays(r[at[i - 1]], k, ps[i - 1]);
      } else {
        OneLoadLess(r[at[i - 1]], k, ps[i - 1], n);
      }
    }
  }

  lemma ReturnedStays(st: State, k: nat, p: Reader)
    requires p.Returned?
    ensures Load(st, k, p) == p
  {
  }

  lemma LeftUntilReturned(p: Reader, n: nat)
    requires InChain(p, n) && LoadsLeft(p, n) <= 0
    ensures p.Returned?
  {
  }

  /** Whatever the others do, a get returns after seven loads for each bucket of the longest chain that it meets, and
      one more: it waits for nobody. */
  lemma GetEnds(r: seq<State>, k: nat, at: seq<nat>, ps: seq<Reader>, h: nat, n: nat)
    requires Run(r) && Gets(r, k, at, ps) && h == Cur(r[at[0]])
    requires forall i :: 0 <= i < |at| ==> LengthOf(r[at[i]], h, k) <= n
    requires |at| >= LoadsOf(n)
    ensures ps[|at|].Returned?
  {
    hide Run, Load, LengthOf, LoadsLeft, LoadsOf;
    RunOk(r, at[0]);
    FewerLeft(r, k, at, ps, n, |at|);
    if !ps[|at|].Returned? { LeftUntilReturned(ps[|at|], n); }
  }

  /** The chain of a key in the current table. */
  function ChainOf(st: State, k: nat): nat { if |st.tables| >= 1 then LengthOf(st, |st.tables| - 1, k) else 0 }

  /** The first n loads of a get, when all of them see one state. */
  function LoadsAt(st: State, k: nat, n: nat): (ps: seq<Reader>)
    ensures |ps| == n + 1 && ps[0] == Start && forall i :: 0 <= i < n ==> ps[i + 1] == Load(st, k, ps[i])
  {
    if n == 0 then [Start] else LoadsAt(st, k, n - 1) + [Load(st, k, LoadsAt(st, k, n - 1)[n - 1])]
  }

  /** A get during which nobody else steps returns the value that its key is bound to, or zero if it is not bound. */
  lemma GetAlone(r: seq<State>, i: nat, k: nat) returns (at: seq<nat>, ps: seq<Reader>)
    requires Run(r) && i < |r| && k != 0
    ensures Gets(r, k, at, ps) && (forall n :: 0 <= n < |at| ==> at[n] == i)
    ensures |at| == LoadsOf(ChainOf(r[i], k))
    ensures ps[|at|] == Returned(if k in r[i].contents then r[i].contents[k] else 0)
  {
    hide Run, CellOf, LengthOf, Load, Buckets, Found;
    RunOk(r, i);
    var n := ChainOf(r[i], k);
    at, ps := seq(LoadsOf(n), _ => i), LoadsAt(r[i], k, LoadsOf(n));
    GetEnds(r, k, at, ps, Cur(r[i]), n);
    if ps[|at|].result == 0 {
      var i' := ZeroMeansAbsent(r, k, at, ps, i);
    } else {
      var m, j := HowItFound(r, k, at, ps, ps[|at|].result, |at|);
      FoundHere(r, i, k, at, j, ps[|at|].result, m);
    }
  }

  lemma FoundHere(r: seq<State>, i: nat, k: nat, at: seq<nat>, j: nat, v: nat, m: nat)
    requires Run(r) && i < |r| && k != 0 && |r[i].tables| >= 1 && (forall n :: 0 <= n < |at| ==> at[n] == i)
    requires Found(r, k, at, Cur(r[i]), j, v, m)
    ensures k in r[i].contents && r[i].contents[k] == v
  {
    hide Run, CellOf;
    CellIsBinding(r, i, k, j);
  }
}
