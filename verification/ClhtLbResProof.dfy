/** Safety of the resizing lock-based table for every run: h->ht always holds exactly the abstract map,
    buckets in RESIZE never change, and every answer is that of an atomic map operation. */
module ClhtLbResProof {
  import opened Hashing
  import opened History
  import opened ClhtLbRes

  // ------------------------------------------------------------------ tables and maps

  ghost predicate Has(t: Table, k: nat)
    requires |t| >= 1
  {
    exists j :: At(t, BinOf(|t|, k), j).key == k
  }

  /** Every entry is in the bin of its key, carries the value bound to it, and is the only one. */
  ghost predicate Entries(t: Table, m: map<nat, nat>)
    requires |t| >= 1
  {
    && (forall b, j :: At(t, b, j).key != 0 ==> b == BinOf(|t|, At(t, b, j).key))
    && (forall b, j :: At(t, b, j).key != 0 ==> At(t, b, j).key in m && m[At(t, b, j).key] == At(t, b, j).val)
    && (forall b, j, j' :: At(t, b, j).key != 0 && At(t, b, j).key == At(t, b, j').key ==> j == j')
  }

  ghost predicate Represents(t: Table, m: map<nat, nat>)
  {
    && |t| >= 1
    && Entries(t, m)
    && (forall k :: k in m ==> k != 0 && Has(t, k))
  }

  /** A table stands for one map only. */
  lemma RepresentsOneMap(t: Table, m: map<nat, nat>, m': map<nat, nat>)
    requires Represents(t, m) && Represents(t, m')
    ensures m == m'
  {
    hide BinOf;
    forall k | k in m ensures k in m' && m'[k] == m[k] {
      var j :| At(t, BinOf(|t|, k), j).key == k;
    }
    forall k | k in m' ensures k in m {
      var j :| At(t, BinOf(|t|, k), j).key == k;
    }
  }

  /** The same slots and bins, whatever the locks. */
  predicate SameCells(t: Table, t': Table)
  {
    |t'| == |t| && forall b :: 0 <= b < |t| ==> t'[b].slots == t[b].slots
  }

  lemma SameCellsAt(t: Table, t': Table)
    requires SameCells(t, t')
    ensures forall b, j :: At(t', b, j) == At(t, b, j)
  {
  }

  lemma RepresentsSameCells(t: Table, t': Table, m: map<nat, nat>)
    requires Represents(t, m) && SameCells(t, t')
    ensures Represents(t', m)
  {
    hide BinOf;
    SameCellsAt(t, t');
    forall k | k in m ensures Has(t', k) {
      var j :| At(t, BinOf(|t|, k), j).key == k;
      assert At(t', BinOf(|t'|, k), j).key == k;
    }
  }

  /** t' is t with one cell changed from `was` to `now`. */
  ghost predicate OneCell(t: Table, t': Table, b: nat, j: nat, was: Slot, now: Slot)
  {
    && |t'| == |t| && b < |t| && At(t, b, j) == was
    && forall b', j' :: At(t', b', j') == if b' == b && j' == j then now else At(t, b', j')
  }

  lemma {:induction false} AddCell(t: Table, t': Table, j: nat, k: nat, v: nat, was: Slot, m: map<nat, nat>)
    requires Represents(t, m) && k != 0 && k !in m && was.key == 0
    requires OneCell(t, t', BinOf(|t|, k), j, was, Slot(k, v))
    ensures Represents(t', m[k := v])
  {
    hide BinOf;
    var m' := m[k := v];
    assert At(t', BinOf(|t'|, k), j).key == k;
    forall q | q in m' ensures q != 0 && Has(t', q) {
      if q != k {
        var i :| At(t, BinOf(|t|, q), i).key == q;
        assert At(t', BinOf(|t'|, q), i).key == q;
      }
    }
  }

  lemma {:induction false} DropCell(t: Table, t': Table, j: nat, k: nat, v: nat, m: map<nat, nat>)
    requires Represents(t, m) && k != 0
    requires OneCell(t, t', BinOf(|t|, k), j, Slot(k, v), Slot(0, v))
    ensures k in m && m[k] == v && Represents(t', m - {k})
  {
    hide BinOf;
    assert At(t, BinOf(|t|, k), j).key == k;
    forall q | q in m - {k} ensures q != 0 && Has(t', q) {
      var i :| At(t, BinOf(|t|, q), i).key == q;
      assert At(t', BinOf(|t'|, q), i).key == q;
    }
  }

  lemma {:induction false} ChangeValueOfFreeCell(t: Table, t': Table, b: nat, j: nat, was: Slot, v: nat,
        m: map<nat, nat>)
    requires Represents(t, m) && was.key == 0 && OneCell(t, t', b, j, was, Slot(0, v))
    ensures Represents(t', m)
  {
    hide BinOf;
    forall q | q in m ensures q != 0 && Has(t', q) {
      var i :| At(t, BinOf(|t|, q), i).key == q;
      assert At(t', BinOf(|t'|, q), i).key == q;
    }
  }

  /** clht_put_seq adds one binding. */
  lemma PutSeqAdds(t: Table, m: map<nat, nat>, k: nat, v: nat)
    requires Represents(t, m) && k != 0 && k !in m
    ensures Represents(PutSeq(t, k, v), m[k := v])
  {
    var b := BinOf(|t|, k);
    var j := FirstFree(t[b].slots);
    hide BinOf;
    AddCell(t, PutSeq(t, k, v), j, k, v, At(t, b, j), m);
  }

  /** The table being filled holds what has been copied, and nobody else has touched its locks. */
  ghost predicate BuildOk(build: Table, copied: map<nat, nat>)
  {
    Represents(build, copied) && forall b :: 0 <= b < |build| ==> build[b].lock == FREE
  }

  lemma PutSeqBuilds(t: Table, m: map<nat, nat>, k: nat, v: nat)
    requires BuildOk(t, m) && k != 0 && k !in m
    ensures BuildOk(PutSeq(t, k, v), m[k := v])
  {
    hide BinOf, Represents;
    NoZeroKey(t, m);
    PutSeqAdds(t, m, k, v);
  }

  lemma NoZeroKey(t: Table, m: map<nat, nat>)
    requires Represents(t, m)
    ensures 0 !in m && |t| >= 1
  {
  }

  lemma NewTableIsEmpty(n: nat)
    requires n >= 1
    ensures BuildOk(NewTable(n), map[])
  {
    hide BinOf;
    var t := NewTable(n);
    forall b, j ensures At(t, b, j) == EMPTY { }
  }

  // ------------------------------------------------------------------ the invariant

  predicate InCrit(pc: Pc)
  {
    pc.Scan? || Writing(pc) || pc.ReadVal? || pc.Unlock?
  }

  /** Between taking and releasing the resize lock. */
  predicate Active(pc: Pc)
  {
    pc.LockBin? || pc.Copy? || pc.Swap? || pc.SetNew? || pc.ReleaseResize?
  }

  /** The number of bins of the current table that have been turned to RESIZE. */
  function ProgressOf(st: State, pc: Pc): nat
    requires |st.tables| >= 1
  {
    match pc
    case LockBin(h, b) => b
    case Copy(h, b, j) => b + 1
    case Swap(h) => |st.tables[|st.tables| - 1]|
    case _ => 0
  }

  function Progress(st: State): nat
    requires |st.tables| >= 1
  {
    match st.resizer
    case Nobody => 0
    case Somebody(t) => if t in st.threads then ProgressOf(st, st.threads[t].pc) else 0
  }

  ghost predicate Setting(st: State, h: nat)
  {
    st.resizer.Somebody? && st.resizer.t in st.threads && st.threads[st.resizer.t].pc == SetNew(h)
  }

  ghost predicate TablesOk(st: State)
  {
    && |st.tables| >= 1
    && (forall h :: 0 <= h < |st.tables| ==> |st.tables[h]| >= 1)
    && (forall h :: h in st.published ==> h < Cur(st))
    && (forall h: nat :: h < Cur(st) ==> h in st.published || Setting(st, h))
  }

  /** The thread is inside the critical section of bin b of table h. */
  predicate Holds(st: State, t: nat, h: nat, b: nat)
  {
    && t in st.threads && InCrit(st.threads[t].pc) && st.threads[t].pc.h == h && IsTable(st, h)
    && !st.threads[t].op.Resize? && Home(st, h, st.threads[t].op.k) == b
  }

  /** The lock of a bin, for quantifiers. */
  function LockAt(st: State, h: int, b: int): LockState
  {
    if 0 <= h < |st.tables| && 0 <= b < |st.tables[h]| then st.tables[h][b].lock else FREE
  }

  predicate InTable(st: State, h: int, b: int) { 0 <= h < |st.tables| && 0 <= b < |st.tables[h]| }

  ghost predicate LocksOk(st: State)
    requires |st.tables| >= 1
  {
    && (forall h, b :: InTable(st, h, b) ==> (LockAt(st, h, b).RESIZE? <==> h < Cur(st) || b < Progress(st)))
    && (forall h: nat, b: nat :: InTable(st, h, b) && LockAt(st, h, b).UPDATE? ==>
        Holds(st, LockAt(st, h, b).owner, h, b))
  }

  /** The position has been copied, as far as the resizer has got. */
  predicate Passed(pc: Pc, b: int, j: int)
  {
    match pc
    case LockBin(_, b0) => b < b0
    case Copy(_, b0, j0) => b < b0 || (b == b0 && j < j0)
    case Swap(_) => true
    case _ => false
  }

  ghost predicate PassedHas(t: Table, pc: Pc, k: nat)
    requires |t| >= 1
  {
    exists j :: At(t, BinOf(|t|, k), j).key == k && Passed(pc, BinOf(|t|, k), j)
  }

  /** copied is what the passed part of the table holds. */
  ghost predicate CopyOk(t: Table, pc: Pc, copied: map<nat, nat>, contents: map<nat, nat>)
    requires |t| >= 1
  {
    && (forall b, j :: At(t, b, j).key != 0 && Passed(pc, b, j) ==> At(t, b, j).key in copied)
    && (forall k :: k in copied ==> k in contents && contents[k] == copied[k] && PassedHas(t, pc, k))
  }

  ghost predicate ResizerOk(st: State)
    requires |st.tables| >= 1 && |st.tables[|st.tables| - 1]| >= 1
  {
    && (forall t :: t in st.threads ==> (Active(st.threads[t].pc) <==> st.resizer == Somebody(t)))
    && (st.resizer.Somebody? ==> st.resizer.t in st.threads)
    && (st.resizer.Somebody? ==>
          var pc := st.threads[st.resizer.t].pc;
          && (pc.LockBin? || pc.Copy? || pc.Swap? ==>
                pc.h == Cur(st) && BuildOk(st.build, st.copied)
                    && CopyOk(st.tables[|st.tables| - 1], pc, st.copied, st.contents))
          && (pc.SetNew? ==> pc.h == Cur(st) - 1))
  }

  ghost predicate SeenAbsent(hist: seq<map<nat, nat>>, start: nat, k: nat)
  {
    exists i :: start <= i < |hist| && k !in hist[i]
  }

  ghost predicate SeenPresent(hist: seq<map<nat, nat>>, start: nat, k: nat)
  {
    exists i :: start <= i < |hist| && k in hist[i]
  }

  ghost predicate Ahead(st: State, h: nat, k: nat, j: nat)
    requires IsTable(st, h)
  {
    exists i :: j <= i && Cell(st, h, k, i).key == k
  }

  /** No entry of the chain has the key. */
  ghost predicate NoKey(st: State, h: nat, k: nat)
    requires IsTable(st, h)
  {
    forall i :: Cell(st, h, k, i).key != k
  }

  /** What a thread knows at each point. */
  ghost predicate Knows(st: State, th: Thread)
    requires Shape(st, th) && |st.tables| >= 1
  {
    match th.pc
    case Peek(h, j) =>
      && (th.op.Put? && h < Cur(st) ==> forall i :: Cell(st, h, th.op.k, i).key == th.op.k ==>
          SeenPresent(st.hist, th.start, th.op.k))
      && (th.op.Remove? ==> SeenAbsent(st.hist, th.start, th.op.k) || Ahead(st, h, th.op.k, j))
    case WaitNew(h) => h == Cur(st) ==> Progress(st) > 0
    case Scan(h, j, e) =>
      && (forall i :: 0 <= i < j ==> Cell(st, h, th.op.k, i).key != th.op.k)
      && (e >= 0 ==> Cell(st, h, th.op.k, e).key == 0)
    case WriteVal(h, e) => NoKey(st, h, th.op.k) && Cell(st, h, th.op.k, e).key == 0
    case WriteKey(h, e) => NoKey(st, h, th.op.k) && Cell(st, h, th.op.k, e) == Slot(0, th.op.v)
    case LinkNew(h) => NoKey(st, h, th.op.k)
    case ReadVal(h, j) => Cell(st, h, th.op.k, j).key == th.op.k
    case ClearKey(h, j, r) => Cell(st, h, th.op.k, j) == Slot(th.op.k, r)
    case _ => true
  }

  ghost predicate ThreadOk(st: State, t: nat)
    requires |st.tables| >= 1 && t in st.threads
  {
    var th := st.threads[t];
    && GoodOp(th.op) && th.start < |st.hist|
    && Shape(st, th) && Knows(st, th)
    && (InCrit(th.pc) ==> LockOf(st, th.pc.h, th.op.k) == UPDATE(t))
  }

  ghost predicate ThreadsOk(st: State)
    requires |st.tables| >= 1
  {
    forall t :: t in st.threads ==> ThreadOk(st, t)
  }

  ghost predicate StateOk(st: State)
  {
    && TablesOk(st) && LocksOk(st) && Represents(st.tables[|st.tables| - 1], st.contents)
    && ResizerOk(st) && ThreadsOk(st)
    && |st.hist| == |st.events| + 1 && st.hist[|st.events|] == st.contents
    && (forall k :: k in st.contents ==> st.contents[k] != 0)
  }

  // ------------------------------------------------------------------ what other threads keep knowing

  lemma SeenGrows(hist: seq<map<nat, nat>>, x: map<nat, nat>, start: nat, k: nat)
    ensures SeenAbsent(hist, start, k) ==> SeenAbsent(hist + [x], start, k)
    ensures SeenPresent(hist, start, k) ==> SeenPresent(hist + [x], start, k)
    ensures start <= |hist| && k in x ==> SeenPresent(hist + [x], start, k)
    ensures start <= |hist| && k !in x ==> SeenAbsent(hist + [x], start, k)
  {
    var hist' := hist + [x];
    assert hist'[|hist|] == x;
    if SeenAbsent(hist, start, k) {
      var i :| start <= i < |hist| && k !in hist[i];
      assert k !in hist'[i];
    }
    if SeenPresent(hist, start, k) {
      var i :| start <= i < |hist| && k in hist[i];
      assert k in hist'[i];
    }
  }

  /** The step left the cells of every table alone. */
  ghost predicate CellsKept(st: State, st': State)
  {
    && |st.tables| <= |st'.tables|
    && (forall h :: 0 <= h < |st.tables| ==> SameCells(st.tables[h], st'.tables[h]))
    && st'.hist == st.hist + [st'.contents]
  }

  /** The lock of a thread in its critical section has not moved. */
  ghost predicate LockKept(st: State, st': State, th: Thread)
    requires Shape(st, th)
  {
    InCrit(th.pc) ==> th.pc.h < |st'.tables| && Home(st, th.pc.h, th.op.k) < |st'.tables[th.pc.h]|
                      && st'.tables[th.pc.h][Home(st, th.pc.h, th.op.k)].lock == LockOf(st, th.pc.h, th.op.k)
  }

  /** Either h->ht is the same table and the resizer has not gone back, or a new one was published. */
  ghost predicate CurKept(st: State, st': State)
    requires |st.tables| >= 1 && |st'.tables| >= 1
  {
    || (|st'.tables| == |st.tables| && Progress(st) <= Progress(st'))
    || (|st'.tables| == |st.tables| + 1 && Represents(st.tables[|st.tables| - 1], st'.contents))
  }

  lemma CellKept(st: State, st': State, h: nat, k: nat)
    requires CellsKept(st, st') && IsTable(st, h)
    ensures IsTable(st', h) && Home(st', h, k) == Home(st, h, k) && ChainLength(st', h, k) == ChainLength(st, h, k)
    ensures forall j :: Cell(st', h, k, j) == Cell(st, h, k, j)
  {
    hide BinOf;
    SameCellsAt(st.tables[h], st'.tables[h]);
  }

  lemma PeekKept(st: State, st': State, th: Thread)
    requires |st.tables| >= 1 && CellsKept(st, st') && CurKept(st, st') && Shape(st, th) && Shape(st', th)
        && Knows(st, th)
    requires th.start < |st.hist| && GoodOp(th.op) && th.pc.Peek?
    ensures Knows(st', th)
  {
    var h, j, k := th.pc.h, th.pc.j, th.op.k;
    hide BinOf, Home, Progress;
    CellKept(st, st', h, k);
    SeenGrows(st.hist, st'.contents, th.start, k);
    if th.op.Remove? && Ahead(st, h, k, j) {
      var i :| j <= i && Cell(st, h, k, i).key == k;
      assert Cell(st', h, k, i).key == k;
    }
    if th.op.Put? && h < Cur(st') {
      forall i | Cell(st', h, k, i).key == k ensures SeenPresent(st'.hist, th.start, k) {
        if h == Cur(st) {
          assert At(st.tables[h], Home(st, h, k), i).key == k;
        } else {
          assert Cell(st, h, k, i).key == k;
        }
      }
    }
  }

  lemma ShapeKept(st: State, st': State, th: Thread)
    requires CellsKept(st, st') && Shape(st, th)
    requires th.pc.Copy? ==> |st'.build| >= 1
    ensures Shape(st', th)
  {
    hide BinOf, Home;
    match th.pc
    case Peek(h, j) => CellKept(st, st', h, th.op.k);
    case Scan(h, j, e) => CellKept(st, st', h, th.op.k);
    case WriteVal(h, e) => CellKept(st, st', h, th.op.k);
    case WriteKey(h, e) => CellKept(st, st', h, th.op.k);
    case ReadVal(h, j) => CellKept(st, st', h, th.op.k);
    case ClearKey(h, j, r) => CellKept(st, st', h, th.op.k);
    case _ =>
  }

  lemma KnowsKept(st: State, st': State, th: Thread)
    requires |st.tables| >= 1 && CellsKept(st, st') && CurKept(st, st') && Shape(st, th) && Shape(st', th)
        && Knows(st, th)
    requires th.start < |st.hist| && GoodOp(th.op)
    ensures Knows(st', th)
  {
    hide BinOf, Home, Progress;
    match th.pc
    case Peek(h, j) => PeekKept(st, st', th);
    case Scan(h, j, e) => CellKept(st, st', h, th.op.k);
    case WriteVal(h, e) => CellKept(st, st', h, th.op.k);
    case WriteKey(h, e) => CellKept(st, st', h, th.op.k);
    case LinkNew(h) => CellKept(st, st', h, th.op.k);
    case ReadVal(h, j) => CellKept(st, st', h, th.op.k);
    case ClearKey(h, j, r) => CellKept(st, st', h, th.op.k);
    case _ =>
  }

  lemma OtherKept(st: State, st': State, u: nat)
    requires |st.tables| >= 1 && u in st.threads && u in st'.threads && st'.threads[u] == st.threads[u]
    requires ThreadOk(st, u) && CellsKept(st, st') && CurKept(st, st') && LockKept(st, st', st.threads[u])
    requires st.threads[u].pc.Copy? ==> |st'.build| >= 1
    ensures ThreadOk(st', u)
  {
    var th := st.threads[u];
    hide Knows;
    ShapeKept(st, st', th);
    KnowsKept(st, st', th);
    if InCrit(th.pc) { CellKept(st, st', th.pc.h, th.op.k); }
  }

  // ------------------------------------------------------------------ a write into the current table

  /** The same locks, and chains that are not shorter. */
  predicate BinsKept(t: Table, t': Table)
  {
    |t'| == |t| && forall b :: 0 <= b < |t| ==> |t'[b].slots| >= |t[b].slots| && t'[b].lock == t[b].lock
  }

  /** The step changed one cell of a bin of h->ht: it filled a free cell, or took a key away. */
  ghost predicate CellWritten(st: State, st': State, b: nat, j: nat, was: Slot, now: Slot)
    requires |st.tables| >= 1
  {
    var c := |st.tables| - 1;
    && |st'.tables| == |st.tables|
    && (forall h :: 0 <= h < c ==> st'.tables[h] == st.tables[h])
    && OneCell(st.tables[c], st'.tables[c], b, j, was, now)
    && BinsKept(st.tables[c], st'.tables[c])
    && (was.key == 0 || (now.key == 0 && was.key !in st'.contents))
    && st'.hist == st.hist + [st'.contents]
    && st'.resizer == st.resizer && st'.build == st.build && st'.copied == st.copied && st'.published == st.published
  }

  lemma CellAfterWrite(st: State, st': State, b: nat, j: nat, was: Slot, now: Slot, h: nat, k: nat)
    requires |st.tables| >= 1 && CellWritten(st, st', b, j, was, now) && IsTable(st, h)
    ensures IsTable(st', h) && Home(st', h, k) == Home(st, h, k) && ChainLength(st', h, k) >= ChainLength(st, h, k)
    ensures LockOf(st', h, k) == LockOf(st, h, k)
    ensures forall i ::
        Cell(st', h, k, i) == Cell(st, h, k, i) || (h == Cur(st) && i == j && Cell(st, h, k, i) == was
        && Cell(st', h, k, i) == now)
    ensures h < Cur(st) || Home(st, h, k) != b ==> forall i :: Cell(st', h, k, i) == Cell(st, h, k, i)
  {
    hide BinOf;
  }

  lemma PeekWritten(st: State, st': State, b: nat, j: nat, was: Slot, now: Slot, th: Thread)
    requires |st.tables| >= 1 && CellWritten(st, st', b, j, was, now) && Shape(st, th) && Shape(st', th)
        && Knows(st, th)
    requires th.start < |st.hist| && GoodOp(th.op) && th.pc.Peek?
    ensures Knows(st', th)
  {
    var h, k := th.pc.h, th.op.k;
    hide BinOf, Home, Progress;
    CellAfterWrite(st, st', b, j, was, now, h, k);
    SeenGrows(st.hist, st'.contents, th.start, k);
    if th.op.Remove? && Ahead(st, h, k, th.pc.j) {
      var i :| th.pc.j <= i && Cell(st, h, k, i).key == k;
      if Cell(st', h, k, i) == Cell(st, h, k, i) { assert Cell(st', h, k, i).key == k; }
    }
  }

  lemma ShapeWritten(st: State, st': State, b: nat, j: nat, was: Slot, now: Slot, th: Thread)
    requires |st.tables| >= 1 && CellWritten(st, st', b, j, was, now) && Shape(st, th)
    ensures Shape(st', th)
  {
    hide BinOf, Home;
    assert forall h :: 0 <= h < |st.tables| ==> |st'.tables[h]| == |st.tables[h]|;
    hide OneCell;
    match th.pc
    case Peek(h, _) => CellAfterWrite(st, st', b, j, was, now, h, th.op.k);
    case Scan(h, _, _) => CellAfterWrite(st, st', b, j, was, now, h, th.op.k);
    case WriteVal(h, e) => CellAfterWrite(st, st', b, j, was, now, h, th.op.k);
    case WriteKey(h, e) => CellAfterWrite(st, st', b, j, was, now, h, th.op.k);
    case ReadVal(h, _) => CellAfterWrite(st, st', b, j, was, now, h, th.op.k);
    case ClearKey(h, _, r) => CellAfterWrite(st, st', b, j, was, now, h, th.op.k);
    case _ =>
  }

  /** A writer's bin is its own, so another thread in its critical section reads other cells. */
  predicate Apart(st: State, th: Thread, b: nat)
    requires Shape(st, th)
  {
    InCrit(th.pc) ==> th.pc.h < Cur(st) || Home(st, th.pc.h, th.op.k) != b
  }

  lemma KnowsWritten(st: State, st': State, b: nat, j: nat, was: Slot, now: Slot, th: Thread)
    requires |st.tables| >= 1 && CellWritten(st, st', b, j, was, now) && Shape(st, th) && Shape(st', th)
        && Knows(st, th)
    requires th.start < |st.hist| && GoodOp(th.op)
    requires Progress(st) == Progress(st') && Apart(st, th, b)
    ensures Knows(st', th)
  {
    hide BinOf, Home, Progress, OneCell;
    if th.pc.Peek? {
      PeekWritten(st, st', b, j, was, now, th);
    } else if InCrit(th.pc) {
      CellAfterWrite(st, st', b, j, was, now, th.pc.h, th.op.k);
    }
  }

  lemma OtherWritten(st: State, st': State, b: nat, j: nat, was: Slot, now: Slot, u: nat)
    requires |st.tables| >= 1 && CellWritten(st, st', b, j, was, now)
    requires u in st.threads && u in st'.threads && st'.threads[u] == st.threads[u] && ThreadOk(st, u)
    requires Progress(st) == Progress(st') && Apart(st, st.threads[u], b)
    ensures ThreadOk(st', u)
  {
    var th := st.threads[u];
    hide Knows, Progress, Home;
    ShapeWritten(st, st', b, j, was, now, th);
    KnowsWritten(st, st', b, j, was, now, th);
    if InCrit(th.pc) { CellAfterWrite(st, st', b, j, was, now, th.pc.h, th.op.k); }
  }

  // ------------------------------------------------------------------ the kinds of step

  lemma ThreadIsOk(st: State, t: nat)
    requires StateOk(st) && t in st.threads
    ensures |st.tables| >= 1 && |st.tables[|st.tables| - 1]| >= 1 && ThreadOk(st, t)
  {
  }

  lemma StepKinds(st: State, t: nat)
    requires t in st.threads && Shape(st, st.threads[t]) && !st.threads[t].pc.Done?
    ensures Reading(st.threads[t].pc) ==> Step(st, t) == Log(Goto(st, t, NextPc(st, st.threads[t])), Internal)
    ensures st.threads[t].pc.TryLock? ==> Step(st, t) == StepTryLock(st, t, st.threads[t])
    ensures st.threads[t].pc.Unlock? ==> Step(st, t) == StepUnlock(st, t, st.threads[t])
    ensures Writing(st.threads[t].pc) ==> Step(st, t) == StepWrite(st, t, st.threads[t])
    ensures Resizing(st.threads[t].pc) ==> Step(st, t) == StepResize(st, t, st.threads[t])
  {
    hide NextPc, StepTryLock, StepUnlock, StepWrite, StepResize, Log, Goto;
  }

  // ------------------------------------------------------------------ steps that only read

  /** The state after thread t has gone on to pc and done nothing else. */
  function Moved(st: State, t: nat, pc: Pc): State
    requires t in st.threads
  {
    Log(Goto(st, t, pc), Internal)
  }

  /** A move of one thread that stays inside or outside its critical section leaves locks and resizer be. */
  lemma MoveKeepsLocks(st: State, t: nat, pc: Pc)
    requires StateOk(st) && t in st.threads && !Active(st.threads[t].pc) && !Active(pc)
    requires InCrit(pc) == InCrit(st.threads[t].pc) && (InCrit(pc) ==> pc.h == st.threads[t].pc.h)
    ensures TablesOk(Moved(st, t, pc)) && LocksOk(Moved(st, t, pc)) && ResizerOk(Moved(st, t, pc))
    ensures Progress(Moved(st, t, pc)) == Progress(st)
  {
    var st' := Moved(st, t, pc);
    hide ThreadsOk, Represents, CopyOk, Home;
    assert Progress(st') == Progress(st);
    forall h, b | InTable(st', h, b) ensures LockAt(st', h, b).RESIZE? <==> h < Cur(st') || b < Progress(st') {
      assert LockAt(st', h, b) == LockAt(st, h, b) && InTable(st, h, b);
    }
    forall h: nat, b: nat | InTable(st', h, b) && LockAt(st', h, b).UPDATE?
      ensures Holds(st', LockAt(st', h, b).owner, h, b)
    {
      assert LockAt(st', h, b) == LockAt(st, h, b) && InTable(st, h, b);
      assert Holds(st, LockAt(st, h, b).owner, h, b);
      HomeMoved(st, t, pc, h, st.threads[LockAt(st, h, b).owner].op.k);
    }
  }

  lemma HomeMoved(st: State, t: nat, pc: Pc, h: nat, k: nat)
    requires t in st.threads && IsTable(st, h)
    ensures IsTable(Moved(st, t, pc), h) && Home(Moved(st, t, pc), h, k) == Home(st, h, k)
    ensures ChainLength(Moved(st, t, pc), h, k) == ChainLength(st, h, k)
        && LockOf(Moved(st, t, pc), h, k) == LockOf(st, h, k)
    ensures forall i :: Cell(Moved(st, t, pc), h, k, i) == Cell(st, h, k, i)
  {
    hide BinOf;
  }

  /** Reading under the lock: the chain has no key before position j, and perhaps a free cell. */
  lemma ScanStep(st: State, t: nat, th: Thread)
    requires |st.tables| >= 1 && |st.hist| >= 1 && t in st.threads && st.threads[t] == th && th.pc.Scan?
        && ThreadOk(st, t)
    ensures ThreadOk(Moved(st, t, NextPc(st, th)), t)
  {
    hide BinOf, Home, Cell, ChainLength, LockOf;
    HomeMoved(st, t, NextPc(st, th), th.pc.h, th.op.k);
    CellOutside(st, th.pc.h, th.op.k);
  }

  lemma CellOutside(st: State, h: nat, k: nat)
    requires IsTable(st, h)
    ensures forall i :: i < 0 || i >= ChainLength(st, h, k) ==> Cell(st, h, k, i).key == 0
  {
    hide BinOf, Home;
  }

  lemma PeekOutcome(st: State, th: Thread)
    requires |st.tables| >= 1 && |st.hist| >= 1 && st.hist[|st.hist| - 1] == st.contents && th.start < |st.hist|
    requires th.pc.Peek? && Shape(st, th) && Knows(st, th) && GoodOp(th.op)
    requires Represents(st.tables[|st.tables| - 1], st.contents)
    ensures th.op.Put? && NextPc(st, th).Done? ==> SeenPresent(st.hist, th.start, th.op.k)
    ensures th.op.Remove? && NextPc(st, th).Done? ==> SeenAbsent(st.hist, th.start, th.op.k)
    ensures th.op.Remove? && NextPc(st, th).Peek? ==>
        SeenAbsent(st.hist, th.start, th.op.k) || Ahead(st, th.pc.h, th.op.k, th.pc.j + 1)
  {
    var h, j, k := th.pc.h, th.pc.j, th.op.k;
    hide BinOf, Home;
    CellOutside(st, h, k);
    if th.op.Put? && h == Cur(st) && Cell(st, h, k, j).key == k {
      assert At(st.tables[h], Home(st, h, k), j).key == k;
      assert k in st.hist[|st.hist| - 1];
    }
    hide Represents, Cell, At;
    if th.op.Remove? && Ahead(st, h, k, j) && Cell(st, h, k, j).key != k {
      var i :| j <= i && Cell(st, h, k, i).key == k;
      assert j + 1 <= i && Cell(st, h, k, i).key == k;
    }
  }

  lemma PeekGoesOn(st: State, t: nat, th: Thread)
    requires |st.tables| >= 1 && |st.hist| >= 1 && th.start < |st.hist| && t in st.threads && st.threads[t] == th
    requires th.pc.Peek? && Shape(st, th) && Knows(st, th) && NextPc(st, th).Peek?
    requires th.op.Remove? ==> SeenAbsent(st.hist, th.start, th.op.k) || Ahead(st, th.pc.h, th.op.k, th.pc.j + 1)
    ensures Shape(Moved(st, t, NextPc(st, th)), th.(pc := NextPc(st, th)))
    ensures Knows(Moved(st, t, NextPc(st, th)), th.(pc := NextPc(st, th)))
  {
    hide BinOf, Home, Cell, ChainLength, LockOf;
    var h, j, k := th.pc.h, th.pc.j, th.op.k;
    var st' := Moved(st, t, NextPc(st, th));
    HomeMoved(st, t, NextPc(st, th), h, k);
    SeenGrows(st.hist, st.contents, th.start, k);
    assert NextPc(st, th) == Peek(h, j + 1) && j < ChainLength(st, h, k);
    hide NextPc, Progress;
    if th.op.Remove? && Ahead(st, h, k, j + 1) {
      var i :| j + 1 <= i && Cell(st, h, k, i).key == k;
      assert Cell(st', h, k, i).key == k;
    }
    if th.op.Put? && h < Cur(st) {
      forall i | Cell(st', h, k, i).key == k ensures SeenPresent(st'.hist, th.start, k) {
        assert Cell(st, h, k, i).key == k;
      }
    }
  }

  lemma PeekStep(st: State, t: nat, th: Thread)
    requires |st.tables| >= 1 && |st.hist| >= 1 && st.hist[|st.hist| - 1] == st.contents
    requires Represents(st.tables[|st.tables| - 1], st.contents)
    requires t in st.threads && st.threads[t] == th && th.pc.Peek? && ThreadOk(st, t)
    ensures ThreadOk(Moved(st, t, NextPc(st, th)), t)
  {
    hide BinOf, Home, Cell, ChainLength, LockOf;
    PeekOutcome(st, th);
    HomeMoved(st, t, NextPc(st, th), th.pc.h, th.op.k);
    hide Knows, Represents;
    if NextPc(st, th).Peek? { PeekGoesOn(st, t, th); }
    else { KnowsNothing(Moved(st, t, NextPc(st, th)), th.(pc := NextPc(st, th))); }
  }

  lemma KnowsNothing(st: State, th: Thread)
    requires |st.tables| >= 1 && Shape(st, th)
    requires th.pc.TryLock? || th.pc.Done? || th.pc.LoadHt? || th.pc.Reload? || Resizing(th.pc) || th.pc.Unlock?
    ensures Knows(st, th)
  {
  }

  /** A thread that begins works on h->ht. */
  lemma LoadStep(st: State, t: nat, th: Thread)
    requires |st.tables| >= 1 && |st.hist| >= 1 && st.hist[|st.hist| - 1] == st.contents
    requires Represents(st.tables[|st.tables| - 1], st.contents)
    requires t in st.threads && st.threads[t] == th && th.pc.LoadHt? && ThreadOk(st, t)
    ensures ThreadOk(Moved(st, t, NextPc(st, th)), t)
  {
    hide BinOf, Entries;
    var st' := Moved(st, t, NextPc(st, th));
    if th.op.Remove? {
      var c, k := |st.tables| - 1, th.op.k;
      SeenGrows(st.hist, st.contents, th.start, k);
      if k in st.contents {
        CellOutside(st, c, k);
        var i :| At(st.tables[c], BinOf(|st.tables[c]|, k), i).key == k;
        assert Cell(st', c, k, i).key == k && i >= 0;
      }
    }
  }

  lemma OtherReadStep(st: State, t: nat, th: Thread)
    requires StateOk(st)
    requires t in st.threads && st.threads[t] == th && ThreadOk(st, t)
    requires th.pc.Reload? || th.pc.WaitNew? || th.pc.ReadVal?
    ensures ThreadOk(Moved(st, t, NextPc(st, th)), t)
  {
    hide BinOf, Home, LocksOk, ResizerOk, Represents, ThreadsOk, Progress;
    var pc := NextPc(st, th);
    if th.pc.WaitNew? { MoveKeepsLocks(st, t, pc); }
    if !th.pc.Reload? { HomeMoved(st, t, pc, th.pc.h, th.op.k); }
  }

  lemma ReadingStepOwn(st: State, t: nat, th: Thread)
    requires StateOk(st) && t in st.threads && st.threads[t] == th && Reading(th.pc) && ThreadOk(st, t)
    ensures ThreadOk(Moved(st, t, NextPc(st, th)), t)
  {
    hide Represents, Knows, Home, BinOf, NextPc, Progress, CopyOk, LocksOk, ResizerOk, ThreadOk;
    if th.pc.Scan? { ScanStep(st, t, th); }
    else if th.pc.Peek? { PeekStep(st, t, th); }
    else if th.pc.LoadHt? { LoadStep(st, t, th); }
    else { OtherReadStep(st, t, th); }
  }

  /** The threads that do not step, after a step that left the cells alone. */
  lemma OthersKept(st: State, st': State, t: nat)
    requires |st.tables| >= 1 && |st'.tables| >= 1 && ThreadsOk(st) && CellsKept(st, st') && CurKept(st, st')
    requires t in st.threads && t in st'.threads && st'.threads == st.threads[t := st'.threads[t]]
    requires forall u :: u in st.threads && u != t ==>
        LockKept(st, st', st.threads[u]) && (st.threads[u].pc.Copy? ==> |st'.build| >= 1)
    requires ThreadOk(st', t)
    ensures ThreadsOk(st')
  {
    hide CellsKept, CurKept, LockKept, ThreadOk;
    forall u | u in st'.threads ensures ThreadOk(st', u) {
      if u != t { OtherKept(st, st', u); }
    }
  }

  lemma MovedThreads(st: State, t: nat, pc: Pc)
    requires |st.tables| >= 1 && ThreadsOk(st) && t in st.threads && ThreadOk(Moved(st, t, pc), t)
    requires Progress(st) <= Progress(Moved(st, t, pc))
    ensures ThreadsOk(Moved(st, t, pc))
  {
    var st' := Moved(st, t, pc);
    hide Progress, Knows, Home, BinOf;
    assert CellsKept(st, st') && CurKept(st, st');
    forall u | u in st.threads ensures LockKept(st, st', st.threads[u])
      && (st.threads[u].pc.Copy? ==> |st'.build| >= 1)
    {
      assert ThreadOk(st, u);
    }
    hide CellsKept, CurKept, LockKept, ThreadOk;
    OthersKept(st, st', t);
  }

  lemma ReadingStep(st: State, t: nat)
    requires StateOk(st) && t in st.threads && Reading(st.threads[t].pc)
    ensures Shape(st, st.threads[t]) && StateOk(Step(st, t))
  {
    hide Step, StepTryLock, StepUnlock, StepWrite, StepResize, Represents, LocksOk, ResizerOk, TablesOk, Progress,
        Knows, ThreadsOk;
    var th := st.threads[t];
    ThreadIsOk(st, t);
    assert Shape(st, th);
    StepKinds(st, t);
    hide ThreadOk;
    MoveKeepsLocks(st, t, NextPc(st, th));
    hide NextPc;
    ReadingStepOwn(st, t, th);
    MovedThreads(st, t, NextPc(st, th));
  }

  // ------------------------------------------------------------------ steps that change a lock

  /** The state after thread t has set the lock of a bin and gone on to pc. */
  function Relocked(st: State, t: nat, h: nat, b: nat, l: LockState, pc: Pc): State
    requires t in st.threads && h < |st.tables| && b < |st.tables[h]|
  {
    Log(Goto(SetTable(st, h, SetLock(st.tables[h], b, l)), t, pc), Internal)
  }

  lemma RelockedTables(st: State, t: nat, b: nat, l: LockState, pc: Pc)
    requires StateOk(st) && t in st.threads && b < |st.tables[|st.tables| - 1]|
    requires !st.threads[t].pc.SetNew? && !pc.SetNew?
    ensures TablesOk(Relocked(st, t, |st.tables| - 1, b, l, pc))
    ensures CellsKept(st, Relocked(st, t, |st.tables| - 1, b, l, pc))
    ensures Represents(Relocked(st, t, |st.tables| - 1, b, l, pc).tables[|st.tables| - 1], st.contents)
  {
    var c := |st.tables| - 1;
    var st' := Relocked(st, t, c, b, l, pc);
    hide Represents, ResizerOk, LocksOk, ThreadsOk;
    RepresentsSameCells(st.tables[c], st'.tables[c], st.contents);
    assert forall h :: Setting(st, h) ==> Setting(st', h);
  }

  lemma HomeRelocked(st: State, t: nat, h: nat, b: nat, l: LockState, pc: Pc, h': nat, k: nat)
    requires t in st.threads && h < |st.tables| && b < |st.tables[h]| && IsTable(st, h')
    ensures IsTable(Relocked(st, t, h, b, l, pc), h') && Home(Relocked(st, t, h, b, l, pc), h', k) == Home(st, h', k)
    ensures ChainLength(Relocked(st, t, h, b, l, pc), h', k) == ChainLength(st, h', k)
    ensures forall i :: Cell(Relocked(st, t, h, b, l, pc), h', k, i) == Cell(st, h', k, i)
    ensures LockOf(Relocked(st, t, h, b, l, pc), h', k) == if h' == h && Home(st, h', k) == b then l
        else LockOf(st, h', k)
  {
    hide BinOf;
  }

  lemma LockAtRelocked(st: State, t: nat, h: nat, b: nat, l: LockState, pc: Pc, h': int, b': int)
    requires t in st.threads && h < |st.tables| && b < |st.tables[h]|
    ensures InTable(Relocked(st, t, h, b, l, pc), h', b') <==> InTable(st, h', b')
    ensures LockAt(Relocked(st, t, h, b, l, pc), h', b') == if h' == h && b' == b then l else LockAt(st, h', b')
  {
  }

  /** A free bin is a bin of h->ht that the resizer has not reached. */
  lemma FreeIsCurrent(st: State, h: nat, b: nat)
    requires |st.tables| >= 1 && LocksOk(st) && InTable(st, h, b) && !LockAt(st, h, b).RESIZE?
    ensures h == Cur(st) && b >= Progress(st)
  {
    hide Progress;
  }

  lemma RelockedThreads(st: State, t: nat, b: nat, l: LockState, pc: Pc)
    requires |st.tables| >= 1 && ThreadsOk(st) && t in st.threads && b < |st.tables[|st.tables| - 1]|
    requires LockAt(st, |st.tables| - 1, b) == FREE || LockAt(st, |st.tables| - 1, b) == UPDATE(t)
    requires CellsKept(st, Relocked(st, t, |st.tables| - 1, b, l, pc))
    requires Progress(st) <= Progress(Relocked(st, t, |st.tables| - 1, b, l, pc))
    requires ThreadOk(Relocked(st, t, |st.tables| - 1, b, l, pc), t)
    ensures ThreadsOk(Relocked(st, t, |st.tables| - 1, b, l, pc))
  {
    var c := |st.tables| - 1;
    var st' := Relocked(st, t, c, b, l, pc);
    hide BinOf, Home, Progress, Knows, CellsKept;
    forall u | u in st.threads && u != t ensures LockKept(st, st', st.threads[u])
      && (st.threads[u].pc.Copy? ==> |st'.build| >= 1)
    {
      var th := st.threads[u];
      assert ThreadOk(st, u);
      if InCrit(th.pc) { HomeRelocked(st, t, c, b, l, pc, th.pc.h, th.op.k); }
    }
    hide LockKept, ThreadOk;
    OthersKept(st, st', t);
  }

  /** The owners of the bins that are not relocked stay owners. */
  lemma RelockedHolders(st: State, t: nat, b: nat, l: LockState, pc: Pc)
    requires |st.tables| >= 1 && LocksOk(st) && t in st.threads && b < |st.tables[|st.tables| - 1]|
    requires !InCrit(st.threads[t].pc) || Holds(st, t, |st.tables| - 1, b)
    ensures var c := |st.tables| - 1; var st' := Relocked(st, t, c, b, l, pc);
            forall h: nat, b': nat :: InTable(st', h, b') && LockAt(st', h, b').UPDATE? && (h != c || b' != b) ==>
              Holds(st', LockAt(st', h, b').owner, h, b')
  {
    var c := |st.tables| - 1;
    var st' := Relocked(st, t, c, b, l, pc);
    hide Progress, BinOf, Home;
    forall h: nat, b': nat | InTable(st', h, b') && LockAt(st', h, b').UPDATE? && (h != c || b' != b)
      ensures Holds(st', LockAt(st', h, b').owner, h, b')
    {
      LockAtRelocked(st, t, c, b, l, pc, h, b');
      assert Holds(st, LockAt(st, h, b').owner, h, b');
      HomeRelocked(st, t, c, b, l, pc, h, st.threads[LockAt(st, h, b').owner].op.k);
    }
  }

  lemma RelockedResizer(st: State, t: nat, b: nat, l: LockState, pc: Pc)
    requires StateOk(st) && t in st.threads && b < |st.tables[|st.tables| - 1]|
    requires !Active(st.threads[t].pc) && !Active(pc)
    ensures Progress(Relocked(st, t, |st.tables| - 1, b, l, pc)) == Progress(st)
    ensures ResizerOk(Relocked(st, t, |st.tables| - 1, b, l, pc))
  {
    hide TablesOk, LocksOk, ThreadsOk, Represents, CopyOk, BuildOk;
    ThreadIsOk(st, t);
    var c := |st.tables| - 1;
    var st' := Relocked(st, t, c, b, l, pc);
    if st.resizer.Somebody? && Active(st.threads[st.resizer.t].pc) && !st.threads[st.resizer.t].pc.SetNew?
        && !st.threads[st.resizer.t].pc.ReleaseResize? {
      CopyKept(st.tables[c], st'.tables[c], st.threads[st.resizer.t].pc, st.copied, st.contents);
    }
  }

  lemma CopyKept(t: Table, t': Table, pc: Pc, copied: map<nat, nat>, contents: map<nat, nat>)
    requires |t| >= 1 && SameCells(t, t') && CopyOk(t, pc, copied, contents)
    ensures |t'| >= 1 && CopyOk(t', pc, copied, contents)
  {
    hide BinOf;
    SameCellsAt(t, t');
    forall k | k in copied ensures PassedHas(t', pc, k) {
      var j :| At(t, BinOf(|t|, k), j).key == k && Passed(pc, BinOf(|t|, k), j);
      assert At(t', BinOf(|t'|, k), j).key == k;
    }
  }

  lemma TakeLock(st: State, t: nat, th: Thread)
    requires StateOk(st) && t in st.threads && st.threads[t] == th && th.pc.TryLock? && ThreadOk(st, t)
    requires LockOf(st, th.pc.h, th.op.k) == FREE
    ensures StateOk(Relocked(st, t, th.pc.h, Home(st, th.pc.h, th.op.k), UPDATE(t), Scan(th.pc.h, 0, -1)))
  {
    hide BinOf, Home, Represents, LocksOk, Progress, TablesOk, ResizerOk, ThreadsOk;
    var h, k := th.pc.h, th.op.k;
    var b := Home(st, h, k);
    var pc := Scan(h, 0, -1);
    var st' := Relocked(st, t, h, b, UPDATE(t), pc);
    assert LockAt(st, h, b) == LockOf(st, h, k);
    FreeIsCurrent(st, h, b);
    HomeRelocked(st, t, h, b, UPDATE(t), pc, h, k);
    assert ThreadOk(st', t);
    hide ThreadOk;
    TakeLockLocks(st, t, th);
    RelockedResizer(st, t, b, UPDATE(t), pc);
    RelockedTables(st, t, b, UPDATE(t), pc);
    RelockedThreads(st, t, b, UPDATE(t), pc);
  }

  lemma TakeLockLocks(st: State, t: nat, th: Thread)
    requires StateOk(st) && t in st.threads && st.threads[t] == th && th.pc.TryLock? && ThreadOk(st, t)
    requires LockOf(st, th.pc.h, th.op.k) == FREE
    ensures LocksOk(Relocked(st, t, th.pc.h, Home(st, th.pc.h, th.op.k), UPDATE(t), Scan(th.pc.h, 0, -1)))
    ensures Progress(Relocked(st, t, th.pc.h, Home(st, th.pc.h, th.op.k), UPDATE(t), Scan(th.pc.h, 0, -1)))
        == Progress(st)
  {
    var h, k := th.pc.h, th.op.k;
    var b := Home(st, h, k);
    var pc := Scan(h, 0, -1);
    var st' := Relocked(st, t, h, b, UPDATE(t), pc);
    assert LockAt(st, h, b) == LockOf(st, h, k);
    assert Progress(st') == Progress(st);
    HomeRelocked(st, t, h, b, UPDATE(t), pc, h, k);
    hide Progress, ThreadsOk, ResizerOk, Represents, Home;
    FreeIsCurrent(st, h, b);
    RelockedHolders(st, t, b, UPDATE(t), pc);
    forall h', b' ensures InTable(st', h', b') ==>
      (LockAt(st', h', b').RESIZE? <==> h' < Cur(st') || b' < Progress(st'))
    {
      LockAtRelocked(st, t, h, b, UPDATE(t), pc, h', b');
    }
    LockAtRelocked(st, t, h, b, UPDATE(t), pc, h, b);
  }

  /** One compare-and-swap of lock_acq_chk_resize. */
  lemma TryLockStep(st: State, t: nat)
    requires StateOk(st) && t in st.threads && st.threads[t].pc.TryLock?
    ensures Shape(st, st.threads[t]) && StateOk(Step(st, t))
  {
    hide Step, StepUnlock, StepWrite, StepResize;
    assert ThreadOk(st, t);
    var th := st.threads[t];
    var h, k := th.pc.h, th.op.k;
    StepKinds(st, t);
    hide Home, BinOf;
    match LockOf(st, h, k)
    case FREE => TakeLock(st, t, th);
    case UPDATE(_) => TryLockStays(st, t, th, TryLock(h));
    case RESIZE =>
      assert LockAt(st, h, Home(st, h, k)).RESIZE? && InTable(st, h, Home(st, h, k));
      TryLockStays(st, t, th, WaitNew(h));
  }

  lemma TryLockStays(st: State, t: nat, th: Thread, pc: Pc)
    requires StateOk(st) && t in st.threads && st.threads[t] == th && th.pc.TryLock? && ThreadOk(st, t)
    requires pc == th.pc || (pc == WaitNew(th.pc.h) && (th.pc.h == Cur(st) ==> Progress(st) > 0))
    ensures StateOk(Moved(st, t, pc))
    ensures pc == th.pc ==> Moved(st, t, pc) == Log(st, Internal)
  {
    hide BinOf, Home, Represents, LocksOk, CopyOk, Progress, TablesOk, ResizerOk, ThreadsOk;
    MoveKeepsLocks(st, t, pc);
    HomeMoved(st, t, pc, th.pc.h, th.op.k);
    assert ThreadOk(Moved(st, t, pc), t);
    hide ThreadOk;
    assert pc == th.pc ==> Moved(st, t, pc).threads == st.threads;
    MovedThreads(st, t, pc);
  }

  lemma UnlockStep(st: State, t: nat)
    requires StateOk(st) && t in st.threads && st.threads[t].pc.Unlock?
    ensures Shape(st, st.threads[t]) && StateOk(Step(st, t))
  {
    hide Step, StepTryLock, StepWrite, StepResize, Home, BinOf, Represents, Progress, ResizerOk, LocksOk, TablesOk,
        Knows, ThreadsOk;
    ThreadIsOk(st, t);
    var th := st.threads[t];
    var h, k := th.pc.h, th.op.k;
    var b := Home(st, h, k);
    var pc := Done(th.pc.r);
    StepKinds(st, t);
    var st' := Relocked(st, t, h, b, FREE, pc);
    assert LockAt(st, h, b) == LockOf(st, h, k);
    hide StepUnlock, ThreadOk;
    assert Step(st, t) == st' by { UnlockIs(st, t, th); }
    FreeIsCurrent(st, h, b);
    RelockedResizer(st, t, b, FREE, pc);
    UnlockLocks(st, t, th);
    RelockedTables(st, t, b, FREE, pc);
    KnowsNothing(st', st'.threads[t]);
    assert GoodOp(th.op) && th.start < |st.hist| by { OpOk(st, t); }
    DoneOk(st', t);
    RelockedThreads(st, t, b, FREE, pc);
  }

  lemma OpOk(st: State, t: nat)
    requires |st.tables| >= 1 && t in st.threads && ThreadOk(st, t)
    ensures GoodOp(st.threads[t].op) && st.threads[t].start < |st.hist|
  {
  }

  lemma UnlockIs(st: State, t: nat, th: Thread)
    requires t in st.threads && st.threads[t] == th && Shape(st, th) && th.pc.Unlock?
    ensures StepUnlock(st, t, th) == Relocked(st, t, th.pc.h, Home(st, th.pc.h, th.op.k), FREE, Done(th.pc.r))
  {
    hide Home;
  }

  lemma DoneOk(st: State, t: nat)
    requires |st.tables| >= 1 && t in st.threads && st.threads[t].pc.Done? && GoodOp(st.threads[t].op)
        && st.threads[t].start < |st.hist|
    ensures ThreadOk(st, t)
  {
  }

  lemma UnlockLocks(st: State, t: nat, th: Thread)
    requires |st.tables| >= 1 && LocksOk(st)
    requires t in st.threads && st.threads[t] == th && th.pc.Unlock? && Shape(st, th)
    requires LockOf(st, th.pc.h, th.op.k) == UPDATE(t)
    requires Progress(Relocked(st, t, th.pc.h, Home(st, th.pc.h, th.op.k), FREE, Done(th.pc.r))) == Progress(st)
    ensures LocksOk(Relocked(st, t, th.pc.h, Home(st, th.pc.h, th.op.k), FREE, Done(th.pc.r)))
  {
    var h, k := th.pc.h, th.op.k;
    var b := Home(st, h, k);
    var pc := Done(th.pc.r);
    var st' := Relocked(st, t, h, b, FREE, pc);
    assert LockAt(st, h, b) == LockOf(st, h, k);
    hide Progress, Home, BinOf;
    FreeIsCurrent(st, h, b);
    RelockedHolders(st, t, b, FREE, pc);
    forall h', b' ensures InTable(st', h', b') ==>
      (LockAt(st', h', b').RESIZE? <==> h' < Cur(st') || b' < Progress(st'))
    {
      LockAtRelocked(st, t, h, b, FREE, pc, h', b');
    }
    LockAtRelocked(st, t, h, b, FREE, pc, h, b);
  }

  // ------------------------------------------------------------------ the stores of put and remove

  /** The step of a thread t inside the critical section of bin b of h->ht, for key k. */
  ghost predicate WriteBy(st: State, st': State, t: nat, k: nat, b: nat, j: nat, was: Slot, now: Slot)
    requires |st.tables| >= 1
  {
    && CellWritten(st, st', b, j, was, now)
    && t in st.threads && t in st'.threads && st'.threads == st.threads[t := st'.threads[t]]
    && Holds(st, t, Cur(st), b) && Holds(st', t, Cur(st), b)
    && k == st.threads[t].op.k
    && (forall q :: q in st.contents && q != k ==> q in st'.contents && st'.contents[q] == st.contents[q])
  }

  lemma WriteKeepsLocks(st: State, st': State, t: nat, k: nat, b: nat, j: nat, was: Slot, now: Slot)
    requires StateOk(st) && WriteBy(st, st', t, k, b, j, was, now)
    ensures TablesOk(st') && Progress(st') == Progress(st) && LocksOk(st')
  {
    var c := |st.tables| - 1;
    hide Represents, ResizerOk, ThreadsOk, OneCell, BinOf, Home;
    assert |st'.tables[c]| == |st.tables[c]| by { assert OneCell(st.tables[c], st'.tables[c], b, j, was, now);
        OneCellLength(st.tables[c], st'.tables[c], b, j, was, now); }
    assert forall h :: Setting(st, h) ==> Setting(st', h);
    assert Progress(st') == Progress(st);
    hide Progress;
    forall h, b' ensures InTable(st', h, b') == InTable(st, h, b') && LockAt(st', h, b') == LockAt(st, h, b') {
    }
    forall h: nat, b': nat | InTable(st', h, b') && LockAt(st', h, b').UPDATE?
      ensures Holds(st', LockAt(st', h, b').owner, h, b')
    {
      var u := LockAt(st, h, b').owner;
      assert InTable(st, h, b');
      assert Holds(st, u, h, b');
      HomeSameSize(st, st', h, st.threads[u].op.k);
    }
  }

  lemma OneCellLength(t: Table, t': Table, b: nat, j: nat, was: Slot, now: Slot)
    requires OneCell(t, t', b, j, was, now)
    ensures |t'| == |t|
  {
  }

  lemma HomeSameSize(st: State, st': State, h: nat, k: nat)
    requires IsTable(st, h) && IsTable(st', h) && |st'.tables[h]| == |st.tables[h]|
    ensures Home(st', h, k) == Home(st, h, k)
  {
    hide BinOf;
  }

  /** What has been copied lies in other bins, which the write leaves alone. */
  lemma WriteKeepsCopy(st: State, st': State, t: nat, k: nat, b: nat, j: nat, was: Slot, now: Slot, pc: Pc)
    requires |st.tables| >= 1 && WriteBy(st, st', t, k, b, j, was, now)
    requires CopyOk(st.tables[|st.tables| - 1], pc, st.copied, st.contents)
    requires ProgressOf(st, pc) <= b && (pc.LockBin? || pc.Copy? || pc.Swap?)
    ensures |st'.tables| == |st.tables| && |st'.tables[|st.tables| - 1]| >= 1
    ensures CopyOk(st'.tables[|st.tables| - 1], pc, st.copied, st'.contents)
  {
    var c := |st.tables| - 1;
    var tab, tab' := st.tables[c], st'.tables[c];
    hide BinOf;
    forall q | q in st.copied ensures q in st'.contents && st'.contents[q] == st.copied[q] && PassedHas(tab', pc, q) {
      var i :| At(tab, BinOf(|tab|, q), i).key == q && Passed(pc, BinOf(|tab|, q), i);
      assert At(tab', BinOf(|tab'|, q), i).key == q;
    }
  }

  lemma WriteKeepsResizer(st: State, st': State, t: nat, k: nat, b: nat, j: nat, was: Slot, now: Slot)
    requires StateOk(st) && WriteBy(st, st', t, k, b, j, was, now) && Progress(st) <= b
    ensures |st'.tables[|st'.tables| - 1]| >= 1 && ResizerOk(st')
  {
    hide BinOf, Represents, ThreadsOk, OneCell;
    OneCellLength(st.tables[|st.tables| - 1], st'.tables[|st.tables| - 1], b, j, was, now);
    if st.resizer.Somebody? {
      var pc := st.threads[st.resizer.t].pc;
      if pc.LockBin? || pc.Copy? || pc.Swap? {
        WriteKeepsCopy(st, st', t, k, b, j, was, now, pc);
      }
    }
  }

  /** A write that keeps the table and the abstract map together keeps the whole invariant. */
  lemma WriteKeepsAll(st: State, st': State, t: nat, k: nat, b: nat, j: nat, was: Slot, now: Slot)
    requires StateOk(st) && WriteBy(st, st', t, k, b, j, was, now)
    requires |st'.tables| >= 1 && Represents(st'.tables[|st'.tables| - 1], st'.contents)
    requires ThreadOk(st', t) && |st'.events| == |st.events| + 1
    requires forall q :: q in st'.contents ==> st'.contents[q] != 0
    ensures StateOk(st')
  {
    hide BinOf, Home, Represents, OneCell, BinsKept, Progress, Knows, TablesOk, LocksOk, ResizerOk, ThreadsOk, ThreadOk,
        Holds;
    WriterIsPastProgress(st, st', t, k, b, j, was, now);
    WriteKeepsLocks(st, st', t, k, b, j, was, now);
    WriteKeepsResizer(st, st', t, k, b, j, was, now);
    OthersWritten(st, st', t, k, b, j, was, now);
  }

  lemma WriterIsPastProgress(st: State, st': State, t: nat, k: nat, b: nat, j: nat, was: Slot, now: Slot)
    requires StateOk(st) && WriteBy(st, st', t, k, b, j, was, now)
    ensures Progress(st) <= b
  {
    hide BinOf, Home, Represents, CellWritten, Progress, Knows, TablesOk, LocksOk, ResizerOk, ThreadsOk;
    ThreadIsOk(st, t);
    assert LockAt(st, Cur(st), b) == LockOf(st, st.threads[t].pc.h, k) == UPDATE(t);
    FreeIsCurrent(st, Cur(st), b);
  }

  lemma OthersWritten(st: State, st': State, t: nat, k: nat, b: nat, j: nat, was: Slot, now: Slot)
    requires StateOk(st) && WriteBy(st, st', t, k, b, j, was, now) && |st'.tables| >= 1
    requires ThreadOk(st', t) && Progress(st') == Progress(st)
    ensures ThreadsOk(st')
  {
    hide BinOf, Home, Represents, CellWritten, Progress, ThreadOk, TablesOk, LocksOk, ResizerOk, StateOk, Holds;
    forall u | u in st'.threads ensures ThreadOk(st', u) {
      if u != t {
        ThreadIsOk(st, u);
        ThreadIsOk(st, t);
        ApartFromWriter(st, t, u, b);
        OtherWritten(st, st', b, j, was, now, u);
      }
    }
  }

  lemma ApartFromWriter(st: State, t: nat, u: nat, b: nat)
    requires |st.tables| >= 1 && t in st.threads && u in st.threads && u != t && ThreadOk(st, t) && ThreadOk(st, u)
    requires Holds(st, t, Cur(st), b)
    ensures Apart(st, st.threads[u], b)
  {
    hide BinOf, Home, Knows;
  }

  // the four kinds of store

  lemma WriteValStep(st: State, t: nat)
    requires StateOk(st) && t in st.threads && st.threads[t].pc.WriteVal?
    ensures Shape(st, st.threads[t]) && StateOk(Step(st, t))
  {
    hide Step, StepTryLock, StepUnlock, StepResize, Home, BinOf, TablesOk, LocksOk, ResizerOk, Represents, ThreadsOk;
    WriterIsCurrent(st, t);
    ThreadIsOk(st, t);
    StepKinds(st, t);
    var th := st.threads[t];
    var h, k, e := th.pc.h, th.op.k, th.pc.e;
    var b := Home(st, h, k);
    var was := Cell(st, h, k, e);
    var now := Slot(0, th.op.v);
    var st' := Step(st, t);
    assert OneCell(st.tables[h], st'.tables[h], b, e, was, now);
    ChangeValueOfFreeCell(st.tables[h], st'.tables[h], b, e, was, th.op.v, st.contents);
    HomeSameSize(st, st', h, k);
    assert WriteBy(st, st', t, k, b, e, was, now);
    CellAfterWrite(st, st', b, e, was, now, h, k);
    WriteKeepsAll(st, st', t, k, b, e, was, now);
  }

  /** Under the lock of its bin, a put knows that its key is not in the map. */
  lemma NoKeyMeansAbsent(st: State, k: nat)
    requires |st.tables| >= 1 && Represents(st.tables[|st.tables| - 1], st.contents) && NoKey(st, |st.tables| - 1, k)
    ensures k !in st.contents
  {
    hide BinOf;
    var c := |st.tables| - 1;
    assert forall i :: At(st.tables[c], BinOf(|st.tables[c]|, k), i) == Cell(st, c, k, i);
    assert !Has(st.tables[c], k);
  }

  /** What a put or a remove knows at the moment its update takes effect. */
  ghost predicate Commits(st: State, th: Thread)
    requires Shape(st, th)
  {
    match th.pc
    case WriteKey(h, e) => th.op.k !in st.contents
    case LinkNew(h) => th.op.k !in st.contents
    case ClearKey(h, j, r) => th.op.k in st.contents && st.contents[th.op.k] == r
    case _ => true
  }

  lemma WriterIsCurrent(st: State, t: nat)
    requires StateOk(st) && t in st.threads && InCrit(st.threads[t].pc)
    ensures Shape(st, st.threads[t]) && st.threads[t].pc.h == |st.tables| - 1
    ensures !st.threads[t].op.Resize? && Holds(st, t, Cur(st), Home(st, st.threads[t].pc.h, st.threads[t].op.k))
  {
    assert ThreadOk(st, t);
    var th := st.threads[t];
    hide BinOf, Home, Progress, Knows;
    assert LockAt(st, th.pc.h, Home(st, th.pc.h, th.op.k)) == LockOf(st, th.pc.h, th.op.k);
    FreeIsCurrent(st, th.pc.h, Home(st, th.pc.h, th.op.k));
  }

  /** The state after thread t has written the current table and the abstract map has followed. */
  function Written(st: State, t: nat, tab: Table, m: map<nat, nat>, pc: Pc, ev: Event): State
    requires t in st.threads && |st.tables| >= 1
  {
    Log(Goto(SetTable(st, |st.tables| - 1, tab).(contents := m), t, pc), ev)
  }

  lemma WrittenStep(st: State, t: nat, tab: Table, m: map<nat, nat>, r: nat, ev: Event, j: nat, was: Slot, now: Slot)
    requires StateOk(st) && t in st.threads && Writing(st.threads[t].pc) && Shape(st, st.threads[t])
        && st.threads[t].pc.h == |st.tables| - 1
    requires Holds(st, t, Cur(st), Home(st, |st.tables| - 1, st.threads[t].op.k))
    requires OneCell(st.tables[|st.tables| - 1], tab, Home(st, |st.tables| - 1, st.threads[t].op.k), j, was, now)
    requires BinsKept(st.tables[|st.tables| - 1], tab)
    requires Represents(tab, m) && (was.key == 0 || (now.key == 0 && was.key !in m))
    requires forall q :: q in st.contents && q != st.threads[t].op.k ==> q in m && m[q] == st.contents[q]
    requires forall q :: q in m ==> m[q] != 0
    ensures StateOk(Written(st, t, tab, m, Unlock(|st.tables| - 1, r), ev))
  {
    hide Home, BinOf, TablesOk, LocksOk, ResizerOk, Represents, ThreadsOk, OneCell, Knows, BinsKept;
    var th := st.threads[t];
    var h, k := |st.tables| - 1, th.op.k;
    ThreadIsOk(st, t);
    var b := Home(st, h, k);
    BinsKeptLength(st.tables[h], tab, b);
    var st' := Written(st, t, tab, m, Unlock(h, r), ev);
    HomeSameSize(st, st', h, k);
    assert CellWritten(st, st', b, j, was, now);
    hide CellWritten;
    assert WriteBy(st, st', t, k, b, j, was, now);
    assert Shape(st', st'.threads[t]);
    hide WriteBy;
    KnowsNothing(st', st'.threads[t]);
    assert ThreadOk(st', t);
    hide ThreadOk;
    WriteKeepsAll(st, st', t, k, b, j, was, now);
  }

  lemma BinsKeptLength(t: Table, t': Table, b: nat)
    requires BinsKept(t, t') && b < |t|
    ensures |t'| == |t| && t'[b].lock == t[b].lock
  {
  }

  lemma FillStep(st: State, t: nat, tab: Table, e: nat, was: Slot)
    requires StateOk(st) && t in st.threads && (st.threads[t].pc.WriteKey? || st.threads[t].pc.LinkNew?)
    requires Shape(st, st.threads[t]) && st.threads[t].pc.h == |st.tables| - 1
    requires Holds(st, t, Cur(st), Home(st, |st.tables| - 1, st.threads[t].op.k))
    requires OneCell(st.tables[|st.tables| - 1], tab, Home(st, |st.tables| - 1, st.threads[t].op.k), e, was,
        Slot(st.threads[t].op.k, st.threads[t].op.v))
    requires BinsKept(st.tables[|st.tables| - 1], tab)
    requires was.key == 0
    ensures Commits(st, st.threads[t])
    ensures StateOk(Written(st, t, tab, st.contents[st.threads[t].op.k := st.threads[t].op.v],
        Unlock(|st.tables| - 1, 1), Inserted(t, st.threads[t].op.k, st.threads[t].op.v)))
  {
    var th := st.threads[t];
    var h, k := |st.tables| - 1, th.op.k;
    hide Home, BinOf, OneCell, TablesOk, LocksOk, ResizerOk, Represents;
    assert ThreadOk(st, t);
    hide ThreadsOk;
    NoKeyMeansAbsent(st, k);
    AddCell(st.tables[h], tab, e, k, th.op.v, was, st.contents);
    WrittenStep(st, t, tab, st.contents[k := th.op.v], 1, Inserted(t, k, th.op.v), e, was, Slot(k, th.op.v));
  }

  /** What a put's two kinds of commit do to the cells. */
  lemma FillCell(t: Table, b: nat, e: nat, s: Slot)
    requires b < |t| && e < |t[b].slots|
    ensures OneCell(t, SetSlot(t, b, e, s), b, e, t[b].slots[e], s) && BinsKept(t, SetSlot(t, b, e, s))
  {
  }

  lemma LinkCell(t: Table, b: nat, s: Slot)
    requires b < |t|
    ensures OneCell(t, Link(t, b, s), b, |t[b].slots|, EMPTY, s) && BinsKept(t, Link(t, b, s))
  {
  }

  lemma FillIs(st: State, t: nat, th: Thread)
    requires t in st.threads && st.threads[t] == th && Shape(st, th) && (th.pc.WriteKey? || th.pc.LinkNew?)
        && th.pc.h == |st.tables| - 1
    ensures var h, k := th.pc.h, th.op.k;
            StepWrite(st, t, th) ==
              Written(st, t, if th.pc.WriteKey? then SetSlot(st.tables[h], Home(st, h, k), th.pc.e,
                  Cell(st, h, k, th.pc.e).(key := k))
                             else Link(st.tables[h], Home(st, h, k), Slot(k, th.op.v)),
                      st.contents[k := th.op.v], Unlock(h, 1), Inserted(t, k, th.op.v))
  {
    hide Home, SetSlot, Link;
  }

  lemma WriteKeyStep(st: State, t: nat)
    requires StateOk(st) && t in st.threads && st.threads[t].pc.WriteKey?
    ensures Shape(st, st.threads[t]) && StateOk(Step(st, t)) && Commits(st, st.threads[t])
  {
    hide Step, StepTryLock, StepUnlock, StepResize, StepWrite, Home, BinOf, TablesOk, LocksOk, ResizerOk, Represents,
        ThreadsOk, OneCell, BinsKept, SetSlot;
    WriterIsCurrent(st, t);
    StepKinds(st, t);
    ThreadIsOk(st, t);
    var th := st.threads[t];
    var h, k, e := th.pc.h, th.op.k, th.pc.e;
    var b := Home(st, h, k);
    assert Cell(st, h, k, e) == st.tables[h][b].slots[e] == Slot(0, th.op.v);
    FillIs(st, t, th);
    FillCell(st.tables[h], b, e, Slot(k, th.op.v));
    hide ThreadOk;
    FillStep(st, t, SetSlot(st.tables[h], b, e, Slot(k, th.op.v)), e, Slot(0, th.op.v));
  }

  lemma LinkNewStep(st: State, t: nat)
    requires StateOk(st) && t in st.threads && st.threads[t].pc.LinkNew?
    ensures Shape(st, st.threads[t]) && StateOk(Step(st, t)) && Commits(st, st.threads[t])
  {
    hide Step, StepTryLock, StepUnlock, StepResize, StepWrite, Home, BinOf, TablesOk, LocksOk, ResizerOk, Represents,
        ThreadsOk, OneCell, BinsKept, Link;
    WriterIsCurrent(st, t);
    StepKinds(st, t);
    ThreadIsOk(st, t);
    var th := st.threads[t];
    var h, k := th.pc.h, th.op.k;
    FillIs(st, t, th);
    LinkCell(st.tables[h], Home(st, h, k), Slot(k, th.op.v));
    hide ThreadOk;
    FillStep(st, t, Link(st.tables[h], Home(st, h, k), Slot(k, th.op.v)), ChainLength(st, h, k), EMPTY);
  }

  /** What a remove's store does to the cells. */
  lemma ClearCell(t: Table, b: nat, j: nat, k: nat, r: nat)
    requires b < |t| && j < |t[b].slots| && t[b].slots[j] == Slot(k, r)
    ensures OneCell(t, SetSlot(t, b, j, Slot(0, r)), b, j, Slot(k, r), Slot(0, r))
        && BinsKept(t, SetSlot(t, b, j, Slot(0, r)))
  {
  }

  lemma ClearIs(st: State, t: nat, th: Thread)
    requires t in st.threads && st.threads[t] == th && Shape(st, th) && th.pc.ClearKey? && th.pc.h == |st.tables| - 1
    requires Cell(st, th.pc.h, th.op.k, th.pc.j) == Slot(th.op.k, th.pc.r)
    ensures var h, k := th.pc.h, th.op.k;
            StepWrite(st, t, th) == Written(st, t, SetSlot(st.tables[h], Home(st, h, k), th.pc.j, Slot(0, th.pc.r)),
                                            st.contents - {k}, Unlock(h, th.pc.r), Removed(t, k, th.pc.r))
  {
    hide Home, SetSlot;
  }

  lemma ClearKeyStep(st: State, t: nat)
    requires StateOk(st) && t in st.threads && st.threads[t].pc.ClearKey?
    ensures Shape(st, st.threads[t]) && StateOk(Step(st, t)) && Commits(st, st.threads[t])
  {
    hide Step, StepTryLock, StepUnlock, StepResize, StepWrite, BinOf, TablesOk, LocksOk, ResizerOk, Represents,
        ThreadsOk, OneCell, BinsKept, SetSlot;
    WriterIsCurrent(st, t);
    StepKinds(st, t);
    ThreadIsOk(st, t);
    var th := st.threads[t];
    var h, k, j, r := th.pc.h, th.op.k, th.pc.j, th.pc.r;
    var tab := SetSlot(st.tables[h], Home(st, h, k), j, Slot(0, r));
    assert Cell(st, h, k, j) == st.tables[h][Home(st, h, k)].slots[j] == Slot(k, r);
    ClearIs(st, t, th);
    ClearCell(st.tables[h], Home(st, h, k), j, k, r);
    hide ThreadOk;
    DropCell(st.tables[h], tab, j, k, r, st.contents);
    WrittenStep(st, t, tab, st.contents - {k}, r, Removed(t, k, r), j, Slot(k, r), Slot(0, r));
  }

  // ------------------------------------------------------------------ the resizer

  predicate Migrating(pc: Pc) { pc.LockBin? || pc.Copy? || pc.Swap? }

  /** What ResizerOk says of the thread that holds the resize lock. */
  lemma HolderOk(st: State, t: nat)
    requires |st.tables| >= 1 && |st.tables[|st.tables| - 1]| >= 1 && ResizerOk(st) && t in st.threads
        && Active(st.threads[t].pc)
    ensures st.resizer == Somebody(t)
    ensures Migrating(st.threads[t].pc) ==> st.threads[t].pc.h == Cur(st) && BuildOk(st.build, st.copied)
                                            && CopyOk(st.tables[|st.tables| - 1], st.threads[t].pc, st.copied,
                                                st.contents)
    ensures Progress(st) == ProgressOf(st, st.threads[t].pc)
  {
    hide CopyOk, Represents;
  }

  /** The resizer goes on within its migration, perhaps after having copied an entry. */
  lemma MigrationMoves(st: State, t: nat, build: Table, copied: map<nat, nat>, pc: Pc)
    requires StateOk(st) && t in st.threads && Migrating(st.threads[t].pc) && Migrating(pc) && pc.h == Cur(st)
    requires ProgressOf(st, pc) == ProgressOf(st, st.threads[t].pc)
    requires BuildOk(build, copied) && CopyOk(st.tables[|st.tables| - 1], pc, copied, st.contents)
    requires Shape(st.(build := build), st.threads[t].(pc := pc))
    ensures StateOk(Moved(st.(build := build, copied := copied), t, pc))
  {
    hide Represents, CopyOk, Home, BinOf, Knows, ResizerOk, TablesOk, LocksOk, Progress, ThreadsOk;
    var st' := Moved(st.(build := build, copied := copied), t, pc);
    ThreadIsOk(st, t);
    MigrationResizer(st, t, build, copied, pc);
    MigrationLocks(st, t, build, copied, pc);
    MigrationShape(st, t, build, copied, pc);
    KnowsResizer(st', st'.threads[t]);
    assert ThreadOk(st', t);
    hide ThreadOk, InCrit;
    assert CellsKept(st, st') && CurKept(st, st');
    hide CellsKept, CurKept;
    NoZeroKey(build, copied);
    LocksKeptBySame(st, st');
    hide LockKept;
    OthersKept(st, st', t);
  }

  lemma LocksKeptBySame(st: State, st': State)
    requires |st.tables| >= 1 && ThreadsOk(st) && |st.tables| <= |st'.tables| && st'.tables[..|st.tables|] == st.tables
    ensures forall u :: u in st.threads ==> Shape(st, st.threads[u]) && LockKept(st, st', st.threads[u])
  {
    hide Knows, BinOf, Home;
    forall u | u in st.threads ensures Shape(st, st.threads[u]) && LockKept(st, st', st.threads[u]) {
      assert ThreadOk(st, u);
      var th := st.threads[u];
      if InCrit(th.pc) { assert st'.tables[..|st.tables|][th.pc.h] == st'.tables[th.pc.h]; }
    }
  }

  lemma MigrationResizer(st: State, t: nat, build: Table, copied: map<nat, nat>, pc: Pc)
    requires StateOk(st) && t in st.threads && Migrating(st.threads[t].pc) && Migrating(pc) && pc.h == Cur(st)
    requires ProgressOf(st, pc) == ProgressOf(st, st.threads[t].pc)
    requires BuildOk(build, copied) && CopyOk(st.tables[|st.tables| - 1], pc, copied, st.contents)
    ensures var st' := Moved(st.(build := build, copied := copied), t, pc);
            Progress(st') == Progress(st) && TablesOk(st') && ResizerOk(st')
  {
    hide Represents, CopyOk, BinOf, LocksOk, ThreadsOk;
    HolderOk(st, t);
    assert Progress(Moved(st.(build := build, copied := copied), t, pc)) == Progress(st);
  }

  lemma KnowsResizer(st: State, th: Thread)
    requires |st.tables| >= 1 && Shape(st, th) && (Active(th.pc) || th.pc.Done?)
    ensures Knows(st, th)
  {
  }

  lemma MigrationShape(st: State, t: nat, build: Table, copied: map<nat, nat>, pc: Pc)
    requires t in st.threads && Migrating(pc) && Shape(st.(build := build), st.threads[t].(pc := pc))
    ensures Shape(Moved(st.(build := build, copied := copied), t, pc), st.threads[t].(pc := pc))
  {
  }

  lemma MigrationLocks(st: State, t: nat, build: Table, copied: map<nat, nat>, pc: Pc)
    requires |st.tables| >= 1 && LocksOk(st) && t in st.threads && !InCrit(st.threads[t].pc)
    requires Progress(Moved(st.(build := build, copied := copied), t, pc)) == Progress(st)
    ensures LocksOk(Moved(st.(build := build, copied := copied), t, pc))
  {
    var st' := Moved(st.(build := build, copied := copied), t, pc);
    hide Progress, Home, BinOf;
    forall h, b ensures InTable(st', h, b) == InTable(st, h, b) && LockAt(st', h, b) == LockAt(st, h, b) { }
    forall h: nat, b: nat | InTable(st', h, b) && LockAt(st', h, b).UPDATE?
      ensures Holds(st', LockAt(st', h, b).owner, h, b)
    {
      assert InTable(st, h, b);
      assert Holds(st, LockAt(st, h, b).owner, h, b);
      HomeSameSize(st, st', h, st.threads[LockAt(st, h, b).owner].op.k);
    }
  }

  /** Passing positions that hold no entry. */
  lemma CopyPasses(t: Table, pc: Pc, pc': Pc, copied: map<nat, nat>, contents: map<nat, nat>)
    requires |t| >= 1 && CopyOk(t, pc, copied, contents)
    requires forall b, j :: At(t, b, j).key != 0 ==> (Passed(pc', b, j) <==> Passed(pc, b, j))
    requires 0 !in copied
    ensures CopyOk(t, pc', copied, contents)
  {
    hide BinOf, Passed;
    forall k | k in copied ensures PassedHas(t, pc', k) {
      var j :| At(t, BinOf(|t|, k), j).key == k && Passed(pc, BinOf(|t|, k), j);
      assert Passed(pc', BinOf(|t|, k), j);
    }
  }

  /** Copying the entry at (b, j). */
  lemma CopyAdds(t: Table, b: nat, j: nat, copied: map<nat, nat>, contents: map<nat, nat>, h: nat)
    requires Represents(t, contents) && CopyOk(t, Copy(h, b, j), copied, contents) && At(t, b, j).key != 0
    ensures At(t, b, j).key !in copied
    ensures CopyOk(t, Copy(h, b, j + 1), copied[At(t, b, j).key := At(t, b, j).val], contents)
  {
    hide BinOf;
    var s := At(t, b, j);
    assert !PassedHas(t, Copy(h, b, j), s.key);
    var copied' := copied[s.key := s.val];
    forall k | k in copied' ensures k in contents && contents[k] == copied'[k] && PassedHas(t, Copy(h, b, j + 1), k) {
      if k == s.key {
        assert At(t, BinOf(|t|, k), j).key == k;
      } else {
        var i :| At(t, BinOf(|t|, k), i).key == k && Passed(Copy(h, b, j), BinOf(|t|, k), i);
        assert Passed(Copy(h, b, j + 1), BinOf(|t|, k), i);
      }
    }
  }

  /** When every bin has been passed, everything has been copied. */
  lemma AllCopied(t: Table, h: nat, copied: map<nat, nat>, contents: map<nat, nat>)
    requires Represents(t, contents) && CopyOk(t, Swap(h), copied, contents)
    ensures copied == contents
  {
    hide BinOf;
    forall k | k in contents ensures k in copied {
      var j :| At(t, BinOf(|t|, k), j).key == k;
      assert Passed(Swap(h), BinOf(|t|, k), j);
    }
  }

  lemma CopyEntry(st: State, t: nat, h: nat, b: nat, j: nat)
    requires StateOk(st) && t in st.threads && st.threads[t].pc == Copy(h, b, j) && h == Cur(st) && ThreadOk(st, t)
    requires BuildOk(st.build, st.copied) && CopyOk(st.tables[h], Copy(h, b, j), st.copied, st.contents)
    requires j < |st.tables[h][b].slots| && At(st.tables[h], b, j).key != 0
    ensures var s := At(st.tables[h], b, j);
            StateOk(Moved(st.(build := PutSeq(st.build, s.key, s.val), copied := st.copied[s.key := s.val]), t,
                Copy(h, b, j + 1)))
  {
    var s := At(st.tables[h], b, j);
    hide TablesOk, LocksOk, ResizerOk, ThreadsOk, BinOf, PutSeq, Progress;
    CopyAdds(st.tables[h], b, j, st.copied, st.contents, h);
    PutSeqBuilds(st.build, st.copied, s.key, s.val);
    hide Represents, CopyOk;
    MigrationMoves(st, t, PutSeq(st.build, s.key, s.val), st.copied[s.key := s.val], Copy(h, b, j + 1));
  }

  /** The resizer passes positions without entries. */
  lemma Passing(st: State, t: nat, h: nat, pc: Pc)
    requires StateOk(st) && t in st.threads && Migrating(st.threads[t].pc) && st.threads[t].pc.h == h == Cur(st)
        && ThreadOk(st, t)
    requires BuildOk(st.build, st.copied) && CopyOk(st.tables[h], st.threads[t].pc, st.copied, st.contents)
    requires Migrating(pc) && pc.h == h && ProgressOf(st, pc) == ProgressOf(st, st.threads[t].pc)
    requires Shape(st, st.threads[t].(pc := pc))
    requires forall b, j :: At(st.tables[h], b, j).key != 0 ==> (Passed(pc, b, j) <==> Passed(st.threads[t].pc, b, j))
    ensures StateOk(Moved(st, t, pc))
  {
    hide TablesOk, LocksOk, ResizerOk, ThreadsOk, BinOf, Progress, Home;
    NoZeroKey(st.build, st.copied);
    hide Represents;
    CopyPasses(st.tables[h], st.threads[t].pc, pc, st.copied, st.contents);
    hide CopyOk, ThreadOk, Passed;
    assert st.(build := st.build, copied := st.copied) == st;
    assert st.(build := st.build) == st;
    MigrationMoves(st, t, st.build, st.copied, pc);
  }

  lemma EndOfChain(t: Table, h: nat, b: nat, j: nat)
    requires b < |t| && j == |t[b].slots|
    ensures forall b', j' :: At(t, b', j').key != 0 ==>
        (Passed(LockBin(h, b + 1), b', j') <==> Passed(Copy(h, b, j), b', j'))
  {
  }

  lemma FreeCellPassed(t: Table, h: nat, b: nat, j: nat)
    requires At(t, b, j).key == 0
    ensures forall b', j' :: At(t, b', j').key != 0 ==>
        (Passed(Copy(h, b, j + 1), b', j') <==> Passed(Copy(h, b, j), b', j'))
  {
  }

  lemma CopyStep(st: State, t: nat)
    requires StateOk(st) && t in st.threads && st.threads[t].pc.Copy?
    ensures Shape(st, st.threads[t]) && StateOk(Step(st, t))
  {
    hide Step, StepTryLock, StepUnlock, StepWrite, Represents, CopyOk, Progress, BinOf, Passed, Knows, At, PutSeq,
        LocksOk, ThreadsOk;
    var th := st.threads[t];
    var h, b, j := th.pc.h, th.pc.b, th.pc.j;
    ThreadIsOk(st, t);
    assert Shape(st, th);
    StepKinds(st, t);
    HolderOk(st, t);
    hide TablesOk, ResizerOk, ThreadOk, StateOk;
    if j == |st.tables[h][b].slots| {
      EndOfChain(st.tables[h], h, b, j);
      Passing(st, t, h, LockBin(h, b + 1));
    } else if At(st.tables[h], b, j).key == 0 {
      FreeCellPassed(st.tables[h], h, b, j);
      Passing(st, t, h, Copy(h, b, j + 1));
    } else {
      CopyEntry(st, t, h, b, j);
    }
  }

  lemma LockBinStep(st: State, t: nat)
    requires StateOk(st) && t in st.threads && st.threads[t].pc.LockBin?
    ensures Shape(st, st.threads[t]) && StateOk(Step(st, t))
  {
    hide Step, StepTryLock, StepUnlock, StepWrite, TablesOk, ResizerOk, ThreadsOk, BinOf, Represents, Progress, CopyOk,
        LocksOk, Knows;
    ThreadIsOk(st, t);
    StepKinds(st, t);
    HolderOk(st, t);
    BinAhead(st, t);
    var th := st.threads[t];
    var h, b := th.pc.h, th.pc.b;
    var tab := st.tables[h];
    assert st.threads[t := th] == st.threads;
    hide ThreadOk;
    if b == |tab| {
      Passing(st, t, h, Swap(h));
    } else if tab[b].lock == FREE {
      LockBinFree(st, t, h, b);
    } else {
      Passing(st, t, h, th.pc);
    }
  }

  /** The resizer has not been in the bin that it is going to lock. */
  lemma BinAhead(st: State, t: nat)
    requires StateOk(st) && t in st.threads && st.threads[t].pc.LockBin? && Shape(st, st.threads[t])
    requires st.threads[t].pc.h == Cur(st) && st.resizer == Somebody(t)
    ensures var h, b := st.threads[t].pc.h, st.threads[t].pc.b;
            b < |st.tables[h]| ==> st.tables[h][b].lock != RESIZE
  {
    hide TablesOk, ResizerOk, ThreadsOk, BinOf, Represents;
    var h, b := st.threads[t].pc.h, st.threads[t].pc.b;
    if b < |st.tables[h]| { assert InTable(st, h, b) && LockAt(st, h, b) == st.tables[h][b].lock; }
  }

  lemma LockBinFree(st: State, t: nat, h: nat, b: nat)
    requires StateOk(st) && t in st.threads && st.threads[t].pc == LockBin(h, b) && h == Cur(st) && b < |st.tables[h]|
    requires LockAt(st, h, b) == FREE
    ensures StateOk(Relocked(st, t, h, b, RESIZE, Copy(h, b, 0)))
  {
    hide Represents, LocksOk, Progress, CopyOk, Home, BinOf, ThreadsOk, TablesOk, Knows, ResizerOk;
    var pc := Copy(h, b, 0);
    var st' := Relocked(st, t, h, b, RESIZE, pc);
    ThreadIsOk(st, t);
    HolderOk(st, t);
    LockBinFreeLocks(st, t, h, b);
    LockBinFreeResizer(st, t, h, b);
    NoZeroKey(st.build, st.copied);
    hide BuildOk;
    RelockedTables(st, t, b, RESIZE, pc);
    KnowsResizer(st', st'.threads[t]);
    assert ThreadOk(st', t);
    hide ThreadOk;
    RelockedThreads(st, t, b, RESIZE, pc);
  }

  lemma LockBinFreeResizer(st: State, t: nat, h: nat, b: nat)
    requires StateOk(st) && t in st.threads && st.threads[t].pc == LockBin(h, b) && h == Cur(st) && b < |st.tables[h]|
    ensures ResizerOk(Relocked(st, t, h, b, RESIZE, Copy(h, b, 0)))
  {
    hide Represents, LocksOk, Progress, CopyOk, Home, BinOf, ThreadsOk;
    var st' := Relocked(st, t, h, b, RESIZE, Copy(h, b, 0));
    HolderOk(st, t);
    CopyKept(st.tables[h], st'.tables[h], LockBin(h, b), st.copied, st.contents);
    NoZeroKey(st.build, st.copied);
    LockBinPasses(st'.tables[h], h, b);
    CopyPasses(st'.tables[h], LockBin(h, b), Copy(h, b, 0), st.copied, st.contents);
  }

  lemma LockBinPasses(t: Table, h: nat, b: nat)
    ensures forall b', j :: At(t, b', j).key != 0 ==> (Passed(Copy(h, b, 0), b', j) <==> Passed(LockBin(h, b), b', j))
  {
  }

  lemma LockBinFreeLocks(st: State, t: nat, h: nat, b: nat)
    requires StateOk(st) && t in st.threads && st.threads[t].pc == LockBin(h, b) && h == Cur(st) && b < |st.tables[h]|
    requires LockAt(st, h, b) == FREE && st.resizer == Somebody(t)
    ensures LocksOk(Relocked(st, t, h, b, RESIZE, Copy(h, b, 0)))
    ensures Progress(Relocked(st, t, h, b, RESIZE, Copy(h, b, 0))) == Progress(st) + 1
  {
    var st' := Relocked(st, t, h, b, RESIZE, Copy(h, b, 0));
    hide Represents, TablesOk, ResizerOk, ThreadsOk, Home, BinOf;
    assert Progress(st) == b && Progress(st') == b + 1;
    hide Progress;
    RelockedHolders(st, t, b, RESIZE, Copy(h, b, 0));
    forall h', b' ensures InTable(st', h', b') ==>
      (LockAt(st', h', b').RESIZE? <==> h' < Cur(st') || b' < Progress(st'))
    {
      LockAtRelocked(st, t, h, b, RESIZE, Copy(h, b, 0), h', b');
    }
    LockAtRelocked(st, t, h, b, RESIZE, Copy(h, b, 0), h, b);
  }

  /** A thread takes the resize lock and creates the new table. */
  lemma TakeResizeStep(st: State, t: nat)
    requires StateOk(st) && t in st.threads && st.threads[t].pc.TakeResize? && FreshResizer(st, st.threads[t])
    ensures Shape(st, st.threads[t]) && StateOk(Step(st, t))
  {
    hide Step, StepTryLock, StepUnlock, StepWrite, Represents, CopyOk, BinOf, Knows, LocksOk, Progress, Home, ThreadsOk;
    var th := st.threads[t];
    ThreadIsOk(st, t);
    StepKinds(st, t);
    assert th.op.Resize? && th.op.n >= 1;
    if st.resizer.Somebody? {
      MoveKeepsLocks(st, t, Done(0));
      KnowsResizer(Moved(st, t, Done(0)), th.(pc := Done(0)));
      hide TablesOk, ResizerOk;
      MovedThreads(st, t, Done(0));
    } else {
      TakeResizeFree(st, t);
    }
  }

  lemma TakeResizeFree(st: State, t: nat)
    requires StateOk(st) && t in st.threads && st.threads[t].pc == TakeResize(|st.tables| - 1) && st.resizer == Nobody
    requires st.threads[t].op.Resize? && st.threads[t].op.n >= 1 && ThreadOk(st, t)
    ensures StateOk(Log(Goto(st.(resizer := Somebody(t), build := NewTable(st.threads[t].op.n), copied := map[]), t,
        LockBin(|st.tables| - 1, 0)), Internal))
  {
    hide Represents, CopyOk, BinOf, Knows, LocksOk, Home, ThreadsOk;
    var c := |st.tables| - 1;
    var st' := Log(Goto(st.(resizer := Somebody(t), build := NewTable(st.threads[t].op.n), copied := map[]), t,
        LockBin(c, 0)), Internal);
    assert Progress(st') == Progress(st) == 0;
    hide Progress;
    NewTableIsEmpty(st.threads[t].op.n);
    NothingPassed(st.tables[c], c, st.contents);
    assert TablesOk(st') && ResizerOk(st');
    KnowsResizer(st', st'.threads[t]);
    hide TablesOk, ResizerOk;
    SameLocks(st, st', t);
    assert CellsKept(st, st') && CurKept(st, st');
    LocksKeptBySame(st, st');
    hide CellsKept, CurKept, LockKept;
    OthersKept(st, st', t);
  }

  lemma NothingPassed(t: Table, h: nat, contents: map<nat, nat>)
    requires |t| >= 1
    ensures CopyOk(t, LockBin(h, 0), map[], contents)
  {
    hide BinOf;
  }

  /** A step that changes neither the tables nor who is in which critical section. */
  lemma SameLocks(st: State, st': State, t: nat)
    requires |st.tables| >= 1 && LocksOk(st) && st'.tables == st.tables && Progress(st') == Progress(st)
    requires t in st.threads && t in st'.threads && st'.threads == st.threads[t := st'.threads[t]]
        && !InCrit(st.threads[t].pc)
    ensures LocksOk(st')
  {
    hide Progress, Home, BinOf;
    forall h, b ensures InTable(st', h, b) == InTable(st, h, b) && LockAt(st', h, b) == LockAt(st, h, b) { }
    forall h: nat, b: nat | InTable(st', h, b) && LockAt(st', h, b).UPDATE?
      ensures Holds(st', LockAt(st', h, b).owner, h, b)
    {
      assert InTable(st, h, b);
      assert Holds(st, LockAt(st, h, b).owner, h, b);
      HomeSameSize(st, st', h, st.threads[LockAt(st, h, b).owner].op.k);
    }
  }

  lemma SetNewStep(st: State, t: nat)
    requires StateOk(st) && t in st.threads && st.threads[t].pc.SetNew?
    ensures Shape(st, st.threads[t]) && StateOk(Step(st, t))
  {
    hide Step, StepTryLock, StepUnlock, StepWrite, Represents, CopyOk, BinOf, Knows, LocksOk, Home, ThreadsOk;
    ThreadIsOk(st, t);
    StepKinds(st, t);
    HolderOk(st, t);
    var st' := Step(st, t);
    assert Progress(st') == Progress(st) == 0;
    hide Progress;
    assert TablesOk(st') && ResizerOk(st');
    KnowsResizer(st', st'.threads[t]);
    hide TablesOk, ResizerOk;
    SameLocks(st, st', t);
    assert CellsKept(st, st') && CurKept(st, st');
    LocksKeptBySame(st, st');
    hide CellsKept, CurKept, LockKept;
    CopierBuilds(st, st', t);
    OthersKept(st, st', t);
  }

  lemma CopierBuilds(st: State, st': State, t: nat)
    requires |st.tables| >= 1 && ThreadsOk(st) && st'.build == st.build
    ensures forall u :: u in st.threads && st.threads[u].pc.Copy? ==> |st'.build| >= 1
  {
    hide Knows, BinOf, Home;
    forall u | u in st.threads && st.threads[u].pc.Copy? ensures |st'.build| >= 1 { assert ThreadOk(st, u); }
  }

  lemma ReleaseResizeStep(st: State, t: nat)
    requires StateOk(st) && t in st.threads && st.threads[t].pc.ReleaseResize?
    ensures Shape(st, st.threads[t]) && StateOk(Step(st, t))
  {
    hide Step, StepTryLock, StepUnlock, StepWrite, Represents, CopyOk, BinOf, Knows, LocksOk, Home, ThreadsOk;
    ThreadIsOk(st, t);
    StepKinds(st, t);
    HolderOk(st, t);
    var st' := Step(st, t);
    assert Progress(st') == Progress(st) == 0;
    hide Progress;
    assert TablesOk(st') && ResizerOk(st');
    KnowsResizer(st', st'.threads[t]);
    hide TablesOk, ResizerOk;
    SameLocks(st, st', t);
    assert CellsKept(st, st') && CurKept(st, st');
    LocksKeptBySame(st, st');
    hide CellsKept, CurKept, LockKept;
    CopierBuilds(st, st', t);
    OthersKept(st, st', t);
  }

  // ------------------------------------------------------------------ the swap

  lemma SwapStep(st: State, t: nat)
    requires StateOk(st) && t in st.threads && st.threads[t].pc.Swap?
    ensures Shape(st, st.threads[t]) && StateOk(Step(st, t))
  {
    hide Step, StepTryLock, StepUnlock, StepWrite, Represents, CopyOk, BinOf, Knows, LocksOk, Home, ThreadsOk, Progress;
    ThreadIsOk(st, t);
    StepKinds(st, t);
    HolderOk(st, t);
    var st' := Step(st, t);
    var c := |st.tables| - 1;
    AllCopied(st.tables[c], c, st.copied, st.contents);
    SwapLocks(st, st', t);
    NoZeroKey(st.build, st.copied);
    SwapTables(st, st', t);
    KnowsResizer(st', st'.threads[t]);
    hide TablesOk, ResizerOk, BuildOk;
    assert CellsKept(st, st') && CurKept(st, st');
    LocksKeptBySame(st, st');
    hide CellsKept, CurKept, LockKept;
    CopierBuilds(st, st', t);
    OthersKept(st, st', t);
  }

  lemma SwapTables(st: State, st': State, t: nat)
    requires StateOk(st) && t in st.threads && st.threads[t].pc == Swap(|st.tables| - 1) && |st.build| >= 1
    requires st' == Log(Goto(st.(tables := st.tables + [st.build]), t, SetNew(|st.tables| - 1)), Internal)
    ensures TablesOk(st') && ResizerOk(st')
  {
    hide Represents, CopyOk, BinOf, LocksOk, Home, ThreadsOk, Progress, BuildOk;
    HolderOk(st, t);
    forall h: nat | h < Cur(st') ensures h in st'.published || Setting(st', h) {
      if h < Cur(st) {
        assert !Setting(st, h);
      }
    }
  }

  lemma SwapLocks(st: State, st': State, t: nat)
    requires StateOk(st) && t in st.threads && st.threads[t].pc == Swap(|st.tables| - 1)
    requires st.resizer == Somebody(t) && BuildOk(st.build, st.copied)
    requires st' == Log(Goto(st.(tables := st.tables + [st.build]), t, SetNew(|st.tables| - 1)), Internal)
    ensures LocksOk(st')
  {
    hide Represents, CopyOk, BinOf, Home, ThreadsOk, TablesOk, ResizerOk;
    var c := |st.tables| - 1;
    assert Progress(st) == |st.tables[c]| && Progress(st') == 0;
    hide Progress;
    forall h: nat, b: nat | InTable(st', h, b)
      ensures LockAt(st', h, b) == if h <= c then RESIZE else FREE
    {
      if h <= c { assert InTable(st, h, b) && LockAt(st', h, b) == LockAt(st, h, b); }
    }
  }

  // ------------------------------------------------------------------ every run

  lemma StepKeeps(st: State, t: nat)
    requires StateOk(st) && t in st.threads && !st.threads[t].pc.Done? && FreshResizer(st, st.threads[t])
    ensures Shape(st, st.threads[t]) && StateOk(Step(st, t)) && Commits(st, st.threads[t])
  {
    hide Step, StateOk, Represents;
    match st.threads[t].pc
    case LoadHt => ReadingStep(st, t);
    case Peek(_, _) => ReadingStep(st, t);
    case TryLock(_) => TryLockStep(st, t);
    case WaitNew(_) => ReadingStep(st, t);
    case Reload => ReadingStep(st, t);
    case Scan(_, _, _) => ReadingStep(st, t);
    case WriteVal(_, _) => WriteValStep(st, t);
    case WriteKey(_, _) => WriteKeyStep(st, t);
    case LinkNew(_) => LinkNewStep(st, t);
    case ReadVal(_, _) => ReadingStep(st, t);
    case ClearKey(_, _, _) => ClearKeyStep(st, t);
    case Unlock(_, _) => UnlockStep(st, t);
    case TakeResize(_) => TakeResizeStep(st, t);
    case LockBin(_, _) => LockBinStep(st, t);
    case Copy(_, _, _) => CopyStep(st, t);
    case Swap(_) => SwapStep(st, t);
    case SetNew(_) => SetNewStep(st, t);
    case ReleaseResize => ReleaseResizeStep(st, t);
  }

  lemma InitOk(st: State)
    requires Init(st)
    ensures StateOk(st)
  {
    hide BinOf, Home;
    NewTableIsEmpty(|st.tables[0]|);
    assert st.contents == map[];
  }

  lemma InvokeKeeps(st: State, t: nat, op: Op, st': State)
    requires StateOk(st) && Invoke(st, t, op, st')
    ensures StateOk(st')
  {
    hide Represents, CopyOk, BinOf, Home, Knows, BuildOk;
    assert Progress(st') == Progress(st);
    assert TablesOk(st') && ResizerOk(st');
    hide Progress, TablesOk, ResizerOk;
    InvokeLocks(st, t, op, st');
    forall u | u in st'.threads ensures ThreadOk(st', u) {
      if u == t { KnowsNothing(st', st'.threads[t]); }
      else { assert ThreadOk(st, u); hide ThreadOk; SameKnows(st, st', u); }
    }
  }

  lemma SameTables(st: State, st': State, h: nat, k: nat)
    requires IsTable(st, h) && st'.tables == st.tables
    ensures IsTable(st', h) && Home(st', h, k) == Home(st, h, k) && ChainLength(st', h, k) == ChainLength(st, h, k)
    ensures LockOf(st', h, k) == LockOf(st, h, k) && forall i :: Cell(st', h, k, i) == Cell(st, h, k, i)
  {
    hide BinOf;
  }

  lemma SameKnows(st: State, st': State, u: nat)
    requires |st.tables| >= 1 && st'.tables == st.tables && st'.build == st.build && st'.hist == st.hist
        && Progress(st') == Progress(st)
    requires u in st.threads && u in st'.threads && st'.threads[u] == st.threads[u] && ThreadOk(st, u)
    ensures ThreadOk(st', u)
  {
    hide BinOf, Home, Progress, Cell, ChainLength, LockOf;
    var th := st.threads[u];
    if th.pc.Peek? {
      SameTables(st, st', th.pc.h, th.op.k);
      if th.op.Remove? && Ahead(st, th.pc.h, th.op.k, th.pc.j) {
        var i :| th.pc.j <= i && Cell(st, th.pc.h, th.op.k, i).key == th.op.k;
        assert Cell(st', th.pc.h, th.op.k, i).key == th.op.k;
      }
    } else if InCrit(th.pc) {
      SameTables(st, st', th.pc.h, th.op.k);
    }
  }

  lemma InvokeLocks(st: State, t: nat, op: Op, st': State)
    requires |st.tables| >= 1 && LocksOk(st) && Invoke(st, t, op, st') && Progress(st') == Progress(st)
    ensures LocksOk(st')
  {
    hide Progress, Home, BinOf;
    forall h, b ensures InTable(st', h, b) == InTable(st, h, b) && LockAt(st', h, b) == LockAt(st, h, b) { }
    forall h: nat, b: nat | InTable(st', h, b) && LockAt(st', h, b).UPDATE?
      ensures Holds(st', LockAt(st', h, b).owner, h, b)
    {
      assert InTable(st, h, b);
      assert Holds(st, LockAt(st, h, b).owner, h, b);
      HomeSameSize(st, st', h, st.threads[LockAt(st, h, b).owner].op.k);
    }
  }

  /** Every state of every run, with any number of threads and resizes, meets the invariant. */
  lemma {:induction false} RunOk(r: seq<State>, i: nat)
    requires Run(r) && i < |r|
    ensures StateOk(r[i])
  {
    hide StateOk, Step, Init, Invoke;
    if i == 0 {
      InitOk(r[0]);
    } else {
      RunOk(r, i - 1);
      NextKeeps(r[i - 1], r[i]);
    }
  }

  lemma NextKeeps(st: State, st': State)
    requires StateOk(st) && Next(st, st')
    ensures StateOk(st')
  {
    hide StateOk, Step, Invoke, FreshResizer;
    if t, op :| Invoke(st, t, op, st') {
      InvokeKeeps(st, t, op, st');
    } else {
      var t :| t in st.threads && Shape(st, st.threads[t]) && !st.threads[t].pc.Done? && FreshResizer(st, st.threads[t])
               && st' == Step(st, t);
      StepKeeps(st, t);
    }
  }

  // ------------------------------------------------------------------ linearizability

  ghost predicate Effect(m: map<nat, nat>, e: Event, m': map<nat, nat>)
  {
    match e
    case Internal => m' == m
    case Inserted(_, k, v) => k !in m && m' == m[k := v]
    case Removed(_, k, v) => k in m && m[k] == v && m' == m - {k}
  }

  /** The answer r of an operation is that of an atomic map operation at a moment of its interval. */
  ghost predicate Explained(hist: seq<map<nat, nat>>, events: seq<Event>, t: nat, th: Thread, r: nat)
  {
    match th.op
    case Put(k, v) =>
      if r == 0 then NoEventSince(events, th.start, t) && SeenPresent(hist, th.start, k)
      else r == 1 && OneEventSince(events, th.start, t, Inserted(t, k, v))
    case Remove(k) =>
      if r == 0 then NoEventSince(events, th.start, t) && SeenAbsent(hist, th.start, k)
      else OneEventSince(events, th.start, t, Removed(t, k, r))
    case Resize(_) => NoEventSince(events, th.start, t)
  }

  ghost predicate Accounted(st: State, t: nat)
    requires t in st.threads
  {
    var th := st.threads[t];
    match th.pc
    case Unlock(_, r) => Explained(st.hist, st.events, t, th, r)
    case Done(r) => Explained(st.hist, st.events, t, th, r)
    case _ => NoEventSince(st.events, th.start, t)
  }

  ghost predicate HistoryOk(st: State)
  {
    && |st.hist| == |st.events| + 1
    && (forall i :: 0 <= i < |st.events| ==> Effect(st.hist[i], st.events[i], st.hist[i + 1]))
    && (forall t :: t in st.threads ==> st.threads[t].start <= |st.events| && Accounted(st, t))
  }

  /** The event that the next step of a thread logs. */
  function EventOf(t: nat, th: Thread): Event
  {
    match th.pc
    case WriteKey(_, _) => if th.op.Put? then Inserted(t, th.op.k, th.op.v) else Internal
    case LinkNew(_) => if th.op.Put? then Inserted(t, th.op.k, th.op.v) else Internal
    case ClearKey(_, _, r) => if th.op.Remove? then Removed(t, th.op.k, r) else Internal
    case _ => Internal
  }

  /** What the step of thread t has recorded. */
  ghost predicate Logged(st: State, st': State, t: nat, ev: Event)
    requires t in st.threads
  {
    && st'.hist == st.hist + [st'.contents] && st'.events == st.events + [ev] && Effect(st.contents, ev, st'.contents)
    && t in st'.threads && st'.threads == st.threads[t := st'.threads[t]]
    && st'.threads[t].op == st.threads[t].op && st'.threads[t].start == st.threads[t].start
  }

  lemma WriteLogs(st: State, t: nat, th: Thread)
    requires t in st.threads && st.threads[t] == th && Shape(st, th) && Writing(th.pc) && Commits(st, th)
    ensures Logged(st, StepWrite(st, t, th), t, EventOf(t, th))
    ensures StepWrite(st, t, th).threads[t].pc == if th.pc.WriteVal? then WriteKey(th.pc.h, th.pc.e)
        else Unlock(th.pc.h, if th.op.Put? then 1 else th.pc.r)
  {
    hide Home, BinOf, Cell, ChainLength, SetSlot, Link, At;
  }

  lemma ResizeLogs(st: State, t: nat, th: Thread)
    requires t in st.threads && st.threads[t] == th && Shape(st, th) && Resizing(th.pc)
    ensures Logged(st, StepResize(st, t, th), t, Internal)
    ensures th.op.Resize? && !StepResize(st, t, th).threads[t].pc.Unlock?
  {
    hide BinOf, PutSeq, SetLock, At, Home;
    assert st.threads[t := th] == st.threads;
  }

  lemma LockLogs(st: State, t: nat, th: Thread)
    requires t in st.threads && st.threads[t] == th && Shape(st, th)
    ensures th.pc.TryLock? ==> Logged(st, StepTryLock(st, t, th), t, Internal)
    ensures th.pc.TryLock? ==>
        !StepTryLock(st, t, th).threads[t].pc.Done? && !StepTryLock(st, t, th).threads[t].pc.Unlock?
    ensures th.pc.Unlock? ==>
        Logged(st, StepUnlock(st, t, th), t, Internal) && StepUnlock(st, t, th).threads[t].pc == Done(th.pc.r)
  {
    hide BinOf, SetLock, At, Home;
    assert st.threads[t := th] == st.threads;
  }

  lemma StepLogs(st: State, t: nat)
    requires t in st.threads && Shape(st, st.threads[t]) && !st.threads[t].pc.Done? && Commits(st, st.threads[t])
    ensures Logged(st, Step(st, t), t, EventOf(t, st.threads[t]))
  {
    hide Step, StepWrite, StepResize, StepTryLock, StepUnlock, NextPc, Shape, Commits;
    var th := st.threads[t];
    StepKinds(st, t);
    if Writing(th.pc) { WriteLogs(st, t, th); }
    else if Resizing(th.pc) { ResizeLogs(st, t, th); }
    else if th.pc.TryLock? || th.pc.Unlock? { LockLogs(st, t, th); }
  }

  /** The answers that are decided by reading. */
  lemma ReadingOutcome(st: State, t: nat)
    requires StateOk(st) && t in st.threads && Reading(st.threads[t].pc) && Shape(st, st.threads[t])
    ensures var th := st.threads[t]; var pc := NextPc(st, th);
            pc.Done? || pc.Unlock? ==>
              && (if pc.Done? then pc.result == 0 else pc.r == 0)
              && (th.op.Put? ==> SeenPresent(st.hist, th.start, th.op.k))
              && (th.op.Remove? ==> SeenAbsent(st.hist, th.start, th.op.k))
              && !th.op.Resize?
  {
    hide Home, BinOf, Progress, LocksOk, ResizerOk;
    ThreadIsOk(st, t);
    var th := st.threads[t];
    if th.pc.Peek? {
      PeekOutcome(st, th);
    } else if th.pc.Scan? && !NextPc(st, th).Scan? {
      WriterIsCurrent(st, t);
      var c, k := |st.tables| - 1, th.op.k;
      if th.op.Put? && th.pc.j < ChainLength(st, c, k) {
        assert At(st.tables[c], Home(st, c, k), th.pc.j).key == k;
        assert k in st.hist[|st.events|];
      }
      if th.op.Remove? && th.pc.j == ChainLength(st, c, k) {
        CellOutside(st, c, k);
        NoKeyMeansAbsent(st, k);
        assert k !in st.hist[|st.events|];
      }
    }
  }

  lemma ExplainedGrows(hist: seq<map<nat, nat>>, events: seq<Event>, t: nat, th: Thread, r: nat, m: map<nat, nat>,
        e: Event)
    requires Explained(hist, events, t, th, r) && th.start <= |events| && !By(e, t)
    ensures Explained(hist + [m], events + [e], t, th, r)
  {
    hide SeenPresent, SeenAbsent, NoEventSince, OneEventSince;
    match th.op
    case Put(k, v) =>
      if r == 0 { SeenGrows(hist, m, th.start, k); NoEventGrows(events, e, th.start, t); }
      else { OneEventGrows(events, e, th.start, t, Inserted(t, k, v)); }
    case Remove(k) =>
      if r == 0 { SeenGrows(hist, m, th.start, k); NoEventGrows(events, e, th.start, t); }
      else { OneEventGrows(events, e, th.start, t, Removed(t, k, r)); }
    case Resize(_) => NoEventGrows(events, e, th.start, t);
  }

  /** A thread that does not step stays accounted for. */
  lemma OtherAccounted(st: State, st': State, t: nat, u: nat, ev: Event)
    requires t in st.threads && u in st.threads && u != t && Logged(st, st', t, ev) && (ev.Internal? || ev.t == t)
    requires st.threads[u].start <= |st.events| && Accounted(st, u)
    ensures u in st'.threads && Accounted(st', u)
  {
    hide Explained, NoEventSince, Effect;
    var th := st.threads[u];
    match th.pc
    case Unlock(_, r) => ExplainedGrows(st.hist, st.events, u, th, r, st'.contents, ev);
    case Done(r) => ExplainedGrows(st.hist, st.events, u, th, r, st'.contents, ev);
    case _ => NoEventGrows(st.events, ev, th.start, u);
  }

  lemma WriterAccounted(st: State, t: nat, th: Thread)
    requires t in st.threads && st.threads[t] == th && Shape(st, th) && Writing(th.pc) && Commits(st, th)
    requires |st.hist| == |st.events| + 1 && th.start <= |st.events| && Accounted(st, t)
        && (th.pc.ClearKey? ==> th.pc.r != 0)
    ensures t in StepWrite(st, t, th).threads && Accounted(StepWrite(st, t, th), t)
  {
    WriteLogs(st, t, th);
    hide StepWrite, NoEventSince, Effect;
    NoEventGrows(st.events, EventOf(t, th), th.start, t);
  }

  lemma ReaderAccounted(st: State, t: nat, th: Thread)
    requires StateOk(st) && t in st.threads && st.threads[t] == th && Shape(st, th) && Reading(th.pc)
    requires |st.hist| == |st.events| + 1 && th.start <= |st.events| && Accounted(st, t)
    ensures Accounted(Moved(st, t, NextPc(st, th)), t)
  {
    ReadingOutcome(st, t);
    hide NoEventSince, SeenPresent, SeenAbsent, StateOk, NextPc, Shape;
    NoEventGrows(st.events, Internal, th.start, t);
    if !th.op.Resize? { SeenGrows(st.hist, st.contents, th.start, th.op.k); }
  }

  lemma OwnAccounted(st: State, t: nat)
    requires StateOk(st) && t in st.threads && Shape(st, st.threads[t]) && !st.threads[t].pc.Done?
        && Commits(st, st.threads[t])
    requires |st.hist| == |st.events| + 1 && st.threads[t].start <= |st.events| && Accounted(st, t)
    requires st.threads[t].pc.ClearKey? ==> st.threads[t].pc.r != 0
    ensures t in Step(st, t).threads && Accounted(Step(st, t), t)
  {
    hide Step, StepWrite, StepResize, StepTryLock, StepUnlock, NextPc, Shape, Commits, StateOk, NoEventSince, Explained;
    var th := st.threads[t];
    StepKinds(st, t);
    if Reading(th.pc) { ReaderAccounted(st, t, th); }
    else if Writing(th.pc) { WriterAccounted(st, t, th); }
    else if Resizing(th.pc) {
      ResizeLogs(st, t, th);
      NoEventGrows(st.events, Internal, th.start, t);
      ResizeExplained(Step(st, t), t);
    } else {
      LockLogs(st, t, th);
      if th.pc.Unlock? {
        ExplainedGrows(st.hist, st.events, t, th, th.pc.r, st.contents, Internal);
        ExplainedByOp(st.hist + [st.contents], st.events + [Internal], t, th, Step(st, t).threads[t], th.pc.r);
      } else {
        NoEventGrows(st.events, Internal, th.start, t);
      }
    }
  }

  lemma ResizeExplained(st: State, t: nat)
    requires t in st.threads && st.threads[t].op.Resize? && NoEventSince(st.events, st.threads[t].start, t)
    ensures Accounted(st, t)
  {
  }

  lemma ExplainedByOp(hist: seq<map<nat, nat>>, events: seq<Event>, t: nat, th: Thread, th': Thread, r: nat)
    requires Explained(hist, events, t, th, r) && th'.op == th.op && th'.start == th.start
    ensures Explained(hist, events, t, th', r)
  {
  }

  lemma ClearedValue(st: State, t: nat)
    requires StateOk(st) && t in st.threads && Shape(st, st.threads[t]) && Commits(st, st.threads[t])
    ensures st.threads[t].pc.ClearKey? ==> st.threads[t].pc.r != 0
    ensures |st.hist| == |st.events| + 1 && st.hist[|st.events|] == st.contents
  {
  }

  lemma StepHistory(st: State, t: nat)
    requires StateOk(st) && HistoryOk(st) && t in st.threads && !st.threads[t].pc.Done?
        && FreshResizer(st, st.threads[t])
    ensures Shape(st, st.threads[t]) && HistoryOk(Step(st, t))
  {
    hide Step, Shape, Accounted, Effect, Commits, FreshResizer, StateOk;
    StepKeeps(st, t);
    ClearedValue(st, t);
    var th := st.threads[t];
    var st' := Step(st, t);
    StepLogs(st, t);
    OwnAccounted(st, t);
    forall i | 0 <= i < |st'.events| ensures Effect(st'.hist[i], st'.events[i], st'.hist[i + 1]) {
      if i < |st.events| { assert Effect(st.hist[i], st.events[i], st.hist[i + 1]); }
    }
    forall u | u in st'.threads ensures st'.threads[u].start <= |st'.events| && Accounted(st', u) {
      if u != t { OtherAccounted(st, st', t, u, EventOf(t, th)); }
    }
  }

  lemma NextHistory(st: State, st': State)
    requires StateOk(st) && HistoryOk(st) && Next(st, st')
    ensures HistoryOk(st')
  {
    hide StateOk, Step, FreshResizer, Effect;
    if t, op :| Invoke(st, t, op, st') {
    } else {
      var t :| t in st.threads && Shape(st, st.threads[t]) && !st.threads[t].pc.Done? && FreshResizer(st, st.threads[t])
               && st' == Step(st, t);
      StepHistory(st, t);
    }
  }

  lemma {:induction false} RunHistory(r: seq<State>, i: nat)
    requires Run(r) && i < |r|
    ensures HistoryOk(r[i])
  {
    if i == 0 {
    } else {
      hide StateOk, HistoryOk, Next;
      RunHistory(r, i - 1);
      RunOk(r, i - 1);
      NextHistory(r[i - 1], r[i]);
    }
  }

  // ------------------------------------------------------------------ the theorems

  /** h->ht holds exactly the abstract map, in every state of every run: nothing is lost or duplicated
      by updates or by migrations. */
  lemma CurrentTableIsTheMap(r: seq<State>, i: nat)
    requires Run(r) && i < |r|
    ensures |r[i].tables| >= 1 && Represents(r[i].tables[|r[i].tables| - 1], r[i].contents)
  {
    RunOk(r, i);
  }

  /** Every step is an atomic operation on the abstract map or leaves it alone, and the answer of every
      completed put and remove is that of such an operation at a moment between its call and its return.
      This covers the reads without the lock that let a put or a remove fail early. */
  lemma Linearizable(r: seq<State>, i: nat, t: nat)
    requires Run(r) && i < |r|
    ensures |r[i].hist| == |r[i].events| + 1
    ensures forall j :: 0 <= j < |r[i].events| ==> Effect(r[i].hist[j], r[i].events[j], r[i].hist[j + 1])
    ensures t in r[i].threads && r[i].threads[t].pc.Done? ==>
              Explained(r[i].hist, r[i].events, t, r[i].threads[t], r[i].threads[t].pc.result)
  {
    hide Run;
    RunHistory(r, i);
  }

  /** A bucket lock that is RESIZE stays RESIZE, and the chain under it never changes again. */
  lemma ResizeIsForever(r: seq<State>, i: nat, h: nat, b: nat)
    requires Run(r) && i + 1 < |r| && InTable(r[i], h, b) && LockAt(r[i], h, b).RESIZE?
    ensures InTable(r[i + 1], h, b) && r[i + 1].tables[h][b] == r[i].tables[h][b]
  {
    hide StateOk;
    RunOk(r, i);
    var st, st' := r[i], r[i + 1];
    assert Next(st, st');
    hide Run;
    if t, op :| Invoke(st, t, op, st') {
    } else {
      var t :| t in st.threads && Shape(st, st.threads[t]) && !st.threads[t].pc.Done? && FreshResizer(st, st.threads[t])
               && st' == Step(st, t);
      FrozenStep(st, t, h, b);
    }
  }

  lemma FrozenStep(st: State, t: nat, h: nat, b: nat)
    requires StateOk(st) && t in st.threads && Shape(st, st.threads[t]) && !st.threads[t].pc.Done?
    requires InTable(st, h, b) && LockAt(st, h, b).RESIZE?
    ensures InTable(Step(st, t), h, b) && Step(st, t).tables[h][b] == st.tables[h][b]
  {
    hide StateOk, Step, BinOf, NextPc, PutSeq, Knows, SetSlot, Link;
    ThreadIsOk(st, t);
    StepKinds(st, t);
    var th := st.threads[t];
    if InCrit(th.pc) {
      assert LockAt(st, th.pc.h, Home(st, th.pc.h, th.op.k)) == LockOf(st, th.pc.h, th.op.k);
    }
  }

  /** Whoever is inside the critical section of a bucket works on h->ht, and works there alone. */
  lemma UpdatersWorkOnCurrent(r: seq<State>, i: nat, t: nat, u: nat)
    requires Run(r) && i < |r| && t in r[i].threads && u in r[i].threads
    requires InCrit(r[i].threads[t].pc) && InCrit(r[i].threads[u].pc)
    ensures r[i].threads[t].pc.h == Cur(r[i])
    ensures Shape(r[i], r[i].threads[t]) && Shape(r[i], r[i].threads[u])
    ensures var a, b := r[i].threads[t], r[i].threads[u];
            Home(r[i], a.pc.h, a.op.k) == Home(r[i], b.pc.h, b.op.k) ==> t == u
  {
    RunOk(r, i);
    hide Run, StateOk, Home;
    WriterIsCurrent(r[i], t);
    WriterIsCurrent(r[i], u);
    ThreadIsOk(r[i], t);
    ThreadIsOk(r[i], u);
  }

  /** An updater turned away from table h waits for a resizer that is at work on it, or can already go
      on, and then on a newer table. */
  lemma TurnedAwayGoesOn(r: seq<State>, i: nat, t: nat, h: nat)
    requires Run(r) && i < |r| && t in r[i].threads && r[i].threads[t].pc == WaitNew(h)
    ensures h in r[i].published ==> h < Cur(r[i])
    ensures h !in r[i].published ==>
              r[i].resizer.Somebody? && r[i].resizer.t in r[i].threads &&
              (var pc := r[i].threads[r[i].resizer.t].pc; (Migrating(pc) && pc.h == h) || pc == SetNew(h))
  {
    RunOk(r, i);
    hide Run;
    var st := r[i];
    ThreadIsOk(st, t);
    assert h <= Cur(st);
    if h !in st.published && h < Cur(st) { assert Setting(st, h); }
  }

  /** When a resizer swaps, it has copied every binding into the new table. */
  lemma SwapFindsEverythingCopied(r: seq<State>, i: nat, t: nat, h: nat)
    requires Run(r) && i < |r| && t in r[i].threads && r[i].threads[t].pc == Swap(h)
    ensures h == Cur(r[i]) && Represents(r[i].build, r[i].contents)
  {
    hide Run, Represents, CopyOk, BinOf, LocksOk, ThreadsOk, TablesOk, Progress;
    RunOk(r, i);
    ThreadIsOk(r[i], t);
    HolderOk(r[i], t);
    AllCopied(r[i].tables[h], h, r[i].copied, r[i].contents);
  }
}
