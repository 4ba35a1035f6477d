/** Why a resizer must have read h->ht after the last resize: one that takes the resize lock with an older
    table finds every bucket of it in RESIZE, copies nothing, and publishes an empty table. */
module ClhtLbResStale {
  import opened Hashing
  import opened ClhtLbRes
  import opened ClhtLbResProof

  predicate CanStep(st: State, t: nat)
  {
    t in st.threads && Shape(st, st.threads[t]) && !st.threads[t].pc.Done?
  }

  /** Only thread t takes steps, whatever table it has read. */
  ghost predicate Solo(s: seq<State>, t: nat)
  {
    |s| > 0 && forall i :: 0 <= i < |s| - 1 ==> CanStep(s[i], t) && s[i + 1] == Step(s[i], t)
  }

  lemma {:induction false} Before(st: State, t: nat, s: seq<State>)
    requires CanStep(st, t) && Solo(s, t) && s[0] == Step(st, t)
    ensures Solo([st] + s, t)
  {
    hide Step;
    var s' := [st] + s;
    forall i | 0 <= i < |s'| - 1 ensures CanStep(s'[i], t) && s'[i + 1] == Step(s'[i], t) {
      if i > 0 { assert s'[i] == s[i - 1] && s'[i + 1] == s[i]; }
    }
  }

  ghost predicate AllResize(t: Table)
  {
    forall b :: 0 <= b < |t| ==> t[b].lock == RESIZE
  }

  /** A resizer passes over buckets that are in RESIZE already. */
  lemma {:induction false} PassesOver(st: State, t: nat, h: nat, b: nat) returns (s: seq<State>)
    requires CanStep(st, t) && st.threads[t].pc == LockBin(h, b) && AllResize(st.tables[h])
    ensures Solo(s, t) && s[0] == st && CanStep(s[|s| - 1], t)
    ensures var last := s[|s| - 1];
            last.threads[t].pc == Swap(h) && last.tables == st.tables && last.build == st.build
                && last.contents == st.contents
    decreases |st.tables[h]| - b
  {
    var st' := Step(st, t);
    if b == |st.tables[h]| {
      s := [st'];
    } else {
      s := PassesOver(st', t, h, b + 1);
    }
    Before(st, t, s);
    s := [st] + s;
  }

  /** The buckets of every table but the published one are in RESIZE. */
  lemma OldTablesAreResized(st: State, h: nat)
    requires TablesOk(st) && LocksOk(st) && h < Cur(st)
    ensures AllResize(st.tables[h])
  {
    forall b | 0 <= b < |st.tables[h]| ensures st.tables[h][b].lock == RESIZE {
      assert InTable(st, h, b) && LockAt(st, h, b) == st.tables[h][b].lock;
    }
  }

  lemma EmptyStandsForNothing(n: nat, m: map<nat, nat>)
    requires n >= 1
    ensures Represents(NewTable(n), m) <==> m == map[]
  {
    hide BinOf;
    NewTableIsEmpty(n);
    if Represents(NewTable(n), m) { RepresentsOneMap(NewTable(n), m, map[]); }
  }

  /** From any reachable state, a resizer that gets the resize lock with a table that is no longer the
      published one goes on to publish an empty table, which stands for the map only if that is empty. */
  lemma StaleResizerLosesTheMap(r: seq<State>, i: nat, t: nat) returns (s: seq<State>)
    requires Run(r) && i < |r| && t in r[i].threads && r[i].threads[t].pc.TakeResize?
    requires r[i].resizer.Nobody? && r[i].threads[t].pc.h != Cur(r[i])
    ensures Solo(s, t) && s[0] == r[i]
    ensures var st := s[|s| - 1];
            |st.tables| == |r[i].tables| + 1 && st.contents == r[i].contents
            && (Represents(st.tables[|st.tables| - 1], st.contents) <==> r[i].contents == map[])
  {
    hide Run, StateOk, Represents, NewTable, Shape, Step, Solo, AllResize;
    RunOk(r, i);
    var st := r[i];
    TakesStale(st, t);
    s := PassesOver(Step(st, t), t, st.threads[t].pc.h, 0);
    var last := s[|s| - 1];
    Swaps(last, t);
    After(s, t);
    Before(st, t, s + [Step(last, t)]);
    s := [st] + (s + [Step(last, t)]);
    EmptyStandsForNothing(st.threads[t].op.n, st.contents);
  }

  lemma TakesStale(st: State, t: nat)
    requires StateOk(st) && t in st.threads && st.threads[t].pc.TakeResize? && st.resizer.Nobody?
    requires st.threads[t].pc.h != Cur(st)
    ensures CanStep(st, t) && st.threads[t].op.Resize? && st.threads[t].op.n >= 1
    ensures var st', h := Step(st, t), st.threads[t].pc.h;
            && CanStep(st', t) && st'.threads[t].pc == LockBin(h, 0) && AllResize(st'.tables[h])
            && st'.tables == st.tables && st'.contents == st.contents
            && st'.build == NewTable(st.threads[t].op.n)
  {
    hide Represents, ResizerOk, NewTable;
    ThreadIsOk(st, t);
    OldTablesAreResized(st, st.threads[t].pc.h);
  }

  lemma Swaps(st: State, t: nat)
    requires CanStep(st, t) && st.threads[t].pc.Swap?
    ensures Step(st, t).tables == st.tables + [st.build] && Step(st, t).contents == st.contents
  {
  }

  lemma {:induction false} After(s: seq<State>, t: nat)
    requires Solo(s, t) && CanStep(s[|s| - 1], t)
    ensures Solo(s + [Step(s[|s| - 1], t)], t)
  {
    hide Step;
    var s' := s + [Step(s[|s| - 1], t)];
    forall i | 0 <= i < |s'| - 1 ensures CanStep(s'[i], t) && s'[i + 1] == Step(s'[i], t) {
      if i < |s| - 1 { assert s'[i] == s[i] && s'[i + 1] == s[i + 1]; }
    }
  }
}
