/** A run in which a remove returns zero although the entry of its key is in the bucket from its call to its return: a
    remover of another key has tagged the entry, and puts it back afterwards. */
module ClhtMapRemMissed {
  import opened ClhtMapRem
  import opened ClhtMapRemScenes

  lemma BeginsHeld(s: Scene, t: nat, k: nat, v: nat) returns (s': Scene, a: nat)
    requires Played(s) && HoldsOne(s.b, REMOV, k, v) && (t in s.ths ==> s.ths[t].pc.Done?) && k != 0
    ensures Played(s') && s'.b == s.b && t in s'.ths && s'.ths == s.ths[t := s'.ths[t]]
    ensures s'.ths[t] == Thread(Remove(k), s'.ths[t].start, -2, EMPTY.snap, RemVal(0))
    ensures a < |s'.r| && s'.r[a].threads == s'.ths && HeldSince(s'.r, a, k)
  {
    s' := Begins(s, t, Remove(k));
    hide Run;
    a := |s'.r| - 1;
  }

  /** A remove looks at slot j and does not find its key there. */
  lemma LooksPast(s: Scene, t: nat, j: nat, a: nat, k: nat, v: nat) returns (s': Scene)
    requires Played(s) && HoldsOne(s.b, REMOV, k, v) && t in s.ths && j < 3 && k != 0 && HeldSince(s.r, a, k)
    requires s.ths[t] == Thread(Remove(k), s.ths[t].start, -2, EMPTY.snap, RemVal(j))
    ensures Played(s') && s'.b == s.b && s.r <= s'.r && HeldSince(s'.r, a, k)
    ensures s'.ths == s.ths[t := s.ths[t].(pc := if j < 2 then RemVal(j + 1) else Done(0))]
  {
    hide Played, HeldSince;
    s' := Acts(s, t, a, k);
    s' := Acts(s', t, a, k);
  }

  /** A remove that begins while the entry of its key is tagged finds nothing. */
  lemma RemovesInVain(s: Scene, t: nat, k: nat, v: nat) returns (s': Scene, a: nat)
    requires Played(s) && HoldsOne(s.b, REMOV, k, v) && (t in s.ths ==> s.ths[t].pc.Done?) && k != 0
    ensures Played(s') && s'.b == s.b && t in s'.ths && s'.ths == s.ths[t := s'.ths[t]]
    ensures a < |s'.r| && t in s'.r[a].threads
    ensures s'.r[a].threads[t].op == Remove(k) && s'.r[a].threads[t].pc == RemVal(0)
    ensures HeldSince(s'.r, a, k) && s'.ths[t].op == Remove(k) && s'.ths[t].pc == Done(0)
  {
    hide Played, HeldSince, Watched;
    s', a := BeginsHeld(s, t, k, v);
    s' := LooksPast(s', t, 0, a, k, v);
    s' := LooksPast(s', t, 1, a, k, v);
    s' := LooksPast(s', t, 2, a, k, v);
  }

  /** For any two keys and values: thread 2 removes k and gets zero, while k is held from its call to the end of the
      run, and the run ends with the entry of k as it was. */
  lemma HeldKeyIsMissed(k: nat, k': nat, v: nat, v': nat) returns (r: seq<State>, a: nat)
    requires k != k' && k != 0 && k' != 0 && v != 0 && v' != 0
    ensures Run(r) && a < |r| && HeldSince(r, a, k)
    ensures 2 in r[a].threads && r[a].threads[2].op == Remove(k) && r[a].threads[2].pc == RemVal(0)
    ensures var st := r[|r| - 1];
            && 2 in st.threads && st.threads[2].op == Remove(k) && st.threads[2].pc == Done(0)
            && HoldsOne(st.b, VALID, k, v)
  {
    hide HeldSince, Run, Step, Played, HoldsOne, Vacant, ThreadShape;
    var s := Opening();
    s := Puts(s, 1, k', v');
    s := AboutToTag(s, 0, k', v');
    s := Removes(s, 1, k', v');
    s := Puts(s, 1, k, v);
    s := Tags(s, 0, k, v);
    s, a := RemovesInVain(s, 2, k, v);
    s := PutsBack(s, a, k, k', v);
    r := s.r;
    Closing(s);
  }

  /** The remover of the other key looks at the key again and takes its tag off. */
  lemma PutsBack(s: Scene, a: nat, k: nat, k': nat, v: nat) returns (s': Scene)
    requires Played(s) && HoldsOne(s.b, REMOV, k, v) && CanGo(s, 0)
    requires s.ths[0].pc == Recheck(0) && s.ths[0].op == Remove(k')
    requires k != k' && HeldSince(s.r, a, k)
    ensures Played(s') && HoldsOne(s'.b, VALID, k, v) && 0 in s'.ths && s'.ths == s.ths[0 := s'.ths[0]]
    ensures s.r <= s'.r && HeldSince(s'.r, a, k)
  {
    hide Played, HeldSince;
    s' := Acts(s, 0, a, k);
    assert s'.b == s.b && s'.ths[0].pc == Restore(0);
    s' := Acts(s', 0, a, k);
  }
}
