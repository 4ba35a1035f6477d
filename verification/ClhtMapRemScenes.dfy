/** Runs of the bucket with removal by tagging, put together from single steps and whole operations of one entry in the
    first slot. */
module ClhtMapRemScenes {
  import opened ClhtMapRem

  /** A run, with the bucket and the threads it has come to. */
  datatype Scene = Scene(r: seq<State>, b: Bucket, ths: map<nat, Thread>)

  ghost predicate Played(s: Scene)
  {
    Run(s.r) && s.r[|s.r| - 1].b == s.b && s.r[|s.r| - 1].threads == s.ths
  }

  /** The first slot holds the key in every state from number a on. */
  ghost predicate HeldSince(r: seq<State>, a: nat, k: nat)
  {
    forall j :: a <= j < |r| ==> Held(r[j].b, 0) && r[j].b.key[0] == k
  }

  ghost predicate KeyHeld(b: Bucket, q: nat)
  {
    exists m: nat :: Held(b, m) && b.key[m] == q
  }

  /** In every state from number a on, thread 0 is under way and no slot holds q. */
  ghost predicate Watched(r: seq<State>, a: nat, q: nat)
  {
    a < |r| && forall j :: a <= j < |r| ==> !KeyHeld(r[j].b, q) && 0 in r[j].threads && !r[j].threads[0].pc.Done?
  }

  /** The bucket and the threads may go on being watched. */
  ghost predicate Watchable(b: Bucket, ths: map<nat, Thread>, q: nat)
  {
    !KeyHeld(b, q) && 0 in ths && !ths[0].pc.Done?
  }

  lemma {:induction false} Append(r: seq<State>, st: State)
    requires Run(r) && Next(r[|r| - 1], st)
    ensures Run(r + [st])
  {
    hide Next;
    forall i | 0 <= i < |r| ensures Next((r + [st])[i], (r + [st])[i + 1]) {
      if i < |r| - 1 { assert Next(r[i], r[i + 1]); }
    }
  }

  predicate CanGo(s: Scene, t: nat)
  {
    Shape(s.b) && t in s.ths && ThreadShape(s.ths[t]) && !s.ths[t].pc.Done?
  }

  /** Thread t takes a step. */
  lemma Acts(s: Scene, t: nat, a: nat, k: nat) returns (s': Scene)
    requires Played(s) && CanGo(s, t)
    ensures Played(s') && s'.b == Step(s.b, t, s.ths[t]).b && s'.ths == s.ths[t := Step(s.b, t, s.ths[t]).th]
    ensures s.r <= s'.r && |s'.r| == |s.r| + 1
    ensures HeldSince(s.r, a, k) && Held(s'.b, 0) && s'.b.key[0] == k ==> HeldSince(s'.r, a, k)
    ensures forall a': nat, q :: Watched(s.r, a', q) && Watchable(s'.b, s'.ths, q) ==> Watched(s'.r, a', q)
  {
    hide Step, KeyHeld;
    var st := s.r[|s.r| - 1];
    var st' := StepThread(st, t);
    assert CanStep(st, t);
    assert Next(st, st');
    hide Next;
    Append(s.r, st');
    s' := Scene(s.r + [st'], st'.b, st'.threads);
  }

  /** Thread t begins an operation. */
  lemma Begins(s: Scene, t: nat, op: Op) returns (s': Scene)
    requires Played(s) && (t in s.ths ==> s.ths[t].pc.Done?) && op.k != 0 && (op.Put? ==> op.v != 0)
    ensures Played(s') && s'.b == s.b && t in s'.ths && s'.ths == s.ths[t := s'.ths[t]]
    ensures s.r <= s'.r && |s'.r| == |s.r| + 1
    ensures var th := s'.ths[t];
            th == Thread(op, th.start, -2, EMPTY.snap, if op.Put? then ReadSnap else RemVal(0))
    ensures forall a: nat, q :: Watched(s.r, a, q) && Watchable(s'.b, s'.ths, q) ==> Watched(s'.r, a, q)
  {
    hide KeyHeld;
    var st := s.r[|s.r| - 1];
    var begun := Thread(op, |st.events|, -2, EMPTY.snap, if op.Put? then ReadSnap else RemVal(0));
    var st' := st.(threads := st.threads[t := begun]);
    assert Invoke(st, t, op, st');
    Append(s.r, st');
    s' := Scene(s.r + [st'], s.b, st'.threads);
  }

  predicate Vacant(b: Bucket) { Shape(b) && b.snap.marks == [INVLD, INVLD, INVLD] }

  /** The only entry of the bucket is in its first slot. */
  predicate HoldsOne(b: Bucket, m: Mark, k: nat, v: nat)
  {
    Shape(b) && b.snap.marks == [m, INVLD, INVLD] && b.key[0] == k && b.val[0] == v
  }

  /** While only other threads act, and on keys other than q, thread 0 and the absence of q go on. */
  ghost predicate StillWatched(s: Scene, s': Scene, t: nat, k: nat)
  {
    t != 0 ==> forall a: nat, q :: q != k && Watched(s.r, a, q) ==> Watched(s'.r, a, q)
  }

  /** A bucket in which no slot holds another key than k. */
  ghost predicate OnlyKey(b: Bucket, k: nat)
  {
    forall q :: q != k ==> !KeyHeld(b, q)
  }

  lemma OneIsOnly(b: Bucket, m: Mark, k: nat, v: nat)
    requires HoldsOne(b, m, k, v)
    ensures OnlyKey(b, k)
  {
  }

  lemma NoneIsOnly(b: Bucket, k: nat)
    requires Shape(b) && forall m: nat :: m < SLOTS ==> !IsHeld(b.snap.marks[m])
    ensures OnlyKey(b, k)
  {
  }

  lemma StillWatchedStep(s: Scene, s': Scene, t: nat, k: nat)
    requires forall a: nat, q :: Watched(s.r, a, q) && Watchable(s'.b, s'.ths, q) ==> Watched(s'.r, a, q)
    requires Played(s) && OnlyKey(s'.b, k) && t in s'.ths && s'.ths == s.ths[t := s'.ths[t]]
    ensures StillWatched(s, s', t, k)
  {
    hide KeyHeld;
    if t != 0 {
      forall a: nat, q | q != k && Watched(s.r, a, q) ensures Watched(s'.r, a, q) {
        ThreadZeroGoesOn(s, a, q);
      }
    }
  }

  lemma ThreadZeroGoesOn(s: Scene, a: nat, q: nat)
    requires Played(s) && Watched(s.r, a, q)
    ensures 0 in s.ths && !s.ths[0].pc.Done?
  {
    hide KeyHeld;
  }

  // ------------------------------------------------------------------ single steps

  predicate Looking(pc: Pc, v: nat)
  {
    pc == RemVal(0) || pc == RemMap(0, v) || pc == RemKey(0, v) || pc == RemChk(0, v)
  }

  /** A remove looks at the entry of its key. */
  lemma RemoverLooks(b: Bucket, t: nat, th: Thread, k: nat, v: nat)
    requires HoldsOne(b, VALID, k, v) && ThreadShape(th) && th.op == Remove(k) && Looking(th.pc, v)
    ensures var o := Step(b, t, th); o.b == b && ThreadShape(o.th) && o.th == th.(pc := o.th.pc)
    ensures Step(b, t, th).th.pc == match th.pc
                                    case RemVal(_) => RemMap(0, v)
                                    case RemMap(_, _) => RemKey(0, v)
                                    case RemKey(_, _) => RemChk(0, v)
                                    case _ => TagCas(0)
  {
  }

  /** It tags the entry in the first slot, whatever its key. */
  lemma RemoverTags(b: Bucket, t: nat, th: Thread, k: nat, v: nat)
    requires HoldsOne(b, VALID, k, v) && ThreadShape(th) && th.pc == TagCas(0)
    ensures var o := Step(b, t, th); HoldsOne(o.b, REMOV, k, v) && ThreadShape(o.th) && o.th == th.(pc := Recheck(0))
  {
  }

  predicate Taking(pc: Pc, v: nat) { pc == Recheck(0) || pc == ReadBack(0) || pc == Clear(0, v) }

  /** It takes the tagged entry of its key out. */
  lemma RemoverTakes(b: Bucket, t: nat, th: Thread, k: nat, v: nat)
    requires HoldsOne(b, REMOV, k, v) && ThreadShape(th) && th.op == Remove(k) && Taking(th.pc, v)
    ensures var o := Step(b, t, th); ThreadShape(o.th) && o.th == th.(pc := o.th.pc)
    ensures match th.pc
            case Recheck(_) => Step(b, t, th).b == b && Step(b, t, th).th.pc == ReadBack(0)
            case ReadBack(_) => Step(b, t, th).b == b && Step(b, t, th).th.pc == Clear(0, v)
            case _ => Vacant(Step(b, t, th).b) && Step(b, t, th).th.pc == Done(v)
  {
  }

  /** A search in a bucket without entries. */
  lemma SearcherLooks(b: Bucket, t: nat, th: Thread)
    requires Vacant(b) && ThreadShape(th) && th.op.Put? && th.ei == -2 && th.s == b.snap
    requires th.pc.SearchVal? || th.pc.SearchMap?
    ensures var o := Step(b, t, th);
            o.b == b && ThreadShape(o.th)
            && match th.pc
               case SearchVal(i) => o.th == th.(pc := SearchMap(i, b.val[i]))
               case _ => o.th == if th.pc.i < 2 then th.(pc := SearchVal(th.pc.i + 1)) else th.(ei := 0, pc := Cas1)
  {
  }

  /** A put into the first slot. */
  ghost predicate Storing(b: Bucket, th: Thread, k: nat, v: nat)
  {
    && Shape(b) && ThreadShape(th) && th.op == Put(k, v) && th.ei == 0 && th.s == b.snap
    && match th.pc
       case Cas1 => Vacant(b)
       case StoreVal => b.snap.marks == [INSRT, INVLD, INVLD]
       case StoreKey => b.snap.marks == [INSRT, INVLD, INVLD] && b.val[0] == v
       case Cas2 => HoldsOne(b, INSRT, k, v)
       case _ => false
  }

  lemma PutterStores(b: Bucket, t: nat, th: Thread, k: nat, v: nat)
    requires Storing(b, th, k, v)
    ensures var o := Step(b, t, th);
            match th.pc
            case Cas1 => Storing(o.b, o.th, k, v) && o.th.pc == StoreVal
            case StoreVal => Storing(o.b, o.th, k, v) && o.th.pc == StoreKey
            case StoreKey => Storing(o.b, o.th, k, v) && o.th.pc == Cas2
            case _ => HoldsOne(o.b, VALID, k, v) && o.th.pc.Done?
  {
  }

  // ------------------------------------------------------------------ whole operations

  /** A whole put into a bucket without entries. */
  lemma Puts(s: Scene, t: nat, k: nat, v: nat) returns (s': Scene)
    requires Played(s) && Vacant(s.b) && (t in s.ths ==> s.ths[t].pc.Done?) && k != 0 && v != 0
    ensures Played(s') && t in s'.ths && s'.ths == s.ths[t := s'.ths[t]] && s'.ths[t].pc.Done?
    ensures HoldsOne(s'.b, VALID, k, v)
  {
    hide Played, HeldSince, Step;
    s' := StoresItsKey(s, t, k, v, 0);
    s' := Stores(s', t, k, v, 0);
  }

  /** A put up to the compare-and-swap that commits it. */
  lemma StoresItsKey(s: Scene, t: nat, k: nat, v: nat, o: nat) returns (s': Scene)
    requires Played(s) && Vacant(s.b) && (t in s.ths ==> s.ths[t].pc.Done?) && k != 0 && v != 0
    ensures Played(s') && t in s'.ths && s'.ths == s.ths[t := s'.ths[t]] && s'.ths[t].pc == Cas2
    ensures Storing(s'.b, s'.ths[t], k, v) && s.r <= s'.r && StillWatched(s, s', t, o)
  {
    hide Played, HeldSince, Step, Watched;
    s' := BeginsPut(s, t, k, v, o);
    s' := SearchesInVain(s', t, o);
    s' := Stores(s', t, k, v, o);
    s' := Stores(s', t, k, v, o);
    s' := Stores(s', t, k, v, o);
  }

  lemma BeginsPut(s: Scene, t: nat, k: nat, v: nat, o: nat) returns (s': Scene)
    requires Played(s) && Vacant(s.b) && (t in s.ths ==> s.ths[t].pc.Done?) && k != 0 && v != 0
    ensures Played(s') && s'.b == s.b && t in s'.ths && s'.ths == s.ths[t := s'.ths[t]]
    ensures s'.ths[t] == Thread(Put(k, v), s'.ths[t].start, -2, s.b.snap, SearchVal(0))
    ensures s.r <= s'.r && StillWatched(s, s', t, o)
  {
    hide Played, HeldSince, Watched, OnlyKey, Watchable;
    NoneIsOnly(s.b, o);
    var s1 := Begins(s, t, Put(k, v));
    StillWatchedStep(s, s1, t, o);
    s' := Acts(s1, t, 0, 0);
    StillWatchedStep(s1, s', t, o);
  }

  lemma StoringIsOnly(b: Bucket, th: Thread, k: nat, v: nat, o: nat)
    requires Storing(b, th, k, v)
    ensures OnlyKey(b, o)
  {
    NoneIsOnly(b, o);
  }

  lemma Stores(s: Scene, t: nat, k: nat, v: nat, o: nat) returns (s': Scene)
    requires Played(s) && t in s.ths && Storing(s.b, s.ths[t], k, v)
    ensures Played(s') && t in s'.ths && s'.ths == s.ths[t := s'.ths[t]] && s.r <= s'.r
    ensures match s.ths[t].pc
            case Cas1 => Storing(s'.b, s'.ths[t], k, v) && s'.ths[t].pc == StoreVal
            case StoreVal => Storing(s'.b, s'.ths[t], k, v) && s'.ths[t].pc == StoreKey
            case StoreKey => Storing(s'.b, s'.ths[t], k, v) && s'.ths[t].pc == Cas2
            case _ => HoldsOne(s'.b, VALID, k, v) && s'.ths[t].pc.Done?
    ensures !s.ths[t].pc.Cas2? ==> StillWatched(s, s', t, o)
  {
    hide Played, HeldSince, Step, Watched, OnlyKey, Watchable, StillWatched;
    PutterStores(s.b, t, s.ths[t], k, v);
    s' := Acts(s, t, 0, 0);
    if !s.ths[t].pc.Cas2? {
      StoringIsOnly(s'.b, s'.ths[t], k, v, o);
      StillWatchedStep(s, s', t, o);
    }
  }

  lemma SearchesInVain(s: Scene, t: nat, o: nat) returns (s': Scene)
    requires Played(s) && CanGo(s, t) && Vacant(s.b)
    requires var p := s.ths[t]; p.op.Put? && p.ei == -2 && p.pc == SearchVal(0) && p.s == s.b.snap
    ensures Played(s') && s'.b == s.b && s'.ths == s.ths[t := s.ths[t].(ei := 0, pc := Cas1)]
    ensures s.r <= s'.r && StillWatched(s, s', t, o)
  {
    hide Played, HeldSince, Step, Watched;
    s' := SearchesSlot(s, t, 0, o);
    s' := SearchesSlot(s', t, 1, o);
    s' := SearchesSlot(s', t, 2, o);
  }

  lemma SearchesSlot(s: Scene, t: nat, i: nat, o: nat) returns (s': Scene)
    requires Played(s) && CanGo(s, t) && Vacant(s.b) && i < 3
    requires var p := s.ths[t]; p.op.Put? && p.ei == -2 && p.pc == SearchVal(i) && p.s == s.b.snap
    ensures Played(s') && s'.b == s.b && CanGo(s', t)
    ensures var p := s.ths[t];
            s'.ths == s.ths[t := if i < 2 then p.(pc := SearchVal(i + 1)) else p.(ei := 0, pc := Cas1)]
    ensures s.r <= s'.r && StillWatched(s, s', t, o)
  {
    hide Played, HeldSince, Step, Watched, OnlyKey, Watchable;
    NoneIsOnly(s.b, o);
    SearcherLooks(s.b, t, s.ths[t]);
    var s1 := Acts(s, t, 0, 0);
    StillWatchedStep(s, s1, t, o);
    SearcherLooks(s1.b, t, s1.ths[t]);
    s' := Acts(s1, t, 0, 0);
    StillWatchedStep(s1, s', t, o);
  }

  /** A remove of the only entry, up to the compare-and-swap that tags it. */
  lemma AboutToTag(s: Scene, t: nat, k: nat, v: nat) returns (s': Scene)
    requires Played(s) && HoldsOne(s.b, VALID, k, v) && (t in s.ths ==> s.ths[t].pc.Done?) && k != 0
    ensures Played(s') && s'.b == s.b && t in s'.ths && s'.ths == s.ths[t := s'.ths[t]]
    ensures s'.ths[t].op == Remove(k) && s'.ths[t].pc == TagCas(0) && ThreadShape(s'.ths[t])
    ensures s.r <= s'.r && StillWatched(s, s', t, k)
  {
    hide Played, HeldSince, Step, Watched;
    s' := BeginsRemove(s, t, k, v);
    s' := Looks(s', t, k, v);
    s' := Looks(s', t, k, v);
    s' := Looks(s', t, k, v);
    s' := Looks(s', t, k, v);
  }

  lemma BeginsRemove(s: Scene, t: nat, k: nat, v: nat) returns (s': Scene)
    requires Played(s) && HoldsOne(s.b, VALID, k, v) && (t in s.ths ==> s.ths[t].pc.Done?) && k != 0
    ensures Played(s') && s'.b == s.b && t in s'.ths && s'.ths == s.ths[t := s'.ths[t]]
    ensures s'.ths[t].op == Remove(k) && s'.ths[t].pc == RemVal(0) && ThreadShape(s'.ths[t])
    ensures s.r <= s'.r && StillWatched(s, s', t, k)
  {
    hide Played, HeldSince, Watched, OnlyKey, Watchable, StillWatched;
    s' := Begins(s, t, Remove(k));
    OneIsOnly(s.b, VALID, k, v);
    StillWatchedStep(s, s', t, k);
  }

  lemma Looks(s: Scene, t: nat, k: nat, v: nat) returns (s': Scene)
    requires Played(s) && HoldsOne(s.b, VALID, k, v) && t in s.ths
    requires ThreadShape(s.ths[t]) && s.ths[t].op == Remove(k) && Looking(s.ths[t].pc, v)
    ensures Played(s') && s'.b == s.b && t in s'.ths && s'.ths == s.ths[t := s.ths[t].(pc := s'.ths[t].pc)]
    ensures ThreadShape(s'.ths[t]) && s.r <= s'.r && StillWatched(s, s', t, k)
    ensures s'.ths[t].pc == match s.ths[t].pc
                            case RemVal(_) => RemMap(0, v)
                            case RemMap(_, _) => RemKey(0, v)
                            case RemKey(_, _) => RemChk(0, v)
                            case _ => TagCas(0)
  {
    hide Played, HeldSince, Step, Watched, OnlyKey, Watchable, StillWatched;
    RemoverLooks(s.b, t, s.ths[t], k, v);
    s' := Acts(s, t, 0, 0);
    OneIsOnly(s.b, VALID, k, v);
    StillWatchedStep(s, s', t, k);
  }

  /** The tag is put on. */
  lemma Tags(s: Scene, t: nat, k: nat, v: nat) returns (s': Scene)
    requires Played(s) && HoldsOne(s.b, VALID, k, v) && t in s.ths && ThreadShape(s.ths[t]) && s.ths[t].pc == TagCas(0)
    ensures Played(s') && HoldsOne(s'.b, REMOV, k, v) && s'.ths == s.ths[t := s.ths[t].(pc := Recheck(0))]
    ensures CanGo(s', t) && s.r <= s'.r && StillWatched(s, s', t, k)
  {
    hide Played, HeldSince, Step, Watched, OnlyKey, Watchable, StillWatched;
    RemoverTags(s.b, t, s.ths[t], k, v);
    s' := Acts(s, t, 0, 0);
    OneIsOnly(s'.b, REMOV, k, v);
    StillWatchedStep(s, s', t, k);
  }

  lemma Takes(s: Scene, t: nat, k: nat, v: nat) returns (s': Scene)
    requires Played(s) && HoldsOne(s.b, REMOV, k, v) && t in s.ths
    requires ThreadShape(s.ths[t]) && s.ths[t].op == Remove(k) && Taking(s.ths[t].pc, v)
    ensures Played(s') && t in s'.ths && s'.ths == s.ths[t := s.ths[t].(pc := s'.ths[t].pc)] && ThreadShape(s'.ths[t])
    ensures match s.ths[t].pc
            case Recheck(_) => s'.b == s.b && s'.ths[t].pc == ReadBack(0)
            case ReadBack(_) => s'.b == s.b && s'.ths[t].pc == Clear(0, v)
            case _ => Vacant(s'.b) && s'.ths[t].pc == Done(v)
    ensures s.r <= s'.r && StillWatched(s, s', t, k)
  {
    hide Played, HeldSince, Step, Watched, OnlyKey, Watchable, StillWatched;
    RemoverTakes(s.b, t, s.ths[t], k, v);
    s' := Acts(s, t, 0, 0);
    if s.ths[t].pc.Clear? { NoneIsOnly(s'.b, k); } else { OneIsOnly(s'.b, REMOV, k, v); }
    StillWatchedStep(s, s', t, k);
  }

  /** A whole remove of the only entry. */
  lemma Removes(s: Scene, t: nat, k: nat, v: nat) returns (s': Scene)
    requires Played(s) && HoldsOne(s.b, VALID, k, v) && (t in s.ths ==> s.ths[t].pc.Done?) && k != 0
    ensures Played(s') && t in s'.ths && s'.ths == s.ths[t := s'.ths[t]] && s'.ths[t].pc.Done? && Vacant(s'.b)
    ensures s.r <= s'.r && StillWatched(s, s', t, k)
  {
    hide Played, HeldSince, Step, Watched, Vacant;
    s' := AboutToTag(s, t, k, v);
    s' := Tags(s', t, k, v);
    s' := Takes(s', t, k, v);
    s' := Takes(s', t, k, v);
    s' := Takes(s', t, k, v);
  }

  lemma Opening() returns (s: Scene)
    ensures Played(s) && Vacant(s.b) && s.ths == map[]
  {
    s := Scene([Init()], EMPTY, map[]);
  }

  lemma Closing(s: Scene)
    requires Played(s)
    ensures Run(s.r) && s.r[|s.r| - 1].b == s.b && s.r[|s.r| - 1].threads == s.ths
  {
  }
}
