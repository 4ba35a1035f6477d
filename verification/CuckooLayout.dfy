/** The bucket array of the cuckoo table as a value: what a well-formed array is, which finite map
    it stands for, and what a single slot write, a hop and a doubling do to it. */
module CuckooLayout {
  import opened Hashing

  type Key(==, !new)
  type Val(!new)

  /** A slot is free, or holds a partial key and a key-value pair. */
  datatype Slot = Free | Item(partial: int, key: Key, val: Val)

  type Bucket = seq<Slot>
  type Table = seq<Bucket>

  /** The parameters of the table type: slots per bucket and the hash function. */
  datatype Config = Config(slots: nat, hash: Key -> nat)

  function SlotAt(t: Table, b: int, s: int): Slot
  {
    if 0 <= b < |t| && 0 <= s < |t[b]| then t[b][s] else Free
  }

  ghost predicate Shape(c: Config, hp: nat, t: Table)
  {
    && hp >= 1 && c.slots >= 1
    && |t| == Pow2(hp)
    && forall b :: 0 <= b < |t| ==> |t[b]| == c.slots
  }

  /** An item sits in one of the two candidate buckets of its key and carries its partial key. */
  predicate WellPlaced(c: Config, hp: nat, b: int, x: Slot)
    requires x.Item?
  {
    var hv := c.hash(x.key);
    x.partial == PartialKey(hv) && (b == Index1(hp, hv) || b == Index2(hp, hv))
  }

  ghost predicate Placed(c: Config, hp: nat, t: Table)
  {
    forall b, s :: SlotAt(t, b, s).Item? ==> WellPlaced(c, hp, b, SlotAt(t, b, s))
  }

  ghost predicate SameKey(t: Table, b: int, s: int, b': int, s': int)
  {
    SlotAt(t, b, s).Item? && SlotAt(t, b', s').Item? && SlotAt(t, b, s).key == SlotAt(t, b', s').key
  }

  /** No key is stored in two slots. */
  ghost predicate Unique(t: Table)
  {
    forall b, s, b', s' :: SameKey(t, b, s, b', s') ==> b == b' && s == s'
  }

  ghost predicate Stores(t: Table, k: Key)
  {
    exists b, s :: SlotAt(t, b, s).Item? && SlotAt(t, b, s).key == k
  }

  /** The items of the array are exactly the bindings of the map. */
  ghost predicate Represents(t: Table, m: map<Key, Val>)
  {
    && (forall b, s :: SlotAt(t, b, s).Item? ==>
        SlotAt(t, b, s).key in m && m[SlotAt(t, b, s).key] == SlotAt(t, b, s).val)
    && (forall k :: k in m ==> Stores(t, k))
  }

  ghost predicate Inv(c: Config, hp: nat, t: Table, m: map<Key, Val>)
  {
    Shape(c, hp, t) && Placed(c, hp, t) && Unique(t) && Represents(t, m)
  }

  function Write(t: Table, b: nat, s: nat, x: Slot): (t': Table)
    requires b < |t| && s < |t[b]|
    ensures |t'| == |t| && |t'[b]| == |t[b]|
    ensures forall b', s' :: SlotAt(t', b', s') == if b' == b && s' == s then x else SlotAt(t, b', s')
  {
    t[b := t[b][s := x]]
  }

  lemma WriteKeepsShape(c: Config, hp: nat, t: Table, b: nat, s: nat, x: Slot)
    requires Shape(c, hp, t) && b < |t| && s < c.slots
    ensures Shape(c, hp, Write(t, b, s, x))
  {}

  /** A key is bound exactly when one of its two candidate buckets holds it. */
  lemma LookupInCandidates(c: Config, hp: nat, t: Table, m: map<Key, Val>, k: Key)
    requires Inv(c, hp, t, m)
    ensures k in m <==>
            exists s :: (SlotAt(t, Index1(hp, c.hash(k)), s).Item? && SlotAt(t, Index1(hp, c.hash(k)), s).key == k)
                     || (SlotAt(t, Index2(hp, c.hash(k)), s).Item? && SlotAt(t, Index2(hp, c.hash(k)), s).key == k)
  {
    if k in m {
      assert Stores(t, k);
      var b, s :| SlotAt(t, b, s).Item? && SlotAt(t, b, s).key == k;
      assert WellPlaced(c, hp, b, SlotAt(t, b, s));
    }
  }

  /** An array of free slots stands for the empty map. */
  lemma EmptyTable(c: Config, hp: nat, t: Table)
    requires hp >= 1 && c.slots >= 1 && |t| == Pow2(hp)
    requires forall b :: 0 <= b < |t| ==> t[b] == FreeSlots(c.slots)
    ensures Inv(c, hp, t, map[]) && Occupied(t) == {}
  {
    assert forall b, s :: SlotAt(t, b, s) == Free;
  }

  lemma AddItem(c: Config, hp: nat, t: Table, m: map<Key, Val>, b: nat, s: nat, k: Key, v: Val)
    requires Inv(c, hp, t, m) && k !in m
    requires b < |t| && s < c.slots && t[b][s].Free?
    requires b == Index1(hp, c.hash(k)) || b == Index2(hp, c.hash(k))
    ensures Inv(c, hp, Write(t, b, s, Item(PartialKey(c.hash(k)), k, v)), m[k := v])
  {
    var x := Item(PartialKey(c.hash(k)), k, v);
    var t' := Write(t, b, s, x);
    WriteKeepsShape(c, hp, t, b, s, x);
    forall k' | k' in m[k := v] ensures Stores(t', k') {
      if k' == k {
        assert SlotAt(t', b, s) == x;
      } else {
        assert Stores(t, k');
        var b0, s0 :| SlotAt(t, b0, s0).Item? && SlotAt(t, b0, s0).key == k';
        assert SlotAt(t', b0, s0) == SlotAt(t, b0, s0);
      }
    }
    forall b1, s1, b2, s2 | SameKey(t', b1, s1, b2, s2) ensures b1 == b2 && s1 == s2 {
      if (b1, s1) != (b, s) && (b2, s2) != (b, s) { assert SameKey(t, b1, s1, b2, s2); }
    }
  }

  lemma RemoveItem(c: Config, hp: nat, t: Table, m: map<Key, Val>, b: nat, s: nat)
    requires Inv(c, hp, t, m) && b < |t| && s < c.slots && t[b][s].Item?
    ensures t[b][s].key in m
    ensures Inv(c, hp, Write(t, b, s, Free), m - {t[b][s].key})
  {
    var k := SlotAt(t, b, s).key;
    var t' := Write(t, b, s, Free);
    var m' := m - {k};
    WriteKeepsShape(c, hp, t, b, s, Free);
    forall b1, s1 | SlotAt(t', b1, s1).Item?
      ensures SlotAt(t', b1, s1).key in m' && m'[SlotAt(t', b1, s1).key] == SlotAt(t', b1, s1).val
    {
      if SlotAt(t', b1, s1).key == k { assert SameKey(t, b1, s1, b, s); }
    }
    forall k' | k' in m' ensures Stores(t', k') {
      assert Stores(t, k');
      var b0, s0 :| SlotAt(t, b0, s0).Item? && SlotAt(t, b0, s0).key == k';
      assert SlotAt(t', b0, s0) == SlotAt(t, b0, s0);
    }
    forall b1, s1, b2, s2 | SameKey(t', b1, s1, b2, s2) ensures b1 == b2 && s1 == s2 {
      assert SameKey(t, b1, s1, b2, s2);
    }
  }

  lemma ReplaceValue(c: Config, hp: nat, t: Table, m: map<Key, Val>, b: nat, s: nat, v: Val)
    requires Inv(c, hp, t, m) && b < |t| && s < c.slots && t[b][s].Item?
    ensures Inv(c, hp, Write(t, b, s, t[b][s].(val := v)), m[t[b][s].key := v])
  {
    var k := SlotAt(t, b, s).key;
    var x := SlotAt(t, b, s).(val := v);
    var t' := Write(t, b, s, x);
    WriteKeepsShape(c, hp, t, b, s, x);
    forall b1, s1 | SlotAt(t', b1, s1).Item?
      ensures SlotAt(t', b1, s1).key in m[k := v] && m[k := v][SlotAt(t', b1, s1).key] == SlotAt(t', b1, s1).val
    {
      if SlotAt(t', b1, s1).key == k { assert SameKey(t, b1, s1, b, s); }
    }
    forall k' | k' in m[k := v] ensures Stores(t', k') {
      assert Stores(t, k');
      var b0, s0 :| SlotAt(t, b0, s0).Item? && SlotAt(t, b0, s0).key == k';
      assert SlotAt(t', b0, s0).Item? && SlotAt(t', b0, s0).key == k';
    }
    forall b1, s1, b2, s2 | SameKey(t', b1, s1, b2, s2) ensures b1 == b2 && s1 == s2 {
      assert SameKey(t, b1, s1, b2, s2);
    }
  }

  /** Moving an item from its bucket to a free slot of the alternate bucket changes no binding. */
  lemma MoveItem(c: Config, hp: nat, t: Table, m: map<Key, Val>, fb: nat, fs: nat, tb: nat, ts: nat)
    requires Inv(c, hp, t, m)
    requires fb < |t| && tb < |t| && fs < c.slots && ts < c.slots
    requires t[fb][fs].Item? && t[tb][ts].Free?
    requires tb == AltIndex(hp, PartialKey(c.hash(t[fb][fs].key)), fb)
    ensures Inv(c, hp, Write(Write(t, tb, ts, t[fb][fs]), fb, fs, Free), m)
  {
    var x := SlotAt(t, fb, fs);
    var t1 := Write(t, tb, ts, x);
    var t' := Write(t1, fb, fs, Free);
    WriteKeepsShape(c, hp, t, tb, ts, x);
    WriteKeepsShape(c, hp, t1, fb, fs, Free);
    assert WellPlaced(c, hp, fb, x);
    CandidatesAreBuckets(hp, c.hash(x.key));
    assert WellPlaced(c, hp, tb, x);
    forall k | k in m ensures Stores(t', k) {
      assert Stores(t, k);
      var b0, s0 :| SlotAt(t, b0, s0).Item? && SlotAt(t, b0, s0).key == k;
      if (b0, s0) == (fb, fs) {
        assert SlotAt(t', tb, ts) == x;
      } else {
        assert SlotAt(t', b0, s0) == SlotAt(t, b0, s0);
      }
    }
    forall b1, s1, b2, s2 | SameKey(t', b1, s1, b2, s2) ensures b1 == b2 && s1 == s2 {
      if (b1, s1) == (tb, ts) && (b2, s2) == (tb, ts) {
      } else if (b1, s1) == (tb, ts) {
        assert SameKey(t, fb, fs, b2, s2);
      } else if (b2, s2) == (tb, ts) {
        assert SameKey(t, b1, s1, fb, fs);
      } else {
        assert SameKey(t, b1, s1, b2, s2);
      }
    }
  }

  // ------------------------------------------------------------------ occupied slots

  ghost function Occupied(t: Table): set<(int, int)>
  {
    set b, s | 0 <= b < |t| && 0 <= s < |t[b]| && SlotAt(t, b, s).Item? :: (b, s)
  }

  /** A table has as many occupied slots as its map has bindings. */
  lemma OccupiedCount(c: Config, hp: nat, t: Table, m: map<Key, Val>)
    requires Inv(c, hp, t, m)
    ensures |Occupied(t)| == |m|
  {
    var f := (p: (int, int)) => SlotAt(t, p.0, p.1);
    forall p, q | p in Occupied(t) && q in Occupied(t) && f(p).key == f(q).key ensures p == q {
      assert SameKey(t, p.0, p.1, q.0, q.1);
    }
    forall k | k in m.Keys ensures exists p :: p in Occupied(t) && f(p).key == k {
      assert Stores(t, k);
      var b, s :| SlotAt(t, b, s).Item? && SlotAt(t, b, s).key == k;
      assert (b, s) in Occupied(t) && f((b, s)).key == k;
    }
    SameSize(Occupied(t), m.Keys, f);
  }

  lemma {:induction false} SameSize(ps: set<(int, int)>, ks: set<Key>, f: ((int, int)) -> Slot)
    requires forall p :: p in ps ==> f(p).Item? && f(p).key in ks
    requires forall p, q :: p in ps && q in ps && f(p).key == f(q).key ==> p == q
    requires forall k :: k in ks ==> exists p :: p in ps && f(p).key == k
    ensures |ps| == |ks|
  {
    if ps == {} {
      assert forall k :: k !in ks;
      assert ks == {};
    } else {
      var p :| p in ps;
      var ps', ks' := ps - {p}, ks - {f(p).key};
      forall k | k in ks' ensures exists q :: q in ps' && f(q).key == k {
        var q :| q in ps && f(q).key == k;
        assert q in ps';
      }
      SameSize(ps', ks', f);
    }
  }

  // ------------------------------------------------------------------ doubling

  /** The test that sends an item of old bucket b to bucket b + 2^hp, on the stored partial key. */
  predicate Leaves(c: Config, hp: nat, b: nat, x: Slot)
    requires x.Item?
  {
    var hv := c.hash(x.key);
    var oldI, newI := IndexHash(hp, hv), IndexHash(hp + 1, hv);
    var oldA, newA := AltIndex(hp, x.partial, oldI), AltIndex(hp + 1, x.partial, newI);
    (b == oldI && newI == b + HashSize(hp)) || (b == oldA && newA == b + HashSize(hp))
  }

  /** What stays behind in an old bucket. */
  function Kept(c: Config, hp: nat, b: nat, bu: Bucket): (r: Bucket)
    ensures |r| == |bu|
    ensures forall s :: 0 <= s < |bu| ==> r[s] == if bu[s].Item? && Leaves(c, hp, b, bu[s]) then Free else bu[s]
  {
    seq(|bu|, s requires 0 <= s < |bu| => if bu[s].Item? && Leaves(c, hp, b, bu[s]) then Free else bu[s])
  }

  /** What leaves an old bucket, in slot order. */
  function Departing(c: Config, hp: nat, b: nat, bu: Bucket): (r: seq<Slot>)
    ensures |r| <= |bu|
  {
    if bu == [] then []
    else
      var x := bu[|bu| - 1];
      Departing(c, hp, b, bu[..|bu| - 1]) + if x.Item? && Leaves(c, hp, b, x) then [x] else []
  }

  function FreeSlots(n: nat): (r: Bucket)
    ensures |r| == n && forall s :: 0 <= s < n ==> r[s] == Free
  {
    seq(n, _ => Free)
  }

  /** The fresh bucket b + 2^hp after the split of b. */
  function Arrived(c: Config, hp: nat, b: nat, bu: Bucket): (r: Bucket)
    ensures |r| == |bu|
  {
    var d := Departing(c, hp, b, bu);
    d + FreeSlots(|bu| - |d|)
  }

  /** The whole array after doubling. */
  function Doubled(c: Config, hp: nat, t: Table): (t': Table)
    ensures |t'| == 2 * |t|
    ensures forall b :: 0 <= b < |t| ==> t'[b] == Kept(c, hp, b, t[b]) && t'[b + |t|] == Arrived(c, hp, b, t[b])
  {
    hide *;
    seq(2 * |t|, b requires 0 <= b < 2 * |t| =>
      if b < |t| then Kept(c, hp, b, t[b]) else Arrived(c, hp, b - |t|, t[b - |t|]))
  }

  ghost predicate DistinctKeys(d: seq<Slot>)
  {
    forall i, j :: 0 <= i < |d| && 0 <= j < |d| && d[i].Item? && d[j].Item? && d[i].key == d[j].key ==> i == j
  }

  /** Departing items are exactly the items that satisfy the test, each once. */
  lemma {:induction false} DepartingIsFilter(c: Config, hp: nat, b: nat, bu: Bucket)
    ensures var d := Departing(c, hp, b, bu);
            && (forall i :: 0 <= i < |d| ==> d[i].Item? && Leaves(c, hp, b, d[i]) && d[i] in bu)
            && (forall s :: 0 <= s < |bu| && bu[s].Item? && Leaves(c, hp, b, bu[s]) ==> bu[s] in d)
            && (DistinctKeys(bu) ==> DistinctKeys(d))
  {
    hide Leaves;
    if bu != [] {
      var front, x := bu[..|bu| - 1], bu[|bu| - 1];
      DepartingIsFilter(c, hp, b, front);
      forall y | y in front ensures y in bu {}
      assert x in bu;
      if DistinctKeys(bu) { OneMoreDistinct(bu, Departing(c, hp, b, front)); }
    }
  }

  lemma OneMoreDistinct(bu: Bucket, d: seq<Slot>)
    requires bu != [] && DistinctKeys(bu)
    requires DistinctKeys(bu[..|bu| - 1]) ==> DistinctKeys(d)
    requires forall i :: 0 <= i < |d| ==> d[i] in bu[..|bu| - 1]
    ensures DistinctKeys(d) && (bu[|bu| - 1].Item? ==> DistinctKeys(d + [bu[|bu| - 1]]))
  {
    var front, x := bu[..|bu| - 1], bu[|bu| - 1];
    assert DistinctKeys(front);
    if x.Item? {
      forall i | 0 <= i < |d| && d[i].Item? ensures d[i].key != x.key {
        var s :| 0 <= s < |front| && front[s] == d[i];
        assert bu[s] == d[i];
      }
    }
  }

  /** An item that stays, or goes, is in one of its two buckets of the doubled table. */
  lemma SplitPlacement(c: Config, hp: nat, b: nat, x: Slot)
    requires x.Item? && WellPlaced(c, hp, b, x)
    ensures WellPlaced(c, hp + 1, if Leaves(c, hp, b, x) then b + Pow2(hp) else b, x)
  {
    CandidatesAfterDoubling(hp, c.hash(x.key));
  }

  lemma BucketKeysDistinct(t: Table, b: nat)
    requires Unique(t) && b < |t|
    ensures DistinctKeys(t[b])
  {
    forall i, j | 0 <= i < |t[b]| && 0 <= j < |t[b]| && t[b][i].Item? && t[b][j].Item? && t[b][i].key == t[b][j].key
      ensures i == j
    {
      assert SlotAt(t, b, i) == t[b][i] && SlotAt(t, b, j) == t[b][j];
      assert SameKey(t, b, i, b, j);
    }
  }

  /** Where the item of a doubled slot came from. */
  lemma Origin(c: Config, hp: nat, t: Table, b': nat, s': nat) returns (b: nat, s: nat)
    requires Shape(c, hp, t) && SlotAt(Doubled(c, hp, t), b', s').Item?
    ensures b < |t| && s < |t[b]| && t[b][s] == SlotAt(Doubled(c, hp, t), b', s')
    ensures b' == if Leaves(c, hp, b, t[b][s]) then b + |t| else b
    ensures b' < |t| ==> s == s'
  {
    if b' < |t| {
      b, s := b', s';
    } else {
      b := b' - |t|;
      DepartingIsFilter(c, hp, b, t[b]);
      s :| 0 <= s < |t[b]| && t[b][s] == Departing(c, hp, b, t[b])[s'];
    }
  }

  /** Doubling keeps the table well formed at the next hashpower and keeps every binding. */
  lemma DoublingKeepsMap(c: Config, hp: nat, t: Table, m: map<Key, Val>)
    requires Inv(c, hp, t, m)
    ensures Inv(c, hp + 1, Doubled(c, hp, t), m)
  {
    var t' := Doubled(c, hp, t);
    forall b, s | SlotAt(t', b, s).Item?
      ensures WellPlaced(c, hp + 1, b, SlotAt(t', b, s))
      ensures SlotAt(t', b, s).key in m && m[SlotAt(t', b, s).key] == SlotAt(t', b, s).val
    {
      var b0, s0 := Origin(c, hp, t, b, s);
      assert SlotAt(t, b0, s0) == t[b0][s0];
      SplitPlacement(c, hp, b0, t[b0][s0]);
    }
    DoublingKeepsUnique(c, hp, t);
    forall k | k in m ensures Stores(t', k) {
      DoublingStores(c, hp, t, k);
    }
  }

  lemma DoublingStores(c: Config, hp: nat, t: Table, k: Key)
    requires Shape(c, hp, t) && Stores(t, k)
    ensures Stores(Doubled(c, hp, t), k)
  {
    hide Leaves, Pow2, Kept, Departing;
    var b, s :| SlotAt(t, b, s).Item? && SlotAt(t, b, s).key == k;
    var x := t[b][s];
    if Leaves(c, hp, b, x) {
      DepartingIsFilter(c, hp, b, t[b]);
      var d := Departing(c, hp, b, t[b]);
      var i :| 0 <= i < |d| && d[i] == x;
      assert SlotAt(Doubled(c, hp, t), b + |t|, i) == x;
    } else {
      assert SlotAt(Doubled(c, hp, t), b, s) == x;
    }
  }

  lemma DoublingKeepsUnique(c: Config, hp: nat, t: Table)
    requires Shape(c, hp, t) && Unique(t)
    ensures Unique(Doubled(c, hp, t))
  {
    var t' := Doubled(c, hp, t);
    forall b1, s1, b2, s2 | SameKey(t', b1, s1, b2, s2) ensures b1 == b2 && s1 == s2 {
      var o1, p1 := Origin(c, hp, t, b1, s1);
      var o2, p2 := Origin(c, hp, t, b2, s2);
      assert SlotAt(t, o1, p1) == t[o1][p1] && SlotAt(t, o2, p2) == t[o2][p2];
      assert SameKey(t, o1, p1, o2, p2);
      if b1 >= |t| {
        BucketKeysDistinct(t, o1);
        DepartingIsFilter(c, hp, o1, t[o1]);
        var d := Departing(c, hp, o1, t[o1]);
        assert d[s1].key == d[s2].key;
      }
    }
  }

  /** The old buckets guarded by the locks lo <= l < hi. */
  ghost function Guarded(hp: nat, lo: nat, hi: nat): set<nat>
  {
    set b: nat | 0 <= b < HashSize(hp) && lo <= LockInd(b) < hi
  }

  ghost predicate SplitDone(c: Config, hp: nat, t0: Table, t: Table, b: nat)
    requires |t0| == |t| == 2 * HashSize(hp) && b < HashSize(hp)
  {
    t[b] == Kept(c, hp, b, t0[b]) && t[b + HashSize(hp)] == Arrived(c, hp, b, t0[b])
  }

  ghost predicate Untouched(hp: nat, t0: Table, t: Table, b: nat)
    requires |t0| == |t| == 2 * HashSize(hp) && b < HashSize(hp)
  {
    t[b] == t0[b] && t[b + HashSize(hp)] == t0[b + HashSize(hp)]
  }

  /** From t0 to t exactly the given old buckets have been split. */
  ghost predicate SplitOn(c: Config, hp: nat, t0: Table, t: Table, done: set<nat>)
  {
    && |t0| == |t| == 2 * HashSize(hp)
    && forall b: nat :: b < HashSize(hp) ==> if b in done then SplitDone(c, hp, t0, t, b) else Untouched(hp, t0, t, b)
  }

  /** The doubled array before any bucket has been split. */
  function Widened(c: Config, t: Table): (t': Table)
    ensures |t'| == 2 * |t|
    ensures forall b :: 0 <= b < |t| ==> t'[b] == t[b]
    ensures forall b :: |t| <= b < 2 * |t| ==> t'[b] == FreeSlots(c.slots)
  {
    t + seq(|t|, _ => FreeSlots(c.slots))
  }

  /** Splitting under every lock of the old table gives the doubled array. */
  lemma AllSplitIsDoubled(c: Config, hp: nat, t: Table, t': Table, done: set<nat>)
    requires |t| == HashSize(hp) && SplitOn(c, hp, Widened(c, t), t', done)
    requires forall b: nat :: b < HashSize(hp) ==> b in done
    ensures t' == Doubled(c, hp, t)
  {
    hide Kept, Arrived, HashSize;
    var d, w := Doubled(c, hp, t), Widened(c, t);
    forall b | 0 <= b < |t'| ensures t'[b] == d[b] {
      var b0: nat := if b < |t| then b else b - |t|;
      assert SplitDone(c, hp, w, t', b0) && w[b0] == t[b0];
    }
  }

  /** Splitting one more bucket. */
  lemma SplitOneMore(c: Config, hp: nat, t0: Table, t: Table, done: set<nat>, b: nat)
    requires SplitOn(c, hp, t0, t, done) && b < HashSize(hp) && b !in done
    ensures SplitOn(c, hp, t0, t[b := Kept(c, hp, b, t[b])][b + HashSize(hp) := Arrived(c, hp, b, t[b])], done + {b})
  {
    hide Kept, Arrived, HashSize;
    var t' := t[b := Kept(c, hp, b, t[b])][b + HashSize(hp) := Arrived(c, hp, b, t[b])];
    assert Untouched(hp, t0, t, b);
    forall b': nat | b' < HashSize(hp)
      ensures if b' in done + {b} then SplitDone(c, hp, t0, t', b') else Untouched(hp, t0, t', b')
    {
      if b' != b {
        assert if b' in done then SplitDone(c, hp, t0, t, b') else Untouched(hp, t0, t, b');
      }
    }
  }

  /** Two disjoint rounds of splitting add up. */
  lemma SplitCompose(c: Config, hp: nat, t0: Table, t1: Table, t2: Table, d1: set<nat>, d2: set<nat>)
    requires SplitOn(c, hp, t0, t1, d1) && SplitOn(c, hp, t1, t2, d2) && d1 !! d2
    ensures SplitOn(c, hp, t0, t2, d1 + d2)
  {
    hide Kept, Arrived, HashSize;
    forall b: nat | b < HashSize(hp)
      ensures if b in d1 + d2 then SplitDone(c, hp, t0, t2, b) else Untouched(hp, t0, t2, b)
    {
      assert if b in d1 then SplitDone(c, hp, t0, t1, b) else Untouched(hp, t0, t1, b);
      assert if b in d2 then SplitDone(c, hp, t1, t2, b) else Untouched(hp, t1, t2, b);
    }
  }

  /** Processing one more slot of a bucket that is being split. */
  lemma SplitStep(c: Config, hp: nat, b: nat, bu: Bucket, slot: nat)
    requires slot < |bu|
    ensures Departing(c, hp, b, bu[..slot + 1])
         == Departing(c, hp, b, bu[..slot]) + if bu[slot].Item? && Leaves(c, hp, b, bu[slot]) then [bu[slot]] else []
  {
    assert bu[..slot + 1][..slot] == bu[..slot];
  }

  /** A bucket of which the first `slot` slots have been split. */
  ghost function HalfKept(c: Config, hp: nat, b: nat, bu: Bucket, slot: nat): (r: Bucket)
    requires slot <= |bu|
    ensures |r| == |bu|
  {
    Kept(c, hp, b, bu)[..slot] + bu[slot..]
  }

  ghost function HalfArrived(c: Config, hp: nat, b: nat, bu: Bucket, slot: nat): (r: Bucket)
    requires slot <= |bu|
    ensures |r| == |bu|
  {
    var d := Departing(c, hp, b, bu[..slot]);
    d + FreeSlots(|bu| - |d|)
  }

  lemma HalfSplitEnds(c: Config, hp: nat, b: nat, bu: Bucket)
    ensures HalfKept(c, hp, b, bu, 0) == bu && HalfArrived(c, hp, b, bu, 0) == FreeSlots(|bu|)
    ensures HalfKept(c, hp, b, bu, |bu|) == Kept(c, hp, b, bu)
        && HalfArrived(c, hp, b, bu, |bu|) == Arrived(c, hp, b, bu)
  {
    assert bu[..|bu|] == bu;
  }

  /** The slot that is looked at is still the old one; if its item leaves, it takes the next free
      slot of the fresh bucket. */
  lemma HalfSplitStep(c: Config, hp: nat, b: nat, bu: Bucket, slot: nat)
    requires slot < |bu|
    ensures HalfKept(c, hp, b, bu, slot)[slot] == bu[slot]
    ensures var gone := |Departing(c, hp, b, bu[..slot])|; gone <= slot
    ensures bu[slot].Item? && Leaves(c, hp, b, bu[slot]) ==>
              && HalfKept(c, hp, b, bu, slot + 1) == HalfKept(c, hp, b, bu, slot)[slot := Free]
              && |Departing(c, hp, b, bu[..slot + 1])| == |Departing(c, hp, b, bu[..slot])| + 1
              && HalfArrived(c, hp, b, bu, slot + 1)
              == HalfArrived(c, hp, b, bu, slot)[|Departing(c, hp, b, bu[..slot])| := bu[slot]]
    ensures !(bu[slot].Item? && Leaves(c, hp, b, bu[slot])) ==>
              && HalfKept(c, hp, b, bu, slot + 1) == HalfKept(c, hp, b, bu, slot)
              && Departing(c, hp, b, bu[..slot + 1]) == Departing(c, hp, b, bu[..slot])
              && HalfArrived(c, hp, b, bu, slot + 1) == HalfArrived(c, hp, b, bu, slot)
  {
    hide Leaves;
    SplitStep(c, hp, b, bu, slot);
  }

  /** An item that does not leave keeps one of its candidate buckets. */
  lemma StayingItem(c: Config, hp: nat, b: nat, x: Slot)
    requires x.Item? && WellPlaced(c, hp, b, x) && !Leaves(c, hp, b, x)
    ensures var hv := c.hash(x.key);
            var oldI, newI := IndexHash(hp, hv), IndexHash(hp + 1, hv);
            var oldA, newA := AltIndex(hp, x.partial, oldI), AltIndex(hp + 1, x.partial, newI);
            (b == oldI && newI == oldI) || (b == oldA && newA == oldA)
  {
    CandidatesAfterDoubling(hp, c.hash(x.key));
  }
}
