/** The cuckoo hash table, run by one thread: an object whose methods change the bucket array, the
    hashpower, the set of taken bucket locks and the per-core counters, proved against the finite
    map `model`.  Every access to a bucket is checked to happen under that bucket's lock, and every
    lock that is taken is checked not to be held already. */
module CuckooTable {
  import opened Hashing
  import opened CuckooLayout
  import opened CuckooPath
  import opened CuckooSearch
  import opened BfsQueue

  datatype Status = Ok | Failure | KeyNotFound | KeyDuplicated | TableFull | UnderExpansion

  /** How an insertion ends: normally, or with one of the exceptions of the growth step. */
  datatype Outcome = Inserted | Duplicate | LoadFactorTooLow | MaximumHashpowerExceeded | OutOfMemory

  /** How the growth step ends. */
  datatype Growth = Grown | OtherExpansion | AboveMaximum | NoMemory

  const NO_MAXIMUM_HASHPOWER: nat := 0

  datatype Option<T> = None | Some(value: T)

  /** A pair of buckets; while it is active, their locks are held. */
  datatype TwoBuckets = TwoBuckets(active: bool, i0: nat, i1: nat)

  function LocksOf(b: TwoBuckets): set<nat>
  {
    if b.active then {LockInd(b.i0), LockInd(b.i1)} else {}
  }

  /** The pair of candidate buckets of a hash value. */
  predicate CandidatesOf(b: TwoBuckets, hp: nat, hv: nat)
  {
    b.i0 == Index1(hp, hv) && b.i1 == Index2(hp, hv)
  }

  function Sum(s: seq<nat>): nat
  {
    if s == [] then 0 else Sum(s[..|s| - 1]) + s[|s| - 1]
  }

  lemma {:induction false} SumIncrement(s: seq<nat>, i: nat)
    requires i < |s|
    ensures Sum(s[i := s[i] + 1]) == Sum(s) + 1
  {
    var t := s[i := s[i] + 1];
    if i < |s| - 1 {
      SumIncrement(s[..|s| - 1], i);
      assert t[..|s| - 1] == s[..|s| - 1][i := s[i] + 1];
    } else {
      assert t[..|s| - 1] == s[..|s| - 1];
    }
  }

  lemma {:induction false} SumOfZeros(s: seq<nat>)
    requires forall i :: 0 <= i < |s| ==> s[i] == 0
    ensures Sum(s) == 0
  {
    if s != [] { SumOfZeros(s[..|s| - 1]); }
  }

  function Min(a: nat, b: nat): nat { if a < b then a else b }

  lemma RemovalShrinks(m: map<Key, Val>, k: Key)
    requires k in m
    ensures |m - {k}| == |m| - 1
  {
    assert (m - {k}).Keys == m.Keys - {k};
  }

  /** A bucket with the same lock as `ind`, not before `b` and before b + 2^16, is b itself. */
  lemma SameLock(b: nat, b': nat)
    requires LockInd(b) == LockInd(b') && b <= b' < b + NUM_LOCKS
    ensures b == b'
  {
    LockIndIsRemainder(b);
    LockIndIsRemainder(b');
    var q, q' := b / NUM_LOCKS, b' / NUM_LOCKS;
    assert b' - b == (q' - q) * NUM_LOCKS;
    Multiple(q' - q, NUM_LOCKS, b' - b);
  }

  lemma LockIndAtMost(b: nat)
    ensures LockInd(b) <= b
  {
    LockIndIsRemainder(b);
    if b < NUM_LOCKS { SmallRemainder(b, NUM_LOCKS); }
  }

  lemma NextSameLock(b: nat)
    ensures LockInd(b + NUM_LOCKS) == LockInd(b)
  {
    LockIndIsRemainder(b);
    LockIndIsRemainder(b + NUM_LOCKS);
    Remainder(b + NUM_LOCKS, NUM_LOCKS, b / NUM_LOCKS + 1, b % NUM_LOCKS);
  }

  /** The new bucket b + 2^hp has the lock of b, or, in a small table, a lock of its own above all
      locks of the old table. */
  lemma LockOfNewBucket(hp: nat, b: nat)
    requires b < Pow2(hp)
    ensures LockInd(b + Pow2(hp)) == (if Pow2(hp) >= NUM_LOCKS then LockInd(b) else b + Pow2(hp))
    ensures LockInd(b + Pow2(hp)) < LockCount(hp + 1)
  {
    hide LockInd, LockCount, Pow2;
    NewLockBound(hp, b);
    SmallTable(hp);
    if hp >= 16 { SharedLock(hp, b); } else { OwnLock(b + Pow2(hp)); }
  }

  lemma NewLockBound(hp: nat, b: nat)
    requires b < Pow2(hp)
    ensures LockInd(b + Pow2(hp)) < LockCount(hp + 1)
  {
    hide LockInd, LockCount;
    LockIndBound(hp + 1, b + Pow2(hp));
  }

  lemma SharedLock(hp: nat, b: nat)
    requires hp >= 16
    ensures LockInd(b + Pow2(hp)) == LockInd(b)
  {
    hide LockInd, Pow2;
    LockIndIsRemainder(b);
    LockIndIsRemainder(b + Pow2(hp));
    NumLocksIsPow2();
    Pow2Split(hp - 16, 16);
    ManyBuckets(b, Pow2(hp - 16));
  }

  lemma OwnLock(b: nat)
    requires b < NUM_LOCKS
    ensures LockInd(b) == b
  {
    hide LockInd;
    LockIndIsRemainder(b);
    SmallRemainder(b, NUM_LOCKS);
  }

  lemma ManyBuckets(b: nat, m: nat)
    ensures (b + m * NUM_LOCKS) % NUM_LOCKS == b % NUM_LOCKS
  {
    assert b + m * NUM_LOCKS == (b / NUM_LOCKS + m) * NUM_LOCKS + b % NUM_LOCKS;
    Remainder(b + m * NUM_LOCKS, NUM_LOCKS, b / NUM_LOCKS + m, b % NUM_LOCKS);
  }

  lemma SmallTable(hp: nat)
    ensures Pow2(hp) >= NUM_LOCKS <==> hp >= 16
    ensures hp < 16 ==> 2 * Pow2(hp) <= NUM_LOCKS
  {
    NumLocksIsPow2();
    if hp >= 16 { Pow2Monotone(16, hp); } else { Pow2Monotone(hp + 1, 16); }
  }

  /** The number of locks the table has at a hashpower. */
  function LockCount(hp: nat): nat { Min(NUM_LOCKS, HashSize(hp)) }

  lemma LockIndBound(hp: nat, b: nat)
    requires b < Pow2(hp)
    ensures LockInd(b) < LockCount(hp)
  {
    LockIndIsRemainder(b);
    if b < NUM_LOCKS { SmallRemainder(b, NUM_LOCKS); }
  }

  lemma CeilingDivision(n: nat, s: nat)
    requires s >= 1
    ensures var q := (n + s - 1) / s; n <= s * q && (q >= 1 ==> s * (q - 1) < n)
  {
    var q, r := (n + s - 1) / s, (n + s - 1) % s;
    assert n + s - 1 == s * q + r;
    assert s * (q - 1) == s * q - s;
  }

  lemma RoomForAll(s: nat, n: nat, q: nat, hp: nat)
    requires s >= 1 && hp >= 1
    requires n <= s * q && (q >= 1 ==> s * (q - 1) < n)
    requires q <= Pow2(hp) && (hp > 1 ==> q > Pow2(hp - 1))
    ensures n <= Pow2(hp) * s
    ensures hp > 1 ==> n > Pow2(hp - 1) * s
  {
    ProductMonotone(s, q, Pow2(hp));
    if hp > 1 { ProductMonotone(s, Pow2(hp - 1), q - 1); }
  }

  /** The smallest hashpower with room for n elements is at most m exactly when m has room for them. */
  lemma RoomWithin(s: nat, n: nat, hp: nat, m: nat)
    requires s >= 1 && hp >= 1 && m >= 1
    requires n <= Pow2(hp) * s && (hp > 1 ==> n > Pow2(hp - 1) * s)
    ensures hp <= m <==> n <= Pow2(m) * s
  {
    if hp <= m {
      Pow2Monotone(hp, m);
      ProductMonotone(s, Pow2(hp), Pow2(m));
    } else {
      Pow2Monotone(m, hp - 1);
      ProductMonotone(s, Pow2(m), Pow2(hp - 1));
    }
  }

  lemma HalvingStep(b: nat, p: nat, n: nat)
    requires b * p <= n < (b + 1) * p
    ensures (b / 2) * (2 * p) <= n < (b / 2 + 1) * (2 * p)
  {
    var h := b / 2;
    assert h * (2 * p) == (2 * h) * p && (h + 1) * (2 * p) == (2 * h + 2) * p;
    if b == 2 * h {
      assert (b + 2) * p == (b + 1) * p + p;
    } else {
      assert b * p == (2 * h) * p + p;
    }
  }

  lemma LockCountGrows(hp: nat)
    ensures LockCount(hp) <= LockCount(hp + 1)
  {}

  /** The range of worker i lies within what is left of the work. */
  lemma WorkerRange(count: nat, n: nat, i: nat)
    requires i < n
    ensures i * (count / n) <= count
    ensures i < n - 1 ==> (i + 1) * (count / n) == i * (count / n) + count / n <= count
  {
    var w := count / n;
    assert n * w <= count;
    ProductMonotone(w, i, n);
    ProductMonotone(w, i + 1, n);
  }

  /** What may keep a table from growing. */
  datatype Limits = Limits(minimumLoadFactor: real, maximumHashpower: nat, memory: nat)

  lemma Quotients(x: real, a: nat, b: nat)
    requires a >= 1 && b >= 1
    ensures x / (a as real) / (b as real) * (a * b) as real == x
  {
    var p, q := a as real, b as real;
    var y := x / p;
    assert y * p == x;
    var z := y / q;
    assert z * q == y;
    ProductAsReal(a, b);
    assert z * (p * q) == z * q * p;
  }

  lemma ProductAsReal(a: nat, b: nat)
    ensures (a * b) as real == (a as real) * (b as real)
  {
  }

  /** The load factor is below a bound exactly when the elements are fewer than that share of the slots. */
  lemma LoadIsBelow(n: nat, slots: nat, hp: nat, bound: real)
    requires slots >= 1
    ensures LoadFactorOf(n, slots, hp) < bound <==> (n as real) < bound * (slots * HashSize(hp)) as real
  {
    hide LoadFactorOf;
    PositiveProduct(slots, HashSize(hp));
    RealOrder(LoadFactorOf(n, slots, hp), bound, (slots * HashSize(hp)) as real);
  }

  lemma RealOrder(x: real, y: real, a: real)
    requires a > 0.0
    ensures x < y <==> x * a < y * a
  {
  }

  /** Elements over slots. */
  function LoadFactorOf(n: nat, slots: nat, hp: nat): (lf: real)
    requires slots >= 1
    ensures lf * (slots * HashSize(hp)) as real == n as real
  {
    Quotients(n as real, slots, HashSize(hp));
    (n as real) / (slots as real) / (HashSize(hp) as real)
  }

  /** The exception with which a table of n elements refuses to grow, if it does. */
  function Refusal(c: Config, hp: nat, n: nat, l: Limits, checkLoad: bool): (r: Option<Outcome>)
    requires c.slots >= 1
    ensures r.Some? ==> r.value != Inserted && r.value != Duplicate
  {
    if checkLoad && LoadFactorOf(n, c.slots, hp) < l.minimumLoadFactor then Some(LoadFactorTooLow)
    else if l.maximumHashpower != NO_MAXIMUM_HASHPOWER && hp + 1 > l.maximumHashpower
    then Some(MaximumHashpowerExceeded)
    else if hp + 1 > l.memory then Some(OutOfMemory)
    else None
  }

  /** How the insertion of an unbound key ends: the table is doubled as long as the key is stuck, and the first
      refusal to grow decides.  checkLoad tells whether the next growth looks at the load factor. */
  ghost function Fate(c: Config, hp: nat, t: Table, hv: nat, n: nat, l: Limits, checkLoad: bool): (r: Outcome)
    requires c.slots >= 1
    ensures r != Duplicate
    decreases if hp <= l.memory then l.memory - hp else 0
  {
    if !Stuck(Maze(c, hp, t, Index1(hp, hv), Index2(hp, hv))) then Inserted
    else match Refusal(c, hp, n, l, checkLoad)
         case Some(exception) => exception
         case None => Fate(c, hp + 1, Doubled(c, hp, t), hv, n, l, true)
  }

  ghost predicate FateIs(c: Config, hp: nat, t: Table, hv: nat, n: nat, l: Limits, checkLoad: bool, f: Outcome)
    requires c.slots >= 1
  {
    f == Fate(c, hp, t, hv, n, l, checkLoad)
  }

  lemma FateUnfolds(c: Config, hp: nat, t: Table, hv: nat, n: nat, l: Limits, checkLoad: bool, f: Outcome)
    requires c.slots >= 1 && FateIs(c, hp, t, hv, n, l, checkLoad, f)
    ensures var g := Maze(c, hp, t, Index1(hp, hv), Index2(hp, hv));
            var refused := Refusal(c, hp, n, l, checkLoad);
            && f != Duplicate
            && (!Stuck(g) ==> f == Inserted)
            && (Stuck(g) && refused.Some? ==> f == refused.value)
            && (Stuck(g) && refused.None? ==> FateIs(c, hp + 1, Doubled(c, hp, t), hv, n, l, true, f))
  {
  }

  lemma OneFate(c: Config, hp: nat, t: Table, hv: nat, n: nat, l: Limits, checkLoad: bool, f: Outcome, f': Outcome)
    requires c.slots >= 1 && FateIs(c, hp, t, hv, n, l, checkLoad, f) && FateIs(c, hp, t, hv, n, l, checkLoad, f')
    ensures f == f'
  {
  }

  /** If the table may not grow, an insertion of an unbound key throws exactly when the key is stuck. */
  lemma RefusedExactlyWhenStuck(c: Config, hp: nat, t: Table, hv: nat, n: nat, l: Limits, checkLoad: bool)
    requires c.slots >= 1 && Refusal(c, hp, n, l, checkLoad).Some?
    ensures Fate(c, hp, t, hv, n, l, checkLoad) != Inserted <==> Stuck(Maze(c, hp, t, Index1(hp, hv), Index2(hp, hv)))
    ensures Fate(c, hp, t, hv, n, l, checkLoad) in {Inserted, Refusal(c, hp, n, l, checkLoad).value}
  {
  }

  /** A table of two buckets filled with the given keys. */
  function TwoFullBuckets(c: Config, ks: seq<Key>, v: Val): (t: Table)
    requires |ks| == 2 * c.slots
    ensures |t| == 2 && |t[0]| == |t[1]| == c.slots
    ensures forall b, s :: 0 <= b < 2 && 0 <= s < c.slots ==>
              SlotAt(t, b, s) == Item(PartialKey(c.hash(ks[b * c.slots + s])), ks[b * c.slots + s], v)
    ensures forall b, s :: SlotAt(t, b, s).Item? ==> 0 <= b < 2 && 0 <= s < c.slots
  {
    [seq(c.slots, s requires 0 <= s < c.slots => Item(PartialKey(c.hash(ks[s])), ks[s], v)),
     seq(c.slots, s requires 0 <= s < c.slots => Item(PartialKey(c.hash(ks[c.slots + s])), ks[c.slots + s], v))]
  }

  ghost predicate AllDifferent(ks: seq<Key>)
  {
    forall i, j :: 0 <= i < |ks| && 0 <= j < |ks| && ks[i] == ks[j] ==> i == j
  }

  /** At hashpower 1 every key may live in either bucket, so that any two bucketfuls of keys make a table. */
  lemma TwoFullBucketsAreValid(c: Config, ks: seq<Key>, v: Val, m: map<Key, Val>)
    requires c.slots >= 1 && |ks| == 2 * c.slots && AllDifferent(ks)
    requires (forall k :: k in m <==> k in ks) && forall k :: k in m ==> m[k] == v
    ensures Inv(c, 1, TwoFullBuckets(c, ks, v), m)
  {
    hide TwoFullBuckets, PartialKey, Index1, Index2;
    var t := TwoFullBuckets(c, ks, v);
    assert Pow2(1) == 2;
    forall b, s | SlotAt(t, b, s).Item? ensures WellPlaced(c, 1, b, SlotAt(t, b, s)) {
      CandidatesAreBuckets(1, c.hash(SlotAt(t, b, s).key));
    }
    forall b, s, b', s' | SameKey(t, b, s, b', s') ensures b == b' && s == s' {
      assert ks[b * c.slots + s] == ks[b' * c.slots + s'];
    }
    forall k | k in m ensures Stores(t, k) {
      var i :| 0 <= i < |ks| && ks[i] == k;
      var b, s := if i < c.slots then 0 else 1, if i < c.slots then i else i - c.slots;
      assert b * c.slots + s == i;
      assert SlotAt(t, b, s).key == k;
    }
  }

  /** Tables in which an insertion throws: for every hash function, two full buckets that may not grow refuse every
      further key. */
  lemma FullTableRefuses(c: Config, ks: seq<Key>, v: Val, k: Key, l: Limits, checkLoad: bool) returns (m: map<Key, Val>)
    requires c.slots >= 1 && |ks| == 2 * c.slots && AllDifferent(ks) && k !in ks && l.maximumHashpower == 1
    ensures Inv(c, 1, TwoFullBuckets(c, ks, v), m) && k !in m
    ensures var e := Fate(c, 1, TwoFullBuckets(c, ks, v), c.hash(k), |m|, l, checkLoad);
            e == if checkLoad && l.minimumLoadFactor > 1.0 then LoadFactorTooLow else MaximumHashpowerExceeded
  {
    hide TwoFullBuckets, PartialKey, Index1, Index2, LoadFactorOf, Stuck, Inv, HashSize;
    m := map q | q in ks :: v;
    assert m.Keys == set q | q in ks;
    KeyCount(ks);
    FullLoad(c.slots);
    TwoFullBucketsAreValid(c, ks, v, m);
    CandidatesAreBuckets(1, c.hash(k));
    TwoFullBucketsAreStuck(c, ks, v, Index1(1, c.hash(k)), Index2(1, c.hash(k)));
  }

  lemma {:induction false} KeyCount(ks: seq<Key>)
    requires AllDifferent(ks)
    ensures |set q | q in ks| == |ks|
  {
    if ks != [] {
      var front, q := ks[..|ks| - 1], ks[|ks| - 1];
      KeyCount(front);
      assert q !in front by { assert forall i :: 0 <= i < |front| ==> front[i] == ks[i]; }
      assert (set p | p in ks) == (set p | p in front) + {q} by { assert ks == front + [q]; }
    }
  }

  lemma FullLoad(slots: nat)
    requires slots >= 1
    ensures LoadFactorOf(2 * slots, slots, 1) == 1.0
  {
    hide LoadFactorOf, HashSize;
    SmallestHashSize();
    TwiceOf(slots, HashSize(1));
    ShareOfAll(LoadFactorOf(2 * slots, slots, 1), (slots * HashSize(1)) as real, (2 * slots) as real);
  }

  lemma SmallestHashSize()
    ensures HashSize(1) == 2
  {
  }

  lemma TwiceOf(slots: nat, n: nat)
    requires n == 2
    ensures slots * n == 2 * slots
  {
  }

  lemma ShareOfAll(x: real, a: real, n: real)
    requires a > 0.0 && x * a == n && a == n
    ensures x == 1.0
  {
    assert x * n == 1.0 * n;
  }

  lemma TwoFullBucketsAreStuck(c: Config, ks: seq<Key>, v: Val, i1: nat, i2: nat)
    requires c.slots >= 1 && |ks| == 2 * c.slots && i1 < Pow2(1) && i2 < Pow2(1)
    ensures Stuck(Maze(c, 1, TwoFullBuckets(c, ks, v), i1, i2))
  {
    hide TwoFullBuckets, PartialKey, Stuck;
    assert Pow2(1) == 2;
    FullTableIsStuck(Maze(c, 1, TwoFullBuckets(c, ks, v), i1, i2));
  }

  class CuckooMap {
    const cfg: Config
    // Whether keys are small and plain, in which case partial keys are not compared.
    const simple: bool
    const cores: nat
    // The largest hashpower for which the bucket array can be allocated.
    const memoryLimit: nat

    var buckets: Table
    var hashpower: nat
    var locked: set<nat>
    var inserts: seq<nat>
    var deletes: seq<nat>
    var minimumLoadFactor: real
    var maximumHashpower: nat

    ghost var model: map<Key, Val>

    ghost predicate Valid()
      reads this
    {
      Inv(cfg, hashpower, buckets, model) && Counted()
    }

    /** Insertions minus deletions, summed over the cores, is the number of bindings. */
    ghost predicate Counted()
      reads this
    {
      |inserts| == |deletes| == cores && cores >= 1 && Sum(inserts) == Sum(deletes) + |model|
    }

    // ---------------------------------------------------------------- construction

    /** The smallest usable hashpower for n elements; never less than one. */
    static method ReserveCalc(slots: nat, n: nat) returns (blog2: nat)
      requires slots >= 1
      ensures blog2 >= 1
      ensures n <= HashSize(blog2) * slots
      ensures blog2 > 1 ==> n > HashSize(blog2 - 1) * slots
    {
      var buckets := (n + slots - 1) / slots;
      CeilingDivision(n, slots);
      if buckets <= 1 {
        blog2 := 1;
      } else {
        blog2 := Log2(buckets);
        if HashSize(blog2) < buckets {
          blog2 := blog2 + 1;
        }
      }
      RoomForAll(slots, n, buckets, blog2);
    }

    static method Log2(buckets: nat) returns (blog2: nat)
      requires buckets >= 2
      ensures blog2 >= 1
      ensures Pow2(blog2) <= buckets < 2 * Pow2(blog2)
    {
      blog2 := 0;
      var bcounter := buckets;
      while bcounter > 1
        invariant bcounter >= 1
        invariant bcounter * Pow2(blog2) <= buckets < (bcounter + 1) * Pow2(blog2)
        decreases bcounter
      {
        HalvingStep(bcounter, Pow2(blog2), buckets);
        bcounter := bcounter / 2;
        blog2 := blog2 + 1;
      }
    }

    /** An empty table with room for n elements. */
    constructor (cfg: Config, simple: bool, cores: nat, memoryLimit: nat, n: nat, mlf: real, mhp: nat)
      requires cfg.slots >= 1 && cores >= 1
      ensures Valid() && model == map[] && locked == {}
      ensures this.cfg == cfg && this.simple == simple && this.cores == cores && this.memoryLimit == memoryLimit
      ensures hashpower >= 1
      ensures n <= HashSize(hashpower) * cfg.slots && (hashpower > 1 ==> n > HashSize(hashpower - 1) * cfg.slots)
      ensures minimumLoadFactor == mlf && maximumHashpower == mhp
    {
      var hp := ReserveCalc(cfg.slots, n);
      this.cfg := cfg;
      this.simple := simple;
      this.cores := cores;
      this.memoryLimit := memoryLimit;
      hashpower := hp;
      buckets := seq(HashSize(hp), _ => FreeSlots(cfg.slots));
      locked := {};
      inserts := seq(cores, _ => 0);
      deletes := seq(cores, _ => 0);
      minimumLoadFactor := mlf;
      maximumHashpower := mhp;
      model := map[];
      new;
      SumOfZeros(inserts);
      SumOfZeros(deletes);
    }

    /** Makes a table, or answers null where the arguments are refused with an exception. */
    static method Create(cfg: Config, simple: bool, cores: nat, memoryLimit: nat, n: nat, mlf: real, mhp: nat)
      returns (m: CuckooMap?)
      requires cfg.slots >= 1 && cores >= 1
      ensures m == null <==> mlf < 0.0 || mlf > 1.0 || (mhp != NO_MAXIMUM_HASHPOWER && n > HashSize(mhp) * cfg.slots)
      ensures m != null ==> fresh(m) && m.Valid() && m.model == map[] && m.locked == {} && m.cfg == cfg
      ensures m != null && mhp != NO_MAXIMUM_HASHPOWER ==> m.hashpower <= mhp
      ensures m != null ==> n <= HashSize(m.hashpower) * cfg.slots
      ensures m != null && m.hashpower > 1 ==> n > HashSize(m.hashpower - 1) * cfg.slots
      ensures m != null ==> m.minimumLoadFactor == mlf && m.maximumHashpower == mhp
      ensures m != null ==> m.simple == simple && m.cores == cores && m.memoryLimit == memoryLimit
    {
      if mlf < 0.0 || mlf > 1.0 { return null; }
      var hp := ReserveCalc(cfg.slots, n);
      if mhp != NO_MAXIMUM_HASHPOWER {
        RoomWithin(cfg.slots, n, hp, mhp);
        if hp > mhp { return null; }
      }
      m := new CuckooMap(cfg, simple, cores, memoryLimit, n, mlf, mhp);
      if mhp != NO_MAXIMUM_HASHPOWER { RoomWithin(cfg.slots, n, m.hashpower, mhp); }
    }

    // ---------------------------------------------------------------- locks

    method Lock(l: nat)
      requires l !in locked
      modifies this`locked
      ensures locked == old(locked) + {l}
    {
      locked := locked + {l};
    }

    method Unlock(l: nat)
      requires l in locked
      modifies this`locked
      ensures locked == old(locked) - {l}
    {
      locked := locked - {l};
    }

    /** True if the hashpower is not the expected one, in which case the lock is given back. */
    method CheckHashpower(hp: nat, l: nat) returns (changed: bool)
      requires l in locked
      modifies this`locked
      ensures changed <==> hp != hashpower
      ensures locked == if changed then old(locked) - {l} else old(locked)
    {
      changed := hashpower != hp;
      if changed { Unlock(l); }
    }

    method LockOne(hp: nat, i: nat) returns (changed: bool)
      requires LockInd(i) !in locked
      modifies this`locked
      ensures changed <==> hp != hashpower
      ensures locked == if changed then old(locked) else old(locked) + {LockInd(i)}
    {
      Lock(LockInd(i));
      changed := CheckHashpower(hp, LockInd(i));
    }

    method LockTwo(hp: nat, i1: nat, i2: nat) returns (b: TwoBuckets, changed: bool)
      requires locked == {}
      modifies this`locked
      ensures changed <==> hp != hashpower
      ensures b == TwoBuckets(!changed, i1, i2) && locked == LocksOf(b)
    {
      var l1, l2 := LockInd(i1), LockInd(i2);
      if l2 < l1 { l1, l2 := l2, l1; }
      Lock(l1);
      changed := CheckHashpower(hp, l1);
      if !changed && l2 != l1 { Lock(l2); }
      b := TwoBuckets(!changed, i1, i2);
    }

    /** Locks three buckets in increasing lock order; the third counts as a container of its own
        (`extra`) only if it shares no lock with the first two. */
    method LockThree(hp: nat, i1: nat, i2: nat, i3: nat) returns (b: TwoBuckets, extra: bool, changed: bool)
      requires locked == {}
      modifies this`locked
      ensures changed <==> hp != hashpower
      ensures changed ==> locked == {} && !extra && !b.active
      ensures !changed ==> b == TwoBuckets(true, i1, i2) && locked == LocksOf(b) + {LockInd(i3)}
      ensures !changed ==> (extra <==> LockInd(i3) !in LocksOf(b))
    {
      var l0, l1, l2 := LockInd(i1), LockInd(i2), LockInd(i3);
      if l1 < l0 { l0, l1 := l1, l0; }
      if l2 < l1 { l1, l2 := l2, l1; }
      if l1 < l0 { l0, l1 := l1, l0; }
      assert l0 <= l1 <= l2 && {l0, l1, l2} == {LockInd(i1), LockInd(i2), LockInd(i3)};
      Lock(l0);
      changed := CheckHashpower(hp, l0);
      if changed { return TwoBuckets(false, i1, i2), false, true; }
      if l1 != l0 { Lock(l1); }
      if l2 != l1 { Lock(l2); }
      b := TwoBuckets(true, i1, i2);
      extra := LockInd(i3) != LockInd(i1) && LockInd(i3) != LockInd(i2);
    }

    method Release(b: TwoBuckets) returns (b': TwoBuckets)
      requires LocksOf(b) <= locked
      modifies this`locked
      ensures locked == old(locked) - LocksOf(b)
      ensures b' == b.(active := false)
    {
      if b.active {
        Unlock(LockInd(b.i0));
        if LockInd(b.i0) != LockInd(b.i1) { Unlock(LockInd(b.i1)); }
      }
      b' := b.(active := false);
    }

    method SnapshotAndLockTwo(hv: nat) returns (b: TwoBuckets)
      requires Valid() && locked == {}
      modifies this`locked
      ensures b.active && CandidatesOf(b, hashpower, hv) && locked == LocksOf(b)
      ensures b.i0 < |buckets| && b.i1 < |buckets| && b.i0 != b.i1
    {
      var hp := hashpower;
      var changed;
      b, changed := LockTwo(hp, Index1(hp, hv), Index2(hp, hv));
      CandidatesAreBuckets(hp, hv);
    }

    /** A slot, read under the lock of its bucket. */
    function Read(b: nat, s: nat): Slot
      requires LockInd(b) in locked
      reads this
    {
      SlotAt(buckets, b, s)
    }

    // ---------------------------------------------------------------- search for a path

    /** Breadth-first search for the nearest bucket with a free slot.  It fails exactly when no look within the
        reach of the queue finds one. */
    method SlotSearch(hp: nat, i1: nat, i2: nat) returns (x: BSlot, changed: bool)
      requires Shape(cfg, hashpower, buckets) && locked == {}
      modifies this`locked
      ensures locked == {}
      ensures changed <==> hp != hashpower
      ensures !changed ==> (x.depth == -1 <==> Exhausted(Maze(cfg, hp, buckets, i1, i2)))
      ensures !changed && x.depth != -1 ==> FoundShortest(Maze(cfg, hp, buckets, i1, i2), x)
    {
      hide Power, Codes, Walk, Scan, Extend, Nth, Searching, Exhausted, FoundShortest, AltIndex, And,
           Cell, SlotAt, Pow2;
      ghost var g := Maze(cfg, hp, buckets, i1, i2);
      var q := new BQueue();
      q.Enqueue(BSlot(i1, 0, 0));
      q.Enqueue(BSlot(i2, 1, 0));
      ghost var d: nat, p: nat, n: nat, scanning := 0, 0, 0, false;
      SearchStarts(g);
      assert q.contents == [BSlot(i1, 0, 0), BSlot(i2, 1, 0)];
      while !q.Full() && !q.Empty()
        invariant fresh(q) && fresh(q.slots) && q.Valid() && locked == {}
        invariant hp == hashpower || |q.contents| == 2
        invariant Searching(g, d, p, n, scanning, q.contents) && d < MAX_BFS_PATH_LEN && p <= Codes(cfg.slots, d)
        invariant if scanning then q.Full() && n >= 1 else n == 0
        decreases MAX_BFS_PATH_LEN - d, Codes(cfg.slots, d) - p, !scanning
      {
        d, p := HeadOfQueue(g, d, p, q.contents);
        EntryTaken(g, d, p, q.contents);
        x := q.Dequeue();
        ghost var c := x.pathcode;
        var startingSlot := x.pathcode % cfg.slots;
        var i := 0;
        while i < cfg.slots && !q.Full()
          invariant fresh(q) && fresh(q.slots) && q.Valid() && locked == {}
          invariant if i > 0 then hp == hashpower else |q.contents| < MAX_CUCKOO_COUNT - 2
          invariant x == Entry(g, c, d) && c == Nth(cfg.slots, d, p) && d < MAX_BFS_PATH_LEN
          invariant 0 <= i <= cfg.slots && Searching(g, d, p, i, true, q.contents)
        {
          var slot := Scan(cfg.slots, startingSlot, i);
          changed := LockOne(hp, x.bucket);
          if changed { return; }
          var item := Read(x.bucket, slot);
          if item.Free? {
            LookFinds(g, d, p, i, q.contents, c, x.bucket, slot);
            x := x.(pathcode := Extend(cfg.slots, x.pathcode, slot));
            Unlock(LockInd(x.bucket));
            return;
          }
          LookPassed(g, d, p, i, q.contents, c, x.bucket, slot);
          if x.depth < MAX_BFS_PATH_LEN - 1 {
            var y := BSlot(AltIndex(hp, item.partial, x.bucket), Extend(cfg.slots, x.pathcode, slot), x.depth + 1);
            q.Enqueue(y);
          }
          Unlock(LockInd(x.bucket));
          i := i + 1;
        }
        if i == cfg.slots {
          EntryDone(g, d, p, q.contents);
          p, n, scanning := p + 1, 0, false;
        } else {
          n, scanning := i, true;
        }
      }
      SearchEnds(g, d, p, n, scanning, q.contents);
      x := BSlot(0, 0, -1);
      changed := false;
    }

    /** Takes the slots off a path code, from its end to its beginning; what is left is the root. */
    method DecodePath(x: BSlot, path0: Records) returns (path: Records, rest: nat)
      requires cfg.slots >= 1 && 0 <= x.depth < MAX_BFS_PATH_LEN && x.pathcode < Codes(cfg.slots, x.depth + 1)
      ensures forall j :: 0 <= j <= x.depth ==>
          path[j].slot == Prefix(cfg.slots, x.pathcode, x.depth + 1, j + 1) % cfg.slots
      ensures rest == Prefix(cfg.slots, x.pathcode, x.depth + 1, 0) < 2
    {
      PrefixBound(cfg.slots, x.pathcode, x.depth + 1, 0);
      assert Codes(cfg.slots, 0) == 2;
      path, rest := path0, x.pathcode;
      var i := x.depth;
      while i >= 0
        invariant -1 <= i <= x.depth
        invariant rest == Prefix(cfg.slots, x.pathcode, x.depth + 1, i + 1)
        invariant forall j :: i < j <= x.depth ==>
            path[j].slot == Prefix(cfg.slots, x.pathcode, x.depth + 1, j + 1) % cfg.slots
      {
        path := path[i := path[i].(slot := rest % cfg.slots)];
        PrefixStep(cfg.slots, x.pathcode, x.depth + 1, i);
        rest := rest / cfg.slots;
        i := i - 1;
      }
    }

    /** Reads one slot under the lock of its bucket. */
    method ReadOne(hp: nat, b: nat, s: nat) returns (item: Slot, changed: bool)
      requires locked == {}
      modifies this`locked
      ensures locked == {}
      ensures changed <==> hp != hashpower
      ensures !changed ==> item == SlotAt(buckets, b, s)
    {
      item := Free;
      changed := LockOne(hp, b);
      if !changed {
        item := Read(b, s);
        Unlock(LockInd(b));
      }
    }

    /** Reads the path of a found code back from the table: slots from the end of the code to its
        beginning, then buckets and hash values from the root on. */
    method CuckooPathSearch(hp: nat, path0: Records, i1: nat, i2: nat)
          returns (depth: int, path: Records, changed: bool)
      requires Valid() && locked == {} && (hp == hashpower ==> i1 < |buckets| && i2 < |buckets|)
      modifies this`locked
      ensures locked == {}
      ensures changed <==> hp != hashpower
      ensures !changed ==> (depth < 0 <==> Exhausted(Maze(cfg, hp, buckets, i1, i2)))
      ensures !changed && depth >= 0 ==>
                && Intact(cfg, buckets, path, depth) && InTable(cfg, hp, path, depth) && Hops(hp, path, depth)
                && (path[0].bucket == i1 || path[0].bucket == i2)
    {
      var x;
      hide Walk, Prefix, LevelFull, Exhausted, Intact, InTable, Hops, Follows, PathAt, AltIndex, Power, Codes, Pow2,
           Placed, Unique, Represents;
      x, changed := SlotSearch(hp, i1, i2);
      if changed || x.depth == -1 { return -1, path0, changed; }
      ghost var g := Maze(cfg, hp, buckets, i1, i2);
      var rest;
      path, rest := DecodePath(x, path0);
      PathAtRoot(g, x, path, rest);
      path := path[0 := path[0].(bucket := if rest == 0 then i1 else i2)];
      var item;
      item, changed := ReadOne(hp, path[0].bucket, path[0].slot);
      PathComplete(g, x, path, 0);
      if item.Free? { return 0, path, false; }
      PathRecords(g, x, path, 0, cfg.hash(item.key));
      path := path[0 := path[0].(hv := cfg.hash(item.key))];
      var i := 1;
      while i <= x.depth
        invariant 1 <= i <= x.depth + 1 && locked == {}
        invariant PathAt(g, x, path, i - 1) && InPlace(cfg, buckets, path[i - 1])
      {
        PathAdvances(g, x, path, i - 1);
        path := path[i := path[i].(bucket := AltIndex(hp, PartialKey(path[i - 1].hv), path[i - 1].bucket))];
        item, changed := ReadOne(hp, path[i].bucket, path[i].slot);
        PathComplete(g, x, path, i);
        if item.Free? { return i, path, false; }
        PathRecords(g, x, path, i, cfg.hash(item.key));
        path := path[i := path[i].(hv := cfg.hash(item.key))];
        i := i + 1;
      }
      PathComplete(g, x, path, x.depth);
      depth := x.depth;
    }

    // ---------------------------------------------------------------- moving along a path

    /** Moves an item between two locked buckets. */
    method MoveToBucket(from: Record, to: Record)
      requires Shape(cfg, hashpower, buckets)
      requires from.bucket < |buckets| && from.slot < cfg.slots && to.bucket < |buckets| && to.slot < cfg.slots
      requires LockInd(from.bucket) in locked && LockInd(to.bucket) in locked
      requires buckets[from.bucket][from.slot].Item? && buckets[to.bucket][to.slot].Free?
      modifies this`buckets
      ensures buckets == Shifted(old(buckets), from, to)
    {
      buckets := Write(buckets, to.bucket, to.slot, buckets[from.bucket][from.slot]);
      buckets := Write(buckets, from.bucket, from.slot, Free);
    }

    /** Locks what one step of the move needs: at the last step also both insert buckets. */
    method LockStep(hp: nat, path: Records, depth: nat, b: TwoBuckets)
          returns (twob: TwoBuckets, extra: bool, changed: bool)
      requires 1 <= depth < MAX_BFS_PATH_LEN && locked == {}
      modifies this`locked
      ensures changed <==> hp != hashpower
      ensures changed ==> locked == {}
      ensures !changed ==> twob.active && extra == (LockInd(path[depth].bucket) !in LocksOf(twob))
      ensures !changed ==> locked == LocksOf(twob) + {LockInd(path[depth].bucket)}
      ensures !changed ==> twob == if depth == 1 then TwoBuckets(true, b.i0, b.i1)
                                   else TwoBuckets(true, path[depth - 1].bucket, path[depth].bucket)
    {
      if depth == 1 {
        twob, extra, changed := LockThree(hp, b.i0, b.i1, path[depth].bucket);
      } else {
        twob, changed := LockTwo(hp, path[depth - 1].bucket, path[depth].bucket);
        extra := false;
      }
    }

    /** Moves items backwards along a path, which may be stale or run in circles.  Whatever happens,
        the bindings stay; on success the first slot of the path is free and both insert buckets are
        locked, otherwise no lock is held.  An intact path always succeeds. */
    method CuckooPathMove(hp: nat, path: Records, depth0: nat, b0: TwoBuckets)
      returns (moved: bool, b: TwoBuckets, changed: bool)
      requires Valid() && locked == {} && depth0 < MAX_BFS_PATH_LEN
      requires InTable(cfg, hp, path, depth0) && Hops(hp, path, depth0)
      requires path[0].bucket == b0.i0 || path[0].bucket == b0.i1
      modifies this`buckets, this`locked
      ensures Valid()
      ensures changed <==> hp != hashpower
      ensures moved ==> b == TwoBuckets(true, b0.i0, b0.i1) && locked == LocksOf(b) && !changed
      ensures moved ==> SlotAt(buckets, path[0].bucket, path[0].slot).Free?
      ensures !moved ==> locked == {} && b == TwoBuckets(false, b0.i0, b0.i1)
      ensures !changed && Intact(cfg, old(buckets), path, depth0) ==> moved
      ensures depth0 == 0 && !changed ==> moved == SlotAt(old(buckets), path[0].bucket, path[0].slot).Free?
    {
      hide Placed, Unique, Represents, Shifted, LockInd, AltIndex, Follows, Pow2;
      b := TwoBuckets(false, b0.i0, b0.i1);
      if depth0 == 0 {
        b, changed := LockTwo(hp, b0.i0, b0.i1);
        if changed { return false, TwoBuckets(false, b0.i0, b0.i1), true; }
        if Read(path[0].bucket, path[0].slot).Free? { return true, b, false; }
        b := Release(b);
        return false, b, false;
      }
      var depth := depth0;
      while depth > 0
        invariant 0 <= depth <= depth0 && Valid()
        invariant depth == depth0 || hp == hashpower
        invariant depth < depth0 ==> SlotAt(buckets, path[depth].bucket, path[depth].slot).Free?
        invariant Intact(cfg, old(buckets), path, depth0) ==> Intact(cfg, buckets, path, depth)
        invariant b == TwoBuckets(depth == 0, b0.i0, b0.i1) && locked == LocksOf(b)
      {
        var from, to := path[depth - 1], path[depth];
        var twob, extra;
        twob, extra, changed := LockStep(hp, path, depth, b);
        if changed { return false, b, true; }
        var fromItem, toItem := Read(from.bucket, from.slot), Read(to.bucket, to.slot);
        if fromItem.Free? || cfg.hash(fromItem.key) != from.hv || toItem.Item? {
          twob := Release(twob);
          if extra { Unlock(LockInd(to.bucket)); }
          return false, b, false;
        }
        ShiftKeepsMap(cfg, hp, buckets, model, path, depth, depth0);
        if Intact(cfg, old(buckets), path, depth0) { ShiftKeepsIntact(cfg, hp, buckets, path, depth); }
        MoveToBucket(from, to);
        if depth == 1 {
          b := twob;
        } else {
          twob := Release(twob);
        }
        if extra { Unlock(LockInd(to.bucket)); }
        depth := depth - 1;
      }
      moved, changed := true, false;
    }

    /** Frees a slot in one of the two insert buckets.  On a table that nobody else changes, the
        first path that is found can be moved along, so one search is enough. */
    method RunCuckoo(b0: TwoBuckets)
      returns (st: Status, b: TwoBuckets, insertBucket: nat, insertSlot: nat, ghost searches: nat)
      requires Valid() && b0.active && locked == LocksOf(b0)
      requires b0.i0 < |buckets| && b0.i1 < |buckets|
      modifies this`buckets, this`locked
      ensures Valid()
      ensures searches == 1
      ensures st == if Exhausted(Maze(cfg, hashpower, old(buckets), b0.i0, b0.i1)) then Failure else Ok
      ensures st == Ok ==> b == b0 && locked == LocksOf(b)
      ensures st == Ok ==> insertBucket == b.i0 || insertBucket == b.i1
      ensures st == Ok ==> insertSlot < cfg.slots && SlotAt(buckets, insertBucket, insertSlot).Free?
      ensures st == Failure ==> locked == {} && buckets == old(buckets)
    {
      hide Exhausted, LockInd;
      var hp := hashpower;
      searches := 0;
      b := Release(b0);
      insertBucket, insertSlot := 0, 0;
      var path: Records := seq(MAX_BFS_PATH_LEN, _ => Record(0, 0, 0));
      var done := false;
      while !done
        invariant Valid() && b == TwoBuckets(done, b0.i0, b0.i1) && locked == LocksOf(b)
        invariant |buckets| == |old(buckets)| && (!done ==> buckets == old(buckets))
        invariant done ==> insertBucket == b.i0 || insertBucket == b.i1
        invariant done ==> insertSlot < cfg.slots && SlotAt(buckets, insertBucket, insertSlot).Free?
        invariant searches == if done then 1 else 0
        invariant done ==> !Exhausted(Maze(cfg, hp, old(buckets), b0.i0, b0.i1))
        decreases !done
      {
        searches := searches + 1;
        var depth, changed;
        depth, path, changed := CuckooPathSearch(hp, path, b.i0, b.i1);
        if changed { st := UnderExpansion; return; }
        if depth < 0 { break; }
        var moved;
        moved, b, changed := CuckooPathMove(hp, path, depth, b);
        if changed { st := UnderExpansion; return; }
        if moved {
          insertBucket, insertSlot := path[0].bucket, path[0].slot;
          done := true;
        }
      }
      st := if done then Ok else Failure;
    }

    // ---------------------------------------------------------------- operations on one bucket

    /** The test of every bucket scan: occupied, same partial key (unless keys are simple), same key. */
    predicate Hit(x: Slot, partial: int, key: Key)
    {
      x.Item? && (simple || x.partial == partial) && x.key == key
    }

    /** No slot of the bucket passes the test. */
    ghost predicate Lacks(b: nat, partial: int, key: Key)
      reads this
    {
      forall s :: 0 <= s < cfg.slots ==> !Hit(SlotAt(buckets, b, s), partial, key)
    }

    /** The first slot of a bucket that holds the key, or -1. */
    method FindSlot(partial: int, key: Key, b: nat) returns (slot: int)
      requires Shape(cfg, hashpower, buckets) && b < |buckets| && LockInd(b) in locked
      ensures slot >= 0 ==> slot < cfg.slots && Hit(SlotAt(buckets, b, slot), partial, key)
      ensures slot < 0 <==> Lacks(b, partial, key)
    {
      slot := 0;
      while slot < cfg.slots
        invariant 0 <= slot <= cfg.slots
        invariant forall s :: 0 <= s < slot ==> !Hit(SlotAt(buckets, b, s), partial, key)
      {
        if Hit(Read(b, slot), partial, key) { return; }
        slot := slot + 1;
      }
      slot := -1;
    }

    /** Searches for the key and for a free slot at the same time. */
    method TryFindInsertBucket(partial: int, key: Key, b: nat) returns (absent: bool, slot: int)
      requires Shape(cfg, hashpower, buckets) && b < |buckets| && LockInd(b) in locked
      ensures absent <==> Lacks(b, partial, key)
      ensures absent && slot >= 0 ==> slot < cfg.slots && SlotAt(buckets, b, slot).Free?
      ensures absent && slot < 0 ==> slot == -1 && forall s :: 0 <= s < cfg.slots ==> SlotAt(buckets, b, s).Item?
    {
      slot := -1;
      var i := 0;
      while i < cfg.slots
        invariant 0 <= i <= cfg.slots
        invariant forall s :: 0 <= s < i ==> !Hit(SlotAt(buckets, b, s), partial, key)
        invariant slot == -1 || (0 <= slot < i && SlotAt(buckets, b, slot).Free?)
        invariant slot == -1 ==> forall s :: 0 <= s < i ==> SlotAt(buckets, b, s).Item?
      {
        var x := Read(b, i);
        if Hit(x, partial, key) { return false, slot; }
        if x.Free? && slot == -1 { slot := i; }
        i := i + 1;
      }
      absent := true;
    }

    /** A key is unbound exactly when both of its candidate buckets lack it. */
    lemma ScansDecide(key: Key)
      requires Valid()
      ensures var hv := cfg.hash(key);
              && Index1(hashpower, hv) < |buckets| && Index2(hashpower, hv) < |buckets|
              && (key !in model <==>
                    && Lacks(Index1(hashpower, hv), PartialKey(hv), key)
                    && Lacks(Index2(hashpower, hv), PartialKey(hv), key))
    {
      var hv := cfg.hash(key);
      CandidatesAreBuckets(hashpower, hv);
      LookupInCandidates(cfg, hashpower, buckets, model, key);
      forall b, s | SlotAt(buckets, b, s).Item? && SlotAt(buckets, b, s).key == key
        ensures Hit(SlotAt(buckets, b, s), PartialKey(hv), key)
      {
        assert WellPlaced(cfg, hashpower, b, SlotAt(buckets, b, s));
      }
    }

    /** The candidate bucket and slot of a key, the index bucket first. */
    method Locate(key: Key, hv: nat, i1: nat, i2: nat) returns (at: Option<(nat, nat)>)
      requires Valid() && hv == cfg.hash(key) && i1 == Index1(hashpower, hv) && i2 == Index2(hashpower, hv)
      requires LockInd(i1) in locked && LockInd(i2) in locked
      ensures at.None? <==> key !in model
      ensures at.Some? ==> at.value.0 in {i1, i2} && at.value.0 < |buckets| && at.value.1 < cfg.slots
      ensures at.Some? ==> Hit(SlotAt(buckets, at.value.0, at.value.1), PartialKey(hv), key)
    {
      hide Placed, Unique, Represents, Lacks, Index1, Index2, Hit, PartialKey, LockInd;
      ScansDecide(key);
      var partial := PartialKey(hv);
      var s1 := FindSlot(partial, key, i1);
      if s1 >= 0 { return Some((i1, s1)); }
      var s2 := FindSlot(partial, key, i2);
      if s2 >= 0 { return Some((i2, s2)); }
      at := None;
    }

    method AddToBucket(b: nat, slot: nat, key: Key, val: Val)
      requires Valid() && key !in model && b < |buckets| && slot < cfg.slots && buckets[b][slot].Free?
      requires b == Index1(hashpower, cfg.hash(key)) || b == Index2(hashpower, cfg.hash(key))
      requires LockInd(b) in locked
      modifies this`buckets, this`inserts, this`model
      ensures Valid() && model == old(model)[key := val]
    {
      AddItem(cfg, hashpower, buckets, model, b, slot, key, val);
      buckets := Write(buckets, b, slot, Item(PartialKey(cfg.hash(key)), key, val));
      var counter: nat :| counter < cores;
      SumIncrement(inserts, counter);
      inserts := inserts[counter := inserts[counter] + 1];
      model := model[key := val];
    }

    // ---------------------------------------------------------------- lookups and updates

    method CuckooFind(key: Key, hv: nat, i1: nat, i2: nat) returns (r: Option<Val>)
      requires Valid() && hv == cfg.hash(key) && i1 == Index1(hashpower, hv) && i2 == Index2(hashpower, hv)
      requires LockInd(i1) in locked && LockInd(i2) in locked
      ensures r == if key in model then Some(model[key]) else None
    {
      var at := Locate(key, hv, i1, i2);
      if at.None? { return None; }
      var x := Read(at.value.0, at.value.1);
      r := Some(x.val);
    }

    method Find(key: Key) returns (r: Option<Val>)
      requires Valid() && locked == {}
      modifies this`locked
      ensures locked == {}
      ensures r == if key in model then Some(model[key]) else None
    {
      var hv := cfg.hash(key);
      var b := SnapshotAndLockTwo(hv);
      r := CuckooFind(key, hv, b.i0, b.i1);
      b := Release(b);
    }

    method Contains(key: Key) returns (r: bool)
      requires Valid() && locked == {}
      modifies this`locked
      ensures locked == {}
      ensures r <==> key in model
    {
      var hv := cfg.hash(key);
      var b := SnapshotAndLockTwo(hv);
      var at := Locate(key, hv, b.i0, b.i1);
      b := Release(b);
      r := at.Some?;
    }

    method CuckooUpdateFn(key: Key, fn: Val -> Val, hv: nat, i1: nat, i2: nat) returns (st: Status)
      requires Valid() && hv == cfg.hash(key) && i1 == Index1(hashpower, hv) && i2 == Index2(hashpower, hv)
      requires LockInd(i1) in locked && LockInd(i2) in locked
      modifies this`buckets, this`model
      ensures Valid()
      ensures st == if key in old(model) then Ok else KeyNotFound
      ensures model == if key in old(model) then old(model)[key := fn(old(model)[key])] else old(model)
      ensures key !in old(model) ==> buckets == old(buckets)
    {
      var at := Locate(key, hv, i1, i2);
      if at.None? { return KeyNotFound; }
      var x := Read(at.value.0, at.value.1);
      ReplaceValue(cfg, hashpower, buckets, model, at.value.0, at.value.1, fn(x.val));
      buckets := Write(buckets, at.value.0, at.value.1, x.(val := fn(x.val)));
      model := model[key := fn(x.val)];
      st := Ok;
    }

    method UpdateFn(key: Key, fn: Val -> Val) returns (updated: bool)
      requires Valid() && locked == {}
      modifies this`locked, this`buckets, this`model
      ensures Valid() && locked == {}
      ensures updated <==> key in old(model)
      ensures model == if updated then old(model)[key := fn(old(model)[key])] else old(model)
    {
      var hv := cfg.hash(key);
      var b := SnapshotAndLockTwo(hv);
      var st := CuckooUpdateFn(key, fn, hv, b.i0, b.i1);
      b := Release(b);
      updated := st == Ok;
    }

    method Update(key: Key, val: Val) returns (updated: bool)
      requires Valid() && locked == {}
      modifies this`locked, this`buckets, this`model
      ensures Valid() && locked == {}
      ensures updated <==> key in old(model)
      ensures model == if updated then old(model)[key := val] else old(model)
    {
      updated := UpdateFn(key, _ => val);
    }

    method CuckooDelete(key: Key, hv: nat, i1: nat, i2: nat) returns (st: Status)
      requires Valid() && hv == cfg.hash(key) && i1 == Index1(hashpower, hv) && i2 == Index2(hashpower, hv)
      requires LockInd(i1) in locked && LockInd(i2) in locked
      modifies this`buckets, this`deletes, this`model
      ensures Valid()
      ensures st == if key in old(model) then Ok else KeyNotFound
      ensures model == old(model) - {key}
    {
      hide Placed, Unique, Represents, Index1, Index2, PartialKey, LockInd;
      var at := Locate(key, hv, i1, i2);
      if at.None? { return KeyNotFound; }
      RemoveItem(cfg, hashpower, buckets, model, at.value.0, at.value.1);
      buckets := Write(buckets, at.value.0, at.value.1, Free);
      var counter: nat :| counter < cores;
      SumIncrement(deletes, counter);
      deletes := deletes[counter := deletes[counter] + 1];
      RemovalShrinks(model, key);
      model := model - {key};
      st := Ok;
    }

    method Erase(key: Key) returns (erased: bool)
      requires Valid() && locked == {}
      modifies this`locked, this`buckets, this`deletes, this`model
      ensures Valid() && locked == {}
      ensures erased <==> key in old(model)
      ensures model == old(model) - {key}
    {
      var hv := cfg.hash(key);
      var b := SnapshotAndLockTwo(hv);
      var st := CuckooDelete(key, hv, b.i0, b.i1);
      b := Release(b);
      erased := st == Ok;
    }

    /** The element count, from the counters of all cores. */
    method CuckooSize() returns (n: nat)
      requires Valid()
      ensures n == |model| == |Occupied(buckets)|
    {
      var ins, del, i: nat := 0, 0, 0;
      while i < cores
        invariant 0 <= i <= cores
        invariant ins == Sum(inserts[..i]) && del == Sum(deletes[..i])
      {
        assert inserts[..i + 1][..i] == inserts[..i] && deletes[..i + 1][..i] == deletes[..i];
        ins, del := ins + inserts[i], del + deletes[i];
        i := i + 1;
      }
      assert inserts[..cores] == inserts && deletes[..cores] == deletes;
      OccupiedCount(cfg, hashpower, buckets, model);
      n := ins - del;
    }

    // ---------------------------------------------------------------- insertion

    /** Inserts into a free slot of either candidate bucket, making one by eviction if need be; gives
        up the two locks in all cases. */
    method CuckooInsert(hv: nat, b0: TwoBuckets, key: Key, val: Val) returns (st: Status)
      requires Valid() && hv == cfg.hash(key)
      requires b0.active && CandidatesOf(b0, hashpower, hv) && locked == LocksOf(b0)
      modifies this`locked, this`buckets, this`inserts, this`model
      ensures Valid() && locked == {}
      ensures st == Ok || st == KeyDuplicated || st == TableFull
      ensures st == if key in old(model) then KeyDuplicated
                    else if Stuck(Maze(cfg, hashpower, old(buckets), b0.i0, b0.i1)) then TableFull else Ok
      ensures model == if st == Ok then old(model)[key := val] else old(model)
      ensures st == TableFull ==> buckets == old(buckets)
    {
      hide Placed, Unique, Represents, Index1, Index2, PartialKey, LockInd, Exhausted, Lacks;
      ScansDecide(key);
      var partial := PartialKey(hv);
      var absent, res1, res2;
      absent, res1 := TryFindInsertBucket(partial, key, b0.i0);
      if !absent { var _ := Release(b0); return KeyDuplicated; }
      absent, res2 := TryFindInsertBucket(partial, key, b0.i1);
      if !absent { var _ := Release(b0); return KeyDuplicated; }
      if res1 != -1 {
        AddToBucket(b0.i0, res1, key, val);
        var _ := Release(b0);
        return Ok;
      }
      if res2 != -1 {
        AddToBucket(b0.i1, res2, key, val);
        var _ := Release(b0);
        return Ok;
      }
      var b, insertBucket, insertSlot;
      ghost var searches;
      st, b, insertBucket, insertSlot, searches := RunCuckoo(b0);
      if st == Ok {
        var at := Locate(key, hv, b.i0, b.i1);
        st := if at.Some? then KeyDuplicated else Ok;
        if st == Ok { AddToBucket(insertBucket, insertSlot, key, val); }
        var _ := Release(b);
        return st;
      }
      st := TableFull;
    }

    // ---------------------------------------------------------------- doubling in place

    /** Splits one bucket: items that leave go to the fresh bucket, in slot order. */
    method SplitBucket(currentHp: nat, b: nat)
      requires cfg.slots >= 1 && |buckets| == 2 * HashSize(currentHp) && b < HashSize(currentHp)
      requires |buckets[b]| == cfg.slots && buckets[b + HashSize(currentHp)] == FreeSlots(cfg.slots)
      requires forall s :: 0 <= s < cfg.slots && buckets[b][s].Item? ==> WellPlaced(cfg, currentHp, b, buckets[b][s])
      requires LockInd(b) in locked && LockInd(b + HashSize(currentHp)) in locked
      modifies this`buckets
      ensures buckets == old(buckets)[b := Kept(cfg, currentHp, b, old(buckets[b]))]
                                     [b + HashSize(currentHp) := Arrived(cfg, currentHp, b, old(buckets[b]))]
    {
      hide LockInd, Kept, Arrived, Leaves, WellPlaced, Departing, Pow2, HalfKept, HalfArrived;
      ghost var t0, bu := buckets, buckets[b];
      var n := b + HashSize(currentHp);
      var slot, newSlot: nat := 0, 0;
      HalfSplitEnds(cfg, currentHp, b, bu);
      while slot < cfg.slots
        invariant 0 <= slot <= cfg.slots && newSlot == |Departing(cfg, currentHp, b, bu[..slot])|
        invariant |buckets| == |t0| && buckets[b] == HalfKept(cfg, currentHp, b, bu, slot)
        invariant buckets[n] == HalfArrived(cfg, currentHp, b, bu, slot)
        invariant forall b' :: 0 <= b' < |t0| && b' != b && b' != n ==> buckets[b'] == t0[b']
      {
        HalfSplitStep(cfg, currentHp, b, bu, slot);
        var item := buckets[b][slot];
        if item.Item? {
          if Leaves(cfg, currentHp, b, item) {
            buckets := buckets[n := buckets[n][newSlot := item]];
            buckets := buckets[b := buckets[b][slot := Free]];
            newSlot := newSlot + 1;
          } else {
            StayingItem(cfg, currentHp, b, item);
          }
        }
        slot := slot + 1;
      }
    }

    /** A bucket of the old table that still has to be split: its items are in place under the old
        hashpower and its partner is fresh. */
    ghost predicate ReadyToSplit(t: Table, currentHp: nat, b: nat)
    {
      && |t| == 2 * HashSize(currentHp) && b < HashSize(currentHp)
      && |t[b]| == cfg.slots && t[b + HashSize(currentHp)] == FreeSlots(cfg.slots)
      && forall s :: 0 <= s < cfg.slots && t[b][s].Item? ==> WellPlaced(cfg, currentHp, b, t[b][s])
    }

    /** Splits every old bucket guarded by lock l. */
    method MoveUnderLock(currentHp: nat, l: nat)
      requires cfg.slots >= 1 && |buckets| == 2 * HashSize(currentHp) && l < LockCount(currentHp)
      requires forall l': nat :: l <= l' < LockCount(currentHp + 1) ==> l' in locked
      requires forall b: nat :: b in Guarded(currentHp, l, l + 1) ==> ReadyToSplit(buckets, currentHp, b)
      modifies this`buckets
      ensures SplitOn(cfg, currentHp, old(buckets), buckets, Guarded(currentHp, l, l + 1))
    {
      hide LockInd, Kept, Arrived;
      ghost var t0, done: set<nat> := buckets, {};
      LockIndIsRemainder(l);
      SmallRemainder(l, NUM_LOCKS);
      forall b: nat ensures LockInd(b) <= b { LockIndAtMost(b); }
      var b := l;
      while b < HashSize(currentHp)
        invariant LockInd(b) == l && SplitOn(cfg, currentHp, t0, buckets, done)
        invariant forall b': nat :: b' in done <==> b' in Guarded(currentHp, l, l + 1) && b' < b
        decreases HashSize(currentHp) - b
      {
        assert b in Guarded(currentHp, l, l + 1) && ReadyToSplit(t0, currentHp, b);
        assert Untouched(currentHp, t0, buckets, b);
        LockOfNewBucket(currentHp, b);
        SplitOneMore(cfg, currentHp, t0, buckets, done, b);
        SplitBucket(currentHp, b);
        forall b': nat | LockInd(b') == l && b <= b' < b + NUM_LOCKS ensures b' == b { SameLock(b, b'); }
        NextSameLock(b);
        done := done + {b};
        b := b + NUM_LOCKS;
      }
      assert done == Guarded(currentHp, l, l + 1);
    }

    /** Splits every old bucket guarded by the locks start <= l < end, and gives each lock back as
        soon as its buckets are done. */
    method MoveBuckets(currentHp: nat, start0: nat, end: nat)
      requires cfg.slots >= 1 && |buckets| == 2 * HashSize(currentHp)
      requires start0 <= end <= LockCount(currentHp)
      requires forall l: nat :: start0 <= l < LockCount(currentHp + 1) ==> l in locked
      requires forall b: nat :: b in Guarded(currentHp, start0, end) ==> ReadyToSplit(buckets, currentHp, b)
      modifies this`buckets, this`locked
      ensures SplitOn(cfg, currentHp, old(buckets), buckets, Guarded(currentHp, start0, end))
      ensures locked == old(locked) - (set l | l in old(locked) && start0 <= l < end)
    {
      hide LockInd, Kept, Arrived, SplitDone;
      ghost var t0 := buckets;
      var start := start0;
      while start < end
        invariant start0 <= start <= end
        invariant SplitOn(cfg, currentHp, t0, buckets, Guarded(currentHp, start0, start))
        invariant locked == old(locked) - (set l | l in old(locked) && start0 <= l < start)
      {
        ghost var t1 := buckets;
        forall b: nat | b in Guarded(currentHp, start, start + 1) ensures ReadyToSplit(buckets, currentHp, b) {
          assert ReadyToSplit(t0, currentHp, b) && Untouched(currentHp, t0, t1, b);
        }
        MoveUnderLock(currentHp, start);
        SplitCompose(cfg, currentHp, t0, t1, buckets, Guarded(currentHp, start0, start),
            Guarded(currentHp, start, start + 1));
        assert Guarded(currentHp, start0, start + 1)
            == Guarded(currentHp, start0, start) + Guarded(currentHp, start, start + 1);
        Unlock(start);
        start := start + 1;
      }
    }

    /** Runs MoveBuckets over the locks [0, count), cut into one range per worker: equal ranges, and
        the rest for the last worker. */
    method MoveAllBuckets(currentHp: nat, count: nat)
      requires cfg.slots >= 1 && cores >= 1 && |buckets| == 2 * HashSize(currentHp) && count <= LockCount(currentHp)
      requires forall l: nat :: l < LockCount(currentHp + 1) ==> l in locked
      requires forall b: nat :: b < HashSize(currentHp) ==> ReadyToSplit(buckets, currentHp, b)
      modifies this`buckets, this`locked
      ensures SplitOn(cfg, currentHp, old(buckets), buckets, Guarded(currentHp, 0, count))
      ensures locked == old(locked) - (set l | l in old(locked) && 0 <= l < count)
    {
      hide LockInd, Kept, Arrived, SplitDone, Pow2;
      ghost var t0 := buckets;
      var workPerThread := count / cores;
      var start: nat := 0;
      var i := 0;
      while i < cores
        invariant 0 <= i <= cores
        invariant start == if i < cores then i * workPerThread else count
        invariant start <= count
        invariant SplitOn(cfg, currentHp, t0, buckets, Guarded(currentHp, 0, start))
        invariant locked == old(locked) - (set l | l in old(locked) && 0 <= l < start)
      {
        var end := if i < cores - 1 then start + workPerThread else count;
        WorkerRange(count, cores, i);
        ghost var t1 := buckets;
        forall b: nat | b in Guarded(currentHp, start, end) ensures ReadyToSplit(t1, currentHp, b) {
          assert ReadyToSplit(t0, currentHp, b) && Untouched(currentHp, t0, t1, b);
        }
        MoveBuckets(currentHp, start, end);
        SplitCompose(cfg, currentHp, t0, t1, buckets, Guarded(currentHp, 0, start), Guarded(currentHp, start, end));
        assert Guarded(currentHp, 0, end) == Guarded(currentHp, 0, start) + Guarded(currentHp, start, end);
        start := end;
        i := i + 1;
      }
    }

    method LockAll(n: nat)
      requires locked == {}
      modifies this`locked
      ensures locked == Upto(n)
    {
      var i := 0;
      while i < n
        invariant 0 <= i <= n && locked == Upto(i)
      {
        Lock(i);
        i := i + 1;
      }
    }

    method UnlockRange(lo: nat, hi: nat)
      requires lo <= hi && locked == Upto(hi) - Upto(lo)
      modifies this`locked
      ensures locked == {}
    {
      var i := lo;
      while i < hi
        invariant lo <= i <= hi && locked == Upto(hi) - Upto(i)
      {
        Unlock(i);
        i := i + 1;
      }
    }

    lemma WidenedIsReady(t: Table, hp: nat, b: nat)
      requires Shape(cfg, hp, t) && Placed(cfg, hp, t) && b < HashSize(hp)
      ensures ReadyToSplit(Widened(cfg, t), hp, b)
    {
      forall s | 0 <= s < cfg.slots && t[b][s].Item? ensures WellPlaced(cfg, hp, b, t[b][s]) {
        assert SlotAt(t, b, s) == t[b][s];
      }
    }

    lemma GuardedByAll(hp: nat, b: nat)
      requires b < HashSize(hp)
      ensures b in Guarded(hp, 0, LockCount(hp))
    {
      LockIndBound(hp, b);
    }

    /** Doubles the table in place.  All locks are taken, those of the old table are given back bucket
        by bucket, the added ones at the end. */
    method CuckooFastDouble(currentHp: nat) returns (r: Growth)
      requires Valid() && locked == {}
      modifies this`locked, this`buckets, this`hashpower
      ensures Valid() && locked == {}
      ensures r == Grown ==> currentHp == old(hashpower) && hashpower == old(hashpower) + 1 && hashpower <= memoryLimit
      ensures r == Grown ==> buckets == Doubled(cfg, old(hashpower), old(buckets))
      ensures r != Grown ==> buckets == old(buckets) && hashpower == old(hashpower)
      ensures r == AboveMaximum <==> maximumHashpower != NO_MAXIMUM_HASHPOWER && currentHp + 1 > maximumHashpower
      ensures r == OtherExpansion ==> currentHp != old(hashpower)
      ensures r == NoMemory ==> currentHp + 1 > memoryLimit
    {
      hide LockInd, Kept, Arrived, SplitOn, ReadyToSplit, Placed, Unique, Represents, LockCount, Upto, Doubled, Guarded;
      var newHp := currentHp + 1;
      if maximumHashpower != NO_MAXIMUM_HASHPOWER && newHp > maximumHashpower { return AboveMaximum; }
      if hashpower != currentHp { return OtherExpansion; }
      var count := LockCount(newHp);
      LockAll(count);
      if newHp > memoryLimit {
        UnlockRange(0, count);
        return NoMemory;
      }
      ghost var t0 := buckets;
      buckets := Widened(cfg, buckets);
      hashpower := newHp;
      var locksToMove := LockCount(currentHp);
      forall b: nat | b < HashSize(currentHp)
        ensures ReadyToSplit(buckets, currentHp, b) && b in Guarded(currentHp, 0, locksToMove)
      {
        WidenedIsReady(t0, currentHp, b);
        GuardedByAll(currentHp, b);
      }
      LockCountGrows(currentHp);
      MoveAllBuckets(currentHp, locksToMove);
      AllSplitIsDoubled(cfg, currentHp, t0, buckets, Guarded(currentHp, 0, locksToMove));
      DoublingKeepsMap(cfg, currentHp, t0, model);
      assert locked == Upto(count) - Upto(locksToMove);
      UnlockRange(locksToMove, count);
      r := Grown;
    }

    // ---------------------------------------------------------------- insertion with growth

    lemma SlotsArePositive()
      requires Valid()
      ensures cfg.slots >= 1
    {
    }

    ghost function Limit(): Limits
      reads this
    {
      Limits(minimumLoadFactor, maximumHashpower, memoryLimit)
    }

    /** The search that an insertion of a key with this hash value starts. */
    ghost function MazeOf(hv: nat): Maze
      reads this
    {
      Maze(cfg, hashpower, buckets, Index1(hashpower, hv), Index2(hashpower, hv))
    }

    /** How the insertion of an unbound key will end. */
    ghost function FateOf(hv: nat, checkLoad: bool): Outcome
      requires cfg.slots >= 1
      reads this
    {
      Fate(cfg, hashpower, buckets, hv, |model|, Limit(), checkLoad)
    }

    lemma FateKnown(hv: nat, checkLoad: bool)
      requires cfg.slots >= 1
      ensures FateIs(cfg, hashpower, buckets, hv, |model|, Limit(), checkLoad, FateOf(hv, checkLoad))
    {
    }

    method CuckooLoadFactor(hp: nat) returns (lf: real)
      requires Valid() && hp == hashpower
      ensures lf == LoadFactorOf(|model|, cfg.slots, hashpower)
      ensures lf * (cfg.slots * |buckets|) as real == |Occupied(buckets)| as real
    {
      hide Placed, Unique, Represents, Occupied, LoadFactorOf, Sum, Pow2;
      var n := CuckooSize();
      lf := LoadFactor(n, cfg.slots, hp);
      LoadIsShare();
    }

    /** The two divisions. */
    static method LoadFactor(n: nat, slots: nat, hp: nat) returns (lf: real)
      requires slots >= 1
      ensures lf == LoadFactorOf(n, slots, hp)
    {
      lf := (n as real) / (slots as real) / (HashSize(hp) as real);
    }

    lemma LoadIsShare()
      requires Valid()
      ensures LoadFactorOf(|model|, cfg.slots, hashpower) * (cfg.slots * |buckets|) as real
           == |Occupied(buckets)| as real
    {
      hide Placed, Unique, Represents, LoadFactorOf, Occupied;
      OccupiedCount(cfg, hashpower, buckets, model);
      assert |buckets| == HashSize(hashpower);
      hide Inv;
    }

    /** An insertion of a key with this hash value has ended with exception r, because of the table as it is. */
    ghost predicate Refused(hv: nat, checkLoad: bool, r: Outcome)
      requires cfg.slots >= 1
      reads this
    {
      Stuck(MazeOf(hv)) && Refusal(cfg, hashpower, |model|, Limit(), checkLoad) == Some(r)
    }

    /** The elements are fewer than the given share of the slots. */
    ghost predicate TooEmpty()
      reads this
    {
      |model| as real < minimumLoadFactor * (cfg.slots * |buckets|) as real
    }

    /** What the exceptions of a table that refuses to grow mean, in terms of its slots and limits. */
    lemma WhyRefused(hv: nat, checkLoad: bool, r: Outcome)
      requires Valid() && Refused(hv, checkLoad, r)
      ensures r == LoadFactorTooLow <==> checkLoad && TooEmpty()
      ensures r == MaximumHashpowerExceeded <==>
                !(checkLoad && TooEmpty()) && maximumHashpower != NO_MAXIMUM_HASHPOWER && hashpower >= maximumHashpower
      ensures r == LoadFactorTooLow || r == MaximumHashpowerExceeded || r == OutOfMemory
    {
      hide Placed, Unique, Represents, Stuck, LoadFactorOf;
      assert |buckets| == HashSize(hashpower);
      hide Inv, HashSize;
      LoadIsBelow(|model|, cfg.slots, hashpower, minimumLoadFactor);
    }

    /** Inserts, doubling the table until the key finds a place. */
    method CuckooInsertLoop(hv: nat, key: Key, val: Val) returns (r: Outcome)
      requires Valid() && locked == {} && hv == cfg.hash(key)
      modifies this`locked, this`buckets, this`hashpower, this`inserts, this`model
      ensures Valid() && locked == {}
      ensures r == if key in old(model) then Duplicate else old(FateOf(hv, true))
      ensures model == if r == Inserted then old(model)[key := val] else old(model)
      ensures hashpower >= old(hashpower)
      ensures r != Inserted && r != Duplicate ==> Refused(hv, true, r)
    {
      hide Inv, Stuck, Index1, Index2, LockInd, Doubled, LoadFactorOf, HashSize, Sum, Pow2, Fate, FateIs, FateOf;
      SlotsArePositive();
      ghost var fate := FateOf(hv, true);
      FateKnown(hv, true);
      while true
        invariant Valid() && locked == {} && model == old(model) && hashpower >= old(hashpower) && cfg.slots >= 1
        invariant key !in model ==> FateIs(cfg, hashpower, buckets, hv, |model|, Limit(), true, fate)
        decreases memoryLimit - hashpower
      {
        if key !in model { FateUnfolds(cfg, hashpower, buckets, hv, |model|, Limit(), true, fate); }
        var b := SnapshotAndLockTwo(hv);
        var hp := hashpower;
        var st := CuckooInsert(hv, b, key, val);
        if st == KeyDuplicated {
          return Duplicate;
        } else if st == TableFull {
          var lf := CuckooLoadFactor(hp);
          if lf < minimumLoadFactor { return LoadFactorTooLow; }
          var g := CuckooFastDouble(hp);
          if g == AboveMaximum { return MaximumHashpowerExceeded; }
          if g == NoMemory { return OutOfMemory; }
        } else {
          return Inserted;
        }
      }
    }

    /** Inserts an unbound key, and throws exactly when it is stuck in a table that may not grow. */
    method Insert(key: Key, val: Val) returns (r: Outcome)
      requires Valid() && locked == {}
      modifies this`locked, this`buckets, this`hashpower, this`inserts, this`model
      ensures Valid() && locked == {}
      ensures r == if key in old(model) then Duplicate else old(FateOf(cfg.hash(key), true))
      ensures model == if r == Inserted then old(model)[key := val] else old(model)
      ensures r != Inserted && r != Duplicate ==> Refused(cfg.hash(key), true, r)
      ensures r != Inserted && r != Duplicate ==> (r == LoadFactorTooLow <==> TooEmpty())
    {
      r := CuckooInsertLoop(cfg.hash(key), key, val);
      hide Inv, Refused, FateOf;
      if r != Inserted && r != Duplicate { WhyRefused(cfg.hash(key), true, r); }
    }

    /** Updates the value of a key that is there, inserts one that is not.  The first growth step does
        not look at the load factor. */
    method Upsert(key: Key, fn: Val -> Val, val: Val) returns (r: Outcome)
      requires Valid() && locked == {}
      modifies this`locked, this`buckets, this`hashpower, this`inserts, this`model
      ensures Valid() && locked == {}
      ensures r == if key in old(model) then Duplicate else old(FateOf(cfg.hash(key), false))
      ensures model == if r == Duplicate then old(model)[key := fn(old(model)[key])]
                       else if r == Inserted then old(model)[key := val] else old(model)
      ensures r != Inserted && r != Duplicate ==> Refused(cfg.hash(key), hashpower > old(hashpower), r)
      ensures r != Inserted && r != Duplicate ==>
                (r == LoadFactorTooLow <==> hashpower > old(hashpower) && TooEmpty())
    {
      hide Inv, Stuck, Index1, Index2, LockInd, Doubled, LoadFactorOf, HashSize, Sum, Pow2, Fate, FateIs, FateOf;
      SlotsArePositive();
      var hv := cfg.hash(key);
      ghost var fate := FateOf(hv, false);
      FateKnown(hv, false);
      FateUnfolds(cfg, hashpower, buckets, hv, |model|, Limit(), false, fate);
      var b := SnapshotAndLockTwo(hv);
      var hp := hashpower;
      var st := CuckooUpdateFn(key, fn, hv, b.i0, b.i1);
      if st == Ok {
        b := Release(b);
        return Duplicate;
      }
      st := CuckooInsert(hv, b, key, val);
      if st == TableFull {
        var g := CuckooFastDouble(hp);
        if g == AboveMaximum { return MaximumHashpowerExceeded; }
        if g == NoMemory { return OutOfMemory; }
        FateKnown(hv, true);
        OneFate(cfg, hashpower, buckets, hv, |model|, Limit(), true, fate, FateOf(hv, true));
        r := CuckooInsertLoop(hv, key, val);
        if r != Inserted && r != Duplicate { WhyRefused(hv, true, r); }
      } else {
        r := Inserted;
      }
    }

    /** Empties the table under all locks. */
    method Clear()
      requires Valid() && locked == {}
      modifies this`locked, this`buckets, this`inserts, this`deletes, this`model
      ensures Valid() && locked == {} && model == map[]
      ensures Occupied(buckets) == {}
    {
      hide Placed, Unique, Represents, LockCount, Occupied;
      LockAll(LockCount(hashpower));
      var b := 0;
      while b < |buckets|
        invariant 0 <= b <= |buckets| == |old(buckets)| && locked == Upto(LockCount(hashpower))
        invariant forall b' :: 0 <= b' < b ==> buckets[b'] == FreeSlots(cfg.slots)
      {
        buckets := buckets[b := FreeSlots(cfg.slots)];
        b := b + 1;
      }
      inserts := seq(cores, _ => 0);
      deletes := seq(cores, _ => 0);
      model := map[];
      SumOfZeros(inserts);
      SumOfZeros(deletes);
      EmptyTable(cfg, hashpower, buckets);
      UnlockRange(0, LockCount(hashpower));
    }
  }
}
