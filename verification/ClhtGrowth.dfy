/** Growing the tables whose buckets have three slots and no overflow chain: the quiescent copy of the
    lock-free and of the lock-based variant, when it fits, and the growth factor. */
module ClhtGrowth {
  import opened Hashing
  import opened ClhtPacked

  const KEY_BUCKT: nat := 3

  /** The two variants: the lock-free one has a mark for every slot and reports a full bucket; the
      lock-based one takes a slot with a key for live, and does not. */
  datatype Flavour = LockFree | LockBased

  datatype Slot = Slot(key: nat, val: nat, valid: bool)

  predicate Live(f: Flavour, s: Slot) { if f.LockFree? then s.valid else s.key != 0 }

  // ------------------------------------------------------------------ the copy as a function

  /** clht_put_seq: a binding for a bucket that is full is dropped. */
  function PutIn(t: seq<seq<Item>>, x: Item): (t': seq<seq<Item>>)
    requires |t| >= 1
    ensures |t'| == |t|
  {
    var b := BinOf(|t|, x.0);
    if |t[b]| < KEY_BUCKT then t[b := t[b] + [x]] else t
  }

  function PutAll(t: seq<seq<Item>>, xs: seq<Item>): (t': seq<seq<Item>>)
    requires |t| >= 1
    ensures |t'| == |t|
  {
    if xs == [] then t else PutIn(PutAll(t, xs[..|xs| - 1]), xs[|xs| - 1])
  }

  function LiveItems(f: Flavour, bu: seq<Slot>): (r: seq<Item>)
    ensures |r| <= |bu|
  {
    if bu == [] then []
    else LiveItems(f, bu[..|bu| - 1]) + if Live(f, bu[|bu| - 1]) then [(bu[|bu| - 1].key, bu[|bu| - 1].val)] else []
  }

  /** A bucket whose live entries come first. */
  lemma {:induction false} LiveArePrefix(f: Flavour, bu: seq<Slot>, its: seq<Item>)
    requires |its| <= |bu|
    requires forall j :: 0 <= j < |its| ==> Live(f, bu[j]) && (bu[j].key, bu[j].val) == its[j]
    requires forall j :: |its| <= j < |bu| ==> !Live(f, bu[j])
    ensures LiveItems(f, bu) == its
  {
    if bu != [] {
      var n := |bu| - 1;
      LiveArePrefix(f, bu[..n], if |its| > n then its[..n] else its);
    }
  }

  /** All live entries of a table, in the order of the copy. */
  function AllItems(f: Flavour, tab: seq<seq<Slot>>): seq<Item>
  {
    if tab == [] then [] else AllItems(f, tab[..|tab| - 1]) + LiveItems(f, tab[|tab| - 1])
  }

  /** The entries for bucket b of a table of n buckets. */
  function Received(xs: seq<Item>, n: nat, b: nat): (r: seq<Item>)
    requires n >= 1
  {
    if xs == [] then []
    else Received(xs[..|xs| - 1], n, b) + if BinOf(n, xs[|xs| - 1].0) == b then [xs[|xs| - 1]] else []
  }

  function EmptyBuckets(n: nat): (t: seq<seq<Item>>)
    ensures |t| == n && forall b :: 0 <= b < n ==> t[b] == []
  {
    seq(n, _ => [])
  }

  function Take3(s: seq<Item>): seq<Item> { if |s| <= KEY_BUCKT then s else s[..KEY_BUCKT] }

  /** Each bucket of the new table ends up with the first three entries that come to it. */
  lemma {:induction false} CopyKeepsFirstThree(xs: seq<Item>, n: nat, b: nat)
    requires b < n
    ensures PutAll(EmptyBuckets(n), xs)[b] == Take3(Received(xs, n, b))
  {
    hide BinOf;
    if xs != [] {
      CopyKeepsFirstThree(xs[..|xs| - 1], n, b);
    }
  }

  /** No bucket of a table of n buckets gets more entries than it has slots. */
  ghost predicate Fits(xs: seq<Item>, n: nat)
    requires n >= 1
  {
    forall b: nat :: b < n ==> |Received(xs, n, b)| <= KEY_BUCKT
  }

  // ------------------------------------------------------------------ when the copy keeps the map

  /** The live entries of each bucket. */
  function Rows(f: Flavour, tab: seq<seq<Slot>>): (r: seq<seq<Item>>)
    ensures |r| == |tab| && forall b :: 0 <= b < |tab| ==> r[b] == LiveItems(f, tab[b])
  {
    seq(|tab|, b requires 0 <= b < |tab| => LiveItems(f, tab[b]))
  }

  /** A table of three-slot buckets stands for a map. */
  ghost predicate StandsFor(f: Flavour, tab: seq<seq<Slot>>, m: map<nat, nat>)
  {
    && Models(Rows(f, tab), m)
    && forall b :: 0 <= b < |tab| ==> |tab[b]| == KEY_BUCKT
  }

  lemma {:induction false} ReceivedConcat(xs: seq<Item>, ys: seq<Item>, n: nat, b: nat)
    requires n >= 1
    ensures Received(xs + ys, n, b) == Received(xs, n, b) + Received(ys, n, b)
  {
    hide BinOf;
    if ys == [] {
      assert xs + ys == xs;
    } else {
      assert (xs + ys)[..|xs + ys| - 1] == xs + ys[..|ys| - 1];
      ReceivedConcat(xs, ys[..|ys| - 1], n, b);
    }
  }

  /** The bucket receives exactly the entries whose keys belong to it. */
  lemma {:induction false} ReceivedMembers(xs: seq<Item>, n: nat, b: nat, x: Item)
    requires n >= 1
    ensures x in Received(xs, n, b) <==> x in xs && BinOf(n, x.0) == b
    ensures |Received(xs, n, b)| <= |xs|
  {
    hide BinOf;
    if xs != [] {
      ReceivedMembers(xs[..|xs| - 1], n, b, x);
      assert xs == xs[..|xs| - 1] + [xs[|xs| - 1]];
    }
  }

  lemma {:induction false} ReceivedDistinct(xs: seq<Item>, n: nat, b: nat)
    requires n >= 1 && DistinctKeys(xs)
    ensures DistinctKeys(Received(xs, n, b))
  {
    hide BinOf;
    if xs != [] {
      var ys, x := xs[..|xs| - 1], xs[|xs| - 1];
      assert forall p :: 0 <= p < |ys| ==> ys[p] == xs[p];
      ReceivedDistinct(ys, n, b);
      var r := Received(ys, n, b);
      forall p | 0 <= p < |r| ensures r[p].0 != x.0 {
        ReceivedMembers(ys, n, b, r[p]);
        assert r[p] in r;
        var q :| 0 <= q < |ys| && ys[q] == r[p];
      }
    }
  }

  /** The flat list has the entries of all rows, each once. */
  lemma {:induction false} AllItemsMembers(f: Flavour, tab: seq<seq<Slot>>, x: Item)
    ensures x in AllItems(f, tab) <==> exists b :: 0 <= b < |tab| && x in LiveItems(f, tab[b])
  {
    hide LiveItems, AllItems;
    AllItemsUpTo(f, tab, x, |tab|);
    assert tab[..|tab|] == tab;
  }

  lemma {:induction false} AllItemsUpTo(f: Flavour, tab: seq<seq<Slot>>, x: Item, n: nat)
    requires n <= |tab|
    ensures x in AllItems(f, tab[..n]) <==> exists b :: 0 <= b < n && x in LiveItems(f, tab[b])
  {
    hide LiveItems;
    if n > 0 {
      AllItemsUpTo(f, tab, x, n - 1);
      OneMoreRow(f, tab, n);
    }
  }

  lemma OneMoreRow(f: Flavour, tab: seq<seq<Slot>>, n: nat)
    requires 0 < n <= |tab|
    ensures AllItems(f, tab[..n]) == AllItems(f, tab[..n - 1]) + LiveItems(f, tab[n - 1])
  {
    hide LiveItems;
    assert tab[..n][..n - 1] == tab[..n - 1];
  }

  lemma {:induction false} AllItemsDistinct(f: Flavour, tab: seq<seq<Slot>>, m: map<nat, nat>, n: nat)
    requires Models(Rows(f, tab), m) && n <= |tab|
    ensures DistinctKeys(AllItems(f, tab[..n]))
  {
    hide BinOf, LiveItems;
    if n > 0 {
      AllItemsDistinct(f, tab, m, n - 1);
      assert tab[..n][..n - 1] == tab[..n - 1];
      var xs, ys := AllItems(f, tab[..n - 1]), LiveItems(f, tab[n - 1]);
      forall p, q | 0 <= p < |xs| && 0 <= q < |ys| ensures xs[p].0 != ys[q].0 {
        AllItemsMembers(f, tab[..n - 1], xs[p]);
        var b :| 0 <= b < n - 1 && xs[p] in LiveItems(f, tab[..n - 1][b]);
        var i :| 0 <= i < |Rows(f, tab)[b]| && Rows(f, tab)[b][i] == xs[p];
        assert Rows(f, tab)[n - 1][q] == ys[q];
      }
      DistinctConcat(xs, ys);
    }
  }

  lemma DistinctConcat(xs: seq<Item>, ys: seq<Item>)
    requires DistinctKeys(xs) && DistinctKeys(ys)
    requires forall p, q :: 0 <= p < |xs| && 0 <= q < |ys| ==> xs[p].0 != ys[q].0
    ensures DistinctKeys(xs + ys)
  {
  }

  /** What the flat list has to do with the map. */
  lemma ItemsAreBindings(f: Flavour, tab: seq<seq<Slot>>, m: map<nat, nat>)
    requires Models(Rows(f, tab), m)
    ensures DistinctKeys(AllItems(f, tab))
    ensures forall x :: x in AllItems(f, tab) ==> x.0 in m && m[x.0] == x.1
    ensures forall k :: k in m ==> (k, m[k]) in AllItems(f, tab)
  {
    hide BinOf, LiveItems;
    AllItemsDistinct(f, tab, m, |tab|);
    assert tab[..|tab|] == tab;
    var rows := Rows(f, tab);
    forall x | x in AllItems(f, tab) ensures x.0 in m && m[x.0] == x.1 {
      AllItemsMembers(f, tab, x);
      var b :| 0 <= b < |tab| && x in LiveItems(f, tab[b]);
      var i :| 0 <= i < |rows[b]| && rows[b][i] == x;
    }
    forall k | k in m ensures (k, m[k]) in AllItems(f, tab) {
      var b := BinOf(|rows|, k);
      var i :| 0 <= i < |rows[b]| && rows[b][i].0 == k;
      assert rows[b][i] == (k, m[k]);
      assert (k, m[k]) in LiveItems(f, tab[b]);
      AllItemsMembers(f, tab, (k, m[k]));
    }
  }

  /** The table that the copy makes. */
  function Copied(f: Flavour, tab: seq<seq<Slot>>, n: nat): (t: seq<seq<Item>>)
    requires n >= 1
    ensures |t| == n
  {
    PutAll(EmptyBuckets(n), AllItems(f, tab))
  }

  /** The copy keeps the map exactly when every new bucket gets at most three entries. */
  lemma CopyKeepsMapIffFits(f: Flavour, tab: seq<seq<Slot>>, m: map<nat, nat>, n: nat)
    requires StandsFor(f, tab, m) && n >= 1
    ensures Models(Copied(f, tab, n), m) <==> Fits(AllItems(f, tab), n)
  {
    hide BinOf, StandsFor;
    var xs := AllItems(f, tab);
    assert Models(Rows(f, tab), m) by { Unfold(f, tab, m); }
    ItemsAreBindings(f, tab, m);
    if Fits(xs, n) {
      FitsKeeps(f, tab, m, n);
    } else {
      var b: nat :| b < n && |Received(xs, n, b)| > KEY_BUCKT;
      FourthIsLost(f, tab, m, n, b);
    }
  }

  lemma Unfold(f: Flavour, tab: seq<seq<Slot>>, m: map<nat, nat>)
    requires StandsFor(f, tab, m)
    ensures Models(Rows(f, tab), m)
  {
  }

  lemma FitsKeeps(f: Flavour, tab: seq<seq<Slot>>, m: map<nat, nat>, n: nat)
    requires n >= 1 && Fits(AllItems(f, tab), n) && DistinctKeys(AllItems(f, tab))
    requires forall x :: x in AllItems(f, tab) ==> x.0 in m && m[x.0] == x.1
    requires forall k :: k in m ==> (k, m[k]) in AllItems(f, tab)
    ensures Models(Copied(f, tab, n), m)
  {
    hide BinOf, AllItems, LiveItems, PutAll, Received, DistinctKeys;
    var xs, t := AllItems(f, tab), Copied(f, tab, n);
    forall b: nat | b < n ensures t[b] == Received(xs, n, b) && DistinctKeys(t[b]) {
      CopyKeepsFirstThree(xs, n, b);
      ReceivedDistinct(xs, n, b);
    }
    forall b, p | 0 <= b < n && 0 <= p < |t[b]|
      ensures BinOf(n, t[b][p].0) == b && t[b][p].0 in m && m[t[b][p].0] == t[b][p].1
    {
      assert t[b][p] in t[b];
      ReceivedMembers(xs, n, b, t[b][p]);
    }
    forall b, p, q | 0 <= b < n && 0 <= p < |t[b]| && 0 <= q < |t[b]| && t[b][p].0 == t[b][q].0 ensures p == q {
      SameKeySamePlace(t[b], p, q);
    }
    forall k | k in m ensures HasKey(t[BinOf(n, k)], k) {
      ReceivedMembers(xs, n, BinOf(n, k), (k, m[k]));
      var p :| 0 <= p < |t[BinOf(n, k)]| && t[BinOf(n, k)][p] == (k, m[k]);
    }
  }

  lemma SameKeySamePlace(s: seq<Item>, p: int, q: int)
    requires DistinctKeys(s) && 0 <= p < |s| && 0 <= q < |s| && s[p].0 == s[q].0
    ensures p == q
  {
  }

  /** The fourth entry for a bucket is nowhere in the new table. */
  lemma FourthIsLost(f: Flavour, tab: seq<seq<Slot>>, m: map<nat, nat>, n: nat, b: nat)
    requires b < n && |Received(AllItems(f, tab), n, b)| > KEY_BUCKT && DistinctKeys(AllItems(f, tab))
    requires forall x :: x in AllItems(f, tab) ==> x.0 in m && m[x.0] == x.1
    ensures !Models(Copied(f, tab, n), m)
  {
    hide BinOf, AllItems, LiveItems, PutAll, Received;
    var xs, t := AllItems(f, tab), Copied(f, tab, n);
    var r := Received(xs, n, b);
    CopyKeepsFirstThree(xs, n, b);
    ReceivedDistinct(xs, n, b);
    var x := r[KEY_BUCKT];
    assert x in r;
    ReceivedMembers(xs, n, b, x);
    assert !HasKey(t[b], x.0);
  }

  // ------------------------------------------------------------------ growing by a power of two

  /** Growing by a power of two, a new bucket gets entries from one old bucket only. */
  lemma BinAfterGrowth(k: nat, a: nat, c: nat)
    ensures Pow2(c) * Pow2(a) >= 1
    ensures BinOf(Pow2(c) * Pow2(a), k) % Pow2(a) == BinOf(Pow2(a), k)
  {
    hide And, Pow2;
    Pow2Split(c, a);
    MaskIsRemainder(k, c + a);
    MaskIsRemainder(k, a);
    RemainderOfRemainder(k, Pow2(a), Pow2(c));
  }

  /** What bucket b of the grown table gets comes from bucket b % n of the old one. */
  lemma {:induction false} ReceivedFromOne(f: Flavour, tab: seq<seq<Slot>>, m: map<nat, nat>, a: nat, c: nat, b: nat,
        r: nat)
    requires StandsFor(f, tab, m) && |tab| == Pow2(a) && b < Pow2(c) * Pow2(a) && r <= |tab|
    ensures |Received(AllItems(f, tab[..r]), Pow2(c) * Pow2(a), b)| <= if b % Pow2(a) < r then KEY_BUCKT else 0
  {
    hide BinOf, LiveItems, Pow2;
    var n := Pow2(c) * Pow2(a);
    if r > 0 {
      ReceivedFromOne(f, tab, m, a, c, b, r - 1);
      assert tab[..r][..r - 1] == tab[..r - 1];
      var xs := LiveItems(f, tab[r - 1]);
      ReceivedConcat(AllItems(f, tab[..r - 1]), xs, n, b);
      RowReceived(f, tab, m, a, c, b, r - 1);
    }
  }

  lemma RowReceived(f: Flavour, tab: seq<seq<Slot>>, m: map<nat, nat>, a: nat, c: nat, b: nat, o: nat)
    requires StandsFor(f, tab, m) && |tab| == Pow2(a) && b < Pow2(c) * Pow2(a) && o < |tab|
    ensures |Received(LiveItems(f, tab[o]), Pow2(c) * Pow2(a), b)| <= if b % Pow2(a) == o then KEY_BUCKT else 0
  {
    hide BinOf, LiveItems, Pow2, Received;
    var n := Pow2(c) * Pow2(a);
    var xs := LiveItems(f, tab[o]);
    var got := Received(xs, n, b);
    if got == [] {
    } else {
      ReceivedMembers(xs, n, b, got[0]);
      assert got[0] in got;
      var i :| 0 <= i < |xs| && xs[i] == got[0];
      assert Rows(f, tab)[o][i] == got[0];
      BinAfterGrowth(got[0].0, a, c);
    }
  }

  /** Growing a table with a power of two of buckets by a power of two always fits. */
  lemma GrowthFits(f: Flavour, tab: seq<seq<Slot>>, m: map<nat, nat>, a: nat, c: nat)
    requires StandsFor(f, tab, m) && |tab| == Pow2(a)
    ensures Pow2(c) * Pow2(a) >= 1 && Fits(AllItems(f, tab), Pow2(c) * Pow2(a))
    ensures Models(Copied(f, tab, Pow2(c) * Pow2(a)), m)
  {
    hide BinOf, AllItems, Received, Pow2, StandsFor;
    BinAfterGrowth(0, a, c);
    var n := Pow2(c) * Pow2(a);
    forall b: nat | b < n ensures |Received(AllItems(f, tab), n, b)| <= KEY_BUCKT {
      ReceivedFromOne(f, tab, m, a, c, b, |tab|);
      assert tab[..|tab|] == tab;
    }
    CopyKeepsMapIffFits(f, tab, m, n);
  }

  lemma SmallBins(k: nat)
    ensures BinOf(2, k) == k % 2 && BinOf(1, k) == 0
  {
    assert Pow2(1) == 2 && Pow2(0) == 1;
    MaskIsRemainder(k, 1);
    MaskIsRemainder(k, 0);
  }

  lemma PairRow(s1: Slot, s2: Slot, s3: Slot)
    requires s1.key != 0 && s2.key != 0 && s3.key == 0
    ensures LiveItems(LockBased, [s1, s2, s3]) == [(s1.key, s1.val), (s2.key, s2.val)]
  {
    var bu := [s1, s2, s3];
    assert bu[..2] == [s1, s2] && bu[..2][..1] == [s1] && bu[..2][..1][..0] == [];
    assert LiveItems(LockBased, [s1]) == [(s1.key, s1.val)];
    assert LiveItems(LockBased, [s1, s2]) == [(s1.key, s1.val), (s2.key, s2.val)];
  }

  /** Everything comes to the only bucket. */
  lemma {:induction false} OneBucketGetsAll(xs: seq<Item>)
    ensures Received(xs, 1, 0) == xs
  {
    if xs != [] {
      OneBucketGetsAll(xs[..|xs| - 1]);
      SmallBins(xs[|xs| - 1].0);
    }
  }

  const TWO_BUCKETS: seq<seq<Slot>> :=
    [[Slot(2, 1, true), Slot(4, 1, true), Slot(0, 0, false)], [Slot(1, 1, true), Slot(3, 1, true), Slot(0, 0, false)]]

  const FOUR_KEYS: map<nat, nat> := map[2 := 1, 4 := 1, 1 := 1, 3 := 1]

  lemma TwoRows()
    ensures Rows(LockBased, TWO_BUCKETS) == [[(2, 1), (4, 1)], [(1, 1), (3, 1)]]
  {
    PairRow(TWO_BUCKETS[0][0], TWO_BUCKETS[0][1], TWO_BUCKETS[0][2]);
    PairRow(TWO_BUCKETS[1][0], TWO_BUCKETS[1][1], TWO_BUCKETS[1][2]);
  }

  lemma AddRow(r: seq<seq<Item>>, m: map<nat, nat>, b: nat, k: nat, v: nat, row: seq<Item>)
    requires Models(r, m) && k !in m && BinOf(|r|, k) == b < |r| && row == r[b] + [(k, v)]
    ensures Models(r[b := row], m[k := v])
  {
    hide Models, BinOf;
    ModelsPut(r, m, k, v);
  }

  lemma NoRows()
    ensures Models([[], []], map[])
  {
  }

  lemma TwoBucketsStand()
    ensures StandsFor(LockBased, TWO_BUCKETS, FOUR_KEYS)
  {
    hide BinOf, LiveItems, Models;
    NoRows();
    SmallBins(1);
    SmallBins(2);
    SmallBins(3);
    SmallBins(4);
    var r0: seq<seq<Item>> := [[], []];
    var m0: map<nat, nat> := map[];
    AddRow(r0, m0, 0, 2, 1, [(2, 1)]);
    var r1, m1 := r0[0 := [(2, 1)]], m0[2 := 1];
    AddRow(r1, m1, 0, 4, 1, [(2, 1), (4, 1)]);
    var r2, m2 := r1[0 := [(2, 1), (4, 1)]], m1[4 := 1];
    AddRow(r2, m2, 1, 1, 1, [(1, 1)]);
    var r3, m3 := r2[1 := [(1, 1)]], m2[1 := 1];
    AddRow(r3, m3, 1, 3, 1, [(1, 1), (3, 1)]);
    TwoRows();
    assert r3[1 := [(1, 1), (3, 1)]] == Rows(LockBased, TWO_BUCKETS);
    assert m3[3 := 1] == FOUR_KEYS;
  }

  /** Halving may lose bindings: four keys in two buckets do not fit in one. */
  lemma ShrinkingMayLose()
    ensures StandsFor(LockBased, TWO_BUCKETS, FOUR_KEYS) && !Models(Copied(LockBased, TWO_BUCKETS, 1), FOUR_KEYS)
  {
    hide BinOf, Models, LiveItems, Copied;
    TwoBucketsStand();
    TwoRows();
    var tab, rows := TWO_BUCKETS, Rows(LockBased, TWO_BUCKETS);
    var xs := AllItems(LockBased, tab);
    assert tab[..1] == [tab[0]] && tab[..1][..0] == [];
    assert AllItems(LockBased, tab[..1]) == [] + rows[0];
    assert xs == AllItems(LockBased, tab[..1]) + rows[1];
    OneBucketGetsAll(xs);
    CopyKeepsMapIffFits(LockBased, tab, FOUR_KEYS, 1);
  }

  // ------------------------------------------------------------------ the growth factor

  predicate IsPow2(p: bv32) { p != 0 && p & (p - 1) == 0 }

  /** pow2roundup: the least power of two that is not below x, up to 2^31; beyond, it wraps to 0. */
  method Pow2Roundup(x0: bv32) returns (r: bv32)
    ensures x0 <= 0x8000_0000 ==> IsPow2(r) && x0 <= r
    ensures x0 <= 0x8000_0000 ==> forall p: bv32 :: IsPow2(p) && x0 <= p ==> r <= p
    ensures x0 > 0x8000_0000 ==> r == 0
  {
    var x := x0;
    if x == 0 { return 1; }
    x := x - 1;
    x := x | (x >> 1);
    x := x | (x >> 2);
    x := x | (x >> 4);
    x := x | (x >> 8);
    x := x | (x >> 16);
    r := x + 1;
  }

  /** A word with a single bit is one of the powers of two below 2^32. */
  lemma OneBit(p: bv32)
    requires IsPow2(p)
    ensures p == 0x1 || p == 0x2 || p == 0x4 || p == 0x8 || p == 0x10 || p == 0x20 || p == 0x40 || p == 0x80
      || p == 0x100 || p == 0x200 || p == 0x400 || p == 0x800 || p == 0x1000 || p == 0x2000 || p == 0x4000
          || p == 0x8000
      || p == 0x1_0000 || p == 0x2_0000 || p == 0x4_0000 || p == 0x8_0000 || p == 0x10_0000 || p == 0x20_0000
          || p == 0x40_0000 || p == 0x80_0000
      || p == 0x100_0000 || p == 0x200_0000 || p == 0x400_0000 || p == 0x800_0000 || p == 0x1000_0000
          || p == 0x2000_0000 || p == 0x4000_0000 || p == 0x8000_0000
  {
  }

  lemma OneBitIsPow2(p: bv32) returns (c: nat)
    requires IsPow2(p)
    ensures c < 32 && p as nat == Pow2(c)
  {
    OneBit(p);
    PowersBelow32();
    hide Pow2;
    c := if p == 0x1 then 0 else if p == 0x2 then 1 else if p == 0x4 then 2 else if p == 0x8 then 3
      else if p == 0x10 then 4 else if p == 0x20 then 5 else if p == 0x40 then 6 else if p == 0x80 then 7
      else if p == 0x100 then 8 else if p == 0x200 then 9 else if p == 0x400 then 10 else if p == 0x800 then 11
      else if p == 0x1000 then 12 else if p == 0x2000 then 13 else if p == 0x4000 then 14 else if p == 0x8000 then 15
      else if p == 0x1_0000 then 16 else if p == 0x2_0000 then 17 else if p == 0x4_0000 then 18
          else if p == 0x8_0000 then 19
      else if p == 0x10_0000 then 20 else if p == 0x20_0000 then 21 else if p == 0x40_0000 then 22
          else if p == 0x80_0000 then 23
      else if p == 0x100_0000 then 24 else if p == 0x200_0000 then 25 else if p == 0x400_0000 then 26
          else if p == 0x800_0000 then 27
      else if p == 0x1000_0000 then 28 else if p == 0x2000_0000 then 29 else if p == 0x4000_0000 then 30 else 31;
  }

  lemma PowersBelow32()
    ensures Pow2(0) == 0x1 && Pow2(1) == 0x2 && Pow2(2) == 0x4 && Pow2(3) == 0x8
    ensures Pow2(4) == 0x10 && Pow2(5) == 0x20 && Pow2(6) == 0x40 && Pow2(7) == 0x80
    ensures Pow2(8) == 0x100 && Pow2(9) == 0x200 && Pow2(10) == 0x400 && Pow2(11) == 0x800
    ensures Pow2(12) == 0x1000 && Pow2(13) == 0x2000 && Pow2(14) == 0x4000 && Pow2(15) == 0x8000
    ensures Pow2(16) == 0x1_0000 && Pow2(17) == 0x2_0000 && Pow2(18) == 0x4_0000 && Pow2(19) == 0x8_0000
    ensures Pow2(20) == 0x10_0000 && Pow2(21) == 0x20_0000 && Pow2(22) == 0x40_0000 && Pow2(23) == 0x80_0000
    ensures Pow2(24) == 0x100_0000 && Pow2(25) == 0x200_0000 && Pow2(26) == 0x400_0000 && Pow2(27) == 0x800_0000
    ensures Pow2(28) == 0x1000_0000 && Pow2(29) == 0x2000_0000 && Pow2(30) == 0x4000_0000 && Pow2(31) == 0x8000_0000
  {
    assert Pow2(8) == 0x100;
    assert Pow2(16) == 0x1_0000;
    assert Pow2(24) == 0x100_0000;
  }

  /** The other way: every power of two below 2^32 is a word with a single bit. */
  lemma Pow2IsOneBit(c: nat) returns (p: bv32)
    requires c < 32
    ensures IsPow2(p) && p as nat == Pow2(c)
  {
    PowersBelow32();
    hide Pow2;
    p := if c == 0 then 0x1 else if c == 1 then 0x2 else if c == 2 then 0x4 else if c == 3 then 0x8 else
      if c == 4 then 0x10 else if c == 5 then 0x20 else if c == 6 then 0x40 else if c == 7 then 0x80 else
      if c == 8 then 0x100 else if c == 9 then 0x200 else if c == 10 then 0x400 else if c == 11 then 0x800 else
      if c == 12 then 0x1000 else if c == 13 then 0x2000 else if c == 14 then 0x4000 else
      if c == 15 then 0x8000 else if c == 16 then 0x1_0000 else if c == 17 then 0x2_0000 else
      if c == 18 then 0x4_0000 else if c == 19 then 0x8_0000 else if c == 20 then 0x10_0000 else
      if c == 21 then 0x20_0000 else if c == 22 then 0x40_0000 else if c == 23 then 0x80_0000 else
      if c == 24 then 0x100_0000 else if c == 25 then 0x200_0000 else if c == 26 then 0x400_0000 else
      if c == 27 then 0x800_0000 else if c == 28 then 0x1000_0000 else if c == 29 then 0x2000_0000 else
      if c == 30 then 0x4000_0000 else 0x8000_0000;
  }

  /** Words are compared with single bits as numbers are. */
  lemma SmallWord(a: bv32)
    ensures (a <= 0x1 <==> a as nat <= 0x1) && (a <= 0x2 <==> a as nat <= 0x2)
    ensures (a <= 0x4 <==> a as nat <= 0x4) && (a <= 0x8 <==> a as nat <= 0x8)
    ensures (a <= 0x10 <==> a as nat <= 0x10) && (a <= 0x20 <==> a as nat <= 0x20)
    ensures (a <= 0x40 <==> a as nat <= 0x40) && (a <= 0x80 <==> a as nat <= 0x80)
    ensures (a <= 0x100 <==> a as nat <= 0x100) && (a <= 0x200 <==> a as nat <= 0x200)
    ensures (a <= 0x400 <==> a as nat <= 0x400) && (a <= 0x800 <==> a as nat <= 0x800)
    ensures (a <= 0x1000 <==> a as nat <= 0x1000) && (a <= 0x2000 <==> a as nat <= 0x2000)
    ensures (a <= 0x4000 <==> a as nat <= 0x4000) && (a <= 0x8000 <==> a as nat <= 0x8000)
  {
  }

  lemma LargeWord(a: bv32)
    ensures (a <= 0x1_0000 <==> a as nat <= 0x1_0000) && (a <= 0x2_0000 <==> a as nat <= 0x2_0000)
    ensures (a <= 0x4_0000 <==> a as nat <= 0x4_0000) && (a <= 0x8_0000 <==> a as nat <= 0x8_0000)
    ensures (a <= 0x10_0000 <==> a as nat <= 0x10_0000) && (a <= 0x20_0000 <==> a as nat <= 0x20_0000)
    ensures (a <= 0x40_0000 <==> a as nat <= 0x40_0000) && (a <= 0x80_0000 <==> a as nat <= 0x80_0000)
    ensures (a <= 0x100_0000 <==> a as nat <= 0x100_0000) && (a <= 0x200_0000 <==> a as nat <= 0x200_0000)
    ensures (a <= 0x400_0000 <==> a as nat <= 0x400_0000) && (a <= 0x800_0000 <==> a as nat <= 0x800_0000)
    ensures (a <= 0x1000_0000 <==> a as nat <= 0x1000_0000) && (a <= 0x2000_0000 <==> a as nat <= 0x2000_0000)
    ensures (a <= 0x4000_0000 <==> a as nat <= 0x4000_0000) && (a <= 0x8000_0000 <==> a as nat <= 0x8000_0000)
  {
  }

  lemma BelowOneBit(a: bv32, p: bv32)
    requires IsPow2(p)
    ensures a <= p <==> a as nat <= p as nat
  {
    OneBit(p);
    hide IsPow2;
    SmallWord(a);
    LargeWord(a);
  }

  /** No smaller power of two than the factor is large enough, 1 aside. */
  lemma LeastFactor(incBy: bv32, r: bv32, factor: bv32, c: nat)
    requires 1 <= c && incBy as nat <= Pow2(c) && factor as nat <= Pow2(30)
    requires (factor == 2 || factor == r) && forall p: bv32 :: IsPow2(p) && incBy <= p ==> r <= p
    ensures factor as nat <= Pow2(c)
  {
    hide IsPow2;
    if c >= 31 {
      Pow2Monotone(30, c);
    } else if factor == 2 {
      Pow2Monotone(1, c);
      assert Pow2(1) == 2;
    } else {
      var p := Pow2IsOneBit(c);
      hide Pow2;
      BelowOneBit(incBy, p);
      BelowOneBit(r, p);
    }
  }

  /** The factor that ht_status hands to the resize: the rounded-up ratio, but at least 2.  The factor is
      kept in a signed word and must stay below 2^31, which a ratio of two percentages is far from. */
  method GrowthFactor(incBy: bv32) returns (factor: bv32)
    requires incBy <= 0x4000_0000
    ensures exists c: nat :: 1 <= c < 31 && factor as nat == Pow2(c)
    ensures incBy as nat <= factor as nat
    ensures forall c: nat :: 1 <= c && incBy as nat <= Pow2(c) ==> factor as nat <= Pow2(c)
  {
    hide IsPow2, Pow2;
    factor := Pow2Roundup(incBy);
    ghost var r := factor;
    if factor <= 1 { factor := 2; }
    ghost var c := FactorIsLeast(incBy, r, factor);
  }

  lemma FactorIsLeast(incBy: bv32, r: bv32, factor: bv32) returns (c: nat)
    requires incBy <= 0x4000_0000 && IsPow2(r) && incBy <= r && factor == (if r <= 1 then 2 else r)
    requires forall p: bv32 :: IsPow2(p) && incBy <= p ==> r <= p
    ensures 1 <= c < 31 && factor as nat == Pow2(c) && incBy as nat <= factor as nat
    ensures forall c: nat :: 1 <= c && incBy as nat <= Pow2(c) ==> factor as nat <= Pow2(c)
  {
    hide IsPow2, Pow2;
    c := FactorIsPow2(incBy, r, factor);
    forall c: nat | 1 <= c && incBy as nat <= Pow2(c) ensures factor as nat <= Pow2(c) {
      LeastFactor(incBy, r, factor, c);
    }
  }

  lemma FactorIsPow2(incBy: bv32, r: bv32, factor: bv32) returns (c: nat)
    requires incBy <= 0x4000_0000 && IsPow2(r) && incBy <= r && factor == (if r <= 1 then 2 else r)
    requires forall p: bv32 :: IsPow2(p) && incBy <= p ==> r <= p
    ensures 1 <= c < 31 && factor as nat == Pow2(c) <= Pow2(30) && incBy as nat <= factor as nat
  {
    assert IsPow2(factor) && incBy <= factor && IsPow2(0x4000_0000) && 2 <= factor <= 0x4000_0000;
    c := OneBitIsPow2(factor);
    PowersBelow32();
    BelowOneBit(incBy, factor);
  }

  // ------------------------------------------------------------------ the copy on arrays

  /** A table of three-slot buckets, one row per bucket.  The marks are used by the lock-free variant. */
  class ChainlessTable {
    const flavour: Flavour
    const numBuckets: nat
    const key: array2<nat>
    const val: array2<nat>
    const valid: array2<bool>

    ghost predicate Valid()
    {
      && numBuckets >= 1 && key != val
      && key.Length0 == val.Length0 == valid.Length0 == numBuckets
      && key.Length1 == val.Length1 == valid.Length1 == KEY_BUCKT
    }

    /** clht_hashtable_create. */
    constructor (f: Flavour, n: nat)
      requires n >= 1
      ensures Valid() && flavour == f && numBuckets == n && Packed(EmptyBuckets(n))
      ensures fresh(key) && fresh(val) && fresh(valid)
    {
      flavour, numBuckets := f, n;
      key := new nat[n, KEY_BUCKT]((i, j) => 0);
      val := new nat[n, KEY_BUCKT]((i, j) => 0);
      valid := new bool[n, KEY_BUCKT]((i, j) => false);
    }

    ghost function SlotAt(b: nat, j: nat): Slot
      requires Valid() && b < numBuckets && j < KEY_BUCKT
      reads key, val, valid
    {
      Slot(key[b, j], val[b, j], valid[b, j])
    }

    ghost function BucketAt(b: nat): (r: seq<Slot>)
      requires Valid() && b < numBuckets
      reads key, val, valid
      ensures |r| == KEY_BUCKT && forall j: nat :: j < KEY_BUCKT ==> r[j] == SlotAt(b, j)
    {
      [SlotAt(b, 0), SlotAt(b, 1), SlotAt(b, 2)]
    }

    ghost function Buckets(n: nat): (r: seq<seq<Slot>>)
      requires Valid() && n <= numBuckets
      reads key, val, valid
      ensures |r| == n && forall b: nat :: b < n ==> r[b] == BucketAt(b)
    {
      if n == 0 then [] else Buckets(n - 1) + [BucketAt(n - 1)]
    }

    /** Live entries have a key; zero is not a key. */
    ghost predicate NoZeroKeys()
      requires Valid()
      reads key, val, valid
    {
      forall b: nat, j: nat :: b < numBuckets && j < KEY_BUCKT && Live(flavour, SlotAt(b, j)) ==> key[b, j] != 0
    }

    /** The table holds exactly the given entries, each bucket's from its first slot on. */
    ghost predicate Packed(t: seq<seq<Item>>)
      requires Valid()
      reads key, val, valid
    {
      && |t| == numBuckets
      && (forall b :: 0 <= b < numBuckets ==> |t[b]| <= KEY_BUCKT)
      && (forall b: nat, j: nat :: b < numBuckets && j < |t[b]| ==>
            key[b, j] == t[b][j].0 != 0 && val[b, j] == t[b][j].1 && Live(flavour, SlotAt(b, j)))
      && (forall b: nat, j: nat :: b < numBuckets && |t[b]| <= j < KEY_BUCKT ==>
          key[b, j] == 0 && !Live(flavour, SlotAt(b, j)))
    }

    /** A table packed with some entries has those for its live ones. */
    lemma PackedRows(t: seq<seq<Item>>)
      requires Valid() && Packed(t)
      ensures Rows(flavour, Buckets(numBuckets)) == t && NoZeroKeys()
    {
      hide LiveItems;
      var rows := Rows(flavour, Buckets(numBuckets));
      forall b: nat | b < numBuckets ensures rows[b] == t[b] {
        LiveArePrefix(flavour, BucketAt(b), t[b]);
      }
    }

    /** So it stands for their map. */
    lemma PackedStands(t: seq<seq<Item>>, m: map<nat, nat>)
      requires Valid() && Packed(t) && Models(t, m)
      ensures StandsFor(flavour, Buckets(numBuckets), m) && NoZeroKeys()
    {
      hide Models;
      PackedRows(t);
    }

    /** clht_put_seq.  The lock-based variant reports no failure. */
    method PutSeq(k: nat, v: nat, bin: nat, ghost t: seq<seq<Item>>) returns (ok: bool, noSpace: bool)
      requires Valid() && Packed(t) && k != 0 && bin == BinOf(numBuckets, k)
      modifies key, val, valid
      ensures Packed(PutIn(t, (k, v)))
      ensures noSpace <==> |t[bin]| == KEY_BUCKT
      ensures ok <==> flavour.LockBased? || !noSpace
    {
      hide BinOf;
      var j := 0;
      while j < KEY_BUCKT
        invariant 0 <= j <= KEY_BUCKT && j <= |t[bin]| && Packed(t)
      {
        if key[bin, j] == 0 {
          val[bin, j] := v;
          key[bin, j] := k;
          if flavour.LockFree? { valid[bin, j] := true; }
          return true, false;
        }
        j := j + 1;
      }
      ok, noSpace := flavour.LockBased?, true;
    }

    /** bucket_cpy: copies the live entries of a bucket of this table into another. */
    method BucketCpy(b: nat, target: ChainlessTable, ghost t: seq<seq<Item>>) returns (noSpace: bool)
      requires Valid() && b < numBuckets && target.Valid() && target.Packed(t) && target.flavour == flavour
      requires key != target.key && key != target.val && val != target.key && val != target.val && valid != target.valid
      requires NoZeroKeys()
      modifies target.key, target.val, target.valid
      ensures target.Packed(PutAll(t, LiveItems(flavour, BucketAt(b))))
      ensures noSpace <==> Overflows(t, LiveItems(flavour, BucketAt(b)))
    {
      hide BinOf, PutIn, PutAll, LiveItems, Overflows;
      ghost var bu := BucketAt(b);
      ghost var done: seq<Item> := [];
      noSpace := false;
      var j := 0;
      NothingCopied(flavour, bu, t);
      while j < KEY_BUCKT
        invariant 0 <= j <= KEY_BUCKT && done == LiveItems(flavour, bu[..j]) && bu == BucketAt(b)
        invariant target.Packed(PutAll(t, done)) && (noSpace <==> Overflows(t, done))
      {
        assert bu[j] == SlotAt(b, j);
        LiveStep(flavour, bu, j);
        if Live(flavour, Slot(key[b, j], val[b, j], valid[b, j])) {
          var k := key[b, j];
          ghost var x := (k, val[b, j]);
          PutAllStep(t, done, x);
          var ok, full := target.PutSeq(k, val[b, j], BinOf(target.numBuckets, k), PutAll(t, done));
          noSpace := noSpace || full;
          done := done + [x];
        }
        j := j + 1;
      }
      assert bu[..3] == bu;
    }
  }

  /** Some entry of the list finds its bucket full. */
  ghost predicate Overflows(t: seq<seq<Item>>, xs: seq<Item>)
    requires |t| >= 1
  {
    xs != [] && (Overflows(t, xs[..|xs| - 1]) || |PutAll(t, xs[..|xs| - 1])[BinOf(|t|, xs[|xs| - 1].0)]| >= KEY_BUCKT)
  }

  lemma NothingCopied(f: Flavour, bu: seq<Slot>, t: seq<seq<Item>>)
    requires |t| >= 1
    ensures LiveItems(f, bu[..0]) == [] && PutAll(t, []) == t && !Overflows(t, [])
  {
  }

  lemma LiveStep(f: Flavour, bu: seq<Slot>, j: nat)
    requires j < |bu|
    ensures LiveItems(f, bu[..j + 1]) == LiveItems(f, bu[..j]) + if Live(f, bu[j]) then [(bu[j].key, bu[j].val)] else []
  {
    assert bu[..j + 1][..j] == bu[..j];
  }

  lemma PutAllStep(t: seq<seq<Item>>, xs: seq<Item>, x: Item)
    requires |t| >= 1
    ensures PutAll(t, xs + [x]) == PutIn(PutAll(t, xs), x)
    ensures Overflows(t, xs + [x]) <==> Overflows(t, xs) || |PutAll(t, xs)[BinOf(|t|, x.0)]| >= KEY_BUCKT
  {
    assert (xs + [x])[..|xs|] == xs;
  }

  lemma {:induction false} PutAllConcat(t: seq<seq<Item>>, xs: seq<Item>, ys: seq<Item>)
    requires |t| >= 1
    ensures PutAll(t, xs + ys) == PutAll(PutAll(t, xs), ys)
    ensures Overflows(t, xs + ys) <==> Overflows(t, xs) || Overflows(PutAll(t, xs), ys)
  {
    hide BinOf, PutIn;
    if ys == [] {
      assert xs + ys == xs;
    } else {
      var zs, y := ys[..|ys| - 1], ys[|ys| - 1];
      PutAllConcat(t, xs, zs);
      assert xs + ys == xs + zs + [y] && ys == zs + [y];
      PutAllStep(t, xs + zs, y);
      PutAllStep(PutAll(t, xs), zs, y);
    }
  }

  /** The copy runs out of space exactly when some bucket gets more than three entries. */
  lemma {:induction false} OverflowsIffNotFits(xs: seq<Item>, n: nat)
    requires n >= 1
    ensures Overflows(EmptyBuckets(n), xs) <==> !Fits(xs, n)
  {
    hide BinOf;
    if xs == [] {
      assert forall b: nat :: b < n ==> Received(xs, n, b) == [];
    } else {
      var ys, x := xs[..|xs| - 1], xs[|xs| - 1];
      OverflowsIffNotFits(ys, n);
      var bx := BinOf(n, x.0);
      CopyKeepsFirstThree(ys, n, bx);
      assert forall b: nat :: b < n ==> Received(xs, n, b) == Received(ys, n, b) + if b == bx then [x] else [];
      if !Fits(ys, n) {
        var b: nat :| b < n && |Received(ys, n, b)| > KEY_BUCKT;
        assert |Received(xs, n, b)| > KEY_BUCKT;
      }
      assert |Received(xs, n, bx)| == |Received(ys, n, bx)| + 1;
    }
  }

  /** The copy of ht_resize_pes, while nobody updates the old table.  It runs out of space exactly when
      some new bucket would get more than three entries, and otherwise the new table has them all. */
  method ResizeCopy(from: ChainlessTable, n: nat) returns (to: ChainlessTable, noSpace: bool)
    requires from.Valid() && n >= 1 && from.NoZeroKeys()
    ensures fresh(to.key) && fresh(to.val) && fresh(to.valid) && to.Valid() && to.numBuckets == n
        && to.flavour == from.flavour
    ensures to.Packed(Copied(from.flavour, from.Buckets(from.numBuckets), n))
    ensures noSpace <==> !Fits(AllItems(from.flavour, from.Buckets(from.numBuckets)), n)
  {
    hide BinOf, PutIn, PutAll, LiveItems, Overflows, Fits, AllItems, EmptyBuckets;
    ghost var tab := from.Buckets(from.numBuckets);
    to := new ChainlessTable(from.flavour, n);
    noSpace := false;
    ghost var done: seq<Item> := [];
    NothingCopied(from.flavour, [], EmptyBuckets(n));
    NoItems(from.flavour, tab);
    var b := 0;
    while b < from.numBuckets
      invariant 0 <= b <= from.numBuckets && done == AllItems(from.flavour, tab[..b])
      invariant to.Packed(PutAll(EmptyBuckets(n), done)) && (noSpace <==> Overflows(EmptyBuckets(n), done))
      invariant from.NoZeroKeys() && forall i: nat :: i < from.numBuckets ==> from.BucketAt(i) == tab[i]
    {
      assert from.BucketAt(b) == tab[b];
      ghost var xs := LiveItems(from.flavour, tab[b]);
      PutAllConcat(EmptyBuckets(n), done, xs);
      MoreItems(from.flavour, tab, b);
      var full := from.BucketCpy(b, to, PutAll(EmptyBuckets(n), done));
      noSpace := noSpace || full;
      done := done + xs;
      b := b + 1;
    }
    assert tab[..b] == tab;
    OverflowsIffNotFits(done, n);
    SameBuckets(from, tab);
  }

  lemma SameBuckets(from: ChainlessTable, tab: seq<seq<Slot>>)
    requires from.Valid() && |tab| == from.numBuckets && forall i: nat :: i < from.numBuckets ==>
        from.BucketAt(i) == tab[i]
    ensures from.Buckets(from.numBuckets) == tab
  {
  }

  lemma NoItems(f: Flavour, tab: seq<seq<Slot>>)
    ensures AllItems(f, tab[..0]) == []
  {
  }

  lemma MoreItems(f: Flavour, tab: seq<seq<Slot>>, b: nat)
    requires b < |tab|
    ensures AllItems(f, tab[..b + 1]) == AllItems(f, tab[..b]) + LiveItems(f, tab[b])
  {
    assert tab[..b + 1][..b] == tab[..b];
  }

  lemma HalfIsTooSmall(incBy: bv32, c: nat)
    requires 1 <= c && forall c': nat :: 1 <= c' && incBy as nat <= Pow2(c') ==> Pow2(c) <= Pow2(c')
    ensures c == 1 || Pow2(c - 1) < incBy as nat
  {
    if c > 1 { assert Pow2(c) == 2 * Pow2(c - 1); }
  }

  /** Growing a table with a power of two of buckets, by the factor that ht_status computes: no slot is
      missing, and the new table stands for the same map, so that it can grow again. */
  method Grow(from: ChainlessTable, ghost a: nat, incBy: bv32, ghost m: map<nat, nat>)
    returns (to: ChainlessTable, noSpace: bool, ghost c: nat)
    requires from.Valid() && from.NoZeroKeys() && from.numBuckets == Pow2(a) && incBy <= 0x4000_0000
    requires StandsFor(from.flavour, from.Buckets(from.numBuckets), m)
    ensures !noSpace && to.Valid() && to.flavour == from.flavour
    ensures 1 <= c < 31 && to.numBuckets == Pow2(c + a)
    ensures incBy as nat <= Pow2(c) && (c == 1 || Pow2(c - 1) < incBy as nat)
    ensures StandsFor(to.flavour, to.Buckets(to.numBuckets), m) && to.NoZeroKeys()
  {
    hide BinOf, PutIn, PutAll, LiveItems, Fits, AllItems, EmptyBuckets, Models, Pow2, Copied, StandsFor, Rows;
    var factor := GrowthFactor(incBy);
    c :| 1 <= c < 31 && factor as nat == Pow2(c);
    HalfIsTooSmall(incBy, c);
    GrowthFits(from.flavour, from.Buckets(from.numBuckets), m, a, c);
    Pow2Split(c, a);
    to, noSpace := ResizeCopy(from, factor as nat * from.numBuckets);
    to.PackedStands(Copied(from.flavour, from.Buckets(from.numBuckets), factor as nat * from.numBuckets), m);
  }
}
