/** Eviction paths of the cuckoo table: the walk a path code stands for, and why the first free slot
    that a breadth-first search meets lies at the end of a walk that never visits a bucket twice. */
module CuckooPath {
  import opened Hashing
  import opened CuckooLayout
  import opened BfsQueue

  /** A table together with the two buckets a search starts from. */
  datatype Maze = Maze(c: Config, hp: nat, t: Table, i1: nat, i2: nat)

  function Power(s: nat, d: nat): nat
  {
    if d == 0 then 1 else s * Power(s, d - 1)
  }

  /** How many codes there are at a depth: two roots, and one digit per hop. */
  function Codes(s: nat, d: nat): nat { 2 * Power(s, d) }

  /** The bucket reached from b by evicting the item of slot s. */
  function Hop(g: Maze, b: nat, s: nat): nat
  {
    match SlotAt(g.t, b, s)
    case Free => b
    case Item(p, _, _) => AltIndex(g.hp, p, b)
  }

  /** The bucket that the walk of a code of `depth` digits ends in; what is left of the code after
      all digits are taken off tells the root. */
  function Walk(g: Maze, code: nat, depth: nat): nat
    requires g.c.slots >= 1
    decreases depth
  {
    if depth == 0 then (if code == 0 then g.i1 else g.i2)
    else Hop(g, Walk(g, code / g.c.slots, depth - 1), code % g.c.slots)
  }

  ghost predicate BucketFull(g: Maze, b: nat)
  {
    forall s :: 0 <= s < g.c.slots ==> SlotAt(g.t, b, s).Item?
  }

  /** Every walk of d hops ends in a bucket without a free slot. */
  ghost predicate LevelFull(g: Maze, d: nat)
    requires g.c.slots >= 1
  {
    forall code: nat :: code < Codes(g.c.slots, d) ==> BucketFull(g, Walk(g, code, d))
  }

  /** The first i digits (and the root) of a code of d digits. */
  function Prefix(s: nat, code: nat, d: nat, i: nat): nat
    requires s >= 1 && i <= d
    decreases d
  {
    if i == d then code else Prefix(s, code / s, d - 1, i)
  }

  lemma {:induction false} PrefixStep(s: nat, code: nat, d: nat, i: nat)
    requires s >= 1 && i < d
    ensures Prefix(s, code, d, i + 1) / s == Prefix(s, code, d, i)
    decreases d
  {
    if i + 1 < d { PrefixStep(s, code / s, d - 1, i); }
  }

  lemma QuotientBound(s: nat, code: nat, m: nat)
    requires s >= 1 && code < s * m
    ensures code / s < m
  {
    assert s * (code / s) <= code;
    LessByFactor(s, code / s, m);
  }

  lemma LessByFactor(s: nat, a: nat, b: nat)
    requires s * a < s * b
    ensures a < b
  {
    if b <= a { ProductMonotone(s, b, a); }
  }

  lemma ProductMonotone(s: nat, a: nat, b: nat)
    requires a <= b
    ensures s * a <= s * b
  {
    assert s * b == s * a + s * (b - a);
  }

  lemma CodesStep(s: nat, d: nat)
    ensures Codes(s, d + 1) == s * Codes(s, d)
  {}

  lemma {:induction false} PrefixBound(s: nat, code: nat, d: nat, i: nat)
    requires s >= 1 && i <= d && code < Codes(s, d)
    ensures Prefix(s, code, d, i) < Codes(s, i)
    decreases d
  {
    if i < d {
      CodesStep(s, d - 1);
      QuotientBound(s, code, Codes(s, d - 1));
      PrefixBound(s, code / s, d - 1, i);
    }
  }

  // ------------------------------------------------------------------ codes round trip

  /** The code that the search builds: a root, then one base-s digit per slot taken. */
  function Encode(s: nat, root: nat, slots: seq<nat>): nat
  {
    if slots == [] then root else Encode(s, root, slots[..|slots| - 1]) * s + slots[|slots| - 1]
  }

  lemma DigitAndRest(s: nat, q: nat, r: nat)
    requires r < s
    ensures (q * s + r) % s == r && (q * s + r) / s == q
  {
    Remainder(q * s + r, s, q, r);
  }

  /** Taking n digits off the end of a code recovers the slots and leaves the root. */
  lemma {:induction false} CodeRoundTrip(s: nat, root: nat, slots: seq<nat>, i: nat)
    requires s >= 1 && i <= |slots| && forall j :: 0 <= j < |slots| ==> slots[j] < s
    ensures Prefix(s, Encode(s, root, slots), |slots|, i) == Encode(s, root, slots[..i])
    ensures i > 0 ==> Prefix(s, Encode(s, root, slots), |slots|, i) % s == slots[i - 1]
    ensures i == 0 ==> Prefix(s, Encode(s, root, slots), |slots|, i) == root
    decreases |slots|
  {
    if i == |slots| {
      assert slots[..i] == slots;
      if i > 0 { DigitAndRest(s, Encode(s, root, slots[..i - 1]), slots[i - 1]); }
    } else {
      var front := slots[..|slots| - 1];
      DigitAndRest(s, Encode(s, root, front), slots[|slots| - 1]);
      CodeRoundTrip(s, root, front, i);
      assert front[..i] == slots[..i];
    }
  }

  // ------------------------------------------------------------------ shortest walks are simple

  /** The code that skips the loop between positions i and j of the walk. */
  function Shortcut(s: nat, code: nat, d: nat, i: nat, j: nat): nat
    requires s >= 1 && i < j <= d
    decreases d
  {
    if d == j then Prefix(s, code, d, i) else Shortcut(s, code / s, d - 1, i, j) * s + code % s
  }

  lemma {:induction false} ShortcutWalk(g: Maze, code: nat, d: nat, i: nat, j: nat)
    requires g.c.slots >= 1 && i < j <= d
    requires code < Codes(g.c.slots, d)
    requires Walk(g, Prefix(g.c.slots, code, d, i), i) == Walk(g, Prefix(g.c.slots, code, d, j), j)
    ensures Walk(g, Shortcut(g.c.slots, code, d, i, j), d - (j - i)) == Walk(g, code, d)
    ensures Shortcut(g.c.slots, code, d, i, j) < Codes(g.c.slots, d - (j - i))
    decreases d
  {
    hide Codes, Walk;
    var s := g.c.slots;
    if d == j {
      PrefixBound(s, code, d, i);
    } else {
      var x, n := Shortcut(s, code / s, d - 1, i, j), d - 1 - (j - i);
      assert Walk(g, x, n) == Walk(g, code / s, d - 1) && x < Codes(s, n) by {
        DropDigitBound(s, code, d);
        ShortcutWalk(g, code / s, d - 1, i, j);
      }
      ShortcutStep(g, x, code, n, d);
      assert n + 1 == d - (j - i);
    }
  }

  lemma DropDigitBound(s: nat, code: nat, d: nat)
    requires s >= 1 && d >= 1 && code < Codes(s, d)
    ensures code / s < Codes(s, d - 1)
  {
    CodesStep(s, d - 1);
    QuotientBound(s, code, Codes(s, d - 1));
  }

  lemma ShortcutStep(g: Maze, x: nat, code: nat, n: nat, d: nat)
    requires g.c.slots >= 1 && d >= 1
    requires Walk(g, x, n) == Walk(g, code / g.c.slots, d - 1) && x < Codes(g.c.slots, n)
    ensures Walk(g, x * g.c.slots + code % g.c.slots, n + 1) == Walk(g, code, d)
    ensures x * g.c.slots + code % g.c.slots < Codes(g.c.slots, n + 1)
  {
    var s := g.c.slots;
    DigitAndRest(s, x, code % s);
    CodesStep(s, n);
    AppendDigitBound(s, x, code % s, Codes(s, n));
  }

  lemma AppendDigitBound(s: nat, x: nat, r: nat, m: nat)
    requires r < s && x < m
    ensures x * s + r < s * m
  {
    assert x * s + r < (x + 1) * s;
    ProductMonotone(s, x + 1, m);
  }

  /** If every shorter walk ends in a full bucket and this one does not, its buckets are distinct. */
  lemma ShortestWalkIsSimple(g: Maze, code: nat, d: nat, i: nat, j: nat)
    requires g.c.slots >= 1 && i < j <= d
    requires code < Codes(g.c.slots, d) && !BucketFull(g, Walk(g, code, d))
    requires forall d' :: 0 <= d' < d ==> LevelFull(g, d')
    ensures Walk(g, Prefix(g.c.slots, code, d, i), i) != Walk(g, Prefix(g.c.slots, code, d, j), j)
  {
    assert LevelFull(g, d - (j - i));
    if Walk(g, Prefix(g.c.slots, code, d, i), i) == Walk(g, Prefix(g.c.slots, code, d, j), j) {
      ShortcutWalk(g, code, d, i, j);
    }
  }

  lemma {:induction false} WalkInTable(g: Maze, code: nat, d: nat)
    requires Shape(g.c, g.hp, g.t) && g.i1 < Pow2(g.hp) && g.i2 < Pow2(g.hp)
    ensures Walk(g, code, d) < Pow2(g.hp)
    decreases d
  {
    if d > 0 {
      var b := Walk(g, code / g.c.slots, d - 1);
      WalkInTable(g, code / g.c.slots, d - 1);
      match SlotAt(g.t, b, code % g.c.slots)
      case Free =>
      case Item(p, _, _) => IndexForms(g.hp, 0, p, b);
    }
  }

  // ------------------------------------------------------------------ recorded paths

  /** One position of a recorded path: only the hash value of the item is kept, not its key. */
  datatype Record = Record(bucket: nat, slot: nat, hv: nat)

  type Records = r: seq<Record> | |r| == MAX_BFS_PATH_LEN
    witness [Record(0, 0, 0), Record(0, 0, 0), Record(0, 0, 0), Record(0, 0, 0), Record(0, 0, 0)]

  ghost predicate InTable(c: Config, hp: nat, path: Records, depth: nat)
  {
    forall i :: 0 <= i <= depth < MAX_BFS_PATH_LEN ==> path[i].bucket < Pow2(hp) && path[i].slot < c.slots
  }

  /** Each recorded bucket is the alternate of the one before it, for the hash value recorded there. */
  ghost predicate Hops(hp: nat, path: Records, depth: nat)
  {
    forall i :: 0 <= i < depth < MAX_BFS_PATH_LEN ==>
      path[i + 1].bucket == AltIndex(hp, PartialKey(path[i].hv), path[i].bucket)
  }

  /** The item recorded at position i is still there. */
  predicate InPlace(c: Config, t: Table, r: Record)
  {
    var x := SlotAt(t, r.bucket, r.slot);
    x.Item? && c.hash(x.key) == r.hv
  }

  /** A path that is up to date: its items are in place, its end is free, its buckets are distinct. */
  ghost predicate Intact(c: Config, t: Table, path: Records, depth: nat)
  {
    && depth < MAX_BFS_PATH_LEN
    && (forall i :: 0 <= i < depth ==> InPlace(c, t, path[i]))
    && SlotAt(t, path[depth].bucket, path[depth].slot).Free?
    && (forall i, j :: 0 <= i < j <= depth ==> path[i].bucket != path[j].bucket)
  }

  /** The path of a found code: position i holds the walk's i-th bucket and the (i+1)-st digit. */
  ghost predicate Follows(g: Maze, code: nat, depth: nat, path: Records, upTo: nat)
    requires g.c.slots >= 1 && depth < MAX_BFS_PATH_LEN
  {
    && (forall i :: 0 <= i <= depth ==> path[i].slot == Prefix(g.c.slots, code, depth + 1, i + 1) % g.c.slots)
    && (forall i :: 0 <= i < upTo <= depth + 1 ==> path[i].bucket == Walk(g, Prefix(g.c.slots, code, depth + 1, i), i))
  }

  /** What a successful search guarantees: a free slot at the end of a shortest walk. */
  ghost predicate FoundShortest(g: Maze, x: BSlot)
    requires g.c.slots >= 1
  {
    && 0 <= x.depth < MAX_BFS_PATH_LEN
    && x.pathcode < Codes(g.c.slots, x.depth + 1)
    && x.bucket == Walk(g, x.pathcode / g.c.slots, x.depth)
    && SlotAt(g.t, x.bucket, x.pathcode % g.c.slots).Free?
    && (x.depth >= 1 ==> Codes(g.c.slots, x.depth) < MAX_CUCKOO_COUNT)
    && forall d :: 0 <= d < x.depth ==> LevelFull(g, d)
  }

  /** On a table that has not changed, the path read back from a found code is intact. */
  lemma FollowedPathIsIntact(g: Maze, x: BSlot, path: Records)
    requires g.c.slots >= 1 && FoundShortest(g, x)
    requires Follows(g, x.pathcode, x.depth, path, x.depth + 1)
    requires forall i :: 0 <= i < x.depth ==> InPlace(g.c, g.t, path[i])
    ensures Intact(g.c, g.t, path, x.depth)
  {
    var s, d := g.c.slots, x.depth;
    var code := x.pathcode;
    PrefixStep(s, code, d + 1, d);
    CodesStep(s, d);
    QuotientBound(s, code, Codes(s, d));
    forall i, j | 0 <= i < j <= d ensures path[i].bucket != path[j].bucket {
      PrefixOfPrefix(s, code, d + 1, i);
      PrefixOfPrefix(s, code, d + 1, j);
      ShortestWalkIsSimple(g, code / s, d, i, j);
    }
  }

  lemma PrefixOfPrefix(s: nat, code: nat, d: nat, i: nat)
    requires s >= 1 && i < d
    ensures Prefix(s, code, d, i) == Prefix(s, code / s, d - 1, i)
  {}

  /** A position of the walk before its end sits in a full bucket. */
  lemma InnerBucketsFull(g: Maze, x: BSlot, i: nat)
    requires g.c.slots >= 1 && FoundShortest(g, x) && i < x.depth
    ensures BucketFull(g, Walk(g, Prefix(g.c.slots, x.pathcode, x.depth + 1, i), i))
  {
    PrefixBound(g.c.slots, x.pathcode, x.depth + 1, i);
    assert LevelFull(g, i);
  }

  // ------------------------------------------------------------------ codes and slots

  function Entry(g: Maze, code: nat, d: nat): BSlot
    requires g.c.slots >= 1
  {
    BSlot(Walk(g, code, d), code, d)
  }

  /** The slot that the j-th step of a scan starting at `start` looks at. */
  function Scan(s: nat, start: nat, j: nat): (r: nat)
    requires s >= 1
    ensures r < s
  {
    (start + j) % s
  }

  /** The slots of a bucket, scanned cyclically from `start`, are all its slots. */
  lemma CyclicScanIsComplete(s: nat, start: nat, slot: nat) returns (j: nat)
    requires start < s && slot < s
    ensures j < s && Scan(s, start, j) == slot
  {
    j := if start <= slot then slot - start else slot + s - start;
    if start <= slot { Remainder(start + j, s, 0, slot); } else { Remainder(start + j, s, 1, slot); }
  }

  /** The code of the walk that goes on through `slot`. */
  function Extend(s: nat, code: nat, slot: nat): nat { code * s + slot }

  lemma {:induction false} CodesGrow(s: nat, d: nat, d': nat)
    requires s >= 1 && d <= d'
    ensures 2 <= Codes(s, d) <= Codes(s, d')
    decreases d'
  {
    if d < d' {
      CodesGrow(s, d, d' - 1);
      CodesStep(s, d' - 1);
      ProductMonotone(Codes(s, d' - 1), 1, s);
    } else if d > 0 {
      CodesGrow(s, d - 1, d - 1);
      CodesStep(s, d - 1);
      ProductMonotone(Codes(s, d - 1), 1, s);
    }
  }

  /** The code of a found free slot. */
  lemma FoundCode(s: nat, code: nat, slot: nat, d: nat)
    requires slot < s && code < Codes(s, d)
    ensures Extend(s, code, slot) < Codes(s, d + 1)
    ensures Extend(s, code, slot) / s == code && Extend(s, code, slot) % s == slot
  {
    CodesStep(s, d);
    AppendDigitBound(s, code, slot, Codes(s, d));
    DigitAndRest(s, code, slot);
  }

  /** The codes of one more digit fit in a word: either only the two roots have been extended, or a whole
      level has been in the queue, which bounds the number of slots. */
  lemma CodesFitWord(s: nat, d: nat)
    requires s >= 1 && Power(s, MAX_BFS_PATH_LEN) < WORD && (d >= 1 ==> Codes(s, d) < MAX_CUCKOO_COUNT)
    ensures Codes(s, d + 1) <= WORD
  {
    CodesStep(s, d);
    if d >= 1 {
      SlotsBound(s, d);
      ProductMonotone(s, Codes(s, d), MAX_CUCKOO_COUNT);
    } else {
      assert Codes(s, 1) == 2 * s;
      FifthPower(s);
    }
  }

  /** A level of at least one hop has more codes than a bucket has slots. */
  lemma SlotsBound(s: nat, d: nat)
    requires s >= 1 && d >= 1
    ensures s <= Codes(s, d)
  {
    assert Power(s, d) == s * Power(s, d - 1);
    PowerPositive(s, d - 1);
    ProductMonotone(s, 1, Power(s, d - 1));
  }

  lemma {:induction false} PowerPositive(s: nat, d: nat)
    requires s >= 1
    ensures Power(s, d) >= 1
  {
    if d > 0 {
      PowerPositive(s, d - 1);
      ProductMonotone(s, 1, Power(s, d - 1));
    }
  }

  lemma FifthPower(s: nat)
    requires s >= 1 && Power(s, 5) < WORD
    ensures 2 * s <= WORD
  {
    if s >= 2 {
      PowerPositive(s, 3);
      assert Power(s, 5) == s * Power(s, 4) && Power(s, 4) == s * Power(s, 3);
      ProductMonotone(s, 1, Power(s, 3));
      ProductMonotone(s, s, Power(s, 4));
      ProductMonotone(s, 2, s);
    }
  }

  /** The code of a found path fits in a word. */
  lemma FoundCodeFitsWord(g: Maze, x: BSlot)
    requires g.c.slots >= 1 && FoundShortest(g, x) && Power(g.c.slots, MAX_BFS_PATH_LEN) < WORD
    ensures x.pathcode < WORD
  {
    CodesFitWord(g.c.slots, x.depth);
  }

  // ------------------------------------------------------------------ reading a path back

  lemma PathPositionInTable(g: Maze, code: nat, n: nat, path: Records, j: nat)
    requires Shape(g.c, g.hp, g.t) && g.i1 < Pow2(g.hp) && g.i2 < Pow2(g.hp)
    requires j <= n < MAX_BFS_PATH_LEN && Follows(g, code, n, path, j + 1)
    ensures path[j].bucket < Pow2(g.hp) && path[j].slot < g.c.slots
  {
    WalkInTable(g, Prefix(g.c.slots, code, n + 1, j), j);
  }

  /** The bucket after position j is the alternate bucket of the hash value recorded at j. */
  lemma NextHop(g: Maze, code: nat, n: nat, path: Records, j: nat)
    requires Shape(g.c, g.hp, g.t) && Placed(g.c, g.hp, g.t)
    requires j < n < MAX_BFS_PATH_LEN && Follows(g, code, n, path, j + 1) && InPlace(g.c, g.t, path[j])
    ensures AltIndex(g.hp, PartialKey(path[j].hv), path[j].bucket)
        == Walk(g, Prefix(g.c.slots, code, n + 1, j + 1), j + 1)
  {
    PrefixStep(g.c.slots, code, n + 1, j);
    assert WellPlaced(g.c, g.hp, path[j].bucket, SlotAt(g.t, path[j].bucket, path[j].slot));
  }

  /** Only the last position of the walk can be free. */
  lemma OnlyEndIsFree(g: Maze, x: BSlot, path: Records, j: nat)
    requires g.c.slots >= 1 && FoundShortest(g, x) && j <= x.depth
    requires Follows(g, x.pathcode, x.depth, path, j + 1)
    ensures SlotAt(g.t, path[j].bucket, path[j].slot).Free? <==> j == x.depth
  {
    if j < x.depth {
      InnerBucketsFull(g, x, j);
    } else {
      PrefixStep(g.c.slots, x.pathcode, x.depth + 1, x.depth);
    }
  }

  /** Positions before n have been read back, and the bucket of position n is known. */
  ghost predicate PathAt(g: Maze, x: BSlot, path: Records, n: nat)
    requires g.c.slots >= 1 && FoundShortest(g, x)
  {
    && n <= x.depth
    && Follows(g, x.pathcode, x.depth, path, n + 1) && Hops(g.hp, path, n) && InTable(g.c, g.hp, path, n)
    && (forall j :: 0 <= j < n ==> InPlace(g.c, g.t, path[j]))
    && (path[0].bucket == g.i1 || path[0].bucket == g.i2)
  }

  ghost predicate MazeOk(g: Maze)
  {
    Shape(g.c, g.hp, g.t) && Placed(g.c, g.hp, g.t) && g.i1 < Pow2(g.hp) && g.i2 < Pow2(g.hp)
  }

  lemma PathAtRoot(g: Maze, x: BSlot, path: Records, rest: nat)
    requires MazeOk(g) && FoundShortest(g, x)
    requires Follows(g, x.pathcode, x.depth, path, 0) && rest == Prefix(g.c.slots, x.pathcode, x.depth + 1, 0)
    ensures PathAt(g, x, path[0 := path[0].(bucket := if rest == 0 then g.i1 else g.i2)], 0)
  {
    PathPositionInTable(g, x.pathcode, x.depth, path[0 := path[0].(bucket := if rest == 0 then g.i1 else g.i2)], 0);
  }

  /** A free slot ends the path, at the position where the search found it. */
  lemma PathComplete(g: Maze, x: BSlot, path: Records, n: nat)
    requires MazeOk(g) && FoundShortest(g, x) && PathAt(g, x, path, n)
    ensures SlotAt(g.t, path[n].bucket, path[n].slot).Free? <==> n == x.depth
    ensures n == x.depth ==> Intact(g.c, g.t, path, n) && InTable(g.c, g.hp, path, n) && Hops(g.hp, path, n)
    ensures path[0].bucket == g.i1 || path[0].bucket == g.i2
  {
    OnlyEndIsFree(g, x, path, n);
    if n == x.depth { FollowedPathIsIntact(g, x, path); }
  }

  /** Recording the hash value at position n fixes the bucket of position n + 1. */
  lemma PathAdvances(g: Maze, x: BSlot, path: Records, n: nat)
    requires MazeOk(g) && FoundShortest(g, x) && n < x.depth && PathAt(g, x, path, n)
    requires InPlace(g.c, g.t, path[n])
    ensures var next := path[n + 1].(bucket := AltIndex(g.hp, PartialKey(path[n].hv), path[n].bucket));
            PathAt(g, x, path[n + 1 := next], n + 1)
  {
    hide AltIndex, PartialKey, InPlace, Walk, Prefix;
    var path' := path[n + 1 := path[n + 1].(bucket := AltIndex(g.hp, PartialKey(path[n].hv), path[n].bucket))];
    NextHop(g, x.pathcode, x.depth, path, n);
    PathPositionInTable(g, x.pathcode, x.depth, path', n + 1);
  }

  lemma PathRecords(g: Maze, x: BSlot, path: Records, n: nat, hv: nat)
    requires MazeOk(g) && FoundShortest(g, x) && PathAt(g, x, path, n)
    ensures PathAt(g, x, path[n := path[n].(hv := hv)], n)
  {
    hide Walk, Prefix, AltIndex, InPlace;
  }

  // ------------------------------------------------------------------ moving along a path

  /** The array after moving the item of position n - 1 to position n. */
  function Shifted(t: Table, from: Record, to: Record): Table
    requires from.bucket < |t| && from.slot < |t[from.bucket]|
    requires to.bucket < |t| && to.slot < |t[to.bucket]|
  {
    Write(Write(t, to.bucket, to.slot, t[from.bucket][from.slot]), from.bucket, from.slot, Free)
  }

  /** After one move from the end of an intact path, the shortened path is intact. */
  lemma ShiftKeepsIntact(c: Config, hp: nat, t: Table, path: Records, n: nat)
    requires Shape(c, hp, t) && Intact(c, t, path, n) && n >= 1
    requires InTable(c, hp, path, n)
    ensures Intact(c, Shifted(t, path[n - 1], path[n]), path, n - 1)
  {
    var t' := Shifted(t, path[n - 1], path[n]);
    forall i | 0 <= i < n - 1 ensures InPlace(c, t', path[i]) {
      assert InPlace(c, t, path[i]);
      assert path[i].bucket != path[n - 1].bucket && path[i].bucket != path[n].bucket;
    }
  }

  /** A move along one hop keeps every binding, whatever the rest of the path looks like. */
  lemma ShiftKeepsMap(c: Config, hp: nat, t: Table, m: map<Key, Val>, path: Records, n: nat, depth: nat)
    requires Inv(c, hp, t, m) && 1 <= n <= depth < MAX_BFS_PATH_LEN
    requires InTable(c, hp, path, depth) && Hops(hp, path, depth)
    requires InPlace(c, t, path[n - 1]) && SlotAt(t, path[n].bucket, path[n].slot).Free?
    ensures Inv(c, hp, Shifted(t, path[n - 1], path[n]), m)
    ensures SlotAt(Shifted(t, path[n - 1], path[n]), path[n - 1].bucket, path[n - 1].slot).Free?
  {
    assert path[n - 1 + 1] == path[n];
    MoveItem(c, hp, t, m, path[n - 1].bucket, path[n - 1].slot, path[n].bucket, path[n].slot);
  }
}
