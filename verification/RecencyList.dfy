/**
 The abstract LRU cache: entries most recently used first, with a byte capacity.
 The linked structure in LruCache.dfy is proved against these functions.
 */
module RecencyList {
  import opened Common

  datatype Entry = Entry(key: string, val: Bytes)

  datatype Op = Get(key: string) | Set(key: string, val: Bytes) | Delete(key: string)

  function Total(l: seq<Entry>): nat {
    if l == [] then 0 else |l[0].val| + Total(l[1..])
  }

  function Find(l: seq<Entry>, k: string): Option<Bytes> {
    if l == [] then None else if l[0].key == k then Some(l[0].val) else Find(l[1..], k)
  }

  function Without(l: seq<Entry>, k: string): seq<Entry> {
    if l == [] then []
    else if l[0].key == k then Without(l[1..], k)
    else [l[0]] + Without(l[1..], k)
  }

  /** Drops entries from the back until the rest fits. */
  function Fit(l: seq<Entry>, cap: nat): seq<Entry> {
    if Total(l) <= cap then l else Fit(l[..|l| - 1], cap)
  }

  function Apply(l: seq<Entry>, op: Op, cap: nat): seq<Entry> {
    match op
    case Get(k) => (match Find(l, k)
                    case None => l
                    case Some(v) => [Entry(k, v)] + Without(l, k))
    case Set(k, v) => if |v| > cap then l else Fit([Entry(k, v)] + Without(l, k), cap)
    case Delete(k) => Without(l, k)
  }

  function Run(ops: seq<Op>, cap: nat): seq<Entry> {
    if ops == [] then [] else Apply(Run(ops[..|ops| - 1], cap), ops[|ops| - 1], cap)
  }

  /** The value of the last Set of `k` that fits, unless a Delete of `k` came after it. */
  function LastWrite(ops: seq<Op>, k: string, cap: nat): Option<Bytes> {
    if ops == [] then None
    else
      var op, earlier := ops[|ops| - 1], ops[..|ops| - 1];
      if op.Set? && op.key == k && |op.val| <= cap then Some(op.val)
      else if op.Delete? && op.key == k then None
      else LastWrite(earlier, k, cap)
  }

  ghost predicate Distinct(l: seq<Entry>) {
    forall i, j :: 0 <= i < j < |l| ==> l[i].key != l[j].key
  }

  // ---------- Fit is the longest fitting prefix ----------

  lemma {:induction false} TotalAppend(a: seq<Entry>, b: seq<Entry>)
    ensures Total(a + b) == Total(a) + Total(b)
  {
    if a == [] {
      assert a + b == b;
    } else {
      assert (a + b)[1..] == a[1..] + b;
      TotalAppend(a[1..], b);
    }
  }

  lemma {:induction false} TotalPrefix(a: seq<Entry>, b: seq<Entry>)
    requires a <= b
    ensures Total(a) <= Total(b)
  {
    assert b == a + b[|a|..];
    TotalAppend(a, b[|a|..]);
  }

  /** Eviction keeps exactly the longest prefix of the recency list that fits. */
  lemma {:induction false} FitIsLongestFittingPrefix(l: seq<Entry>, cap: nat, p: seq<Entry>)
    requires p <= l
    ensures Fit(l, cap) <= l && Total(Fit(l, cap)) <= cap
    ensures p <= Fit(l, cap) <==> Total(p) <= cap
  {
    if Total(l) <= cap {
      TotalPrefix(p, l);
    } else if p == l {
      FitIsLongestFittingPrefix(l[..|l| - 1], cap, []);
    } else {
      FitIsLongestFittingPrefix(l[..|l| - 1], cap, p);
    }
  }

  /** A Set that fits always leaves its own entry at the front. */
  lemma {:induction false} SetSurvives(l: seq<Entry>, k: string, v: Bytes, cap: nat)
    requires |v| <= cap
    ensures var r := Apply(l, Set(k, v), cap); r != [] && r[0] == Entry(k, v)
  {
    var e := [Entry(k, v)];
    FitIsLongestFittingPrefix(e + Without(l, k), cap, e);
  }

  // ---------- lookups ----------

  lemma {:induction false} WithoutFacts(l: seq<Entry>, k: string)
    ensures Find(Without(l, k), k) == None
    ensures forall x | x in Without(l, k) :: x in l && x.key != k
    ensures Total(Without(l, k)) <= Total(l)
    ensures Distinct(l) ==> Distinct(Without(l, k))
  {
    if l != [] {
      WithoutFacts(l[1..], k);
      if l[0].key != k {
        assert Without(l, k)[1..] == Without(l[1..], k);
      }
    }
  }

  lemma {:induction false} FindWithoutOther(l: seq<Entry>, k: string, other: string)
    requires other != k
    ensures Find(Without(l, k), other) == Find(l, other)
  {
    if l != [] {
      FindWithoutOther(l[1..], k, other);
      if l[0].key != k {
        assert Without(l, k)[1..] == Without(l[1..], k);
      }
    }
  }

  lemma {:induction false} FindPrefix(a: seq<Entry>, b: seq<Entry>, k: string)
    requires a <= b
    ensures Find(a, k) != None ==> Find(a, k) == Find(b, k)
  {
    if a != [] && a[0].key != k {
      FindPrefix(a[1..], b[1..], k);
    }
  }

  lemma {:induction false} FindIndex(l: seq<Entry>, k: string, i: nat)
    requires Distinct(l) && i < |l| && l[i].key == k
    ensures Find(l, k) == Some(l[i].val)
    ensures Without(l, k) == l[..i] + l[i + 1..]
    ensures Total(Without(l, k)) == Total(l) - |l[i].val|
  {
    WithoutIndex(l, k, i);
    assert l == l[..i] + ([l[i]] + l[i + 1..]);
    TotalAppend(l[..i], [l[i]] + l[i + 1..]);
    TotalAppend(l[..i], l[i + 1..]);
    assert ([l[i]] + l[i + 1..])[1..] == l[i + 1..];
  }

  lemma {:induction false} WithoutIndex(l: seq<Entry>, k: string, i: nat)
    requires Distinct(l) && i < |l| && l[i].key == k
    ensures Find(l, k) == Some(l[i].val)
    ensures Without(l, k) == l[..i] + l[i + 1..]
  {
    if i == 0 {
      WithoutAbsent(l[1..], k);
    } else {
      assert l[0].key != k;
      WithoutIndex(l[1..], k, i - 1);
      assert l[1..][..i - 1] == l[1..i];
      assert l[1..][i..] == l[i + 1..];
      assert [l[0]] + l[1..i] == l[..i];
    }
  }

  lemma {:induction false} WithoutAbsent(l: seq<Entry>, k: string)
    requires forall e | e in l :: e.key != k
    ensures Without(l, k) == l && Find(l, k) == None
  {
    if l != [] {
      WithoutAbsent(l[1..], k);
    }
  }

  lemma {:induction false} FindSome(l: seq<Entry>, k: string)
    ensures Find(l, k) != None <==> exists i :: 0 <= i < |l| && l[i].key == k
  {
    if forall e | e in l :: e.key != k {
      WithoutAbsent(l, k);
    } else {
      FirstIndex(l, k);
    }
  }

  lemma {:induction false} FirstIndex(l: seq<Entry>, k: string)
    requires exists e :: e in l && e.key == k
    ensures Find(l, k) != None
  {
    if l[0].key != k {
      FirstIndex(l[1..], k);
    }
  }

  // ---------- whole runs ----------

  /** Every reachable recency list has distinct keys and stays within capacity. */
  lemma {:induction false} RunWithinCapacity(ops: seq<Op>, cap: nat)
    ensures Distinct(Run(ops, cap)) && Total(Run(ops, cap)) <= cap
  {
    if ops != [] {
      var l := Run(ops[..|ops| - 1], cap);
      RunWithinCapacity(ops[..|ops| - 1], cap);
      ApplyWithinCapacity(l, ops[|ops| - 1], cap);
    }
  }

  lemma {:induction false} ApplyWithinCapacity(l: seq<Entry>, op: Op, cap: nat)
    requires Distinct(l) && Total(l) <= cap
    ensures Distinct(Apply(l, op, cap)) && Total(Apply(l, op, cap)) <= cap
  {
    WithoutFacts(l, op.key);
    match op
    case Get(k) =>
      FindSome(l, k);
      if i :| 0 <= i < |l| && l[i].key == k {
        FindIndex(l, k, i);
      }
    case Set(k, v) =>
      FitIsLongestFittingPrefix([Entry(k, v)] + Without(l, k), cap, []);
    case Delete(k) =>
  }

  lemma {:induction false} ApplyFind(l: seq<Entry>, op: Op, cap: nat, k: string)
    ensures var r := Find(Apply(l, op, cap), k);
            r == None || r == (if op.key != k || op.Get? || (op.Set? && |op.val| > cap) then Find(l, k)
                               else if op.Set? then Some(op.val) else None)
  {
    if op.key != k {
      FindWithoutOther(l, op.key, k);
    }
    match op
    case Get(g) =>
      var v := Find(l, g);
      if v.Some? {
        var r := [Entry(g, v.value)] + Without(l, g);
        assert r[1..] == Without(l, g);
      }
    case Set(g, v) =>
      var r := [Entry(g, v)] + Without(l, g);
      assert r[1..] == Without(l, g);
      FitIsLongestFittingPrefix(r, cap, []);
      FindPrefix(Fit(r, cap), r, k);
    case Delete(g) =>
      WithoutFacts(l, g);
  }

  /** In every run, a hit returns the last fitting Set of its key that no Delete followed. */
  lemma {:induction false} HitIsLastWrite(ops: seq<Op>, k: string, cap: nat)
    ensures Find(Run(ops, cap), k) != None ==> Find(Run(ops, cap), k) == LastWrite(ops, k, cap)
  {
    if ops != [] {
      var earlier := ops[..|ops| - 1];
      HitIsLastWrite(earlier, k, cap);
      ApplyFind(Run(earlier, cap), ops[|ops| - 1], cap, k);
    }
  }

  // ---------- inclusion: bigger caches contain smaller ones ----------

  lemma {:induction false} WithoutKeepsPrefix(a: seq<Entry>, b: seq<Entry>, k: string)
    requires a <= b
    ensures Without(a, k) <= Without(b, k)
  {
    if a != [] {
      WithoutKeepsPrefix(a[1..], b[1..], k);
    }
  }

  /** When a Get keeps the small list a prefix of the large one. */
  predicate GetAligned(small: seq<Entry>, large: seq<Entry>, k: string) {
    small == [] || Find(large, k) == None || Find(small, k) != None
  }

  /** Inclusion survives a Get exactly when the key misses in both or hits in both (or the small one is empty). */
  lemma {:induction false} GetKeepsInclusionIff(small: seq<Entry>, large: seq<Entry>, k: string, c1: nat, c2: nat)
    requires small <= large
    ensures Apply(small, Get(k), c1) <= Apply(large, Get(k), c2) <==> GetAligned(small, large, k)
  {
    FindPrefix(small, large, k);
    WithoutKeepsPrefix(small, large, k);
    if Find(small, k) == None && Find(large, k) != None && small != [] {
      assert small[0].key != k;
    }
  }

  lemma {:induction false} SetKeepsInclusion(small: seq<Entry>, large: seq<Entry>, k: string, v: Bytes, c1: nat, c2: nat)
    requires small <= large && |v| <= c1 <= c2
    ensures Apply(small, Set(k, v), c1) <= Apply(large, Set(k, v), c2)
  {
    WithoutKeepsPrefix(small, large, k);
    var s, l := [Entry(k, v)] + Without(small, k), [Entry(k, v)] + Without(large, k);
    FitIsLongestFittingPrefix(s, c1, []);
    FitIsLongestFittingPrefix(l, c2, Fit(s, c1));
  }

  /** When an operation keeps the small list a prefix of the large one. */
  predicate Aligned(small: seq<Entry>, large: seq<Entry>, op: Op, c1: nat, c2: nat) {
    match op
    case Get(k) => GetAligned(small, large, k)
    case Set(_, v) => small == [] || |v| <= c1 || |v| > c2
    case Delete(_) => true
  }

  /** A Set that fits only the larger cache breaks inclusion as soon as the smaller cache holds anything. */
  lemma {:induction false} SetKeepsInclusionIff(small: seq<Entry>, large: seq<Entry>, k: string, v: Bytes, c1: nat, c2: nat)
    requires small <= large && Total(small) <= c1 <= c2
    ensures Apply(small, Set(k, v), c1) <= Apply(large, Set(k, v), c2) <==> small == [] || |v| <= c1 || |v| > c2
  {
    if |v| <= c1 {
      SetKeepsInclusion(small, large, k, v, c1, c2);
    } else if |v| <= c2 {
      SetSurvives(large, k, v, c2);
      if small != [] {
        assert |small[0].val| <= Total(small);
      }
    }
  }

  /** Inclusion survives an operation exactly when the operation does not tell the two caches apart. */
  lemma {:induction false} OpKeepsInclusionIff(small: seq<Entry>, large: seq<Entry>, op: Op, c1: nat, c2: nat)
    requires small <= large && Total(small) <= c1 <= c2
    ensures Apply(small, op, c1) <= Apply(large, op, c2) <==> Aligned(small, large, op, c1, c2)
  {
    match op
    case Get(k) => GetKeepsInclusionIff(small, large, k, c1, c2);
    case Set(k, v) => SetKeepsInclusionIff(small, large, k, v, c1, c2);
    case Delete(k) => WithoutKeepsPrefix(small, large, k);
  }

  /** No operation of the run tells the two caches apart. */
  predicate Comparable(ops: seq<Op>, c1: nat, c2: nat) {
    ops == [] ||
    var earlier, op := ops[..|ops| - 1], ops[|ops| - 1];
    Comparable(earlier, c1, c2) && Aligned(Run(earlier, c1), Run(earlier, c2), op, c1, c2)
  }

  /** After every operation of the run the smaller cache's list is a prefix of the larger one's. */
  predicate IncludedAllAlong(ops: seq<Op>, c1: nat, c2: nat) {
    Run(ops, c1) <= Run(ops, c2) && (ops != [] ==> IncludedAllAlong(ops[..|ops| - 1], c1, c2))
  }

  /**
   Bigger caches include smaller ones, all along a run, if and only if every Get hits both caches or misses the
   larger one, and every Set fits the smaller cache or not even the larger, except while the smaller one is empty.
   */
  lemma {:induction false} BiggerCacheIncludesSmallerIff(ops: seq<Op>, c1: nat, c2: nat)
    requires c1 <= c2
    ensures IncludedAllAlong(ops, c1, c2) <==> Comparable(ops, c1, c2)
  {
    if ops != [] {
      var earlier, op := ops[..|ops| - 1], ops[|ops| - 1];
      BiggerCacheIncludesSmallerIff(earlier, c1, c2);
      if IncludedAllAlong(earlier, c1, c2) {
        RunWithinCapacity(earlier, c1);
        OpKeepsInclusionIff(Run(earlier, c1), Run(earlier, c2), op, c1, c2);
      }
    }
  }

  /** In particular the recency list of the smaller cache is a prefix of that of the larger after a comparable run. */
  lemma {:induction false} BiggerCacheIncludesSmaller(ops: seq<Op>, c1: nat, c2: nat)
    requires c1 <= c2 && Comparable(ops, c1, c2)
    ensures Run(ops, c1) <= Run(ops, c2)
  {
    BiggerCacheIncludesSmallerIff(ops, c1, c2);
  }

  // ---------- runs that break inclusion ----------

  lemma {:induction false} RunSnoc(ops: seq<Op>, op: Op, cap: nat)
    ensures Run(ops + [op], cap) == Apply(Run(ops, cap), op, cap)
  {
    assert (ops + [op])[..|ops|] == ops;
  }

  lemma {:induction false} TotalOne(x: Entry)
    ensures Total([x]) == |x.val|
  {
    assert [x][1..] == [];
  }

  /** A first Set that fits. */
  lemma {:induction false} RunOne(a: string, v: Bytes, cap: nat)
    requires |v| <= cap
    ensures Run([Set(a, v)], cap) == [Entry(a, v)]
  {
    RunSnoc([], Set(a, v), cap);
    assert [] + [Set(a, v)] == [Set(a, v)];
    TotalOne(Entry(a, v));
    assert [Entry(a, v)] + [] == [Entry(a, v)];
  }

  /** A second Set that fits, with room for both or not. */
  lemma {:induction false} RunTwo(a: string, b: string, v: Bytes, w: Bytes, cap: nat)
    requires a != b && |v| <= cap && |w| <= cap
    ensures Run([Set(a, v), Set(b, w)], cap)
            == if |v| + |w| <= cap then [Entry(b, w), Entry(a, v)] else [Entry(b, w)]
  {
    var x, y := Entry(a, v), Entry(b, w);
    RunOne(a, v, cap);
    RunSnoc([Set(a, v)], Set(b, w), cap);
    assert [Set(a, v)] + [Set(b, w)] == [Set(a, v), Set(b, w)];
    WithoutAbsent([x], b);
    assert [y] + [x] == [y, x];
    TotalOne(x);
    TotalOne(y);
    TotalAppend([y], [x]);
    assert [y, x][..1] == [y];
    assert Fit([y], cap) == [y];
  }

  /** A Get that only the larger cache answers: two one-byte Sets, then a Get of the first key. */
  lemma {:induction false} GetCanBreakInclusion(a: string, b: string, v: Bytes)
    requires a != b && |v| == 1
    ensures var ops := [Set(a, v), Set(b, v), Get(a)];
            && Run(ops[..2], 1) <= Run(ops[..2], 2)
            && Run(ops, 1) == [Entry(b, v)] && Run(ops, 2) == [Entry(a, v), Entry(b, v)] && !(Run(ops, 1) <= Run(ops, 2))
  {
    var two, ops := [Set(a, v), Set(b, v)], [Set(a, v), Set(b, v), Get(a)];
    var x, y := Entry(a, v), Entry(b, v);
    RunTwo(a, b, v, v, 1);
    RunTwo(a, b, v, v, 2);
    assert two + [Get(a)] == ops && ops[..2] == two;
    RunSnoc(two, Get(a), 1);
    RunSnoc(two, Get(a), 2);
    WithoutAbsent([y], a);
    FindIndex([y, x], a, 1);
    assert [y, x][..1] + [y, x][2..] == [y];
    assert [x] + [y] == [x, y];
  }

  /** A Set that fits only the larger cache, with no Get at all. */
  lemma {:induction false} SetCanBreakInclusion(a: string, b: string, v: Bytes, w: Bytes)
    requires a != b && |v| == 1 && |w| == 2
    ensures var ops := [Set(a, v), Set(b, w)];
            && Run(ops[..1], 1) <= Run(ops[..1], 2)
            && Run(ops, 1) == [Entry(a, v)] && Run(ops, 2) == [Entry(b, w)] && !(Run(ops, 1) <= Run(ops, 2))
  {
    var ops := [Set(a, v), Set(b, w)];
    assert ops[..1] == [Set(a, v)];
    RunOne(a, v, 1);
    RunOne(a, v, 2);
    RunTwo(a, b, v, w, 2);
    RunSnoc([Set(a, v)], Set(b, w), 1);
    assert [Set(a, v)] + [Set(b, w)] == ops;
  }

  /** Runs of Sets and Deletes only, with every value fitting the smaller cache, are comparable. */
  lemma {:induction false} SetDeleteRunsAreIncluded(ops: seq<Op>, c1: nat, c2: nat)
    requires c1 <= c2
    requires forall op | op in ops :: !op.Get? && (op.Set? ==> |op.val| <= c1)
    ensures Run(ops, c1) <= Run(ops, c2)
  {
    SetDeleteRunsAreComparable(ops, c1, c2);
    BiggerCacheIncludesSmaller(ops, c1, c2);
  }

  lemma {:induction false} SetDeleteRunsAreComparable(ops: seq<Op>, c1: nat, c2: nat)
    requires forall op | op in ops :: !op.Get? && (op.Set? ==> |op.val| <= c1)
    ensures Comparable(ops, c1, c2)
  {
    if ops != [] {
      SetDeleteRunsAreComparable(ops[..|ops| - 1], c1, c2);
      assert ops[|ops| - 1] in ops;
    }
  }
}
