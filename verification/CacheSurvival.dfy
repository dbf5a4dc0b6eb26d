/**
 Exactly which keys a cache still holds after a run: the value of a key, together with the values of all keys used
 since its own last use, has fitted the capacity ever since.
 */
module CacheSurvival {
  import opened Common
  import opened RecencyList

  // ---------- what each operation does to the list ----------

  /** A Delete takes out its key and leaves the lookups of all other keys, and their order, as they were. */
  lemma {:induction false} DeleteKeepsOthers(l: seq<Entry>, k: string, cap: nat)
    requires Distinct(l)
    ensures var r := Apply(l, Delete(k), cap);
            && Find(r, k) == None && (forall other | other != k :: Find(r, other) == Find(l, other))
            && (Find(l, k) == None ==> r == l)
            && (forall i :: 0 <= i < |l| && l[i].key == k ==> r == l[..i] + l[i + 1..])
  {
    WithoutFacts(l, k);
    forall other | other != k
      ensures Find(Without(l, k), other) == Find(l, other)
    {
      FindWithoutOther(l, k, other);
    }
    FindSome(l, k);
    if Find(l, k) == None {
      WithoutAbsent(l, k);
    }
    forall i | 0 <= i < |l| && l[i].key == k
      ensures Without(l, k) == l[..i] + l[i + 1..]
    {
      FindIndex(l, k, i);
    }
  }

  /** A Set that fits puts its entry in front of the others and keeps exactly the prefixes that fit; another does nothing. */
  lemma {:induction false} SetKeepsWhatFits(l: seq<Entry>, k: string, v: Bytes, cap: nat, p: seq<Entry>)
    requires p <= [Entry(k, v)] + Without(l, k)
    ensures |v| > cap ==> Apply(l, Set(k, v), cap) == l
    ensures |v| <= cap ==> && Apply(l, Set(k, v), cap) <= [Entry(k, v)] + Without(l, k)
                           && (p <= Apply(l, Set(k, v), cap) <==> Total(p) <= cap)
  {
    FitIsLongestFittingPrefix([Entry(k, v)] + Without(l, k), cap, p);
  }

  /** A Get changes no lookup; a hit comes to the front, a miss changes nothing. */
  lemma {:induction false} GetKeepsAll(l: seq<Entry>, k: string, cap: nat)
    requires Distinct(l)
    ensures var r := Apply(l, Get(k), cap);
            && (forall other :: Find(r, other) == Find(l, other))
            && (Find(l, k) == None ==> r == l)
            && (Find(l, k) != None ==> r != [] && r[0].key == k && r[1..] == Without(l, k))
  {
    if Find(l, k).Some? {
      var r := [Entry(k, Find(l, k).value)] + Without(l, k);
      assert r[1..] == Without(l, k);
      forall other
        ensures Find(r, other) == Find(l, other)
      {
        if other != k {
          FindWithoutOther(l, k, other);
        }
      }
    }
  }

  // ---------- everything by last use ----------

  /** Every key with a fitting Set and no later Delete, most recently used first, evicted or not. */
  function Stack(ops: seq<Op>, cap: nat): seq<Entry> {
    if ops == [] then []
    else
      var op, earlier := ops[|ops| - 1], ops[..|ops| - 1];
      var l := Stack(earlier, cap);
      match op
      case Set(k, v) => if |v| > cap then l else [Entry(k, v)] + Without(l, k)
      case Get(k) =>
        if Find(Run(earlier, cap), k) == None || Find(l, k) == None then l
        else [Entry(k, Find(l, k).value)] + Without(l, k)
      case Delete(k) => Without(l, k)
  }

  /** The list up to and including the key. */
  function Through(l: seq<Entry>, k: string): seq<Entry> {
    if l == [] then [] else if l[0].key == k then [l[0]] else [l[0]] + Through(l[1..], k)
  }

  /** Since its last use, the key and the keys used after it have always fitted. */
  predicate Survives(ops: seq<Op>, k: string, cap: nat) {
    ops != [] &&
    var op, earlier := ops[|ops| - 1], ops[..|ops| - 1];
    if op.Set? && op.key == k && |op.val| <= cap then true
    else if op.Delete? && op.key == k then false
    else Survives(earlier, k, cap) && Total(Through(Stack(ops, cap), k)) <= cap
  }

  lemma {:induction false} ThroughPrefix(a: seq<Entry>, b: seq<Entry>, k: string)
    requires a <= b && Find(a, k) != None
    ensures Through(a, k) == Through(b, k) && Through(a, k) <= a && Find(Through(a, k), k) != None
  {
    if a[0].key != k {
      ThroughPrefix(a[1..], b[1..], k);
      assert Through(a, k)[1..] == Through(a[1..], k);
      assert a == [a[0]] + a[1..];
    }
  }

  /** A prefix has the key exactly if it reaches through it. */
  lemma {:induction false} PrefixHasKeyIff(p: seq<Entry>, l: seq<Entry>, k: string)
    requires p <= l && Find(l, k) != None
    ensures Find(p, k) != None <==> Through(l, k) <= p
  {
    if Find(p, k) != None {
      ThroughPrefix(p, l, k);
    } else {
      ThroughPrefix(l, l, k);
      if Through(l, k) <= p {
        FindPrefix(Through(l, k), p, k);
      }
    }
  }

  lemma {:induction false} RunIsPrefix(ops: seq<Op>, cap: nat)
    ensures Run(ops, cap) <= Stack(ops, cap)
  {
    if ops != [] {
      var op, earlier := ops[|ops| - 1], ops[..|ops| - 1];
      RunIsPrefix(earlier, cap);
      var l, s := Run(earlier, cap), Stack(earlier, cap);
      WithoutKeepsPrefix(l, s, op.key);
      FindPrefix(l, s, op.key);
      if op.Set? {
        FitIsLongestFittingPrefix([Entry(op.key, op.val)] + Without(l, op.key), cap, []);
      }
    }
  }

  /** What is in the cache reaches through keys that fit. */
  lemma {:induction false} HeldFits(ops: seq<Op>, k: string, cap: nat)
    requires Find(Run(ops, cap), k) != None
    ensures Total(Through(Stack(ops, cap), k)) <= cap
  {
    RunIsPrefix(ops, cap);
    RunWithinCapacity(ops, cap);
    ThroughPrefix(Run(ops, cap), Stack(ops, cap), k);
    TotalPrefix(Through(Run(ops, cap), k), Run(ops, cap));
  }

  lemma {:induction false} FindCons(e: Entry, l: seq<Entry>, k: string)
    ensures Find([e] + l, k) == if e.key == k then Some(e.val) else Find(l, k)
    ensures Through([e] + l, k) == if e.key == k then [e] else [e] + Through(l, k)
  {
    assert ([e] + l)[1..] == l;
  }

  /** A Set of another key keeps this one exactly if both, and the keys between them, fit. */
  lemma {:induction false} SetKeepsIff(ops: seq<Op>, j: string, v: Bytes, k: string, cap: nat)
    requires |v| <= cap && j != k && Find(Run(ops, cap), k) != None
    ensures Find(Apply(Run(ops, cap), Set(j, v), cap), k) != None <==>
              Total(Through([Entry(j, v)] + Without(Stack(ops, cap), j), k)) <= cap
  {
    var l, s := Run(ops, cap), Stack(ops, cap);
    RunIsPrefix(ops, cap);
    WithoutKeepsPrefix(l, s, j);
    FindWithoutOther(l, j, k);
    var all, full := [Entry(j, v)] + Without(l, j), [Entry(j, v)] + Without(s, j);
    FindCons(Entry(j, v), Without(l, j), k);
    ThroughPrefix(all, full, k);
    FitIsLongestFittingPrefix(all, cap, Through(all, k));
    PrefixHasKeyIff(Fit(all, cap), all, k);
  }

  lemma {:induction false} NeverFound(ops: seq<Op>, op: Op, k: string, cap: nat)
    requires Find(Run(ops, cap), k) == None && !(op.Set? && op.key == k && |op.val| <= cap)
    ensures Find(Apply(Run(ops, cap), op, cap), k) == None
  {
    ApplyFind(Run(ops, cap), op, cap, k);
  }

  /** Operations that evict nothing keep the key. */
  lemma {:induction false} OthersKeep(l: seq<Entry>, op: Op, k: string, cap: nat)
    requires Distinct(l) && Find(l, k) != None
    requires op.Get? || (op.Set? && |op.val| > cap) || (op.Delete? && op.key != k)
    ensures Find(Apply(l, op, cap), k) == Find(l, k)
  {
    match op
    case Get(g) => GetKeepsAll(l, g, cap);
    case Set(_, _) =>
    case Delete(g) => DeleteKeepsOthers(l, g, cap);
  }

  /**
   Exactly which keys are found, after every run: those with a fitting Set and no later Delete whose value, together
   with the values of all keys used since their own last use, has fitted the capacity ever since.
   */
  lemma {:induction false} FoundIff(ops: seq<Op>, k: string, cap: nat)
    ensures Find(Run(ops, cap), k) != None <==> Survives(ops, k, cap)
  {
    if ops != [] {
      var op, earlier := ops[|ops| - 1], ops[..|ops| - 1];
      FoundIff(earlier, k, cap);
      RunWithinCapacity(earlier, cap);
      if op.Set? && op.key == k && |op.val| <= cap {
        SetSurvives(Run(earlier, cap), k, op.val, cap);
      } else if op.Delete? && op.key == k {
        DeleteKeepsOthers(Run(earlier, cap), k, cap);
      } else if Find(Run(earlier, cap), k) == None {
        NeverFound(earlier, op, k, cap);
      } else if op.Set? && |op.val| <= cap {
        SetKeepsIff(earlier, op.key, op.val, k, cap);
      } else {
        OthersKeep(Run(earlier, cap), op, k, cap);
        HeldFits(ops, k, cap);
      }
    }
  }

  // ---------- the stack is ordered by last use ----------

  /** The position of the last operation that used the key: a fitting Set, or a Get that hit; -1 if there is none. */
  function LastUse(ops: seq<Op>, k: string, cap: nat): int {
    if ops == [] then -1
    else
      var op, earlier := ops[|ops| - 1], ops[..|ops| - 1];
      if op.key == k && ((op.Set? && |op.val| <= cap) || (op.Get? && Find(Run(earlier, cap), k) != None)) then |ops| - 1
      else LastUse(earlier, k, cap)
  }

  /** The stack has a key exactly if its last fitting Set was not followed by a Delete, with that value. */
  lemma {:induction false} StackHas(ops: seq<Op>, k: string, cap: nat)
    ensures Find(Stack(ops, cap), k) == LastWrite(ops, k, cap)
  {
    if ops != [] {
      var op, earlier := ops[|ops| - 1], ops[..|ops| - 1];
      StackHas(earlier, k, cap);
      var l := Stack(earlier, cap);
      WithoutFacts(l, op.key);
      if op.key != k {
        FindWithoutOther(l, op.key, k);
      }
      if op.Set? {
        FindCons(Entry(op.key, op.val), Without(l, op.key), k);
      } else if op.Get? && Find(l, op.key) != None {
        FindCons(Entry(op.key, Find(l, op.key).value), Without(l, op.key), k);
      }
    }
  }

  /** When each key was last used. */
  function Uses(ops: seq<Op>, cap: nat): string -> int {
    k => LastUse(ops, k, cap)
  }

  /** The keys of the list were used in this order, the latest first, all of them before `n`. */
  ghost predicate ByUse(l: seq<Entry>, use: string -> int, n: int) {
    && (forall i :: 0 <= i < |l| ==> use(l[i].key) < n)
    && (forall i, j :: 0 <= i < j < |l| ==> use(l[i].key) > use(l[j].key))
  }

  lemma {:induction false} ByUseCons(e: Entry, l: seq<Entry>, use: string -> int, n: int)
    requires ByUse(l, use, use(e.key)) && use(e.key) < n
    ensures ByUse([e] + l, use, n)
  {
  }

  lemma {:induction false} ByUseTail(l: seq<Entry>, use: string -> int, n: int)
    requires ByUse(l, use, n) && l != []
    ensures ByUse(l[1..], use, use(l[0].key))
  {
  }

  lemma {:induction false} WithoutByUse(l: seq<Entry>, k: string, use: string -> int, n: int)
    requires ByUse(l, use, n)
    ensures ByUse(Without(l, k), use, n)
  {
    if l != [] {
      ByUseTail(l, use, n);
      WithoutByUse(l[1..], k, use, use(l[0].key));
      if l[0].key != k {
        ByUseCons(l[0], Without(l[1..], k), use, n);
      }
    }
  }

  /** Keys of which nothing changed keep their order. */
  lemma {:induction false} SameByUse(l: seq<Entry>, use: string -> int, use2: string -> int, n: int, n2: int)
    requires ByUse(l, use, n) && n <= n2 && forall e | e in l :: use2(e.key) == use(e.key)
    ensures ByUse(l, use2, n2)
  {
    assert forall i :: 0 <= i < |l| ==> l[i] in l;
  }

  /** The operation uses the key. */
  predicate UsesKey(ops: seq<Op>, op: Op, cap: nat) {
    (op.Set? && |op.val| <= cap) || (op.Get? && Find(Run(ops, cap), op.key) != None)
  }

  lemma {:induction false} UsesSnoc(ops: seq<Op>, op: Op, k: string, cap: nat)
    ensures LastUse(ops + [op], k, cap) == if op.key == k && UsesKey(ops, op, cap) then |ops| else LastUse(ops, k, cap)
  {
    assert (ops + [op])[..|ops|] == ops;
  }

  lemma {:induction false} StackSnoc(ops: seq<Op>, op: Op, cap: nat)
    ensures var l, next := Stack(ops, cap), Stack(ops + [op], cap);
            if UsesKey(ops, op, cap) then next != [] && next == [Entry(op.key, next[0].val)] + Without(l, op.key)
            else next == l || next == Without(l, op.key)
  {
    assert (ops + [op])[..|ops|] == ops;
    RunIsPrefix(ops, cap);
    FindPrefix(Run(ops, cap), Stack(ops, cap), op.key);
  }

  /**
   The more recently used, the closer to the front: the keys in front of a key are those used since its last use,
   so what Survives counts is the key and exactly those.
   */
  lemma {:induction false} StackIsByLastUse(ops: seq<Op>, cap: nat)
    ensures ByUse(Stack(ops, cap), Uses(ops, cap), |ops|)
  {
    if ops != [] {
      var op, earlier := ops[|ops| - 1], ops[..|ops| - 1];
      assert ops == earlier + [op];
      StackIsByLastUse(earlier, cap);
      StackSnoc(earlier, op, cap);
      NextByUse(earlier, op, Stack(earlier, cap), Stack(ops, cap), cap);
    }
  }

  lemma {:induction false} NextByUse(ops: seq<Op>, op: Op, l: seq<Entry>, next: seq<Entry>, cap: nat)
    requires ByUse(l, Uses(ops, cap), |ops|)
    requires if UsesKey(ops, op, cap) then next != [] && next == [Entry(op.key, next[0].val)] + Without(l, op.key)
             else next == l || next == Without(l, op.key)
    ensures ByUse(next, Uses(ops + [op], cap), |ops| + 1)
  {
    var use, use2, rest := Uses(ops, cap), Uses(ops + [op], cap), Without(l, op.key);
    WithoutByUse(l, op.key, use, |ops|);
    WithoutFacts(l, op.key);
    forall k
      ensures use2(k) == if op.key == k && UsesKey(ops, op, cap) then |ops| else use(k)
    {
      UsesSnoc(ops, op, k, cap);
    }
    SameByUse(rest, use, use2, |ops|, |ops|);
    if UsesKey(ops, op, cap) {
      ByUseCons(Entry(op.key, next[0].val), rest, use2, |ops| + 1);
    } else {
      SameByUse(next, use, use2, |ops|, |ops| + 1);
    }
  }
}
