/** Strings in lexicographic order, as the listing's ORDER BY and the migration runner's sort have them. */
module Ordering {
  /** Lexicographic order on strings. */
  predicate Less(a: string, b: string) {
    if b == [] then false
    else if a == [] then true
    else if a[0] != b[0] then a[0] < b[0]
    else Less(a[1..], b[1..])
  }

  predicate Ascending(paths: seq<string>) {
    forall i, j :: 0 <= i < j < |paths| ==> Less(paths[i], paths[j])
  }

  predicate NoRepeats(s: seq<string>) {
    forall i, j :: 0 <= i < j < |s| ==> s[i] != s[j]
  }

  lemma {:induction false} LessTotal(a: string, b: string)
    ensures a == b || Less(a, b) || Less(b, a)
  {
    if a != [] && b != [] && a[0] == b[0] {
      LessTotal(a[1..], b[1..]);
      assert a == [a[0]] + a[1..] && b == [b[0]] + b[1..];
    }
  }

  lemma {:induction false} LessTransitive(a: string, b: string, c: string)
    requires Less(a, b) && Less(b, c)
    ensures Less(a, c)
  {
    if a != [] && a[0] == b[0] && b[0] == c[0] {
      LessTransitive(a[1..], b[1..], c[1..]);
    }
  }

  function Insert(x: string, s: seq<string>): seq<string> {
    if s == [] || Less(x, s[0]) then [x] + s else [s[0]] + Insert(x, s[1..])
  }

  /** sort.Strings */
  function Sort(s: seq<string>): seq<string> {
    if s == [] then [] else Insert(s[0], Sort(s[1..]))
  }

  lemma {:induction false} AscendingCons(x: string, s: seq<string>)
    requires Ascending(s) && forall y | y in s :: Less(x, y)
    ensures Ascending([x] + s)
  {
  }

  lemma {:induction false} InsertSpec(x: string, s: seq<string>)
    requires Ascending(s) && x !in s
    ensures Ascending(Insert(x, s)) && multiset(Insert(x, s)) == multiset(s) + multiset{x}
  {
    if s != [] {
      assert s == [s[0]] + s[1..];
      if Less(x, s[0]) {
        forall i | 0 <= i < |s|
          ensures Less(x, s[i])
        {
          if i > 0 {
            LessTransitive(x, s[0], s[i]);
          }
        }
      } else {
        LessTotal(x, s[0]);
        InsertSpec(x, s[1..]);
        forall y | y in Insert(x, s[1..])
          ensures Less(s[0], y)
        {
          assert y in multiset(Insert(x, s[1..]));
          assert y == x || y in s[1..];
        }
        AscendingCons(s[0], Insert(x, s[1..]));
      }
    }
  }

  /** Sorting distinct names gives the same names in strictly ascending order. */
  lemma {:induction false} SortSpec(s: seq<string>)
    requires NoRepeats(s)
    ensures Ascending(Sort(s)) && multiset(Sort(s)) == multiset(s)
  {
    if s != [] {
      SortSpec(s[1..]);
      assert s == [s[0]] + s[1..];
      assert s[0] !in multiset(s[1..]);
      InsertSpec(s[0], Sort(s[1..]));
    }
  }

  /** Strings of one length that agree behind position `n` are ordered by what comes before it. */
  lemma {:induction false} LessPrefix(a: string, b: string, n: nat)
    requires |a| == |b| && n <= |a| && a[n..] == b[n..] && Less(a, b)
    ensures Less(a[..n], b[..n])
  {
    if n == 0 {
      LessIrreflexive(a);
    } else if a[0] == b[0] {
      assert a[1..][n - 1..] == a[n..] && b[1..][n - 1..] == b[n..];
      LessPrefix(a[1..], b[1..], n - 1);
      assert a[1..][..n - 1] == a[..n][1..] && b[1..][..n - 1] == b[..n][1..];
    }
  }

  lemma {:induction false} LessIrreflexive(a: string)
    ensures !Less(a, a)
  {
    if a != [] {
      LessIrreflexive(a[1..]);
    }
  }

  /** Every set of strings can be listed without repeats. */
  lemma {:induction false} Listed(names: set<string>) returns (s: seq<string>)
    ensures NoRepeats(s) && forall x :: x in s <==> x in names
    decreases |names|
  {
    s := [];
    if x :| x in names {
      var rest := Listed(names - {x});
      s := rest + [x];
    }
  }

  /** The strings differ first at position `n`, or the first one ends there. */
  predicate ComesFirst(a: string, b: string, n: nat) {
    n <= |a| && n < |b| && a[..n] == b[..n] && (n == |a| || a[n] < b[n])
  }

  /** One string is less than another exactly if it is a proper prefix of it or smaller at the first difference. */
  lemma {:induction false} LessIff(a: string, b: string)
    ensures Less(a, b) <==> exists n: nat :: ComesFirst(a, b, n)
  {
    if b == [] {
    } else if a == [] || a[0] != b[0] {
      if a == [] || a[0] < b[0] {
        assert ComesFirst(a, b, 0);
      } else {
        forall n: nat
          ensures !ComesFirst(a, b, n)
        {
          if 0 < n <= |a| && n <= |b| {
            assert a[..n][0] == a[0] && b[..n][0] == b[0];
          }
        }
      }
    } else {
      LessIff(a[1..], b[1..]);
      if n: nat :| ComesFirst(a[1..], b[1..], n) {
        assert a[..n + 1] == [a[0]] + a[1..][..n] && b[..n + 1] == [b[0]] + b[1..][..n];
        assert ComesFirst(a, b, n + 1);
      }
      if n: nat :| ComesFirst(a, b, n) {
        assert n > 0;
        assert a[1..][..n - 1] == a[..n][1..] && b[1..][..n - 1] == b[..n][1..];
        assert ComesFirst(a[1..], b[1..], n - 1);
      }
    }
  }
}
