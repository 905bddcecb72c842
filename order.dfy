/** Orderings used where the source sorts labels: Python's `sorted` on strings
    (code-point lexicographic order) and pandas' `groupby`, which sorts its
    keys, including tuples of keys, the same way. */
module Order {

  /** `lt` is a strict total order: irreflexive, transitive and trichotomous. */
  ghost predicate StrictTotalOrder<T(!new)>(lt: (T, T) -> bool) {
    && (forall x :: !lt(x, x))
    && (forall x, y, z :: lt(x, y) && lt(y, z) ==> lt(x, z))
    && (forall x, y :: x != y ==> lt(x, y) || lt(y, x))
  }

  /** The set of elements of a sequence, as Python's `set(...)` of a list. */
  function Elements<T>(s: seq<T>): set<T> {
    set x | x in s
  }

  /** Strictly increasing under `lt`, so in particular free of duplicates. */
  predicate StrictlySorted<T>(s: seq<T>, lt: (T, T) -> bool) {
    forall i, j :: 0 <= i < j < |s| ==> lt(s[i], s[j])
  }

  /** Inserts `x` into a strictly sorted sequence unless it is already there. */
  function InsertUnique<T(!new,==)>(x: T, s: seq<T>, lt: (T, T) -> bool): (r: seq<T>)
    requires StrictTotalOrder(lt) && StrictlySorted(s, lt)
    ensures StrictlySorted(r, lt)
    ensures Elements(r) == Elements(s) + {x}
  {
    if s == [] then [x]
    else if x == s[0] then s
    else if lt(x, s[0]) then [x] + s
    else
      var tail := InsertUnique(x, s[1..], lt);
      assert forall k | k in tail :: lt(s[0], k) by {
        forall k | k in tail ensures lt(s[0], k) {
          if k != x {
            assert k in Elements(tail);
            assert k in Elements(s[1..]);
          }
        }
      }
      assert s == [s[0]] + s[1..];
      assert Elements([s[0]] + tail) == {s[0]} + Elements(tail);
      assert Elements(s) == {s[0]} + Elements(s[1..]);
      [s[0]] + tail
  }

  /** `sorted(set(xs))`: the distinct elements of `xs` in increasing order. */
  function SortedUnique<T(!new,==)>(xs: seq<T>, lt: (T, T) -> bool): (r: seq<T>)
    requires StrictTotalOrder(lt)
    ensures StrictlySorted(r, lt)
    ensures Elements(r) == Elements(xs)
  {
    if xs == [] then []
    else
      var r := InsertUnique(xs[0], SortedUnique(xs[1..], lt), lt);
      assert xs == [xs[0]] + xs[1..];
      r
  }

  /** A set has exactly one strictly sorted enumeration. */
  lemma {:induction false} StrictlySortedUnique<T(!new)>(a: seq<T>, b: seq<T>, lt: (T, T) -> bool)
    requires StrictTotalOrder(lt)
    requires StrictlySorted(a, lt) && StrictlySorted(b, lt)
    requires Elements(a) == Elements(b)
    ensures a == b
  {
    if a != [] {
      assert a[0] in Elements(a);
    }
    if b != [] {
      assert b[0] in Elements(b);
    }
    if a != [] && b != [] {
      assert a[0] in b;
      assert b[0] in a;
      assert Elements(a[1..]) == Elements(b[1..]) by {
        forall k | k in a[1..] ensures k in b[1..] {
          var i :| 1 <= i < |a| && a[i] == k;
          assert lt(a[0], k);
          assert k in Elements(a);
          assert k in b;
        }
        forall k | k in b[1..] ensures k in a[1..] {
          var i :| 1 <= i < |b| && b[i] == k;
          assert lt(b[0], k);
          assert k in Elements(b);
          assert k in a;
        }
      }
      StrictlySortedUnique(a[1..], b[1..], lt);
      assert a == [a[0]] + a[1..] && b == [b[0]] + b[1..];
    }
  }

  /** Code-point lexicographic order on strings, as Python compares `str`. */
  function StrLt(a: string, b: string): bool {
    if a == [] then b != []
    else if b == [] then false
    else a[0] < b[0] || (a[0] == b[0] && StrLt(a[1..], b[1..]))
  }

  lemma {:induction false} StrLtIrreflexive(a: string)
    ensures !StrLt(a, a)
  {
    if a != [] { StrLtIrreflexive(a[1..]); }
  }

  lemma {:induction false} StrLtTransitive(a: string, b: string, c: string)
    requires StrLt(a, b) && StrLt(b, c)
    ensures StrLt(a, c)
  {
    if a != [] && b != [] && c != [] && a[0] == b[0] == c[0] {
      StrLtTransitive(a[1..], b[1..], c[1..]);
    }
  }

  lemma {:induction false} StrLtTrichotomous(a: string, b: string)
    requires a != b
    ensures StrLt(a, b) || StrLt(b, a)
  {
    if a != [] && b != [] && a[0] == b[0] {
      assert a == [a[0]] + a[1..] && b == [b[0]] + b[1..];
      StrLtTrichotomous(a[1..], b[1..]);
    }
  }

  lemma StrLtIsStrictTotalOrder()
    ensures StrictTotalOrder(StrLt)
  {
    forall a ensures !StrLt(a, a) { StrLtIrreflexive(a); }
    forall a, b, c | StrLt(a, b) && StrLt(b, c) ensures StrLt(a, c) {
      StrLtTransitive(a, b, c);
    }
    forall a, b | a != b ensures StrLt(a, b) || StrLt(b, a) {
      StrLtTrichotomous(a, b);
    }
  }

  /** Lexicographic order on (KO, Taxon) keys, as a two-key `groupby` sorts them. */
  function PairLt(p: (string, string), q: (string, string)): bool {
    StrLt(p.0, q.0) || (p.0 == q.0 && StrLt(p.1, q.1))
  }

  lemma PairLtIsStrictTotalOrder()
    ensures StrictTotalOrder(PairLt)
  {
    StrLtIsStrictTotalOrder();
  }
}
