/** Account identifiers and the string order Python's `sorted` uses on them.
    Python compares strings code point by code point, a proper prefix coming first;
    `Less` is that order, and `SortedList` is `sorted(s)` for a set of strings. */
module Accounts {

  type Account = string

  /** A Python value that may be `None`. */
  datatype Option<T> = None | Some(value: T)

  /** Python's `a < b` on str: lexicographic by code point. */
  predicate Less(a: string, b: string)
    decreases |a|
  {
    if |a| == 0 then |b| > 0
    else if |b| == 0 then false
    else a[0] < b[0] || (a[0] == b[0] && Less(a[1..], b[1..]))
  }

  lemma {:induction false} LessIrreflexive(a: string)
    ensures !Less(a, a)
  {
    if |a| > 0 { LessIrreflexive(a[1..]); }
  }

  lemma {:induction false} LessAsymmetric(a: string, b: string)
    ensures !(Less(a, b) && Less(b, a))
  {
    if |a| > 0 && |b| > 0 && a[0] == b[0] { LessAsymmetric(a[1..], b[1..]); }
  }

  lemma {:induction false} LessTransitive(a: string, b: string, c: string)
    requires Less(a, b) && Less(b, c)
    ensures Less(a, c)
    decreases |a|
  {
    if |a| > 0 && a[0] == b[0] && b[0] == c[0] {
      LessTransitive(a[1..], b[1..], c[1..]);
    }
  }

  lemma {:induction false} LessTotal(a: string, b: string)
    ensures a == b || Less(a, b) || Less(b, a)
    decreases |a|
  {
    if |a| > 0 && |b| > 0 && a[0] == b[0] {
      LessTotal(a[1..], b[1..]);
      if a[1..] == b[1..] {
        assert a == [a[0]] + a[1..] && b == [b[0]] + b[1..];
      }
    }
  }

  /** Any two distinct strings are ordered one way and not the other. */
  lemma StrictTotalOrder()
    ensures forall a: string, b: string :: !(Less(a, b) && Less(b, a))
    ensures forall a: string, b: string :: a == b || Less(a, b) || Less(b, a)
    ensures forall a: string, b: string, c: string :: Less(a, b) && Less(b, c) ==> Less(a, c)
  {
    forall a: string, b: string ensures !(Less(a, b) && Less(b, a)) { LessAsymmetric(a, b); }
    forall a: string, b: string ensures a == b || Less(a, b) || Less(b, a) { LessTotal(a, b); }
    forall a: string, b: string, c: string | Less(a, b) && Less(b, c) ensures Less(a, c) {
      LessTransitive(a, b, c);
    }
  }

  predicate IsLeast(m: string, s: set<string>)
  {
    m in s && forall y :: y in s && y != m ==> Less(m, y)
  }

  lemma {:induction false} LeastExists(s: set<string>)
    requires s != {}
    ensures exists m :: IsLeast(m, s)
    decreases |s|
  {
    var x :| x in s;
    if s == {x} {
      assert IsLeast(x, s);
    } else {
      LeastExists(s - {x});
      var m :| IsLeast(m, s - {x});
      LessTotal(x, m);
      if Less(x, m) {
        forall y | y in s && y != x ensures Less(x, y) {
          if y != m { LessTransitive(x, m, y); }
        }
        assert IsLeast(x, s);
      } else {
        assert IsLeast(m, s);
      }
    }
  }

  /** The smallest string of a non-empty set. */
  function MinOf(s: set<string>): (m: string)
    requires s != {}
    ensures m in s
    ensures forall y :: y in s && y != m ==> Less(m, y)
  {
    LeastExists(s);
    StrictTotalOrder();
    var m :| IsLeast(m, s); m
  }

  /** The members of a list, as Python's `set(s)`. */
  function Elems<T>(s: seq<T>): set<T>
  {
    set x | x in s
  }

  predicate NoDup<T(==)>(s: seq<T>)
  {
    forall i, j :: 0 <= i < j < |s| ==> s[i] != s[j]
  }

  lemma NoDupCons<T>(x: T, s: seq<T>)
    requires NoDup(s) && x !in Elems(s)
    ensures NoDup([x] + s)
  {
    forall i, j | 0 <= i < j < |[x] + s| ensures ([x] + s)[i] != ([x] + s)[j] {
      assert ([x] + s)[j] == s[j - 1] && s[j - 1] in Elems(s);
    }
  }

  lemma NoDupSnoc<T>(s: seq<T>, x: T)
    requires NoDup(s) && x !in s
    ensures NoDup(s + [x])
  {
  }

  lemma NoDupTail<T>(s: seq<T>)
    requires NoDup(s) && s != []
    ensures s[0] !in Elems(s[1..]) && NoDup(s[1..])
  {
    assert forall m :: 0 <= m < |s[1..]| ==> s[1..][m] == s[m + 1];
  }

  /** a + (b + c) == (a + b) + c, stated once so that callers need not re-derive it. */
  lemma Assoc<T>(a: seq<T>, b: seq<T>, c: seq<T>)
    ensures a + (b + c) == (a + b) + c
  {
  }

  /** A duplicate-free list has as many members as entries. */
  lemma {:induction false} NoDupCard<T>(s: seq<T>)
    requires NoDup(s)
    ensures |Elems(s)| == |s|
  {
    if s != [] {
      var last := s[|s| - 1];
      NoDupCard(s[..|s| - 1]);
      assert Elems(s) == Elems(s[..|s| - 1]) + {last};
      assert last !in Elems(s[..|s| - 1]);
    }
  }

  /** A subset is no larger than its superset. */
  lemma {:induction false} SubsetCard<T>(a: set<T>, b: set<T>)
    requires a <= b
    ensures |a| <= |b|
  {
    assert b == a + (b - a);
  }

  /** Strictly increasing, hence also free of duplicates. */
  predicate StrictlySorted(s: seq<string>)
  {
    forall i, j :: 0 <= i < j < |s| ==> Less(s[i], s[j])
  }

  /** Python's `sorted(s)` for a set of strings. */
  function SortedList(s: set<string>): (r: seq<string>)
    ensures StrictlySorted(r)
    ensures Elems(r) == s
    ensures |r| == |s|
    decreases |s|
  {
    if s == {} then []
    else
      var m := MinOf(s);
      var rest := SortedList(s - {m});
      SortedConsLeast(s, m, rest);
      [m] + rest
  }

  /** Putting a set's least element in front of a sorted listing of the others lists the set. */
  lemma SortedConsLeast(s: set<string>, m: string, rest: seq<string>)
    requires m in s && forall y :: y in s && y != m ==> Less(m, y)
    requires StrictlySorted(rest) && Elems(rest) == s - {m} && |rest| == |s - {m}|
    ensures StrictlySorted([m] + rest) && Elems([m] + rest) == s && |[m] + rest| == |s|
  {
    ConsLeastSorted(s, m, rest);
    ConsElems(m, rest);
  }

  lemma ConsLeastSorted(s: set<string>, m: string, rest: seq<string>)
    requires forall y :: y in s && y != m ==> Less(m, y)
    requires StrictlySorted(rest) && Elems(rest) == s - {m}
    ensures StrictlySorted([m] + rest)
  {
    var r := [m] + rest;
    forall j | 0 < j < |r| ensures Less(r[0], r[j]) {
      var y := rest[j - 1];
      assert r[0] == m && r[j] == y;
      assert y in Elems(rest);
      assert y in s && y != m;
    }
    forall i, j | 0 < i < j < |r| ensures Less(r[i], r[j]) {
      assert r[i] == rest[i - 1] && r[j] == rest[j - 1];
    }
  }

  lemma ConsElems<T>(x: T, s: seq<T>)
    ensures Elems([x] + s) == {x} + Elems(s)
  {
  }

  lemma StrictlySortedDistinct(s: seq<string>)
    requires StrictlySorted(s)
    ensures forall i, j :: 0 <= i < j < |s| ==> s[i] != s[j]
  {
    forall i, j | 0 <= i < j < |s| ensures s[i] != s[j] { LessIrreflexive(s[i]); }
  }

  lemma SortedHeadLeast(s: seq<string>)
    requires StrictlySorted(s) && s != []
    ensures forall y :: y in Elems(s) && y != s[0] ==> Less(s[0], y)
  {
  }

  /** A set has exactly one strictly sorted listing. */
  lemma {:induction false} SortedListUnique(a: seq<string>, b: seq<string>)
    requires StrictlySorted(a) && StrictlySorted(b)
    requires Elems(a) == Elems(b)
    ensures a == b
    decreases |a|
  {
    assert a != [] ==> a[0] in Elems(a);
    assert b != [] ==> b[0] in Elems(b);
    if a != [] && b != [] {
      assert a[0] in Elems(b) && b[0] in Elems(a);
      SortedHeadLeast(a);
      SortedHeadLeast(b);
      LessAsymmetric(a[0], b[0]);
      assert a[0] == b[0];
      StrictlySortedDistinct(a);
      StrictlySortedDistinct(b);
      assert Elems(a[1..]) == Elems(a) - {a[0]} by {
        forall x | x in Elems(a) - {a[0]} ensures x in Elems(a[1..]) {
          var k :| 0 <= k < |a| && a[k] == x;
        }
      }
      assert Elems(b[1..]) == Elems(b) - {b[0]} by {
        forall x | x in Elems(b) - {b[0]} ensures x in Elems(b[1..]) {
          var k :| 0 <= k < |b| && b[k] == x;
        }
      }
      SortedListUnique(a[1..], b[1..]);
      assert a == [a[0]] + a[1..] && b == [b[0]] + b[1..];
    }
  }

  /** Sorting an already sorted list's elements gives the list back. */
  lemma SortedListOfSorted(s: seq<string>)
    requires StrictlySorted(s)
    ensures SortedList(Elems(s)) == s
  {
    SortedListUnique(SortedList(Elems(s)), s);
  }
}
