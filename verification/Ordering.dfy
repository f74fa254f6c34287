/** Python's tuple order and its stable `sorted(rows, key=...)`.

    A sort key is a tuple of totally ordered scalars, represented by reals. */
module Ordering {

  type Key = seq<real>

  /** Lexicographic comparison of tuples; a proper prefix comes first. */
  predicate LexLeq(a: Key, b: Key)
    decreases |a|
  {
    a == [] || (b != [] && (a[0] < b[0] || (a[0] == b[0] && LexLeq(a[1..], b[1..]))))
  }

  lemma LexStep(a: Key, b: Key)
    requires a != [] && b != []
    ensures LexLeq(a, b) <==> a[0] < b[0] || (a[0] == b[0] && LexLeq(a[1..], b[1..]))
  {
  }

  lemma {:induction false} LexTotal(a: Key, b: Key)
    ensures LexLeq(a, b) || LexLeq(b, a)
    decreases |a|
  {
    if a != [] && b != [] && a[0] == b[0] {
      LexTotal(a[1..], b[1..]);
    }
  }

  lemma {:induction false} LexTransitive(a: Key, b: Key, c: Key)
    requires LexLeq(a, b) && LexLeq(b, c)
    ensures LexLeq(a, c)
    decreases |a|
  {
    if a != [] && a[0] == b[0] == c[0] {
      LexTransitive(a[1..], b[1..], c[1..]);
    }
  }

  lemma {:induction false} LexAntisymmetric(a: Key, b: Key)
    requires LexLeq(a, b) && LexLeq(b, a)
    ensures a == b
    decreases |a|
  {
    if a != [] {
      LexAntisymmetric(a[1..], b[1..]);
      assert a == [a[0]] + a[1..] && b == [b[0]] + b[1..];
    }
  }

  /** Whatever lies between two keys that agree on their first n places agrees with them there. */
  lemma {:induction false} LexBetween(a: Key, b: Key, c: Key, n: nat)
    requires n <= |a| && n <= |b| && n <= |c|
    requires LexLeq(a, b) && LexLeq(b, c)
    requires a[..n] == c[..n]
    ensures b[..n] == a[..n]
    decreases n
  {
    if n > 0 {
      assert a[0] == a[..n][0] == c[..n][0] == c[0];
      assert a[1..][..n - 1] == a[..n][1..] && c[1..][..n - 1] == c[..n][1..];
      LexBetween(a[1..], b[1..], c[1..], n - 1);
      assert b[..n] == [b[0]] + b[1..][..n - 1];
      assert a[..n] == [a[0]] + a[1..][..n - 1];
    }
  }

  function Insert<T>(x: T, rows: seq<T>, key: T -> Key): seq<T> {
    if rows == [] then [x]
    else if LexLeq(key(x), key(rows[0])) then [x] + rows
    else [rows[0]] + Insert(x, rows[1..], key)
  }

  function SortBy<T>(rows: seq<T>, key: T -> Key): seq<T> {
    if rows == [] then [] else Insert(rows[0], SortBy(rows[1..], key), key)
  }

  ghost predicate Before<T>(x: T, rows: seq<T>, key: T -> Key) {
    forall y :: y in rows ==> LexLeq(key(x), key(y))
  }

  ghost predicate Sorted<T>(rows: seq<T>, key: T -> Key) {
    rows == [] || (Before(rows[0], rows[1..], key) && Sorted(rows[1..], key))
  }

  lemma {:induction false} SortedPairs<T>(rows: seq<T>, key: T -> Key, i: nat, j: nat)
    requires Sorted(rows, key) && i < j < |rows|
    ensures LexLeq(key(rows[i]), key(rows[j]))
  {
    if i == 0 {
      assert rows[1..][j - 1] == rows[j];
    } else {
      SortedPairs(rows[1..], key, i - 1, j - 1);
    }
  }

  lemma {:induction false} InsertElements<T>(x: T, rows: seq<T>, key: T -> Key)
    ensures multiset(Insert(x, rows, key)) == multiset(rows) + multiset{x}
  {
    if rows != [] {
      assert rows == [rows[0]] + rows[1..];
      if !LexLeq(key(x), key(rows[0])) {
        InsertElements(x, rows[1..], key);
      }
    }
  }

  lemma {:induction false} InsertSorts<T>(x: T, rows: seq<T>, key: T -> Key)
    requires Sorted(rows, key)
    ensures Sorted(Insert(x, rows, key), key)
  {
    if rows != [] {
      if LexLeq(key(x), key(rows[0])) {
        forall y | y in rows ensures LexLeq(key(x), key(y)) {
          if y != rows[0] {
            assert y in rows[1..];
            LexTransitive(key(x), key(rows[0]), key(y));
          }
        }
        assert ([x] + rows)[1..] == rows;
      } else {
        LexTotal(key(x), key(rows[0]));
        InsertSorts(x, rows[1..], key);
        InsertElements(x, rows[1..], key);
        var rest := Insert(x, rows[1..], key);
        forall y | y in rest ensures LexLeq(key(rows[0]), key(y)) {
          assert y in multiset(rest);
          assert y == x || y in multiset(rows[1..]);
        }
        assert Insert(x, rows, key)[1..] == rest;
      }
    }
  }

  /** `sorted` returns the same rows, in key order. */
  lemma {:induction false} SortByCorrect<T>(rows: seq<T>, key: T -> Key)
    ensures Sorted(SortBy(rows, key), key)
    ensures multiset(SortBy(rows, key)) == multiset(rows)
    ensures |SortBy(rows, key)| == |rows|
  {
    if rows != [] {
      SortByCorrect(rows[1..], key);
      InsertSorts(rows[0], SortBy(rows[1..], key), key);
      InsertElements(rows[0], SortBy(rows[1..], key), key);
      assert rows == [rows[0]] + rows[1..];
    }
    assert |multiset(SortBy(rows, key))| == |multiset(rows)|;
  }

  lemma SortSorted<T>(rows: seq<T>, key: T -> Key)
    ensures Sorted(SortBy(rows, key), key)
  {
    SortByCorrect(rows, key);
  }

  lemma SortMembers<T>(rows: seq<T>, key: T -> Key)
    ensures forall x :: x in SortBy(rows, key) <==> x in rows
  {
    SortByCorrect(rows, key);
    forall x ensures x in SortBy(rows, key) <==> x in rows {
      assert x in SortBy(rows, key) <==> x in multiset(SortBy(rows, key));
      assert x in rows <==> x in multiset(rows);
    }
  }

  lemma SortedHeadLeast<T>(a: seq<T>, x: T, key: T -> Key)
    requires Sorted(a, key) && x in a
    ensures LexLeq(key(a[0]), key(x))
  {
    if x == a[0] {
      LexTotal(key(x), key(x));
    } else {
      assert x in a[1..];
    }
  }

  lemma SortedHeadsEqual<T>(a: seq<T>, b: seq<T>, key: T -> Key)
    requires Sorted(a, key) && Sorted(b, key) && a != [] && b != []
    requires multiset(a) == multiset(b)
    requires forall x, y :: x in a && y in a && key(x) == key(y) ==> x == y
    ensures a[0] == b[0]
  {
    assert b[0] in multiset(a) && a[0] in multiset(b);
    SortedHeadLeast(a, b[0], key);
    SortedHeadLeast(b, a[0], key);
    LexAntisymmetric(key(a[0]), key(b[0]));
  }

  lemma TailElements<T>(a: seq<T>)
    requires a != []
    ensures multiset(a[1..]) == multiset(a) - multiset{a[0]}
    ensures forall x :: x in a[1..] ==> x in a
  {
    assert a == [a[0]] + a[1..];
  }

  /** When equal keys mean equal rows, key order leaves only one arrangement. */
  lemma {:induction false} SortedUnique<T>(a: seq<T>, b: seq<T>, key: T -> Key)
    requires Sorted(a, key) && Sorted(b, key)
    requires multiset(a) == multiset(b)
    requires forall x, y :: x in a && y in a && key(x) == key(y) ==> x == y
    ensures a == b
  {
    assert |a| == |multiset(a)| == |multiset(b)| == |b|;
    if a != [] {
      SortedHeadsEqual(a, b, key);
      TailElements(a);
      TailElements(b);
      SortedUnique(a[1..], b[1..], key);
      assert a == [a[0]] + a[1..] && b == [b[0]] + b[1..];
    }
  }

  /** Sorting forgets the order in which rows arrive. */
  lemma SortOrderIndependent<T>(a: seq<T>, b: seq<T>, key: T -> Key)
    requires multiset(a) == multiset(b)
    requires forall x, y :: x in a && y in a && key(x) == key(y) ==> x == y
    ensures SortBy(a, key) == SortBy(b, key)
  {
    SortByCorrect(a, key);
    SortByCorrect(b, key);
    var s := SortBy(a, key);
    forall x, y | x in s && y in s && key(x) == key(y) ensures x == y {
      assert x in multiset(s) && y in multiset(s);
      assert x in multiset(a) && y in multiset(a);
    }
    SortedUnique(s, SortBy(b, key), key);
  }
}
