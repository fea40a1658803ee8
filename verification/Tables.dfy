/**
 Selecting rows of a table that is listed in a fixed order, and permutations of row lists.
 */
module Tables {
  import opened Sequences

  function Where<T>(rows: seq<T>, keep: T -> bool): (r: seq<T>)
    ensures |r| <= |rows|
    ensures forall x <- rows :: x in r <==> keep(x)
    ensures forall x <- r :: x in rows && keep(x)
  {
    if rows == [] then [] else
      var rest := Where(rows[1..], keep);
      assert rows == [rows[0]] + rows[1..];
      if keep(rows[0]) then [rows[0]] + rest else rest
  }

  lemma {:induction false} WhereSame<T>(rows: seq<T>, p: T -> bool, q: T -> bool)
    requires forall x <- rows :: p(x) == q(x)
    ensures Where(rows, p) == Where(rows, q)
  {
    if rows != [] {
      assert rows[0] in rows && forall x <- rows[1..] :: x in rows;
      WhereSame(rows[1..], p, q);
    }
  }

  lemma {:induction false} WhereAll<T>(rows: seq<T>, p: T -> bool)
    requires forall x <- rows :: p(x)
    ensures Where(rows, p) == rows
  {
    if rows != [] {
      assert rows[0] in rows && forall x <- rows[1..] :: x in rows;
      WhereAll(rows[1..], p);
    }
  }

  lemma {:induction false} WhereNone<T>(rows: seq<T>, p: T -> bool)
    requires forall x <- rows :: !p(x)
    ensures Where(rows, p) == []
  {
    if rows != [] {
      assert rows[0] in rows && forall x <- rows[1..] :: x in rows;
      WhereNone(rows[1..], p);
    }
  }

  lemma {:induction false} WhereTwice<T>(rows: seq<T>, p: T -> bool, q: T -> bool, both: T -> bool)
    requires forall x <- rows :: both(x) == (p(x) && q(x))
    ensures Where(Where(rows, p), q) == Where(rows, both)
  {
    if rows != [] {
      assert rows[0] in rows && forall x <- rows[1..] :: x in rows;
      WhereTwice(rows[1..], p, q, both);
      if p(rows[0]) {
        assert ([rows[0]] + Where(rows[1..], p))[1..] == Where(rows[1..], p);
      }
    }
  }

  lemma {:induction false} WhereAppend<T>(a: seq<T>, b: seq<T>, p: T -> bool)
    ensures Where(a + b, p) == Where(a, p) + Where(b, p)
  {
    if a == [] {
      assert a + b == b;
    } else {
      assert (a + b)[1..] == a[1..] + b;
      WhereAppend(a[1..], b, p);
    }
  }

  lemma {:induction false} WhereDistinct<T>(rows: seq<T>, p: T -> bool)
    requires Distinct(rows)
    ensures Distinct(Where(rows, p))
  {
    if rows != [] {
      WhereDistinct(rows[1..], p);
      assert rows[0] !in rows[1..];
    }
  }

  lemma {:induction false} WhereMultiset<T>(a: seq<T>, p: T -> bool, x: T)
    ensures multiset(Where(a, p))[x] == if p(x) then multiset(a)[x] else 0
  {
    if a != [] {
      assert a == [a[0]] + a[1..];
      WhereMultiset(a[1..], p, x);
    }
  }

  lemma MembersOf<T>(a: seq<T>, b: seq<T>, x: T)
    requires multiset(a) == multiset(b)
    ensures x in a <==> x in b
  {
    assert x in multiset(a) <==> x in a;
    assert x in multiset(b) <==> x in b;
  }

  lemma DistinctPermutation<T>(a: seq<T>, b: seq<T>)
    requires multiset(a) == multiset(b) && Distinct(b)
    ensures Distinct(a)
  {
    forall i, j | 0 <= i < j < |a| ensures a[i] != a[j] {
      if a[i] == a[j] {
        var x := a[i];
        assert a == a[..j] + [a[j]] + a[j + 1..];
        assert a[..j] == a[..i] + [a[i]] + a[i + 1..j];
        assert multiset(a)[x] >= 2;
        OnceInDistinct(b, x);
        assert false;
      }
    }
  }

  lemma {:induction false} OnceInDistinct<T>(b: seq<T>, x: T)
    requires Distinct(b)
    ensures multiset(b)[x] <= 1
  {
    if b != [] {
      assert b == [b[0]] + b[1..];
      OnceInDistinct(b[1..], x);
      if b[0] == x {
        assert x !in b[1..];
      }
    }
  }

  lemma {:induction false} SetSize<T>(rows: seq<T>)
    requires Distinct(rows)
    ensures |set x | x in rows| == |rows|
  {
    if rows != [] {
      SetSize(rows[1..]);
      assert rows[0] !in rows[1..];
      assert rows == [rows[0]] + rows[1..];
      assert (set x | x in rows) == {rows[0]} + (set x | x in rows[1..]);
    }
  }

  // ---- Sorting ----------------------------------------------------------------------------

  ghost predicate TotalPreorder<T(!new)>(before: (T, T) -> bool) {
    && (forall a, b :: before(a, b) || before(b, a))
    && (forall a, b, c | before(a, b) && before(b, c) :: before(a, c))
  }

  predicate SortedBy<T>(rows: seq<T>, before: (T, T) -> bool) {
    forall i, j | 0 <= i < j < |rows| :: before(rows[i], rows[j])
  }

  /** Stable insertion into a sorted list. */
  function Insert<T>(x: T, sorted: seq<T>, before: (T, T) -> bool): (r: seq<T>)
    ensures multiset(r) == multiset{x} + multiset(sorted)
    ensures |r| == |sorted| + 1
  {
    if sorted == [] || before(x, sorted[0]) then [x] + sorted
    else
      assert sorted == [sorted[0]] + sorted[1..];
      [sorted[0]] + Insert(x, sorted[1..], before)
  }

  lemma {:induction false} InsertSorted<T(!new)>(x: T, sorted: seq<T>, before: (T, T) -> bool)
    requires TotalPreorder(before) && SortedBy(sorted, before)
    ensures SortedBy(Insert(x, sorted, before), before)
  {
    if sorted != [] && !before(x, sorted[0]) {
      InsertSorted(x, sorted[1..], before);
      var r := Insert(x, sorted[1..], before);
      forall y | y in r ensures before(sorted[0], y) {
        assert y in multiset(r);
        assert y == x || y in sorted[1..];
      }
    }
  }
}
