/**
 Order-preserving removal from a sequence (Rust's `Vec::retain`), positions, and
 the few facts about them that the queue proofs need.
 */
module Sequences {

  ghost predicate Distinct<T>(q: seq<T>) {
    forall i, j | 0 <= i < j < |q| :: q[i] != q[j]
  }

  /** The elements of `q` that are not in `gone`, in their order. */
  function Keep<T(==, !new)>(q: seq<T>, gone: set<T>): (r: seq<T>)
    ensures |r| <= |q|
    ensures forall x :: x in r <==> x in q && x !in gone
  {
    if q == [] then [] else
      var rest := Keep(q[1..], gone);
      assert q == [q[0]] + q[1..];
      if q[0] in gone then rest else [q[0]] + rest
  }

  /** How many elements of `q` stand before the first `x`. */
  function IndexOf<T(==, !new)>(q: seq<T>, x: T): (k: nat)
    ensures k <= |q|
    ensures k < |q| <==> x in q
    ensures k < |q| ==> q[k] == x
    ensures forall i | 0 <= i < k :: q[i] != x
  {
    if q == [] || q[0] == x then 0 else
      assert q == [q[0]] + q[1..];
      1 + IndexOf(q[1..], x)
  }

  lemma {:induction false} KeepAppend<T(!new)>(a: seq<T>, b: seq<T>, gone: set<T>)
    ensures Keep(a + b, gone) == Keep(a, gone) + Keep(b, gone)
  {
    if a == [] {
      assert a + b == b;
    } else {
      assert (a + b)[1..] == a[1..] + b;
      KeepAppend(a[1..], b, gone);
    }
  }

  lemma {:induction false} KeepKeep<T(!new)>(q: seq<T>, a: set<T>, b: set<T>)
    ensures Keep(Keep(q, a), b) == Keep(q, a + b)
  {
    if q != [] {
      KeepKeep(q[1..], a, b);
      if q[0] !in a {
        assert ([q[0]] + Keep(q[1..], a))[1..] == Keep(q[1..], a);
      }
    }
  }

  lemma {:induction false} KeepAll<T(!new)>(q: seq<T>, gone: set<T>)
    requires forall x | x in gone :: x !in q
    ensures Keep(q, gone) == q
  {
    if q != [] {
      assert q[0] in q;
      forall x | x in gone ensures x !in q[1..] {
        assert x in q[1..] ==> x in q;
      }
      KeepAll(q[1..], gone);
    }
  }

  /** Removal keeps a queue free of repetitions. */
  lemma {:induction false} KeepDistinct<T(!new)>(q: seq<T>, gone: set<T>)
    requires Distinct(q)
    ensures Distinct(Keep(q, gone))
  {
    if q != [] {
      KeepDistinct(q[1..], gone);
      assert q[0] !in q[1..];
    }
  }

  lemma DistinctAppend<T>(q: seq<T>, x: T)
    requires Distinct(q) && x !in q
    ensures Distinct(q + [x])
  {
  }

  /** Removal moves no survivor back. */
  lemma {:induction false} KeepMovesUp<T(!new)>(q: seq<T>, gone: set<T>, x: T)
    requires x in q && x !in gone
    ensures IndexOf(Keep(q, gone), x) <= IndexOf(q, x)
  {
    assert q == [q[0]] + q[1..];
    if q[0] != x {
      KeepMovesUp(q[1..], gone, x);
      if q[0] !in gone {
        assert ([q[0]] + Keep(q[1..], gone))[1..] == Keep(q[1..], gone);
      }
    }
  }

  /** Removal keeps the relative order of the survivors. */
  lemma {:induction false} KeepOrder<T(!new)>(q: seq<T>, gone: set<T>, x: T, y: T)
    requires x in q && x !in gone
    requires y in q && y !in gone
    ensures IndexOf(Keep(q, gone), x) < IndexOf(Keep(q, gone), y) <==> IndexOf(q, x) < IndexOf(q, y)
  {
    assert q == [q[0]] + q[1..];
    var r := Keep(q[1..], gone);
    if q[0] in gone {
      KeepOrder(q[1..], gone, x, y);
    } else if q[0] == x || q[0] == y {
      assert Keep(q, gone)[0] == q[0];
    } else {
      KeepOrder(q[1..], gone, x, y);
      assert Keep(q, gone)[1..] == r;
    }
  }

  lemma {:induction false} IndexOfAppend<T(!new)>(q: seq<T>, z: T, x: T)
    ensures x in q ==> IndexOf(q + [z], x) == IndexOf(q, x)
    ensures x !in q && x == z ==> IndexOf(q + [z], x) == |q|
  {
    if q == [] {
      assert q + [z] == [z];
    } else {
      assert (q + [z])[1..] == q[1..] + [z];
      assert q == [q[0]] + q[1..];
      IndexOfAppend(q[1..], z, x);
    }
  }
}
