/**
 The table of positioned group-binding rows, as a representation of one ordered list
 of bindings per group.
 */
module GroupBindings {
  import opened Common
  import opened Sequences
  import opened Tables

  datatype Row = Row(group: Id, binding: Id, position: nat)

  function InGroups(groups: set<Id>): Row -> bool {
    (r: Row) => r.group in groups
  }

  function OutOfGroup(g: Id): Row -> bool {
    (r: Row) => r.group != g
  }

  function NotBinding(b: Id): Row -> bool {
    (r: Row) => r.binding != b
  }

  function RowsOf(g: Id, bindings: seq<Id>, from: nat): seq<Row> {
    seq(|bindings|, i requires 0 <= i < |bindings| => Row(g, bindings[i], from + i))
  }

  // ---- Operations on the table ----------------------------------------------------------

  /** Replaces a group's rows; a repeated binding violates the table's uniqueness and rolls back. */
  function Save(t: seq<Row>, g: Id, bindings: seq<Id>): (seq<Row>, bool) {
    if HasRepeat(bindings) then (t, false) else (Where(t, OutOfGroup(g)) + RowsOf(g, bindings, 0), true)
  }

  predicate HasRepeat(q: seq<Id>) {
    exists i, j :: 0 <= i < j < |q| && q[i] == q[j]
  }

  function Delete(t: seq<Row>, g: Id): seq<Row> {
    Where(t, OutOfGroup(g))
  }

  function Remove(t: seq<Row>, b: Id): seq<Row> {
    Where(t, NotBinding(b))
  }

  // ---- Reading ------------------------------------------------------------------------------

  function Bindings(rows: seq<Row>): seq<Id> {
    seq(|rows|, i requires 0 <= i < |rows| => rows[i].binding)
  }

  predicate Before(a: Row, b: Row) {
    a.group < b.group || (a.group == b.group && a.position <= b.position)
  }

  predicate Sorted(rows: seq<Row>) {
    SortedBy(rows, Before)
  }

  /** What the database may return for an ordered query over `groups`: any ordered permutation. */
  ghost predicate Scan(t: seq<Row>, groups: set<Id>, rows: seq<Row>) {
    multiset(rows) == multiset(Where(t, InGroups(groups))) && Sorted(rows)
  }

  /** In table order each group's rows have strictly increasing positions. */
  ghost predicate Ascending(t: seq<Row>) {
    forall i, j | 0 <= i < j < |t| && t[i].group == t[j].group :: t[i].position < t[j].position
  }

  /** The ordered list a group's rows stand for. */
  function Listing(t: seq<Row>, g: Id): seq<Id> {
    Bindings(Where(t, InGroups({g})))
  }

  lemma {:induction false} WhereAscending(t: seq<Row>, p: Row -> bool)
    requires Ascending(t)
    ensures Ascending(Where(t, p))
  {
    if t != [] {
      FirstIsLowest(t);
      TailOrder(t);
      WhereAscending(t[1..], p);
      if p(t[0]) {
        AscendingCons(t[0], Where(t[1..], p));
      }
    }
  }

  lemma FirstIsLowest(t: seq<Row>)
    requires Ascending(t) && t != []
    ensures forall r <- t[1..] | r.group == t[0].group :: t[0].position < r.position
  {
  }

  lemma AscendingCons(r: Row, rest: seq<Row>)
    requires Ascending(rest) && forall x <- rest | x.group == r.group :: r.position < x.position
    ensures Ascending([r] + rest)
  {
  }

  ghost predicate Uniform(rows: seq<Row>) {
    forall i, j | 0 <= i < j < |rows| :: rows[i].group == rows[j].group
  }

  /** A sorted list starts with the row of least position. */
  lemma SameHead(a: seq<Row>, b: seq<Row>)
    requires multiset(a) == multiset(b) && a != [] && b != [] && Sorted(a) && Ascending(b) && Uniform(b)
    ensures a[0] == b[0]
  {
    MembersOf(a, b, b[0]);
    MembersOf(a, b, a[0]);
    assert a[0] in a && b[0] in b;
    var i :| 0 <= i < |b| && b[i] == a[0];
    var j :| 0 <= j < |a| && a[j] == b[0];
    assert j > 0 ==> Before(a[0], a[j]);
    assert i > 0 ==> b[0].group == b[i].group && b[0].position < b[i].position;
  }

  lemma SameTail(a: seq<Row>, b: seq<Row>)
    requires multiset(a) == multiset(b) && a != [] && b != [] && a[0] == b[0]
    ensures multiset(a[1..]) == multiset(b[1..])
  {
    assert a == [a[0]] + a[1..] && b == [b[0]] + b[1..];
    assert multiset(a[1..]) == multiset(a) - multiset{a[0]};
    assert multiset(b[1..]) == multiset(b) - multiset{b[0]};
  }

  lemma TailOrder(a: seq<Row>)
    requires a != []
    ensures Sorted(a) ==> Sorted(a[1..])
    ensures Ascending(a) ==> Ascending(a[1..])
    ensures Uniform(a) ==> Uniform(a[1..])
  {
    var t := a[1..];
    assert forall i | 0 <= i < |t| :: t[i] == a[i + 1];
  }

  lemma SameLength(a: seq<Row>, b: seq<Row>)
    requires multiset(a) == multiset(b)
    ensures |a| == |b|
  {
    assert |multiset(a)| == |a| && |multiset(b)| == |b|;
  }

  /** Two sorted permutations of rows with distinct positions are the same list. */
  lemma {:induction false} SortedUnique(a: seq<Row>, b: seq<Row>)
    requires multiset(a) == multiset(b) && Sorted(a) && Ascending(b) && Uniform(b)
    ensures a == b
    decreases |a|
  {
    SameLength(a, b);
    if a != [] {
      SameHead(a, b);
      SameTail(a, b);
      TailOrder(a);
      TailOrder(b);
      SortedUnique(a[1..], b[1..]);
      assert a == [a[0]] + a[1..] && b == [b[0]] + b[1..];
    }
  }

  lemma OneGroupUniform(t: seq<Row>, g: Id)
    ensures Uniform(Where(t, InGroups({g})))
  {
    var rows := Where(t, InGroups({g}));
    forall i | 0 <= i < |rows| ensures rows[i].group == g {
      assert rows[i] in rows;
    }
  }

  /** Reading one group returns its list, whichever ordered scan the database produces. */
  lemma ReadIsListing(t: seq<Row>, g: Id, rows: seq<Row>)
    requires Ascending(t) && Scan(t, {g}, rows)
    ensures Bindings(rows) == Listing(t, g)
  {
    WhereAscending(t, InGroups({g}));
    OneGroupUniform(t, g);
    SortedUnique(rows, Where(t, InGroups({g})));
  }

  // ---- The batch read -------------------------------------------------------------------------

  /** The grouping loop: each row appended to its group's entry. */
  function Grouped(rows: seq<Row>): map<Id, seq<Id>> {
    if rows == [] then map[] else
      var rest, r := Grouped(rows[..|rows| - 1]), rows[|rows| - 1];
      rest[r.group := (if r.group in rest then rest[r.group] else []) + [r.binding]]
  }

  lemma {:induction false} GroupedAt(rows: seq<Row>, g: Id)
    ensures g in Grouped(rows) <==> Where(rows, InGroups({g})) != []
    ensures g in Grouped(rows) ==> Grouped(rows)[g] == Bindings(Where(rows, InGroups({g})))
    decreases |rows|
  {
    if rows != [] {
      var n := |rows| - 1;
      assert rows == rows[..n] + [rows[n]];
      WhereAppend(rows[..n], [rows[n]], InGroups({g}));
      assert [rows[n]][1..] == [];
      GroupedAt(rows[..n], g);
    }
  }

  lemma {:induction false} WhereSorted(rows: seq<Row>, p: Row -> bool)
    requires Sorted(rows)
    ensures Sorted(Where(rows, p))
  {
    if rows != [] {
      WhereSorted(rows[1..], p);
      forall r <- Where(rows[1..], p) ensures Before(rows[0], r) {
        assert r in rows[1..];
      }
    }
  }

  /** The batch read agrees with the single read on every requested group, a missing key meaning empty. */
  lemma BatchAgrees(t: seq<Row>, groups: set<Id>, rows: seq<Row>, g: Id)
    requires Ascending(t) && Scan(t, groups, rows)
    ensures g in groups ==>
              Listing(t, g) == if g in Grouped(rows) then Grouped(rows)[g] else []
    ensures g !in groups ==> g !in Grouped(rows)
  {
    GroupedAt(rows, g);
    var one := Where(rows, InGroups({g}));
    forall r <- rows ensures r in Where(t, InGroups(groups)) {
      MembersOf(rows, Where(t, InGroups(groups)), r);
    }
    if g in groups {
      WhereSorted(rows, InGroups({g}));
      WhereTwice(t, InGroups(groups), InGroups({g}), InGroups({g}));
      WherePermuted(rows, Where(t, InGroups(groups)), InGroups({g}));
      WhereAscending(t, InGroups({g}));
      OneGroupUniform(t, g);
      SortedUnique(one, Where(t, InGroups({g})));
    } else {
      WhereNone(rows, InGroups({g}));
    }
  }

  lemma WherePermuted(a: seq<Row>, b: seq<Row>, p: Row -> bool)
    requires multiset(a) == multiset(b)
    ensures multiset(Where(a, p)) == multiset(Where(b, p))
  {
    var wa, wb := multiset(Where(a, p)), multiset(Where(b, p));
    forall x: Row ensures wa[x] == wb[x] {
      WhereMultiset(a, p, x);
      WhereMultiset(b, p, x);
    }
    assert wa == wb;
  }

  // ---- What the operations do to the lists --------------------------------------------------------

  function WithoutBinding(q: seq<Id>, b: Id): (r: seq<Id>)
    ensures forall x: Id :: x in r <==> x in q && x != b
  {
    if q == [] then [] else (if q[0] == b then [] else [q[0]]) + WithoutBinding(q[1..], b)
  }

  lemma SaveListsSelf(t: seq<Row>, g: Id, bindings: seq<Id>)
    ensures Listing(Where(t, OutOfGroup(g)) + RowsOf(g, bindings, 0), g) == bindings
  {
    var others, rows := Where(t, OutOfGroup(g)), RowsOf(g, bindings, 0);
    WhereAppend(others, rows, InGroups({g}));
    WhereNone(others, InGroups({g}));
    WhereAll(rows, InGroups({g}));
    assert Where(others + rows, InGroups({g})) == rows;
  }

  lemma SaveListsOther(t: seq<Row>, g: Id, bindings: seq<Id>, h: Id)
    requires h != g
    ensures Listing(Where(t, OutOfGroup(g)) + RowsOf(g, bindings, 0), h) == Listing(t, h)
  {
    var others, rows := Where(t, OutOfGroup(g)), RowsOf(g, bindings, 0);
    WhereAppend(others, rows, InGroups({h}));
    WhereNone(rows, InGroups({h}));
    WhereTwice(t, OutOfGroup(g), InGroups({h}), InGroups({h}));
    assert Where(others + rows, InGroups({h})) == Where(t, InGroups({h}));
  }

  lemma SaveLists(t: seq<Row>, g: Id, bindings: seq<Id>, h: Id)
    requires Ascending(t) && !HasRepeat(bindings)
    ensures Ascending(Save(t, g, bindings).0)
    ensures Listing(Save(t, g, bindings).0, h) == if h == g then bindings else Listing(t, h)
  {
    SaveAscends(t, g, bindings);
    if h == g {
      SaveListsSelf(t, g, bindings);
    } else {
      SaveListsOther(t, g, bindings, h);
    }
  }

  lemma SaveAscends(t: seq<Row>, g: Id, bindings: seq<Id>)
    requires Ascending(t)
    ensures Ascending(Where(t, OutOfGroup(g)) + RowsOf(g, bindings, 0))
  {
    var others := Where(t, OutOfGroup(g));
    WhereAscending(t, OutOfGroup(g));
    forall i | 0 <= i < |others| ensures others[i].group != g {
      assert others[i] in others;
    }
  }

  lemma DeleteLists(t: seq<Row>, g: Id, h: Id)
    requires Ascending(t)
    ensures Ascending(Delete(t, g))
    ensures Listing(Delete(t, g), h) == if h == g then [] else Listing(t, h)
  {
    WhereAscending(t, OutOfGroup(g));
    if h == g {
      WhereNone(Where(t, OutOfGroup(g)), InGroups({h}));
    } else {
      WhereTwice(t, OutOfGroup(g), InGroups({h}), InGroups({h}));
    }
  }

  function Both(h: Id, b: Id): Row -> bool {
    (r: Row) => r.group == h && r.binding != b
  }

  lemma RemoveLists(t: seq<Row>, b: Id, h: Id)
    requires Ascending(t)
    ensures Ascending(Remove(t, b))
    ensures Listing(Remove(t, b), h) == WithoutBinding(Listing(t, h), b)
  {
    WhereAscending(t, NotBinding(b));
    WhereTwice(t, NotBinding(b), InGroups({h}), Both(h, b));
    WhereTwice(t, InGroups({h}), NotBinding(b), Both(h, b));
    BindingsWithout(Where(t, InGroups({h})), b);
  }

  lemma {:induction false} BindingsWithout(rows: seq<Row>, b: Id)
    ensures Bindings(Where(rows, NotBinding(b))) == WithoutBinding(Bindings(rows), b)
  {
    if rows != [] {
      assert Bindings(rows)[1..] == Bindings(rows[1..]);
      BindingsWithout(rows[1..], b);
      var rest := Where(rows[1..], NotBinding(b));
      assert Bindings([rows[0]] + rest) == [rows[0].binding] + Bindings(rest);
    }
  }

  /** After a save the group's rows are one per binding, at its place in the list, from 0 on; other groups' rows are as before. */
  lemma SaveRows(t: seq<Row>, g: Id, bindings: seq<Id>, r: Row)
    requires !HasRepeat(bindings)
    ensures r.group == g ==> (r in Save(t, g, bindings).0 <==> r.position < |bindings| && bindings[r.position] == r.binding)
    ensures r.group != g ==> (r in Save(t, g, bindings).0 <==> r in t)
    ensures Save(t, g, bindings).1
  {
    var rows := RowsOf(g, bindings, 0);
    if r.group == g && r.position < |bindings| && bindings[r.position] == r.binding {
      assert rows[r.position] == r;
    }
  }

  /** A save with a repeated binding fails and leaves the table as it was. */
  lemma SaveRepeated(t: seq<Row>, g: Id, bindings: seq<Id>, i: nat, j: nat)
    requires i < j < |bindings| && bindings[i] == bindings[j]
    ensures Save(t, g, bindings) == (t, false)
  {
  }

  lemma DeleteRows(t: seq<Row>, g: Id, b: Id, r: Row)
    ensures r in Delete(t, g) <==> r in t && r.group != g
    ensures r in Remove(t, b) <==> r in t && r.binding != b
  {
  }

  // ---- Whole runs ------------------------------------------------------------------------------------

  datatype Op = SaveGroup(group: Id, bindings: seq<Id>) | DeleteGroup(g: Id) | RemoveBinding(binding: Id)

  function Apply(t: seq<Row>, op: Op): seq<Row> {
    match op
    case SaveGroup(g, bs) => Save(t, g, bs).0
    case DeleteGroup(g) => Delete(t, g)
    case RemoveBinding(b) => Remove(t, b)
  }

  /** The same operation on one group's list. */
  function ListAfter(q: seq<Id>, h: Id, op: Op): seq<Id> {
    match op
    case SaveGroup(g, bs) => if h == g && !HasRepeat(bs) then bs else q
    case DeleteGroup(g) => if h == g then [] else q
    case RemoveBinding(b) => WithoutBinding(q, b)
  }

  function Table(ops: seq<Op>): seq<Row> {
    if ops == [] then [] else Apply(Table(ops[..|ops| - 1]), ops[|ops| - 1])
  }

  function ListOf(ops: seq<Op>, h: Id): seq<Id> {
    if ops == [] then [] else ListAfter(ListOf(ops[..|ops| - 1], h), h, ops[|ops| - 1])
  }

  lemma {:induction false} TableRefinesLists(ops: seq<Op>, h: Id)
    ensures Ascending(Table(ops)) && Listing(Table(ops), h) == ListOf(ops, h)
    decreases |ops|
  {
    if ops != [] {
      var t, op := Table(ops[..|ops| - 1]), ops[|ops| - 1];
      TableRefinesLists(ops[..|ops| - 1], h);
      match op {
        case SaveGroup(g, bs) =>
          if !HasRepeat(bs) {
            SaveLists(t, g, bs, h);
          }
        case DeleteGroup(g) => DeleteLists(t, g, h);
        case RemoveBinding(b) => RemoveLists(t, b, h);
      }
    }
  }

  /** After any operations, single and batch reads both return the list the operations call for. */
  lemma ReadsAreRight(ops: seq<Op>, groups: set<Id>, h: Id, single: seq<Row>, batch: seq<Row>)
    requires h in groups && Scan(Table(ops), {h}, single) && Scan(Table(ops), groups, batch)
    ensures Bindings(single) == ListOf(ops, h)
    ensures (if h in Grouped(batch) then Grouped(batch)[h] else []) == ListOf(ops, h)
  {
    TableRefinesLists(ops, h);
    ReadIsListing(Table(ops), h, single);
    BatchAgrees(Table(ops), groups, batch, h);
  }

  lemma RowsOfNext(g: Id, bindings: seq<Id>, i: nat)
    requires i < |bindings|
    ensures RowsOf(g, bindings[..i + 1], 0) == RowsOf(g, bindings[..i], 0) + [Row(g, bindings[i], i)]
  {
  }

  /** A list without repeats gets one with its next element exactly if that is in it already; repeats then stay. */
  lemma RepeatGrows(bindings: seq<Id>, i: nat)
    requires i < |bindings| && !HasRepeat(bindings[..i])
    ensures HasRepeat(bindings[..i + 1]) <==> bindings[i] in bindings[..i]
    ensures bindings[i] in bindings[..i] ==> HasRepeat(bindings)
  {
    var q := bindings[..i];
    if bindings[i] in q {
      var k :| 0 <= k < |q| && q[k] == bindings[i];
      assert bindings[..i + 1][k] == bindings[..i + 1][i];
      assert bindings[k] == bindings[i];
    } else {
      var next := bindings[..i + 1];
      forall a, b | 0 <= a < b < |next| ensures next[a] != next[b] {
        assert next[a] == q[a] && q[a] in q;
        assert b < i ==> next[b] == q[b];
      }
    }
  }

  // ---- The storage object -----------------------------------------------------------------------------

  class GroupBindingStorage {
    var rows: seq<Row>

    ghost predicate Valid()
      reads this
    {
      Ascending(rows)
    }

    constructor ()
      ensures Valid() && rows == []
    {
      rows := [];
    }

    /** Deletes the group's rows, then inserts one row per binding; any failure restores the table. */
    method SaveForGroup(g: Id, bindings: seq<Id>) returns (ok: bool)
      requires Valid()
      modifies this
      ensures Valid() && (rows, ok) == Save(old(rows), g, bindings)
    {
      var backup := rows;
      rows := Where(rows, OutOfGroup(g));
      ghost var cleared := rows;
      for i := 0 to |bindings|
        invariant !HasRepeat(bindings[..i])
        invariant rows == cleared + RowsOf(g, bindings[..i], 0)
      {
        RepeatGrows(bindings, i);
        if bindings[i] in bindings[..i] {
          rows := backup;
          return false;
        }
        RowsOfNext(g, bindings, i);
        rows := rows + [Row(g, bindings[i], i)];
      }
      assert bindings[..|bindings|] == bindings;
      SaveLists(backup, g, bindings, g);
      return true;
    }

    method DeleteForGroup(g: Id)
      requires Valid()
      modifies this
      ensures Valid() && rows == Delete(old(rows), g)
    {
      WhereAscending(rows, OutOfGroup(g));
      rows := Where(rows, OutOfGroup(g));
    }

    method RemoveFromAllGroups(b: Id)
      requires Valid()
      modifies this
      ensures Valid() && rows == Remove(old(rows), b)
    {
      WhereAscending(rows, NotBinding(b));
      rows := Where(rows, NotBinding(b));
    }

    /** An ordered query. */
    method Fetch(groups: set<Id>) returns (found: seq<Row>)
      ensures Scan(rows, groups, found)
    {
      var wanted := Where(rows, InGroups(groups));
      found := [];
      for i := 0 to |wanted|
        invariant multiset(found) == multiset(wanted[..i]) && Sorted(found)
      {
        assert wanted[..i + 1] == wanted[..i] + [wanted[i]];
        InsertSorted(wanted[i], found, Before);
        found := Insert(wanted[i], found, Before);
      }
      assert wanted[..|wanted|] == wanted;
    }

    method GetForGroup(g: Id) returns (bindings: seq<Id>)
      requires Valid()
      ensures bindings == Listing(rows, g)
    {
      var found := Fetch({g});
      ReadIsListing(rows, g, found);
      bindings := Bindings(found);
    }

    method GetForGroups(groups: set<Id>) returns (result: map<Id, seq<Id>>)
      requires Valid()
      ensures forall g :: g in result ==> g in groups && result[g] == Listing(rows, g)
      ensures forall g <- groups :: g !in result ==> Listing(rows, g) == []
    {
      result := map[];
      if groups == {} {
        return;
      }
      var found := Fetch(groups);
      for i := 0 to |found|
        invariant result == Grouped(found[..i])
      {
        assert found[..i + 1][..i] == found[..i];
        var soFar := if found[i].group in result then result[found[i].group] else [];
        result := result[found[i].group := soFar + [found[i].binding]];
      }
      assert found[..|found|] == found;
      forall g ensures (g in result ==> g in groups && result[g] == Listing(rows, g)) && (g in groups && g !in result ==> Listing(rows, g) == []) {
        BatchAgrees(rows, groups, found, g);
      }
    }
  }
}
