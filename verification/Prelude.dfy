/** Small types and one aggregate shared by the other modules. */
module Prelude {
  datatype Option<+T> = None | Some(value: T)

  datatype Result<+R, +E> = Success(value: R) | Failure(error: E)

  function Max(a: int, b: int): int {
    if a < b then b else a
  }

  function Min(a: int, b: int): int {
    if a < b then a else b
  }

  ghost function AnyKey(keys: set<int>): (k: int)
    requires keys != {}
    ensures k in keys
  {
    assert (forall k :: k !in keys) ==> keys == {};
    var k :| k in keys;
    k
  }

  /** The sum of the values of a finite table. */
  ghost function Total(m: map<int, int>): int
    decreases |m|
  {
    if m.Keys == {} then 0 else
    var k := AnyKey(m.Keys);
    m[k] + Total(m - {k})
  }

  /** The sum does not depend on which row is taken out first. */
  lemma {:induction false} TotalRemove(m: map<int, int>, k: int)
    requires k in m
    ensures Total(m) == m[k] + Total(m - {k})
    decreases |m|
  {
    var p := AnyKey(m.Keys);
    if p != k {
      assert m - {p} - {k} == m - {k} - {p};
      assert k in m - {p} && p in m - {k};
      assert (m - {p})[k] == m[k] && (m - {k})[p] == m[p];
      TotalRemove(m - {p}, k);
      TotalRemove(m - {k}, p);
    }
  }

  /** Writing one row changes the sum by the difference between the new and the old value. */
  lemma TotalUpdate(m: map<int, int>, k: int, v: int)
    ensures Total(m[k := v]) == Total(m) - (if k in m then m[k] else 0) + v
  {
    TotalRemove(m[k := v], k);
    if k in m {
      TotalRemove(m, k);
      assert m[k := v] - {k} == m - {k};
    } else {
      assert m[k := v] - {k} == m;
    }
  }

  lemma WithoutOne<T>(xs: seq<T>, i: nat)
    requires i < |xs|
    ensures multiset(xs[..i] + xs[i + 1..]) == multiset(xs) - multiset{xs[i]}
  {
    assert xs == xs[..i] + [xs[i]] + xs[i + 1..];
  }

  lemma WithoutHead<T>(xs: seq<T>)
    requires xs != []
    ensures multiset(xs[1..]) == multiset(xs) - multiset{xs[0]}
  {
    assert xs == [xs[0]] + xs[1..];
  }

  lemma SameMembers<T>(xs: seq<T>, ys: seq<T>)
    requires multiset(xs) == multiset(ys)
    ensures forall p :: p in ys <==> p in xs
  {
    forall p ensures p in ys <==> p in xs {
      assert p in multiset(ys) <==> p in multiset(xs);
    }
  }

  /** Two orders of the same rows: the first row of one, and the rest of both. */
  lemma TakeOut<T>(xs: seq<T>, ys: seq<T>) returns (i: nat)
    requires xs != [] && multiset(xs) == multiset(ys)
    ensures i < |ys| && ys[i] == xs[0]
    ensures multiset(xs[1..]) == multiset(ys[..i] + ys[i + 1..])
    ensures forall p :: p in ys ==> p in xs
  {
    SameMembers(xs, ys);
    assert xs[0] in ys;
    i :| 0 <= i < |ys| && ys[i] == xs[0];
    WithoutHead(xs);
    WithoutOne(ys, i);
  }

  lemma HeadOfConcat<T>(xs: seq<T>, ys: seq<T>)
    requires xs != []
    ensures xs == [xs[0]] + xs[1..] && xs + ys == [xs[0]] + (xs[1..] + ys)
  {
  }

  lemma ConcatAssociates<T>(xs: seq<T>, ys: seq<T>, zs: seq<T>)
    ensures xs + (ys + zs) == (xs + ys) + zs
  {
  }

  // ---------------------------------------------------------------- queries over rows

  /** The selected rows of a table stored in the order of creation, newest first. */
  function Selected<T>(table: seq<T>, where: T -> bool): (rows: seq<T>)
    ensures forall r | r in rows :: r in table && where(r)
    ensures forall r | r in table && where(r) :: r in rows
  {
    if table == [] then [] else
    var last := |table| - 1;
    assert table == table[..last] + [table[last]];
    (if where(table[last]) then [table[last]] else []) + Selected(table[..last], where)
  }

  /** One page of rows: `limit` of them, after skipping `offset`. */
  function Window<T>(rows: seq<T>, limit: nat, offset: nat): seq<T> {
    var start := Min(offset, |rows|);
    rows[start..Min(start + limit, |rows|)]
  }

  /** The rows of a table that satisfy a condition, each once, in descending order of their keys. */
  ghost predicate Lists<T>(rows: seq<T>, table: seq<T>, where: T -> bool, key: T -> int) {
    && Descends(rows, key)
    && (forall r | r in rows :: r in table && where(r))
    && (forall r | r in table && where(r) :: r in rows)
  }

  ghost predicate Descends<T>(rows: seq<T>, key: T -> int) {
    forall i, j | 0 <= i < j < |rows| :: key(rows[i]) > key(rows[j])
  }

  lemma DescendsFrom<T>(r: T, rows: seq<T>, key: T -> int)
    requires Descends(rows, key) && forall q | q in rows :: key(r) > key(q)
    ensures Descends([r] + rows, key)
  {
  }

  lemma {:induction false} SelectedDescends<T>(table: seq<T>, where: T -> bool, key: T -> int)
    requires forall i, j | 0 <= i < j < |table| :: key(table[i]) < key(table[j])
    ensures Descends(Selected(table, where), key)
  {
    if table != [] {
      var front, last := table[..|table| - 1], table[|table| - 1];
      SelectedDescends(front, where, key);
      if where(last) {
        DescendsFrom(last, Selected(front, where), key);
      } else {
        assert Selected(table, where) == Selected(front, where);
      }
    }
  }

  lemma SelectedLists<T>(table: seq<T>, where: T -> bool, key: T -> int)
    requires forall i, j | 0 <= i < j < |table| :: key(table[i]) < key(table[j])
    ensures Lists(Selected(table, where), table, where, key)
  {
    SelectedDescends(table, where, key);
  }

  /** A page: as many rows as there are behind the first `offset`, but no more than `limit`, in their order. */
  ghost predicate Slices<T>(page: seq<T>, rows: seq<T>, limit: nat, offset: nat) {
    && |page| == Max(0, Min(limit, |rows| - offset))
    && forall i | 0 <= i < |page| :: page[i] == rows[offset + i]
  }

  lemma WindowSlices<T>(rows: seq<T>, limit: nat, offset: nat)
    ensures Slices(Window(rows, limit, offset), rows, limit, offset)
  {
  }

  lemma {:induction false} SelectedSame<T>(table: seq<T>, p: T -> bool, q: T -> bool)
    requires forall r :: r in table ==> p(r) == q(r)
    ensures Selected(table, p) == Selected(table, q)
  {
    if table != [] {
      SelectedSame(table[..|table| - 1], p, q);
    }
  }

  lemma SelectedMore<T>(table: seq<T>, r: T, p: T -> bool)
    ensures Selected(table + [r], p) == (if p(r) then [r] else []) + Selected(table, p)
  {
    assert (table + [r])[..|table|] == table;
  }

  /** Rows selected by one of two conditions that exclude each other. */
  lemma {:induction false} SelectedEither<T>(table: seq<T>, p: T -> bool, q: T -> bool, either: T -> bool)
    requires forall r | r in table :: either(r) == (p(r) || q(r)) && !(p(r) && q(r))
    ensures |Selected(table, either)| == |Selected(table, p)| + |Selected(table, q)|
  {
    if table != [] {
      SelectedEither(table[..|table| - 1], p, q, either);
    }
  }

  lemma {:induction false} SelectedNone<T>(table: seq<T>, p: T -> bool)
    ensures Selected(table, p) == [] <==> forall r | r in table :: !p(r)
  {
    if Selected(table, p) != [] {
      assert Selected(table, p)[0] in Selected(table, p);
    }
  }

  function Mapped<T>(table: seq<T>, f: T -> T): seq<T> {
    seq(|table|, i requires 0 <= i < |table| => f(table[i]))
  }

  lemma {:induction false} SelectedMapped<T>(table: seq<T>, f: T -> T, p: T -> bool, q: T -> bool)
    requires forall r | r in table :: q(r) == p(f(r))
    ensures |Selected(Mapped(table, f), p)| == |Selected(table, q)|
  {
    if table != [] {
      var last := |table| - 1;
      SelectedMapped(table[..last], f, p, q);
      assert Mapped(table, f)[..last] == Mapped(table[..last], f);
    }
  }

  /** The rows that stay after a deletion, in their order. */
  function Rejected<T>(table: seq<T>, gone: T -> bool): (rows: seq<T>)
    ensures forall r | r in rows :: r in table && !gone(r)
    ensures forall r | r in table && !gone(r) :: r in rows
  {
    if table == [] then [] else
    var last := |table| - 1;
    assert table == table[..last] + [table[last]];
    Rejected(table[..last], gone) + (if gone(table[last]) then [] else [table[last]])
  }

  /** A deletion takes the deleted rows out of a selection and leaves the others. */
  lemma {:induction false} SelectedRejected<T>(table: seq<T>, gone: T -> bool, p: T -> bool, both: T -> bool)
    requires forall r | r in table :: both(r) == (gone(r) && p(r))
    ensures |Selected(Rejected(table, gone), p)| + |Selected(table, both)| == |Selected(table, p)|
  {
    if table != [] {
      var last := |table| - 1;
      SelectedRejected(table[..last], gone, p, both);
      if !gone(table[last]) {
        SelectedMore(Rejected(table[..last], gone), table[last], p);
      } else {
        assert Rejected(table, gone) == Rejected(table[..last], gone);
      }
    }
  }

  lemma RejectedMore<T>(table: seq<T>, r: T, gone: T -> bool)
    ensures Rejected(table + [r], gone) == Rejected(table, gone) + (if gone(r) then [] else [r])
  {
    assert (table + [r])[..|table|] == table;
  }

  lemma {:induction false} RejectedNone<T>(table: seq<T>, gone: T -> bool)
    requires forall r | r in table :: !gone(r)
    ensures Rejected(table, gone) == table
  {
    if table != [] {
      var front, r := table[..|table| - 1], table[|table| - 1];
      assert table == front + [r];
      RejectedNone(front, gone);
      assert r in table;
      RejectedMore(front, r, gone);
    }
  }

  lemma {:induction false} RejectedSame<T>(table: seq<T>, p: T -> bool, q: T -> bool)
    requires forall r | r in table :: p(r) == q(r)
    ensures Rejected(table, p) == Rejected(table, q)
  {
    if table != [] {
      RejectedSame(table[..|table| - 1], p, q);
    }
  }
}
