/**
 * The relational store as the handlers use it: tables of rows keyed by
 * auto-increment ids, and the small part of SQLite's semantics the queries
 * depend on (parameter binding with INTEGER affinity, `=` with NULL,
 * filters, `ORDER BY ... DESC`, `LIMIT`, first-row lookup).
 */
module Sql {
  import opened Wrappers
  import opened Text

  /** A value bound to an id or foreign-key column. */
  datatype Key = Null | Int(n: int) | Str(s: string)

  /**
   * How a parameter reaches an INTEGER column: absent becomes NULL, decimal
   * text is stored (and compared) as the integer it denotes, and any other
   * text stays text.
   */
  function Affinity(f: Option<string>): (k: Key)
    ensures f.None? <==> k.Null?
    ensures k.Str? ==> f == Some(k.s) && ParseNat(k.s).None?
  {
    match f
    case None => Null
    case Some(s) =>
      match ParseNat(s)
      case Some(n) => Int(n)
      case None => Str(s)
  }

  /** The decimal text of an id reaches the column as that id. */
  lemma AffinityOfDecimal(n: nat)
    ensures Affinity(Some(NatToString(n))) == Int(n)
  {
    ParseNatToString(n);
  }

  /** `a = b` in a WHERE clause: NULL equals nothing, not even NULL. */
  predicate SqlEq(a: Key, b: Key) {
    a != Null && a == b
  }

  /** `WHERE id = ?` bound to `key`, for the row whose id is `id`. */
  predicate HasId(key: Key, id: nat) {
    key == Int(id)
  }

  /** What the database callback reports for one statement: no error, or `err.message`. */
  datatype DbOutcome = Ok | Fail(message: string)

  datatype Row<R> = Row(id: nat, val: R)

  /** A table: its rows in insertion order and the id the next insert receives. */
  datatype Table<R> = Table(rows: seq<Row<R>>, nextId: nat)

  /** Row ids strictly increase in insertion order. */
  predicate Ascending<R>(rows: seq<Row<R>>) {
    forall i, j :: 0 <= i < j < |rows| ==> rows[i].id < rows[j].id
  }

  /** Every id is positive and below `nextId`, and the ids increase. */
  predicate WellFormed<R>(t: Table<R>) {
    && t.nextId >= 1
    && (forall i :: 0 <= i < |t.rows| ==> 1 <= t.rows[i].id < t.nextId)
    && Ascending(t.rows)
  }

  function EmptyTable<R>(): (t: Table<R>)
    ensures WellFormed(t) && t.rows == []
  {
    Table([], 1)
  }

  /** `INSERT`: the new row takes `nextId` (the statement's `lastID`). */
  function Insert<R>(t: Table<R>, v: R): (r: Table<R>)
    ensures WellFormed(t) ==> WellFormed(r)
    ensures WellFormed(t) ==> forall i :: 0 <= i < |t.rows| ==> t.rows[i].id != t.nextId
    ensures |r.rows| == |t.rows| + 1 && r.rows[..|t.rows|] == t.rows
    ensures r.rows[|t.rows|] == Row(t.nextId, v)
    ensures r.nextId == t.nextId + 1
  {
    Table(t.rows + [Row(t.nextId, v)], t.nextId + 1)
  }

  /** One insert per value of `vs`, in order (a prepared statement run once per element). */
  function InsertAll<R>(t: Table<R>, vs: seq<R>): (r: Table<R>)
    ensures |r.rows| == |t.rows| + |vs| && r.nextId == t.nextId + |vs|
    decreases |vs|
  {
    if vs == [] then t else Insert(InsertAll(t, vs[..|vs| - 1]), vs[|vs| - 1])
  }

  /**
   * Inserting a batch appends exactly one row per value, in order, with
   * consecutive fresh ids, and leaves the existing rows alone.
   */
  lemma {:induction false} InsertAllShape<R>(t: Table<R>, vs: seq<R>)
    ensures |InsertAll(t, vs).rows| == |t.rows| + |vs|
    ensures InsertAll(t, vs).rows[..|t.rows|] == t.rows
    ensures forall k :: 0 <= k < |vs| ==> InsertAll(t, vs).rows[|t.rows| + k] == Row(t.nextId + k, vs[k])
    ensures InsertAll(t, vs).nextId == t.nextId + |vs|
    ensures WellFormed(t) ==> WellFormed(InsertAll(t, vs))
    decreases |vs|
  {
    if vs != [] {
      var init := vs[..|vs| - 1];
      InsertAllShape(t, init);
      var u := InsertAll(t, init);
      assert InsertAll(t, vs) == Insert(u, vs[|vs| - 1]);
      forall k | 0 <= k < |vs|
        ensures InsertAll(t, vs).rows[|t.rows| + k] == Row(t.nextId + k, vs[k])
      {
        if k < |vs| - 1 {
          assert InsertAll(t, vs).rows[|t.rows| + k] == u.rows[|t.rows| + k];
          assert init[k] == vs[k];
        }
      }
      assert InsertAll(t, vs).rows[..|t.rows|] == u.rows[..|t.rows|];
    }
  }

  /**
   * `UPDATE ... WHERE id = ?`: the rows whose id matches `key` are replaced
   * by `f` of themselves, ids and every other row are kept, and nothing is
   * inserted or removed (an id that matches no row changes nothing).
   */
  function UpdateWhere<R>(t: Table<R>, key: Key, f: R -> R): (r: Table<R>)
    ensures |r.rows| == |t.rows| && r.nextId == t.nextId
    ensures forall i :: 0 <= i < |t.rows| ==> r.rows[i].id == t.rows[i].id
    ensures forall i :: 0 <= i < |t.rows| && !HasId(key, t.rows[i].id) ==> r.rows[i] == t.rows[i]
    ensures forall i :: 0 <= i < |t.rows| && HasId(key, t.rows[i].id) ==> r.rows[i].val == f(t.rows[i].val)
    ensures WellFormed(t) ==> WellFormed(r)
    ensures (forall i :: 0 <= i < |t.rows| ==> !HasId(key, t.rows[i].id)) ==> r == t
  {
    Table(seq(|t.rows|, i requires 0 <= i < |t.rows| =>
      if HasId(key, t.rows[i].id) then Row(t.rows[i].id, f(t.rows[i].val)) else t.rows[i]), t.nextId)
  }

  /** In a well-formed table an `UPDATE ... WHERE id = ?` touches at most one row. */
  lemma UpdateTouchesAtMostOne<R>(t: Table<R>, key: Key, i: nat, j: nat)
    requires WellFormed(t) && i < |t.rows| && j < |t.rows|
    requires HasId(key, t.rows[i].id) && HasId(key, t.rows[j].id)
    ensures i == j
  {
  }

  /** `SELECT ... WHERE p`, in table order. */
  function Where<R>(rows: seq<Row<R>>, p: Row<R> -> bool): (r: seq<Row<R>>)
    ensures |r| <= |rows|
    ensures forall x :: x in r ==> x in rows && p(x)
    ensures Ascending(rows) ==> Ascending(r)
  {
    if rows == [] then []
    else if p(rows[0]) then
      assert forall x :: x in rows[1..] && Ascending(rows) ==> rows[0].id < x.id;
      [rows[0]] + Where(rows[1..], p)
    else Where(rows[1..], p)
  }

  /** Every row that satisfies the filter is selected. */
  lemma {:induction false} WhereComplete<R>(rows: seq<Row<R>>, p: Row<R> -> bool)
    ensures forall x :: x in rows && p(x) ==> x in Where(rows, p)
  {
    if rows != [] {
      WhereComplete(rows[1..], p);
      assert forall x :: x in rows ==> x == rows[0] || x in rows[1..];
    }
  }

  /** A stricter filter selects no more rows. */
  lemma {:induction false} WhereMonotone<R>(rows: seq<Row<R>>, p: Row<R> -> bool, q: Row<R> -> bool)
    requires forall x :: p(x) ==> q(x)
    ensures |Where(rows, p)| <= |Where(rows, q)|
  {
    if rows != [] {
      WhereMonotone(rows[1..], p, q);
    }
  }

  function Map<A, B>(s: seq<A>, f: A -> B): (r: seq<B>)
    ensures |r| == |s| && forall i :: 0 <= i < |s| ==> r[i] == f(s[i])
  {
    seq(|s|, i requires 0 <= i < |s| => f(s[i]))
  }

  /** `SELECT <columns> ... WHERE p`: the filter followed by a projection of each row. */
  function Select<R, T>(rows: seq<Row<R>>, p: Row<R> -> bool, proj: Row<R> -> T): seq<T> {
    Map(Where(rows, p), proj)
  }

  /** Something is selected exactly when it is the projection of a row that satisfies the filter. */
  lemma SelectMembers<R, T>(rows: seq<Row<R>>, p: Row<R> -> bool, proj: Row<R> -> T)
    ensures |Select(rows, p, proj)| == |Where(rows, p)|
    ensures forall y :: y in Select(rows, p, proj) <==> exists x :: x in rows && p(x) && proj(x) == y
  {
    WhereComplete(rows, p);
    var w := Where(rows, p);
    forall y | y in Select(rows, p, proj) ensures exists x :: x in rows && p(x) && proj(x) == y {
      var i :| 0 <= i < |w| && Select(rows, p, proj)[i] == y;
      assert w[i] in w;
    }
    forall y | exists x :: x in rows && p(x) && proj(x) == y ensures y in Select(rows, p, proj) {
      var x :| x in rows && p(x) && proj(x) == y;
      var i :| 0 <= i < |w| && w[i] == x;
      assert Select(rows, p, proj)[i] == y;
    }
  }

  function Min(a: int, b: int): int {
    if a <= b then a else b
  }

  /** `LIMIT n`: the first `n` rows, or all of them when there are fewer. */
  function Limit<T>(s: seq<T>, n: nat): (r: seq<T>)
    ensures |r| == Min(n, |s|) && r <= s
  {
    s[..Min(n, |s|)]
  }

  /**
   * `SELECT <columns> ... WHERE p LIMIT n` in table order: at most `n`
   * projections of rows satisfying `p`, in id order, and all of them when
   * no more than `n` rows qualify.
   */
  lemma LimitedSelect<R, T>(rows: seq<Row<R>>, p: Row<R> -> bool, proj: Row<R> -> T, n: nat)
    requires Ascending(rows)
    ensures var kept := Limit(Where(rows, p), n);
      && |kept| == Min(n, |Where(rows, p)|)
      && Ascending(kept)
      && (forall i :: 0 <= i < |kept| ==> kept[i] in rows && p(kept[i]))
      && (|Where(rows, p)| <= n ==> forall x :: x in rows && p(x) ==> proj(x) in Map(kept, proj))
  {
    var w := Where(rows, p);
    var kept := Limit(w, n);
    assert kept == w[..|kept|];
    forall i | 0 <= i < |kept| ensures kept[i] in rows && p(kept[i]) {
      assert kept[i] == w[i];
      assert w[i] in w;
    }
    forall i, j | 0 <= i < j < |kept| ensures kept[i].id < kept[j].id {
      assert kept[i] == w[i] && kept[j] == w[j];
    }
    if |w| <= n {
      assert kept == w;
      WhereComplete(rows, p);
      forall x | x in rows && p(x) ensures proj(x) in Map(kept, proj) {
        var i :| 0 <= i < |kept| && kept[i] == x;
        assert Map(kept, proj)[i] == proj(x);
      }
    }
  }

  /** Keys never increase along `s`. */
  predicate SortedDesc<T>(s: seq<T>, key: T -> int) {
    forall i, j :: 0 <= i < j < |s| ==> key(s[i]) >= key(s[j])
  }

  function InsertDesc<T>(x: T, s: seq<T>, key: T -> int): (r: seq<T>)
    ensures multiset(r) == multiset(s) + multiset{x}
  {
    if s == [] || key(x) >= key(s[0]) then [x] + s
    else
      assert s == [s[0]] + s[1..];
      [s[0]] + InsertDesc(x, s[1..], key)
  }

  /** The tail of a descending sequence is descending, and no key in it exceeds the head's. */
  lemma SortedDescTail<T>(s: seq<T>, key: T -> int)
    requires s != [] && SortedDesc(s, key)
    ensures SortedDesc(s[1..], key)
    ensures forall y :: y in s[1..] ==> key(y) <= key(s[0])
  {
    var tail := s[1..];
    forall i, j | 0 <= i < j < |tail| ensures key(tail[i]) >= key(tail[j]) {
      assert tail[i] == s[i + 1] && tail[j] == s[j + 1];
    }
    forall y | y in tail ensures key(y) <= key(s[0]) {
      var k :| 0 <= k < |tail| && tail[k] == y;
      assert s[k + 1] == y;
    }
  }

  /** A head no smaller than every key of a descending sequence extends it. */
  lemma SortedDescCons<T>(h: T, rest: seq<T>, key: T -> int)
    requires SortedDesc(rest, key)
    requires forall y :: y in rest ==> key(y) <= key(h)
    ensures SortedDesc([h] + rest, key)
  {
    var r := [h] + rest;
    forall i, j | 0 <= i < j < |r| ensures key(r[i]) >= key(r[j]) {
      assert r[j] == rest[j - 1];
      if i > 0 {
        assert r[i] == rest[i - 1];
      }
    }
  }

  /** Inserting into a descending sequence keeps it descending. */
  lemma {:induction false} InsertDescSorted<T>(x: T, s: seq<T>, key: T -> int)
    requires SortedDesc(s, key)
    ensures SortedDesc(InsertDesc(x, s, key), key)
  {
    if s == [] || key(x) >= key(s[0]) {
      if s != [] {
        SortedDescTail(s, key);
        assert s == [s[0]] + s[1..];
        forall y | y in s ensures key(y) <= key(x) {
          if y != s[0] {
            assert y in s[1..];
          }
        }
      }
      SortedDescCons(x, s, key);
    } else {
      SortedDescTail(s, key);
      var rest := InsertDesc(x, s[1..], key);
      InsertDescSorted(x, s[1..], key);
      forall y | y in rest ensures key(y) <= key(s[0]) {
        assert y in multiset(rest);
      }
      SortedDescCons(s[0], rest, key);
    }
  }

  /**
   * `ORDER BY key DESC`: a permutation of `s` whose keys never increase.
   * SQL leaves the order of equal keys open; this model keeps their
   * original order.
   */
  function OrderByDesc<T>(s: seq<T>, key: T -> int): (r: seq<T>)
    ensures multiset(r) == multiset(s)
    ensures SortedDesc(r, key)
  {
    if s == [] then []
    else
      assert s == [s[0]] + s[1..];
      InsertDescSorted(s[0], OrderByDesc(s[1..], key), key);
      InsertDesc(s[0], OrderByDesc(s[1..], key), key)
  }

  /**
   * `ORDER BY key DESC LIMIT n` keeps the rows with the largest keys: no
   * row that was left out has a larger key than a row that was kept.
   */
  lemma TopRowsByKey<T>(s: seq<T>, key: T -> int, n: nat)
    requires SortedDesc(s, key)
    ensures forall x, i :: x in multiset(s) - multiset(Limit(s, n)) && 0 <= i < |Limit(s, n)| ==> key(x) <= key(Limit(s, n)[i])
  {
    var k := Min(n, |s|);
    var kept, dropped := s[..k], s[k..];
    assert Limit(s, n) == kept;
    assert s == kept + dropped;
    assert multiset(s) - multiset(kept) == multiset(dropped);
    forall x, i | x in multiset(s) - multiset(kept) && 0 <= i < |kept|
      ensures key(x) <= key(kept[i])
    {
      assert x in multiset(dropped);
      var j :| 0 <= j < |dropped| && dropped[j] == x;
      assert s[k + j] == x && s[i] == kept[i];
    }
  }

  /** `db.get`: the first row satisfying `p`, or none. */
  function First<R>(rows: seq<Row<R>>, p: Row<R> -> bool): (r: Option<Row<R>>)
    ensures r.None? <==> forall i :: 0 <= i < |rows| ==> !p(rows[i])
    ensures r.Some? ==> exists i :: 0 <= i < |rows| && rows[i] == r.value && p(rows[i]) && forall k :: 0 <= k < i ==> !p(rows[k])
  {
    if rows == [] then None
    else if p(rows[0]) then Some(rows[0])
    else
      var r := First(rows[1..], p);
      assert r.Some? ==> exists i :: 0 <= i < |rows[1..]| && rows[1..][i] == r.value && p(rows[1..][i]) && forall k :: 0 <= k < i ==> !p(rows[1..][k]);
      assert r.Some? ==> exists i :: 0 <= i < |rows| && rows[i] == r.value && p(rows[i]) && forall k :: 0 <= k < i ==> !p(rows[k]) by {
        if r.Some? {
          var i :| 0 <= i < |rows[1..]| && rows[1..][i] == r.value && p(rows[1..][i]) && forall k :: 0 <= k < i ==> !p(rows[1..][k]);
          assert rows[i + 1] == r.value;
          forall k | 0 <= k < i + 1 ensures !p(rows[k]) {
            if k > 0 { assert rows[k] == rows[1..][k - 1]; }
          }
        }
      }
      r
  }

  /** `ON x = t.id`: the rows whose id is `key`. */
  function IdIs<R>(key: Key): Row<R> -> bool {
    (r: Row<R>) => HasId(key, r.id)
  }

  /** In ascending rows a lookup by id finds the one row with that id. */
  lemma FirstWithId<R>(rows: seq<Row<R>>, key: Key, i: nat)
    requires Ascending(rows) && i < |rows| && HasId(key, rows[i].id)
    ensures First(rows, IdIs(key)) == Some(rows[i])
  {
    assert IdIs(key)(rows[i]);
    var r := First(rows, IdIs(key));
    var j :| 0 <= j < |rows| && rows[j] == r.value && IdIs(key)(rows[j]) && forall k :: 0 <= k < j ==> !IdIs(key)(rows[k]);
    assert !(i < j);
    assert !(j < i);
  }

  /** Updates by functions that agree on every value are the same update. */
  lemma UpdateWhereExt<R>(t: Table<R>, key: Key, f: R -> R, g: R -> R)
    requires forall v :: f(v) == g(v)
    ensures UpdateWhere(t, key, f) == UpdateWhere(t, key, g)
  {
    assert UpdateWhere(t, key, f).rows == UpdateWhere(t, key, g).rows;
  }
}
