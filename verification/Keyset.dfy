/** Ordered selection: what `ORDER BY (time, id) LIMIT n` promises, stated once
    for every query of the model and realised once by `OrderByLimit`. */
module Keyset {

  datatype Option<+T> = None | Some(value: T)

  /** Microseconds on one monotone clock. */
  type Time = int

  /** Identifiers are UUIDs; only their equality and order matter. */
  type Id = int

  /** A row's position in a listing: its timestamp, ties broken by its id. */
  datatype Key = Key(at: Time, id: Id)

  datatype Direction = Ascending | Descending

  predicate Precedes(a: Key, b: Key) {
    a.at < b.at || (a.at == b.at && a.id < b.id)
  }

  /** `a` is listed strictly before `b`. */
  predicate Before(d: Direction, a: Key, b: Key) {
    if d.Ascending? then Precedes(a, b) else Precedes(b, a)
  }

  /** `out` is a possible answer to `SELECT .. FROM rows ORDER BY key LIMIT limit`.
      Rows with equal keys may come in any order, as in SQL. */
  ghost predicate IsTop<T(!new)>(d: Direction, key: T -> Key, rows: set<T>, limit: nat, out: seq<T>) {
    && |out| <= limit
    && (forall i | 0 <= i < |out| :: out[i] in rows)
    && (forall i, j | 0 <= i < j < |out| :: out[i] != out[j] && !Before(d, key(out[j]), key(out[i])))
    && (forall x, i | x in rows && x !in out && 0 <= i < |out| :: !Before(d, key(x), key(out[i])))
    && (|out| < limit ==> forall x | x in rows :: x in out)
  }

  ghost predicate KeysDiffer<T(!new)>(key: T -> Key, rows: set<T>) {
    forall x, y | x in rows && y in rows && key(x) == key(y) :: x == y
  }

  /** A non-empty finite set has a row that no other row precedes. */
  lemma {:induction false} FirstExists<T(!new)>(d: Direction, key: T -> Key, rows: set<T>) returns (first: T)
    requires rows != {}
    ensures first in rows
    ensures forall y | y in rows :: !Before(d, key(y), key(first))
    decreases |rows|
  {
    var x :| x in rows;
    if rows == {x} {
      first := x;
    } else {
      var rest := rows - {x};
      var y := FirstExists(d, key, rest);
      first := if Before(d, key(x), key(y)) then x else y;
      forall z | z in rows ensures !Before(d, key(z), key(first)) {
        if z != x { assert z in rest; }
      }
    }
  }

  /** The database's sort-and-limit, picking one first row after another. */
  method OrderByLimit<T(==,!new)>(d: Direction, key: T -> Key, rows: set<T>, limit: nat) returns (out: seq<T>)
    ensures IsTop(d, key, rows, limit, out)
  {
    out := [];
    var rest := rows;
    while rest != {} && |out| < limit
      invariant rest <= rows
      invariant |out| <= limit
      invariant forall x | x in rows :: x in rest <==> x !in out
      invariant forall i | 0 <= i < |out| :: out[i] in rows
      invariant forall i, j | 0 <= i < j < |out| :: out[i] != out[j] && !Before(d, key(out[j]), key(out[i]))
      invariant forall x, i | x in rest && 0 <= i < |out| :: !Before(d, key(x), key(out[i]))
      decreases |rest|
    {
      ghost var least := FirstExists(d, key, rest);
      var first :| first in rest && forall y | y in rest :: !Before(d, key(y), key(first));
      out := out + [first];
      rest := rest - {first};
    }
  }

  /** With distinct keys the answer is unique, so any two plans of the same query agree. */
  lemma {:induction false} TopIsUnique<T(!new)>(d: Direction, key: T -> Key, rows: set<T>, limit: nat, a: seq<T>, b: seq<T>)
    requires KeysDiffer(key, rows)
    requires IsTop(d, key, rows, limit, a) && IsTop(d, key, rows, limit, b)
    ensures a == b
  {
    TopIsUniqueUpTo(d, key, rows, limit, a, b, |a|);
    TopIsUniqueUpTo(d, key, rows, limit, b, a, |b|);
  }

  lemma {:induction false} TopIsUniqueUpTo<T(!new)>(d: Direction, key: T -> Key, rows: set<T>, limit: nat, a: seq<T>, b: seq<T>, n: nat)
    requires KeysDiffer(key, rows)
    requires IsTop(d, key, rows, limit, a) && IsTop(d, key, rows, limit, b)
    requires n <= |a|
    ensures n <= |b| && a[..n] == b[..n]
  {
    if n > 0 {
      TopIsUniqueUpTo(d, key, rows, limit, a, b, n - 1);
      var k := n - 1;
      var x := a[k];
      assert forall i | 0 <= i < k :: a[i] == b[i] by {
        assert forall i | 0 <= i < k :: a[..k][i] == b[..k][i];
      }
      // a[k] is not among the first k rows of b, so b lists it later or not at all,
      // and then the two rows at position k would share a key.
      if |b| > k && b[k] != x {
        assert b[k] in a || !Before(d, key(b[k]), key(x));
      }
    }
  }

  lemma {:induction false} DistinctCount<T(!new)>(out: seq<T>, rows: set<T>)
    requires forall i, j | 0 <= i < j < |out| :: out[i] != out[j]
    requires forall i | 0 <= i < |out| :: out[i] in rows
    ensures |out| <= |rows|
    ensures (forall x | x in rows :: x in out) ==> |out| == |rows|
    decreases |out|
  {
    if out == [] {
      if rows != {} { var x :| x in rows; }
    } else {
      var rest := rows - {out[0]};
      forall x | x in rest && (forall y | y in rows :: y in out) ensures x in out[1..] {
        var i :| 0 <= i < |out| && out[i] == x;
        assert out[1..][i - 1] == x;
      }
      DistinctCount(out[1..], rest);
    }
  }

  /** A limited query returns `min(limit, number of rows)` rows. */
  lemma TopCount<T(!new)>(d: Direction, key: T -> Key, rows: set<T>, limit: nat, out: seq<T>)
    requires IsTop(d, key, rows, limit, out)
    ensures |out| == if |rows| < limit then |rows| else limit
  {
    DistinctCount(out, rows);
  }

  /** The rows a listing has not reached yet. */
  ghost function Rest<T(!new)>(rows: set<T>, out: seq<T>): set<T> {
    set x | x in rows && x !in out
  }

  /** What follows the first rows, selected the same way, continues the listing. */
  lemma TopsConcatenate<T(!new)>(d: Direction, key: T -> Key, rows: set<T>, a: seq<T>, limit: nat, b: seq<T>)
    requires IsTop(d, key, rows, |a|, a)
    requires IsTop(d, key, Rest(rows, a), limit, b)
    ensures IsTop(d, key, rows, |a| + limit, a + b)
  {
    var rest, ab := Rest(rows, a), a + b;
    forall i, j | 0 <= i < j < |ab| ensures ab[i] != ab[j] && !Before(d, key(ab[j]), key(ab[i])) {
      if i < |a| <= j { assert b[j - |a|] in rest; }
    }
    forall x, i | x in rows && x !in ab && 0 <= i < |ab| ensures !Before(d, key(x), key(ab[i])) {
      assert x in rest && x !in b;
    }
    forall x | |ab| < |a| + limit && x in rows ensures x in ab {
      if x !in a { assert x in rest && x in b; }
    }
  }

  lemma SameKeysSameTop<T(!new)>(d: Direction, key: T -> Key, other: T -> Key, rows: set<T>, limit: nat, out: seq<T>)
    requires IsTop(d, key, rows, limit, out)
    requires forall x | x in rows :: key(x) == other(x)
    ensures IsTop(d, other, rows, limit, out)
  {
  }
}
