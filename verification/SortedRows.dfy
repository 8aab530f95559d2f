/** ORDER BY: the order that sort keys define on rows, and sorted lists. */
module SortedRows {
  import opened Common
  import opened SqlTokens
  import opened SqlParser
  import opened Database

  /** Unless said otherwise NULLs come last ascending and first descending. */
  predicate PutsNullsFirst(k: SortKey) {
    if k.nulls.None? then k.desc else k.nulls.value.NullsFirst?
  }

  ghost predicate KeyBefore(k: SortKey, x: Value, y: Value) {
    if x.Null? then PutsNullsFirst(k) && !y.Null?
    else if y.Null? then !PutsNullsFirst(k)
    else if k.desc then ValueLess(y, x)
    else ValueLess(x, y)
  }

  /** Row a comes strictly before row b. */
  ghost predicate Before(keys: seq<SortKey>, a: Row, b: Row) {
    keys != [] &&
    var x, y := Field(a, keys[0].column), Field(b, keys[0].column);
    if x == y then Before(keys[1..], a, b) else KeyBefore(keys[0], x, y)
  }

  /** The identity column breaks every tie. */
  predicate EndsWithId(keys: seq<SortKey>) {
    keys != [] && keys[|keys| - 1].column == Id
  }

  lemma {:induction false} BeforeIrreflexive(keys: seq<SortKey>, a: Row)
    ensures !Before(keys, a, a)
  {
    if keys != [] {
      BeforeIrreflexive(keys[1..], a);
    }
  }

  lemma KeyTransitive(k: SortKey, x: Value, y: Value, z: Value)
    requires KeyBefore(k, x, y) && KeyBefore(k, y, z)
    ensures KeyBefore(k, x, z) && x != z
  {
    if !x.Null? && !y.Null? && !z.Null? {
      if k.desc {
        ValueTransitive(z, y, x);
      } else {
        ValueTransitive(x, y, z);
      }
    }
    ValueIrreflexive(x);
  }

  lemma {:induction false} BeforeTransitive(keys: seq<SortKey>, a: Row, b: Row, c: Row)
    requires Before(keys, a, b) && Before(keys, b, c)
    ensures Before(keys, a, c)
  {
    var k := keys[0];
    var x, y, z := Field(a, k.column), Field(b, k.column), Field(c, k.column);
    if x == y && y == z {
      BeforeTransitive(keys[1..], a, b, c);
    } else if x != y && y != z {
      KeyTransitive(k, x, y, z);
    }
  }

  lemma BeforeAsymmetric(keys: seq<SortKey>, a: Row, b: Row)
    requires Before(keys, a, b)
    ensures !Before(keys, b, a) && a != b
  {
    if Before(keys, b, a) {
      BeforeTransitive(keys, a, b, a);
    }
    BeforeIrreflexive(keys, a);
  }

  lemma {:induction false} BeforeTotal(keys: seq<SortKey>, a: Row, b: Row)
    requires EndsWithId(keys) && a.id != b.id
    ensures Before(keys, a, b) || Before(keys, b, a)
  {
    var x, y := Field(a, keys[0].column), Field(b, keys[0].column);
    if x == y {
      BeforeTotal(keys[1..], a, b);
    } else if !x.Null? && !y.Null? {
      ValueTotal(x, y);
    }
  }

  // ----- sorted lists -----

  ghost predicate Ordered(keys: seq<SortKey>, rows: seq<Row>) {
    forall i, j :: 0 <= i < j < |rows| ==> Before(keys, rows[i], rows[j])
  }

  ghost function Insert(keys: seq<SortKey>, r: Row, rows: seq<Row>): (out: seq<Row>)
    ensures |out| == |rows| + 1
    ensures forall x :: x in out <==> x == r || x in rows
  {
    if rows == [] || Before(keys, r, rows[0]) then [r] + rows
    else [rows[0]] + Insert(keys, r, rows[1..])
  }

  ghost function Sort(keys: seq<SortKey>, rows: seq<Row>): (out: seq<Row>)
    ensures |out| == |rows|
    ensures forall x :: x in out <==> x in rows
  {
    if rows == [] then [] else Insert(keys, rows[0], Sort(keys, rows[1..]))
  }

  lemma {:induction false} InsertOrdered(keys: seq<SortKey>, r: Row, rows: seq<Row>)
    requires EndsWithId(keys) && Ordered(keys, rows)
    requires forall x :: x in rows ==> x.id != r.id
    ensures Ordered(keys, Insert(keys, r, rows))
  {
    if rows == [] {
    } else if Before(keys, r, rows[0]) {
      forall j | 0 < j < |rows|
        ensures Before(keys, r, rows[j])
      {
        BeforeTransitive(keys, r, rows[0], rows[j]);
      }
    } else {
      BeforeTotal(keys, r, rows[0]);
      InsertOrdered(keys, r, rows[1..]);
      var rest := Insert(keys, r, rows[1..]);
      forall j | 0 <= j < |rest|
        ensures Before(keys, rows[0], rest[j])
      {
        assert rest[j] in rest;
      }
    }
  }

  lemma {:induction false} SortOrdered(keys: seq<SortKey>, rows: seq<Row>)
    requires EndsWithId(keys) && DistinctIds(rows)
    ensures Ordered(keys, Sort(keys, rows))
  {
    if rows != [] {
      SortOrdered(keys, rows[1..]);
      InsertOrdered(keys, rows[0], Sort(keys, rows[1..]));
    }
  }

  /** A strictly sorted list is determined by its elements. */
  lemma {:induction false} OrderedUnique(keys: seq<SortKey>, xs: seq<Row>, ys: seq<Row>)
    requires Ordered(keys, xs) && Ordered(keys, ys)
    requires forall r :: r in xs <==> r in ys
    ensures xs == ys
  {
    assert xs != [] ==> xs[0] in ys;
    assert ys != [] ==> ys[0] in xs;
    if xs != [] {
      SameHead(keys, xs, ys);
      forall r
        ensures r in xs[1..] <==> r in ys[1..]
      {
        TailMembers(keys, xs, r);
        TailMembers(keys, ys, r);
      }
      OrderedUnique(keys, xs[1..], ys[1..]);
      assert xs == [xs[0]] + xs[1..] && ys == [ys[0]] + ys[1..];
    }
  }

  lemma SameHead(keys: seq<SortKey>, xs: seq<Row>, ys: seq<Row>)
    requires xs != [] && ys != [] && Ordered(keys, xs) && Ordered(keys, ys)
    requires xs[0] in ys && ys[0] in xs
    ensures xs[0] == ys[0]
  {
    if xs[0] != ys[0] {
      BeforeAsymmetric(keys, xs[0], ys[0]);
    }
  }

  lemma TailMembers(keys: seq<SortKey>, xs: seq<Row>, r: Row)
    requires xs != [] && Ordered(keys, xs)
    ensures r in xs[1..] <==> r in xs && r != xs[0]
  {
    if r in xs[1..] {
      BeforeIrreflexive(keys, r);
    }
  }

  // ----- the opposite order -----

  /** Every direction and every place of NULLs turned round. */
  function Flipped(keys: seq<SortKey>): (out: seq<SortKey>)
    ensures |out| == |keys|
  {
    if keys == [] then [] else [FlippedKey(keys[0])] + Flipped(keys[1..])
  }

  function FlippedKey(k: SortKey): SortKey {
    SortKey(k.column, !k.desc,
            if k.nulls.None? then None else Some(if k.nulls.value.NullsFirst? then NullsLast else NullsFirst))
  }

  lemma {:induction false} FlippedBefore(keys: seq<SortKey>, a: Row, b: Row)
    ensures Before(Flipped(keys), a, b) <==> Before(keys, b, a)
  {
    if keys != [] {
      assert Flipped(keys)[1..] == Flipped(keys[1..]);
      FlippedBefore(keys[1..], a, b);
    }
  }

  function Reverse(rows: seq<Row>): (out: seq<Row>)
    ensures |out| == |rows| && forall i :: 0 <= i < |rows| ==> out[i] == rows[|rows| - 1 - i]
    ensures forall r :: r in out <==> r in rows
  {
    if rows == [] then [] else
      assert forall r :: r in rows <==> r == rows[0] || r in rows[1..];
      Reverse(rows[1..]) + [rows[0]]
  }

  lemma ReverseOrdered(keys: seq<SortKey>, rows: seq<Row>)
    requires Ordered(keys, rows)
    ensures Ordered(Flipped(keys), Reverse(rows))
  {
    var out := Reverse(rows);
    forall i, j | 0 <= i < j < |out|
      ensures Before(Flipped(keys), out[i], out[j])
    {
      FlippedBefore(keys, out[i], out[j]);
    }
  }
}
