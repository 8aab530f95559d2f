/** Reading tokens as a query: AND binds tighter than OR (PostgreSQL documentation, section 4.1.6). */
module SqlParser {
  import opened Common
  import opened SqlTokens

  /** Numbers stand for driver parameters. */
  datatype Atom =
    | IsNull(column: Column)
    | IsNotNull(column: Column)
    | Compare(column: Column, op: Operator, param: nat)
    | RowCompare(columns: seq<Column>, op: Operator, params: seq<nat>)
    | OneOf(columns: seq<Column>, rows: seq<seq<nat>>)
    | Like(column: Column, param: nat)
    | Holds(column: Column, param: nat)

  /** AND and OR chains lean to the right; both operations are associative, so the side is immaterial. */
  datatype Syntax =
    | Leaf(atom: Atom)
    | Paren(body: Syntax)
    | And(left: Syntax, right: Syntax)
    | Or(left: Syntax, right: Syntax)

  datatype NullsPlace = NullsFirst | NullsLast

  datatype SortKey = SortKey(column: Column, desc: bool, nulls: Option<NullsPlace>)

  datatype Query = Query(
    distinct: bool, columns: seq<Column>, where: Syntax, order: seq<SortKey>, limit: Option<nat>)

  // ----- printing -----

  function ColumnTokens(cs: seq<Column>): seq<Token> {
    if cs == [] then []
    else if |cs| == 1 then [Col(cs[0])] else [Col(cs[0]), Comma] + ColumnTokens(cs[1..])
  }

  function ParamTokens(ns: seq<nat>): seq<Token> {
    if ns == [] then []
    else if |ns| == 1 then [Param(ns[0], false)] else [Param(ns[0], false), Comma] + ParamTokens(ns[1..])
  }

  function RowTokens(rows: seq<seq<nat>>): seq<Token> {
    if rows == [] then []
    else if |rows| == 1 then [LParen] + ParamTokens(rows[0]) + [RParen]
    else [LParen] + ParamTokens(rows[0]) + [RParen] + ([Comma] + RowTokens(rows[1..]))
  }

  /** Row values have at least two columns, lists are not empty. */
  predicate NormalAtom(a: Atom) {
    match a
    case RowCompare(cs, _, ns) => |cs| >= 2 && ns != []
    case OneOf(cs, rows) => |cs| >= 2 && rows != [] && forall i :: 0 <= i < |rows| ==> rows[i] != []
    case _ => true
  }

  predicate Normal(s: Syntax) {
    match s
    case Leaf(a) => NormalAtom(a)
    case Paren(b) => Normal(b)
    case And(l, r) => (l.Leaf? || l.Paren?) && Normal(l) && !r.Or? && Normal(r)
    case Or(l, r) => !l.Or? && Normal(l) && Normal(r)
  }

  function AtomTokens(a: Atom): (ts: seq<Token>)
    ensures |ts| >= 3
  {
    match a
    case IsNull(c) => [Col(c), Word(Is), Word(NullWord)]
    case IsNotNull(c) => [Col(c), Word(Is), Word(Not), Word(NullWord)]
    case Compare(c, op, n) => [Col(c), Op(op), Param(n, false)]
    case RowCompare(cs, op, ns) =>
      [LParen] + ColumnTokens(cs) + [RParen, Op(op), LParen] + ParamTokens(ns) + [RParen]
    case OneOf(cs, rows) =>
      [LParen] + ColumnTokens(cs) + [RParen, Word(In), LParen] + RowTokens(rows) + [RParen]
    case Like(c, n) => [Col(c), Word(ILike), Param(n, false)]
    case Holds(c, n) => [Col(c), Word(Contains), Param(n, true)]
  }

  function Tokens(s: Syntax): (ts: seq<Token>)
    ensures |ts| >= 3
  {
    match s
    case Leaf(a) => AtomTokens(a)
    case Paren(b) => [LParen] + Tokens(b) + [RParen]
    case And(l, r) => Tokens(l) + [Word(AndWord)] + Tokens(r)
    case Or(l, r) => Tokens(l) + [Word(OrWord)] + Tokens(r)
  }

  function KeyTokens(k: SortKey): seq<Token> {
    [Col(k.column), Word(if k.desc then Desc else Asc)] +
    if k.nulls.None? then []
    else [Word(Nulls), Word(if k.nulls.value.NullsFirst? then First else Last)]
  }

  function OrderTokens(keys: seq<SortKey>): seq<Token> {
    if keys == [] then []
    else if |keys| == 1 then KeyTokens(keys[0]) else KeyTokens(keys[0]) + [Comma] + OrderTokens(keys[1..])
  }

  function HeadTokens(distinct: bool, columns: seq<Column>): seq<Token> {
    [Word(Select)] + (if distinct then [Word(Distinct)] else []) + ColumnTokens(columns)
    + [Word(From), Word(Resources)]
  }

  function LimitTokens(limit: Option<nat>): seq<Token> {
    if limit.None? then [] else [Word(Limit), Param(limit.value, false)]
  }

  predicate NormalQuery(q: Query) {
    q.columns != [] && Normal(q.where)
  }

  function OrderClause(keys: seq<SortKey>): seq<Token> {
    if keys == [] then [] else [Word(Order), Word(By)] + OrderTokens(keys)
  }

  function QueryTokens(q: Query): seq<Token> {
    HeadTokens(q.distinct, q.columns) + [Word(Where)] + Tokens(q.where) + OrderClause(q.order) + LimitTokens(q.limit)
  }

  // ----- parsing -----

  function Expect(ts: seq<Token>, t: Token): (r: Option<seq<Token>>)
    ensures r.Some? ==> ts == [t] + r.value
  {
    if ts != [] && ts[0] == t then Some(ts[1..]) else None
  }

  predicate Next(ts: seq<Token>, t: Token) {
    ts != [] && ts[0] == t
  }

  function ParseColumns(ts: seq<Token>): (r: Option<(seq<Column>, seq<Token>)>)
    ensures r.Some? ==> |r.value.1| < |ts|
  {
    if ts == [] || !ts[0].Col? then None
    else if Next(ts[1..], Comma) then
      var (more, rest) :- ParseColumns(ts[2..]);
      Some(([ts[0].column] + more, rest))
    else Some(([ts[0].column], ts[1..]))
  }

  function ParseParams(ts: seq<Token>): (r: Option<(seq<nat>, seq<Token>)>)
    ensures r.Some? ==> |r.value.1| < |ts|
  {
    if ts == [] || !ts[0].Param? || ts[0].cast then None
    else if Next(ts[1..], Comma) then
      var (more, rest) :- ParseParams(ts[2..]);
      Some(([ts[0].index] + more, rest))
    else Some(([ts[0].index], ts[1..]))
  }

  function ParseRows(ts: seq<Token>): (r: Option<(seq<seq<nat>>, seq<Token>)>)
    decreases |ts|
    ensures r.Some? ==> |r.value.1| < |ts|
  {
    var (row, a) :- ParseRow(ts);
    if Next(a, Comma) then
      var (more, rest) :- ParseRows(a[1..]);
      Some(([row] + more, rest))
    else Some(([row], a))
  }

  function ParseRow(ts: seq<Token>): (r: Option<(seq<nat>, seq<Token>)>)
    ensures r.Some? ==> |r.value.1| < |ts|
  {
    var a :- Expect(ts, LParen);
    var (row, b) :- ParseParams(a);
    var rest :- Expect(b, RParen);
    Some((row, rest))
  }

  function ParseRowColumns(ts: seq<Token>): (r: Option<(seq<Column>, seq<Token>)>)
    ensures r.Some? ==> |r.value.1| < |ts|
  {
    var a :- Expect(ts, LParen);
    var (cs, b) :- ParseColumns(a);
    var rest :- Expect(b, RParen);
    Some((cs, rest))
  }

  /** `(a, b, …) op ($1, $2, …)` or `(a, b, …) IN ((…), …)`. */
  function ParseRowAtom(ts: seq<Token>): (r: Option<(Syntax, seq<Token>)>)
    ensures r.Some? ==> |r.value.1| < |ts|
  {
    var (cs, a) :- ParseRowColumns(ts);
    if a != [] && a[0].Op? then
      var b :- Expect(a[1..], LParen);
      var (ns, c) :- ParseParams(b);
      var rest :- Expect(c, RParen);
      Some((Leaf(RowCompare(cs, a[0].operator, ns)), rest))
    else
      var b :- Expect(a, Word(In));
      var c :- Expect(b, LParen);
      var (rows, d) :- ParseRows(c);
      var rest :- Expect(d, RParen);
      Some((Leaf(OneOf(cs, rows)), rest))
  }

  function ParseColumnAtom(ts: seq<Token>): (r: Option<(Syntax, seq<Token>)>)
    ensures r.Some? ==> |r.value.1| < |ts|
  {
    if |ts| < 3 || !ts[0].Col? then None
    else
      var c := ts[0].column;
      if ts[1] == Word(Is) && ts[2] == Word(NullWord) then Some((Leaf(IsNull(c)), ts[3..]))
      else if ts[1] == Word(Is) && ts[2] == Word(Not) && Next(ts[3..], Word(NullWord)) then
        Some((Leaf(IsNotNull(c)), ts[4..]))
      else if !ts[2].Param? then None
      else if ts[1].Op? && !ts[2].cast then Some((Leaf(Compare(c, ts[1].operator, ts[2].index)), ts[3..]))
      else if ts[1] == Word(ILike) && !ts[2].cast then Some((Leaf(Like(c, ts[2].index)), ts[3..]))
      else if ts[1] == Word(Contains) && ts[2].cast then Some((Leaf(Holds(c, ts[2].index)), ts[3..]))
      else None
  }

  /** A parenthesis opens a row value exactly when a column and a comma follow. */
  predicate OpensRow(ts: seq<Token>) {
    |ts| >= 3 && ts[0] == LParen && ts[1].Col? && ts[2] == Comma
  }

  function ParsePrimary(ts: seq<Token>): (r: Option<(Syntax, seq<Token>)>)
    decreases |ts|, 0
    ensures r.Some? ==> |r.value.1| < |ts|
  {
    if OpensRow(ts) then ParseRowAtom(ts)
    else if Next(ts, LParen) then
      var (s, a) :- ParseOr(ts[1..]);
      var rest :- Expect(a, RParen);
      Some((Paren(s), rest))
    else ParseColumnAtom(ts)
  }

  function ParseAnd(ts: seq<Token>): (r: Option<(Syntax, seq<Token>)>)
    decreases |ts|, 1
    ensures r.Some? ==> |r.value.1| < |ts|
  {
    var (l, a) :- ParsePrimary(ts);
    if Next(a, Word(AndWord)) then
      var (r, rest) :- ParseAnd(a[1..]);
      Some((And(l, r), rest))
    else Some((l, a))
  }

  function ParseOr(ts: seq<Token>): (r: Option<(Syntax, seq<Token>)>)
    decreases |ts|, 2
    ensures r.Some? ==> |r.value.1| < |ts|
  {
    var (l, a) :- ParseAnd(ts);
    if Next(a, Word(OrWord)) then
      var (r, rest) :- ParseOr(a[1..]);
      Some((Or(l, r), rest))
    else Some((l, a))
  }

  function ParseKey(ts: seq<Token>): (r: Option<(SortKey, seq<Token>)>)
    ensures r.Some? ==> |r.value.1| < |ts|
  {
    if |ts| < 2 || !ts[0].Col? || ts[1] !in {Word(Asc), Word(Desc)} then None
    else
      var c, desc := ts[0].column, ts[1] == Word(Desc);
      if !Next(ts[2..], Word(Nulls)) then Some((SortKey(c, desc, None), ts[2..]))
      else if Next(ts[3..], Word(First)) then Some((SortKey(c, desc, Some(NullsFirst)), ts[4..]))
      else if Next(ts[3..], Word(Last)) then Some((SortKey(c, desc, Some(NullsLast)), ts[4..]))
      else None
  }

  function ParseKeys(ts: seq<Token>): (r: Option<(seq<SortKey>, seq<Token>)>)
    decreases |ts|
    ensures r.Some? ==> |r.value.1| < |ts|
  {
    var (k, a) :- ParseKey(ts);
    if Next(a, Comma) then
      var (more, rest) :- ParseKeys(a[1..]);
      Some(([k] + more, rest))
    else Some(([k], a))
  }

  function ParseOrder(ts: seq<Token>): Option<(seq<SortKey>, seq<Token>)> {
    if Next(ts, Word(Order)) then
      var a :- Expect(ts[1..], Word(By));
      ParseKeys(a)
    else Some(([], ts))
  }

  function ParseLimit(ts: seq<Token>): Option<Option<nat>> {
    if ts == [] then Some(None)
    else if |ts| == 2 && ts[0] == Word(Limit) && ts[1].Param? && !ts[1].cast then Some(Some(ts[1].index))
    else None
  }

  function ParseHead(ts: seq<Token>): Option<(bool, seq<Column>, seq<Token>)> {
    var a :- Expect(ts, Word(Select));
    var distinct := Next(a, Word(Distinct));
    var (columns, b) :- ParseColumns(if distinct then a[1..] else a);
    var c :- Expect(b, Word(From));
    var rest :- Expect(c, Word(Resources));
    Some((distinct, columns, rest))
  }

  function ParseBody(ts: seq<Token>): Option<(Syntax, seq<SortKey>, Option<nat>)> {
    var a :- Expect(ts, Word(Where));
    var (where, b) :- ParseOr(a);
    var (order, c) :- ParseOrder(b);
    var limit :- ParseLimit(c);
    Some((where, order, limit))
  }

  function ParseQuery(ts: seq<Token>): Option<Query> {
    var (distinct, columns, a) :- ParseHead(ts);
    var (where, order, limit) :- ParseBody(a);
    Some(Query(distinct, columns, where, order, limit))
  }

  // ----- parsing undoes printing -----

  lemma {:induction false} ColumnsBack(cs: seq<Column>, rest: seq<Token>)
    requires cs != [] && !Next(rest, Comma)
    ensures ParseColumns(ColumnTokens(cs) + rest) == Some((cs, rest))
  {
    if |cs| == 1 {
      Tail(Col(cs[0]), rest);
      assert cs == [cs[0]];
    } else {
      var more := ColumnTokens(cs[1..]) + rest;
      assert cs == [cs[0]] + cs[1..];
      Regroup3([Col(cs[0]), Comma], ColumnTokens(cs[1..]), rest);
      assert [Col(cs[0]), Comma] + more == [Col(cs[0])] + ([Comma] + more);
      Tail(Col(cs[0]), [Comma] + more);
      assert ([Col(cs[0]), Comma] + more)[2..] == more;
      ColumnsBack(cs[1..], rest);
    }
  }

  lemma {:induction false} ParamsBack(ns: seq<nat>, rest: seq<Token>)
    requires ns != [] && !Next(rest, Comma)
    ensures ParseParams(ParamTokens(ns) + rest) == Some((ns, rest))
  {
    if |ns| == 1 {
      Tail(Param(ns[0], false), rest);
      assert ns == [ns[0]];
    } else {
      var more := ParamTokens(ns[1..]) + rest;
      assert ns == [ns[0]] + ns[1..];
      Regroup3([Param(ns[0], false), Comma], ParamTokens(ns[1..]), rest);
      assert [Param(ns[0], false), Comma] + more == [Param(ns[0], false)] + ([Comma] + more);
      Tail(Param(ns[0], false), [Comma] + more);
      assert ([Param(ns[0], false), Comma] + more)[2..] == more;
      ParamsBack(ns[1..], rest);
    }
  }

  lemma {:induction false} RowsBack(rows: seq<seq<nat>>, rest: seq<Token>)
    requires rows != [] && (forall i :: 0 <= i < |rows| ==> rows[i] != []) && !Next(rest, Comma)
    ensures ParseRows(RowTokens(rows) + rest) == Some((rows, rest))
  {
    hide ParseRow, ParamTokens;
    var row := ParamTokens(rows[0]);
    if |rows| == 1 {
      RowBack(rows[0], rest);
      assert rows == [rows[0]];
    } else {
      var tail := [Comma] + (RowTokens(rows[1..]) + rest);
      RowBack(rows[0], tail);
      Tail(Comma, RowTokens(rows[1..]) + rest);
      RowsBack(rows[1..], rest);
      assert RowTokens(rows) == [LParen] + row + [RParen] + ([Comma] + RowTokens(rows[1..]));
      Regroup3([LParen] + row + [RParen], [Comma] + RowTokens(rows[1..]), rest);
      Regroup3([Comma], RowTokens(rows[1..]), rest);
      assert rows == [rows[0]] + rows[1..];
    }
  }

  lemma RowBack(row: seq<nat>, rest: seq<Token>)
    requires row != []
    ensures ParseRow([LParen] + ParamTokens(row) + [RParen] + rest) == Some((row, rest))
  {
    var close := [RParen] + rest;
    Regroup4([LParen], ParamTokens(row), [RParen], rest);
    Tail(LParen, ParamTokens(row) + close);
    ParamsBack(row, close);
    Tail(RParen, rest);
  }

  lemma RowColumnsBack(cs: seq<Column>, rest: seq<Token>)
    requires |cs| >= 2
    ensures ParseRowColumns([LParen] + ColumnTokens(cs) + [RParen] + rest) == Some((cs, rest))
    ensures OpensRow([LParen] + ColumnTokens(cs) + [RParen] + rest)
  {
    var list := ColumnTokens(cs);
    var close := [RParen] + rest;
    Regroup4([LParen], list, [RParen], rest);
    Tail(LParen, list + close);
    ColumnsBack(cs, close);
    Tail(RParen, rest);
    assert [LParen] + list + [RParen] + rest == [LParen] + (list + close);
    assert list[0].Col? && list[1] == Comma;
  }

  lemma RowAtomBack(a: Atom, rest: seq<Token>)
    requires NormalAtom(a) && (a.RowCompare? || a.OneOf?)
    ensures ParseRowAtom(AtomTokens(a) + rest) == Some((Leaf(a), rest))
    ensures OpensRow(AtomTokens(a) + rest)
  {
    if a.RowCompare? {
      RowCompareBack(a, rest);
    } else {
      OneOfBack(a, rest);
    }
  }

  lemma RowCompareBack(a: Atom, rest: seq<Token>)
    requires NormalAtom(a) && a.RowCompare?
    ensures ParseRowAtom(AtomTokens(a) + rest) == Some((Leaf(a), rest))
    ensures OpensRow(AtomTokens(a) + rest)
  {
    var close := [RParen] + rest;
    var params := ParamTokens(a.params) + close;
    var tail := [Op(a.op), LParen] + params;
    assert AtomTokens(a) + rest == [LParen] + ColumnTokens(a.columns) + [RParen] + tail;
    hide ColumnTokens, ParamTokens, RowTokens, ParseRowColumns, ParseParams, ParseRows;
    RowColumnsBack(a.columns, tail);
    assert tail[1..][1..] == params;
    ParamsBack(a.params, close);
    assert close[1..] == rest;
  }

  lemma OneOfBack(a: Atom, rest: seq<Token>)
    requires NormalAtom(a) && a.OneOf?
    ensures ParseRowAtom(AtomTokens(a) + rest) == Some((Leaf(a), rest))
    ensures OpensRow(AtomTokens(a) + rest)
  {
    var close := [RParen] + rest;
    var rows := RowTokens(a.rows) + close;
    var tail := [Word(In), LParen] + rows;
    assert AtomTokens(a) + rest == [LParen] + ColumnTokens(a.columns) + [RParen] + tail;
    hide ColumnTokens, ParamTokens, RowTokens, ParseRowColumns, ParseParams, ParseRows;
    RowColumnsBack(a.columns, tail);
    assert tail[1..][1..] == rows;
    RowsBack(a.rows, close);
    assert close[1..] == rest;
  }

  lemma NotRow(s: Syntax, rest: seq<Token>)
    requires Normal(s)
    ensures !OpensRow([LParen] + Tokens(s) + rest)
  {
    match s
    case Leaf(a) => if a.RowCompare? || a.OneOf? { assert AtomTokens(a)[0] == LParen; }
    case Paren(b) =>
    case And(l, _) => NotRowStart(l);
    case Or(l, _) => NotRowStart(l);
  }

  lemma {:induction false} NotRowStart(s: Syntax)
    requires Normal(s)
    ensures !(Tokens(s)[0].Col? && Tokens(s)[1] == Comma)
  {
    match s
    case Leaf(a) => if a.RowCompare? || a.OneOf? { assert AtomTokens(a)[0] == LParen; }
    case Paren(b) =>
    case And(l, _) => NotRowStart(l);
    case Or(l, _) => NotRowStart(l);
  }

  lemma {:induction false} PrimaryBack(s: Syntax, rest: seq<Token>)
    requires Normal(s) && (s.Leaf? || s.Paren?)
    ensures ParsePrimary(Tokens(s) + rest) == Some((s, rest))
    decreases s, 0
  {
    var ts := Tokens(s) + rest;
    if s.Paren? {
      var close := [RParen] + rest;
      NotRow(s.body, close);
      Regroup4([LParen], Tokens(s.body), [RParen], rest);
      Regroup3([LParen], Tokens(s.body), close);
      Tail(LParen, Tokens(s.body) + close);
      OrBack(s.body, close);
      assert close[1..] == rest;
    } else if s.atom.RowCompare? || s.atom.OneOf? {
      RowAtomBack(s.atom, rest);
    } else {
      assert ts[|AtomTokens(s.atom)|..] == rest;
    }
  }

  lemma {:induction false} AndBack(s: Syntax, rest: seq<Token>)
    requires Normal(s) && !s.Or? && !Next(rest, Word(AndWord))
    ensures ParseAnd(Tokens(s) + rest) == Some((s, rest))
    decreases s, 1
  {
    if s.And? {
      var tail := [Word(AndWord)] + (Tokens(s.right) + rest);
      Regroup4(Tokens(s.left), [Word(AndWord)], Tokens(s.right), rest);
      PrimaryBack(s.left, tail);
      Tail(Word(AndWord), Tokens(s.right) + rest);
      AndBack(s.right, rest);
    } else {
      PrimaryBack(s, rest);
    }
  }

  /** Every normal condition is read back as itself, up to the first token that cannot continue it. */
  lemma {:induction false} OrBack(s: Syntax, rest: seq<Token>)
    requires Normal(s) && !Next(rest, Word(AndWord)) && !Next(rest, Word(OrWord))
    ensures ParseOr(Tokens(s) + rest) == Some((s, rest))
    decreases s, 2
  {
    if s.Or? {
      var tail := [Word(OrWord)] + (Tokens(s.right) + rest);
      Regroup4(Tokens(s.left), [Word(OrWord)], Tokens(s.right), rest);
      AndBack(s.left, tail);
      Tail(Word(OrWord), Tokens(s.right) + rest);
      OrBack(s.right, rest);
    } else {
      AndBack(s, rest);
    }
  }

  lemma KeyBack(k: SortKey, rest: seq<Token>)
    requires !Next(rest, Word(Nulls))
    ensures ParseKey(KeyTokens(k) + rest) == Some((k, rest))
  {
    var ts := KeyTokens(k) + rest;
    if k.nulls.None? {
      assert ts[2..] == rest;
    } else {
      assert ts[2..][0] == Word(Nulls) && ts[3..][0] == ts[3];
      assert ts[4..] == rest;
    }
  }

  lemma {:induction false} KeysBack(keys: seq<SortKey>, rest: seq<Token>)
    requires keys != [] && !Next(rest, Word(Nulls)) && !Next(rest, Comma)
    ensures ParseKeys(OrderTokens(keys) + rest) == Some((keys, rest))
  {
    if |keys| == 1 {
      KeyBack(keys[0], rest);
      assert keys == [keys[0]];
    } else {
      var tail := [Comma] + (OrderTokens(keys[1..]) + rest);
      assert OrderTokens(keys) + rest == KeyTokens(keys[0]) + tail;
      KeyBack(keys[0], tail);
      assert tail[1..] == OrderTokens(keys[1..]) + rest;
      KeysBack(keys[1..], rest);
      assert keys == [keys[0]] + keys[1..];
    }
  }

  lemma OrderBack(keys: seq<SortKey>, rest: seq<Token>)
    requires rest == [] || rest[0] == Word(Limit)
    ensures ParseOrder(OrderClause(keys) + rest) == Some((keys, rest))
  {
    hide OrderTokens, ParseKeys;
    if keys == [] {
      assert OrderClause(keys) + rest == rest;
    } else {
      var list := OrderTokens(keys) + rest;
      assert OrderClause(keys) + rest == [Word(Order)] + ([Word(By)] + list);
      Tail(Word(Order), [Word(By)] + list);
      Tail(Word(By), list);
      KeysBack(keys, rest);
    }
  }

  lemma HeadBack(distinct: bool, columns: seq<Column>, rest: seq<Token>)
    requires columns != []
    ensures ParseHead(HeadTokens(distinct, columns) + rest) == Some((distinct, columns, rest))
  {
    var cs, from := ColumnTokens(columns), [Word(From), Word(Resources)];
    var list := cs + (from + rest);
    ColumnsBack(columns, from + rest);
    Tail(Word(Resources), rest);
    assert from + rest == [Word(From)] + ([Word(Resources)] + rest);
    Tail(Word(From), [Word(Resources)] + rest);
    assert list[0] == Col(columns[0]);
    if distinct {
      HeadRegroup([Word(Select)], [Word(Distinct)], cs, from, rest);
      Tail(Word(Select), [Word(Distinct)] + list);
      Tail(Word(Distinct), list);
    } else {
      HeadRegroup([Word(Select)], [], cs, from, rest);
      assert [] + list == list;
      Tail(Word(Select), list);
    }
  }

  lemma HeadRegroup<T>(a: seq<T>, b: seq<T>, c: seq<T>, d: seq<T>, e: seq<T>)
    ensures a + b + c + d + e == a + (b + (c + (d + e)))
  {
  }

  lemma BodyBack(where: Syntax, order: seq<SortKey>, limit: Option<nat>)
    requires Normal(where)
    ensures ParseBody([Word(Where)] + Tokens(where) + OrderClause(order) + LimitTokens(limit))
         == Some((where, order, limit))
  {
    var lim := LimitTokens(limit);
    var tail := OrderClause(order) + lim;
    Regroup4([Word(Where)], Tokens(where), OrderClause(order), lim);
    Tail(Word(Where), Tokens(where) + tail);
    assert tail != [] ==> tail[0] in {Word(Order), Word(Limit)};
    OrBack(where, tail);
    OrderBack(order, lim);
    hide Tokens, ParseOr, ParseOrder, OrderClause;
  }

  /** A printed query is read back as itself. */
  lemma QueryBack(q: Query)
    requires NormalQuery(q)
    ensures ParseQuery(QueryTokens(q)) == Some(q)
  {
    hide HeadTokens, Tokens, OrderClause, LimitTokens, ParseHead, ParseBody;
    var body := [Word(Where)] + Tokens(q.where) + OrderClause(q.order) + LimitTokens(q.limit);
    assert QueryTokens(q) == HeadTokens(q.distinct, q.columns) + body;
    HeadBack(q.distinct, q.columns, body);
    BodyBack(q.where, q.order, q.limit);
  }
}
