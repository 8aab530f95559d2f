/** What a condition and a query mean on rows, and what joining conditions with AND does to their meaning. */
module SqlMeaning {
  import opened Common
  import opened SqlTokens
  import opened SqlLexer
  import opened SqlParser
  import opened Database
  import opened SortedRows
  import Like

  // ----- evaluation -----

  /** The value bound to `$n`. */
  function Arg(args: seq<Value>, n: nat): Value {
    if 1 <= n <= |args| then args[n - 1] else Null
  }

  function ArgList(args: seq<Value>, ns: seq<nat>): (vs: seq<Value>)
    ensures |vs| == |ns|
  {
    if ns == [] then [] else [Arg(args, ns[0])] + ArgList(args, ns[1..])
  }

  function Fields(r: Row, cs: seq<Column>): (vs: seq<Value>)
    ensures |vs| == |cs|
  {
    if cs == [] then [] else [Field(r, cs[0])] + Fields(r, cs[1..])
  }

  lemma {:induction false} FieldsAt(r: Row, cs: seq<Column>)
    ensures forall i :: 0 <= i < |cs| ==> Fields(r, cs)[i] == Field(r, cs[i])
  {
    if cs != [] {
      FieldsAt(r, cs[1..]);
    }
  }

  /** What the driver hands over: the selected columns of each row, in the order of the SELECT clause. */
  function Projected(cs: seq<Column>, rows: seq<Row>): (answer: seq<seq<Value>>)
    ensures |answer| == |rows| && forall i :: 0 <= i < |rows| ==> answer[i] == Fields(rows[i], cs)
  {
    if rows == [] then [] else [Fields(rows[0], cs)] + Projected(cs, rows[1..])
  }

  ghost function EvalOneOf(vs: seq<Value>, rows: seq<seq<nat>>, args: seq<Value>): Truth {
    if rows == [] then False
    else Either(CompareRows(Equal, vs, ArgList(args, rows[0])), EvalOneOf(vs, rows[1..], args))
  }

  ghost function EvalLike(v: Value, pattern: Value): Truth {
    match (v, pattern)
    case (Text(t), Text(p)) => Decide(Like.ILikeMatch(Like.CaseFold(), t, p))
    case _ => Unknown
  }

  function EvalHolds(c: Column, query: Value, r: Row): Truth {
    if c == Labels && query.Text? then Decide(query.s in r.labelQueries) else Unknown
  }

  ghost function EvalAtom(a: Atom, args: seq<Value>, r: Row): Truth {
    match a
    case IsNull(c) => Decide(Field(r, c).Null?)
    case IsNotNull(c) => Decide(!Field(r, c).Null?)
    case Compare(c, op, n) => CompareRows(op, [Field(r, c)], [Arg(args, n)])
    case RowCompare(cs, op, ns) => CompareRows(op, Fields(r, cs), ArgList(args, ns))
    case OneOf(cs, rows) => EvalOneOf(Fields(r, cs), rows, args)
    case Like(c, n) => EvalLike(Field(r, c), Arg(args, n))
    case Holds(c, n) => EvalHolds(c, Arg(args, n), r)
  }

  ghost function Eval(s: Syntax, args: seq<Value>, r: Row): Truth {
    match s
    case Leaf(a) => EvalAtom(a, args, r)
    case Paren(b) => Eval(b, args, r)
    case And(x, y) => Both(Eval(x, args, r), Eval(y, args, r))
    case Or(x, y) => Either(Eval(x, args, r), Eval(y, args, r))
  }

  /** WHERE keeps a row when the condition is true, not when it is unknown. */
  ghost function Keep(s: Syntax, args: seq<Value>, table: seq<Row>): (kept: seq<Row>)
    ensures |kept| <= |table|
    ensures forall r :: r in kept <==> r in table && Eval(s, args, r) == True
  {
    if table == [] then []
    else (if Eval(s, args, table[0]) == True then [table[0]] else []) + Keep(s, args, table[1..])
  }

  lemma {:induction false} KeepDistinct(s: Syntax, args: seq<Value>, table: seq<Row>)
    requires DistinctIds(table)
    ensures DistinctIds(Keep(s, args, table))
  {
    if table != [] {
      KeepDistinct(s, args, table[1..]);
      var rest := Keep(s, args, table[1..]);
      forall j | 0 <= j < |rest|
        ensures rest[j].id != table[0].id
      {
        assert rest[j] in table[1..];
      }
    }
  }

  function TakeAtMost(limit: Option<nat>, args: seq<Value>, rows: seq<Row>): seq<Row> {
    if limit.None? then rows
    else match Arg(args, limit.value)
      case Num(n) => if 0 <= n < |rows| then rows[..n] else rows
      case _ => rows
  }

  ghost function Answer(q: Query, args: seq<Value>, table: seq<Row>): seq<Row> {
    TakeAtMost(q.limit, args, Sort(q.order, Keep(q.where, args, table)))
  }

  ghost function ReadQuery(text: string): Option<Query> {
    ParseQuery(Lex(text))
  }

  // ----- parameters -----

  function FlattenParams(rows: seq<seq<nat>>): seq<nat> {
    if rows == [] then [] else rows[0] + FlattenParams(rows[1..])
  }

  function AtomParams(a: Atom): seq<nat> {
    match a
    case IsNull(_) => []
    case IsNotNull(_) => []
    case Compare(_, _, n) => [n]
    case RowCompare(_, _, ns) => ns
    case OneOf(_, rows) => FlattenParams(rows)
    case Like(_, n) => [n]
    case Holds(_, n) => [n]
  }

  /** The parameter numbers of a condition, left to right. */
  function Params(s: Syntax): seq<nat> {
    match s
    case Leaf(a) => AtomParams(a)
    case Paren(b) => Params(b)
    case And(x, y) => Params(x) + Params(y)
    case Or(x, y) => Params(x) + Params(y)
  }

  function ShiftAll(ns: seq<nat>, k: nat): (r: seq<nat>)
    ensures |r| == |ns| && forall i :: 0 <= i < |ns| ==> r[i] == ns[i] + k
  {
    if ns == [] then [] else [ns[0] + k] + ShiftAll(ns[1..], k)
  }

  function ShiftRows(rows: seq<seq<nat>>, k: nat): (r: seq<seq<nat>>)
    ensures |r| == |rows| && forall i :: 0 <= i < |rows| ==> r[i] == ShiftAll(rows[i], k)
  {
    if rows == [] then [] else [ShiftAll(rows[0], k)] + ShiftRows(rows[1..], k)
  }

  function ShiftAtom(a: Atom, k: nat): Atom {
    match a
    case IsNull(_) => a
    case IsNotNull(_) => a
    case Compare(c, op, n) => Compare(c, op, n + k)
    case RowCompare(cs, op, ns) => RowCompare(cs, op, ShiftAll(ns, k))
    case OneOf(cs, rows) => OneOf(cs, ShiftRows(rows, k))
    case Like(c, n) => Like(c, n + k)
    case Holds(c, n) => Holds(c, n + k)
  }

  /** The condition with every parameter number raised by k. */
  function Shift(s: Syntax, k: nat): (r: Syntax)
    ensures r.Or? == s.Or?
  {
    match s
    case Leaf(a) => Leaf(ShiftAtom(a, k))
    case Paren(b) => Paren(Shift(b, k))
    case And(x, y) => And(Shift(x, k), Shift(y, k))
    case Or(x, y) => Or(Shift(x, k), Shift(y, k))
  }

  predicate Within(ns: seq<nat>, n: nat) {
    forall i :: 0 <= i < |ns| ==> 1 <= ns[i] <= n
  }

  lemma OneArgWindow(n: nat, before: seq<Value>, own: seq<Value>, after: seq<Value>)
    requires Within([n], |own|)
    ensures Arg(before + own + after, n + |before|) == Arg(own, n)
  {
    assert 1 <= [n][0] <= |own|;
    assert (before + own + after)[|before| + n - 1] == own[n - 1];
  }

  lemma {:induction false} ArgWindow(ns: seq<nat>, before: seq<Value>, own: seq<Value>, after: seq<Value>)
    requires Within(ns, |own|)
    ensures ArgList(before + own + after, ShiftAll(ns, |before|)) == ArgList(own, ns)
  {
    if ns != [] {
      OneArgWindow(ns[0], before, own, after);
      ArgWindow(ns[1..], before, own, after);
    }
  }

  lemma {:induction false} OneOfWindow(
      vs: seq<Value>, rows: seq<seq<nat>>, before: seq<Value>, own: seq<Value>, after: seq<Value>)
    requires Within(FlattenParams(rows), |own|)
    ensures EvalOneOf(vs, ShiftRows(rows, |before|), before + own + after) == EvalOneOf(vs, rows, own)
  {
    if rows != [] {
      var flat := FlattenParams(rows);
      assert rows[0] == flat[..|rows[0]|] && FlattenParams(rows[1..]) == flat[|rows[0]|..];
      ArgWindow(rows[0], before, own, after);
      OneOfWindow(vs, rows[1..], before, own, after);
    }
  }

  /** Inside a longer argument list, a renumbered condition means what it means on its own arguments. */
  lemma {:induction false} EvalWindow(s: Syntax, before: seq<Value>, own: seq<Value>, after: seq<Value>, r: Row)
    requires Within(Params(s), |own|)
    ensures Eval(Shift(s, |before|), before + own + after, r) == Eval(s, own, r)
  {
    match s
    case Leaf(a) =>
      match a {
        case IsNull(_) =>
        case IsNotNull(_) =>
        case Compare(_, _, n) => OneArgWindow(n, before, own, after);
        case RowCompare(_, _, ns) => ArgWindow(ns, before, own, after);
        case OneOf(cs, rows) => OneOfWindow(Fields(r, cs), rows, before, own, after);
        case Like(_, n) => OneArgWindow(n, before, own, after);
        case Holds(_, n) => OneArgWindow(n, before, own, after);
      }
    case Paren(b) => EvalWindow(b, before, own, after, r);
    case And(x, y) =>
      assert Params(x) == Params(s)[..|Params(x)|] && Params(y) == Params(s)[|Params(x)|..];
      EvalWindow(x, before, own, after, r);
      EvalWindow(y, before, own, after, r);
    case Or(x, y) =>
      assert Params(x) == Params(s)[..|Params(x)|] && Params(y) == Params(s)[|Params(x)|..];
      EvalWindow(x, before, own, after, r);
      EvalWindow(y, before, own, after, r);
  }

  // ----- joining with AND -----

  /** A condition that AND can be written beside without parentheses. */
  predicate AndSafe(s: Syntax) {
    !s.Or?
  }

  /** The condition that the text `s AND t` is read as: a top-level OR on either side swallows the AND. */
  function Join(s: Syntax, t: Syntax): (r: Syntax)
    ensures r.Or? <==> s.Or? || t.Or?
    decreases s, t
  {
    if s.Or? then Or(s.left, Join(s.right, t))
    else if t.Or? then Or(Join(s, t.left), t.right)
    else if s.And? then And(s.left, Join(s.right, t))
    else And(s, t)
  }

  lemma {:induction false} ShiftNormal(s: Syntax, k: nat)
    requires Normal(s)
    ensures Normal(Shift(s, k))
  {
    match s
    case Leaf(a) =>
    case Paren(b) => ShiftNormal(b, k);
    case And(x, y) => ShiftNormal(x, k); ShiftNormal(y, k);
    case Or(x, y) => ShiftNormal(x, k); ShiftNormal(y, k);
  }

  lemma {:induction false} JoinNormal(s: Syntax, t: Syntax)
    requires Normal(s) && Normal(t)
    ensures Normal(Join(s, t))
    decreases s, t
  {
    if s.Or? {
      JoinNormal(s.right, t);
    } else if t.Or? {
      JoinNormal(s, t.left);
    } else if s.And? {
      JoinNormal(s.right, t);
    }
  }

  lemma {:induction false} JoinTokens(s: Syntax, t: Syntax)
    ensures Tokens(Join(s, t)) == Tokens(s) + [Word(AndWord)] + Tokens(t)
    decreases s, t
  {
    var and := [Word(AndWord)];
    if s.Or? {
      JoinTokens(s.right, t);
      Regroup5(Tokens(s.left), [Word(OrWord)], Tokens(s.right), and, Tokens(t));
    } else if t.Or? {
      JoinTokens(s, t.left);
      Regroup5(Tokens(s), and, Tokens(t.left), [Word(OrWord)], Tokens(t.right));
    } else if s.And? {
      JoinTokens(s.right, t);
      Regroup5(Tokens(s.left), and, Tokens(s.right), and, Tokens(t));
    }
  }

  /** The text `s AND t` is read as Join(s, t). */
  lemma JoinIsReading(s: Syntax, t: Syntax)
    requires Normal(s) && Normal(t)
    ensures ParseOr(Tokens(s) + [Word(AndWord)] + Tokens(t)) == Some((Join(s, t), []))
  {
    JoinTokens(s, t);
    JoinNormal(s, t);
    OrBack(Join(s, t), []);
    assert Tokens(Join(s, t)) + [] == Tokens(Join(s, t));
  }

  lemma BothAssociative(a: Truth, b: Truth, c: Truth)
    ensures Both(a, Both(b, c)) == Both(Both(a, b), c)
    ensures Either(a, Either(b, c)) == Either(Either(a, b), c)
  {
  }

  /** Joined AND-safe conditions mean their conjunction. */
  lemma {:induction false} JoinMeansBoth(s: Syntax, t: Syntax, args: seq<Value>, r: Row)
    requires Normal(s) && AndSafe(s) && AndSafe(t)
    ensures Eval(Join(s, t), args, r) == Both(Eval(s, args, r), Eval(t, args, r))
  {
    if s.And? {
      JoinMeansBoth(s.right, t, args, r);
      BothAssociative(Eval(s.left, args, r), Eval(s.right, args, r), Eval(t, args, r));
    }
  }

  /** A trailing `c OR d` keeps only c inside the conjunction. */
  lemma JoinBeforeOr(s: Syntax, t: Syntax, args: seq<Value>, r: Row)
    requires Normal(s) && Normal(t) && AndSafe(s) && t.Or?
    ensures Eval(Join(s, t), args, r)
         == Either(Both(Eval(s, args, r), Eval(t.left, args, r)), Eval(t.right, args, r))
  {
    JoinMeansBoth(s, t.left, args, r);
  }
}
