/** Conditions with their arguments, and how the rendered text of several of them reads. */
module Fragments {
  import opened Common
  import opened SqlTokens
  import opened SqlLexer
  import opened SqlParser
  import opened Database
  import opened SqlMeaning
  import opened QueryBuilder

  /** A condition whose parameters 1, 2, … stand for its own arguments. */
  datatype Fragment = Fragment(tree: Syntax, args: seq<Value>)

  predicate Sequential(ns: seq<nat>, first: nat) {
    forall i :: 0 <= i < |ns| ==> ns[i] == first + i
  }

  /** One argument for every placeholder, in the order of the text. */
  predicate Good(f: Fragment) {
    Normal(f.tree) && Sequential(Params(f.tree), 1) && |Params(f.tree)| == |f.args|
  }

  predicate AllGood(fs: seq<Fragment>) {
    forall i :: 0 <= i < |fs| ==> Good(fs[i])
  }

  function ToHole(t: Token): Token {
    if t.Param? then Hole(t.cast) else t
  }

  function HoleTokens(ts: seq<Token>): (hs: seq<Token>)
    ensures |hs| == |ts|
  {
    if ts == [] then [] else [ToHole(ts[0])] + HoleTokens(ts[1..])
  }

  /** The text handed to Where: `?` for every parameter. */
  function FragmentText(f: Fragment): string {
    Show(HoleTokens(Tokens(f.tree)))
  }

  function Texts(fs: seq<Fragment>): (texts: seq<string>)
    ensures |texts| == |fs|
  {
    if fs == [] then [] else [FragmentText(fs[0])] + Texts(fs[1..])
  }

  function AllArgs(fs: seq<Fragment>): seq<Value> {
    if fs == [] then [] else fs[0].args + AllArgs(fs[1..])
  }

  // ----- numbering on tokens -----

  function Indexes(ts: seq<Token>): seq<nat> {
    if ts == [] then [] else (if ts[0].Param? then [ts[0].index] else []) + Indexes(ts[1..])
  }

  lemma {:induction false} IndexesAppend(a: seq<Token>, b: seq<Token>)
    ensures Indexes(a + b) == Indexes(a) + Indexes(b)
  {
    if a == [] {
      assert a + b == b;
    } else {
      var head := if a[0].Param? then [a[0].index] else [];
      assert (a + b)[1..] == a[1..] + b && (a + b)[0] == a[0];
      IndexesAppend(a[1..], b);
      Regroup3(head, Indexes(a[1..]), Indexes(b));
    }
  }

  lemma {:induction false} NoIndexes(ts: seq<Token>)
    requires forall i :: 0 <= i < |ts| ==> !ts[i].Param?
    ensures Indexes(ts) == []
  {
    if ts != [] {
      NoIndexes(ts[1..]);
    }
  }

  lemma {:induction false} ColumnIndexes(cs: seq<Column>)
    ensures Indexes(ColumnTokens(cs)) == []
  {
    if |cs| > 1 {
      ColumnIndexes(cs[1..]);
      IndexesAppend([Col(cs[0]), Comma], ColumnTokens(cs[1..]));
      assert Indexes([Col(cs[0]), Comma]) == [];
    }
  }

  lemma {:induction false} ParamIndexes(ns: seq<nat>)
    ensures Indexes(ParamTokens(ns)) == ns
  {
    if |ns| > 1 {
      ParamIndexes(ns[1..]);
      IndexesAppend([Param(ns[0], false), Comma], ParamTokens(ns[1..]));
      assert Indexes([Param(ns[0], false), Comma]) == [ns[0]];
      assert ns == [ns[0]] + ns[1..];
    } else if |ns| == 1 {
      assert ns == [ns[0]];
    }
  }

  lemma Indexes3(a: seq<Token>, b: seq<Token>, c: seq<Token>)
    ensures Indexes(a + b + c) == Indexes(a) + Indexes(b) + Indexes(c)
  {
    IndexesAppend(a + b, c);
    IndexesAppend(a, b);
  }

  lemma {:induction false} RowIndexes(rows: seq<seq<nat>>)
    requires rows != []
    ensures Indexes(RowTokens(rows)) == FlattenParams(rows)
  {
    hide ParamTokens, Indexes;
    OneRowIndexes(rows[0]);
    if |rows| == 1 {
      assert FlattenParams(rows[1..]) == [];
      assert rows[0] + [] == rows[0];
    } else {
      RowIndexes(rows[1..]);
      MoreRowIndexes([LParen] + ParamTokens(rows[0]) + [RParen], RowTokens(rows[1..]));
    }
  }

  lemma MoreRowIndexes(row: seq<Token>, more: seq<Token>)
    ensures Indexes(row + ([Comma] + more)) == Indexes(row) + Indexes(more)
  {
    IndexesAppend(row, [Comma] + more);
    Tail(Comma, more);
  }

  lemma OneRowIndexes(row: seq<nat>)
    ensures Indexes([LParen] + ParamTokens(row) + [RParen]) == row
  {
    NoIndexes([LParen]);
    NoIndexes([RParen]);
    ParamIndexes(row);
    hide ParamTokens, Indexes;
    Indexes3([LParen], ParamTokens(row), [RParen]);
  }

  lemma RowAtomIndexes(cs: seq<Column>, mid: seq<Token>, list: seq<Token>)
    requires |mid| == 3 && forall i :: 0 <= i < |mid| ==> !mid[i].Param?
    ensures Indexes([LParen] + ColumnTokens(cs) + mid + list + [RParen]) == Indexes(list)
  {
    var head := [LParen] + ColumnTokens(cs);
    ColumnIndexes(cs);
    IndexesAppend([LParen], ColumnTokens(cs));
    IndexesAppend([mid[0], mid[1]], [mid[2]]);
    assert mid == [mid[0], mid[1]] + [mid[2]];
    Indexes3(head, mid, list);
    IndexesAppend(head + mid + list, [RParen]);
  }

  lemma RowCompareIndexes(cs: seq<Column>, op: Operator, ns: seq<nat>)
    ensures Indexes(AtomTokens(RowCompare(cs, op, ns))) == ns
  {
    hide ColumnTokens, ParamTokens, Indexes;
    ParamIndexes(ns);
    RowAtomIndexes(cs, [RParen, Op(op), LParen], ParamTokens(ns));
  }

  lemma OneOfIndexes(cs: seq<Column>, rows: seq<seq<nat>>)
    ensures Indexes(AtomTokens(OneOf(cs, rows))) == FlattenParams(rows)
  {
    if rows != [] {
      RowIndexes(rows);
    }
    assert Indexes(RowTokens(rows)) == FlattenParams(rows);
    hide ColumnTokens, RowTokens, Indexes, FlattenParams;
    RowAtomIndexes(cs, [RParen, Word(In), LParen], RowTokens(rows));
  }

  lemma AtomIndexes(a: Atom)
    ensures Indexes(AtomTokens(a)) == AtomParams(a)
  {
    hide ColumnTokens, ParamTokens, RowTokens, FlattenParams;
    match a
    case IsNull(c) => IndexesAppend([Col(c), Word(Is)], [Word(NullWord)]);
    case IsNotNull(c) => IndexesAppend([Col(c), Word(Is)], [Word(Not), Word(NullWord)]);
    case Compare(c, op, n) => IndexesAppend([Col(c), Op(op)], [Param(n, false)]);
    case RowCompare(cs, op, ns) => RowCompareIndexes(cs, op, ns);
    case OneOf(cs, rows) => OneOfIndexes(cs, rows);
    case Like(c, n) => IndexesAppend([Col(c), Word(ILike)], [Param(n, false)]);
    case Holds(c, n) => IndexesAppend([Col(c), Word(Contains)], [Param(n, true)]);
  }

  lemma {:induction false} TokenIndexes(s: Syntax)
    ensures Indexes(Tokens(s)) == Params(s)
  {
    hide AtomTokens, AtomParams;
    match s
    case Leaf(a) => AtomIndexes(a);
    case Paren(b) =>
      TokenIndexes(b);
      Indexes3([LParen], Tokens(b), [RParen]);
    case And(x, y) =>
      TokenIndexes(x);
      TokenIndexes(y);
      Indexes3(Tokens(x), [Word(AndWord)], Tokens(y));
    case Or(x, y) =>
      TokenIndexes(x);
      TokenIndexes(y);
      Indexes3(Tokens(x), [Word(OrWord)], Tokens(y));
  }

  // ----- shifting keeps the text -----

  lemma {:induction false} ShiftAppend(a: seq<nat>, b: seq<nat>, k: nat)
    ensures ShiftAll(a + b, k) == ShiftAll(a, k) + ShiftAll(b, k)
  {
    if a == [] {
      assert a + b == b;
    } else {
      assert (a + b)[1..] == a[1..] + b;
      ShiftAppend(a[1..], b, k);
      Regroup3([a[0] + k], ShiftAll(a[1..], k), ShiftAll(b, k));
    }
  }

  lemma {:induction false} ShiftRowParams(rows: seq<seq<nat>>, k: nat)
    ensures FlattenParams(ShiftRows(rows, k)) == ShiftAll(FlattenParams(rows), k)
  {
    if rows != [] {
      ShiftRowParams(rows[1..], k);
      ShiftAppend(rows[0], FlattenParams(rows[1..]), k);
    }
  }

  lemma {:induction false} ShiftParams(s: Syntax, k: nat)
    ensures Params(Shift(s, k)) == ShiftAll(Params(s), k)
  {
    match s
    case Leaf(a) =>
      if a.OneOf? {
        ShiftRowParams(a.rows, k);
      }
    case Paren(b) => ShiftParams(b, k);
    case And(x, y) =>
      ShiftParams(x, k);
      ShiftParams(y, k);
      ShiftAppend(Params(x), Params(y), k);
    case Or(x, y) =>
      ShiftParams(x, k);
      ShiftParams(y, k);
      ShiftAppend(Params(x), Params(y), k);
  }

  /** Same tokens up to the numbers of the parameters. */
  predicate SameHoles(a: seq<Token>, b: seq<Token>) {
    |a| == |b| && forall i :: 0 <= i < |a| ==> ToHole(a[i]) == ToHole(b[i])
  }

  lemma SameHolesAppend(a: seq<Token>, b: seq<Token>, c: seq<Token>, d: seq<Token>)
    requires SameHoles(a, b) && SameHoles(c, d)
    ensures SameHoles(a + c, b + d)
  {
  }

  lemma {:induction false} SameHolesEqual(a: seq<Token>, b: seq<Token>)
    requires SameHoles(a, b)
    ensures HoleTokens(a) == HoleTokens(b)
  {
    if a != [] {
      SameHolesEqual(a[1..], b[1..]);
    }
  }

  lemma {:induction false} ShiftParamTokens(ns: seq<nat>, k: nat)
    ensures SameHoles(ParamTokens(ns), ParamTokens(ShiftAll(ns, k)))
  {
    if |ns| > 1 {
      ShiftParamTokens(ns[1..], k);
    }
  }

  lemma {:induction false} ShiftRowTokens(rows: seq<seq<nat>>, k: nat)
    requires rows != []
    ensures SameHoles(RowTokens(rows), RowTokens(ShiftRows(rows, k)))
  {
    var a, b := ParamTokens(rows[0]), ParamTokens(ShiftAll(rows[0], k));
    ShiftParamTokens(rows[0], k);
    SameHolesAppend([LParen], [LParen], a, b);
    SameHolesAppend([LParen] + a, [LParen] + b, [RParen], [RParen]);
    if |rows| > 1 {
      var c, d := RowTokens(rows[1..]), RowTokens(ShiftRows(rows[1..], k));
      ShiftRowTokens(rows[1..], k);
      SameHolesAppend([Comma], [Comma], c, d);
      SameHolesAppend([LParen] + a + [RParen], [LParen] + b + [RParen], [Comma] + c, [Comma] + d);
    }
  }

  lemma ShiftAtomTokens(a: Atom, k: nat)
    ensures SameHoles(AtomTokens(a), AtomTokens(ShiftAtom(a, k)))
  {
    match a
    case IsNull(_) =>
    case IsNotNull(_) =>
    case Compare(_, _, _) =>
    case RowCompare(cs, op, ns) =>
      var head := [LParen] + ColumnTokens(cs) + [RParen, Op(op), LParen];
      ShiftParamTokens(ns, k);
      SameHolesAppend(head, head, ParamTokens(ns), ParamTokens(ShiftAll(ns, k)));
      SameHolesAppend(head + ParamTokens(ns), head + ParamTokens(ShiftAll(ns, k)), [RParen], [RParen]);
    case OneOf(cs, rows) =>
      var head := [LParen] + ColumnTokens(cs) + [RParen, Word(In), LParen];
      if rows != [] {
        ShiftRowTokens(rows, k);
      }
      SameHolesAppend(head, head, RowTokens(rows), RowTokens(ShiftRows(rows, k)));
      SameHolesAppend(head + RowTokens(rows), head + RowTokens(ShiftRows(rows, k)), [RParen], [RParen]);
    case Like(_, _) =>
    case Holds(_, _) =>
  }

  lemma {:induction false} ShiftTokens(s: Syntax, k: nat)
    ensures SameHoles(Tokens(s), Tokens(Shift(s, k)))
  {
    match s
    case Leaf(a) => ShiftAtomTokens(a, k);
    case Paren(b) => ShiftTokens(b, k);
    case And(x, y) =>
      ShiftTokens(x, k);
      ShiftTokens(y, k);
      var w := [Word(AndWord)];
      SameHolesAppend(Tokens(x), Tokens(Shift(x, k)), w, w);
      SameHolesAppend(Tokens(x) + w, Tokens(Shift(x, k)) + w, Tokens(y), Tokens(Shift(y, k)));
    case Or(x, y) =>
      ShiftTokens(x, k);
      ShiftTokens(y, k);
      var w := [Word(OrWord)];
      SameHolesAppend(Tokens(x), Tokens(Shift(x, k)), w, w);
      SameHolesAppend(Tokens(x) + w, Tokens(Shift(x, k)) + w, Tokens(y), Tokens(Shift(y, k)));
  }

  // ----- numbering on characters -----

  lemma LexemeHoleFree(t: Token)
    requires Lexeme(t)
    ensures '?' !in TokenText(t)
  {
    LexemeChars(t);
  }

  lemma NumberToken(t: Token, k: nat)
    requires Rendered(t) && (t.Param? ==> t.index == k)
    ensures Numbered(TokenText(ToHole(t)), k) == TokenText(t)
    ensures HoleCount(TokenText(ToHole(t))) == if t.Param? then 1 else 0
  {
    if t.Param? {
      NumberHole(t.index, t.cast);
    } else {
      if Lexeme(t) {
        LexemeHoleFree(t);
      }
      NoHoles(TokenText(t), k);
    }
  }

  lemma NumberHole(k: nat, cast: bool)
    ensures Numbered(TokenText(Hole(cast)), k) == TokenText(Param(k, cast))
    ensures HoleCount(TokenText(Hole(cast))) == 1
  {
    hide Decimal;
    var tail := if cast then CAST else "";
    NoHoles(tail, k + 1);
    NumberedAppend("?", tail, k);
    assert Numbered("?", k) == "$" + Decimal(k) + "";
  }

  /** Numbering the shown holes shows the numbered parameters. */
  lemma {:induction false} NumberShown(ts: seq<Token>, k: nat)
    requires AllRendered(ts) && Sequential(Indexes(ts), k)
    ensures Numbered(Show(HoleTokens(ts)), k) == Show(ts)
    ensures HoleCount(Show(HoleTokens(ts))) == |Indexes(ts)|
  {
    if ts != [] {
      var t, more := ts[0], ts[1..];
      assert t.Param? ==> Indexes(ts)[0] == t.index;
      NumberToken(t, k);
      if |ts| > 1 {
        var next, gap := if t.Param? then k + 1 else k, Gap(t, ts[1]);
        assert Indexes(more) == if t.Param? then Indexes(ts)[1..] else Indexes(ts);
        NumberShown(more, next);
        NumberStep(t, ts[1], more, k, next);
        assert ts == [t] + more;
      }
    }
  }

  lemma SameGap(t: Token, u: Token)
    ensures Gap(ToHole(t), ToHole(u)) == Gap(t, u)
    ensures '?' !in Gap(t, u)
  {
  }

  lemma NumberStep(t: Token, u: Token, more: seq<Token>, k: nat, next: nat)
    requires more != [] && more[0] == u && Rendered(t) && (t.Param? ==> t.index == k)
    requires next == if t.Param? then k + 1 else k
    requires Numbered(TokenText(ToHole(t)), k) == TokenText(t)
    requires HoleCount(TokenText(ToHole(t))) == if t.Param? then 1 else 0
    requires Numbered(Show(HoleTokens(more)), next) == Show(more)
    ensures Numbered(Show(HoleTokens([t] + more)), k) == Show([t] + more)
    ensures HoleCount(Show(HoleTokens([t] + more)))
         == (if t.Param? then 1 else 0) + HoleCount(Show(HoleTokens(more)))
  {
    hide TokenText, Numbered, HoleCount, Gap, Rendered;
    var h, gap, rest := TokenText(ToHole(t)), Gap(t, u), Show(HoleTokens(more));
    Tail(t, more);
    Tail(ToHole(t), HoleTokens(more));
    assert HoleTokens([t] + more) == [ToHole(t)] + HoleTokens(more);
    SameGap(t, u);
    assert Show([ToHole(t)] + HoleTokens(more)) == h + gap + rest;
    NumberedAppend(h + gap, rest, k);
    NumberedAppend(h, gap, k);
    NoHoles(gap, next);
  }

  // ----- tokens of conditions may be rendered -----

  lemma {:induction false} ColumnsRendered(cs: seq<Column>)
    ensures AllRendered(ColumnTokens(cs))
  {
    if |cs| > 1 {
      ColumnsRendered(cs[1..]);
    }
  }

  lemma {:induction false} ParamsRendered(ns: seq<nat>)
    ensures AllRendered(ParamTokens(ns))
  {
    if |ns| > 1 {
      ParamsRendered(ns[1..]);
    }
  }

  lemma {:induction false} RowsRendered(rows: seq<seq<nat>>)
    ensures AllRendered(RowTokens(rows))
  {
    if rows != [] {
      ParamsRendered(rows[0]);
      RowsRendered(rows[1..]);
    }
  }

  lemma {:induction false} ConditionRendered(s: Syntax)
    ensures AllRendered(Tokens(s))
  {
    match s
    case Leaf(a) =>
      if a.RowCompare? {
        ColumnsRendered(a.columns);
        ParamsRendered(a.params);
      } else if a.OneOf? {
        ColumnsRendered(a.columns);
        RowsRendered(a.rows);
      }
    case Paren(b) => ConditionRendered(b);
    case And(x, y) =>
      ConditionRendered(x);
      ConditionRendered(y);
    case Or(x, y) =>
      ConditionRendered(x);
      ConditionRendered(y);
  }

  /** A fragment numbered from k + 1 shows the same condition with its parameters raised by k. */
  lemma NumberedFragment(f: Fragment, k: nat)
    requires Good(f)
    ensures Numbered(FragmentText(f), k + 1) == Show(Tokens(Shift(f.tree, k)))
    ensures HoleCount(FragmentText(f)) == |f.args|
  {
    var shifted := Shift(f.tree, k);
    ShiftTokens(f.tree, k);
    SameHolesEqual(Tokens(f.tree), Tokens(shifted));
    ShiftParams(f.tree, k);
    TokenIndexes(shifted);
    ConditionRendered(shifted);
    NumberShown(Tokens(shifted), k + 1);
  }

  // ----- several fragments -----

  /** The condition that the fragments' rendered text is read as, parameters numbered from k + 1. */
  function Reading(fs: seq<Fragment>, k: nat): Syntax
    requires fs != []
  {
    if |fs| == 1 then Shift(fs[0].tree, k)
    else Join(Shift(fs[0].tree, k), Reading(fs[1..], k + |fs[0].args|))
  }

  lemma OpensAnd()
    ensures Opens(AND_TEXT, [Word(AndWord)])
  {
    OpensKeyword("\n  ", AndWord);
    assert AND_TEXT == "\n  " + ("AND" + " ");
  }

  lemma ReadsFragment(f: Fragment, k: nat)
    requires Good(f)
    ensures Reads(Numbered(FragmentText(f), k + 1), Tokens(Shift(f.tree, k)))
  {
    NumberedFragment(f, k);
    ConditionRendered(Shift(f.tree, k));
    ReadsShow(Tokens(Shift(f.tree, k)));
  }

  /** The first condition's text, AND, and the text of the rest. */
  lemma TextsSplit(fs: seq<Fragment>, k: nat)
    requires |fs| > 1 && AllGood(fs)
    ensures WhereText(Texts(fs), k + 1)
         == Numbered(FragmentText(fs[0]), k + 1) + AND_TEXT + WhereText(Texts(fs[1..]), k + |fs[0].args| + 1)
  {
    hide Numbered, FragmentText, HoleCount, Normal, Params;
    NumberedFragment(fs[0], k);
    var texts := Texts(fs);
    assert texts[0] == FragmentText(fs[0]) && texts[1..] == Texts(fs[1..]);
  }

  lemma {:induction false} ReadingNormal(fs: seq<Fragment>, k: nat)
    requires fs != [] && AllGood(fs)
    ensures Normal(Reading(fs, k))
  {
    ShiftNormal(fs[0].tree, k);
    if |fs| > 1 {
      ReadingNormal(fs[1..], k + |fs[0].args|);
      JoinNormal(Shift(fs[0].tree, k), Reading(fs[1..], k + |fs[0].args|));
    }
  }

  lemma ReadsJoin(a: string, s: Syntax, b: string, t: Syntax)
    requires Reads(a, Tokens(s)) && Reads(b, Tokens(t))
    ensures Reads(a + AND_TEXT + b, Tokens(Join(s, t)))
  {
    hide Reads, Tokens;
    ReadsJoined(a, Tokens(s), b, Tokens(t));
    JoinTokens(s, t);
  }

  lemma {:induction false} ReadsConditions(fs: seq<Fragment>, k: nat)
    requires fs != [] && AllGood(fs)
    ensures Reads(WhereText(Texts(fs), k + 1), Tokens(Reading(fs, k)))
  {
    hide Reads, FragmentText, Tokens, Numbered;
    ReadsFragment(fs[0], k);
    if |fs| > 1 {
      var next := k + |fs[0].args|;
      ReadsConditions(fs[1..], next);
      TextsSplit(fs, k);
      ReadsJoin(Numbered(FragmentText(fs[0]), k + 1), Shift(fs[0].tree, k),
                WhereText(Texts(fs[1..]), next + 1), Reading(fs[1..], next));
    }
  }

  lemma ReadsJoined(a: string, ta: seq<Token>, b: string, tb: seq<Token>)
    requires Reads(a, ta) && Reads(b, tb)
    ensures Reads(a + AND_TEXT + b, ta + [Word(AndWord)] + tb)
  {
    hide Reads, Opens;
    OpensAnd();
    OpensThen(AND_TEXT, [Word(AndWord)], b, tb);
    assert (AND_TEXT + b)[0] == '\n';
    ReadsThen(a, ta, AND_TEXT + b, [Word(AndWord)] + tb);
    Regroup3(a, AND_TEXT, b);
    Regroup3(ta, [Word(AndWord)], tb);
  }

  lemma {:induction false} CountHoles(fs: seq<Fragment>)
    requires AllGood(fs)
    ensures TotalHoles(Texts(fs)) == |AllArgs(fs)|
  {
    if fs != [] {
      NumberedFragment(fs[0], 0);
      CountHoles(fs[1..]);
      assert Texts(fs)[1..] == Texts(fs[1..]);
    }
  }

  /** Every fragment holds by itself. */
  ghost predicate AllTrue(fs: seq<Fragment>, r: Row) {
    forall i :: 0 <= i < |fs| ==> Eval(fs[i].tree, fs[i].args, r) == True
  }

  predicate AllSafe(fs: seq<Fragment>) {
    forall i :: 0 <= i < |fs| ==> AndSafe(fs[i].tree)
  }

  lemma OwnArgs(f: Fragment, before: seq<Value>, after: seq<Value>, r: Row)
    requires Good(f)
    ensures Eval(Shift(f.tree, |before|), before + f.args + after, r) == Eval(f.tree, f.args, r)
  {
    EvalWindow(f.tree, before, f.args, after, r);
  }

  /** AND-safe fragments, rendered together, keep exactly the rows that each of them keeps. */
  lemma {:induction false} SafeReading(fs: seq<Fragment>, before: seq<Value>, after: seq<Value>, r: Row)
    requires fs != [] && AllGood(fs) && AllSafe(fs)
    ensures AndSafe(Reading(fs, |before|))
    ensures Eval(Reading(fs, |before|), before + AllArgs(fs) + after, r) == True <==> AllTrue(fs, r)
  {
    hide Eval, Shift, Normal;
    var f, more := fs[0], fs[1..];
    var rest := AllArgs(more) + after;
    assert before + AllArgs(fs) + after == before + f.args + rest;
    OwnArgs(f, before, rest, r);
    if |fs| > 1 {
      assert (before + f.args) + AllArgs(more) + after == before + f.args + rest;
      SafeReading(more, before + f.args, after, r);
      ShiftNormal(f.tree, |before|);
      JoinMeansBoth(Shift(f.tree, |before|), Reading(more, |before| + |f.args|), before + f.args + rest, r);
      assert AllTrue(fs, r) <==> Eval(f.tree, f.args, r) == True && AllTrue(more, r) by {
        assert forall i :: 1 <= i < |fs| ==> fs[i] == more[i - 1];
      }
    }
  }

  /** A last fragment with a bare OR: its right half escapes the conjunction. */
  lemma {:induction false} BareOrReading(fs: seq<Fragment>, before: seq<Value>, after: seq<Value>, r: Row)
    requires fs != [] && AllGood(fs) && AllSafe(fs[..|fs| - 1]) && fs[|fs| - 1].tree.Or?
    ensures var s, args, last := Reading(fs, |before|), before + AllArgs(fs) + after, fs[|fs| - 1];
      s.Or? &&
      (Eval(s.left, args, r) == True <==>
        AllTrue(fs[..|fs| - 1], r) && Eval(last.tree.left, last.args, r) == True) &&
      Eval(s.right, args, r) == Eval(last.tree.right, last.args, r)
  {
    hide Eval, Shift, Normal;
    var f, more := fs[0], fs[1..];
    var rest := AllArgs(more) + after;
    assert before + AllArgs(fs) + after == before + f.args + rest;
    if |fs| == 1 {
      BareOrHalves(f, before, rest, r);
    } else {
      var init := fs[..|fs| - 1];
      OwnArgs(f, before, rest, r);
      assert (before + f.args) + AllArgs(more) + after == before + f.args + rest;
      assert more[..|more| - 1] == init[1..] && fs[0] == init[0];
      BareOrReading(more, before + f.args, after, r);
      var t := Reading(more, |before| + |f.args|);
      ShiftNormal(f.tree, |before|);
      ReadingNormal(more, |before| + |f.args|);
      JoinMeansBoth(Shift(f.tree, |before|), t.left, before + f.args + rest, r);
      AllTrueSplit(init, r);
    }
  }

  lemma BareOrHalves(f: Fragment, before: seq<Value>, after: seq<Value>, r: Row)
    requires Good(f) && f.tree.Or?
    ensures var args := before + f.args + after;
      Shift(f.tree, |before|) == Or(Shift(f.tree.left, |before|), Shift(f.tree.right, |before|)) &&
      Eval(Shift(f.tree.left, |before|), args, r) == Eval(f.tree.left, f.args, r) &&
      Eval(Shift(f.tree.right, |before|), args, r) == Eval(f.tree.right, f.args, r)
  {
    var ns, ls := Params(f.tree), Params(f.tree.left);
    assert ls == ns[..|ls|] && Params(f.tree.right) == ns[|ls|..];
    EvalWindow(f.tree.left, before, f.args, after, r);
    EvalWindow(f.tree.right, before, f.args, after, r);
  }

  lemma AllTrueSplit(fs: seq<Fragment>, r: Row)
    requires fs != []
    ensures AllTrue(fs, r) <==> Eval(fs[0].tree, fs[0].args, r) == True && AllTrue(fs[1..], r)
  {
    assert forall i :: 1 <= i < |fs| ==> fs[i] == fs[1..][i - 1];
  }

  lemma AllTrueAppend(a: seq<Fragment>, b: seq<Fragment>, r: Row)
    ensures AllTrue(a + b, r) <==> AllTrue(a, r) && AllTrue(b, r)
  {
    assert forall i :: 0 <= i < |a| ==> a[i] == (a + b)[i];
    assert forall i :: 0 <= i < |b| ==> b[i] == (a + b)[|a| + i];
  }

  // ----- the whole query -----

  function OrderText(order: string): string {
    if order == "" then "" else ORDER_TEXT + order
  }

  function LimitText(limited: bool, n: nat): string {
    if limited then LIMIT_TEXT + Decimal(n) else ""
  }

  ghost predicate TextOfKeys(keys: seq<SortKey>, order: string) {
    if keys == [] then order == "" else order != "" && order == Show(OrderTokens(keys))
  }

  lemma {:induction false} OrderRendered(keys: seq<SortKey>)
    ensures AllRendered(OrderTokens(keys))
  {
    if |keys| > 1 {
      OrderRendered(keys[1..]);
    }
  }

  lemma OpensOrderBy()
    ensures Opens(ORDER_TEXT, [Word(Order), Word(By)])
  {
    OpensKeyword("\n", Order);
    OpensKeyword("", By);
    OpensTwice("\n" + ("ORDER" + " "), [Word(Order)], "" + ("BY" + " "), [Word(By)]);
    assert ORDER_TEXT == "\n" + ("ORDER" + " ") + ("" + ("BY" + " "));
    assert [Word(Order)] + [Word(By)] == [Word(Order), Word(By)];
  }

  lemma ReadsOrder(keys: seq<SortKey>, order: string)
    requires TextOfKeys(keys, order)
    ensures Reads(OrderText(order), OrderClause(keys)) && Boundary(OrderText(order))
  {
    if keys == [] {
      ReadsNothing();
    } else {
      OrderRendered(keys);
      ReadsShow(OrderTokens(keys));
      OpensOrderBy();
      OpensThen(ORDER_TEXT, [Word(Order), Word(By)], order, OrderTokens(keys));
    }
  }

  lemma OpensLimit()
    ensures Opens("\nLIMIT ", [Word(Limit)])
  {
    OpensKeyword("\n", Limit);
    assert "\nLIMIT " == "\n" + ("LIMIT" + " ");
  }

  lemma LimitSpelling(d: string)
    ensures LIMIT_TEXT + d == "\nLIMIT " + ("$" + d + "")
  {
    assert LIMIT_TEXT == "\nLIMIT " + "$";
  }

  lemma ReadsLimit(limited: bool, n: nat)
    ensures Reads(LimitText(limited, n), LimitTokens(if limited then Some(n) else None))
    ensures Boundary(LimitText(limited, n))
  {
    if limited {
      hide Reads, Opens, Decimal;
      var param := [Param(n, false)];
      ReadsShow(param);
      OpensLimit();
      OpensThen("\nLIMIT ", [Word(Limit)], Show(param), param);
      LimitSpelling(Decimal(n));
      assert [Word(Limit)] + param == [Word(Limit), Param(n, false)];
    } else {
      ReadsNothing();
    }
  }

  lemma OpensWhere()
    ensures Opens(WHERE_TEXT, [Word(Where)])
  {
    OpensKeyword("\n", Where);
    assert WHERE_TEXT == "\n" + ("WHERE" + " ");
  }

  lemma HeadRendered(distinct: bool, columns: seq<Column>)
    ensures AllRendered(HeadTokens(distinct, columns))
  {
    ColumnsRendered(columns);
  }

  function LimitIndex(fs: seq<Fragment>, limited: bool): Option<nat> {
    if limited then Some(|AllArgs(fs)| + 1) else None
  }

  lemma ReadsParts(
      head: string, th: seq<Token>, conds: string, tc: seq<Token>,
      order: string, to: seq<Token>, limit: string, tl: seq<Token>)
    requires Reads(head, th) && Reads(conds, tc) && Reads(order, to) && Reads(limit, tl)
    requires Boundary(order) && Boundary(limit)
    ensures Reads(head + (WHERE_TEXT + conds) + order + limit, th + ([Word(Where)] + tc) + to + tl)
  {
    hide Reads, Opens;
    OpensWhere();
    OpensThen(WHERE_TEXT, [Word(Where)], conds, tc);
    assert (WHERE_TEXT + conds)[0] == '\n';
    ReadsThen(head, th, WHERE_TEXT + conds, [Word(Where)] + tc);
    ReadsThen(head + (WHERE_TEXT + conds), th + ([Word(Where)] + tc), order, to);
    ReadsThen(head + (WHERE_TEXT + conds) + order, th + ([Word(Where)] + tc) + to, limit, tl);
  }

  /** The rendered text of a query, read back: the fragments joined in order, the sort keys, the limit last. */
  lemma RenderedTokens(
      distinct: bool, columns: seq<Column>, fs: seq<Fragment>, keys: seq<SortKey>, order: string, limited: bool)
    requires columns != [] && fs != [] && AllGood(fs) && TextOfKeys(keys, order)
    ensures var q := Query(distinct, columns, Reading(fs, 0), keys, LimitIndex(fs, limited));
      var text := RenderText(Show(HeadTokens(distinct, columns)), Texts(fs), order, limited);
      Lex(text) == QueryTokens(q) && ReadQuery(text) == Some(q)
  {
    hide Reads, HeadTokens, Tokens, Show, WhereText, Lex, OrderClause, LimitTokens, Normal;
    var q := Query(distinct, columns, Reading(fs, 0), keys, LimitIndex(fs, limited));
    ReadsHead(distinct, columns);
    ReadsConditions(fs, 0);
    ReadsClauses(fs, keys, order, limited, Show(HeadTokens(distinct, columns)), HeadTokens(distinct, columns), q.where);
    ReadsWhole(RenderText(Show(HeadTokens(distinct, columns)), Texts(fs), order, limited), QueryTokens(q));
    ReadingNormal(fs, 0);
    QueryBack(q);
  }

  lemma ReadsHead(distinct: bool, columns: seq<Column>)
    ensures Reads(Show(HeadTokens(distinct, columns)), HeadTokens(distinct, columns))
  {
    HeadRendered(distinct, columns);
    ReadsShow(HeadTokens(distinct, columns));
  }

  lemma ReadsClauses(fs: seq<Fragment>, keys: seq<SortKey>, order: string, limited: bool,
                     base: string, head: seq<Token>, where: Syntax)
    requires fs != [] && AllGood(fs) && TextOfKeys(keys, order)
    requires Reads(base, head) && Reads(WhereText(Texts(fs), 1), Tokens(where))
    ensures Reads(RenderText(base, Texts(fs), order, limited),
      head + [Word(Where)] + Tokens(where) + OrderClause(keys) + LimitTokens(LimitIndex(fs, limited)))
  {
    hide Reads, Tokens;
    var n := |AllArgs(fs)| + 1;
    CountHoles(fs);
    ReadsOrder(keys, order);
    ReadsLimit(limited, n);
    ReadsParts(base, head, WhereText(Texts(fs), 1), Tokens(where),
               OrderText(order), OrderClause(keys), LimitText(limited, n), LimitTokens(LimitIndex(fs, limited)));
    Regroup3(head, [Word(Where)], Tokens(where));
  }

  // ----- placeholders and arguments -----

  lemma {:induction false} JoinParams(s: Syntax, t: Syntax)
    ensures Params(Join(s, t)) == Params(s) + Params(t)
    decreases s, t
  {
    if s.Or? {
      JoinParams(s.right, t);
    } else if t.Or? {
      JoinParams(s, t.left);
    } else if s.And? {
      JoinParams(s.right, t);
    }
  }

  lemma {:induction false} ReadingParams(fs: seq<Fragment>, k: nat)
    requires fs != [] && AllGood(fs)
    ensures Sequential(Params(Reading(fs, k)), k + 1)
    ensures |Params(Reading(fs, k))| == |AllArgs(fs)|
  {
    ShiftParams(fs[0].tree, k);
    if |fs| > 1 {
      var next := k + |fs[0].args|;
      ReadingParams(fs[1..], next);
      JoinParams(Shift(fs[0].tree, k), Reading(fs[1..], next));
    }
  }

  lemma {:induction false} ArgsOfFragment(fs: seq<Fragment>, i: nat)
    requires i < |fs|
    ensures |AllArgs(fs[..i])| + |fs[i].args| <= |AllArgs(fs)|
    ensures AllArgs(fs)[|AllArgs(fs[..i])|..|AllArgs(fs[..i])| + |fs[i].args|] == fs[i].args
  {
    if i > 0 {
      ArgsOfFragment(fs[1..], i - 1);
      assert fs[..i][1..] == fs[1..][..i - 1];
    }
  }

  /** In the joined condition, the placeholders of fragment i are the next ones after those of the fragments before it,
      and each of them is bound to the argument of fragment i that it was written for. */
  lemma PlaceholdersMeetArgs(fs: seq<Fragment>, i: nat, before: seq<Value>, after: seq<Value>)
    requires i < |fs| && AllGood(fs)
    ensures var params, off, n := Params(Reading(fs, |before|)), |AllArgs(fs[..i])|, |fs[i].args|;
      off + n <= |params| &&
      params[off..off + n] == Params(Shift(fs[i].tree, |before| + off)) &&
      forall j :: 0 <= j < n ==> Arg(before + AllArgs(fs) + after, params[off + j]) == fs[i].args[j]
  {
    hide Reading, Good, Shift, AllArgs, Params;
    var k, off := |before|, |AllArgs(fs[..i])|;
    var params, own := Params(Reading(fs, k)), Params(Shift(fs[i].tree, k + off));
    ReadingParams(fs, k);
    ArgsOfFragment(fs, i);
    GoodParams(fs[i], k + off);
    assert params[off..off + |own|] == own;
    forall j | 0 <= j < |own|
      ensures Arg(before + AllArgs(fs) + after, params[off + j]) == fs[i].args[j]
    {
      assert params[off + j] == k + off + j + 1;
      assert AllArgs(fs)[off..off + |own|][j] == AllArgs(fs)[off + j];
    }
  }

  lemma GoodParams(f: Fragment, k: nat)
    requires Good(f)
    ensures |Params(Shift(f.tree, k))| == |f.args| && Sequential(Params(Shift(f.tree, k)), k + 1)
  {
    ShiftParams(f.tree, k);
  }

  lemma {:induction false} OrderHasNoParams(keys: seq<SortKey>)
    ensures forall i :: 0 <= i < |OrderTokens(keys)| ==> !OrderTokens(keys)[i].Param?
  {
    if |keys| > 1 {
      OrderHasNoParams(keys[1..]);
    }
  }

  /** The placeholders of a query are those of its condition, then the limit's. */
  lemma QueryIndexes(q: Query)
    ensures Indexes(QueryTokens(q)) == Params(q.where) + (if q.limit.Some? then [q.limit.value] else [])
  {
    hide Tokens, ColumnTokens, OrderTokens;
    var head := HeadTokens(q.distinct, q.columns);
    ColumnIndexes(q.columns);
    Indexes3([Word(Select)] + (if q.distinct then [Word(Distinct)] else []), ColumnTokens(q.columns),
             [Word(From), Word(Resources)]);
    NoIndexes([Word(Select)] + (if q.distinct then [Word(Distinct)] else []));
    NoIndexes([Word(From), Word(Resources)]);
    OrderHasNoParams(q.order);
    NoIndexes(OrderClause(q.order));
    TokenIndexes(q.where);
    Indexes3(head, [Word(Where)], Tokens(q.where));
    Indexes3(head + [Word(Where)] + Tokens(q.where), OrderClause(q.order), LimitTokens(q.limit));
    if q.limit.Some? {
      IndexesAppend([Word(Limit)], [Param(q.limit.value, false)]);
      assert LimitTokens(q.limit) == [Word(Limit)] + [Param(q.limit.value, false)];
    }
  }

  /** The placeholders of the rendered text, left to right, are 1, 2, …, one for each argument. */
  lemma RenderedPlaceholders(
      distinct: bool, columns: seq<Column>, fs: seq<Fragment>, keys: seq<SortKey>, order: string, limited: bool)
    requires columns != [] && fs != [] && AllGood(fs) && TextOfKeys(keys, order)
    ensures var ns := Indexes(Lex(RenderText(Show(HeadTokens(distinct, columns)), Texts(fs), order, limited)));
      Sequential(ns, 1) && |ns| == |AllArgs(fs)| + if limited then 1 else 0
  {
    hide Reading, Show, RenderText, Texts, Good, OrderTokens, QueryTokens, Indexes, Lex, Params, ReadQuery, AllArgs;
    RenderedTokens(distinct, columns, fs, keys, order, limited);
    QueryIndexes(Query(distinct, columns, Reading(fs, 0), keys, LimitIndex(fs, limited)));
    ReadingParams(fs, 0);
  }
}
