/** The texts of conditions, cursors and SELECT clauses, as they are put together from strings. */
module QueryTexts {
  import opened Common
  import opened SqlTokens
  import opened SqlParser
  import opened Database
  import opened Fragments
  import opened Sorting
  import opened Cursor

  lemma ShowThree(a: Token, b: Token, c: Token)
    ensures Show([a, b, c]) == TokenText(a) + Gap(a, b) + (TokenText(b) + Gap(b, c) + TokenText(c))
  {
    hide TokenText, Gap;
    assert [a, b, c][1..] == [b, c] && [b, c][1..] == [c];
    assert Show([b, c]) == TokenText(b) + Gap(b, c) + TokenText(c);
  }

  lemma HolesOfThree(a: Token, b: Token, c: Token)
    ensures HoleTokens([a, b, c]) == [ToHole(a), ToHole(b), ToHole(c)]
  {
    assert [a, b, c][1..] == [b, c] && [b, c][1..] == [c];
    assert HoleTokens([b, c]) == [ToHole(b), ToHole(c)];
  }

  lemma ThreeTokenText(f: Fragment, a: Token, b: Token, c: Token)
    requires Tokens(f.tree) == [a, b, c] && a.Col? && (b.Op? || b.Word?) && (c.Param? || c.Word?)
    ensures FragmentText(f) == TokenText(a) + " " + (TokenText(b) + " " + TokenText(ToHole(c)))
  {
    hide Show, HoleTokens;
    HolesOfThree(a, b, c);
    ShowThree(a, b, ToHole(c));
  }

  function Repeat(n: nat, s: string): (parts: seq<string>)
    ensures |parts| == n
  {
    if n == 0 then [] else [s] + Repeat(n - 1, s)
  }

  lemma {:induction false} HoleTokensAppend(a: seq<Token>, b: seq<Token>)
    ensures HoleTokens(a + b) == HoleTokens(a) + HoleTokens(b)
  {
    if a == [] {
      assert a + b == b;
    } else {
      assert (a + b)[1..] == a[1..] + b;
      HoleTokensAppend(a[1..], b);
    }
  }

  // ----- the text of a condition, part by part -----

  function AtomText(a: Atom): string {
    Show(HoleTokens(AtomTokens(a)))
  }

  function TreeText(s: Syntax): string {
    match s
    case Leaf(a) => AtomText(a)
    case Paren(b) => "(" + TreeText(b) + ")"
    case And(l, r) => TreeText(l) + " AND " + TreeText(r)
    case Or(l, r) => TreeText(l) + " OR " + TreeText(r)
  }

  /** Conditions start and end with tokens that words can be written beside. */
  predicate Framed(ts: seq<Token>) {
    ts != [] && ts[0] != RParen && ts[0] != Comma && ts[|ts| - 1] != LParen
  }

  lemma {:induction false} TokensFramed(s: Syntax)
    ensures Framed(Tokens(s))
  {
    match s
    case Leaf(_) =>
    case Paren(_) =>
    case And(l, r) => TokensFramed(l); TokensFramed(r);
    case Or(l, r) => TokensFramed(l); TokensFramed(r);
  }

  lemma {:induction false} HolesFramed(ts: seq<Token>)
    ensures forall i :: 0 <= i < |ts| ==> HoleTokens(ts)[i] == ToHole(ts[i])
    ensures Framed(ts) ==> Framed(HoleTokens(ts))
  {
    if ts != [] {
      HolesFramed(ts[1..]);
    }
  }

  lemma HolesAround(a: seq<Token>, t: Token, b: seq<Token>)
    requires !t.Param?
    ensures HoleTokens(a + [t] + b) == HoleTokens(a) + [t] + HoleTokens(b)
  {
    hide HoleTokens;
    HoleTokensAppend(a + [t], b);
    HoleTokensAppend(a, [t]);
    HolesFramed([t]);
    assert HoleTokens([t]) == [t];
  }

  lemma ShowBetween(a: seq<Token>, t: Token, b: seq<Token>)
    requires Framed(a) && Framed(b) && (t.Word? || t.Op?)
    ensures Show(a + [t] + b) == Show(a) + (" " + TokenText(t) + " ") + Show(b)
  {
    hide Show, TokenText;
    ShowAppend(a + [t], b);
    ShowAppend(a, [t]);
    ShowOne(t);
    BetweenGroups(Show(a), TokenText(t), Show(b));
  }

  lemma BetweenGroups(a: string, t: string, b: string)
    ensures a + " " + t + " " + b == a + (" " + t + " ") + b
  {
  }

  /** Text, a word or operator between spaces, text. */
  lemma ShowAround(a: seq<Token>, t: Token, b: seq<Token>)
    requires Framed(a) && Framed(b) && (t.Word? || t.Op?)
    ensures Show(HoleTokens(a + [t] + b)) == Show(HoleTokens(a)) + (" " + TokenText(t) + " ") + Show(HoleTokens(b))
  {
    hide Show, HoleTokens, TokenText, Framed;
    HolesAround(a, t, b);
    HolesFramed(a);
    HolesFramed(b);
    ShowBetween(HoleTokens(a), t, HoleTokens(b));
  }

  lemma ShowInParens(a: seq<Token>)
    requires Framed(a)
    ensures Show(HoleTokens([LParen] + a + [RParen])) == "(" + Show(HoleTokens(a)) + ")"
  {
    hide HoleTokens;
    var ha := HoleTokens(a);
    HoleTokensAppend([LParen] + a, [RParen]);
    HoleTokensAppend([LParen], a);
    HolesFramed(a);
    HolesFramed([LParen]);
    HolesFramed([RParen]);
    assert HoleTokens([LParen]) == [LParen] && HoleTokens([RParen]) == [RParen];
    ShowParens(ha);
  }

  lemma ShowOne(t: Token)
    ensures Show([t]) == TokenText(t)
  {
  }

  lemma ShowParens(a: seq<Token>)
    requires a != []
    ensures Show([LParen] + a + [RParen]) == "(" + Show(a) + ")"
  {
    hide Show;
    ShowAppend([LParen] + a, [RParen]);
    ShowAppend([LParen], a);
    ShowOne(LParen);
    ShowOne(RParen);
    NoGaps("(", Show(a), ")");
  }

  lemma NoGaps(a: string, b: string, c: string)
    ensures a + "" + b + "" + c == a + b + c
  {
  }

  lemma {:induction false} TreeTextShows(s: Syntax)
    ensures TreeText(s) == Show(HoleTokens(Tokens(s)))
  {
    hide Show, HoleTokens, Framed;
    match s
    case Leaf(_) =>
    case Paren(b) => TokensFramed(b); TreeTextShows(b); ShowInParens(Tokens(b));
    case And(l, r) => TokensFramed(l); TokensFramed(r); TreeTextShows(l); TreeTextShows(r);
      ShowAround(Tokens(l), Word(AndWord), Tokens(r));
      assert " " + "AND" + " " == " AND ";
    case Or(l, r) => TokensFramed(l); TokensFramed(r); TreeTextShows(l); TreeTextShows(r);
      ShowAround(Tokens(l), Word(OrWord), Tokens(r));
      assert " " + "OR" + " " == " OR ";
  }

  lemma IsNullText(c: Column)
    ensures AtomText(IsNull(c)) == ColumnText(c) + " IS NULL"
  {
    hide Show, HoleTokens, ColumnText;
    HolesOfThree(Col(c), Word(Is), Word(NullWord));
    ShowThree(Col(c), Word(Is), Word(NullWord));
    WordsAfter(ColumnText(c), "IS", "NULL", " IS NULL");
  }

  lemma IsNotNullText(c: Column)
    ensures AtomText(IsNotNull(c)) == ColumnText(c) + " IS NOT NULL"
  {
    hide HoleTokens, ColumnText, Show;
    var ts := [Col(c)] + [Word(Is), Word(Not), Word(NullWord)];
    assert AtomTokens(IsNotNull(c)) == ts;
    HoleTokensAppend([Col(c)], [Word(Is), Word(Not), Word(NullWord)]);
    HolesOfThree(Word(Is), Word(Not), Word(NullWord));
    HolesFramed([Col(c)]);
    assert HoleTokens([Col(c)]) == [Col(c)];
    ShowThree(Word(Is), Word(Not), Word(NullWord));
    ShowAppend([Col(c)], [Word(Is), Word(Not), Word(NullWord)]);
    ShowOne(Col(c));
    assert Show([Word(Is), Word(Not), Word(NullWord)]) == "IS" + " " + ("NOT" + " " + "NULL");
    NotNullWords(ColumnText(c));
  }

  lemma NotNullWords(a: string)
    ensures a + " " + ("IS" + " " + ("NOT" + " " + "NULL")) == a + " IS NOT NULL"
  {
    assert "IS" + " " + ("NOT" + " " + "NULL") == "IS NOT NULL";
    Regroup3(a, " ", "IS NOT NULL");
    assert " " + "IS NOT NULL" == " IS NOT NULL";
  }

  lemma WordsAfter(a: string, b: string, c: string, bc: string)
    requires " " + b + " " + c == bc
    ensures a + " " + (b + " " + c) == a + bc
  {
  }

  lemma CompareText(c: Column, op: Operator, n: nat)
    ensures AtomText(Compare(c, op, n)) == ColumnText(c) + " " + OperatorText(op) + " ?"
  {
    hide Show, HoleTokens, ColumnText, OperatorText;
    HolesOfThree(Col(c), Op(op), Param(n, false));
    ShowThree(Col(c), Op(op), Hole(false));
    assert "?" + "" == "?";
    assert " " + "?" == " ?";
    CompareGroups(ColumnText(c), OperatorText(op));
  }

  lemma CompareGroups(c: string, op: string)
    ensures c + " " + (op + " " + "?") == c + " " + op + " ?"
  {
  }

  // ----- row comparisons -----

  function ColumnTexts(cs: seq<Column>): (texts: seq<string>)
    ensures |texts| == |cs|
  {
    if cs == [] then [] else [ColumnText(cs[0])] + ColumnTexts(cs[1..])
  }

  /** `(a, b, …) op (?, ?, …)` */
  function RowText(cs: seq<Column>, op: Operator): string {
    "(" + JoinTexts(ColumnTexts(cs), ", ") + ") " + OperatorText(op)
    + (" (" + JoinTexts(Repeat(|cs|, "?"), ", ") + ")")
  }

  lemma ShowCommaRest(t: Token, more: seq<Token>)
    requires more != [] && more[0] != RParen && more[0] != Comma && t != LParen
    ensures Show([t, Comma] + more) == TokenText(t) + ", " + Show(more)
  {
    hide Show, TokenText;
    ShowAppend([t, Comma], more);
    assert [t, Comma] == [t] + [Comma];
    ShowAppend([t], [Comma]);
    ShowOne(t);
    ShowOne(Comma);
    CommaToken();
    CommaGroups(TokenText(t), Show(more));
  }

  lemma CommaToken()
    ensures TokenText(Comma) == ","
  {
  }

  lemma CommaGroups(a: string, b: string)
    ensures a + "" + "," + " " + b == a + ", " + b
  {
  }

  lemma {:induction false} ColumnsShow(cs: seq<Column>)
    requires cs != []
    ensures Show(HoleTokens(ColumnTokens(cs))) == JoinTexts(ColumnTexts(cs), ", ")
    ensures Framed(ColumnTokens(cs))
  {
    hide Show, HoleTokens, ColumnText;
    if |cs| == 1 {
      HolesFramed([Col(cs[0])]);
      assert HoleTokens([Col(cs[0])]) == [Col(cs[0])];
      ShowOne(Col(cs[0]));
    } else {
      var more := ColumnTokens(cs[1..]);
      ColumnsShow(cs[1..]);
      HolesFramed(more);
      HoleTokensAppend([Col(cs[0]), Comma], more);
      HolesFramed([Col(cs[0]), Comma]);
      assert HoleTokens([Col(cs[0]), Comma]) == [Col(cs[0]), Comma];
      ShowCommaRest(Col(cs[0]), HoleTokens(more));
      Tail(ColumnText(cs[0]), ColumnTexts(cs[1..]));
    }
  }

  lemma {:induction false} ParamsShow(ns: seq<nat>)
    requires ns != []
    ensures Show(HoleTokens(ParamTokens(ns))) == JoinTexts(Repeat(|ns|, "?"), ", ")
    ensures Framed(ParamTokens(ns))
  {
    hide Show, HoleTokens;
    var p := Param(ns[0], false);
    assert "?" + "" == "?";
    if |ns| == 1 {
      HolesFramed([p]);
      assert HoleTokens([p]) == [Hole(false)];
      ShowOne(Hole(false));
      assert Repeat(1, "?") == ["?"];
    } else {
      var more := ParamTokens(ns[1..]);
      ParamsShow(ns[1..]);
      HolesFramed(more);
      HoleTokensAppend([p, Comma], more);
      HolesFramed([p, Comma]);
      assert HoleTokens([p, Comma]) == [Hole(false), Comma];
      ShowCommaRest(Hole(false), HoleTokens(more));
      Tail("?", Repeat(|ns| - 1, "?"));
    }
  }

  lemma RowCompareText(cs: seq<Column>, op: Operator, ns: seq<nat>)
    requires cs != [] && |ns| == |cs|
    ensures AtomText(RowCompare(cs, op, ns)) == RowText(cs, op)
  {
    hide Show, HoleTokens, ColumnTokens, ParamTokens, JoinTexts, ColumnTexts, Repeat, OperatorText;
    var a, b := [LParen] + ColumnTokens(cs) + [RParen], [LParen] + ParamTokens(ns) + [RParen];
    assert AtomTokens(RowCompare(cs, op, ns)) == a + [Op(op)] + b;
    ColumnsShow(cs);
    ParamsShow(ns);
    ShowInParens(ColumnTokens(cs));
    ShowInParens(ParamTokens(ns));
    ShowAround(a, Op(op), b);
    RowGroups(JoinTexts(ColumnTexts(cs), ", "), OperatorText(op), JoinTexts(Repeat(|cs|, "?"), ", "));
  }

  lemma RowGroups(a: string, op: string, b: string)
    ensures "(" + a + ")" + (" " + op + " ") + ("(" + b + ")") == "(" + a + ") " + op + (" (" + b + ")")
  {
  }

  // ----- lists of rows -----

  /** `(?, …, ?)` with k placeholders. */
  function TupleText(k: nat): string {
    "(" + JoinTexts(Repeat(k, "?"), ", ") + ")"
  }

  lemma ShowCommaBetween(a: seq<Token>, b: seq<Token>)
    requires Framed(a) && Framed(b)
    ensures Show(HoleTokens(a + ([Comma] + b))) == Show(HoleTokens(a)) + ", " + Show(HoleTokens(b))
  {
    hide Show, HoleTokens;
    HoleTokensAppend(a, [Comma] + b);
    HoleTokensAppend([Comma], b);
    HolesFramed(a);
    HolesFramed(b);
    HolesFramed([Comma]);
    assert HoleTokens([Comma]) == [Comma];
    Regroup3(HoleTokens(a), [Comma], HoleTokens(b));
    ShowComma(HoleTokens(a), HoleTokens(b));
  }

  lemma {:induction false} RowsShow(rows: seq<seq<nat>>, k: nat)
    requires rows != [] && k > 0 && forall i :: 0 <= i < |rows| ==> |rows[i]| == k
    ensures Show(HoleTokens(RowTokens(rows))) == JoinTexts(Repeat(|rows|, TupleText(k)), ", ")
    ensures Framed(RowTokens(rows))
  {
    hide Show, HoleTokens, ParamTokens, TupleText;
    var row := [LParen] + ParamTokens(rows[0]) + [RParen];
    ParamsShow(rows[0]);
    ShowInParens(ParamTokens(rows[0]));
    TupleIs(k);
    if |rows| == 1 {
      assert Repeat(1, TupleText(k)) == [TupleText(k)];
    } else {
      RowsShow(rows[1..], k);
      ShowCommaBetween(row, RowTokens(rows[1..]));
      Tail(TupleText(k), Repeat(|rows| - 1, TupleText(k)));
    }
  }

  lemma TupleIs(k: nat)
    ensures TupleText(k) == "(" + JoinTexts(Repeat(k, "?"), ", ") + ")"
  {
  }

  /** `(a, b, …) IN ((?, ?, …), …)` */
  lemma OneOfText(cs: seq<Column>, rows: seq<seq<nat>>, k: nat)
    requires cs != [] && rows != [] && k > 0 && forall i :: 0 <= i < |rows| ==> |rows[i]| == k
    ensures AtomText(OneOf(cs, rows))
         == "(" + JoinTexts(ColumnTexts(cs), ", ") + ") IN (" + JoinTexts(Repeat(|rows|, TupleText(k)), ", ") + ")"
  {
    hide Show, HoleTokens, ColumnTokens, RowTokens, JoinTexts, ColumnTexts, Repeat, TupleText;
    var a, b := [LParen] + ColumnTokens(cs) + [RParen], [LParen] + RowTokens(rows) + [RParen];
    assert AtomTokens(OneOf(cs, rows)) == a + [Word(In)] + b;
    ColumnsShow(cs);
    RowsShow(rows, k);
    ShowInParens(ColumnTokens(cs));
    ShowInParens(RowTokens(rows));
    ShowAround(a, Word(In), b);
    InGroups(JoinTexts(ColumnTexts(cs), ", "), JoinTexts(Repeat(|rows|, TupleText(k)), ", "));
  }

  lemma InGroups(a: string, b: string)
    ensures "(" + a + ")" + (" " + "IN" + " ") + ("(" + b + ")") == "(" + a + ") IN (" + b + ")"
  {
    assert ")" + (" " + "IN" + " ") + "(" == ") IN (";
    Regroup3("(" + a, ")", " " + "IN" + " ");
    assert "(" + a + ")" + (" " + "IN" + " ") + ("(" + b + ")")
        == "(" + a + (")" + (" " + "IN" + " ") + "(") + b + ")";
  }

  // ----- the texts of cursors -----

  /** `composition_id op ? OR (composition_id = ? AND id op ?)` */
  function PastCompositionText(op: Operator): string {
    var tie := "composition_id" + " " + "=" + " ?" + " AND " + ("id" + " " + OperatorText(op) + " ?");
    "composition_id" + " " + OperatorText(op) + " ?" + " OR " + ("(" + tie + ")")
  }

  function CompositionIdCursorText(o: SortOrder, isNull: bool): string {
    if o.Descending? then
      if isNull then
        "(" + ("composition_id" + " IS NULL" + " AND " + ("id" + " " + "<" + " ?")) + ")"
        + " OR " + ("composition_id" + " IS NOT NULL")
      else "(" + PastCompositionText(Less) + ")"
    else if isNull then
      "composition_id" + " IS NULL" + " AND " + ("id" + " " + ">" + " ?")
    else
      "(" + ("(" + PastCompositionText(Greater) + ")" + " OR " + ("composition_id" + " IS NULL")) + ")"
  }

  /** The text that the cursor's condition is written as. */
  function CursorConditionText(s: SortBy, o: SortOrder, c: ResourcesCursor): string {
    match s
    case ByCreatedAt => RowText([CreatedAt, Id], CursorOp(o))
    case ByUpdatedAt => RowText([UpdatedAt, Id], CursorOp(o))
    case ByGlobalUid => RowText([GlobalUid, Id], CursorOp(o))
    case ByCompositionId => CompositionIdCursorText(o, c.compositionIdNull)
    case _ => RowText(RESOURCE_COLUMNS, CursorOp(o))
  }

  lemma PastCompositionShows(op: Operator)
    ensures TreeText(PastComposition(op)) == PastCompositionText(op)
  {
    hide AtomText, OperatorText;
    CompareText(CompositionId, op, 1);
    CompareText(CompositionId, Equal, 2);
    CompareText(Id, op, 3);
    var tie := And(Leaf(Compare(CompositionId, Equal, 2)), Leaf(Compare(Id, op, 3)));
    assert TreeText(Paren(tie)) == "(" + TreeText(tie) + ")";
    EqualSign();
  }

  lemma EqualSign()
    ensures OperatorText(Equal) == "=" && OperatorText(Less) == "<" && OperatorText(Greater) == ">"
  {
  }

  lemma CompositionIdCursorShows(o: SortOrder, c: ResourcesCursor)
    requires Complete(ByCompositionId, c)
    ensures TreeText(CompositionIdCursorCondition(o, c).tree) == CompositionIdCursorText(o, c.compositionIdNull)
  {
    hide AtomText, OperatorText, PastCompositionText, PastComposition;
    EqualSign();
    var past := PastComposition(CursorOp(o));
    PastCompositionShows(CursorOp(o));
    IsNullText(CompositionId);
    IsNotNullText(CompositionId);
    CompareText(Id, CursorOp(o), 1);
    var tie := And(Leaf(IsNull(CompositionId)), Leaf(Compare(Id, CursorOp(o), 1)));
    assert TreeText(tie) == "composition_id" + " IS NULL" + " AND " + ("id" + " " + OperatorText(CursorOp(o)) + " ?");
    assert TreeText(Paren(tie)) == "(" + TreeText(tie) + ")";
    assert TreeText(Paren(past)) == "(" + TreeText(past) + ")";
    var either := Or(Paren(past), Leaf(IsNull(CompositionId)));
    assert TreeText(either) == TreeText(Paren(past)) + " OR " + ("composition_id" + " IS NULL");
    assert TreeText(Paren(either)) == "(" + TreeText(either) + ")";
  }

  lemma RowFragmentShows(cs: seq<Column>, op: Operator, args: seq<Value>)
    requires cs != []
    ensures TreeText(RowFragment(cs, op, args).tree) == RowText(cs, op)
  {
    hide AtomText, RowText;
    RowCompareText(cs, op, CountFrom(1, |cs|));
  }

  /** The condition that a cursor is turned into is the text of its fragment. */
  lemma CursorConditionShows(s: SortBy, o: SortOrder, c: ResourcesCursor)
    requires Complete(s, c)
    ensures FragmentText(CursorCondition(s, o, c)) == CursorConditionText(s, o, c)
  {
    hide TreeText, RowText, CompositionIdCursorText, CompositionIdCursorCondition, Show, HoleTokens, Tokens;
    var f := CursorCondition(s, o, c);
    TreeTextShows(f.tree);
    if s.ByCompositionId? {
      CompositionIdCursorShows(o, c);
    } else {
      RowFragmentShows(
        match s
        case ByCreatedAt => [CreatedAt, Id]
        case ByUpdatedAt => [UpdatedAt, Id]
        case ByGlobalUid => [GlobalUid, Id]
        case _ => RESOURCE_COLUMNS, CursorOp(o), f.args);
    }
  }

  // ----- the SELECT clause -----

  lemma {:induction false} HolesStay(ts: seq<Token>)
    requires forall i :: 0 <= i < |ts| ==> !ts[i].Param?
    ensures HoleTokens(ts) == ts
  {
    if ts != [] {
      HolesStay(ts[1..]);
    }
  }

  lemma FromText()
    ensures Show([Word(From), Word(Resources)]) == "FROM krateo_resources"
  {
    assert [Word(From), Word(Resources)][1..] == [Word(Resources)];
    assert "FROM" + " " + "krateo_resources" == "FROM krateo_resources";
  }

  lemma SelectText(distinct: bool)
    ensures Show([Word(Select)] + if distinct then [Word(Distinct)] else [])
         == if distinct then "SELECT DISTINCT" else "SELECT"
  {
    assert [Word(Select), Word(Distinct)][1..] == [Word(Distinct)];
    assert "SELECT" + " " + "DISTINCT" == "SELECT DISTINCT";
  }

  lemma {:induction false} ColumnsNoParams(cs: seq<Column>)
    ensures forall i :: 0 <= i < |ColumnTokens(cs)| ==> !ColumnTokens(cs)[i].Param?
  {
    if |cs| > 1 {
      ColumnsNoParams(cs[1..]);
    }
  }

  /** `SELECT … FROM krateo_resources` */
  lemma HeadShows(distinct: bool, cs: seq<Column>)
    requires cs != []
    ensures Show(HeadTokens(distinct, cs))
         == (if distinct then "SELECT DISTINCT" else "SELECT") + " "
          + JoinTexts(ColumnTexts(cs), ", ") + " " + "FROM krateo_resources"
  {
    hide Show, ColumnTokens, JoinTexts, ColumnTexts, HoleTokens;
    var select := [Word(Select)] + if distinct then [Word(Distinct)] else [];
    var columns, from := ColumnTokens(cs), [Word(From), Word(Resources)];
    ColumnsNoParams(cs);
    HolesStay(columns);
    ColumnsShow(cs);
    SelectText(distinct);
    FromText();
    ShowAppend(select + columns, from);
    ShowAppend(select, columns);
    assert HeadTokens(distinct, cs) == select + columns + from;
  }
}
