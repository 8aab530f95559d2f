/** The query builder: conditions collected one by one, then rendered with numbered placeholders. */
module QueryBuilder {
  import opened Common
  import opened SqlTokens
  import opened Database

  const AND_TEXT := "\n  AND "
  const WHERE_TEXT := "\nWHERE "
  const ORDER_TEXT := "\nORDER BY "
  const LIMIT_TEXT := "\nLIMIT $"

  function HoleCount(s: string): nat {
    if s == "" then 0 else (if s[0] == '?' then 1 else 0) + HoleCount(s[1..])
  }

  function TotalHoles(conds: seq<string>): nat {
    if conds == [] then 0 else HoleCount(conds[0]) + TotalHoles(conds[1..])
  }

  function NumberedChar(c: char, k: nat): string {
    if c == '?' then "$" + Decimal(k) else [c]
  }

  /** Every `?` replaced by `$k`, `$k+1`, … from the left. */
  function Numbered(s: string, k: nat): string {
    if s == "" then ""
    else NumberedChar(s[0], k) + Numbered(s[1..], if s[0] == '?' then k + 1 else k)
  }

  /** The conditions rendered one after the other with one running index. */
  function WhereText(conds: seq<string>, k: nat): string {
    if conds == [] then ""
    else if |conds| == 1 then Numbered(conds[0], k)
    else Numbered(conds[0], k) + AND_TEXT + WhereText(conds[1..], k + HoleCount(conds[0]))
  }

  function RenderText(base: string, conds: seq<string>, orderBy: string, limited: bool): string {
    base + (if conds == [] then "" else WHERE_TEXT + WhereText(conds, 1))
    + (if orderBy == "" then "" else ORDER_TEXT + orderBy)
    + (if limited then LIMIT_TEXT + Decimal(1 + TotalHoles(conds)) else "")
  }

  class Builder {
    var where: seq<string>
    var args: seq<Value>
    var orderBy: string
    var limit: Option<int>

    /** As many `?` in the conditions as arguments. */
    predicate Balanced()
      reads this
    {
      TotalHoles(where) == |args|
    }

    constructor ()
      ensures where == [] && args == [] && orderBy == "" && limit == None && Balanced()
    {
      where, args, orderBy, limit := [], [], "", None;
    }

    method Where(cond: string, values: seq<Value>)
      modifies this`where, this`args
      ensures where == old(where) + [cond] && args == old(args) + values
      ensures old(Balanced()) && HoleCount(cond) == |values| ==> Balanced()
    {
      WhereTextExtend(where, cond, 1);
      where := where + [cond];
      args := args + values;
    }

    method OrderBy(order: string)
      modifies this`orderBy
      ensures orderBy == order
    {
      orderBy := order;
    }

    method Limit(n: int)
      modifies this`limit
      ensures limit == if n > 0 then Some(n) else old(limit)
    {
      if n > 0 {
        limit := Some(n);
      }
    }

    /** Appends the limit to the stored arguments, so a second call would append it again.
        The first time, the placeholder written after LIMIT is the one of the limit value. */
    method Render(base: string) returns (text: string, values: seq<Value>)
      modifies this`args
      ensures text == RenderText(base, where, orderBy, limit.Some?)
      ensures args == old(args) + if limit.Some? then [Num(limit.value)] else []
      ensures values == args
      ensures old(Balanced()) && limit.Some? ==>
        |values| == 1 + TotalHoles(where) && values[TotalHoles(where)] == Num(limit.value)
    {
      text := base;
      var argIdx := 1;
      if |where| > 0 {
        var conditions;
        conditions, argIdx := RenderConditions(where);
        text := text + (WHERE_TEXT + conditions);
      }
      assert text == base + (if where == [] then "" else WHERE_TEXT + WhereText(where, 1));
      if orderBy != "" {
        text := text + (ORDER_TEXT + orderBy);
      }
      if limit.Some? {
        text := text + (LIMIT_TEXT + Decimal(argIdx));
        args := args + [Num(limit.value)];
      }
      values := args;
    }
  }

  /** The outer loop of Render: all conditions, with one index running through them. */
  method RenderConditions(conds: seq<string>) returns (text: string, argIdx: nat)
    ensures text == WhereText(conds, 1)
    ensures argIdx == 1 + TotalHoles(conds)
  {
    text, argIdx := "", 1;
    for i := 0 to |conds|
      invariant text == WhereText(conds[..i], 1)
      invariant argIdx == 1 + TotalHoles(conds[..i])
    {
      WhereTextExtend(conds[..i], conds[i], 1);
      assert conds[..i + 1] == conds[..i] + [conds[i]];
      if i > 0 {
        text := text + AND_TEXT;
      }
      var out, next := RenderHoles(conds[i], argIdx);
      text, argIdx := text + out, next;
    }
    assert conds[..|conds|] == conds;
  }

  lemma {:induction false} WhereTextExtend(conds: seq<string>, cond: string, k: nat)
    ensures WhereText(conds + [cond], k)
         == (if conds == [] then "" else WhereText(conds, k) + AND_TEXT) + Numbered(cond, k + TotalHoles(conds))
    ensures TotalHoles(conds + [cond]) == TotalHoles(conds) + HoleCount(cond)
  {
    hide Numbered, HoleCount;
    if conds == [] {
      assert conds + [cond] == [cond];
      assert "" + Numbered(cond, k) == Numbered(cond, k);
    } else {
      var n := k + HoleCount(conds[0]);
      assert (conds + [cond])[1..] == conds[1..] + [cond];
      WhereTextExtend(conds[1..], cond, n);
      var head, last := Numbered(conds[0], k), Numbered(cond, k + TotalHoles(conds));
      if |conds| == 1 {
        assert "" + last == last;
      } else {
        Regroup5(head, AND_TEXT, WhereText(conds[1..], n), AND_TEXT, last);
      }
    }
  }

  /** The inner loop of Render: one condition, character by character. */
  method RenderHoles(cond: string, first: nat) returns (out: string, argIdx: nat)
    ensures out == Numbered(cond, first)
    ensures argIdx == first + HoleCount(cond)
  {
    hide Decimal;
    out, argIdx := "", first;
    for j := 0 to |cond|
      invariant argIdx + HoleCount(cond[j..]) == first + HoleCount(cond)
      invariant Numbered(cond, first) == out + Numbered(cond[j..], argIdx)
    {
      NumberedRest(cond, j, argIdx, out);
      if cond[j] == '?' {
        out, argIdx := out + ("$" + Decimal(argIdx)), argIdx + 1;
      } else {
        out := out + [cond[j]];
      }
    }
  }

  lemma NumberedRest(s: string, j: nat, k: nat, out: string)
    requires j < |s|
    ensures var next := if s[j] == '?' then k + 1 else k;
      out + Numbered(s[j..], k) == out + NumberedChar(s[j], k) + Numbered(s[j + 1..], next) &&
      k + HoleCount(s[j..]) == next + HoleCount(s[j + 1..])
  {
    hide NumberedChar;
    assert s[j..][1..] == s[j + 1..];
    Regroup3(out, NumberedChar(s[j], k), Numbered(s[j + 1..], if s[j] == '?' then k + 1 else k));
  }

  // ----- what numbering does -----

  /** The conditions as written, joined but not numbered. */
  function PlainText(conds: seq<string>): string {
    if conds == [] then ""
    else if |conds| == 1 then conds[0]
    else conds[0] + AND_TEXT + PlainText(conds[1..])
  }

  lemma {:induction false} NumberedAppend(a: string, b: string, k: nat)
    ensures Numbered(a + b, k) == Numbered(a, k) + Numbered(b, k + HoleCount(a))
    ensures HoleCount(a + b) == HoleCount(a) + HoleCount(b)
  {
    hide NumberedChar;
    if a == "" {
      assert a + b == b;
    } else {
      var next := if a[0] == '?' then k + 1 else k;
      assert (a + b)[1..] == a[1..] + b;
      NumberedAppend(a[1..], b, next);
      Regroup3(NumberedChar(a[0], k), Numbered(a[1..], next), Numbered(b, next + HoleCount(a[1..])));
    }
  }

  lemma {:induction false} NoHoles(s: string, k: nat)
    requires '?' !in s
    ensures Numbered(s, k) == s && HoleCount(s) == 0
  {
    if s != "" {
      NoHoles(s[1..], k);
      assert s == [s[0]] + s[1..];
    }
  }

  /** Rendering condition by condition numbers the holes of the joined text in one pass. */
  lemma {:induction false} OneRunningIndex(conds: seq<string>, k: nat)
    ensures WhereText(conds, k) == Numbered(PlainText(conds), k)
    ensures TotalHoles(conds) == HoleCount(PlainText(conds))
  {
    if |conds| >= 2 {
      var rest := PlainText(conds[1..]);
      OneRunningIndex(conds[1..], k + HoleCount(conds[0]));
      NumberedAppend(conds[0] + AND_TEXT, rest, k);
      NumberedAppend(conds[0], AND_TEXT, k);
      NoHoles(AND_TEXT, k + HoleCount(conds[0]));
    }
  }

  /** p0 ? p1 ? … pn */
  function WithHoles(pieces: seq<string>): string
    requires pieces != []
  {
    if |pieces| == 1 then pieces[0] else pieces[0] + "?" + WithHoles(pieces[1..])
  }

  /** p0 $k p1 $k+1 … pn */
  function WithParams(pieces: seq<string>, k: nat): string
    requires pieces != []
  {
    if |pieces| == 1 then pieces[0] else pieces[0] + "$" + Decimal(k) + WithParams(pieces[1..], k + 1)
  }

  /** The text between the holes. */
  function Pieces(s: string): (ps: seq<string>)
    ensures |ps| == HoleCount(s) + 1
    ensures forall i :: 0 <= i < |ps| ==> '?' !in ps[i]
  {
    if s == "" then [""]
    else
      var rest := Pieces(s[1..]);
      if s[0] == '?' then [""] + rest
      else [[s[0]] + rest[0]] + rest[1..]
  }

  lemma PieceBeforeHole(rest: seq<string>, k: nat)
    requires rest != []
    ensures WithHoles([""] + rest) == "?" + WithHoles(rest)
    ensures WithParams([""] + rest, k) == "$" + Decimal(k) + WithParams(rest, k + 1)
  {
    Tail("", rest);
    assert "" + "?" == "?" && "" + "$" == "$";
  }

  lemma PieceBeforeChar(c: char, rest: seq<string>, k: nat)
    requires rest != []
    ensures WithHoles([[c] + rest[0]] + rest[1..]) == [c] + WithHoles(rest)
    ensures WithParams([[c] + rest[0]] + rest[1..], k) == [c] + WithParams(rest, k)
  {
    var head, more := rest[0], rest[1..];
    Tail([c] + head, more);
    if more != [] {
      Regroup4([c], head, "?", WithHoles(more));
      Regroup4([c], head, "$" + Decimal(k), WithParams(more, k + 1));
      Regroup4(head, "$", Decimal(k), WithParams(more, k + 1));
      Regroup4([c] + head, "$", Decimal(k), WithParams(more, k + 1));
    }
  }

  /** The j-th hole becomes `$(k+j)` and no other character changes. */
  lemma {:induction false} HolesBecomeParams(s: string, k: nat)
    ensures WithHoles(Pieces(s)) == s
    ensures WithParams(Pieces(s), k) == Numbered(s, k)
  {
    if s != "" {
      var rest := Pieces(s[1..]);
      assert s == [s[0]] + s[1..];
      if s[0] == '?' {
        HolesBecomeParams(s[1..], k + 1);
        PieceBeforeHole(rest, k);
      } else {
        HolesBecomeParams(s[1..], k);
        PieceBeforeChar(s[0], rest, k);
      }
    }
  }

  lemma {:induction false} PlainTextJoins(conds: seq<string>)
    ensures PlainText(conds) == JoinTexts(conds, "\n  AND ")
  {
    if |conds| > 1 {
      PlainTextJoins(conds[1..]);
    }
  }

  /** The rendered text: the conditions joined with AND as written, the k-th `?` of them all replaced by `$k` and no
      other character changed, and the first number after those for the limit. */
  lemma RenderedPieces(base: string, conds: seq<string>, orderBy: string, limited: bool)
    ensures var joined := JoinTexts(conds, "\n  AND ");
      var pieces := Pieces(joined);
      WithHoles(pieces) == joined &&
      RenderText(base, conds, orderBy, limited)
        == base + (if conds == [] then "" else "\nWHERE " + WithParams(pieces, 1))
         + (if orderBy == "" then "" else "\nORDER BY " + orderBy)
         + (if limited then "\nLIMIT $" + Decimal(|pieces|) else "")
  {
    hide WithHoles, WithParams, Pieces, PlainText, WhereText, TotalHoles, Decimal, JoinTexts;
    PlainTextJoins(conds);
    OneRunningIndex(conds, 1);
    HolesBecomeParams(PlainText(conds), 1);
  }

  /** Numbers are written in decimal digits. */
  lemma DecimalSpelling(n: nat, d: nat)
    requires d < 10
    ensures Decimal(d) == ["0123456789"[d]]
    ensures n > 0 ==> Decimal(10 * n + d) == Decimal(n) + ["0123456789"[d]]
  {
  }
}
