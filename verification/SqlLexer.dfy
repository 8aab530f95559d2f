/** Reading characters back into tokens. */
module SqlLexer {
  import opened Common
  import opened SqlTokens

  predicate IsSpace(c: char) {
    c == ' ' || c == '\n'
  }

  predicate IsDigit(c: char) {
    '0' <= c <= '9'
  }

  predicate IsWordChar(c: char) {
    !IsSpace(c) && c != '(' && c != ')' && c != ',' && c != '$' && c != '?'
  }

  /** Length of the longest prefix of s whose characters all satisfy p. */
  function Span(s: string, p: char -> bool): (n: nat)
    ensures n <= |s|
    ensures s != "" && p(s[0]) ==> n > 0
  {
    if s != "" && p(s[0]) then 1 + Span(s[1..], p) else 0
  }

  function DecimalValue(s: string): int {
    if s == "" then 0 else 10 * DecimalValue(s[..|s| - 1]) + (s[|s| - 1] as int - '0' as int)
  }

  ghost function Classify(w: string): Token {
    if exists t :: Lexeme(t) && TokenText(t) == w
    then var t :| Lexeme(t) && TokenText(t) == w; t
    else Stray(w)
  }

  /** Longest-match scanning; white space only separates. */
  ghost function Lex(s: string): seq<Token>
    decreases |s|, 1
  {
    if s == "" then [] else LexStep(s)
  }

  ghost function LexStep(s: string): seq<Token>
    requires s != ""
    decreases |s|, 0
  {
    if IsSpace(s[0]) then Lex(s[1..])
    else if s[0] == '(' then [LParen] + Lex(s[1..])
    else if s[0] == ')' then [RParen] + Lex(s[1..])
    else if s[0] == ',' then [Comma] + Lex(s[1..])
    else if s[0] == '?' then [Hole(false)] + Lex(s[1..])
    else if s[0] == '$' then
      var n := Span(s[1..], IsDigit);
      var v := DecimalValue(s[1..1 + n]);
      var rest := s[1 + n..];
      var index: nat := if v < 0 then 0 else v;
      if CAST <= rest then [Param(index, true)] + Lex(rest[|CAST|..])
      else [Param(index, false)] + Lex(rest)
    else
      var n := Span(s, IsWordChar);
      [Classify(s[..n])] + Lex(s[n..])
  }

  // ----- lexing undoes Show -----

  /** Tokens that a rendered query may hold. */
  predicate Rendered(t: Token) {
    !t.Hole? && !t.Stray?
  }

  predicate AllRendered(ts: seq<Token>) {
    forall i :: 0 <= i < |ts| ==> Rendered(ts[i])
  }

  /** What may follow a token without running into it. */
  predicate Boundary(rest: string) {
    rest == "" || !IsWordChar(rest[0])
  }

  lemma {:induction false} SpanExact(w: string, rest: string, p: char -> bool)
    requires forall c :: c in w ==> p(c)
    requires rest == "" || !p(rest[0])
    ensures Span(w + rest, p) == |w|
  {
    if w == "" {
      assert w + rest == rest;
    } else {
      assert (w + rest)[1..] == w[1..] + rest;
      SpanExact(w[1..], rest, p);
    }
  }

  lemma {:induction false} DecimalValueDecimal(n: nat)
    ensures DecimalValue(Decimal(n)) == n
  {
    if n < 10 {
      assert [Digit(n)][..0] == "";
    } else {
      DecimalDigits(n / 10);
      DecimalValueDecimal(n / 10);
      assert Decimal(n)[..|Decimal(n)| - 1] == Decimal(n / 10);
    }
  }

  lemma ClassifyLexeme(t: Token)
    requires Lexeme(t)
    ensures Classify(TokenText(t)) == t
  {
    var u := Classify(TokenText(t));
    SpellingInjective(t, u);
  }

  predicate WordText(w: string) {
    w != "" && forall i :: 0 <= i < |w| ==> IsWordChar(w[i])
  }

  lemma KeywordChars(k: Keyword)
    ensures WordText(KeywordText(k))
  {
  }

  lemma LabelsChars()
    ensures WordText(ColumnText(Labels))
  {
  }

  lemma NameChars(c: Column)
    requires c in {ResourceName, ResourceGroup, ResourceVersion, ResourceKind, ResourcePlural, CompositionId}
    ensures WordText(ColumnText(c))
  {
  }

  lemma ShortNameChars(c: Column)
    requires c in {Uid, GlobalUid, Namespace, ClusterName, CreatedAt, UpdatedAt, Id, DeletedAt, Raw, StatusRaw}
    ensures WordText(ColumnText(c))
  {
  }

  lemma ColumnChars(c: Column)
    ensures WordText(ColumnText(c))
  {
    if c == Labels {
      LabelsChars();
    } else if c in {Uid, GlobalUid, Namespace, ClusterName, CreatedAt, UpdatedAt, Id, DeletedAt, Raw, StatusRaw} {
      ShortNameChars(c);
    } else {
      NameChars(c);
    }
  }

  lemma LexemeChars(t: Token)
    requires Lexeme(t)
    ensures WordText(TokenText(t))
  {
    match t
    case Word(k) => KeywordChars(k);
    case Col(c) => ColumnChars(c);
    case Op(o) =>
  }

  lemma LexLexeme(t: Token, rest: string)
    requires Lexeme(t) && Boundary(rest)
    ensures Lex(TokenText(t) + rest) == [t] + Lex(rest)
  {
    var w := TokenText(t);
    LexemeChars(t);
    ClassifyLexeme(t);
    SpanExact(w, rest, IsWordChar);
    assert (w + rest)[..|w|] == w && (w + rest)[|w|..] == rest;
    assert IsWordChar((w + rest)[0]);
  }

  lemma LexDollar(d: string, tail: string)
    requires d != "" && (forall c :: c in d ==> IsDigit(c)) && DecimalValue(d) >= 0
    requires tail == "" || !IsDigit(tail[0])
    ensures Lex("$" + d + tail) ==
      if CAST <= tail then [Param(DecimalValue(d), true)] + Lex(tail[|CAST|..])
      else [Param(DecimalValue(d), false)] + Lex(tail)
  {
    var s := "$" + d + tail;
    assert s[0] == '$';
    assert s[1..] == d + tail;
    SpanExact(d, tail, IsDigit);
    assert s[1..1 + |d|] == d && s[1 + |d|..] == tail;
    assert Lex(s) == LexStep(s);
  }

  lemma LexParameter(n: nat, cast: bool, rest: string)
    requires Boundary(rest)
    ensures Lex(TokenText(Param(n, cast)) + rest) == [Param(n, cast)] + Lex(rest)
  {
    hide Lex, LexStep, Decimal, DecimalValue;
    var d := Decimal(n);
    var tail := (if cast then CAST else "") + rest;
    DecimalDigits(n);
    DecimalValueDecimal(n);
    LexDollar(d, tail) by {
      if !cast {
        assert tail == rest;
      }
    }
    assert TokenText(Param(n, cast)) + rest == "$" + d + tail;
    if cast {
      assert tail[|CAST|..] == rest;
    } else {
      assert tail == rest;
    }
  }

  lemma LexToken(t: Token, rest: string)
    requires Rendered(t)
    requires t == LParen || Boundary(rest)
    ensures Lex(TokenText(t) + rest) == [t] + Lex(rest)
  {
    var s := TokenText(t) + rest;
    match t
    case LParen => assert s[1..] == rest;
    case RParen => assert s[1..] == rest;
    case Comma => assert s[1..] == rest;
    case Param(n, cast) => LexParameter(n, cast, rest);
    case Word(_) => LexLexeme(t, rest);
    case Col(_) => LexLexeme(t, rest);
    case Op(_) => LexLexeme(t, rest);
  }

  lemma ShowStart(ts: seq<Token>)
    requires ts != [] && (ts[0].RParen? || ts[0].Comma?)
    ensures Show(ts) != "" && !IsWordChar(Show(ts)[0])
  {
  }

  /** The gap keeps neighbours apart, and scanning passes over it. */
  lemma GapSeparates(left: Token, right: Token, ts: seq<Token>, rest: string)
    requires ts != [] && ts[0] == right
    ensures left == LParen || Boundary(Gap(left, right) + Show(ts) + rest)
    ensures Lex(Gap(left, right) + Show(ts) + rest) == Lex(Show(ts) + rest)
  {
    Regroup3(Gap(left, right), Show(ts), rest);
    var tail := Show(ts) + rest;
    if left == LParen || right == RParen || right == Comma {
      assert "" + tail == tail;
      if left != LParen {
        ShowStart(ts);
        assert tail[0] == Show(ts)[0];
      }
    } else {
      Tail(' ', tail);
      assert (" " + tail)[0] == ' ';
    }
  }

  /** Reading a shown token sequence gives the sequence back, whatever follows it. */
  lemma {:induction false} LexShow(ts: seq<Token>, rest: string)
    requires AllRendered(ts) && Boundary(rest)
    ensures Lex(Show(ts) + rest) == ts + Lex(rest)
  {
    if ts == [] {
      assert Show(ts) + rest == rest;
    } else if |ts| == 1 {
      LexToken(ts[0], rest);
    } else {
      hide LexStep, TokenText;
      var t, more := ts[0], ts[1..];
      LexShow(more, rest);
      LexShowStep(t, more, rest);
      assert ts == [t] + more;
    }
  }

  lemma LexShowStep(t: Token, more: seq<Token>, rest: string)
    requires more != [] && Rendered(t) && Boundary(rest)
    requires Lex(Show(more) + rest) == more + Lex(rest)
    ensures Lex(Show([t] + more) + rest) == [t] + more + Lex(rest)
  {
    var text, gap, tail := TokenText(t), Gap(t, more[0]), Show(more);
    GapSeparates(t, more[0], more, rest);
    LexToken(t, gap + tail + rest);
    hide LexStep, TokenText;
    Tail(t, more);
    Regroup4(text, gap, tail, rest);
    Regroup3([t], more, Lex(rest));
  }

  lemma {:induction false} LexBlank(blank: string, rest: string)
    requires forall i :: 0 <= i < |blank| ==> IsSpace(blank[i])
    ensures Lex(blank + rest) == Lex(rest)
  {
    if blank == "" {
      assert blank + rest == rest;
    } else {
      assert (blank + rest)[1..] == blank[1..] + rest;
      LexBlank(blank[1..], rest);
    }
  }

  // ----- reading pieces of text -----

  /** Wherever a boundary follows, s is read as ts. */
  ghost predicate Reads(s: string, ts: seq<Token>) {
    forall rest :: Boundary(rest) ==> Lex(s + rest) == ts + Lex(rest)
  }

  /** Whatever follows, s is read as ts. */
  ghost predicate Opens(s: string, ts: seq<Token>) {
    forall rest :: Lex(s + rest) == ts + Lex(rest)
  }

  lemma ReadsWhole(s: string, ts: seq<Token>)
    requires Reads(s, ts)
    ensures Lex(s) == ts
  {
    assert s + "" == s;
    assert Lex(s + "") == ts + Lex("");
  }

  lemma ReadsNothing()
    ensures Reads("", [])
  {
    forall rest | Boundary(rest)
      ensures Lex("" + rest) == [] + Lex(rest)
    {
      assert "" + rest == rest;
    }
  }

  lemma ReadsShow(ts: seq<Token>)
    requires AllRendered(ts)
    ensures Reads(Show(ts), ts)
  {
    forall rest | Boundary(rest)
      ensures Lex(Show(ts) + rest) == ts + Lex(rest)
    {
      LexShow(ts, rest);
    }
  }

  lemma ReadsThen(a: string, ta: seq<Token>, b: string, tb: seq<Token>)
    requires Reads(a, ta) && Reads(b, tb) && Boundary(b)
    ensures Reads(a + b, ta + tb)
  {
    forall rest | Boundary(rest)
      ensures Lex(a + b + rest) == ta + tb + Lex(rest)
    {
      Regroup3(a, b, rest);
      assert b + rest != "" ==> (b + rest)[0] == if b != "" then b[0] else rest[0];
      Regroup3(ta, tb, Lex(rest));
    }
  }

  lemma OpensThen(a: string, ta: seq<Token>, b: string, tb: seq<Token>)
    requires Opens(a, ta) && Reads(b, tb)
    ensures Reads(a + b, ta + tb)
  {
    forall rest | Boundary(rest)
      ensures Lex(a + b + rest) == ta + tb + Lex(rest)
    {
      Regroup3(a, b, rest);
      Regroup3(ta, tb, Lex(rest));
    }
  }

  lemma OpensTwice(a: string, ta: seq<Token>, b: string, tb: seq<Token>)
    requires Opens(a, ta) && Opens(b, tb)
    ensures Opens(a + b, ta + tb)
  {
    forall rest
      ensures Lex(a + b + rest) == ta + tb + Lex(rest)
    {
      Regroup3(a, b, rest);
      Regroup3(ta, tb, Lex(rest));
    }
  }

  /** White space, a keyword and a space. */
  lemma OpensKeyword(blank: string, k: Keyword)
    requires forall i :: 0 <= i < |blank| ==> IsSpace(blank[i])
    ensures Opens(blank + (KeywordText(k) + " "), [Word(k)])
  {
    forall rest
      ensures Lex(blank + (KeywordText(k) + " ") + rest) == [Word(k)] + Lex(rest)
    {
      Regroup4(blank, KeywordText(k), " ", rest);
      Regroup3(blank, KeywordText(k) + " ", rest);
      Regroup3(KeywordText(k), " ", rest);
      LexBlank(blank, KeywordText(k) + (" " + rest));
      LexLexeme(Word(k), " " + rest);
      LexBlank(" ", rest);
    }
  }
}
