/** The tokens of the SQL dialect the service writes, and how they are spelled and spaced. */
module SqlTokens {
  import opened Common

  /** The columns of krateo_resources that the queries name; Labels is the JSON path to the labels. */
  datatype Column =
    | ResourceName | Uid | GlobalUid | Namespace | ResourceGroup | ResourceVersion | ResourceKind
    | ResourcePlural | ClusterName | CreatedAt | UpdatedAt | CompositionId | Id | DeletedAt | Labels
    | Raw | StatusRaw

  datatype Operator = Equal | Less | Greater | AtLeast

  datatype Keyword =
    | Select | Distinct | From | Resources | Where | AndWord | OrWord | Is | Not | NullWord | In | ILike
    | Contains | Order | By | Asc | Desc | Nulls | First | Last | Limit

  /** Hole is the builder's `?`, Param(n) the driver's `$n`; cast says that `::jsonb` follows. */
  datatype Token =
    | LParen | RParen | Comma
    | Hole(cast: bool)
    | Param(index: nat, cast: bool)
    | Word(keyword: Keyword)
    | Col(column: Column)
    | Op(operator: Operator)
    | Stray(text: string)

  function ColumnText(c: Column): string {
    match c
    case ResourceName => "resource_name"
    case Uid => "uid"
    case GlobalUid => "global_uid"
    case Namespace => "namespace"
    case ResourceGroup => "resource_group"
    case ResourceVersion => "resource_version"
    case ResourceKind => "resource_kind"
    case ResourcePlural => "resource_plural"
    case ClusterName => "cluster_name"
    case CreatedAt => "created_at"
    case UpdatedAt => "updated_at"
    case CompositionId => "composition_id"
    case Id => "id"
    case DeletedAt => "deleted_at"
    case Labels => "raw->'metadata'->'labels'"
    case Raw => "raw"
    case StatusRaw => "status_raw"
  }

  function KeywordText(k: Keyword): string {
    match k
    case Select => "SELECT"
    case Distinct => "DISTINCT"
    case From => "FROM"
    case Resources => "krateo_resources"
    case Where => "WHERE"
    case AndWord => "AND"
    case OrWord => "OR"
    case Is => "IS"
    case Not => "NOT"
    case NullWord => "NULL"
    case In => "IN"
    case ILike => "ILIKE"
    case Contains => "@>"
    case Order => "ORDER"
    case By => "BY"
    case Asc => "ASC"
    case Desc => "DESC"
    case Nulls => "NULLS"
    case First => "FIRST"
    case Last => "LAST"
    case Limit => "LIMIT"
  }

  function OperatorText(o: Operator): string {
    match o
    case Equal => "="
    case Less => "<"
    case Greater => ">"
    case AtLeast => ">="
  }

  const CAST := "::jsonb"

  function Digit(d: nat): (c: char)
    requires d < 10
    ensures '0' <= c <= '9' && c as int - '0' as int == d
  {
    '0' + d as char
  }

  /** What `%d` prints. */
  function Decimal(n: nat): string {
    if n < 10 then [Digit(n)] else Decimal(n / 10) + [Digit(n % 10)]
  }

  lemma {:induction false} DecimalDigits(n: nat)
    ensures Decimal(n) != "" && forall i :: 0 <= i < |Decimal(n)| ==> '0' <= Decimal(n)[i] <= '9'
  {
    if n >= 10 {
      DecimalDigits(n / 10);
    }
  }

  function TokenText(t: Token): string {
    match t
    case LParen => "("
    case RParen => ")"
    case Comma => ","
    case Hole(cast) => "?" + (if cast then CAST else "")
    case Param(n, cast) => "$" + Decimal(n) + (if cast then CAST else "")
    case Word(k) => KeywordText(k)
    case Col(c) => ColumnText(c)
    case Op(o) => OperatorText(o)
    case Stray(text) => text
  }

  /** One space between tokens, except inside parentheses and before a comma. */
  function Gap(left: Token, right: Token): string {
    if left == LParen || right == RParen || right == Comma then "" else " "
  }

  /** The text of a token sequence, spaced as the service spaces it. */
  function Show(ts: seq<Token>): string {
    if ts == [] then ""
    else if |ts| == 1 then TokenText(ts[0])
    else TokenText(ts[0]) + Gap(ts[0], ts[1]) + Show(ts[1..])
  }

  lemma {:induction false} ShowAppend(a: seq<Token>, b: seq<Token>)
    requires a != [] && b != []
    ensures Show(a + b) == Show(a) + Gap(a[|a| - 1], b[0]) + Show(b)
  {
    if |a| == 1 {
      assert (a + b)[1..] == b;
    } else {
      var head, gap := TokenText(a[0]) + Gap(a[0], a[1]), Gap(a[|a| - 1], b[0]);
      assert (a + b)[1..] == a[1..] + b;
      ShowAppend(a[1..], b);
      Regroup4(head, Show(a[1..]), gap, Show(b));
    }
  }

  // ----- spelling is unambiguous -----

  ghost predicate Lexeme(t: Token) {
    t.Word? || t.Col? || t.Op?
  }

  /** Length, first and last character: enough to tell all the words apart. */
  ghost function Shape(t: Token): (int, char, char)
    requires Lexeme(t)
  {
    match t
    case Word(k) => (match k
      case Select => (6, 'S', 'T')
      case Distinct => (8, 'D', 'T')
      case From => (4, 'F', 'M')
      case Resources => (16, 'k', 's')
      case Where => (5, 'W', 'E')
      case AndWord => (3, 'A', 'D')
      case OrWord => (2, 'O', 'R')
      case Is => (2, 'I', 'S')
      case Not => (3, 'N', 'T')
      case NullWord => (4, 'N', 'L')
      case In => (2, 'I', 'N')
      case ILike => (5, 'I', 'E')
      case Contains => (2, '@', '>')
      case Order => (5, 'O', 'R')
      case By => (2, 'B', 'Y')
      case Asc => (3, 'A', 'C')
      case Desc => (4, 'D', 'C')
      case Nulls => (5, 'N', 'S')
      case First => (5, 'F', 'T')
      case Last => (4, 'L', 'T')
      case Limit => (5, 'L', 'T'))
    case Col(c) => (match c
      case ResourceName => (13, 'r', 'e')
      case Uid => (3, 'u', 'd')
      case GlobalUid => (10, 'g', 'd')
      case Namespace => (9, 'n', 'e')
      case ResourceGroup => (14, 'r', 'p')
      case ResourceVersion => (16, 'r', 'n')
      case ResourceKind => (13, 'r', 'd')
      case ResourcePlural => (15, 'r', 'l')
      case ClusterName => (12, 'c', 'e')
      case CreatedAt => (10, 'c', 't')
      case UpdatedAt => (10, 'u', 't')
      case CompositionId => (14, 'c', 'd')
      case Id => (2, 'i', 'd')
      case DeletedAt => (10, 'd', 't')
      case Labels => (25, 'r', '\'')
      case Raw => (3, 'r', 'w')
      case StatusRaw => (10, 's', 'w'))
    case Op(o) => (match o
      case Equal => (1, '=', '=')
      case Less => (1, '<', '<')
      case Greater => (1, '>', '>')
      case AtLeast => (2, '>', '='))
  }

  lemma KeywordShape(k: Keyword)
    ensures var w := KeywordText(k); w != "" && (|w|, w[0], w[|w| - 1]) == Shape(Word(k))
  {
  }

  lemma ColumnShape(c: Column)
    ensures var w := ColumnText(c); w != "" && (|w|, w[0], w[|w| - 1]) == Shape(Col(c))
  {
  }

  lemma OperatorShape(o: Operator)
    ensures var w := OperatorText(o); w != "" && (|w|, w[0], w[|w| - 1]) == Shape(Op(o))
  {
  }

  lemma SameShape(a: Token, b: Token)
    requires Lexeme(a) && Lexeme(b) && Shape(a) == Shape(b)
    ensures a == b
  {
  }

  lemma LexemeShape(t: Token)
    requires Lexeme(t)
    ensures var w := TokenText(t); w != "" && (|w|, w[0], w[|w| - 1]) == Shape(t)
  {
    match t
    case Word(k) => KeywordShape(k);
    case Col(c) => ColumnShape(c);
    case Op(o) => OperatorShape(o);
  }

  /** No two words are spelled alike. */
  lemma SpellingInjective(a: Token, b: Token)
    requires Lexeme(a) && Lexeme(b) && TokenText(a) == TokenText(b)
    ensures a == b
  {
    LexemeShape(a);
    LexemeShape(b);
    SameShape(a, b);
  }
}
