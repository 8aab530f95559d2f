/** Rows of krateo_resources, SQL values, three-valued logic and value order. */
module Database {
  import opened Common
  import opened SqlTokens
  import Like

  /** labelQueries holds the label arguments that the row's labels contain in the sense of `@>`. */
  datatype Row = Row(
    id: int, createdAt: int, updatedAt: int, deletedAt: Option<int>,
    cluster: string, uid: string, globalUid: string, namespace: string,
    group: string, version: string, kind: string, plural: string, name: string,
    compositionId: Option<string>, raw: string, statusRaw: Option<string>, labelQueries: set<string>)

  /** Uuid holds the text that PostgreSQL prints, with letters in lower case. */
  datatype Value = Null | Num(n: int) | Text(s: string) | Uuid(u: string)

  /** The value of a column; the labels are looked at by `@>` only. */
  function Field(r: Row, c: Column): Value {
    match c
    case ResourceName => Text(r.name)
    case Uid => Text(r.uid)
    case GlobalUid => Text(r.globalUid)
    case Namespace => Text(r.namespace)
    case ResourceGroup => Text(r.group)
    case ResourceVersion => Text(r.version)
    case ResourceKind => Text(r.kind)
    case ResourcePlural => Text(r.plural)
    case ClusterName => Text(r.cluster)
    case CreatedAt => Num(r.createdAt)
    case UpdatedAt => Num(r.updatedAt)
    case CompositionId => if r.compositionId.Some? then Uuid(r.compositionId.value) else Null
    case Id => Num(r.id)
    case DeletedAt => if r.deletedAt.Some? then Num(r.deletedAt.value) else Null
    case Labels => Null
    case Raw => Text(r.raw)
    case StatusRaw => if r.statusRaw.Some? then Text(r.statusRaw.value) else Null
  }

  predicate Nullable(c: Column) {
    c in {CompositionId, DeletedAt, Labels, StatusRaw}
  }

  // ----- what the schema allows -----

  function Lower(s: string): string {
    Like.Fold(Like.LowerChar, s)
  }

  const UUID_DASHES := {8, 13, 18, 23}

  /** The canonical text of a UUID. */
  predicate UuidShaped(s: string) {
    |s| == 36 &&
    forall i :: 0 <= i < 36 ==>
      if i in UUID_DASHES then s[i] == '-' else '0' <= s[i] <= '9' || 'a' <= s[i] <= 'f'
  }

  /** A row of the table: identity values start at 1, composition_id has type UUID. */
  predicate StoredRow(r: Row) {
    r.id > 0 && (r.compositionId.Some? ==> UuidShaped(r.compositionId.value))
  }

  ghost predicate DistinctIds(rows: seq<Row>) {
    forall i, j :: 0 <= i < j < |rows| ==> rows[i].id != rows[j].id
  }

  ghost predicate DistinctUids(rows: seq<Row>) {
    forall i, j :: 0 <= i < j < |rows| ==> rows[i].globalUid != rows[j].globalUid
  }

  /** The constraints of the schema. */
  ghost predicate Stored(table: seq<Row>) {
    DistinctIds(table) && DistinctUids(table) && forall r :: r in table ==> StoredRow(r)
  }

  lemma {:induction false} FoldAt(s: string, i: nat)
    requires i < |s|
    ensures Lower(s)[i] == Like.LowerChar(s[i])
  {
    if i > 0 {
      FoldAt(s[1..], i - 1);
    }
  }

  /** Stored UUIDs are not changed by folding. */
  lemma UuidIsLower(s: string)
    requires UuidShaped(s)
    ensures Lower(s) == s
  {
    forall i | 0 <= i < |s|
      ensures Lower(s)[i] == s[i]
    {
      FoldAt(s, i);
    }
  }

  // ----- value order -----

  /** Code-point order. */
  predicate TextLess(a: string, b: string) {
    if b == "" then false
    else if a == "" then true
    else if a[0] == b[0] then TextLess(a[1..], b[1..])
    else a[0] < b[0]
  }

  lemma {:induction false} TextIrreflexive(a: string)
    ensures !TextLess(a, a)
  {
    if a != "" {
      TextIrreflexive(a[1..]);
    }
  }

  lemma {:induction false} TextTotal(a: string, b: string)
    ensures a == b || TextLess(a, b) || TextLess(b, a)
  {
    if a != "" && b != "" && a[0] == b[0] {
      TextTotal(a[1..], b[1..]);
      assert a == [a[0]] + a[1..] && b == [b[0]] + b[1..];
    }
  }

  lemma {:induction false} TextTransitive(a: string, b: string, c: string)
    requires TextLess(a, b) && TextLess(b, c)
    ensures TextLess(a, c)
  {
    if a != "" && a[0] == b[0] == c[0] {
      TextTransitive(a[1..], b[1..], c[1..]);
    }
  }

  ghost predicate StrictTotal(less: (string, string) -> bool) {
    && (forall a :: !less(a, a))
    && (forall a, b :: a == b || less(a, b) || less(b, a))
    && (forall a, b, c :: less(a, b) && less(b, c) ==> less(a, c))
  }

  lemma TextLessIsStrict()
    ensures StrictTotal(TextLess)
  {
    forall a
      ensures !TextLess(a, a)
    {
      TextIrreflexive(a);
    }
    forall a, b
      ensures a == b || TextLess(a, b) || TextLess(b, a)
    {
      TextTotal(a, b);
    }
    forall a, b, c | TextLess(a, b) && TextLess(b, c)
      ensures TextLess(a, c)
    {
      TextTransitive(a, b, c);
    }
  }

  /** The collation of the text columns: any strict total order. Nothing else is known about it. */
  ghost function Collation(): (string, string) -> bool {
    TextLessIsStrict();
    var less: (string, string) -> bool :| StrictTotal(less);
    less
  }

  lemma CollationIsStrict()
    ensures StrictTotal(Collation())
  {
  }

  /** A strict order on values other than NULL; UUIDs are ordered by their bytes. */
  ghost predicate ValueLess(a: Value, b: Value) {
    match (a, b)
    case (Num(x), Num(y)) => x < y
    case (Text(x), Text(y)) => Collation()(x, y)
    case (Uuid(x), Uuid(y)) => TextLess(x, y)
    case _ => Rank(a) < Rank(b)
  }

  /** Values of different types are never compared; any order will do. */
  function Rank(v: Value): int {
    match v case Null => 3 case Num(_) => 0 case Text(_) => 1 case Uuid(_) => 2
  }

  lemma ValueIrreflexive(a: Value)
    ensures !ValueLess(a, a)
  {
    CollationIsStrict();
    if a.Uuid? {
      TextIrreflexive(a.u);
    }
  }

  lemma ValueTotal(a: Value, b: Value)
    requires !a.Null? && !b.Null?
    ensures a == b || ValueLess(a, b) || ValueLess(b, a)
  {
    CollationIsStrict();
    if a.Uuid? && b.Uuid? {
      TextTotal(a.u, b.u);
    }
  }

  lemma ValueTransitive(a: Value, b: Value, c: Value)
    requires ValueLess(a, b) && ValueLess(b, c)
    ensures ValueLess(a, c)
  {
    CollationIsStrict();
    if a.Uuid? && b.Uuid? && c.Uuid? {
      TextTransitive(a.u, b.u, c.u);
    }
  }

  // ----- three-valued logic -----

  datatype Truth = True | False | Unknown

  function Both(a: Truth, b: Truth): Truth {
    if a == False || b == False then False
    else if a == Unknown || b == Unknown then Unknown
    else True
  }

  function Either(a: Truth, b: Truth): Truth {
    if a == True || b == True then True
    else if a == Unknown || b == Unknown then Unknown
    else False
  }

  function Decide(b: bool): Truth {
    if b then True else False
  }

  /** A text argument compared with a UUID is read as one, in either case of letters. */
  function Bound(field: Value, arg: Value): Value {
    if field.Uuid? && arg.Text? then Uuid(Lower(arg.s)) else arg
  }

  /** `(fields) op (args)` for row values: decided by the first pair that differs or holds a NULL
      (ISO/IEC 9075-2, section 8.2). */
  ghost function CompareRows(op: Operator, fields: seq<Value>, args: seq<Value>): Truth {
    if |fields| != |args| then Unknown
    else if fields == [] then Decide(op == Equal || op == AtLeast)
    else
      var x, y := fields[0], Bound(fields[0], args[0]);
      if x.Null? || y.Null? then
        if op == Equal then Both(Unknown, CompareRows(op, fields[1..], args[1..])) else Unknown
      else if x == y then CompareRows(op, fields[1..], args[1..])
      else match op
        case Equal => False
        case Less => Decide(ValueLess(x, y))
        case Greater => Decide(ValueLess(y, x))
        case AtLeast => Decide(ValueLess(y, x))
  }
}
