/** Sort columns and directions, and the ORDER BY clause they stand for. */
module Sorting {
  import opened Common
  import opened SqlTokens
  import opened SqlParser
  import opened Database
  import opened SortedRows

  /** The accepted sort_by values; Unset is the empty string and OtherColumn anything else. */
  datatype SortBy =
    | Unset | ByResource | ByCreatedAt | ByUpdatedAt | ByGlobalUid | ByCompositionId
    | OtherColumn(name: string)

  /** The accepted sort_order values; NoOrder is the empty string and OtherOrder anything else. */
  datatype SortOrder = NoOrder | Ascending | Descending | OtherOrder(name: string)

  predicate ValidSortBy(s: SortBy) {
    !s.OtherColumn?
  }

  function DefaultSortOrder(s: SortBy): SortOrder {
    if s.ByCreatedAt? || s.ByUpdatedAt? then Descending else Ascending
  }

  function NormaliseSortOrder(o: SortOrder, s: SortBy): SortOrder {
    if o.NoOrder? then DefaultSortOrder(s) else o
  }

  function NormaliseSortBy(s: SortBy): SortBy {
    if s.Unset? then ByResource else s
  }

  function DirectionText(o: SortOrder): string {
    if o.Descending? then "DESC" else "ASC"
  }

  function NullsText(o: SortOrder): string {
    if o.Descending? then "NULLS FIRST" else "NULLS LAST"
  }

  const RESOURCE_COLUMNS := [ResourceGroup, ResourceVersion, ResourcePlural, Namespace, ResourceName, Id]

  /** The columns compared, in order; the identity column is always last. */
  function SortColumns(s: SortBy): (cs: seq<Column>)
    ensures |cs| >= 2 && cs[|cs| - 1] == Id
    ensures forall i :: 1 <= i < |cs| ==> !Nullable(cs[i])
    ensures Nullable(cs[0]) ==> s.ByCompositionId?
  {
    match s
    case ByCreatedAt => [CreatedAt, Id]
    case ByUpdatedAt => [UpdatedAt, Id]
    case ByGlobalUid => [GlobalUid, Id]
    case ByCompositionId => [CompositionId, Id]
    case _ => RESOURCE_COLUMNS
  }

  function KeysFor(cs: seq<Column>, desc: bool): (keys: seq<SortKey>)
    ensures |keys| == |cs|
    ensures forall i :: 0 <= i < |cs| ==> keys[i] == SortKey(cs[i], desc, None)
  {
    if cs == [] then [] else [SortKey(cs[0], desc, None)] + KeysFor(cs[1..], desc)
  }

  /** The sort keys of the ORDER BY clause. */
  function SortKeys(s: SortBy, o: SortOrder): (keys: seq<SortKey>)
    ensures EndsWithId(keys)
  {
    if s.ByCompositionId? then
      [SortKey(CompositionId, o.Descending?, Some(if o.Descending? then NullsFirst else NullsLast)),
       SortKey(Id, o.Descending?, None)]
    else KeysFor(SortColumns(s), o.Descending?)
  }

  lemma {:induction false} KeysForFlipped(cs: seq<Column>, desc: bool)
    ensures KeysFor(cs, !desc) == Flipped(KeysFor(cs, desc))
  {
    if cs != [] {
      KeysForFlipped(cs[1..], desc);
      Tail(SortKey(cs[0], desc, None), KeysFor(cs[1..], desc));
    }
  }

  lemma {:induction false} FlippedTwo(a: SortKey, b: SortKey)
    ensures Flipped([a, b]) == [FlippedKey(a), FlippedKey(b)]
  {
    assert [a, b][1..] == [b] && [b][1..] == [];
  }

  lemma DescendingKeys(s: SortBy)
    ensures SortKeys(s, Descending) == Flipped(SortKeys(s, Ascending))
  {
    hide Flipped, KeysFor, SortColumns;
    if s.ByCompositionId? {
      var keys := SortKeys(s, Ascending);
      FlippedTwo(keys[0], keys[1]);
      assert keys == [keys[0], keys[1]];
    } else {
      KeysForFlipped(SortColumns(s), false);
    }
  }

  /** For every sort column, descending is the exact reverse of ascending, NULLs included. */
  lemma DescendingIsReverse(s: SortBy, a: Row, b: Row)
    ensures Before(SortKeys(s, Descending), a, b) <==> Before(SortKeys(s, Ascending), b, a)
  {
    DescendingKeys(s);
    FlippedBefore(SortKeys(s, Ascending), a, b);
  }

  // ----- which rows come first -----

  /** Ascending: a comes before b. */
  ghost predicate Ascends(s: SortBy, a: Row, b: Row) {
    match s
    case ByCreatedAt => a.createdAt < b.createdAt || (a.createdAt == b.createdAt && a.id < b.id)
    case ByUpdatedAt => a.updatedAt < b.updatedAt || (a.updatedAt == b.updatedAt && a.id < b.id)
    case ByGlobalUid => Collation()(a.globalUid, b.globalUid) || (a.globalUid == b.globalUid && a.id < b.id)
    case ByCompositionId =>
      if a.compositionId.Some? && b.compositionId.Some? then
        TextLess(a.compositionId.value, b.compositionId.value) || (a.compositionId == b.compositionId && a.id < b.id)
      else if a.compositionId.None? && b.compositionId.None? then a.id < b.id
      else a.compositionId.Some?
    case _ =>
      if a.group != b.group then Collation()(a.group, b.group)
      else if a.version != b.version then Collation()(a.version, b.version)
      else if a.plural != b.plural then Collation()(a.plural, b.plural)
      else if a.namespace != b.namespace then Collation()(a.namespace, b.namespace)
      else if a.name != b.name then Collation()(a.name, b.name)
      else a.id < b.id
  }

  /** Times come latest first, anything else in ascending order, unless the request says otherwise. */
  predicate Descends(s: SortBy, o: SortOrder) {
    o.Descending? || (o.NoOrder? && (s.ByCreatedAt? || s.ByUpdatedAt?))
  }

  /** The row a comes before b in the order that a request asks for with sort_by s and sort_order o. */
  ghost predicate Precedes(s: SortBy, o: SortOrder, a: Row, b: Row) {
    if Descends(s, o) then Ascends(s, b, a) else Ascends(s, a, b)
  }

  lemma KeyStep(c: Column, rest: seq<SortKey>, a: Row, b: Row)
    ensures var x, y := Field(a, c), Field(b, c);
      Before([SortKey(c, false, None)] + rest, a, b) <==>
      if x == y then Before(rest, a, b) else if x.Null? then false else y.Null? || ValueLess(x, y)
  {
    Tail(SortKey(c, false, None), rest);
  }

  lemma IdStep(a: Row, b: Row)
    ensures Before([SortKey(Id, false, None)], a, b) <==> a.id < b.id
  {
    assert [SortKey(Id, false, None)][1..] == [];
  }

  lemma TwoKeys(c: Column)
    ensures KeysFor([c, Id], false) == [SortKey(c, false, None)] + [SortKey(Id, false, None)]
  {
  }

  lemma PairAscends(c: Column, a: Row, b: Row)
    requires !Nullable(c)
    ensures var x, y := Field(a, c), Field(b, c);
      Before(KeysFor([c, Id], false), a, b) <==> if x == y then a.id < b.id else ValueLess(x, y)
  {
    hide Before, ValueLess;
    TwoKeys(c);
    KeyStep(c, [SortKey(Id, false, None)], a, b);
    IdStep(a, b);
  }

  lemma ResourceKeys()
    ensures KeysFor(RESOURCE_COLUMNS, false)
         == [SortKey(ResourceGroup, false, None)] + ([SortKey(ResourceVersion, false, None)]
          + ([SortKey(ResourcePlural, false, None)] + ([SortKey(Namespace, false, None)]
          + ([SortKey(ResourceName, false, None)] + [SortKey(Id, false, None)]))))
  {
  }

  lemma ResourceAscends(a: Row, b: Row)
    ensures Before(KeysFor(RESOURCE_COLUMNS, false), a, b) <==> Ascends(ByResource, a, b)
  {
    hide Before, KeysFor;
    var k := SortKey(Id, false, None);
    ResourceKeys();
    IdStep(a, b);
    var k1 := [SortKey(ResourceName, false, None)] + [k];
    var k2 := [SortKey(Namespace, false, None)] + k1;
    var k3 := [SortKey(ResourcePlural, false, None)] + k2;
    var k4 := [SortKey(ResourceVersion, false, None)] + k3;
    KeyStep(ResourceName, [k], a, b);
    KeyStep(Namespace, k1, a, b);
    KeyStep(ResourcePlural, k2, a, b);
    KeyStep(ResourceVersion, k3, a, b);
    KeyStep(ResourceGroup, k4, a, b);
  }

  lemma CompositionAscends(a: Row, b: Row)
    ensures Before(SortKeys(ByCompositionId, Ascending), a, b) <==> Ascends(ByCompositionId, a, b)
  {
    var keys := SortKeys(ByCompositionId, Ascending);
    assert keys[1..] == [SortKey(Id, false, None)];
    IdStep(a, b);
    if a.compositionId.Some? {
      TextIrreflexive(a.compositionId.value);
    }
  }

  lemma AscendingMeans(s: SortBy, a: Row, b: Row)
    ensures Before(SortKeys(NormaliseSortBy(s), Ascending), a, b) <==> Ascends(s, a, b)
  {
    hide Before, KeysFor;
    CollationIsStrict();
    match s
    case ByCreatedAt => PairAscends(CreatedAt, a, b);
    case ByUpdatedAt => PairAscends(UpdatedAt, a, b);
    case ByGlobalUid => PairAscends(GlobalUid, a, b);
    case ByCompositionId => CompositionAscends(a, b);
    case Unset => ResourceAscends(a, b);
    case ByResource => ResourceAscends(a, b);
    case OtherColumn(_) => ResourceAscends(a, b);
  }

  /** The sort keys order rows as the request asks for, empty and written sort words alike. */
  lemma OrderMeans(s: SortBy, o: SortOrder, a: Row, b: Row)
    ensures var column := NormaliseSortBy(s);
      Before(SortKeys(column, NormaliseSortOrder(o, column)), a, b) <==> Precedes(s, o, a, b)
  {
    hide Before, Ascends, KeysFor;
    var column := NormaliseSortBy(s);
    AscendingMeans(s, a, b);
    AscendingMeans(s, b, a);
    DescendingIsReverse(column, a, b);
    assert Descends(s, o) <==> NormaliseSortOrder(o, column).Descending?;
    assert SortKeys(column, NormaliseSortOrder(o, column))
        == SortKeys(column, if Descends(s, o) then Descending else Ascending);
  }

  // ----- the text of the clause -----

  function KeyText(c: Column, dir: string): string {
    ColumnText(c) + " " + dir
  }

  /** `a DIR, b DIR, …` */
  function ColumnListText(cs: seq<Column>, dir: string): string
    requires cs != []
  {
    if |cs| == 1 then KeyText(cs[0], dir) else KeyText(cs[0], dir) + ", " + ColumnListText(cs[1..], dir)
  }

  /** For example `created_at DESC, id DESC` or `composition_id ASC NULLS LAST, id ASC`. */
  function SortOrderSQL(s: SortBy, o: SortOrder): string {
    var dir := DirectionText(o);
    if s.ByCompositionId? then
      KeyText(CompositionId, dir) + " " + NullsText(o) + ", " + KeyText(Id, dir)
    else ColumnListText(SortColumns(s), dir)
  }

  // ----- the clause is the text of its keys -----

  lemma ShowKey(c: Column, o: SortOrder)
    ensures Show(KeyTokens(SortKey(c, o.Descending?, None))) == KeyText(c, DirectionText(o))
  {
    var ts := KeyTokens(SortKey(c, o.Descending?, None));
    assert ts == [Col(c), Word(if o.Descending? then Desc else Asc)];
    assert ts[1..] == [Word(if o.Descending? then Desc else Asc)];
  }

  lemma CommaText(a: string, b: string)
    ensures a + "" + "," + " " + b == a + ", " + b
  {
  }

  lemma ShowComma(a: seq<Token>, b: seq<Token>)
    requires a != [] && b != [] && a[|a| - 1] != LParen && b[0] != RParen && b[0] != Comma
    ensures Show(a + [Comma] + b) == Show(a) + ", " + Show(b)
  {
    ShowAppend(a + [Comma], b);
    ShowAppend(a, [Comma]);
    CommaText(Show(a), Show(b));
  }

  lemma OrderTokensStart(keys: seq<SortKey>)
    requires keys != []
    ensures OrderTokens(keys) != [] && OrderTokens(keys)[0] == Col(keys[0].column)
  {
  }

  lemma {:induction false} ShowKeys(cs: seq<Column>, o: SortOrder)
    requires cs != []
    ensures Show(OrderTokens(KeysFor(cs, o.Descending?))) == ColumnListText(cs, DirectionText(o))
  {
    var keys := KeysFor(cs, o.Descending?);
    ShowKey(cs[0], o);
    if |cs| > 1 {
      var more := KeysFor(cs[1..], o.Descending?);
      assert keys[1..] == more;
      ShowKeys(cs[1..], o);
      OrderTokensStart(more);
      ShowComma(KeyTokens(keys[0]), OrderTokens(more));
    }
  }

  lemma ShowPlace(o: SortOrder)
    ensures Show([Word(Nulls), Word(if o.Descending? then First else Last)]) == NullsText(o)
  {
    var place := [Word(Nulls), Word(if o.Descending? then First else Last)];
    assert place[1..] == [place[1]];
    assert "NULLS" + " " + "FIRST" == "NULLS FIRST" && "NULLS" + " " + "LAST" == "NULLS LAST";
  }

  lemma ShowNullsKey(k: SortKey, o: SortOrder)
    requires k == SortKeys(ByCompositionId, o)[0]
    ensures Show(KeyTokens(k)) == KeyText(CompositionId, DirectionText(o)) + " " + NullsText(o)
  {
    var head := [Col(CompositionId), Word(if o.Descending? then Desc else Asc)];
    var place := [Word(Nulls), Word(if o.Descending? then First else Last)];
    assert KeyTokens(k) == head + place;
    ShowAppend(head, place);
    ShowKey(CompositionId, o);
    assert head == KeyTokens(SortKey(CompositionId, o.Descending?, None));
    ShowPlace(o);
  }

  /** The rendered clause is the text of SortKeys. */
  lemma SortOrderSQLShows(s: SortBy, o: SortOrder)
    ensures SortOrderSQL(s, o) == Show(OrderTokens(SortKeys(s, o)))
    ensures SortOrderSQL(s, o) != ""
  {
    if s.ByCompositionId? {
      var keys := SortKeys(s, o);
      ShowNullsKey(keys[0], o);
      assert keys[1..] == KeysFor([Id], o.Descending?);
      ShowKeys([Id], o);
      OrderTokensStart(keys[1..]);
      ShowComma(KeyTokens(keys[0]), OrderTokens(keys[1..]));
    } else {
      ShowKeys(SortColumns(s), o);
    }
  }
}
