/** The discovery query and the list query: their conditions, their text, and the rows they keep. */
module ListQuery {
  import opened Common
  import opened SqlTokens
  import opened SqlParser
  import SqlLexer
  import opened Database
  import opened SortedRows
  import opened SqlMeaning
  import opened QueryBuilder
  import opened Fragments
  import opened Sorting
  import opened Cursor
  import L = Like

  datatype ResourceTarget = ResourceTarget(group: string, resource: string, namespace: string)

  datatype ListParams = ListParams(
    resourceGroup: string, resourceVersion: string, resourcePlural: string, cluster: string, namespace: string,
    compositionId: string, name: string, nameContains: string, labels: string, since: Option<int>,
    raw: bool, statusRaw: bool,
    sortBy: SortBy, sortOrder: SortOrder, limit: int, cursor: EncodedCursor,
    allowedTargets: seq<ResourceTarget>)

  function TargetOf(r: Row): ResourceTarget {
    ResourceTarget(r.group, r.plural, r.namespace)
  }

  // ----- conditions -----

  const ACTIVE := Fragment(Leaf(IsNull(DeletedAt)), [])
  const TARGET_COLUMNS := [ResourceGroup, ResourcePlural, Namespace]

  function Equals(c: Column, v: string): Fragment {
    Fragment(Leaf(Compare(c, Equal, 1)), [Text(v)])
  }

  function TargetRows(first: nat, n: nat): (rows: seq<seq<nat>>)
    ensures |rows| == n
    decreases n
  {
    if n == 0 then [] else [[first, first + 1, first + 2]] + TargetRows(first + 3, n - 1)
  }

  function TargetValues(t: ResourceTarget): seq<Value> {
    [Text(t.group), Text(t.resource), Text(t.namespace)]
  }

  function TargetArgs(targets: seq<ResourceTarget>): (args: seq<Value>)
    ensures |args| == 3 * |targets|
  {
    if targets == [] then []
    else TargetValues(targets[0]) + TargetArgs(targets[1..])
  }

  /** `(resource_group, resource_plural, namespace) IN ((?, ?, ?), …)` */
  function TargetsFragment(targets: seq<ResourceTarget>): Fragment {
    Fragment(Leaf(OneOf(TARGET_COLUMNS, TargetRows(1, |targets|))), TargetArgs(targets))
  }

  function DiscoverFragments(p: ListParams): seq<Fragment> {
    [ACTIVE] + [Equals(ResourceGroup, p.resourceGroup)]
    + Optional(p.resourceVersion != "", Equals(ResourceVersion, p.resourceVersion))
    + Optional(p.resourcePlural != "", Equals(ResourcePlural, p.resourcePlural))
    + Optional(p.cluster != "", Equals(ClusterName, p.cluster))
    + Optional(p.namespace != "", Equals(Namespace, p.namespace))
  }

  /** The conditions on what a row is: active, of the group, version and cluster asked for, in an allowed target. */
  function ScopeFragments(p: ListParams): seq<Fragment> {
    [ACTIVE] + [Equals(ResourceGroup, p.resourceGroup)]
    + Optional(p.resourceVersion != "", Equals(ResourceVersion, p.resourceVersion))
    + Optional(p.allowedTargets != [], TargetsFragment(p.allowedTargets))
    + Optional(p.cluster != "", Equals(ClusterName, p.cluster))
  }

  function NameFragment(part: string): Fragment {
    Fragment(Leaf(SqlParser.Like(ResourceName, 1)), [Text(L.ContainsPattern(part))])
  }

  function LabelsFragment(q: string): Fragment {
    Fragment(Leaf(Holds(Labels, 1)), [Text(q)])
  }

  function SinceFragment(t: int): Fragment {
    Fragment(Leaf(Compare(UpdatedAt, AtLeast, 1)), [Num(t)])
  }

  function FilterFragments(p: ListParams): seq<Fragment> {
    ScopeFragments(p)
    + Optional(p.compositionId != "", Equals(CompositionId, p.compositionId))
    + Optional(p.name != "", Equals(ResourceName, p.name))
    + Optional(p.nameContains != "", NameFragment(p.nameContains))
    + Optional(p.labels != "", LabelsFragment(p.labels))
    + Optional(p.since.Some?, SinceFragment(p.since.GetOr(0)))
  }

  // ----- what the conditions keep -----

  /** The rows that discovery looks at. */
  predicate Discoverable(p: ListParams, r: Row) {
    && r.deletedAt.None?
    && r.group == p.resourceGroup
    && (p.resourceVersion != "" ==> r.version == p.resourceVersion)
    && (p.resourcePlural != "" ==> r.plural == p.resourcePlural)
    && (p.cluster != "" ==> r.cluster == p.cluster)
    && (p.namespace != "" ==> r.namespace == p.namespace)
  }

  /** The filters of the list query, apart from the cursor. */
  ghost predicate Matches(p: ListParams, r: Row) {
    && r.deletedAt.None?
    && r.group == p.resourceGroup
    && (p.resourceVersion != "" ==> r.version == p.resourceVersion)
    && (p.allowedTargets != [] ==> TargetOf(r) in p.allowedTargets)
    && (p.cluster != "" ==> r.cluster == p.cluster)
    && (p.compositionId != "" ==> r.compositionId == Some(Lower(p.compositionId)))
    && (p.name != "" ==> r.name == p.name)
    && (p.nameContains != "" ==> NameContains(r.name, p.nameContains))
    && (p.labels != "" ==> p.labels in r.labelQueries)
    && (p.since.Some? ==> p.since.value <= r.updatedAt)
  }

  /** Substring search up to letter case. */
  ghost predicate NameContains(name: string, part: string) {
    L.Occurs(L.Fold(L.CaseFold(), part), L.Fold(L.CaseFold(), name))
  }

  ghost predicate Holding(f: Fragment, r: Row) {
    Eval(f.tree, f.args, r) == True
  }

  lemma AllTrueExtend(fs: seq<Fragment>, present: bool, f: Fragment, r: Row)
    ensures AllTrue(fs + Optional(present, f), r) <==> AllTrue(fs, r) && (present ==> Holding(f, r))
  {
    AllTrueAppend(fs, Optional(present, f), r);
    if present {
      assert [f][0] == f;
    }
  }

  lemma EqualsHolds(c: Column, v: string, r: Row)
    ensures Holding(Equals(c, v), r) <==> Field(r, c) == Bound(Field(r, c), Text(v))
  {
    CompareOne(Equal, Field(r, c), Text(v));
  }

  lemma CompositionHolds(v: string, r: Row)
    ensures Holding(Equals(CompositionId, v), r) <==> r.compositionId == Some(Lower(v))
  {
    EqualsHolds(CompositionId, v, r);
  }

  lemma SinceHolds(t: int, r: Row)
    ensures Holding(SinceFragment(t), r) <==> t <= r.updatedAt
  {
    var vs, ws := [Num(r.updatedAt)], [Num(t)];
    assert vs[1..] == [] && ws[1..] == [];
    assert CompareRows(AtLeast, vs[1..], ws[1..]) == True;
    assert CompareRows(AtLeast, vs, ws) == Decide(t <= r.updatedAt);
  }

  lemma NameHolds(part: string, r: Row)
    ensures Holding(NameFragment(part), r) <==> NameContains(r.name, part)
  {
    hide L.CaseFold, L.ILikeMatch, L.ContainsPattern;
    L.CaseFoldIsTame();
    L.ILikeIsSubstring(L.CaseFold(), r.name, part);
  }

  lemma TripleEquals(r: Row, t: ResourceTarget)
    ensures CompareRows(Equal, Fields(r, TARGET_COLUMNS), TargetValues(t)) == True <==> TargetOf(r) == t
  {
    var vs, ws := Fields(r, TARGET_COLUMNS), TargetValues(t);
    FieldsOfTarget(r);
    assert vs[1..][1..] == [Text(r.namespace)] && ws[1..][1..] == [Text(t.namespace)];
    assert vs[1..][1..][1..] == [] && ws[1..][1..][1..] == [];
    assert CompareRows(Equal, vs[1..][1..], ws[1..][1..]) == Decide(r.namespace == t.namespace);
    assert CompareRows(Equal, vs[1..], ws[1..]) == Decide(r.plural == t.resource && r.namespace == t.namespace);
  }

  lemma FieldsOfTarget(r: Row)
    ensures Fields(r, TARGET_COLUMNS) == [Text(r.group), Text(r.plural), Text(r.namespace)]
  {
    assert TARGET_COLUMNS[1..][1..] == [Namespace];
    assert TARGET_COLUMNS[1..][1..][1..] == [];
    assert Fields(r, TARGET_COLUMNS[1..][1..]) == [Text(r.namespace)];
    assert Fields(r, TARGET_COLUMNS[1..]) == [Text(r.plural), Text(r.namespace)];
  }

  lemma {:induction false} OneOfTargets(before: seq<Value>, targets: seq<ResourceTarget>, r: Row)
    ensures EvalOneOf(Fields(r, TARGET_COLUMNS), TargetRows(|before| + 1, |targets|),
                      before + TargetArgs(targets)) == True
       <==> TargetOf(r) in targets
    decreases |targets|
  {
    if targets != [] {
      var t, args := targets[0], before + TargetArgs(targets);
      var own := TargetValues(t);
      assert args == (before + own) + TargetArgs(targets[1..]);
      OneOfTargets(before + own, targets[1..], r);
      TripleEquals(r, t);
      RowArgs(before, own, TargetArgs(targets[1..]));
    }
  }

  lemma RowArgs(before: seq<Value>, own: seq<Value>, after: seq<Value>)
    requires |own| == 3
    ensures ArgList(before + own + after, [|before| + 1, |before| + 2, |before| + 3]) == own
  {
    var k, args := |before|, before + own + after;
    var ns := [k + 1, k + 2, k + 3];
    assert ns[1..] == [k + 2, k + 3] && ns[1..][1..] == [k + 3] && ns[1..][1..][1..] == [];
    assert ArgList(args, ns[1..][1..]) == [own[2]];
    assert ArgList(args, ns[1..]) == [own[1], own[2]];
  }

  lemma TargetsHold(targets: seq<ResourceTarget>, r: Row)
    ensures Holding(TargetsFragment(targets), r) <==> TargetOf(r) in targets
  {
    hide Fields, EvalOneOf, TargetRows, TargetArgs;
    assert [] + TargetArgs(targets) == TargetArgs(targets);
    OneOfTargets([], targets, r);
  }

  /** Discovery's conditions all hold exactly of the discoverable rows. */
  lemma DiscoverMeans(p: ListParams, r: Row)
    ensures AllTrue(DiscoverFragments(p), r) <==> Discoverable(p, r)
  {
    hide AllTrue, Eval, Equals;
    var f0 := [ACTIVE] + [Equals(ResourceGroup, p.resourceGroup)];
    var f1 := f0 + Optional(p.resourceVersion != "", Equals(ResourceVersion, p.resourceVersion));
    var f2 := f1 + Optional(p.resourcePlural != "", Equals(ResourcePlural, p.resourcePlural));
    var f3 := f2 + Optional(p.cluster != "", Equals(ClusterName, p.cluster));
    BaseMeans(p, r);
    EqualsHolds(ResourceVersion, p.resourceVersion, r);
    EqualsHolds(ResourcePlural, p.resourcePlural, r);
    EqualsHolds(ClusterName, p.cluster, r);
    EqualsHolds(Namespace, p.namespace, r);
    AllTrueExtend(f0, p.resourceVersion != "", Equals(ResourceVersion, p.resourceVersion), r);
    AllTrueExtend(f1, p.resourcePlural != "", Equals(ResourcePlural, p.resourcePlural), r);
    AllTrueExtend(f2, p.cluster != "", Equals(ClusterName, p.cluster), r);
    AllTrueExtend(f3, p.namespace != "", Equals(Namespace, p.namespace), r);
  }

  lemma BaseMeans(p: ListParams, r: Row)
    ensures AllTrue([ACTIVE] + [Equals(ResourceGroup, p.resourceGroup)], r)
       <==> r.deletedAt.None? && r.group == p.resourceGroup
  {
    var f := Equals(ResourceGroup, p.resourceGroup);
    AllTrueAppend([ACTIVE], [f], r);
    EqualsHolds(ResourceGroup, p.resourceGroup, r);
    assert [ACTIVE][0] == ACTIVE && [f][0] == f;
    assert Holding(ACTIVE, r) <==> r.deletedAt.None?;
  }

  /** The row passes the conditions on what it is. */
  predicate InScope(p: ListParams, r: Row) {
    && r.deletedAt.None?
    && r.group == p.resourceGroup
    && (p.resourceVersion != "" ==> r.version == p.resourceVersion)
    && (p.allowedTargets != [] ==> TargetOf(r) in p.allowedTargets)
    && (p.cluster != "" ==> r.cluster == p.cluster)
  }

  lemma ScopeMeans(p: ListParams, r: Row)
    ensures AllTrue(ScopeFragments(p), r) <==> InScope(p, r)
  {
    hide AllTrue, Eval, Equals, Optional, TargetsFragment;
    var f0 := [ACTIVE] + [Equals(ResourceGroup, p.resourceGroup)];
    var f1 := f0 + Optional(p.resourceVersion != "", Equals(ResourceVersion, p.resourceVersion));
    var f2 := f1 + Optional(p.allowedTargets != [], TargetsFragment(p.allowedTargets));
    BaseMeans(p, r);
    EqualsHolds(ResourceVersion, p.resourceVersion, r);
    TargetsHold(p.allowedTargets, r);
    EqualsHolds(ClusterName, p.cluster, r);
    AllTrueExtend(f0, p.resourceVersion != "", Equals(ResourceVersion, p.resourceVersion), r);
    AllTrueExtend(f1, p.allowedTargets != [], TargetsFragment(p.allowedTargets), r);
    AllTrueExtend(f2, p.cluster != "", Equals(ClusterName, p.cluster), r);
  }

  /** The list query's conditions, apart from the cursor's, all hold exactly of the matching rows. */
  lemma FiltersMean(p: ListParams, r: Row)
    ensures AllTrue(FilterFragments(p), r) <==> Matches(p, r)
  {
    hide AllTrue, Eval, Equals, Optional, ScopeFragments, NameFragment, LabelsFragment, SinceFragment, NameContains;
    var f0 := ScopeFragments(p);
    var f1 := f0 + Optional(p.compositionId != "", Equals(CompositionId, p.compositionId));
    var f2 := f1 + Optional(p.name != "", Equals(ResourceName, p.name));
    var f3 := f2 + Optional(p.nameContains != "", NameFragment(p.nameContains));
    var f4 := f3 + Optional(p.labels != "", LabelsFragment(p.labels));
    ScopeMeans(p, r);
    CompositionHolds(p.compositionId, r);
    EqualsHolds(ResourceName, p.name, r);
    NameHolds(p.nameContains, r);
    LabelsHold(p.labels, r);
    SinceHolds(p.since.GetOr(0), r);
    AllTrueExtend(f0, p.compositionId != "", Equals(CompositionId, p.compositionId), r);
    AllTrueExtend(f1, p.name != "", Equals(ResourceName, p.name), r);
    AllTrueExtend(f2, p.nameContains != "", NameFragment(p.nameContains), r);
    AllTrueExtend(f3, p.labels != "", LabelsFragment(p.labels), r);
    AllTrueExtend(f4, p.since.Some?, SinceFragment(p.since.GetOr(0)), r);
  }

  lemma LabelsHold(q: string, r: Row)
    ensures Holding(LabelsFragment(q), r) <==> q in r.labelQueries
  {
  }

  // ----- every condition is well numbered, and AND-safe -----

  predicate Sound(fs: seq<Fragment>) {
    AllGood(fs) && AllSafe(fs)
  }

  lemma SoundExtend(fs: seq<Fragment>, present: bool, f: Fragment)
    requires Sound(fs) && (present ==> Good(f) && AndSafe(f.tree))
    ensures Sound(fs + Optional(present, f))
  {
  }

  lemma {:induction false} TargetRowsCount(first: nat, n: nat)
    ensures |FlattenParams(TargetRows(first, n))| == 3 * n
    ensures Sequential(FlattenParams(TargetRows(first, n)), first)
    ensures forall i :: 0 <= i < n ==> |TargetRows(first, n)[i]| == 3
    decreases n
  {
    if n > 0 {
      TargetRowsCount(first + 3, n - 1);
    }
  }

  lemma TargetsGood(targets: seq<ResourceTarget>)
    requires targets != []
    ensures Good(TargetsFragment(targets))
  {
    TargetRowsCount(1, |targets|);
  }

  lemma ScopeSound(p: ListParams)
    ensures Sound(ScopeFragments(p)) && ScopeFragments(p) != []
  {
    hide Good, AndSafe;
    var f0 := [ACTIVE] + [Equals(ResourceGroup, p.resourceGroup)];
    var f1 := f0 + Optional(p.resourceVersion != "", Equals(ResourceVersion, p.resourceVersion));
    var f2 := f1 + Optional(p.allowedTargets != [], TargetsFragment(p.allowedTargets));
    SimpleSound();
    SoundExtend([ACTIVE], true, Equals(ResourceGroup, p.resourceGroup));
    SoundExtend(f0, p.resourceVersion != "", Equals(ResourceVersion, p.resourceVersion));
    if p.allowedTargets != [] {
      TargetsSound(p.allowedTargets);
    }
    SoundExtend(f1, p.allowedTargets != [], TargetsFragment(p.allowedTargets));
    SoundExtend(f2, p.cluster != "", Equals(ClusterName, p.cluster));
  }

  lemma FiltersSound(p: ListParams)
    ensures Sound(FilterFragments(p)) && FilterFragments(p) != []
  {
    hide Good, AndSafe, ScopeFragments;
    var f0 := ScopeFragments(p);
    var f1 := f0 + Optional(p.compositionId != "", Equals(CompositionId, p.compositionId));
    var f2 := f1 + Optional(p.name != "", Equals(ResourceName, p.name));
    var f3 := f2 + Optional(p.nameContains != "", NameFragment(p.nameContains));
    var f4 := f3 + Optional(p.labels != "", LabelsFragment(p.labels));
    ScopeSound(p);
    SimpleSound();
    SoundExtend(f0, p.compositionId != "", Equals(CompositionId, p.compositionId));
    SoundExtend(f1, p.name != "", Equals(ResourceName, p.name));
    SoundExtend(f2, p.nameContains != "", NameFragment(p.nameContains));
    SoundExtend(f3, p.labels != "", LabelsFragment(p.labels));
    SoundExtend(f4, p.since.Some?, SinceFragment(p.since.GetOr(0)));
  }

  lemma TargetsSound(targets: seq<ResourceTarget>)
    requires targets != []
    ensures Good(TargetsFragment(targets)) && AndSafe(TargetsFragment(targets).tree)
  {
    TargetsGood(targets);
  }

  lemma SimpleSound()
    ensures Sound([ACTIVE])
    ensures forall c, v {:trigger Equals(c, v)} :: Good(Equals(c, v)) && AndSafe(Equals(c, v).tree)
    ensures forall a, v {:trigger Fragment(Leaf(a), [v])} :: AtomParams(a) == [1] && NormalAtom(a) ==>
      Good(Fragment(Leaf(a), [v])) && AndSafe(Leaf(a))
  {
  }

  lemma DiscoverSound(p: ListParams)
    ensures Sound(DiscoverFragments(p)) && DiscoverFragments(p) != []
  {
    hide Good, AndSafe;
    var f0 := [ACTIVE] + [Equals(ResourceGroup, p.resourceGroup)];
    var f1 := f0 + Optional(p.resourceVersion != "", Equals(ResourceVersion, p.resourceVersion));
    var f2 := f1 + Optional(p.resourcePlural != "", Equals(ResourcePlural, p.resourcePlural));
    var f3 := f2 + Optional(p.cluster != "", Equals(ClusterName, p.cluster));
    SimpleSound();
    SoundExtend([ACTIVE], true, Equals(ResourceGroup, p.resourceGroup));
    SoundExtend(f0, p.resourceVersion != "", Equals(ResourceVersion, p.resourceVersion));
    SoundExtend(f1, p.resourcePlural != "", Equals(ResourcePlural, p.resourcePlural));
    SoundExtend(f2, p.cluster != "", Equals(ClusterName, p.cluster));
    SoundExtend(f3, p.namespace != "", Equals(Namespace, p.namespace));
  }

  // ----- the list query -----

  const LIST_COLUMNS := [
    ResourceName, Uid, GlobalUid, Namespace, ResourceGroup, ResourceVersion, ResourceKind, ResourcePlural,
    ClusterName, CreatedAt, UpdatedAt, CompositionId, Id]

  /** The columns selected: the JSON columns only on request. */
  function ListColumns(p: ListParams): (cs: seq<Column>)
    ensures LIST_COLUMNS <= cs && cs != []
  {
    LIST_COLUMNS + (if p.raw then [Raw] else []) + (if p.statusRaw then [StatusRaw] else [])
  }

  function SortByOf(p: ListParams): SortBy {
    NormaliseSortBy(p.sortBy)
  }

  function OrderOf(p: ListParams): SortOrder {
    NormaliseSortOrder(p.sortOrder, SortByOf(p))
  }

  function KeysOf(p: ListParams): (keys: seq<SortKey>)
    ensures EndsWithId(keys)
  {
    SortKeys(SortByOf(p), OrderOf(p))
  }

  /** The decoded cursor, once its sort has been compared with the request's. */
  function AcceptedCursor(p: ListParams): Result<Option<ResourcesCursor>, CursorError> {
    match DecodeCursor(p.cursor)
    case Err(e) => Err(e)
    case Ok(c) =>
      var mismatch := ValidateCursorSort(c, SortByOf(p), OrderOf(p));
      if mismatch.Some? then Err(mismatch.value) else Ok(c)
  }

  /** An accepted cursor, if any, has the fields that its condition follows. */
  predicate Usable(p: ListParams, c: Option<ResourcesCursor>) {
    c.Some? ==> Complete(SortByOf(p), c.value)
  }

  /** Why there is no list: a bad cursor, a failing query, or a panic on a cursor field that is not there. */
  datatype ListError = CursorFailed(error: CursorError) | QueryFailed | NilDereference

  /** The cursor that a list query is built with. */
  function ReadyCursor(p: ListParams): (r: Result<Option<ResourcesCursor>, ListError>)
    ensures r.Ok? ==> Usable(p, r.value)
  {
    match AcceptedCursor(p)
    case Err(e) => Err(CursorFailed(e))
    case Ok(c) => if Usable(p, c) then Ok(c) else Err(NilDereference)
  }

  /** What becomes of the token: no cursor, an error that names both sorts, or the decoded cursor. */
  lemma AcceptedExactly(p: ListParams)
    ensures var column := if p.sortBy.Unset? then ByResource else p.sortBy;
      var order :=
        if !p.sortOrder.NoOrder? then p.sortOrder
        else if p.sortBy.ByCreatedAt? || p.sortBy.ByUpdatedAt? then Descending
        else Ascending;
      var decoded := DecodeCursor(p.cursor);
      AcceptedCursor(p) ==
        if decoded.Err? || decoded.value.None? then decoded
        else
          var c := decoded.value.value;
          if c.sortBy != column then Err(SortByMismatch(c.sortBy, column))
          else if c.sortOrder != order then Err(SortOrderMismatch(c.sortOrder, order))
          else decoded
  {
    hide DecodeCursor;
  }

  function ListFragments(p: ListParams, c: Option<ResourcesCursor>): seq<Fragment>
    requires Usable(p, c)
  {
    if c.None? then FilterFragments(p)
    else FilterFragments(p) + [CursorCondition(SortByOf(p), OrderOf(p), c.value)]
  }

  /** One row more than asked for tells whether there is a next page. */
  function LimitValue(p: ListParams): Option<int> {
    if p.limit > 0 then Some(p.limit + 1) else None
  }

  function LimitArgs(limit: Option<int>): seq<Value> {
    if limit.Some? then [Num(limit.value)] else []
  }

  function ListText(p: ListParams, c: Option<ResourcesCursor>): string
    requires Usable(p, c)
  {
    RenderText(Show(HeadTokens(false, ListColumns(p))), Texts(ListFragments(p, c)),
               SortOrderSQL(SortByOf(p), OrderOf(p)), p.limit > 0)
  }

  function ListArgs(p: ListParams, c: Option<ResourcesCursor>): seq<Value>
    requires Usable(p, c)
  {
    AllArgs(ListFragments(p, c)) + LimitArgs(LimitValue(p))
  }

  lemma ListFragmentsGood(p: ListParams, c: Option<ResourcesCursor>)
    requires Usable(p, c)
    ensures AllGood(ListFragments(p, c)) && ListFragments(p, c) != []
  {
    FiltersSound(p);
    if c.Some? {
      CursorConditionGood(SortByOf(p), OrderOf(p), c.value);
    }
  }

  /** The query that the list text is read as. */
  function ListQueryOf(p: ListParams, c: Option<ResourcesCursor>): Query
    requires Usable(p, c) && ListFragments(p, c) != []
  {
    var fs := ListFragments(p, c);
    Query(false, ListColumns(p), Reading(fs, 0), KeysOf(p), LimitIndex(fs, p.limit > 0))
  }

  /** The characters of the list query, read back: its conditions joined in order, its sort keys, its limit. */
  lemma ListTextReads(p: ListParams, c: Option<ResourcesCursor>)
    requires Usable(p, c)
    ensures ListFragments(p, c) != [] && ReadQuery(ListText(p, c)) == Some(ListQueryOf(p, c))
  {
    hide Reading, Show, RenderText, Texts, AllGood, OrderTokens, SortOrderSQL, QueryTokens, ReadQuery, SqlLexer.Lex;
    ListFragmentsGood(p, c);
    SortOrderSQLShows(SortByOf(p), OrderOf(p));
    RenderedTokens(false, ListColumns(p), ListFragments(p, c), KeysOf(p),
                   SortOrderSQL(SortByOf(p), OrderOf(p)), p.limit > 0);
  }

  /** Placeholders are numbered 1, 2, … as the text runs, one for each argument, the limit's last. */
  lemma PlaceholdersMatchArgs(p: ListParams, c: Option<ResourcesCursor>)
    requires Usable(p, c)
    ensures var ns := Indexes(SqlLexer.Lex(ListText(p, c)));
      Sequential(ns, 1) && |ns| == |ListArgs(p, c)|
  {
    hide Show, RenderText, Texts, AllGood, OrderTokens, SortOrderSQL, ListFragments, Indexes, SqlLexer.Lex, AllArgs;
    ListFragmentsGood(p, c);
    SortOrderSQLShows(SortByOf(p), OrderOf(p));
    RenderedPlaceholders(false, ListColumns(p), ListFragments(p, c), KeysOf(p),
                         SortOrderSQL(SortByOf(p), OrderOf(p)), p.limit > 0);
  }

  // ----- which rows the text keeps -----

  /** The rendered WHERE clause is true of the row. */
  ghost predicate Kept(p: ListParams, c: Option<ResourcesCursor>, r: Row)
    requires Usable(p, c) && ListFragments(p, c) != []
  {
    Eval(ListQueryOf(p, c).where, ListArgs(p, c), r) == True
  }

  /** Every condition handed to the builder is true of the row by itself. */
  ghost predicate Intended(p: ListParams, c: Option<ResourcesCursor>, r: Row)
    requires Usable(p, c)
  {
    AllTrue(ListFragments(p, c), r)
  }

  lemma IntendedMeans(p: ListParams, c: Option<ResourcesCursor>, r: Row)
    requires Usable(p, c)
    ensures Intended(p, c, r) <==>
      Matches(p, r) && (c.Some? ==> Holding(CursorCondition(SortByOf(p), OrderOf(p), c.value), r))
  {
    FiltersMean(p, r);
    if c.Some? {
      var f := CursorCondition(SortByOf(p), OrderOf(p), c.value);
      AllTrueExtend(FilterFragments(p), true, f, r);
    }
  }

  predicate EscapesConjunction(p: ListParams, c: Option<ResourcesCursor>) {
    c.Some? && BareOr(SortByOf(p), OrderOf(p), c.value)
  }

  lemma KeptIsIntended(p: ListParams, c: Option<ResourcesCursor>, r: Row)
    requires Usable(p, c) && ListFragments(p, c) != [] && !EscapesConjunction(p, c)
    ensures Kept(p, c, r) <==> Intended(p, c, r)
  {
    hide Eval, AllTrue, CursorCondition, Good, AndSafe, FilterFragments;
    var fs, after := ListFragments(p, c), LimitArgs(LimitValue(p));
    FiltersSound(p);
    if c.Some? {
      CursorConditionGood(SortByOf(p), OrderOf(p), c.value);
    }
    SafeReading(fs, [], after, r);
    assert [] + AllArgs(fs) + after == ListArgs(p, c);
  }

  /** With the bare OR, every row that has a composition_id is kept, whatever the filters say. */
  lemma KeptByBareOr(p: ListParams, c: ResourcesCursor, r: Row)
    requires BareOr(SortByOf(p), OrderOf(p), c) && ListFragments(p, Some(c)) != []
    ensures Kept(p, Some(c), r) <==>
      (Matches(p, r) && r.compositionId.None? && r.id < c.id) || r.compositionId.Some?
  {
    hide Eval, CursorCondition, Good, AndSafe, Matches, FilterFragments;
    var fs, after := ListFragments(p, Some(c)), LimitArgs(LimitValue(p));
    FiltersSound(p);
    FiltersMean(p, r);
    CursorConditionGood(SortByOf(p), OrderOf(p), c);
    assert fs[..|fs| - 1] == FilterFragments(p);
    BareOrHalvesMean(SortByOf(p), OrderOf(p), c, r);
    BareOrReading(fs, [], after, r);
    assert [] + AllArgs(fs) + after == ListArgs(p, Some(c));
    EvalOr(ListQueryOf(p, Some(c)).where, ListArgs(p, Some(c)), r);
  }

  lemma EvalOr(s: Syntax, args: seq<Value>, r: Row)
    requires s.Or?
    ensures Eval(s, args, r) == True <==> Eval(s.left, args, r) == True || Eval(s.right, args, r) == True
  {
  }

  /** A UUID whose digits are all d. */
  function UuidOf(d: char): (s: string)
    requires '0' <= d <= '9' || 'a' <= d <= 'f'
    ensures UuidShaped(s) && s[0] == d
  {
    seq(36, i requires 0 <= i => if i in UUID_DASHES then '-' else d)
  }

  /** A deleted row that the bare OR lets through. */
  const LEAKED := Row(1, 0, 0, Some(0), "", "", "", "", "", "", "", "", "", Some(UuidOf('0')), "{}", None, {})

  /** The text keeps exactly the intended rows, for every row that the schema allows, if and only if the cursor's
      condition has no bare OR. */
  lemma TextIsConjunctionExactly(p: ListParams, c: Option<ResourcesCursor>)
    requires Usable(p, c) && ListFragments(p, c) != []
    ensures (forall r | StoredRow(r) :: Kept(p, c, r) <==> Intended(p, c, r)) <==> !EscapesConjunction(p, c)
  {
    if EscapesConjunction(p, c) {
      KeptByBareOr(p, c.value, LEAKED);
      IntendedMeans(p, c, LEAKED);
      assert StoredRow(LEAKED) && Kept(p, c, LEAKED) && !Intended(p, c, LEAKED);
    } else {
      forall r | StoredRow(r)
        ensures Kept(p, c, r) <==> Intended(p, c, r)
      {
        KeptIsIntended(p, c, r);
      }
    }
  }
}
