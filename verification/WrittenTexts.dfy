/** The texts of the two queries, written out with the names and words that the service writes, and that these are the
    texts that the theorems read back. */
module WrittenTexts {
  import opened Common
  import opened SqlTokens
  import opened SqlParser
  import opened Database
  import opened QueryBuilder
  import opened Fragments
  import opened Sorting
  import opened Cursor
  import opened QueryTexts
  import opened ListQuery
  import L = Like

  // ----- the texts of the conditions -----

  lemma LeafText(a: Atom, args: seq<Value>)
    ensures FragmentText(Fragment(Leaf(a), args)) == AtomText(a)
  {
  }

  lemma ActiveText()
    ensures FragmentText(ACTIVE) == "deleted_at IS NULL"
  {
    hide AtomText, FragmentText;
    LeafText(IsNull(DeletedAt), []);
    IsNullText(DeletedAt);
    assert "deleted_at" + " IS NULL" == "deleted_at IS NULL";
  }

  lemma EqualsText(c: Column, v: string)
    ensures FragmentText(Equals(c, v)) == ColumnText(c) + " = ?"
  {
    hide AtomText, FragmentText, ColumnText;
    LeafText(Compare(c, Equal, 1), [Text(v)]);
    CompareText(c, Equal, 1);
    EqualsGroups(ColumnText(c));
  }

  lemma EqualsGroups(c: string)
    ensures c + " " + "=" + " ?" == c + " = ?"
  {
    assert " " + "=" + " ?" == " = ?";
    assert c + " " + "=" + " ?" == c + (" " + "=" + " ?");
  }

  lemma EqualsLiterals()
    ensures "resource_group = ?" == ColumnText(ResourceGroup) + " = ?"
    ensures "resource_version = ?" == ColumnText(ResourceVersion) + " = ?"
    ensures "resource_plural = ?" == ColumnText(ResourcePlural) + " = ?"
    ensures "cluster_name = ?" == ColumnText(ClusterName) + " = ?"
    ensures "namespace = ?" == ColumnText(Namespace) + " = ?"
    ensures "composition_id = ?" == ColumnText(CompositionId) + " = ?"
    ensures "resource_name = ?" == ColumnText(ResourceName) + " = ?"
  {
  }

  lemma SinceText(t: int)
    ensures FragmentText(SinceFragment(t)) == "updated_at >= ?"
  {
    hide AtomText, FragmentText;
    LeafText(Compare(UpdatedAt, AtLeast, 1), [Num(t)]);
    CompareText(UpdatedAt, AtLeast, 1);
    assert "updated_at" + " " + ">=" + " ?" == "updated_at >= ?";
  }

  lemma NameText(part: string)
    ensures FragmentText(NameFragment(part)) == "resource_name ILIKE ?"
  {
    ThreeTokenText(NameFragment(part), Col(ResourceName), Word(ILike), Param(1, false));
    assert "?" + "" == "?" && "resource_name" + " " + ("ILIKE" + " " + "?") == "resource_name ILIKE ?";
  }

  lemma LabelsText(q: string)
    ensures FragmentText(LabelsFragment(q)) == "raw->'metadata'->'labels' @> ?" + "::jsonb"
  {
    hide FragmentText;
    ThreeTokenText(LabelsFragment(q), Col(Labels), Word(Contains), Param(1, true));
    LabelsLiteral();
    LabelGroups("raw->'metadata'->'labels'", "@>", "?", "::jsonb");
  }

  lemma LabelsLiteral()
    ensures "raw->'metadata'->'labels'" + (" " + "@>" + " " + "?") == "raw->'metadata'->'labels' @> ?"
  {
    assert " " + "@>" + " " + "?" == " @> ?";
  }

  lemma LabelGroups(path: string, op: string, hole: string, cast: string)
    ensures path + " " + (op + " " + (hole + cast)) == path + (" " + op + " " + hole) + cast
  {
  }

  // ----- the IN list -----

  const TARGETS_HEAD := "(resource_group" + ", resource_plural" + ", namespace) IN ("
  const TRIPLE := "(?, ?, ?)"

  lemma TripleText()
    ensures TupleText(3) == TRIPLE
  {
    assert Repeat(1, "?") == ["?"] && Repeat(2, "?") == ["?", "?"] && Repeat(3, "?") == ["?", "?", "?"];
    JoinThree("?", "?", "?", ", ");
  }

  lemma JoinThree(a: string, b: string, c: string, sep: string)
    ensures JoinTexts([a, b, c], sep) == a + sep + (b + sep + c)
  {
    assert [a, b, c][1..] == [b, c] && [b, c][1..] == [c];
    assert JoinTexts([b, c], sep) == b + sep + c;
  }

  lemma TargetsHeadText()
    ensures "(" + JoinTexts(ColumnTexts(TARGET_COLUMNS), ", ") + ") IN (" == TARGETS_HEAD
  {
    hide ColumnText;
    var g, r, n := ColumnText(ResourceGroup), ColumnText(ResourcePlural), ColumnText(Namespace);
    assert TARGET_COLUMNS[1..] == [ResourcePlural, Namespace] && TARGET_COLUMNS[1..][1..] == [Namespace];
    assert ColumnTexts([Namespace]) == [n] && ColumnTexts([ResourcePlural, Namespace]) == [r, n];
    assert ColumnTexts(TARGET_COLUMNS) == [g, r, n];
    JoinThree(g, r, n, ", ");
    HeadGroups(g, r, n);
    HeadLiterals();
  }

  lemma HeadGroups(g: string, r: string, n: string)
    ensures "(" + (g + ", " + (r + ", " + n)) + ") IN (" == ("(" + g) + (", " + r) + (", " + n + ") IN (")
  {
  }

  lemma HeadLiterals()
    ensures "(" + ColumnText(ResourceGroup) == "(resource_group"
    ensures ", " + ColumnText(ResourcePlural) == ", resource_plural"
    ensures ", " + ColumnText(Namespace) + ") IN (" == ", namespace) IN ("
  {
  }

  lemma TargetsText(targets: seq<ResourceTarget>)
    requires targets != []
    ensures FragmentText(TargetsFragment(targets))
         == TARGETS_HEAD + JoinTexts(Repeat(|targets|, TRIPLE), ", ") + ")"
  {
    hide AtomText, FragmentText, TupleText, JoinTexts, ColumnTexts, Repeat, TargetArgs;
    var rows := TargetRows(1, |targets|);
    TargetRowsCount(1, |targets|);
    LeafText(OneOf(TARGET_COLUMNS, rows), TargetArgs(targets));
    OneOfText(TARGET_COLUMNS, rows, 3);
    TripleText();
    TargetsHeadText();
  }

  // ----- the conditions of both queries -----

  lemma {:induction false} TextsAppend(fs: seq<Fragment>, gs: seq<Fragment>)
    ensures Texts(fs + gs) == Texts(fs) + Texts(gs)
    ensures AllArgs(fs + gs) == AllArgs(fs) + AllArgs(gs)
  {
    if fs == [] {
      assert fs + gs == gs;
    } else {
      assert (fs + gs)[1..] == fs[1..] + gs;
      TextsAppend(fs[1..], gs);
    }
  }

  /** The conditions of the discovery query. */
  function DiscoverConditions(p: ListParams): seq<string> {
    ["deleted_at IS NULL"] + ["resource_group = ?"]
    + Optional(p.resourceVersion != "", "resource_version = ?")
    + Optional(p.resourcePlural != "", "resource_plural = ?")
    + Optional(p.cluster != "", "cluster_name = ?")
    + Optional(p.namespace != "", "namespace = ?")
  }

  function DiscoverValues(p: ListParams): seq<Value> {
    [Text(p.resourceGroup)]
    + Optional(p.resourceVersion != "", Text(p.resourceVersion))
    + Optional(p.resourcePlural != "", Text(p.resourcePlural))
    + Optional(p.cluster != "", Text(p.cluster))
    + Optional(p.namespace != "", Text(p.namespace))
  }

  /** The conditions of the list query, apart from the cursor's. */
  function FilterConditions(p: ListParams): seq<string> {
    ["deleted_at IS NULL"] + ["resource_group = ?"]
    + Optional(p.resourceVersion != "", "resource_version = ?")
    + Optional(p.allowedTargets != [], "(resource_group" + ", resource_plural" + ", namespace) IN ("
                                       + JoinTexts(Repeat(|p.allowedTargets|, "(?, ?, ?)"), ", ") + ")")
    + Optional(p.cluster != "", "cluster_name = ?")
    + Optional(p.compositionId != "", "composition_id = ?")
    + Optional(p.name != "", "resource_name = ?")
    + Optional(p.nameContains != "", "resource_name ILIKE ?")
    + Optional(p.labels != "", "raw->'metadata'->'labels' @> ?" + "::jsonb")
    + Optional(p.since.Some?, "updated_at >= ?")
  }

  function FilterValues(p: ListParams): seq<Value> {
    [Text(p.resourceGroup)]
    + Optional(p.resourceVersion != "", Text(p.resourceVersion))
    + TargetArgs(p.allowedTargets)
    + Optional(p.cluster != "", Text(p.cluster))
    + Optional(p.compositionId != "", Text(p.compositionId))
    + Optional(p.name != "", Text(p.name))
    + Optional(p.nameContains != "", Text("%" + L.EscapeLike(p.nameContains) + "%"))
    + Optional(p.labels != "", Text(p.labels))
    + Optional(p.since.Some?, Num(p.since.GetOr(0)))
  }

  /** The fragments have these texts and these arguments. */
  predicate Written(fs: seq<Fragment>, conds: seq<string>, values: seq<Value>) {
    Texts(fs) == conds && AllArgs(fs) == values
  }

  lemma WriteNext(fs: seq<Fragment>, conds: seq<string>, values: seq<Value>, present: bool, f: Fragment,
                  cond: string, own: seq<Value>)
    requires Written(fs, conds, values)
    requires (present ==> FragmentText(f) == cond) && own == if present then f.args else []
    ensures Written(fs + Optional(present, f), conds + Optional(present, cond), values + own)
  {
    hide FragmentText;
    TextsAppend(fs, Optional(present, f));
    assert present ==> Texts([f]) == [FragmentText(f)] && AllArgs([f]) == f.args;
  }

  lemma WriteEquals(fs: seq<Fragment>, conds: seq<string>, values: seq<Value>, c: Column, cond: string, v: string)
    requires Written(fs, conds, values) && cond == ColumnText(c) + " = ?"
    ensures Written(fs + Optional(v != "", Equals(c, v)), conds + Optional(v != "", cond),
                    values + Optional(v != "", Text(v)))
  {
    hide Written, FragmentText, ColumnText;
    EqualsText(c, v);
    WriteNext(fs, conds, values, v != "", Equals(c, v), cond, Optional(v != "", Text(v)));
  }

  lemma WriteActive(p: ListParams)
    ensures Written([ACTIVE] + [Equals(ResourceGroup, p.resourceGroup)],
                    ["deleted_at IS NULL"] + ["resource_group = ?"], [Text(p.resourceGroup)])
  {
    hide FragmentText, ColumnText;
    EqualsLiterals();
    ActiveText();
    EqualsText(ResourceGroup, p.resourceGroup);
    assert Texts([ACTIVE]) == ["deleted_at IS NULL"] && AllArgs([ACTIVE]) == [];
    WriteNext([ACTIVE], ["deleted_at IS NULL"], [], true, Equals(ResourceGroup, p.resourceGroup), "resource_group = ?",
              [Text(p.resourceGroup)]);
  }

  /** The discovery query's conditions and arguments are these. */
  lemma DiscoverWritten(p: ListParams)
    ensures Texts(DiscoverFragments(p)) == DiscoverConditions(p) && AllArgs(DiscoverFragments(p)) == DiscoverValues(p)
  {
    hide Texts, AllArgs, Equals, ColumnText, Optional;
    EqualsLiterals();
    WriteActive(p);
    var f0, t0, v0 :=
      [ACTIVE] + [Equals(ResourceGroup, p.resourceGroup)], ["deleted_at IS NULL"] + ["resource_group = ?"],
      [Text(p.resourceGroup)];
    var f1, t1, v1 :=
      f0 + Optional(p.resourceVersion != "", Equals(ResourceVersion, p.resourceVersion)),
      t0 + Optional(p.resourceVersion != "", "resource_version = ?"),
      v0 + Optional(p.resourceVersion != "", Text(p.resourceVersion));
    var f2, t2, v2 :=
      f1 + Optional(p.resourcePlural != "", Equals(ResourcePlural, p.resourcePlural)),
      t1 + Optional(p.resourcePlural != "", "resource_plural = ?"),
      v1 + Optional(p.resourcePlural != "", Text(p.resourcePlural));
    var f3, t3, v3 :=
      f2 + Optional(p.cluster != "", Equals(ClusterName, p.cluster)),
      t2 + Optional(p.cluster != "", "cluster_name = ?"), v2 + Optional(p.cluster != "", Text(p.cluster));
    WriteEquals(f0, t0, v0, ResourceVersion, "resource_version = ?", p.resourceVersion);
    WriteEquals(f1, t1, v1, ResourcePlural, "resource_plural = ?", p.resourcePlural);
    WriteEquals(f2, t2, v2, ClusterName, "cluster_name = ?", p.cluster);
    WriteEquals(f3, t3, v3, Namespace, "namespace = ?", p.namespace);
  }

  lemma WriteTargets(fs: seq<Fragment>, conds: seq<string>, values: seq<Value>, targets: seq<ResourceTarget>)
    requires Written(fs, conds, values)
    ensures Written(fs + Optional(targets != [], TargetsFragment(targets)),
                    conds + Optional(targets != [], "(resource_group" + ", resource_plural" + ", namespace) IN ("
                                                    + JoinTexts(Repeat(|targets|, "(?, ?, ?)"), ", ") + ")"),
                    values + TargetArgs(targets))
  {
    hide Written, FragmentText;
    if targets != [] {
      TargetsText(targets);
    }
    WriteNext(fs, conds, values, targets != [], TargetsFragment(targets),
              TARGETS_HEAD + JoinTexts(Repeat(|targets|, TRIPLE), ", ") + ")", TargetArgs(targets));
  }

  lemma ScopeWritten(p: ListParams)
    ensures Written(ScopeFragments(p),
      ["deleted_at IS NULL"] + ["resource_group = ?"]
      + Optional(p.resourceVersion != "", "resource_version = ?")
      + Optional(p.allowedTargets != [], "(resource_group" + ", resource_plural" + ", namespace) IN ("
                                         + JoinTexts(Repeat(|p.allowedTargets|, "(?, ?, ?)"), ", ") + ")")
      + Optional(p.cluster != "", "cluster_name = ?"),
      [Text(p.resourceGroup)] + Optional(p.resourceVersion != "", Text(p.resourceVersion))
      + TargetArgs(p.allowedTargets) + Optional(p.cluster != "", Text(p.cluster)))
  {
    hide Written, Equals, ColumnText, Optional, TargetArgs, TargetsFragment, JoinTexts, Repeat;
    EqualsLiterals();
    WriteActive(p);
    var ts := p.allowedTargets;
    var f0, t0, v0 :=
      [ACTIVE] + [Equals(ResourceGroup, p.resourceGroup)], ["deleted_at IS NULL"] + ["resource_group = ?"],
      [Text(p.resourceGroup)];
    var f1, t1, v1 :=
      f0 + Optional(p.resourceVersion != "", Equals(ResourceVersion, p.resourceVersion)),
      t0 + Optional(p.resourceVersion != "", "resource_version = ?"),
      v0 + Optional(p.resourceVersion != "", Text(p.resourceVersion));
    var f2, t2, v2 :=
      f1 + Optional(ts != [], TargetsFragment(ts)),
      t1 + Optional(ts != [], "(resource_group" + ", resource_plural" + ", namespace) IN ("
                              + JoinTexts(Repeat(|ts|, "(?, ?, ?)"), ", ") + ")"),
      v1 + TargetArgs(ts);
    WriteEquals(f0, t0, v0, ResourceVersion, "resource_version = ?", p.resourceVersion);
    WriteTargets(f1, t1, v1, ts);
    WriteEquals(f2, t2, v2, ClusterName, "cluster_name = ?", p.cluster);
  }

  /** The list query's conditions and arguments, apart from the cursor's, are these. */
  lemma FiltersWritten(p: ListParams)
    ensures Texts(FilterFragments(p)) == FilterConditions(p) && AllArgs(FilterFragments(p)) == FilterValues(p)
  {
    hide Texts, AllArgs, Equals, ColumnText, Optional, TargetArgs, ScopeFragments, JoinTexts, Repeat, NameFragment,
         LabelsFragment, SinceFragment, FragmentText, L.EscapeLike;
    EqualsLiterals();
    ScopeWritten(p);
    var f0 := ScopeFragments(p);
    var t0 := ["deleted_at IS NULL"] + ["resource_group = ?"]
      + Optional(p.resourceVersion != "", "resource_version = ?")
      + Optional(p.allowedTargets != [], "(resource_group" + ", resource_plural" + ", namespace) IN ("
                                         + JoinTexts(Repeat(|p.allowedTargets|, "(?, ?, ?)"), ", ") + ")")
      + Optional(p.cluster != "", "cluster_name = ?");
    var v0 := [Text(p.resourceGroup)] + Optional(p.resourceVersion != "", Text(p.resourceVersion))
      + TargetArgs(p.allowedTargets) + Optional(p.cluster != "", Text(p.cluster));
    var f1, t1, v1 :=
      f0 + Optional(p.compositionId != "", Equals(CompositionId, p.compositionId)),
      t0 + Optional(p.compositionId != "", "composition_id = ?"),
      v0 + Optional(p.compositionId != "", Text(p.compositionId));
    var f2, t2, v2 :=
      f1 + Optional(p.name != "", Equals(ResourceName, p.name)), t1 + Optional(p.name != "", "resource_name = ?"),
      v1 + Optional(p.name != "", Text(p.name));
    WriteEquals(f0, t0, v0, CompositionId, "composition_id = ?", p.compositionId);
    WriteEquals(f1, t1, v1, ResourceName, "resource_name = ?", p.name);
    WriteDetails(p, f2, t2, v2);
  }

  lemma WriteDetails(p: ListParams, fs: seq<Fragment>, conds: seq<string>, values: seq<Value>)
    requires Written(fs, conds, values)
    ensures Written(
      fs + Optional(p.nameContains != "", NameFragment(p.nameContains))
      + Optional(p.labels != "", LabelsFragment(p.labels))
      + Optional(p.since.Some?, SinceFragment(p.since.GetOr(0))),
      conds + Optional(p.nameContains != "", "resource_name ILIKE ?")
      + Optional(p.labels != "", "raw->'metadata'->'labels' @> ?" + "::jsonb")
      + Optional(p.since.Some?, "updated_at >= ?"),
      values + Optional(p.nameContains != "", Text("%" + L.EscapeLike(p.nameContains) + "%"))
      + Optional(p.labels != "", Text(p.labels)) + Optional(p.since.Some?, Num(p.since.GetOr(0))))
  {
    hide Written, FragmentText, L.EscapeLike;
    NameText(p.nameContains);
    LabelsText(p.labels);
    SinceText(p.since.GetOr(0));
    var pattern := Text("%" + L.EscapeLike(p.nameContains) + "%");
    var f1, t1, v1 :=
      fs + Optional(p.nameContains != "", NameFragment(p.nameContains)),
      conds + Optional(p.nameContains != "", "resource_name ILIKE ?"), values + Optional(p.nameContains != "", pattern);
    var f2, t2, v2 :=
      f1 + Optional(p.labels != "", LabelsFragment(p.labels)),
      t1 + Optional(p.labels != "", "raw->'metadata'->'labels' @> ?" + "::jsonb"),
      v1 + Optional(p.labels != "", Text(p.labels));
    WriteNext(fs, conds, values, p.nameContains != "", NameFragment(p.nameContains), "resource_name ILIKE ?",
              Optional(p.nameContains != "", pattern));
    WriteNext(f1, t1, v1, p.labels != "", LabelsFragment(p.labels), "raw->'metadata'->'labels' @> ?" + "::jsonb",
              Optional(p.labels != "", Text(p.labels)));
    WriteNext(f2, t2, v2, p.since.Some?, SinceFragment(p.since.GetOr(0)), "updated_at >= ?",
              Optional(p.since.Some?, Num(p.since.GetOr(0))));
  }

  // ----- the SELECT clauses -----

  lemma {:induction false} ColumnTextsAppend(cs: seq<Column>, ds: seq<Column>)
    ensures ColumnTexts(cs + ds) == ColumnTexts(cs) + ColumnTexts(ds)
  {
    hide ColumnText;
    if cs == [] {
      assert cs + ds == ds;
    } else {
      assert (cs + ds)[1..] == cs[1..] + ds;
      ColumnTextsAppend(cs[1..], ds);
    }
  }

  lemma MoreColumns(cs: seq<Column>, ds: seq<Column>)
    requires cs != [] && ds != []
    ensures JoinTexts(ColumnTexts(cs + ds), ", ")
         == JoinTexts(ColumnTexts(cs), ", ") + (", " + JoinTexts(ColumnTexts(ds), ", "))
  {
    hide JoinTexts, ColumnTexts;
    ColumnTextsAppend(cs, ds);
    JoinAppend(ColumnTexts(cs), ColumnTexts(ds), ", ");
  }

  lemma TwoColumns(c: Column, d: Column)
    ensures JoinTexts(ColumnTexts([c, d]), ", ") == ColumnText(c) + ", " + ColumnText(d)
    ensures JoinTexts(ColumnTexts([c]), ", ") == ColumnText(c)
  {
    hide ColumnText;
    assert [c, d][1..] == [d] && [d][1..] == [];
    assert ColumnTexts([c, d]) == [ColumnText(c), ColumnText(d)];
    JoinTwo(ColumnText(c), ColumnText(d), ", ");
  }

  lemma NamePairs()
    ensures ", " + (ColumnText(Namespace) + ", " + ColumnText(ResourceGroup)) == ", namespace, resource_group"
  {
  }

  lemma KindPairs()
    ensures ", " + (ColumnText(ResourceVersion) + ", " + ColumnText(ResourceKind))
         == ", resource_version, resource_kind"
  {
  }

  lemma PluralPairs()
    ensures ", " + (ColumnText(ResourcePlural) + ", " + ColumnText(ClusterName)) == ", resource_plural, cluster_name"
  {
  }

  lemma UidTriple()
    ensures ColumnText(ResourceName) + ", " + ColumnText(Uid) + (", " + ColumnText(GlobalUid))
         == "resource_name, uid, global_uid"
  {
  }

  lemma LastPairs()
    ensures ", " + (ColumnText(CreatedAt) + ", " + ColumnText(UpdatedAt)) == ", created_at, updated_at"
    ensures ", " + (ColumnText(CompositionId) + ", " + ColumnText(Id)) == ", composition_id, id"
  {
  }

  lemma JsonNames()
    ensures ", " + ColumnText(Raw) == ", raw" && ", " + ColumnText(StatusRaw) == ", status_raw"
  {
  }

  lemma ListedColumns()
    ensures JoinTexts(ColumnTexts(LIST_COLUMNS), ", ")
         == "resource_name, uid, global_uid" + ", namespace, resource_group" + ", resource_version, resource_kind"
          + ", resource_plural, cluster_name" + ", created_at, updated_at" + ", composition_id, id"
  {
    hide JoinTexts, ColumnTexts, ColumnText;
    var c0 := [ResourceName, Uid];
    var c1 := c0 + [GlobalUid];
    var c2 := c1 + [Namespace, ResourceGroup];
    var c3 := c2 + [ResourceVersion, ResourceKind];
    var c4 := c3 + [ResourcePlural, ClusterName];
    var c5 := c4 + [CreatedAt, UpdatedAt];
    assert LIST_COLUMNS == c5 + [CompositionId, Id];
    TwoColumns(ResourceName, Uid);
    TwoColumns(GlobalUid, GlobalUid);
    TwoColumns(Namespace, ResourceGroup);
    TwoColumns(ResourceVersion, ResourceKind);
    TwoColumns(ResourcePlural, ClusterName);
    TwoColumns(CreatedAt, UpdatedAt);
    TwoColumns(CompositionId, Id);
    MoreColumns(c0, [GlobalUid]);
    MoreColumns(c1, [Namespace, ResourceGroup]);
    MoreColumns(c2, [ResourceVersion, ResourceKind]);
    MoreColumns(c3, [ResourcePlural, ClusterName]);
    MoreColumns(c4, [CreatedAt, UpdatedAt]);
    MoreColumns(c5, [CompositionId, Id]);
    NamePairs();
    KindPairs();
    PluralPairs();
    UidTriple();
    LastPairs();
  }

  /** The columns of the list query, the JSON columns on request. */
  function WrittenColumns(p: ListParams): string {
    "resource_name, uid, global_uid" + ", namespace, resource_group" + ", resource_version, resource_kind"
    + ", resource_plural, cluster_name" + ", created_at, updated_at" + ", composition_id, id"
    + (if p.raw then ", raw" else "") + (if p.statusRaw then ", status_raw" else "")
  }

  lemma WrittenColumnsShow(p: ListParams)
    ensures JoinTexts(ColumnTexts(ListColumns(p)), ", ") == WrittenColumns(p)
  {
    hide JoinTexts, ColumnTexts, ColumnText;
    ListedColumns();
    JsonNames();
    TwoColumns(Raw, Raw);
    TwoColumns(StatusRaw, StatusRaw);
    var cs := LIST_COLUMNS + if p.raw then [Raw] else [];
    if p.raw {
      MoreColumns(LIST_COLUMNS, [Raw]);
    } else {
      assert cs == LIST_COLUMNS;
      AddNothing(JoinTexts(ColumnTexts(LIST_COLUMNS), ", "));
    }
    if p.statusRaw {
      MoreColumns(cs, [StatusRaw]);
    } else {
      assert ListColumns(p) == cs;
      AddNothing(JoinTexts(ColumnTexts(cs), ", "));
    }
  }

  lemma AddNothing(a: string)
    ensures a + "" == a
  {
  }

  lemma HeadSpaces(columns: string)
    ensures "SELECT" + " " + columns + " " + "FROM krateo_resources" == "SELECT " + columns + " FROM krateo_resources"
  {
    assert "SELECT" + " " == "SELECT " && " " + "FROM krateo_resources" == " FROM krateo_resources";
    Regroup3("SELECT " + columns, " ", "FROM krateo_resources");
  }

  lemma ListHeadShows(p: ListParams)
    ensures Show(HeadTokens(false, ListColumns(p))) == "SELECT " + WrittenColumns(p) + " FROM krateo_resources"
  {
    hide Show, HeadTokens, JoinTexts, ColumnTexts, ListColumns, WrittenColumns;
    HeadShows(false, ListColumns(p));
    WrittenColumnsShow(p);
    HeadSpaces(WrittenColumns(p));
  }

  lemma DiscoverHeadShows()
    ensures Show(HeadTokens(true, TARGET_COLUMNS))
         == "SELECT DISTINCT resource_group" + ", resource_plural, namespace" + " FROM krateo_resources"
  {
    hide Show, HeadTokens, JoinTexts, ColumnTexts, ColumnText;
    HeadShows(true, TARGET_COLUMNS);
    assert TARGET_COLUMNS == [ResourceGroup] + [ResourcePlural, Namespace];
    TwoColumns(ResourceGroup, ResourceGroup);
    TwoColumns(ResourcePlural, Namespace);
    MoreColumns([ResourceGroup], [ResourcePlural, Namespace]);
    DiscoverStart();
    DiscoverPair();
    FromSpace();
    DiscoverGroups(ColumnText(ResourceGroup), ", " + (ColumnText(ResourcePlural) + ", " + ColumnText(Namespace)));
  }

  lemma DiscoverStart()
    ensures "SELECT DISTINCT" + " " + ColumnText(ResourceGroup) == "SELECT DISTINCT resource_group"
  {
    assert "SELECT DISTINCT" + " " == "SELECT DISTINCT ";
  }

  lemma DiscoverPair()
    ensures ", " + (ColumnText(ResourcePlural) + ", " + ColumnText(Namespace)) == ", resource_plural, namespace"
  {
  }

  lemma FromSpace()
    ensures " " + "FROM krateo_resources" == " FROM krateo_resources"
  {
  }

  lemma DiscoverGroups(a: string, b: string)
    ensures "SELECT DISTINCT" + " " + (a + b) + " " + "FROM krateo_resources"
         == ("SELECT DISTINCT" + " " + a) + b + (" " + "FROM krateo_resources")
  {
    Regroup3("SELECT DISTINCT" + " ", a, b);
    Regroup3("SELECT DISTINCT" + " " + a + b, " ", "FROM krateo_resources");
  }

  // ----- the ORDER BY clause -----

  /** The clause for each sort_by, in either direction. */
  function WrittenOrder(s: SortBy, desc: bool): string {
    match s
    case ByCreatedAt => if desc then "created_at DESC, id DESC" else "created_at ASC, id ASC"
    case ByUpdatedAt => if desc then "updated_at DESC, id DESC" else "updated_at ASC, id ASC"
    case ByGlobalUid => if desc then "global_uid DESC, id DESC" else "global_uid ASC, id ASC"
    case ByCompositionId =>
      if desc then "composition_id DESC NULLS FIRST" + ", id DESC" else "composition_id ASC NULLS LAST" + ", id ASC"
    case _ =>
      if desc then
        "resource_group DESC" + ", resource_version DESC" + ", resource_plural DESC" + ", namespace DESC"
        + ", resource_name DESC" + ", id DESC"
      else
        "resource_group ASC" + ", resource_version ASC" + ", resource_plural ASC" + ", namespace ASC"
        + ", resource_name ASC" + ", id ASC"
  }

  lemma TwoKeysText(c: Column, dir: string)
    ensures ColumnListText([c, Id], dir) == KeyText(c, dir) + ", " + KeyText(Id, dir)
  {
    hide KeyText;
    assert [c, Id][1..] == [Id];
  }

  lemma CreatedLiteral(desc: bool)
    ensures KeyText(CreatedAt, if desc then "DESC" else "ASC") == if desc then "created_at DESC" else "created_at ASC"
  {
  }

  lemma UpdatedLiteral(desc: bool)
    ensures KeyText(UpdatedAt, if desc then "DESC" else "ASC") == if desc then "updated_at DESC" else "updated_at ASC"
  {
  }

  lemma GlobalUidLiteral(desc: bool)
    ensures KeyText(GlobalUid, if desc then "DESC" else "ASC") == if desc then "global_uid DESC" else "global_uid ASC"
  {
  }

  lemma TimeOrderWritten(s: SortBy, o: SortOrder)
    requires s.ByCreatedAt? || s.ByUpdatedAt? || s.ByGlobalUid?
    ensures SortOrderSQL(s, o) == WrittenOrder(s, o.Descending?)
  {
    hide KeyText;
    CreatedLiteral(o.Descending?);
    UpdatedLiteral(o.Descending?);
    GlobalUidLiteral(o.Descending?);
    IdLiteral(o.Descending?);
    TwoKeysText(SortColumns(s)[0], DirectionText(o));
    TimeLiterals();
  }

  lemma IdLiteral(desc: bool)
    ensures KeyText(Id, if desc then "DESC" else "ASC") == if desc then "id DESC" else "id ASC"
  {
  }

  lemma TimeLiterals()
    ensures "created_at DESC" + ", " + "id DESC" == "created_at DESC, id DESC"
    ensures "created_at ASC" + ", " + "id ASC" == "created_at ASC, id ASC"
    ensures "updated_at DESC" + ", " + "id DESC" == "updated_at DESC, id DESC"
    ensures "updated_at ASC" + ", " + "id ASC" == "updated_at ASC, id ASC"
    ensures "global_uid DESC" + ", " + "id DESC" == "global_uid DESC, id DESC"
    ensures "global_uid ASC" + ", " + "id ASC" == "global_uid ASC, id ASC"
  {
  }

  lemma CompositionOrderWritten(o: SortOrder)
    ensures SortOrderSQL(ByCompositionId, o) == WrittenOrder(ByCompositionId, o.Descending?)
  {
    CompositionLiteral(o);
    Regroup3(KeyText(CompositionId, DirectionText(o)) + " " + NullsText(o), ", ", KeyText(Id, DirectionText(o)));
    hide KeyText, NullsText;
    IdLiteral(o.Descending?);
    assert ", " + "id DESC" == ", id DESC" && ", " + "id ASC" == ", id ASC";
  }

  lemma CompositionLiteral(o: SortOrder)
    ensures KeyText(CompositionId, DirectionText(o)) + " " + NullsText(o)
         == if o.Descending? then "composition_id DESC NULLS FIRST" else "composition_id ASC NULLS LAST"
  {
  }

  lemma SixKeysText(dir: string)
    ensures ColumnListText(RESOURCE_COLUMNS, dir)
         == KeyText(ResourceGroup, dir) + (", " + KeyText(ResourceVersion, dir)) + (", " + KeyText(ResourcePlural, dir))
          + (", " + KeyText(Namespace, dir)) + (", " + KeyText(ResourceName, dir)) + (", " + KeyText(Id, dir))
  {
    hide KeyText;
    var c1 := RESOURCE_COLUMNS[1..];
    assert c1 == [ResourceVersion, ResourcePlural, Namespace, ResourceName, Id];
    assert c1[1..] == [ResourcePlural, Namespace, ResourceName, Id];
    assert c1[1..][1..] == [Namespace, ResourceName, Id];
    assert c1[1..][1..][1..] == [ResourceName, Id];
    TwoKeysText(ResourceName, dir);
    var f, e, d := KeyText(Id, dir), KeyText(ResourceName, dir), KeyText(Namespace, dir);
    assert ColumnListText(c1[1..][1..], dir) == d + ", " + (e + ", " + f);
    var c, b, a := KeyText(ResourcePlural, dir), KeyText(ResourceVersion, dir), KeyText(ResourceGroup, dir);
    assert ColumnListText(c1[1..], dir) == c + ", " + (d + ", " + (e + ", " + f));
    SixParts(a, b, c, d, e, f);
  }

  lemma SixParts(a: string, b: string, c: string, d: string, e: string, f: string)
    ensures a + ", " + (b + ", " + (c + ", " + (d + ", " + (e + ", " + f))))
         == a + (", " + b) + (", " + c) + (", " + d) + (", " + e) + (", " + f)
  {
    FiveParts(b, c, d, e, f);
    var rest := b + (", " + c) + (", " + d) + (", " + e) + (", " + f);
    Regroup3(a, ", ", rest);
    Regroup6(a, ", " + b, ", " + c, ", " + d, ", " + e, ", " + f);
    Regroup6(", ", b, ", " + c, ", " + d, ", " + e, ", " + f);
    Regroup3(", ", b, ", " + c + (", " + d) + (", " + e) + (", " + f));
  }

  lemma FiveParts(b: string, c: string, d: string, e: string, f: string)
    ensures b + ", " + (c + ", " + (d + ", " + (e + ", " + f)))
         == b + (", " + c) + (", " + d) + (", " + e) + (", " + f)
  {
    Regroup3(e, ", ", f);
    Regroup3(d, ", ", e + ", " + f);
    Regroup3(c, ", ", d + ", " + (e + ", " + f));
    Regroup3(b, ", ", c + ", " + (d + ", " + (e + ", " + f)));
  }

  lemma Regroup6(a: string, b: string, c: string, d: string, e: string, f: string)
    ensures a + b + c + d + e + f == a + (b + c + d + e + f)
  {
  }

  lemma GroupLiteral(desc: bool)
    ensures KeyText(ResourceGroup, if desc then "DESC" else "ASC")
         == if desc then "resource_group DESC" else "resource_group ASC"
  {
  }

  lemma VersionLiteral(desc: bool)
    ensures ", " + KeyText(ResourceVersion, if desc then "DESC" else "ASC")
         == if desc then ", resource_version DESC" else ", resource_version ASC"
  {
  }

  lemma PluralLiteral(desc: bool)
    ensures ", " + KeyText(ResourcePlural, if desc then "DESC" else "ASC")
         == if desc then ", resource_plural DESC" else ", resource_plural ASC"
  {
  }

  lemma NamespaceLiteral(desc: bool)
    ensures ", " + KeyText(Namespace, if desc then "DESC" else "ASC")
         == if desc then ", namespace DESC" else ", namespace ASC"
  {
  }

  lemma LastLiterals(desc: bool)
    ensures var dir := if desc then "DESC" else "ASC";
      ", " + KeyText(ResourceName, dir) == (if desc then ", resource_name DESC" else ", resource_name ASC") &&
      ", " + KeyText(Id, dir) == if desc then ", id DESC" else ", id ASC"
  {
  }

  lemma ResourceOrderWritten(o: SortOrder)
    ensures SortOrderSQL(ByResource, o) == WrittenOrder(ByResource, o.Descending?)
  {
    hide KeyText, ColumnListText;
    SixKeysText(DirectionText(o));
    GroupLiteral(o.Descending?);
    VersionLiteral(o.Descending?);
    PluralLiteral(o.Descending?);
    NamespaceLiteral(o.Descending?);
    LastLiterals(o.Descending?);
  }

  /** The ORDER BY clause of a request, from the sort words that it holds. */
  lemma OrderWritten(s: SortBy, o: SortOrder)
    ensures var column := NormaliseSortBy(s);
      SortOrderSQL(column, NormaliseSortOrder(o, column)) == WrittenOrder(s, Descends(s, o))
  {
    hide KeyText, ColumnListText;
    var column := NormaliseSortBy(s);
    var order := NormaliseSortOrder(o, column);
    if s.ByCreatedAt? || s.ByUpdatedAt? || s.ByGlobalUid? {
      TimeOrderWritten(column, order);
    } else if s.ByCompositionId? {
      CompositionOrderWritten(order);
    } else {
      ResourceOrderWritten(order);
    }
  }

  // ----- the cursor's condition -----

  /** The condition for each sort_by, in either direction, after a row whose composition_id is NULL or not. */
  function WrittenCursor(s: SortBy, desc: bool, isNull: bool): string {
    match s
    case ByCreatedAt => "(created_at" + if desc then ", id) < (?, ?)" else ", id) > (?, ?)"
    case ByUpdatedAt => "(updated_at" + if desc then ", id) < (?, ?)" else ", id) > (?, ?)"
    case ByGlobalUid => "(global_uid" + if desc then ", id) < (?, ?)" else ", id) > (?, ?)"
    case ByCompositionId =>
      if desc then
        if isNull then "(composition_id IS NULL AND id < ?)" + " OR composition_id IS NOT NULL"
        else "(composition_id < ?" + " OR (composition_id = ?" + " AND id < ?))"
      else if isNull then "composition_id IS NULL AND id > ?"
      else "((composition_id > ?" + " OR (composition_id = ?" + " AND id > ?))" + " OR composition_id IS NULL)"
    case _ =>
      "(resource_group, resource_version" + ", resource_plural, namespace" + ", resource_name, id"
      + (if desc then ") < " else ") > ") + "(?, ?, ?, ?, ?, ?)"
  }

  lemma PairText(c: Column, op: Operator)
    ensures RowText([c, Id], op) == "(" + ColumnText(c) + (", id) " + OperatorText(op) + " (?, ?)")
  {
    hide ColumnText, OperatorText;
    TwoColumns(c, Id);
    assert Repeat(1, "?") == ["?"] && Repeat(2, "?") == ["?", "?"];
    JoinTwo("?", "?", ", ");
    IdText();
    PairGroups(ColumnText(c), OperatorText(op));
  }

  lemma IdText()
    ensures ColumnText(Id) == "id"
  {
  }

  lemma PairGroups(c: string, op: string)
    ensures "(" + (c + ", " + "id") + ") " + op + (" (" + ("?" + ", " + "?") + ")")
         == "(" + c + (", id) " + op + " (?, ?)")
  {
    assert " (" + ("?" + ", " + "?") + ")" == " (?, ?)";
    assert ", " + "id" + ") " == ", id) ";
    Regroup3(c, ", ", "id");
    Regroup3("(", c, ", " + "id");
    Regroup3("(" + c, ", " + "id", ") ");
    Regroup3("(" + c, ", id) ", op);
    Regroup3("(" + c, ", id) " + op, " (?, ?)");
  }

  lemma PairLiterals()
    ensures "(" + ColumnText(CreatedAt) == "(created_at" && "(" + ColumnText(UpdatedAt) == "(updated_at"
    ensures "(" + ColumnText(GlobalUid) == "(global_uid"
    ensures ", id) " + "<" + " (?, ?)" == ", id) < (?, ?)" && ", id) " + ">" + " (?, ?)" == ", id) > (?, ?)"
  {
  }

  lemma ResourceText(op: Operator)
    ensures RowText(RESOURCE_COLUMNS, op)
         == "(resource_group, resource_version" + ", resource_plural, namespace" + ", resource_name, id"
          + (") " + OperatorText(op) + " ") + "(?, ?, ?, ?, ?, ?)"
  {
    hide ColumnText, ColumnTexts, JoinTexts, OperatorText, Repeat;
    var c1 := [ResourceGroup, ResourceVersion] + [ResourcePlural, Namespace];
    assert RESOURCE_COLUMNS == c1 + [ResourceName, Id];
    TwoColumns(ResourceGroup, ResourceVersion);
    TwoColumns(ResourcePlural, Namespace);
    TwoColumns(ResourceName, Id);
    MoreColumns([ResourceGroup, ResourceVersion], [ResourcePlural, Namespace]);
    MoreColumns(c1, [ResourceName, Id]);
    SixHoles();
    ResourceStart();
    DiscoverPair();
    ResourceEnd();
    ResourceGroups(ColumnText(ResourceGroup) + ", " + ColumnText(ResourceVersion), ", resource_plural, namespace",
                   ", resource_name, id", OperatorText(op), "?, ?, ?, ?, ?, ?");
  }

  lemma SixHoles()
    ensures JoinTexts(Repeat(6, "?"), ", ") == "?, ?, ?, ?, ?, ?"
  {
    hide JoinTexts;
    ThreeAndThree();
    JoinThree("?", "?", "?", ", ");
    JoinAppend(["?", "?", "?"], ["?", "?", "?"], ", ");
    assert "?" + ", " + ("?" + ", " + "?") == "?, ?, ?";
    assert "?, ?, ?" + (", " + "?, ?, ?") == "?, ?, ?, ?, ?, ?";
  }

  lemma ThreeAndThree()
    ensures Repeat(6, "?") == ["?", "?", "?"] + ["?", "?", "?"]
  {
    assert Repeat(1, "?") == ["?"] && Repeat(2, "?") == ["?", "?"] && Repeat(3, "?") == ["?", "?", "?"];
    assert Repeat(4, "?") == ["?", "?", "?", "?"] && Repeat(5, "?") == ["?", "?", "?", "?", "?"];
  }

  lemma ResourceStart()
    ensures "(" + (ColumnText(ResourceGroup) + ", " + ColumnText(ResourceVersion))
         == "(resource_group, resource_version"
  {
  }

  lemma ResourceEnd()
    ensures ", " + (ColumnText(ResourceName) + ", " + ColumnText(Id)) == ", resource_name, id"
    ensures "(" + "?, ?, ?, ?, ?, ?" + ")" == "(?, ?, ?, ?, ?, ?)"
  {
  }

  lemma ResourceGroups(a: string, b: string, c: string, op: string, holes: string)
    ensures "(" + (a + b + c) + ") " + op + (" (" + holes + ")")
         == ("(" + a) + b + c + (") " + op + " ") + ("(" + holes + ")")
  {
    assert " (" + holes + ")" == " " + ("(" + holes + ")");
    Regroup4("(", a, b, c);
    Regroup3("(" + a + b + c, ") ", op);
    Regroup3("(" + a + b + c + (") " + op), " ", "(" + holes + ")");
    Regroup3("(" + a + b + c, ") " + op, " ");
  }

  lemma TieLiteral(op: Operator)
    requires op == Less || op == Greater
    ensures PastCompositionText(op) ==
      if op == Less then "composition_id < ?" + " OR (composition_id = ?" + " AND id < ?)"
      else "composition_id > ?" + " OR (composition_id = ?" + " AND id > ?)"
  {
    TieLiterals();
    var head, word := "composition_id" + " " + OperatorText(op) + " ?", "composition_id" + " " + "=" + " ?";
    var last := "id" + " " + OperatorText(op) + " ?";
    hide OperatorText;
    EqualSign();
    TieGroups(head, word, last);
  }

  lemma TieLiterals()
    ensures "composition_id" + " " + "<" + " ?" == "composition_id < ?"
    ensures "composition_id" + " " + ">" + " ?" == "composition_id > ?"
    ensures " OR " + "(" + ("composition_id" + " " + "=" + " ?") == " OR (composition_id = ?"
    ensures " AND " + ("id" + " " + "<" + " ?") + ")" == " AND id < ?)"
    ensures " AND " + ("id" + " " + ">" + " ?") + ")" == " AND id > ?)"
  {
  }

  lemma TieGroups(head: string, word: string, last: string)
    ensures head + " OR " + ("(" + (word + " AND " + last) + ")")
         == head + (" OR " + "(" + word) + (" AND " + last + ")")
  {
  }

  lemma NullDescending()
    ensures "(" + ("composition_id" + " IS NULL" + " AND " + ("id" + " " + "<" + " ?")) + ")"
         == "(composition_id IS NULL AND id < ?)"
  {
    assert "composition_id" + " IS NULL" == "composition_id IS NULL";
    assert " AND " + ("id" + " " + "<" + " ?") == " AND id < ?";
    Regroup3("composition_id" + " IS NULL", " AND ", "id" + " " + "<" + " ?");
  }

  lemma NullAscending()
    ensures "composition_id" + " IS NULL" + " AND " + ("id" + " " + ">" + " ?") == "composition_id IS NULL AND id > ?"
  {
    assert "composition_id" + " IS NULL" == "composition_id IS NULL";
    assert " AND " + ("id" + " " + ">" + " ?") == " AND id > ?";
    Regroup3("composition_id" + " IS NULL", " AND ", "id" + " " + ">" + " ?");
  }

  lemma NullWords()
    ensures " OR " + ("composition_id" + " IS NOT NULL") == " OR composition_id IS NOT NULL"
    ensures " OR " + ("composition_id" + " IS NULL") + ")" == " OR composition_id IS NULL)"
  {
  }

  lemma ParenThree(a: string, b: string, c: string)
    ensures "(" + (a + b + c) + ")" == ("(" + a) + b + (c + ")")
  {
  }

  lemma ParenFour(a: string, b: string, c: string, d: string)
    ensures "(" + (a + b + c + d) + ")" == ("(" + a) + b + c + (d + ")")
  {
  }

  lemma DoubleParen(a: string)
    ensures "(" + ("(" + a) == "((" + a
  {
  }

  lemma CompositionCursorWritten(o: SortOrder, isNull: bool)
    ensures CompositionIdCursorText(o, isNull) == WrittenCursor(ByCompositionId, o.Descending?, isNull)
  {
    hide PastCompositionText;
    NullDescending();
    NullAscending();
    NullWords();
    TieLiteral(Less);
    TieLiteral(Greater);
    ParenThree("composition_id < ?", " OR (composition_id = ?", " AND id < ?)");
    ParenThree("composition_id > ?", " OR (composition_id = ?", " AND id > ?)");
    OrNull("composition_id > ?", " OR (composition_id = ?", " AND id > ?)");
    ParenLiterals();
  }

  lemma OrNull(a: string, b: string, c: string)
    ensures "(" + ("(" + a + b + (c + ")") + " OR " + ("composition_id" + " IS NULL")) + ")"
         == "((" + a + b + (c + ")") + (" OR " + ("composition_id" + " IS NULL") + ")")
  {
    var d := "composition_id" + " IS NULL";
    Regroup3("(" + a + b + (c + ")"), " OR ", d);
    ParenFour("(" + a, b, c + ")", " OR " + d);
    DoubleParen(a);
  }

  lemma ParenLiterals()
    ensures "(" + "composition_id < ?" == "(composition_id < ?" && " AND id < ?)" + ")" == " AND id < ?))"
    ensures "((" + "composition_id > ?" == "((composition_id > ?" && " AND id > ?)" + ")" == " AND id > ?))"
  {
  }

  /** The condition that a cursor is turned into, for each sort, direction and NULL pairing. */
  lemma CursorWritten(s: SortBy, o: SortOrder, c: ResourcesCursor)
    ensures CursorConditionText(s, o, c) == WrittenCursor(s, o.Descending?, c.compositionIdNull)
  {
    hide RowText, CompositionIdCursorText, OperatorText, ColumnText;
    EqualSign();
    PairLiterals();
    match s
    case ByCreatedAt => PairText(CreatedAt, CursorOp(o));
    case ByUpdatedAt => PairText(UpdatedAt, CursorOp(o));
    case ByGlobalUid => PairText(GlobalUid, CursorOp(o));
    case ByCompositionId => CompositionCursorWritten(o, c.compositionIdNull);
    case _ =>
      ResourceText(CursorOp(o));
      OperatorSpaces();
  }

  lemma OperatorSpaces()
    ensures ") " + "<" + " " == ") < " && ") " + ">" + " " == ") > "
  {
  }

  // ----- the list query -----

  /** The text of the list query, with the cursor's condition last. */
  function WrittenList(p: ListParams, c: Option<ResourcesCursor>): string {
    var desc := Descends(p.sortBy, p.sortOrder);
    var cursor := if c.Some? then [WrittenCursor(p.sortBy, desc, c.value.compositionIdNull)] else [];
    RenderText("SELECT " + WrittenColumns(p) + " FROM krateo_resources", FilterConditions(p) + cursor,
               WrittenOrder(p.sortBy, desc), p.limit > 0)
  }

  function WrittenArgs(p: ListParams, c: Option<ResourcesCursor>): seq<Value>
    requires Usable(p, c)
  {
    FilterValues(p)
    + (if c.Some? then CursorCondition(SortByOf(p), OrderOf(p), c.value).args else [])
    + Optional(p.limit > 0, Num(p.limit + 1))
  }

  lemma SameColumns(s: SortBy, o: SortOrder, isNull: bool)
    ensures var column := NormaliseSortBy(s);
      NormaliseSortOrder(o, column).Descending? == Descends(s, o) &&
      WrittenCursor(column, Descends(s, o), isNull) == WrittenCursor(s, Descends(s, o), isNull)
  {
  }

  /** The text and the arguments that all theorems about the list query are about are the ones written here. */
  lemma ListWritten(p: ListParams, c: Option<ResourcesCursor>)
    requires Usable(p, c)
    ensures ListText(p, c) == WrittenList(p, c) && ListArgs(p, c) == WrittenArgs(p, c)
  {
    hide Texts, AllArgs, FilterFragments, FilterConditions, FilterValues, WrittenColumns, WrittenOrder, WrittenCursor,
         CursorCondition, CursorConditionText, RenderText, Show, HeadTokens, SortOrderSQL, FragmentText, ListColumns,
         NormaliseSortBy, NormaliseSortOrder, Descends, Complete;
    ListHeadShows(p);
    FiltersWritten(p);
    OrderWritten(p.sortBy, p.sortOrder);
    if c.Some? {
      var f := CursorCondition(SortByOf(p), OrderOf(p), c.value);
      SameColumns(p.sortBy, p.sortOrder, c.value.compositionIdNull);
      CursorWritten(SortByOf(p), OrderOf(p), c.value);
      CursorConditionShows(SortByOf(p), OrderOf(p), c.value);
      TextsAppend(FilterFragments(p), [f]);
      OneText(f);
    } else {
      assert FilterConditions(p) + [] == FilterConditions(p) && FilterValues(p) + [] == FilterValues(p);
    }
  }

  lemma OneText(f: Fragment)
    ensures Texts([f]) == [FragmentText(f)] && AllArgs([f]) == f.args
  {
    hide FragmentText;
    assert [f][1..] == [];
  }

  /** Discovery starts from the condition on the group. */
  lemma DiscoverParts(p: ListParams)
    ensures DiscoverFragments(p) ==
      [ACTIVE] + [Equals(ResourceGroup, p.resourceGroup)]
      + Optional(p.resourceVersion != "", Equals(ResourceVersion, p.resourceVersion))
      + Optional(p.resourcePlural != "", Equals(ResourcePlural, p.resourcePlural))
      + Optional(p.cluster != "", Equals(ClusterName, p.cluster))
      + Optional(p.namespace != "", Equals(Namespace, p.namespace))
  {
  }
}
