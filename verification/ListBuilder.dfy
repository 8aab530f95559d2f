/** Building the list query and the discovery query with the query builder, condition by condition. */
module ListBuilder {
  import opened Common
  import opened SqlTokens
  import opened SqlParser
  import opened Database
  import opened QueryBuilder
  import opened Fragments
  import opened Sorting
  import opened Cursor
  import opened QueryTexts
  import opened WrittenTexts
  import opened ListQuery
  import L = Like

  // ----- following the builder -----

  /** The builder holds exactly these conditions and their arguments. */
  ghost predicate Collected(b: Builder, fs: seq<Fragment>)
    reads b
  {
    b.where == Texts(fs) && b.args == AllArgs(fs)
  }

  method AddIf(b: Builder, ghost fs: seq<Fragment>, present: bool, cond: string, values: seq<Value>,
               ghost f: Fragment)
    requires Collected(b, fs)
    requires present ==> cond == FragmentText(f) && values == f.args
    modifies b`where, b`args
    ensures Collected(b, fs + Optional(present, f))
  {
    TextsAppend(fs, Optional(present, f));
    if present {
      assert Texts([f]) == [FragmentText(f)] && AllArgs([f]) == f.args;
      b.Where(cond, values);
    }
  }

  /** The placeholders and arguments of the IN list. */
  method TargetParts(targets: seq<ResourceTarget>) returns (parts: seq<string>, args: seq<Value>)
    ensures parts == Repeat(|targets|, TRIPLE)
    ensures args == TargetArgs(targets)
  {
    parts, args := [], [];
    for i := 0 to |targets|
      invariant parts == Repeat(i, TRIPLE)
      invariant args == TargetArgs(targets[..i])
    {
      RepeatExtend(i, TRIPLE);
      TargetArgsExtend(targets[..i], targets[i]);
      assert targets[..i + 1] == targets[..i] + [targets[i]];
      parts := parts + [TRIPLE];
      args := args + [Text(targets[i].group), Text(targets[i].resource), Text(targets[i].namespace)];
    }
    assert targets[..|targets|] == targets;
  }

  lemma {:induction false} RepeatExtend(n: nat, s: string)
    ensures Repeat(n + 1, s) == Repeat(n, s) + [s]
  {
    if n > 0 {
      RepeatExtend(n - 1, s);
    }
  }

  lemma {:induction false} TargetArgsExtend(targets: seq<ResourceTarget>, t: ResourceTarget)
    ensures TargetArgs(targets + [t]) == TargetArgs(targets) + TargetValues(t)
  {
    if targets == [] {
      assert targets + [t] == [t];
    } else {
      assert (targets + [t])[1..] == targets[1..] + [t];
      TargetArgsExtend(targets[1..], t);
    }
  }

  method AddEquals(b: Builder, ghost fs: seq<Fragment>, ghost c: Column, cond: string, v: string)
    requires Collected(b, fs) && cond == ColumnText(c) + " = ?"
    modifies b`where, b`args
    ensures Collected(b, fs + Optional(v != "", Equals(c, v)))
  {
    EqualsText(c, v);
    AddIf(b, fs, v != "", cond, [Text(v)], Equals(c, v));
  }

  method AddActive(b: Builder, p: ListParams)
    requires b.where == [] && b.args == []
    modifies b`where, b`args
    ensures Collected(b, [ACTIVE] + [Equals(ResourceGroup, p.resourceGroup)])
  {
    hide FragmentText, ColumnText;
    ActiveText();
    EqualsText(ResourceGroup, p.resourceGroup);
    EqualsLiterals();
    AddIf(b, [], true, "deleted_at IS NULL", [], ACTIVE);
    assert [] + Optional(true, ACTIVE) == [ACTIVE];
    AddIf(b, [ACTIVE], true, "resource_group = ?", [Text(p.resourceGroup)], Equals(ResourceGroup, p.resourceGroup));
  }

  /** Discovery: `SELECT DISTINCT` of the targets that the request may concern. */
  method BuildDiscoverQuery(p: ListParams) returns (text: string, args: seq<Value>)
    ensures text == RenderText(Show(HeadTokens(true, TARGET_COLUMNS)), Texts(DiscoverFragments(p)), "", false)
    ensures args == AllArgs(DiscoverFragments(p))
    ensures text == RenderText(
      "SELECT DISTINCT resource_group" + ", resource_plural, namespace" + " FROM krateo_resources",
      DiscoverConditions(p), "", false)
    ensures args == DiscoverValues(p)
  {
    hide Show, HeadTokens, JoinTexts, ColumnTexts, RenderText, Texts, AllArgs, Equals, ColumnText, DiscoverFragments,
         DiscoverConditions, DiscoverValues;
    DiscoverHeadShows();
    DiscoverWritten(p);
    EqualsLiterals();
    DiscoverParts(p);
    var b := new Builder();
    AddActive(b, p);
    ghost var fs := [ACTIVE] + [Equals(ResourceGroup, p.resourceGroup)];
    AddEquals(b, fs, ResourceVersion, "resource_version = ?", p.resourceVersion);
    fs := fs + Optional(p.resourceVersion != "", Equals(ResourceVersion, p.resourceVersion));
    AddEquals(b, fs, ResourcePlural, "resource_plural = ?", p.resourcePlural);
    fs := fs + Optional(p.resourcePlural != "", Equals(ResourcePlural, p.resourcePlural));
    AddEquals(b, fs, ClusterName, "cluster_name = ?", p.cluster);
    fs := fs + Optional(p.cluster != "", Equals(ClusterName, p.cluster));
    AddEquals(b, fs, Namespace, "namespace = ?", p.namespace);
    text, args := b.Render(
      "SELECT DISTINCT resource_group" + ", resource_plural, namespace" + " FROM krateo_resources");
  }

  /** The filters of the list query, in the order in which they are added. */
  method AddFilters(b: Builder, p: ListParams)
    requires b.where == [] && b.args == []
    modifies b`where, b`args
    ensures Collected(b, FilterFragments(p))
    ensures b.where == FilterConditions(p) && b.args == FilterValues(p)
  {
    hide Texts, AllArgs, Equals, TargetsFragment, ScopeFragments, NameFragment, LabelsFragment, SinceFragment,
         FragmentText, ColumnText, L.EscapeLike, FilterConditions, FilterValues;
    FiltersWritten(p);
    EqualsLiterals();
    AddScope(b, p);
    ghost var fs := ScopeFragments(p);
    AddEquals(b, fs, CompositionId, "composition_id = ?", p.compositionId);
    fs := fs + Optional(p.compositionId != "", Equals(CompositionId, p.compositionId));
    AddEquals(b, fs, ResourceName, "resource_name = ?", p.name);
    fs := fs + Optional(p.name != "", Equals(ResourceName, p.name));
    AddDetails(b, p, fs);
  }

  method AddScope(b: Builder, p: ListParams)
    requires b.where == [] && b.args == []
    modifies b`where, b`args
    ensures Collected(b, ScopeFragments(p))
  {
    hide Texts, AllArgs, Equals, TargetsFragment, ColumnText;
    EqualsLiterals();
    AddActive(b, p);
    ghost var fs := [ACTIVE] + [Equals(ResourceGroup, p.resourceGroup)];
    AddEquals(b, fs, ResourceVersion, "resource_version = ?", p.resourceVersion);
    fs := fs + Optional(p.resourceVersion != "", Equals(ResourceVersion, p.resourceVersion));
    AddTargets(b, p, fs);
    fs := fs + Optional(p.allowedTargets != [], TargetsFragment(p.allowedTargets));
    AddEquals(b, fs, ClusterName, "cluster_name = ?", p.cluster);
  }

  method AddTargets(b: Builder, p: ListParams, ghost fs: seq<Fragment>)
    requires Collected(b, fs)
    modifies b`where, b`args
    ensures Collected(b, fs + Optional(p.allowedTargets != [], TargetsFragment(p.allowedTargets)))
  {
    hide FragmentText;
    if |p.allowedTargets| > 0 {
      TargetsText(p.allowedTargets);
    }
    var parts, args := TargetParts(p.allowedTargets);
    AddIf(b, fs, |p.allowedTargets| > 0, TARGETS_HEAD + JoinTexts(parts, ", ") + ")", args,
          TargetsFragment(p.allowedTargets));
  }

  method AddDetails(b: Builder, p: ListParams, ghost fs: seq<Fragment>)
    requires Collected(b, fs)
    modifies b`where, b`args
    ensures Collected(b, fs
      + Optional(p.nameContains != "", NameFragment(p.nameContains))
      + Optional(p.labels != "", LabelsFragment(p.labels))
      + Optional(p.since.Some?, SinceFragment(p.since.GetOr(0))))
  {
    hide FragmentText, L.EscapeLike;
    var pattern := "%" + L.EscapeLike(p.nameContains) + "%";
    ghost var named, labelled := NameFragment(p.nameContains), LabelsFragment(p.labels);
    ghost var recent := SinceFragment(p.since.GetOr(0));
    NameText(p.nameContains);
    LabelsText(p.labels);
    SinceText(p.since.GetOr(0));
    AddIf(b, fs, p.nameContains != "", "resource_name ILIKE ?", [Text(pattern)], named);
    ghost var fs1 := fs + Optional(p.nameContains != "", named);
    AddIf(b, fs1, p.labels != "", "raw->'metadata'->'labels' @> ?" + "::jsonb", [Text(p.labels)], labelled);
    ghost var fs2 := fs1 + Optional(p.labels != "", labelled);
    AddIf(b, fs2, p.since.Some?, "updated_at >= ?", [Num(p.since.GetOr(0))], recent);
  }

  /** The list query for the request's filters, cursor, sort and limit, the cursor's error, or the panic of a cursor
      that lacks the field its sort follows. */
  method BuildListQuery(p: ListParams) returns (r: Result<(string, seq<Value>), ListError>)
    ensures match ReadyCursor(p)
      case Err(e) => r == Err(e)
      case Ok(c) =>
        r == Ok((ListText(p, c), ListArgs(p, c))) && r.value.0 == WrittenList(p, c) && r.value.1 == WrittenArgs(p, c)
  {
    hide WrittenList, WrittenArgs, ListText, ListArgs, Complete;
    var b := new Builder();
    AddFilters(b, p);
    var sortBy := NormaliseSortBy(p.sortBy);
    var sortOrder := NormaliseSortOrder(p.sortOrder, sortBy);
    var decoded := DecodeCursor(p.cursor);
    if decoded.Err? {
      return Err(CursorFailed(decoded.error));
    }
    var cur := decoded.value;
    var mismatch := ValidateCursorSort(cur, sortBy, sortOrder);
    if mismatch.Some? {
      return Err(CursorFailed(mismatch.value));
    }
    if cur.Some? && !Complete(sortBy, cur.value) {
      return Err(NilDereference);
    }
    var query, args := Finish(b, p, sortBy, sortOrder, cur);
    ListWritten(p, cur);
    r := Ok((query, args));
  }

  /** The cursor's condition, the order, the limit, the columns, and the rendering. */
  method Finish(b: Builder, p: ListParams, sortBy: SortBy, sortOrder: SortOrder, cur: Option<ResourcesCursor>)
    returns (query: string, args: seq<Value>)
    requires sortBy == SortByOf(p) && sortOrder == OrderOf(p) && Usable(p, cur)
    requires Collected(b, FilterFragments(p)) && b.limit == None
    modifies b
    ensures query == ListText(p, cur) && args == ListArgs(p, cur)
  {
    hide FragmentText, CursorConditionText, FilterFragments, SortOrderSQL, HeadTokens, JoinTexts, ColumnTexts, Show,
         CursorCondition, Texts, AllArgs, RenderText, ListColumns, WrittenColumns, NormaliseSortBy, NormaliseSortOrder;
    if cur.Some? {
      var f := CursorCondition(sortBy, sortOrder, cur.value);
      CursorConditionShows(sortBy, sortOrder, cur.value);
      AddIf(b, FilterFragments(p), true, CursorConditionText(sortBy, sortOrder, cur.value), f.args, f);
    }
    assert Collected(b, ListFragments(p, cur));
    b.OrderBy(SortOrderSQL(sortBy, sortOrder));
    if p.limit > 0 {
      b.Limit(p.limit + 1);
    }
    var columns := SelectedColumns(p);
    ListHeadShows(p);
    query, args := b.Render("SELECT " + columns + " FROM krateo_resources");
  }

  /** The column list, to which the JSON columns are appended on request. */
  method SelectedColumns(p: ListParams) returns (columns: string)
    ensures columns ==
      "resource_name, uid, global_uid" + ", namespace, resource_group" + ", resource_version, resource_kind"
      + ", resource_plural, cluster_name" + ", created_at, updated_at" + ", composition_id, id"
      + (if p.raw then ", raw" else "") + (if p.statusRaw then ", status_raw" else "")
    ensures columns == WrittenColumns(p)
  {
    columns :=
      "resource_name, uid, global_uid" + ", namespace, resource_group" + ", resource_version, resource_kind"
      + ", resource_plural, cluster_name" + ", created_at, updated_at" + ", composition_id, id";
    var plain := columns;
    if p.raw {
      columns := columns + ", raw";
    }
    assert columns == plain + if p.raw then ", raw" else "";
    if p.statusRaw {
      columns := columns + ", status_raw";
    }
  }
}
