/** Which requests, and which runs, return rows outside the filters, or rows the user may not see. */
module LeakyRuns {
  import opened Common
  import opened Database
  import opened SortedRows
  import opened SqlMeaning
  import opened Sorting
  import opened Cursor
  import opened ListQuery
  import opened Paging
  import opened Rbac
  import opened Requests
  import opened Runs
  import L = Like
  import SqlLexer
  import SqlTokens

  // ----- what is promised -----

  /** The rows of a response are in the table, selected by all filters and permitted. */
  ghost predicate ResponseWanted(p: ListParams, m: Moment) {
    forall r :: r in RowsIn(Respond(p, m)) ==> r in m.table && Wanted(p, m.decisions, r)
  }

  /** The user may get the resource that the row is, by its own group, plural and namespace. */
  predicate MayGet(decisions: Decisions, r: Row) {
    var uct := UserCanTarget("get", r.group, r.plural, r.namespace);
    uct in decisions && decisions[uct]
  }

  /** The user is allowed to get the rows of a response. */
  ghost predicate ResponsePermitted(p: ListParams, m: Moment) {
    forall r :: r in RowsIn(Respond(p, m)) ==> MayGet(m.decisions, r)
  }

  /** When page i was made, the row was in the table, selected by all filters and permitted. */
  ghost predicate WantedAt(p: ListParams, moments: seq<Moment>, i: int, r: Row) {
    0 <= i < |moments| && r in moments[i].table && Wanted(p, moments[i].decisions, r)
  }

  /** When page i was made, the user was allowed to get the row. */
  predicate PermittedAt(moments: seq<Moment>, i: int, r: Row) {
    0 <= i < |moments| && MayGet(moments[i].decisions, r)
  }

  ghost predicate OnPage(run: seq<Response>, i: int, r: Row) {
    0 <= i < |run| && r in RowsIn(run[i])
  }

  ghost predicate EachRowWanted(p: ListParams, moments: seq<Moment>) {
    forall i, r :: OnPage(Run(p, moments), i, r) ==> WantedAt(p, moments, i, r)
  }

  ghost predicate EachRowPermitted(p: ListParams, moments: seq<Moment>) {
    forall i, r :: OnPage(Run(p, moments), i, r) ==> PermittedAt(moments, i, r)
  }

  /** On some fixed table the run differs from the listing. */
  ghost predicate RunMayDiffer(p: ListParams, from: Option<Row>) {
    exists m, n ::
      Fixed(p, m) && n > |m.table| && Returned(Run(p, Always(m, n))) != ListingAt(p, from, m)
  }

  /** The cursor that the request carries is accepted and loses the filters. */
  predicate LosesFilters(p: ListParams) {
    ReadyCursor(p).Ok? && EscapesConjunction(p, ReadyCursor(p).value)
  }

  /** The request, or one that continues it, carries a cursor that loses the filters. */
  ghost predicate MayLoseFilters(p: ListParams) {
    LosesFilters(p) || (p.cursor == NoCursor && LeakProne(p))
  }

  // ----- a table on which filters are lost -----

  function GlobalUidOf(p: ListParams, id: nat): string {
    p.cluster + ":" + SqlTokens.Decimal(id)
  }

  /** A row that p asks for, without a composition. */
  function WantedRow(p: ListParams, id: nat): Row {
    Row(id, 0, p.since.GetOr(0), None, p.cluster, SqlTokens.Decimal(id), GlobalUidOf(p, id), p.namespace,
        p.resourceGroup, p.resourceVersion, "", p.resourcePlural, if p.name != "" then p.name else p.nameContains,
        None, "{}", None, {p.labels})
  }

  /** The last wanted row in descending order of composition_id. */
  function LastWanted(p: ListParams): Row {
    WantedRow(p, 2).(compositionId := Some(UuidOf('0')))
  }

  /** An active row of another group, with the largest composition_id. */
  function ForeignRow(p: ListParams): Row {
    WantedRow(p, 1).(compositionId := Some(UuidOf('f')), group := p.resourceGroup + ".other")
  }

  /** A deleted row of the requested group, with the largest composition_id. */
  function DeletedRow(p: ListParams): Row {
    WantedRow(p, 1).(compositionId := Some(UuidOf('f')), deletedAt := Some(0))
  }

  /** A row that no listing of p holds, and the first one with a composition_id. */
  predicate Stray(p: ListParams, x: Row) {
    && x.id == 1 && x.globalUid == GlobalUidOf(p, 1) && x.compositionId == Some(UuidOf('f'))
    && (x.deletedAt.Some? || x.group != p.resourceGroup)
  }

  /** n rows without composition, in descending order of id; the last has id 3. */
  function NullRows(p: ListParams, n: nat): (rows: seq<Row>)
    ensures |rows| == n && forall i :: 0 <= i < n ==> rows[i] == WantedRow(p, n - i + 2)
  {
    if n == 0 then [] else [WantedRow(p, n + 2)] + NullRows(p, n - 1)
  }

  function WitnessTable(p: ListParams, x: Row, n: nat): seq<Row> {
    NullRows(p, n) + [LastWanted(p), x]
  }

  /** The rows of the witness table that have the requested target, in order. */
  function WitnessListing(p: ListParams, n: nat): seq<Row> {
    NullRows(p, n) + [LastWanted(p)]
  }

  /** The user may get the one target that discovery finds; any other target of the table is denied. */
  function Witness(p: ListParams, x: Row, n: nat): Moment {
    var t := TargetOf(LastWanted(p));
    var decisions := map[UserCanTarget("get", x.group, x.plural, x.namespace) := false,
                         UserCanTarget("get", t.group, t.resource, t.namespace) := true];
    Moment(WitnessTable(p, x, n), [t], decisions, WitnessTable(p, x, n))
  }

  lemma StrayRows(p: ListParams)
    ensures Stray(p, ForeignRow(p)) && Stray(p, DeletedRow(p))
  {
    assert |ForeignRow(p).group| > |p.resourceGroup|;
  }

  lemma StrayUnwanted(p: ListParams, x: Row, decisions: Decisions)
    requires Stray(p, x)
    ensures !Wanted(p, decisions, x) && !Discoverable(p, x)
  {
  }

  lemma ForeignDenied(p: ListParams, n: nat)
    ensures var x, m := ForeignRow(p), Witness(p, ForeignRow(p), n);
      var uct := UserCanTarget("get", x.group, x.plural, x.namespace);
      uct in m.decisions && !m.decisions[uct]
  {
    assert |TargetOf(ForeignRow(p)).group| > |TargetOf(LastWanted(p)).group|;
  }

  ghost predicate FromWitness(p: ListParams, r: Row) {
    exists id: nat :: r == WantedRow(p, id) || r == WantedRow(p, id).(compositionId := Some(UuidOf('0')))
  }

  lemma WantedRowFound(p: ListParams, r: Row)
    requires FromWitness(p, r)
    ensures Discoverable(p, r) && TargetOf(r) == TargetOf(LastWanted(p))
  {
    hide UuidOf, SqlTokens.Decimal;
  }

  lemma WantedRowIsWanted(p: ListParams, x: Row, n: nat, r: Row)
    requires LeakProne(p) && FromWitness(p, r)
    ensures Wanted(p, Witness(p, x, n).decisions, r)
  {
    hide NameContains, UuidOf, SqlTokens.Decimal;
    SelfContained(p.nameContains);
  }

  lemma SelfContained(s: string)
    ensures NameContains(s, s)
  {
    var t := L.Fold(L.CaseFold(), s);
    assert L.OccursAt(t, t, 0);
  }

  lemma WitnessMembers(p: ListParams, x: Row, n: nat, r: Row)
    ensures r in WitnessTable(p, x, n) <==> r in WitnessListing(p, n) || r == x
    ensures r in WitnessListing(p, n) <==> r in NullRows(p, n) || r == LastWanted(p)
    ensures r in WitnessListing(p, n) ==> FromWitness(p, r)
  {
    hide WantedRow, UuidOf;
    assert FromWitness(p, LastWanted(p)) by {
      assert LastWanted(p) == WantedRow(p, 2).(compositionId := Some(UuidOf('0')));
    }
  }

  lemma DecimalsDiffer(a: nat, b: nat)
    requires a != b
    ensures SqlTokens.Decimal(a) != SqlTokens.Decimal(b)
  {
    SqlLexer.DecimalValueDecimal(a);
    SqlLexer.DecimalValueDecimal(b);
  }

  lemma UidsDiffer(p: ListParams, a: nat, b: nat)
    requires a != b
    ensures GlobalUidOf(p, a) != GlobalUidOf(p, b)
  {
    hide SqlTokens.Decimal;
    DecimalsDiffer(a, b);
    var head := p.cluster + ":";
    assert GlobalUidOf(p, a)[|head|..] == SqlTokens.Decimal(a) && GlobalUidOf(p, b)[|head|..] == SqlTokens.Decimal(b);
  }

  lemma WitnessRow(p: ListParams, x: Row, n: nat, i: nat)
    requires Stray(p, x) && i < |WitnessTable(p, x, n)|
    ensures var r := WitnessTable(p, x, n)[i];
      r.id == n + 2 - i && r.id > 0 && r.globalUid == GlobalUidOf(p, r.id) && StoredRow(r)
  {
    hide GlobalUidOf, UuidShaped, UuidOf;
  }

  lemma WitnessStored(p: ListParams, x: Row, n: nat)
    requires Stray(p, x)
    ensures Stored(WitnessTable(p, x, n))
  {
    hide StoredRow, GlobalUidOf, WitnessTable, Stray;
    var table := WitnessTable(p, x, n);
    forall i, j | 0 <= i < j < |table|
      ensures table[i].id != table[j].id && table[i].globalUid != table[j].globalUid
    {
      WitnessRow(p, x, n, i);
      WitnessRow(p, x, n, j);
      UidsDiffer(p, table[i].id, table[j].id);
    }
    forall r | r in table
      ensures StoredRow(r)
    {
      var i :| 0 <= i < |table| && table[i] == r;
      WitnessRow(p, x, n, i);
    }
  }

  /** The witness is a table that the schema allows, with the answer that the discovery query gives on it. */
  lemma WitnessFixed(p: ListParams, x: Row, n: nat)
    requires Stray(p, x)
    ensures Fixed(p, Witness(p, x, n))
  {
    hide Discoverable, AnswersDiscovery, Stored, Stray, WantedRow, FromWitness;
    var m := Witness(p, x, n);
    var t := TargetOf(LastWanted(p));
    WitnessStored(p, x, n);
    WitnessMembers(p, x, n, LastWanted(p));
    WantedRowFound(p, LastWanted(p));
    StrayUnwanted(p, x, m.decisions);
    assert HasTarget(p, m.table, t);
    forall r | r in m.table && Discoverable(p, r)
      ensures TargetOf(r) == t
    {
      WitnessMembers(p, x, n, r);
      WantedRowFound(p, r);
    }
    DiscoveryFinds(p, m.table, m.discovered);
  }

  /** The witness lets the request through to its list query. */
  lemma WitnessAllows(p: ListParams, x: Row, n: nat)
    ensures AllowedAt(Witness(p, x, n)) != []
  {
    var m := Witness(p, x, n);
    assert m.discovered[0] in m.discovered && Permitted(m.decisions, m.discovered[0]);
    assert m.discovered[0] in AllowedAt(m);
  }

  predicate SortsCompositionDown(p: ListParams) {
    SortByOf(p).ByCompositionId? && OrderOf(p).Descending?
  }

  lemma StrayFirst(p: ListParams, x: Row)
    requires SortsCompositionDown(p) && Stray(p, x)
    ensures Before(KeysOf(p), x, LastWanted(p))
  {
    assert ValueLess(Uuid(UuidOf('0')), Uuid(UuidOf('f')));
  }

  /** A sorted list that holds the stray row, and nothing else but perhaps the last wanted row, starts with it. */
  lemma StrayLeads(p: ListParams, x: Row, s: seq<Row>)
    requires SortsCompositionDown(p) && Stray(p, x) && Ordered(KeysOf(p), s) && x in s
    requires forall r :: r in s ==> r == LastWanted(p) || r == x
    ensures s[0] == x
  {
    hide Before, Stray, LastWanted, KeysOf;
    if s[0] != x {
      assert s[0] in s;
      StrayFirst(p, x);
      OrderedAt(KeysOf(p), s, 0, x);
      assert s == [s[0]] + s[1..];
      BeforeAsymmetric(KeysOf(p), x, s[0]);
    }
  }

  // ----- one request, with any cursor -----

  /** The rows of a response are kept by the rendered text, and its cursor is that of the last of them. */
  lemma ResponseIsKept(p: ListParams, c: Option<ResourcesCursor>, m: Moment)
    requires ReadyCursor(p) == Ok(c) && Consistent(p, m)
    ensures var q, rows := p.(allowedTargets := AllowedAt(m)), RowsIn(Respond(p, m));
      Usable(q, c) && ListFragments(q, c) != [] &&
      (forall r :: r in rows ==> r in m.table && AllowedAt(m) != [] && Kept(q, c, r)) &&
      (HasNext(Respond(p, m)) ==> rows != [] && Respond(p, m).page.cursor == TokenAfter(p, rows[|rows| - 1]))
  {
    hide Stream, ReadyCursor, ListText, ListArgs, Execute, Kept, EncodeCursor, BuildCursor, Stored, AnswersDiscovery,
         Ordered, ListFragments, Usable;
    var q := p.(allowedTargets := AllowedAt(m));
    SameReadyCursor(p, AllowedAt(m));
    ExecuteList(q, c, m.table);
    StoredIds(m.table);
    StreamIsSorted(q, c, m.table);
  }

  lemma RefusedIsEmpty(p: ListParams, m: Moment)
    requires ReadyCursor(p).Err?
    ensures RowsIn(Respond(p, m)) == [] && !HasNext(Respond(p, m))
  {
    hide ReadyCursor, ListText, ListArgs, Execute;
    SameReadyCursor(p, AllowedAt(m));
  }

  lemma SoundResponse(p: ListParams, m: Moment)
    requires Consistent(p, m) && !LosesFilters(p)
    ensures ResponseWanted(p, m) && ResponsePermitted(p, m)
  {
    hide ReadyCursor, Respond, Consistent, Kept, Intended, Matches, Wanted, CursorCondition, ListFragments, RowsIn;
    if ReadyCursor(p).Err? {
      RefusedIsEmpty(p, m);
    } else {
      var q, c := p.(allowedTargets := AllowedAt(m)), ReadyCursor(p).value;
      ResponseIsKept(p, c, m);
      forall r | r in RowsIn(Respond(p, m))
        ensures r in m.table && Wanted(p, m.decisions, r) && MayGet(m.decisions, r)
      {
        KeptIsIntended(q, c, r);
        IntendedMeans(q, c, r);
        ConsistentAnswer(p, m);
        TwoSnapshots(p, m, r);
        WantedIsAllowed(p, m.decisions, r);
      }
    }
  }

  lemma ConsistentAnswer(p: ListParams, m: Moment)
    requires Consistent(p, m)
    ensures AnswersDiscovery(p, m.discoveryTable, m.discovered)
  {
    hide AnswersDiscovery;
  }

  lemma WantedIsAllowed(p: ListParams, decisions: Decisions, r: Row)
    ensures Wanted(p, decisions, r) ==> MayGet(decisions, r)
  {
  }

  lemma LosingKeeps(p: ListParams, allowed: seq<ResourceTarget>, x: Row)
    requires LosesFilters(p) && x.compositionId.Some?
    ensures SortsCompositionDown(p) && ReadyCursor(p).Ok?
    ensures var q, c := p.(allowedTargets := allowed), ReadyCursor(p).value;
      ReadyCursor(q) == Ok(c) && Usable(q, c) && ListFragments(q, c) != [] && Kept(q, c, x) && KeysOf(q) == KeysOf(p)
  {
    hide ReadyCursor, Kept, ListFragments, SortKeys, Complete;
    var q, c := p.(allowedTargets := allowed), ReadyCursor(p).value;
    SameReadyCursor(p, allowed);
    ListFragmentsGood(q, c);
    KeptByBareOr(q, c.value, x);
  }

  /** What the text keeps of the witness table starts with the stray row. */
  lemma StrayStream(p: ListParams, x: Row)
    requires LosesFilters(p) && Stray(p, x)
    ensures var m, c := Witness(p, x, 0), ReadyCursor(p).value;
      var q := p.(allowedTargets := AllowedAt(m));
      Usable(q, c) && ListFragments(q, c) != [] && Stream(q, c, m.table) != [] && Stream(q, c, m.table)[0] == x
  {
    hide ReadyCursor, LosesFilters, Stream, Kept, KeysOf, Ordered, Stored, LastWanted, NullRows, Usable, ListFragments,
         UuidOf, GlobalUidOf;
    var m := Witness(p, x, 0);
    LosingKeeps(p, AllowedAt(m), x);
    var q, c := p.(allowedTargets := AllowedAt(m)), ReadyCursor(p).value;
    WitnessStored(p, x, 0);
    StoredIds(m.table);
    StreamIsSorted(q, c, m.table);
    assert m.table == [LastWanted(p), x] by { assert NullRows(p, 0) == []; }
    StrayLeads(p, x, Stream(q, c, m.table));
  }

  lemma StoredIds(table: seq<Row>)
    requires Stored(table)
    ensures DistinctIds(table)
  {
  }

  /** The response to a request whose cursor loses the filters can hold a row that no listing holds. */
  lemma StrayResponse(p: ListParams, x: Row)
    requires LosesFilters(p) && Stray(p, x)
    ensures x in RowsIn(Respond(p, Witness(p, x, 0)))
  {
    hide ReadyCursor, Stream, EscapesConjunction, ListText, ListArgs, Execute, Stray, Complete, TokenAfter,
         WitnessTable;
    var m := Witness(p, x, 0);
    var q, c := p.(allowedTargets := AllowedAt(m)), ReadyCursor(p).value;
    StrayStream(p, x);
    WitnessAllows(p, x, 0);
    SameReadyCursor(p, AllowedAt(m));
    ExecuteList(q, c, m.table);
    var s := Stream(q, c, m.table);
    FirstOfPage(q, s);
    assert Respond(p, m) == Listed(PageOf(q, if q.limit > 0 then FirstRows(q.limit + 1, s) else s));
  }

  lemma FirstOfPage(p: ListParams, s: seq<Row>)
    requires s != []
    ensures s[0] in PageOf(p, if p.limit > 0 then FirstRows(p.limit + 1, s) else s).rows
  {
    hide TokenAfter;
    var rows := if p.limit > 0 then FirstRows(p.limit + 1, s) else s;
    assert rows[0] == s[0] && PageOf(p, rows).rows[0] == s[0];
  }

  /** Every response to a request holds wanted rows, or permitted rows, only, if and only if the request does not carry
      an accepted cursor that loses the filters. The cursor may be any token, and the limit any number. */
  lemma RequestIsSoundExactly(p: ListParams)
    ensures (forall m | Consistent(p, m) :: ResponseWanted(p, m)) <==> !LosesFilters(p)
    ensures (forall m | Consistent(p, m) :: ResponsePermitted(p, m)) <==> !LosesFilters(p)
  {
    hide LosesFilters, Consistent, RowsIn, Respond, Wanted, ForeignRow, Witness, Stray;
    if LosesFilters(p) {
      var x := ForeignRow(p);
      var m := Witness(p, x, 0);
      StrayRows(p);
      StrayResponse(p, x);
      ForeignDenied(p, 0);
      WitnessConsistent(p, x, 0);
      WantedIsAllowed(p, m.decisions, x);
      assert !ResponsePermitted(p, m) && !ResponseWanted(p, m);
    } else {
      forall m | Consistent(p, m)
        ensures ResponseWanted(p, m) && ResponsePermitted(p, m)
      {
        SoundResponse(p, m);
      }
    }
  }

  lemma WitnessConsistent(p: ListParams, x: Row, n: nat)
    requires Stray(p, x)
    ensures Consistent(p, Witness(p, x, n))
  {
    hide Consistent, Witness, Stray;
    WitnessFixed(p, x, n);
  }

  /** The cursor of a row loses the filters exactly when it is one of the cursors named before. */
  lemma IssuedLoses(p: ListParams, from: Option<Row>)
    requires Continues(p, from)
    ensures LosesFilters(p) <==> Leaks(p, from)
    ensures MayLoseFilters(p) <==> !KeepsFilters(p, from)
  {
    hide LeakProne, EncodeCursor;
    IssuedCursorAccepted(p, from);
    if from.Some? {
      TokensArePresent(p);
    }
  }

  /** A request that filters by composition_id, and is not leak-prone, loses its filters with a cursor that another
      request of the same sort was given after a row without one. */
  lemma FilteredRequestMayLose(p: ListParams, c: Row)
    requires SortsCompositionDown(p) && p.compositionId != "" && c.compositionId.None? && p.cursor == TokenAfter(p, c)
    ensures !LeakProne(p) && LosesFilters(p)
  {
    hide EncodeCursor;
    IssuedCursorAccepted(p, Some(c));
  }

  // ----- the runs of a leak-prone request -----

  lemma WitnessOrdered(p: ListParams, n: nat)
    requires SortsCompositionDown(p)
    ensures Ordered(KeysOf(p), WitnessListing(p, n))
  {
    hide Before, UuidOf;
    var rows := WitnessListing(p, n);
    forall i, j | 0 <= i < j < |rows|
      ensures Before(KeysOf(p), rows[i], rows[j])
    {
      NullRowBefore(OrderOf(p), rows[i], rows[j]);
    }
  }

  lemma LeakProneSort(p: ListParams)
    requires LeakProne(p)
    ensures SortsCompositionDown(p)
  {
  }

  /** The first request sees the wanted rows, in order. */
  lemma FirstStream(p: ListParams, x: Row, n: nat)
    requires Continues(p, None) && LeakProne(p) && Stray(p, x)
    ensures StreamAt(p, None, Witness(p, x, n)) == WitnessListing(p, n)
  {
    hide StreamAt, Before, Wanted, Discoverable, Consistent, WitnessListing, WitnessTable, LeakProne, Stray,
         FromWitness;
    var m, s := Witness(p, x, n), StreamAt(p, None, Witness(p, x, n));
    WitnessFixed(p, x, n);
    LeakProneSort(p);
    WitnessOrdered(p, n);
    StreamFacts(p, None, m);
    StrayUnwanted(p, x, m.decisions);
    forall r
      ensures r in s <==> r in WitnessListing(p, n)
    {
      WitnessMembers(p, x, n, r);
      if r in WitnessListing(p, n) {
        WantedRowIsWanted(p, x, n, r);
        WantedRowFound(p, r);
      }
    }
    OrderedUnique(KeysOf(p), s, WitnessListing(p, n));
  }

  lemma LeakKeeps(p: ListParams, c: Row, r: Row)
    requires Leaks(p, Some(c)) && r.compositionId.Some?
    requires Usable(p, CursorFrom(p, Some(c))) && ListFragments(p, CursorFrom(p, Some(c))) != []
    ensures Kept(p, CursorFrom(p, Some(c)), r)
  {
    KeptByBareOr(p, CursorFrom(p, Some(c)).value, r);
  }

  /** Continuing after a row without composition, a request sees every row that has one. */
  lemma LeakyStream(p: ListParams, c: Row, m: Moment, r: Row)
    requires Continues(p, Some(c)) && Leaks(p, Some(c)) && Consistent(p, m) && AllowedAt(m) != []
    requires r in m.table && r.compositionId.Some?
    ensures r in StreamAt(p, Some(c), m)
  {
    hide Stream, Ordered, Before, AnswersDiscovery, Kept, EncodeCursor, BuildCursor;
    var q, cur := p.(allowedTargets := AllowedAt(m)), CursorFrom(p, Some(c));
    IssuedCursorAccepted(q, Some(c));
    ExecuteList(q, cur, m.table);
    StreamIsSorted(q, cur, m.table);
    LeakKeeps(q, c, r);
  }

  /** The request that continues after the rows without composition starts with the stray row. */
  lemma SecondStream(p: ListParams, x: Row, n: nat)
    requires Continues(p, Some(WantedRow(p, 3))) && SortsCompositionDown(p) && Stray(p, x)
    ensures var s := StreamAt(p, Some(WantedRow(p, 3)), Witness(p, x, n)); s != [] && s[0] == x
  {
    hide StreamAt, Before, Wanted, Consistent, WitnessListing, WitnessTable, NullRows, UuidOf, TokenAfter;
    var from, m := WantedRow(p, 3), Witness(p, x, n);
    var s := StreamAt(p, Some(from), m);
    WitnessFixed(p, x, n);
    WitnessMembers(p, x, n, x);
    WitnessAllows(p, x, n);
    LeakyStream(p, from, m, x);
    StreamFacts(p, Some(from), m);
    forall r | r in s
      ensures r == LastWanted(p) || r == x
    {
      OnlyTwoAfter(p, x, n, r);
    }
    StrayLeads(p, x, s);
  }

  lemma OnlyTwoAfter(p: ListParams, x: Row, n: nat, r: Row)
    requires SortsCompositionDown(p) && r in WitnessTable(p, x, n) && Before(KeysOf(p), WantedRow(p, 3), r)
    ensures r == LastWanted(p) || r == x
  {
    hide Before;
    WitnessMembers(p, x, n, r);
    NullRowBefore(OrderOf(p), WantedRow(p, 3), r);
  }

  /** The second page of the witness run holds the stray row. */
  lemma WitnessPage(p: ListParams, x: Row, n: nat)
    requires Continues(p, None) && LeakProne(p) && Stray(p, x) && n >= 2
    ensures var run := Run(p, Always(Witness(p, x, p.limit), n));
      |run| >= 2 && x in RowsIn(run[1]) && x in Returned(run)
  {
    hide StreamAt, Consistent, WitnessTable, LeakProne, Run, TokenAfter, Stray, RowsIn, WantedRow, SortsCompositionDown;
    var m, l := Witness(p, x, p.limit), p.limit;
    var moments, s := Always(m, n), WitnessListing(p, p.limit);
    WitnessSize(p, x);
    WitnessFixed(p, x, l);
    FirstStream(p, x, l);
    RunStep(p, None, moments);
    assert s[l - 1] == WantedRow(p, 3);
    var next := p.(cursor := TokenAfter(p, s[l - 1]));
    SameWitness(p, next.cursor, x, l);
    SameRequest(p, next.cursor, m);
    LeakProneSort(next);
    SecondStream(next, x, l);
    RunStep(next, Some(s[l - 1]), moments[1..]);
    assert x in RowsIn(Run(next, moments[1..])[0]);
    assert Run(p, moments)[1] == Run(p, moments)[1..][0];
    HeadIsReturned(Run(next, moments[1..]));
  }

  lemma HeadIsReturned(run: seq<Response>)
    requires run != []
    ensures forall r :: r in RowsIn(run[0]) ==> r in Returned(run)
  {
  }

  lemma WitnessSize(p: ListParams, x: Row)
    requires p.limit > 0
    ensures |WitnessTable(p, x, p.limit)| >= 2 && |WitnessListing(p, p.limit)| == p.limit + 1
    ensures WitnessListing(p, p.limit)[p.limit - 1] == WantedRow(p, 3)
  {
    hide WantedRow;
  }

  lemma SameWitness(p: ListParams, cursor: EncodedCursor, x: Row, n: nat)
    ensures LeakProne(p.(cursor := cursor)) == LeakProne(p)
    ensures WantedRow(p.(cursor := cursor), 3) == WantedRow(p, 3)
    ensures Stray(p.(cursor := cursor), x) == Stray(p, x)
    ensures Witness(p.(cursor := cursor), x, n) == Witness(p, x, n)
  {
    hide NameContains, UuidOf, SqlTokens.Decimal;
    SameNullRows(p, cursor, n);
  }

  lemma {:induction false} SameNullRows(p: ListParams, cursor: EncodedCursor, n: nat)
    ensures NullRows(p.(cursor := cursor), n) == NullRows(p, n)
  {
    if n > 0 {
      SameNullRows(p, cursor, n - 1);
    }
  }

  // ----- when runs are exact, and when they are sound -----

  lemma {:induction false} PagesBound(n: nat, l: nat)
    requires l > 0
    ensures Pages(n, l) <= n + 1
  {
    if n > l {
      PagesBound(n - l, l);
    }
  }

  /** A run, from its first request or after a row, is exact on every fixed table if and only if no request of it
      carries a cursor that loses the filters. */
  lemma RunsAreExactExactly(p: ListParams, from: Option<Row>)
    requires Continues(p, from)
    ensures RunMayDiffer(p, from) <==> !KeepsFilters(p, from)
  {
    hide ListingAt, Run, Fixed, KeepsFilters, Continues;
    PositiveLimit(p, from);
    if !KeepsFilters(p, from) {
      InexactRun(p, from);
    } else {
      forall m, n | Fixed(p, m) && n > |m.table|
        ensures Returned(Run(p, Always(m, n))) == ListingAt(p, from, m)
      {
        PagesBound(|ListingAt(p, from, m)|, p.limit);
        FixedRunIsExact(p, from, m, n);
      }
    }
  }

  lemma InexactRun(p: ListParams, from: Option<Row>)
    requires Continues(p, from) && !KeepsFilters(p, from)
    ensures RunMayDiffer(p, from)
  {
    hide ListingAt, Run, Fixed, Continues, LeakProne, Leaks, Stray, WitnessTable, DeletedRow, Wanted, RowsIn,
         LosesFilters;
    PositiveLimit(p, from);
    var x := DeletedRow(p);
    var m := Witness(p, x, if from.None? then p.limit else 0);
    var n := |m.table| + 2;
    StrayRows(p);
    if from.None? {
      WitnessPage(p, x, n);
    } else {
      IssuedLoses(p, from);
      StrayResponse(p, x);
      FirstResponse(p, Always(m, n));
    }
    NotListed(p, from, x, m);
    assert Returned(Run(p, Always(m, n))) != ListingAt(p, from, m);
  }

  lemma FirstResponse(p: ListParams, moments: seq<Moment>)
    requires moments != []
    ensures Run(p, moments) != [] && Run(p, moments)[0] == Respond(p, moments[0])
    ensures forall r :: r in RowsIn(Respond(p, moments[0])) ==> r in Returned(Run(p, moments))
  {
    hide Respond, RowsIn;
    HeadIsReturned(Run(p, moments));
  }

  lemma NotListed(p: ListParams, from: Option<Row>, x: Row, m: Moment)
    requires Stray(p, x) && exists n: nat :: m == Witness(p, x, n)
    ensures Fixed(p, m) && x !in ListingAt(p, from, m)
  {
    hide ListingAt, Fixed, Stray, Witness, Wanted, After;
    var n: nat :| m == Witness(p, x, n);
    WitnessFixed(p, x, n);
    FixedListing(p, from, m);
    StrayUnwanted(p, x, m.decisions);
  }

  /** Two requests in a row whose second page holds an active row that the user is denied. */
  lemma ForbiddenRowReturned(p: ListParams)
    requires Continues(p, None) && LeakProne(p)
    ensures var x, moments := ForeignRow(p), Always(Witness(p, ForeignRow(p), p.limit), 2);
      AllConsistent(p, moments) && |Run(p, moments)| >= 2 && x in RowsIn(Run(p, moments)[1]) && x.deletedAt.None? &&
      var uct := UserCanTarget("get", x.group, x.plural, x.namespace);
      uct in moments[1].decisions && !moments[1].decisions[uct]
  {
    hide Run, LeakProne, Stray, Witness, RowsIn, Consistent, WantedRow;
    var x := ForeignRow(p);
    StrayRows(p);
    WitnessPage(p, x, 2);
    WitnessConsistent(p, x, p.limit);
    ForeignDenied(p, p.limit);
    ForeignIsActive(p);
  }

  lemma ForeignIsActive(p: ListParams)
    ensures ForeignRow(p).deletedAt.None?
  {
  }

  // ----- soundness of runs that start with any cursor -----

  /** After a page that an accepted cursor led to without losing a filter, the next cursor does not lose any either. */
  lemma NextKeepsFilters(p: ListParams, c: ResourcesCursor, m: Moment, r: Row)
    requires ReadyCursor(p) == Ok(Some(c)) && !LosesFilters(p) && Consistent(p, m) && r in RowsIn(Respond(p, m))
    ensures !Leaks(p, Some(r)) && StoredRow(r)
  {
    hide ReadyCursor, Respond, Kept, Intended, Matches, CursorCondition, ListFragments, RowsIn, AnswersDiscovery,
         Eval, Complete, DistinctIds, DistinctUids, StoredRow;
    var q := p.(allowedTargets := AllowedAt(m));
    ResponseIsKept(p, Some(c), m);
    KeptIsIntended(q, Some(c), r);
    IntendedMeans(q, Some(c), r);
    if Leaks(p, Some(r)) {
      PastRowHasComposition(OrderOf(q), c, r);
    }
  }

  /** What follows a page that an accepted cursor led to. */
  lemma AfterTokenPage(p: ListParams, c: ResourcesCursor, m: Moment) returns (last: Row)
    requires ValidSortBy(p.sortBy) && p.limit > 0 && ReadyCursor(p) == Ok(Some(c)) && !LosesFilters(p)
    requires Consistent(p, m) && HasNext(Respond(p, m))
    ensures var next := p.(cursor := TokenAfter(p, last));
      Respond(p, m).page.cursor == next.cursor && Continues(next, Some(last)) && KeepsFilters(next, Some(last))
  {
    hide ReadyCursor, Respond, Consistent, LosesFilters, RowsIn, TokenAfter, Leaks, LeakProne, StoredRow, Kept,
         Continues, ListFragments, Usable;
    ResponseIsKept(p, Some(c), m);
    var rows := RowsIn(Respond(p, m));
    last := rows[|rows| - 1];
    assert last in rows;
    NextKeepsFilters(p, c, m, last);
    TokenContinues(p, last);
    SameLeaks(p, TokenAfter(p, last), Some(last));
  }

  lemma RestOfRun(p: ListParams, moments: seq<Moment>)
    requires |Run(p, moments)| > 1
    ensures HasNext(Respond(p, moments[0]))
    ensures Run(p, moments)[1..] == Run(p.(cursor := Respond(p, moments[0]).page.cursor), moments[1..])
  {
    hide Respond;
    var response := Respond(p, moments[0]);
    if HasNext(response) {
      Tail(response, Run(p.(cursor := response.page.cursor), moments[1..]));
    }
  }

  /** The rest of a run that starts with an accepted cursor continues after a row, with a cursor that keeps the
      filters. */
  lemma RunAfterToken(p: ListParams, c: ResourcesCursor, moments: seq<Moment>) returns (last: Row)
    requires ValidSortBy(p.sortBy) && p.limit > 0 && ReadyCursor(p) == Ok(Some(c)) && !LosesFilters(p)
    requires AllConsistent(p, moments) && |Run(p, moments)| > 1
    ensures var next := p.(cursor := TokenAfter(p, last));
      Continues(next, Some(last)) && KeepsFilters(next, Some(last)) && Run(p, moments)[1..] == Run(next, moments[1..])
  {
    hide Run, ReadyCursor, Respond, Consistent, LosesFilters, TokenAfter, KeepsFilters, Continues, HasNext;
    RestOfRun(p, moments);
    SomeMoments(p, moments);
    last := AfterTokenPage(p, c, moments[0]);
  }

  lemma SoundLaterPage(p: ListParams, c: ResourcesCursor, moments: seq<Moment>, i: nat, r: Row)
    requires ValidSortBy(p.sortBy) && p.limit > 0 && ReadyCursor(p) == Ok(Some(c)) && !LosesFilters(p)
    requires AllConsistent(p, moments) && i > 0 && OnPage(Run(p, moments), i, r)
    ensures WantedAt(p, moments, i, r)
  {
    hide Run, ReadyCursor, Consistent, Wanted, LosesFilters, RowsIn, TokenAfter, KeepsFilters, Continues;
    var last := RunAfterToken(p, c, moments);
    var next := p.(cursor := TokenAfter(p, last));
    assert Run(p, moments)[i] == Run(p, moments)[1..][i - 1];
    SomeMoments(p, moments);
    SameRequests(p, next.cursor, moments);
    RunReturnsWanted(next, Some(last), moments[1..], i - 1, r);
    SameRequest(p, next.cursor, moments[i]);
  }

  lemma SomeMoments(p: ListParams, moments: seq<Moment>)
    ensures Run(p, moments) != [] ==> moments != []
  {
  }

  lemma TokenContinues(p: ListParams, r: Row)
    requires ValidSortBy(p.sortBy) && p.limit > 0 && StoredRow(r)
    ensures Continues(p.(cursor := TokenAfter(p, r)), Some(r))
  {
    hide EncodeCursor, BuildCursor;
  }

  lemma SoundPage(p: ListParams, moments: seq<Moment>, i: nat, r: Row)
    requires ValidSortBy(p.sortBy) && p.limit > 0 && AllConsistent(p, moments) && !MayLoseFilters(p)
    requires OnPage(Run(p, moments), i, r)
    ensures WantedAt(p, moments, i, r)
  {
    hide Respond, Consistent, Wanted, LosesFilters, LeakProne, ReadyCursor, RowsIn;
    if p.cursor == NoCursor {
      RunReturnsWanted(p, None, moments, i, r);
    } else {
      FirstResponse(p, moments);
      SoundResponse(p, moments[0]);
      if i > 0 {
        TokenIsReady(p, moments);
        SoundLaterPage(p, ReadyCursor(p).value.value, moments, i, r);
      }
    }
  }

  lemma TokenIsReady(p: ListParams, moments: seq<Moment>)
    requires p.cursor != NoCursor && |Run(p, moments)| > 1
    ensures ReadyCursor(p).Ok? && ReadyCursor(p).value.Some?
  {
    hide Respond, DecodeFields;
    if ReadyCursor(p).Err? {
      RefusedIsEmpty(p, moments[0]);
    }
  }

  /** Whatever happens to the table, every row of a run was wanted, or permitted, on its page, if and only if neither
      the first request nor one that continues it carries a cursor that loses the filters. The run may start with any
      token. */
  lemma RunsAreSoundExactly(p: ListParams)
    requires ValidSortBy(p.sortBy) && p.limit > 0
    ensures (forall moments | AllConsistent(p, moments) :: EachRowWanted(p, moments)) <==> !MayLoseFilters(p)
    ensures (forall moments | AllConsistent(p, moments) :: EachRowPermitted(p, moments)) <==> !MayLoseFilters(p)
  {
    hide Run, MayLoseFilters, AllConsistent, OnPage, WantedAt, PermittedAt;
    if MayLoseFilters(p) {
      UnsoundRun(p);
    } else {
      forall moments: seq<Moment> | AllConsistent(p, moments)
        ensures EachRowWanted(p, moments) && EachRowPermitted(p, moments)
      {
        forall i, r | OnPage(Run(p, moments), i, r)
          ensures WantedAt(p, moments, i, r) && PermittedAt(moments, i, r)
        {
          PageNumber(Run(p, moments), i, r);
          SoundPage(p, moments, i, r);
          WantedIsPermittedAt(p, moments, i, r);
        }
      }
    }
  }

  lemma PageNumber(run: seq<Response>, i: int, r: Row)
    requires OnPage(run, i, r)
    ensures i >= 0
  {
  }

  lemma WantedIsPermittedAt(p: ListParams, moments: seq<Moment>, i: int, r: Row)
    ensures WantedAt(p, moments, i, r) ==> PermittedAt(moments, i, r)
  {
  }

  /** A run with a row that the user is denied: on the first page when the request's own cursor loses the filters,
      on the second when the request is leak-prone. */
  lemma UnsoundRun(p: ListParams)
    requires ValidSortBy(p.sortBy) && p.limit > 0 && MayLoseFilters(p)
    ensures exists moments :: AllConsistent(p, moments) && !EachRowPermitted(p, moments) && !EachRowWanted(p, moments)
  {
    hide Run, LosesFilters, LeakProne, Consistent, Witness, Stray, RowsIn, Respond, ForeignRow, Wanted;
    var x := ForeignRow(p);
    var moments := Always(Witness(p, x, if LosesFilters(p) then 0 else p.limit), 2);
    var page := if LosesFilters(p) then 0 else 1;
    if LosesFilters(p) {
      StrayRows(p);
      StrayResponse(p, x);
      FirstResponse(p, moments);
      WitnessConsistent(p, x, 0);
      ForeignDenied(p, 0);
    } else {
      ForbiddenRowReturned(p);
      ForeignDenied(p, p.limit);
    }
    assert OnPage(Run(p, moments), page, x) && !PermittedAt(moments, page, x);
    WantedIsPermittedAt(p, moments, page, x);
    assert !WantedAt(p, moments, page, x);
    assert AllConsistent(p, moments) && !EachRowPermitted(p, moments) && !EachRowWanted(p, moments);
  }
}
