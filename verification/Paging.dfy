/** One page: running the list query, trimming the extra row, and pointing at the last row returned. */
module Paging {
  import opened Common
  import opened SqlTokens
  import opened SqlParser
  import opened Database
  import opened SortedRows
  import opened SqlMeaning
  import opened Fragments
  import opened Sorting
  import opened Cursor
  import opened ListQuery
  import ListBuilder

  // ----- the database -----

  /** What the database answers to a query text with arguments. */
  ghost function Execute(text: string, args: seq<Value>, table: seq<Row>): seq<Row> {
    match ReadQuery(text)
    case None => []
    case Some(q) => Answer(q, args, table)
  }

  /** All rows that the rendered list query keeps, in its order, before the limit. */
  ghost function Stream(p: ListParams, c: Option<ResourcesCursor>, table: seq<Row>): seq<Row>
    requires Usable(p, c) && ListFragments(p, c) != []
  {
    Sort(KeysOf(p), Keep(ListQueryOf(p, c).where, ListArgs(p, c), table))
  }

  lemma StreamIsSorted(p: ListParams, c: Option<ResourcesCursor>, table: seq<Row>)
    requires Usable(p, c) && ListFragments(p, c) != [] && DistinctIds(table)
    ensures Ordered(KeysOf(p), Stream(p, c, table))
    ensures forall r :: r in Stream(p, c, table) <==> r in table && Kept(p, c, r)
  {
    KeepDistinct(ListQueryOf(p, c).where, ListArgs(p, c), table);
    SortOrdered(KeysOf(p), Keep(ListQueryOf(p, c).where, ListArgs(p, c), table));
  }

  function FirstRows(n: int, rows: seq<Row>): (out: seq<Row>)
    ensures 0 <= n <= |rows| ==> out == rows[..n]
    ensures n > |rows| ==> out == rows
  {
    if 0 <= n < |rows| then rows[..n] else rows
  }

  /** The text of the list query, executed, gives the first limit + 1 rows of the stream. */
  lemma ExecuteList(p: ListParams, c: Option<ResourcesCursor>, table: seq<Row>)
    requires Usable(p, c)
    ensures ListFragments(p, c) != []
    ensures Execute(ListText(p, c), ListArgs(p, c), table)
         == if p.limit > 0 then FirstRows(p.limit + 1, Stream(p, c, table)) else Stream(p, c, table)
  {
    hide ListText, ReadQuery, Keep, Sort, ListFragments, Reading;
    ListTextReads(p, c);
    if p.limit > 0 {
      assert Arg(ListArgs(p, c), |AllArgs(ListFragments(p, c))| + 1) == Num(p.limit + 1);
    }
  }

  // ----- scanning and trimming -----

  datatype ResourceItem = ResourceItem(
    name: string, uid: string, globalUid: string, namespace: string, group: string, version: string,
    kind: string, resource: string, cluster: string, createdAt: int, updatedAt: int, compositionId: Option<string>,
    raw: Option<string>, statusRaw: Option<string>)

  datatype ListResult = ListResult(count: int, items: seq<ResourceItem>, cursor: EncodedCursor)

  datatype Page = Page(rows: seq<Row>, cursor: EncodedCursor)

  /** The JSON columns are shown on request. */
  function ItemOf(p: ListParams, r: Row): ResourceItem {
    ResourceItem(r.name, r.uid, r.globalUid, r.namespace, r.group, r.version, r.kind, r.plural, r.cluster,
                 r.createdAt, r.updatedAt, r.compositionId,
                 if p.raw then Some(r.raw) else None, if p.statusRaw then r.statusRaw else None)
  }

  /** The item shows the row, field by field; the JSON columns on request. */
  predicate ItemShows(p: ListParams, item: ResourceItem, r: Row) {
    && item.name == r.name && item.uid == r.uid && item.globalUid == r.globalUid && item.namespace == r.namespace
    && item.group == r.group && item.version == r.version && item.kind == r.kind && item.resource == r.plural
    && item.cluster == r.cluster && item.createdAt == r.createdAt && item.updatedAt == r.updatedAt
    && item.compositionId == r.compositionId
    && item.raw == (if p.raw then Some(r.raw) else None)
    && item.statusRaw == (if p.statusRaw then r.statusRaw else None)
  }

  /** The token, decoded, names the row by what the request's sort compares. */
  predicate PointsAt(p: ListParams, token: EncodedCursor, r: Row) {
    var decoded := DecodeCursor(token);
    decoded.Ok? && decoded.value.Some? && Names(decoded.value.value, SortByOf(p), OrderOf(p), RowCursorOf(r))
  }

  /** The result shows the first rows of the answer, all of them or as many as the limit says, and points at the last of
      them exactly when there are more. */
  ghost predicate ResultShows(p: ListParams, result: ListResult, rows: seq<Row>) {
    var n := if 0 < p.limit < |rows| then p.limit else |rows|;
    && result.count == |result.items| == n
    && (forall i :: 0 <= i < n ==> ItemShows(p, result.items[i], rows[i]))
    && (result.cursor == NoCursor <==> n == |rows|)
    && (n < |rows| ==> PointsAt(p, result.cursor, rows[n - 1]))
  }

  function Items(p: ListParams, rows: seq<Row>): (items: seq<ResourceItem>)
    ensures |items| == |rows| && forall i :: 0 <= i < |rows| ==> items[i] == ItemOf(p, rows[i])
  {
    if rows == [] then [] else [ItemOf(p, rows[0])] + Items(p, rows[1..])
  }

  /** The token that points after row r in the request's order. */
  function TokenAfter(p: ListParams, r: Row): EncodedCursor {
    EncodeCursor(Some(BuildCursor(SortByOf(p), OrderOf(p), RowCursorOf(r))))
  }

  /** The page made of an answer with one row more than the limit when there is more. */
  function PageOf(p: ListParams, rows: seq<Row>): Page {
    if 0 < p.limit < |rows| then Page(rows[..p.limit], TokenAfter(p, rows[p.limit - 1])) else Page(rows, NoCursor)
  }

  function ResultOf(p: ListParams, page: Page): ListResult {
    ListResult(|page.rows|, Items(p, page.rows), page.cursor)
  }

  lemma ResultOfShows(p: ListParams, rows: seq<Row>)
    ensures ResultShows(p, ResultOf(p, PageOf(p, rows)), rows)
  {
    hide PointsAt, TokenAfter;
    if 0 < p.limit < |rows| {
      TokenPoints(p, rows[p.limit - 1]);
    }
  }

  /** A result that shows these rows and has the page's token is the page's result. */
  lemma ShownOnce(p: ListParams, rows: seq<Row>, result: ListResult)
    requires ResultShows(p, result, rows) && result.cursor == PageOf(p, rows).cursor
    ensures result == ResultOf(p, PageOf(p, rows))
  {
    hide PointsAt, TokenAfter;
    var shown := PageOf(p, rows).rows;
    assert result.items == Items(p, shown);
  }

  lemma TokenPoints(p: ListParams, r: Row)
    ensures TokenAfter(p, r) != NoCursor && PointsAt(p, TokenAfter(p, r), r)
  {
    var c := BuildCursor(SortByOf(p), OrderOf(p), RowCursorOf(r));
    hide EncodeFields, DecodeCursor, BuildCursor, Names;
    CursorRoundTrip(Some(c));
    OneCursorNames(c, SortByOf(p), OrderOf(p), RowCursorOf(r));
  }

  /** From the whole stream: the first limit rows, and a token after the last of them exactly when a row remains. */
  lemma PageIsExact(p: ListParams, stream: seq<Row>)
    requires p.limit > 0
    ensures var page := PageOf(p, FirstRows(p.limit + 1, stream));
      page.rows == FirstRows(p.limit, stream) &&
      page.cursor == if |stream| > p.limit then TokenAfter(p, stream[p.limit - 1]) else NoCursor
  {
    hide TokenAfter;
    var rows := FirstRows(p.limit + 1, stream);
    if |stream| > p.limit {
      assert rows == stream[..p.limit + 1];
      assert rows[..p.limit] == stream[..p.limit];
    }
  }

  /** The answer to a query in the driver's terms; None is a query, or the scan of its rows, that failed. */
  function DriverAnswer(cs: seq<Column>, rows: Option<seq<Row>>): Option<seq<seq<Value>>> {
    if rows.None? then None else Some(Projected(cs, rows.value))
  }

  /** How the driver answers the queries that are not DISTINCT: with the columns that their text selects. */
  ghost predicate Fetches(fetch: (string, seq<Value>) -> Option<seq<seq<Value>>>,
                          db: (string, seq<Value>) -> Option<seq<Row>>)
  {
    forall text, args ::
      match ReadQuery(text)
      case None => true
      case Some(q) => !q.distinct ==> fetch(text, args) == DriverAnswer(q.columns, db(text, args))
  }

  /** The list, or the error, that a request gets from the database db. */
  function ListOutcome(p: ListParams, db: (string, seq<Value>) -> Option<seq<Row>>): Result<Page, ListError> {
    match ReadyCursor(p)
    case Err(e) => Err(e)
    case Ok(c) =>
      var rows := db(ListText(p, c), ListArgs(p, c));
      if rows.None? then Err(QueryFailed) else Ok(PageOf(p, rows.value))
  }

  /** Runs the list query on a database connection, scans the rows, trims them and builds the cursor. */
  method ListResources(p: ListParams, fetch: (string, seq<Value>) -> Option<seq<seq<Value>>>,
                       ghost db: (string, seq<Value>) -> Option<seq<Row>>)
    returns (r: Result<ListResult, ListError>)
    requires Fetches(fetch, db)
    ensures match ListOutcome(p, db)
      case Err(e) => r == Err(e)
      case Ok(page) => r == Ok(ResultOf(p, page))
    ensures r.Ok? ==>
      var c := ReadyCursor(p);
      c.Ok? && db(ListText(p, c.value), ListArgs(p, c.value)).Some? &&
      ResultShows(p, r.value, db(ListText(p, c.value), ListArgs(p, c.value)).value)
    ensures r.Err? ==>
      var c := ReadyCursor(p);
      if c.Err? then r.error == c.error
      else db(ListText(p, c.value), ListArgs(p, c.value)).None? && r.error == QueryFailed
  {
    hide ListText, ListArgs, ReadyCursor, PageOf, ResultOf, ResultShows, Reading, Projected, ReadQuery;
    var query := ListBuilder.BuildListQuery(p);
    if query.Err? {
      return Err(query.error);
    }
    var answer := fetch(query.value.0, query.value.1);
    ListTextReads(p, ReadyCursor(p).value);
    if answer.None? {
      return Err(QueryFailed);
    }
    var result := ScanAndTrim(p, answer.value, db(query.value.0, query.value.1).value);
    ShownOnce(p, db(query.value.0, query.value.1).value, result);
    r := Ok(result);
  }

  /** Scanning one column into a string, a time or number, or a nullable string. */
  function ScanText(v: Value): string {
    if v.Text? then v.s else ""
  }

  function ScanNum(v: Value): int {
    if v.Num? then v.n else 0
  }

  function ScanNullable(v: Value): Option<string> {
    match v case Text(s) => Some(s) case Uuid(u) => Some(u) case _ => None
  }

  lemma FirstFields(p: ListParams, r: Row)
    ensures var v := Fields(r, ListColumns(p));
      v[0] == Text(r.name) && v[1] == Text(r.uid) && v[2] == Text(r.globalUid) && v[3] == Text(r.namespace) &&
      v[4] == Text(r.group) && v[5] == Text(r.version) && v[6] == Text(r.kind)
  {
    hide Fields;
    FieldsAt(r, ListColumns(p));
  }

  lemma LastFields(p: ListParams, r: Row)
    ensures var v := Fields(r, ListColumns(p));
      v[7] == Text(r.plural) && v[8] == Text(r.cluster) && v[9] == Num(r.createdAt) && v[10] == Num(r.updatedAt) &&
      v[11] == (if r.compositionId.Some? then Uuid(r.compositionId.value) else Null) && v[12] == Num(r.id)
  {
    hide Fields;
    FieldsAt(r, ListColumns(p));
  }

  lemma JsonFields(p: ListParams, r: Row)
    ensures var v := Fields(r, ListColumns(p));
      |v| == 13 + (if p.raw then 1 else 0) + (if p.statusRaw then 1 else 0) &&
      (p.raw ==> v[13] == Text(r.raw)) &&
      (p.statusRaw ==> v[|v| - 1] == if r.statusRaw.Some? then Text(r.statusRaw.value) else Null)
  {
    hide Fields;
    FieldsAt(r, ListColumns(p));
  }

  /** Scanning one row by position. */
  method ScanRow(p: ListParams, v: seq<Value>, ghost r: Row) returns (item: ResourceItem, cursor: RowCursor)
    requires v == Fields(r, ListColumns(p))
    ensures item == ItemOf(p, r) && ItemShows(p, item, r) && cursor == RowCursorOf(r)
  {
    hide Fields;
    FirstFields(p, r);
    LastFields(p, r);
    JsonFields(p, r);
    var name, uid, globalUid, namespace := ScanText(v[0]), ScanText(v[1]), ScanText(v[2]), ScanText(v[3]);
    var group, version, kind, plural := ScanText(v[4]), ScanText(v[5]), ScanText(v[6]), ScanText(v[7]);
    var cluster, createdAt, updatedAt := ScanText(v[8]), ScanNum(v[9]), ScanNum(v[10]);
    var compositionId, id := ScanNullable(v[11]), ScanNum(v[12]);
    var raw, statusRaw, next := None, None, 13;
    if p.raw {
      raw, next := ScanNullable(v[next]), next + 1;
    }
    if p.statusRaw {
      statusRaw := ScanNullable(v[next]);
    }
    item := ResourceItem(name, uid, globalUid, namespace, group, version, kind, plural, cluster,
                         createdAt, updatedAt, compositionId, raw, statusRaw);
    cursor := RowCursor(id, updatedAt, createdAt, globalUid, compositionId, group, version, plural, namespace, name);
  }

  /** The loop that collects items and cursors. */
  method ScanRows(p: ListParams, answer: seq<seq<Value>>, ghost rows: seq<Row>)
    returns (items: seq<ResourceItem>, cursors: seq<RowCursor>)
    requires |answer| == |rows| && forall i :: 0 <= i < |rows| ==> answer[i] == Fields(rows[i], ListColumns(p))
    ensures |items| == |cursors| == |rows|
    ensures forall j :: 0 <= j < |rows| ==> items[j] == ItemOf(p, rows[j]) && cursors[j] == RowCursorOf(rows[j])
  {
    hide Fields, ItemOf, RowCursorOf, ListColumns;
    items, cursors := [], [];
    for i := 0 to |answer|
      invariant |items| == |cursors| == i
      invariant forall j :: 0 <= j < i ==> items[j] == ItemOf(p, rows[j]) && cursors[j] == RowCursorOf(rows[j])
    {
      var item, cursor := ScanRow(p, answer[i], rows[i]);
      items, cursors := items + [item], cursors + [cursor];
    }
  }

  /** Scanning, the trimming of the extra row, and the cursor of the last row kept. */
  method ScanAndTrim(p: ListParams, answer: seq<seq<Value>>, ghost rows: seq<Row>) returns (result: ListResult)
    requires |answer| == |rows| && forall i :: 0 <= i < |rows| ==> answer[i] == Fields(rows[i], ListColumns(p))
    ensures ResultShows(p, result, rows) && result.cursor == PageOf(p, rows).cursor
    ensures result.count == |result.items| == if 0 < p.limit < |rows| then p.limit else |rows|
    ensures forall i :: 0 <= i < |result.items| ==> ItemShows(p, result.items[i], rows[i])
    ensures result.cursor == NoCursor <==> p.limit <= 0 || |rows| <= p.limit
    ensures 0 < p.limit < |rows| ==>
      var decoded := DecodeCursor(result.cursor);
      decoded.Ok? && decoded.value.Some? &&
      Names(decoded.value.value, SortByOf(p), OrderOf(p), RowCursorOf(rows[p.limit - 1]))
  {
    hide BuildCursor, EncodeCursor, NormaliseSortBy, NormaliseSortOrder, Fields, ListColumns, ItemOf, Names,
         Complete, ItemShows, DecodeCursor, RowCursorOf;
    ResultOfShows(p, rows);
    var items, cursors := ScanRows(p, answer, rows);
    var sortBy := NormaliseSortBy(p.sortBy);
    var sortOrder := NormaliseSortOrder(p.sortOrder, sortBy);
    var cursor := NoCursor;
    if p.limit > 0 {
      var hasNextPage := |items| > p.limit;
      if hasNextPage {
        items, cursors := items[..p.limit], cursors[..p.limit];
      }
      if hasNextPage && |cursors| > 0 {
        var last := cursors[|cursors| - 1];
        var next := FillCursor(sortBy, sortOrder, last);
        OneCursorNames(next, sortBy, sortOrder, last);
        cursor := EncodeCursor(Some(next));
      }
    }
    assert items == Items(p, PageOf(p, rows).rows);
    result := ListResult(|items|, items, cursor);
  }

  // ----- requests that continue after a row -----

  /** r comes after the row that the previous page ended with, if there was one. */
  ghost predicate After(p: ListParams, from: Option<Row>, r: Row) {
    from.Some? ==> Before(KeysOf(p), from.value, r)
  }

  /** The cursor of a first request, or of one that continues after a row. */
  function TokenFrom(p: ListParams, from: Option<Row>): EncodedCursor {
    if from.None? then NoCursor else TokenAfter(p, from.value)
  }

  function CursorFrom(p: ListParams, from: Option<Row>): Option<ResourcesCursor> {
    if from.None? then None else Some(BuildCursor(SortByOf(p), OrderOf(p), RowCursorOf(from.value)))
  }

  /** Cursors that the service issued are accepted, and have the fields they need. */
  lemma IssuedCursorAccepted(p: ListParams, from: Option<Row>)
    requires p.cursor == TokenFrom(p, from)
    ensures AcceptedCursor(p) == Ok(CursorFrom(p, from)) && Usable(p, CursorFrom(p, from))
    ensures ReadyCursor(p) == Ok(CursorFrom(p, from))
  {
    CursorRoundTrip(CursorFrom(p, from));
    FromUsable(p, from);
  }

  lemma FromUsable(p: ListParams, from: Option<Row>)
    ensures Usable(p, CursorFrom(p, from))
  {
    if from.Some? {
      BuiltComplete(SortByOf(p), OrderOf(p), RowCursorOf(from.value));
    }
  }

  /** The row of the previous page, if there was one, came from the table. */
  predicate StoredFrom(from: Option<Row>) {
    from.Some? ==> StoredRow(from.value)
  }

  /** The one place where filters are lost: descending composition_id, continuing after a row without one. */
  predicate Leaks(p: ListParams, from: Option<Row>) {
    SortByOf(p).ByCompositionId? && OrderOf(p).Descending? && from.Some? && from.value.compositionId.None?
  }

  /** Whatever the text does with its filters, it keeps every matching row after the cursor, and only rows after it. */
  lemma KeptBetween(p: ListParams, from: Option<Row>, r: Row)
    requires ValidSortBy(p.sortBy) && StoredFrom(from)
    requires Usable(p, CursorFrom(p, from)) && ListFragments(p, CursorFrom(p, from)) != []
    ensures Matches(p, r) && After(p, from, r) ==> Kept(p, CursorFrom(p, from), r)
    ensures Kept(p, CursorFrom(p, from), r) ==> After(p, from, r)
    ensures Kept(p, CursorFrom(p, from), r) && !Leaks(p, from) ==> Matches(p, r)
  {
    var c := CursorFrom(p, from);
    IntendedMeans(p, c, r);
    if from.Some? {
      CursorMeansAfter(SortByOf(p), OrderOf(p), from.value, r);
    }
    if Leaks(p, from) {
      KeptByBareOr(p, c.value, r);
      NullRowBefore(OrderOf(p), from.value, r);
    } else {
      KeptIsIntended(p, c, r);
    }
  }

  lemma NullRowBefore(o: SortOrder, c: Row, r: Row)
    requires o.Descending? && c.compositionId.None?
    ensures Before(SortKeys(ByCompositionId, o), c, r) <==> r.compositionId.Some? || r.id < c.id
  {
    var keys := SortKeys(ByCompositionId, o);
    assert keys[1..] == [SortKey(Id, true, None)];
    IdKeyBefore(o, c, r);
  }

  /** One row after another in a sorted list. */
  lemma OrderedAt(keys: seq<SortKey>, rows: seq<Row>, i: nat, r: Row)
    requires Ordered(keys, rows) && i < |rows| && r in rows
    ensures Before(keys, rows[i], r) <==> r in rows[i + 1..]
  {
    var k :| 0 <= k < |rows| && rows[k] == r;
    if k > i {
      assert rows[i + 1..][k - i - 1] == r;
    }
    if k < i {
      BeforeAsymmetric(keys, r, rows[i]);
    } else if k == i {
      BeforeIrreflexive(keys, r);
    }
    if r in rows[i + 1..] {
      var m :| 0 <= m < |rows[i + 1..]| && rows[i + 1..][m] == r;
      assert rows[i + 1 + m] == r;
    }
  }
}
