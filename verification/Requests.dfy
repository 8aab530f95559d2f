/** One list request: discovery, permission filtering, the list query, and the two early exits. */
module Requests {
  import opened Common
  import opened SqlTokens
  import opened SqlParser
  import opened Database
  import opened SqlMeaning
  import opened QueryBuilder
  import opened Fragments
  import opened Cursor
  import opened ListQuery
  import opened Paging
  import opened Rbac
  import ListBuilder

  datatype Response =
    | Listed(page: Page)
    | NothingFound
    | Forbidden
    | Failed(error: ListError)

  /** The answer to a request, given what discovery found (None when its query fails), what is permitted, and the
      database. */
  function ResponseTo(p: ListParams, found: Option<seq<ResourceTarget>>, decisions: Decisions,
                      db: (string, seq<Value>) -> Option<seq<Row>>): Response
  {
    if found.None? then Failed(QueryFailed)
    else if found.value == [] then NothingFound
    else
      var allowed := PermittedTargets(found.value, decisions);
      if allowed == [] then Forbidden
      else match ListOutcome(p.(allowedTargets := allowed), db)
        case Err(e) => Failed(e)
        case Ok(page) => Listed(page)
  }

  /** What the client sees. Every error of a query or a cursor becomes an internal error; a panic ends the request. */
  datatype Reply = Success(result: ListResult) | Denied | InternalError | Crashed

  /** Nothing found is an empty success, not an error. */
  function ReplyOf(p: ListParams, r: Response): Reply {
    match r
    case Listed(page) => Success(ResultOf(p, page))
    case NothingFound => Success(ListResult(0, [], NoCursor))
    case Forbidden => Denied
    case Failed(e) => if e.NilDereference? then Crashed else InternalError
  }

  /** Some discovered target is one that the user may get. */
  ghost predicate SomeAllowed(found: seq<ResourceTarget>, decisions: Decisions) {
    exists t :: t in found && Decided(decisions, UserCanTarget("get", t.group, t.resource, t.namespace))
  }

  /** The list query of a request with these targets, and the rows that the database answers with. */
  function ListAnswer(p: ListParams, allowed: seq<ResourceTarget>, db: (string, seq<Value>) -> Option<seq<Row>>)
    : Option<seq<Row>>
    requires ReadyCursor(p.(allowedTargets := allowed)).Ok?
  {
    var q := p.(allowedTargets := allowed);
    db(ListText(q, ReadyCursor(q).value), ListArgs(q, ReadyCursor(q).value))
  }

  /** The reply to a request, case by case: what was discovered, what is permitted, the cursor and the database
      decide. */
  ghost predicate Replies(p: ListParams, found: Option<seq<ResourceTarget>>, decisions: Decisions,
                          db: (string, seq<Value>) -> Option<seq<Row>>, reply: Reply)
  {
    var reached := found.Some? && SomeAllowed(found.value, decisions);
    var allowed := if found.Some? then PermittedTargets(found.value, decisions) else [];
    var ready := ReadyCursor(p.(allowedTargets := allowed));
    && (reply == InternalError <==>
        found.None? ||
        (reached && if ready.Err? then ready.error != NilDereference else ListAnswer(p, allowed, db).None?))
    && (reply == Crashed <==> reached && ready == Err(NilDereference))
    && (reply == Denied <==> found.Some? && found.value != [] && !reached)
    && (reply.Success? <==> found == Some([]) || (reached && ready.Ok? && ListAnswer(p, allowed, db).Some?))
    && (found == Some([]) ==> reply == Success(ListResult(0, [], NoCursor)))
    && (reached && ready.Ok? && ListAnswer(p, allowed, db).Some? ==>
        reply.Success? && ResultShows(p, reply.result, ListAnswer(p, allowed, db).value))
  }

  lemma ReplyIs(p: ListParams, found: Option<seq<ResourceTarget>>, decisions: Decisions,
                db: (string, seq<Value>) -> Option<seq<Row>>)
    ensures Replies(p, found, decisions, db, ReplyOf(p, ResponseTo(p, found, decisions, db)))
  {
    hide ReadyCursor, ListText, ListArgs, ResultOf, ResultShows, PageOf;
    if found.Some? {
      var allowed := PermittedTargets(found.value, decisions);
      assert allowed != [] ==> allowed[0] in allowed;
      var q := p.(allowedTargets := allowed);
      if allowed != [] && ReadyCursor(q).Ok? && ListAnswer(p, allowed, db).Some? {
        var rows := ListAnswer(p, allowed, db).value;
        SamePage(p, allowed, rows);
        ResultOfShows(p, rows);
      }
    }
  }

  lemma SamePage(p: ListParams, allowed: seq<ResourceTarget>, rows: seq<Row>)
    ensures PageOf(p.(allowedTargets := allowed), rows) == PageOf(p, rows)
  {
    hide EncodeCursor, BuildCursor;
  }

  function AllTargetValues(targets: seq<ResourceTarget>): (answer: seq<seq<Value>>)
    ensures |answer| == |targets| && forall i :: 0 <= i < |targets| ==> answer[i] == TargetValues(targets[i])
  {
    if targets == [] then [] else [TargetValues(targets[0])] + AllTargetValues(targets[1..])
  }

  /** The driver's answer to the discovery query. */
  function FoundAnswer(found: Option<seq<ResourceTarget>>): Option<seq<seq<Value>>> {
    if found.None? then None else Some(AllTargetValues(found.value))
  }

  /** Runs the discovery query and scans the triples by position. */
  method DiscoverTargets(p: ListParams, fetch: (string, seq<Value>) -> Option<seq<seq<Value>>>,
                         ghost found: Option<seq<ResourceTarget>>)
    returns (targets: Option<seq<ResourceTarget>>)
    requires fetch(DiscoverText(p), DiscoverArgs(p)) == FoundAnswer(found)
    ensures targets == found
  {
    hide DiscoverFragments, AllTargetValues, HeadTokens, Show, RenderText, Texts, AllArgs;
    var text, args := ListBuilder.BuildDiscoverQuery(p);
    var answer := fetch(text, args);
    if answer.None? {
      return None;
    }
    var rows, collected := answer.value, [];
    for i := 0 to |rows|
      invariant collected == found.value[..i]
    {
      assert rows[i] == TargetValues(found.value[i]);
      var target := ResourceTarget(ScanText(rows[i][0]), ScanText(rows[i][1]), ScanText(rows[i][2]));
      collected := collected + [target];
    }
    assert found.value[..|rows|] == found.value;
    targets := Some(collected);
  }

  /** The phases of the list handler, in order. */
  method HandleResources(
      p: ListParams, fetch: (string, seq<Value>) -> Option<seq<seq<Value>>>, userCan: seq<UserCanTarget> -> Decisions,
      ghost found: Option<seq<ResourceTarget>>, ghost db: (string, seq<Value>) -> Option<seq<Row>>)
    returns (reply: Reply)
    requires fetch(DiscoverText(p), DiscoverArgs(p)) == FoundAnswer(found) && Fetches(fetch, db)
    ensures found.None? ==> reply == InternalError
    ensures found.Some? ==>
      var decisions := userCan(AskedFor(found.value));
      reply == ReplyOf(p, ResponseTo(p, found, decisions, db)) && Replies(p, found, decisions, db, reply)
  {
    hide ListOutcome, DiscoverFragments, Fetches, AllTargetValues, Items, Replies, ResultShows;
    var answer := DiscoverTargets(p, fetch, found);
    if answer.None? {
      return InternalError;
    }
    ReplyIs(p, found, userCan(AskedFor(answer.value)), db);
    var discovered := answer.value;
    if |discovered| == 0 {
      return Success(ListResult(0, [], NoCursor));
    }
    var allowed, asked := FilterAllowed(discovered, userCan);
    assert asked == AskedFor(discovered);
    if |allowed| == 0 {
      return Denied;
    }
    var params := p.(allowedTargets := allowed);
    var result := ListResources(params, fetch, db);
    match result {
      case Ok(list) =>
        SameItems(p, allowed, ListOutcome(params, db).value.rows);
        reply := Success(list);
      case Err(e) => reply := if e.NilDereference? then Crashed else InternalError;
    }
  }

  lemma {:induction false} SameItems(p: ListParams, allowed: seq<ResourceTarget>, rows: seq<Row>)
    ensures Items(p.(allowedTargets := allowed), rows) == Items(p, rows)
  {
    if rows != [] {
      SameItems(p, allowed, rows[1..]);
    }
  }

  /** A cursor that is malformed, or that belongs to another sort, is an internal error when the list query is reached;
      an empty success or a denial comes first. */
  lemma BadCursorReply(p: ListParams, found: Option<seq<ResourceTarget>>, decisions: Decisions,
                       db: (string, seq<Value>) -> Option<seq<Row>>)
    requires AcceptedCursor(p).Err?
    ensures var reply := ReplyOf(p, ResponseTo(p, found, decisions, db));
      (reply == InternalError <==> found.None? || SomeAllowed(found.value, decisions)) &&
      (reply == Success(ListResult(0, [], NoCursor)) <==> found == Some([])) &&
      (reply == Denied <==> found.Some? && found.value != [] && !SomeAllowed(found.value, decisions))
  {
    hide AcceptedCursor;
    if found.Some? && found.value != [] {
      var allowed := PermittedTargets(found.value, decisions);
      SameReadyCursor(p, allowed);
      assert allowed != [] ==> allowed[0] in allowed;
    }
  }

  lemma SameReadyCursor(p: ListParams, allowed: seq<ResourceTarget>)
    ensures AcceptedCursor(p.(allowedTargets := allowed)) == AcceptedCursor(p)
    ensures ReadyCursor(p.(allowedTargets := allowed)) == ReadyCursor(p)
  {
    hide DecodeCursor, ValidateCursorSort;
  }

  // ----- what a request sees -----

  function DiscoverText(p: ListParams): string {
    RenderText(Show(HeadTokens(true, TARGET_COLUMNS)), Texts(DiscoverFragments(p)), "", false)
  }

  function DiscoverArgs(p: ListParams): seq<Value> {
    AllArgs(DiscoverFragments(p))
  }

  /** Some row of the table is kept by the query and holds the target t in its selected columns. */
  ghost predicate Found(q: Query, args: seq<Value>, table: seq<Row>, t: ResourceTarget) {
    exists r :: r in table && Eval(q.where, args, r) == True && Fields(r, q.columns) == TargetValues(t)
  }

  /** The database answers the text with a row that holds the target t. */
  ghost predicate AnswerHolds(text: string, args: seq<Value>, table: seq<Row>, t: ResourceTarget) {
    match ReadQuery(text)
    case None => false
    case Some(q) => q.distinct && q.limit.None? && Found(q, args, table, t)
  }

  /** A possible answer to the discovery query, in any order. */
  ghost predicate AnswersDiscovery(p: ListParams, table: seq<Row>, targets: seq<ResourceTarget>) {
    forall t :: t in targets <==> AnswerHolds(DiscoverText(p), DiscoverArgs(p), table, t)
  }

  /** Some discoverable row of the table has the target t. */
  ghost predicate HasTarget(p: ListParams, table: seq<Row>, t: ResourceTarget) {
    exists r :: r in table && Discoverable(p, r) && TargetOf(r) == t
  }

  /** The text of the discovery query finds the targets of the discoverable rows, no more and no fewer. */
  lemma DiscoveryFinds(p: ListParams, table: seq<Row>, targets: seq<ResourceTarget>)
    ensures AnswersDiscovery(p, table, targets) <==> forall t :: t in targets <==> HasTarget(p, table, t)
  {
    hide Show, Texts, HeadTokens, RenderText, Reading, DiscoverFragments, ReadQuery, AllArgs, AllTrue, Eval,
         Discoverable, Fields;
    var fs := DiscoverFragments(p);
    DiscoverSound(p);
    RenderedTokens(true, TARGET_COLUMNS, fs, [], "", false);
    forall t
      ensures AnswerHolds(DiscoverText(p), DiscoverArgs(p), table, t) <==> HasTarget(p, table, t)
    {
      forall r
        ensures Eval(Reading(fs, 0), DiscoverArgs(p), r) == True <==> Discoverable(p, r)
        ensures Fields(r, TARGET_COLUMNS) == TargetValues(t) <==> TargetOf(r) == t
      {
        SafeReading(fs, [], [], r);
        DiscoverMeans(p, r);
        FieldsOfTarget(r);
        assert [] + AllArgs(fs) + [] == AllArgs(fs);
      }
    }
  }

  /** What one request sees: a snapshot for discovery, its answer, the permissions, and a snapshot for the list. */
  datatype Moment = Moment(
    discoveryTable: seq<Row>, discovered: seq<ResourceTarget>, decisions: Decisions, table: seq<Row>)

  ghost predicate Consistent(p: ListParams, m: Moment) {
    Stored(m.discoveryTable) && Stored(m.table) && AnswersDiscovery(p, m.discoveryTable, m.discovered)
  }

  function AllowedAt(m: Moment): seq<ResourceTarget> {
    PermittedTargets(m.discovered, m.decisions)
  }

  ghost function Respond(p: ListParams, m: Moment): Response {
    ResponseTo(p, Some(m.discovered), m.decisions, (text, args) => Some(Execute(text, args, m.table)))
  }

  // ----- the restriction to targets is the plain filter -----

  /** All filters of the request, resource and namespace included, and active. */
  ghost predicate Selected(p: ListParams, r: Row) {
    && Matches(p.(allowedTargets := []), r)
    && (p.resourcePlural != "" ==> r.plural == p.resourcePlural)
    && (p.namespace != "" ==> r.namespace == p.namespace)
  }

  /** What the user asked for and may see. */
  ghost predicate Wanted(p: ListParams, decisions: Decisions, r: Row) {
    Selected(p, r) && Permitted(decisions, TargetOf(r))
  }

  /** Whatever changed between discovery and the list query, a row that passes the list filters is wanted,
      and a wanted row whose target was discovered passes them. */
  lemma TwoSnapshots(p: ListParams, m: Moment, r: Row)
    requires AnswersDiscovery(p, m.discoveryTable, m.discovered) && AllowedAt(m) != []
    ensures Matches(p.(allowedTargets := AllowedAt(m)), r) <==>
      Wanted(p, m.decisions, r) && TargetOf(r) in m.discovered
  {
    hide AnswersDiscovery, NameContains;
    DiscoveryFinds(p, m.discoveryTable, m.discovered);
    if TargetOf(r) in m.discovered {
      assert HasTarget(p, m.discoveryTable, TargetOf(r));
      var s :| s in m.discoveryTable && Discoverable(p, s) && TargetOf(s) == TargetOf(r);
      assert s.plural == r.plural && s.namespace == r.namespace;
    }
  }

  /** On one snapshot, discovery, permission filtering and the IN list amount to the one-pass filter. */
  lemma OneSnapshot(p: ListParams, m: Moment, r: Row)
    requires AnswersDiscovery(p, m.discoveryTable, m.discovered) && r in m.discoveryTable
    ensures Wanted(p, m.decisions, r) ==> AllowedAt(m) != []
    ensures AllowedAt(m) != [] ==> (Matches(p.(allowedTargets := AllowedAt(m)), r) <==> Wanted(p, m.decisions, r))
  {
    if Selected(p, r) {
      assert Discoverable(p, r);
      DiscoveryFinds(p, m.discoveryTable, m.discovered);
      assert HasTarget(p, m.discoveryTable, TargetOf(r));
      assert TargetOf(r) in m.discovered;
    }
    if Wanted(p, m.decisions, r) {
      assert TargetOf(r) in AllowedAt(m);
    }
    if AllowedAt(m) != [] {
      TwoSnapshots(p, m, r);
    }
  }

  /** Without the exit for no allowed target, the filters would agree with the user's wishes only on tables where
      nothing matches them: an empty list restricts nothing. */
  lemma EmptyListRestrictsNothing(p: ListParams, m: Moment)
    requires AnswersDiscovery(p, m.table, m.discovered) && AllowedAt(m) == []
    ensures var q := p.(allowedTargets := AllowedAt(m));
      (forall r :: r in m.table ==> (Matches(q, r) <==> Wanted(p, m.decisions, r)))
        <==> forall r :: r in m.table ==> !Matches(q, r)
  {
    var same := m.(discoveryTable := m.table);
    forall r | r in m.table
      ensures !Wanted(p, m.decisions, r)
    {
      OneSnapshot(p, same, r);
    }
  }
}
