/** Whole runs: a client that follows cursors until none is returned. */
module Runs {
  import opened Common
  import opened SqlParser
  import opened Database
  import opened SortedRows
  import opened Sorting
  import opened Cursor
  import opened ListQuery
  import opened Paging
  import opened Rbac
  import opened Requests

  predicate HasNext(r: Response) {
    r.Listed? && r.page.cursor != NoCursor
  }

  function RowsIn(r: Response): seq<Row> {
    if r.Listed? then r.page.rows else []
  }

  /** The responses to a client that repeats its request with each cursor it is given; request i sees moment i. */
  ghost function Run(p: ListParams, moments: seq<Moment>): seq<Response>
    decreases |moments|
  {
    if moments == [] then []
    else
      var response := Respond(p, moments[0]);
      [response] + if HasNext(response) then Run(p.(cursor := response.page.cursor), moments[1..]) else []
  }

  /** The last response offered no further page. */
  ghost predicate Completed(run: seq<Response>) {
    run != [] && !HasNext(run[|run| - 1])
  }

  function Returned(run: seq<Response>): seq<Row> {
    if run == [] then [] else RowsIn(run[0]) + Returned(run[1..])
  }

  ghost predicate AllConsistent(p: ListParams, moments: seq<Moment>) {
    forall i :: 0 <= i < |moments| ==> Consistent(p, moments[i])
  }

  // ----- one request -----

  /** A request that the client may send: valid sort, a limit, and a cursor pointing after a row or none. */
  predicate Continues(p: ListParams, from: Option<Row>) {
    ValidSortBy(p.sortBy) && p.limit > 0 && p.cursor == TokenFrom(p, from) && StoredFrom(from)
  }

  /** The rows that a request would return if its limit were large enough. */
  ghost function StreamAt(p: ListParams, from: Option<Row>, m: Moment): seq<Row>
    requires Continues(p, from)
  {
    var q := p.(allowedTargets := AllowedAt(m));
    IssuedCursorAccepted(q, from);
    ExecuteList(q, CursorFrom(q, from), m.table);
    if AllowedAt(m) == [] then [] else Stream(q, CursorFrom(q, from), m.table)
  }

  /** A response returns the first rows of its stream, and a cursor after the last exactly when a row remains. */
  lemma ResponseIsPage(p: ListParams, from: Option<Row>, m: Moment)
    requires Continues(p, from)
    ensures var s := StreamAt(p, from, m);
      RowsIn(Respond(p, m)) == FirstRows(p.limit, s) &&
      (HasNext(Respond(p, m)) <==> |s| > p.limit) &&
      (|s| > p.limit ==> Respond(p, m).page.cursor == TokenAfter(p, s[p.limit - 1]))
  {
    hide Stream, ReadyCursor, AcceptedCursor, EncodeCursor, BuildCursor, ListText, ListArgs, Execute;
    var q := p.(allowedTargets := AllowedAt(m));
    if AllowedAt(m) != [] {
      var c := CursorFrom(q, from);
      IssuedCursorAccepted(q, from);
      ExecuteList(q, c, m.table);
      PageIsExact(q, Stream(q, c, m.table));
      assert Respond(p, m) == Listed(PageOf(q, FirstRows(q.limit + 1, Stream(q, c, m.table))));
      TokensArePresent(q);
    }
  }

  lemma TokensArePresent(p: ListParams)
    ensures forall r {:trigger TokenAfter(p, r)} :: TokenAfter(p, r) != NoCursor
  {
  }

  /** The stream is sorted, lies after the cursor, misses no wanted row whose target was discovered,
      and holds wanted rows only, unless the cursor is one of those that lose the filters. */
  lemma StreamFacts(p: ListParams, from: Option<Row>, m: Moment)
    requires Continues(p, from) && Consistent(p, m)
    ensures Ordered(KeysOf(p), StreamAt(p, from, m))
    ensures forall r :: r in StreamAt(p, from, m) ==> r in m.table && After(p, from, r)
    ensures forall r ::
      (r in m.table && Wanted(p, m.decisions, r) && TargetOf(r) in m.discovered && After(p, from, r) ==>
       r in StreamAt(p, from, m))
    ensures !Leaks(p, from) ==> forall r :: r in StreamAt(p, from, m) ==> Wanted(p, m.decisions, r)
  {
    hide Stream, Ordered, Before, Matches, Wanted, AnswersDiscovery, Kept, EncodeCursor, BuildCursor;
    var q := p.(allowedTargets := AllowedAt(m));
    if AllowedAt(m) != [] {
      var c := CursorFrom(q, from);
      IssuedCursorAccepted(q, from);
      ExecuteList(q, c, m.table);
      StreamIsSorted(q, c, m.table);
      forall r
        ensures Wanted(p, m.decisions, r) && TargetOf(r) in m.discovered && After(p, from, r) ==> Kept(q, c, r)
        ensures Kept(q, c, r) ==> After(p, from, r) && (!Leaks(p, from) ==> Wanted(p, m.decisions, r))
      {
        KeptBetween(q, from, r);
        TwoSnapshots(p, m, r);
      }
    } else {
      forall r | Wanted(p, m.decisions, r) && TargetOf(r) in m.discovered
        ensures false
      {
        WantedIsPermitted(p, m, r);
      }
      EmptyOrdered(KeysOf(p));
    }
  }

  lemma ContinuesAfter(p: ListParams, from: Option<Row>, r: Row)
    requires Continues(p, from) && StoredRow(r)
    ensures Continues(p.(cursor := TokenAfter(p, r)), Some(r))
  {
    hide EncodeCursor, BuildCursor;
  }

  lemma StreamIsStored(p: ListParams, from: Option<Row>, m: Moment)
    requires Continues(p, from) && Consistent(p, m)
    ensures forall r :: r in StreamAt(p, from, m) ==> StoredRow(r)
  {
    hide StreamAt, Ordered, Wanted, After, AnswersDiscovery, StoredRow, DistinctIds, DistinctUids, Continues;
    StreamFacts(p, from, m);
  }

  lemma WantedIsPermitted(p: ListParams, m: Moment, r: Row)
    requires Wanted(p, m.decisions, r) && TargetOf(r) in m.discovered
    ensures TargetOf(r) in AllowedAt(m)
  {
  }

  lemma EmptyOrdered(keys: seq<SortKey>)
    ensures Ordered(keys, [])
  {
  }

  // ----- all runs, whatever happens to the table between pages -----

  /** The step from a response to the rest of the run. */
  lemma RunStep(p: ListParams, from: Option<Row>, moments: seq<Moment>)
    requires Continues(p, from) && moments != [] && Consistent(p, moments[0])
    ensures var s := StreamAt(p, from, moments[0]);
      Run(p, moments) != [] && RowsIn(Run(p, moments)[0]) == FirstRows(p.limit, s) &&
      if |s| > p.limit then
        var next := p.(cursor := TokenAfter(p, s[p.limit - 1]));
        Continues(next, Some(s[p.limit - 1])) &&
        Run(p, moments)[1..] == Run(next, moments[1..]) &&
        Returned(Run(p, moments)) == s[..p.limit] + Returned(Run(next, moments[1..])) &&
        (Completed(Run(p, moments)) <==> Completed(Run(next, moments[1..])))
      else
        |Run(p, moments)| == 1 && Completed(Run(p, moments)) && Returned(Run(p, moments)) == s
  {
    hide StreamAt, Respond, TokenAfter, Consistent;
    var s, run, response := StreamAt(p, from, moments[0]), Run(p, moments), Respond(p, moments[0]);
    ResponseIsPage(p, from, moments[0]);
    StreamIsStored(p, from, moments[0]);
    if |s| > p.limit {
      assert s[p.limit - 1] in s;
      ContinuesAfter(p, from, s[p.limit - 1]);
      var next := p.(cursor := TokenAfter(p, s[p.limit - 1]));
      var rest := Run(next, moments[1..]);
      assert run == [response] + rest;
      Tail(response, rest);
      assert rest != [] ==> run[|run| - 1] == rest[|rest| - 1];
      assert Completed([response]) == false;
    } else {
      assert run == [response];
      assert run[1..] == [];
    }
  }

  lemma SameRequest(p: ListParams, cursor: EncodedCursor, m: Moment)
    ensures Consistent(p.(cursor := cursor), m) <==> Consistent(p, m)
    ensures forall r :: Wanted(p.(cursor := cursor), m.decisions, r) <==> Wanted(p, m.decisions, r)
    ensures KeysOf(p.(cursor := cursor)) == KeysOf(p)
  {
    assert DiscoverFragments(p.(cursor := cursor)) == DiscoverFragments(p);
  }

  lemma SameRequests(p: ListParams, cursor: EncodedCursor, moments: seq<Moment>)
    requires AllConsistent(p, moments)
    ensures AllConsistent(p.(cursor := cursor), moments)
    ensures moments != [] ==> AllConsistent(p.(cursor := cursor), moments[1..])
  {
    forall i | 0 <= i < |moments|
      ensures Consistent(p.(cursor := cursor), moments[i])
    {
      SameRequest(p, cursor, moments[i]);
    }
  }

  /** Over a whole run rows come strictly in order, all after the starting point: nothing is returned twice. */
  lemma {:induction false} RunIsOrdered(p: ListParams, from: Option<Row>, moments: seq<Moment>)
    requires Continues(p, from) && AllConsistent(p, moments)
    ensures Ordered(KeysOf(p), Returned(Run(p, moments)))
    ensures forall r :: r in Returned(Run(p, moments)) ==> After(p, from, r)
    decreases |moments|
  {
    hide StreamAt, Run, Before, EncodeCursor, BuildCursor, Consistent;
    if moments == [] {
      EmptyRun(p);
    } else {
      var s, keys := StreamAt(p, from, moments[0]), KeysOf(p);
      RunStep(p, from, moments);
      StreamFacts(p, from, moments[0]);
      if |s| > p.limit {
        var last := s[p.limit - 1];
        var next := p.(cursor := TokenAfter(p, last));
        SameRequests(p, next.cursor, moments);
        RunIsOrdered(next, Some(last), moments[1..]);
        OrderedChain(keys, from, s, p.limit, Returned(Run(next, moments[1..])));
      }
    }
  }

  /** The same in the request's own words: of two rows, the one returned first precedes the other by sort_by and
      sort_order, defaults included. */
  lemma RunInRequestedOrder(p: ListParams, from: Option<Row>, moments: seq<Moment>, i: nat, j: nat)
    requires Continues(p, from) && AllConsistent(p, moments) && i < j < |Returned(Run(p, moments))|
    ensures var rows := Returned(Run(p, moments)); Precedes(p.sortBy, p.sortOrder, rows[i], rows[j])
    ensures from.Some? ==> Precedes(p.sortBy, p.sortOrder, from.value, Returned(Run(p, moments))[i])
  {
    hide Continues, AllConsistent, Run, Precedes, Before, SortKeys;
    var rows := Returned(Run(p, moments));
    RunIsOrdered(p, from, moments);
    OrderMeans(p.sortBy, p.sortOrder, rows[i], rows[j]);
    assert rows[i] in rows;
    if from.Some? {
      OrderMeans(p.sortBy, p.sortOrder, from.value, rows[i]);
    }
  }

  // ----- what the client sees -----

  /** The replies to a client that repeats its request with the cursor of each reply until a reply has none. */
  ghost function ClientReplies(p: ListParams, moments: seq<Moment>): seq<Reply>
    decreases |moments|
  {
    if moments == [] then []
    else
      var reply := ReplyOf(p, Respond(p, moments[0]));
      [reply] +
      if reply.Success? && reply.result.cursor != NoCursor then
        ClientReplies(p.(cursor := reply.result.cursor), moments[1..])
      else []
  }

  lemma ReplyCursor(p: ListParams, m: Moment)
    ensures var response, reply := Respond(p, m), ReplyOf(p, Respond(p, m));
      (HasNext(response) <==> reply.Success? && reply.result.cursor != NoCursor) &&
      (HasNext(response) ==> reply.result.cursor == response.page.cursor)
  {
    hide Respond;
  }

  lemma ReplyShows(p: ListParams, cursor: EncodedCursor, response: Response)
    ensures ReplyOf(p.(cursor := cursor), response) == ReplyOf(p, response)
    ensures response.Listed? ==>
      var reply := ReplyOf(p, response);
      reply.Success? && reply.result.count == |reply.result.items| == |response.page.rows| &&
      reply.result.cursor == response.page.cursor &&
      forall i :: 0 <= i < |response.page.rows| ==> ItemShows(p, reply.result.items[i], response.page.rows[i])
  {
    if response.Listed? {
      SameItemsAfter(p, cursor, response.page.rows);
    }
  }

  lemma {:induction false} SameItemsAfter(p: ListParams, cursor: EncodedCursor, rows: seq<Row>)
    ensures Items(p.(cursor := cursor), rows) == Items(p, rows)
  {
    if rows != [] {
      SameItemsAfter(p, cursor, rows[1..]);
    }
  }

  /** The client's replies are those of the run: it goes on as long, with the same cursors, and its items show the
      run's rows, in order. */
  lemma {:induction false} ClientSeesRun(p: ListParams, moments: seq<Moment>)
    ensures |ClientReplies(p, moments)| == |Run(p, moments)|
    ensures forall i :: 0 <= i < |Run(p, moments)| ==> ClientReplies(p, moments)[i] == ReplyOf(p, Run(p, moments)[i])
    decreases |moments|
  {
    hide Respond, ReplyOf;
    if moments != [] {
      var response := Respond(p, moments[0]);
      ReplyCursor(p, moments[0]);
      if HasNext(response) {
        var next := p.(cursor := response.page.cursor);
        ClientSeesRun(next, moments[1..]);
        forall i | 0 < i < |Run(p, moments)|
          ensures ClientReplies(p, moments)[i] == ReplyOf(p, Run(p, moments)[i])
        {
          assert Run(p, moments)[i] == Run(next, moments[1..])[i - 1];
          ReplyShows(p, next.cursor, Run(next, moments[1..])[i - 1]);
        }
      }
    }
  }

  lemma EmptyRun(p: ListParams)
    ensures Returned(Run(p, [])) == []
  {
  }

  lemma OrderedChain(keys: seq<SortKey>, from: Option<Row>, s: seq<Row>, n: int, rest: seq<Row>)
    requires Ordered(keys, s) && 0 < n <= |s| && Ordered(keys, rest)
    requires forall r :: r in s ==> (from.Some? ==> Before(keys, from.value, r))
    requires forall r :: r in rest ==> Before(keys, s[n - 1], r)
    ensures Ordered(keys, s[..n] + rest)
    ensures forall r :: r in s[..n] + rest ==> (from.Some? ==> Before(keys, from.value, r))
  {
    var all := s[..n] + rest;
    forall i, j | 0 <= i < j < |all|
      ensures Before(keys, all[i], all[j])
    {
      if i < n <= j {
        assert rest[j - n] in rest;
        if i < n - 1 {
          BeforeTransitive(keys, s[i], s[n - 1], rest[j - n]);
        }
      }
    }
    forall r | r in rest && from.Some?
      ensures Before(keys, from.value, r)
    {
      assert s[n - 1] in s;
      BeforeTransitive(keys, from.value, s[n - 1], r);
    }
  }

  /** The row exists at the moment of a request, unchanged, and is wanted. */
  ghost predicate Present(p: ListParams, m: Moment, r: Row) {
    r in m.discoveryTable && r in m.table && Wanted(p, m.decisions, r)
  }

  lemma PresentIsDiscovered(p: ListParams, m: Moment, r: Row)
    requires Consistent(p, m) && Present(p, m, r)
    ensures TargetOf(r) in m.discovered
  {
    DiscoveryFinds(p, m.discoveryTable, m.discovered);
    assert Discoverable(p, r);
    assert HasTarget(p, m.discoveryTable, TargetOf(r));
  }

  /** A row that is present throughout a completed run is returned by it. */
  lemma {:induction false} RunMissesNothing(p: ListParams, from: Option<Row>, moments: seq<Moment>, r: Row)
    requires Continues(p, from) && AllConsistent(p, moments) && Completed(Run(p, moments))
    requires (forall i :: 0 <= i < |moments| ==> Present(p, moments[i], r)) && After(p, from, r)
    ensures r in Returned(Run(p, moments))
    decreases |moments|
  {
    hide StreamAt, Run, Before, Ordered, TokenAfter, Consistent, Wanted, Completed, KeysOf;
    if moments == [] {
      EmptyNotCompleted(p);
    } else {
      var s, keys := StreamAt(p, from, moments[0]), KeysOf(p);
      RunStep(p, from, moments);
      StreamFacts(p, from, moments[0]);
      PresentIsDiscovered(p, moments[0], r);
      assert r in s;
      if |s| > p.limit {
        var last := s[p.limit - 1];
        var next := p.(cursor := TokenAfter(p, last));
        if r !in s[..p.limit] {
          assert s == s[..p.limit] + s[p.limit..];
          OrderedAt(keys, s, p.limit - 1, r);
          SameRequest(p, next.cursor, moments[0]);
          SameRequests(p, next.cursor, moments);
          forall i | 0 <= i < |moments[1..]|
            ensures Present(next, moments[1..][i], r)
          {
            SameRequest(p, next.cursor, moments[i + 1]);
          }
          RunMissesNothing(next, Some(last), moments[1..], r);
        }
      }
    }
  }

  lemma EmptyNotCompleted(p: ListParams)
    ensures !Completed(Run(p, [])) && Run(p, []) == []
  {
  }

  lemma {:induction false} OrderedOnce(keys: seq<SortKey>, rows: seq<Row>, r: Row)
    requires Ordered(keys, rows)
    ensures multiset(rows)[r] <= 1
  {
    if rows != [] {
      assert rows == [rows[0]] + rows[1..];
      OrderedOnce(keys, rows[1..], r);
      TailMembers(keys, rows, r);
    }
  }

  /** The table may change arbitrarily between pages: a row that stays is returned exactly once,
      for every sort column and direction, provided it comes after the row that the run continues after, if any. */
  lemma StableRowExactlyOnce(p: ListParams, from: Option<Row>, moments: seq<Moment>, r: Row)
    requires Continues(p, from) && AllConsistent(p, moments) && Completed(Run(p, moments))
    requires (forall i :: 0 <= i < |moments| ==> Present(p, moments[i], r)) && After(p, from, r)
    ensures multiset(Returned(Run(p, moments)))[r] == 1
    ensures Ordered(KeysOf(p), Returned(Run(p, moments)))
  {
    hide Continues, Completed, Run, Present, AllConsistent, After, Ordered;
    RunMissesNothing(p, from, moments, r);
    RunIsOrdered(p, from, moments);
    OrderedOnce(KeysOf(p), Returned(Run(p, moments)), r);
  }

  /** Some name passes both name filters; a request with at most one of them always qualifies. */
  ghost predicate Satisfiable(p: ListParams) {
    p.name == "" || p.nameContains == "" || NameContains(p.name, p.nameContains)
  }

  /** A request whose runs may meet a cursor that loses the filters: descending composition_id, with filters that rows
      without a composition can pass. */
  ghost predicate LeakProne(p: ListParams) {
    SortByOf(p).ByCompositionId? && OrderOf(p).Descending? && p.compositionId == "" && Satisfiable(p)
  }

  /** No request of the run carries a cursor that loses the filters. */
  ghost predicate KeepsFilters(p: ListParams, from: Option<Row>) {
    if from.None? then !LeakProne(p) else !Leaks(p, from)
  }

  lemma StaysSafe(p: ListParams, from: Option<Row>, decisions: Decisions, r: Row)
    requires KeepsFilters(p, from) && Wanted(p, decisions, r) && After(p, from, r)
    ensures KeepsFilters(p, Some(r))
  {
    hide NameContains, ValueLess;
  }

  lemma KeptNow(p: ListParams, from: Option<Row>)
    requires KeepsFilters(p, from)
    ensures !Leaks(p, from)
  {
  }

  /** Every row of page i was, when that page was made, in the table, selected by all filters and permitted, if the run
      starts with a first request that is not leak-prone, or with a cursor that does not lose the filters. */
  lemma {:induction false} RunReturnsWanted(p: ListParams, from: Option<Row>, moments: seq<Moment>, i: nat, r: Row)
    requires Continues(p, from) && AllConsistent(p, moments) && KeepsFilters(p, from)
    requires i < |Run(p, moments)| && r in RowsIn(Run(p, moments)[i])
    ensures i < |moments| && r in moments[i].table && Wanted(p, moments[i].decisions, r)
    decreases |moments|
  {
    hide StreamAt, Run, After, TokenAfter, Consistent, Wanted, KeepsFilters, Leaks, RowsIn;
    if moments == [] {
      EmptyNotCompleted(p);
    } else {
      var s := StreamAt(p, from, moments[0]);
      KeptNow(p, from);
      RunStep(p, from, moments);
      StreamFacts(p, from, moments[0]);
      if i > 0 {
        var last := s[p.limit - 1];
        var next := p.(cursor := TokenAfter(p, last));
        SameRequests(p, next.cursor, moments);
        assert last in s;
        StaysSafe(p, from, moments[0].decisions, last);
        SameLeaks(p, next.cursor, Some(last));
        assert Run(p, moments)[1..][i - 1] == Run(p, moments)[i];
        RunReturnsWanted(next, Some(last), moments[1..], i - 1, r);
        SameRequest(p, next.cursor, moments[i]);
      }
    }
  }

  lemma SameLeaks(p: ListParams, cursor: EncodedCursor, from: Option<Row>)
    ensures LeakProne(p.(cursor := cursor)) == LeakProne(p)
    ensures Leaks(p.(cursor := cursor), from) == Leaks(p, from)
    ensures KeepsFilters(p.(cursor := cursor), from) == KeepsFilters(p, from)
  {
    hide NameContains;
  }

  // ----- runs over a table that does not change -----

  function Always(m: Moment, n: nat): (moments: seq<Moment>)
    ensures |moments| == n && forall i :: 0 <= i < n ==> moments[i] == m
  {
    if n == 0 then [] else [m] + Always(m, n - 1)
  }

  /** The wanted rows of the table that come after a row, if there is one to continue after. */
  ghost function WantedRows(p: ListParams, from: Option<Row>, decisions: Decisions, table: seq<Row>): (rows: seq<Row>)
    ensures |rows| <= |table|
    ensures forall r :: r in rows <==> r in table && Wanted(p, decisions, r) && After(p, from, r)
  {
    if table == [] then []
    else
      (if Wanted(p, decisions, table[0]) && After(p, from, table[0]) then [table[0]] else [])
      + WantedRows(p, from, decisions, table[1..])
  }

  lemma {:induction false} WantedRowsDistinct(p: ListParams, from: Option<Row>, decisions: Decisions, table: seq<Row>)
    requires DistinctIds(table)
    ensures DistinctIds(WantedRows(p, from, decisions, table))
  {
    hide Wanted, After;
    if table != [] {
      WantedRowsDistinct(p, from, decisions, table[1..]);
      var rest := WantedRows(p, from, decisions, table[1..]);
      forall j | 0 <= j < |rest|
        ensures rest[j].id != table[0].id
      {
        assert rest[j] in table[1..];
      }
    }
  }

  /** The listing, from the start or after a row: every wanted row of the table, sorted. */
  ghost function Listing(p: ListParams, from: Option<Row>, decisions: Decisions, table: seq<Row>): (rows: seq<Row>)
    ensures |rows| <= |table|
  {
    Sort(KeysOf(p), WantedRows(p, from, decisions, table))
  }

  lemma ListingFacts(p: ListParams, from: Option<Row>, decisions: Decisions, table: seq<Row>)
    requires DistinctIds(table)
    ensures Ordered(KeysOf(p), Listing(p, from, decisions, table))
    ensures forall r ::
      r in Listing(p, from, decisions, table) <==> r in table && Wanted(p, decisions, r) && After(p, from, r)
  {
    hide Wanted, After, Before;
    WantedRowsDistinct(p, from, decisions, table);
    SortOrdered(KeysOf(p), WantedRows(p, from, decisions, table));
  }

  /** The full descending listing is the reverse of the full ascending one. */
  lemma DescendingListing(p: ListParams, decisions: Decisions, table: seq<Row>)
    requires DistinctIds(table)
    ensures Listing(p.(sortOrder := Descending), None, decisions, table)
         == Reverse(Listing(p.(sortOrder := Ascending), None, decisions, table))
  {
    hide Listing, Ordered, Before, Wanted;
    var up, down := p.(sortOrder := Ascending), p.(sortOrder := Descending);
    ListingFacts(up, None, decisions, table);
    ListingFacts(down, None, decisions, table);
    var rows := Listing(up, None, decisions, table);
    ReverseOrdered(KeysOf(up), rows);
    forall r
      ensures r in Listing(down, None, decisions, table) <==> r in Reverse(rows)
    {
      SameWanted(p, decisions, r);
    }
    DescendingKeys(SortByOf(p));
    OrderedUnique(KeysOf(down), Listing(down, None, decisions, table), Reverse(rows));
  }

  lemma SameWanted(p: ListParams, decisions: Decisions, r: Row)
    ensures Wanted(p.(sortOrder := Ascending), decisions, r) <==> Wanted(p.(sortOrder := Descending), decisions, r)
  {
  }

  /** Discovery and the list query see the same table. */
  ghost predicate Fixed(p: ListParams, m: Moment) {
    Consistent(p, m) && m.discoveryTable == m.table
  }

  ghost function ListingAt(p: ListParams, from: Option<Row>, m: Moment): (rows: seq<Row>)
    ensures |rows| <= |m.table|
  {
    Listing(p, from, m.decisions, m.table)
  }

  lemma FixedListing(p: ListParams, from: Option<Row>, m: Moment)
    requires Fixed(p, m)
    ensures Consistent(p, m)
    ensures Ordered(KeysOf(p), ListingAt(p, from, m))
    ensures forall r ::
      r in ListingAt(p, from, m) <==> r in m.table && Wanted(p, m.decisions, r) && After(p, from, r)
  {
    hide Listing, Wanted, Ordered, AnswersDiscovery, After;
    ListingFacts(p, from, m.decisions, m.table);
  }

  /** What a request sees is the listing after its cursor's row. */
  lemma StreamIsListing(p: ListParams, from: Option<Row>, m: Moment)
    requires Fixed(p, m) && Continues(p, from) && !Leaks(p, from)
    ensures StreamAt(p, from, m) == ListingAt(p, from, m)
  {
    hide StreamAt, After, Wanted, TokenAfter, Consistent, ListingAt, Leaks;
    FixedListing(p, from, m);
    StreamFacts(p, from, m);
    forall r
      ensures r in StreamAt(p, from, m) <==> r in ListingAt(p, from, m)
    {
      if r in ListingAt(p, from, m) {
        PresentIsDiscovered(p, m, r);
      }
    }
    OrderedUnique(KeysOf(p), StreamAt(p, from, m), ListingAt(p, from, m));
  }

  /** The listing after row k - 1 of a listing is the rest of it. */
  lemma RestOfListing(p: ListParams, from: Option<Row>, m: Moment, k: nat)
    requires Fixed(p, m) && 0 < k <= |ListingAt(p, from, m)|
    ensures ListingAt(p, Some(ListingAt(p, from, m)[k - 1]), m) == ListingAt(p, from, m)[k..]
  {
    hide ListingAt, Wanted, Consistent, Before, KeysOf;
    var s := ListingAt(p, from, m);
    var rest := ListingAt(p, Some(s[k - 1]), m);
    FixedListing(p, from, m);
    FixedListing(p, Some(s[k - 1]), m);
    assert s[k - 1] in s;
    forall r
      ensures r in rest <==> r in s[k..]
    {
      if r in s {
        OrderedAt(KeysOf(p), s, k - 1, r);
      } else if r in rest {
        AfterChain(p, from, s[k - 1], r);
      }
    }
    OrderedUnique(KeysOf(p), rest, s[k..]);
  }

  lemma AfterChain(p: ListParams, from: Option<Row>, a: Row, b: Row)
    requires After(p, from, a) && After(p, Some(a), b)
    ensures After(p, from, b)
  {
    hide Before;
    if from.Some? {
      BeforeTransitive(KeysOf(p), from.value, a, b);
    }
  }

  /** How many pages of l rows it takes to list n rows; an empty listing still takes one. */
  function Pages(n: nat, l: nat): (k: nat)
    requires l > 0
    ensures k >= 1
  {
    if n <= l then 1 else 1 + Pages(n - l, l)
  }

  lemma {:induction false} PagesIsCeiling(n: nat, l: nat)
    requires l > 0
    ensures (Pages(n, l) - 1) * l < n <= Pages(n, l) * l || (n == 0 && Pages(n, l) == 1)
  {
    if n > l {
      PagesIsCeiling(n - l, l);
      assert Pages(n, l) * l == Pages(n - l, l) * l + l;
    }
  }

  /** The first page of a run and what it leaves to the rest. */
  lemma FixedRunStep(p: ListParams, from: Option<Row>, m: Moment, moments: seq<Moment>)
    requires Fixed(p, m) && Continues(p, from) && KeepsFilters(p, from) && moments != [] && moments[0] == m
    ensures var s, run := ListingAt(p, from, m), Run(p, moments);
      if |s| > p.limit then
        var next := p.(cursor := TokenAfter(p, s[p.limit - 1]));
        Continues(next, Some(s[p.limit - 1])) && KeepsFilters(next, Some(s[p.limit - 1])) && Fixed(next, m) &&
        ListingAt(next, Some(s[p.limit - 1]), m) == s[p.limit..] &&
        |run| == 1 + |Run(next, moments[1..])| &&
        Returned(run) == s[..p.limit] + Returned(Run(next, moments[1..])) &&
        (Completed(run) <==> Completed(Run(next, moments[1..])))
      else
        |run| == 1 && Completed(run) && Returned(run) == s
  {
    hide StreamAt, Wanted, Consistent, Ordered, ListingAt, KeepsFilters, Leaks, Run, Completed, TokenAfter, After;
    KeptNow(p, from);
    StreamIsListing(p, from, m);
    RunStep(p, from, moments);
    var s := ListingAt(p, from, m);
    if |s| > p.limit {
      var last := s[p.limit - 1];
      var next := p.(cursor := TokenAfter(p, last));
      FixedListing(p, from, m);
      assert last in s;
      StaysSafe(p, from, m.decisions, last);
      SameLeaks(p, next.cursor, Some(last));
      SameListing(p, Some(last), next.cursor, m);
      RestOfListing(p, from, m, p.limit);
      assert |Run(p, moments)| == 1 + |Run(p, moments)[1..]|;
    }
  }

  /** On a fixed table, following cursors returns exactly the sorted list of all wanted rows (after the row that the
      run continues after, if any), in max(1, ceil(n / limit)) pages (see PagesIsCeiling), and stops. */
  lemma {:induction false} FixedRunIsExact(p: ListParams, from: Option<Row>, m: Moment, n: nat)
    requires Continues(p, from) && Fixed(p, m) && KeepsFilters(p, from)
    requires n >= Pages(|ListingAt(p, from, m)|, p.limit)
    ensures var run := Run(p, Always(m, n));
      Completed(run) && Returned(run) == ListingAt(p, from, m) &&
      |run| == Pages(|ListingAt(p, from, m)|, p.limit)
    decreases n
  {
    hide Fixed, ListingAt, KeepsFilters, Run, Completed, Continues, TokenAfter, Returned;
    PositiveLimit(p, from);
    var s, moments := ListingAt(p, from, m), Always(m, n);
    FixedRunStep(p, from, m, moments);
    if |s| > p.limit {
      var next := p.(cursor := TokenAfter(p, s[p.limit - 1]));
      assert moments[1..] == Always(m, n - 1);
      FixedRunIsExact(next, Some(s[p.limit - 1]), m, n - 1);
      assert s[..p.limit] + s[p.limit..] == s;
    }
  }

  lemma PositiveLimit(p: ListParams, from: Option<Row>)
    requires Continues(p, from)
    ensures p.limit > 0
  {
  }

  lemma SameListing(p: ListParams, from: Option<Row>, cursor: EncodedCursor, m: Moment)
    requires Fixed(p, m)
    ensures Fixed(p.(cursor := cursor), m)
    ensures ListingAt(p.(cursor := cursor), from, m) == ListingAt(p, from, m)
  {
    hide Wanted, Consistent, After;
    SameRequest(p, cursor, m);
    SameWantedRows(p, from, cursor, m, m.table);
  }

  lemma {:induction false} SameWantedRows(
      p: ListParams, from: Option<Row>, cursor: EncodedCursor, m: Moment, table: seq<Row>)
    ensures WantedRows(p.(cursor := cursor), from, m.decisions, table) == WantedRows(p, from, m.decisions, table)
  {
    hide Wanted, Before;
    if table != [] {
      SameRequest(p, cursor, m);
      SameWantedRows(p, from, cursor, m, table[1..]);
    }
  }

  // ----- every run on a fixed table stops -----

  ghost function RowsAfter(p: ListParams, from: Option<Row>, table: seq<Row>): set<Row> {
    set r | r in table && After(p, from, r)
  }

  /** Leak or no leak, each page moves past at least one more row of the table. */
  lemma {:induction false} FixedRunStops(p: ListParams, from: Option<Row>, m: Moment, n: nat)
    requires Continues(p, from) && Consistent(p, m) && n > |RowsAfter(p, from, m.table)|
    ensures Completed(Run(p, Always(m, n)))
    decreases n
  {
    hide StreamAt, Before, TokenAfter, Consistent, Run, Completed, Ordered, KeysOf, Wanted;
    PositiveLimit(p, from);
    var s, moments := StreamAt(p, from, m), Always(m, n);
    RunStep(p, from, moments);
    StreamFacts(p, from, m);
    if |s| > p.limit {
      var last := s[p.limit - 1];
      var next := p.(cursor := TokenAfter(p, last));
      assert last in s;
      SameRequest(p, next.cursor, m);
      FewerAfter(p, from, last, m.table);
      assert RowsAfter(next, Some(last), m.table) == RowsAfter(p, Some(last), m.table);
      assert moments[1..] == Always(m, n - 1);
      FixedRunStops(next, Some(last), m, n - 1);
    }
  }

  lemma FewerAfter(p: ListParams, from: Option<Row>, last: Row, table: seq<Row>)
    requires last in table && After(p, from, last)
    ensures |RowsAfter(p, Some(last), table)| < |RowsAfter(p, from, table)|
  {
    hide Before;
    var a, b := RowsAfter(p, Some(last), table), RowsAfter(p, from, table);
    BeforeIrreflexive(KeysOf(p), last);
    forall r | r in a
      ensures r in b
    {
      if from.Some? {
        BeforeTransitive(KeysOf(p), from.value, last, r);
      }
    }
    assert last in b && last !in a;
    SmallerSet(a, b, last);
  }

  lemma SmallerSet<T>(a: set<T>, b: set<T>, x: T)
    requires a <= b && x in b && x !in a
    ensures |a| < |b|
  {
    assert |b - a| + |a| == |b| by { assert b == (b - a) + a; }
    assert x in b - a;
  }
}
