/** Runs in which every condition handed to the builder is one conjunct: what the queries are written to mean. */
module ConjunctRuns {
  import opened Common
  import opened Database
  import opened SortedRows
  import opened SqlMeaning
  import opened Sorting
  import opened Cursor
  import opened ListQuery
  import opened Paging
  import opened Requests
  import opened Runs

  /** The rows of which every condition of the request is true, continuing after a row. */
  ghost function IntendedRows(p: ListParams, from: Option<Row>, table: seq<Row>): (rows: seq<Row>)
    requires Usable(p, CursorFrom(p, from))
    ensures forall r :: r in rows <==> r in table && Intended(p, CursorFrom(p, from), r)
  {
    if table == [] then []
    else (if Intended(p, CursorFrom(p, from), table[0]) then [table[0]] else []) + IntendedRows(p, from, table[1..])
  }

  lemma {:induction false} IntendedRowsDistinct(p: ListParams, from: Option<Row>, table: seq<Row>)
    requires Usable(p, CursorFrom(p, from)) && DistinctIds(table)
    ensures DistinctIds(IntendedRows(p, from, table))
  {
    hide Intended, Usable, CursorFrom;
    if table != [] {
      IntendedRowsDistinct(p, from, table[1..]);
      var rest := IntendedRows(p, from, table[1..]);
      forall j | 0 <= j < |rest|
        ensures rest[j].id != table[0].id
      {
        assert rest[j] in table[1..];
      }
    }
  }

  ghost function ConjunctStream(p: ListParams, from: Option<Row>, m: Moment): seq<Row> {
    var q := p.(allowedTargets := AllowedAt(m));
    FromUsable(q, from);
    if AllowedAt(m) == [] then [] else Sort(KeysOf(p), IntendedRows(q, from, m.table))
  }

  /** The pages of a client that follows cursors; page i sees moment i. */
  ghost function ConjunctPages(p: ListParams, from: Option<Row>, moments: seq<Moment>): seq<seq<Row>>
    requires p.limit > 0
    decreases |moments|
  {
    if moments == [] then []
    else
      var s := ConjunctStream(p, from, moments[0]);
      if |s| > p.limit then [s[..p.limit]] + ConjunctPages(p, Some(s[p.limit - 1]), moments[1..]) else [s]
  }

  /** The wanted rows after the starting point, whose targets were discovered: no cursor loses the filters here. */
  lemma ConjunctStreamFacts(p: ListParams, from: Option<Row>, m: Moment)
    requires ValidSortBy(p.sortBy) && StoredFrom(from) && Consistent(p, m)
    ensures Ordered(KeysOf(p), ConjunctStream(p, from, m))
    ensures forall r :: r in ConjunctStream(p, from, m) <==>
      r in m.table && Wanted(p, m.decisions, r) && TargetOf(r) in m.discovered && After(p, from, r)
  {
    hide Ordered, Before, Matches, Wanted, AnswersDiscovery, Intended, BuildCursor, CursorCondition;
    var q := p.(allowedTargets := AllowedAt(m));
    if AllowedAt(m) == [] {
      forall r | Wanted(p, m.decisions, r) && TargetOf(r) in m.discovered
        ensures false
      {
        WantedIsPermitted(p, m, r);
      }
      EmptyOrdered(KeysOf(p));
    } else {
      FromUsable(q, from);
      IntendedRowsDistinct(q, from, m.table);
      SortOrdered(KeysOf(p), IntendedRows(q, from, m.table));
      forall r
        ensures Intended(q, CursorFrom(q, from), r) <==>
          Wanted(p, m.decisions, r) && TargetOf(r) in m.discovered && After(p, from, r)
      {
        IntendedMeans(q, CursorFrom(q, from), r);
        TwoSnapshots(p, m, r);
        if from.Some? {
          CursorMeansAfter(SortByOf(p), OrderOf(p), from.value, r);
        }
      }
    }
  }

  /** What a request sees is the listing after its cursor's row, for every sort. */
  lemma ConjunctStreamIsListing(p: ListParams, from: Option<Row>, m: Moment)
    requires ValidSortBy(p.sortBy) && StoredFrom(from) && Fixed(p, m)
    ensures ConjunctStream(p, from, m) == ListingAt(p, from, m)
  {
    hide ConjunctStream, After, Wanted, Consistent, ListingAt, StoredFrom;
    FixedListing(p, from, m);
    ConjunctStreamFacts(p, from, m);
    forall r
      ensures r in ConjunctStream(p, from, m) <==> r in ListingAt(p, from, m)
    {
      if r in ListingAt(p, from, m) {
        PresentIsDiscovered(p, m, r);
      }
    }
    OrderedUnique(KeysOf(p), ConjunctStream(p, from, m), ListingAt(p, from, m));
  }

  function Joined(pages: seq<seq<Row>>): seq<Row> {
    if pages == [] then [] else pages[0] + Joined(pages[1..])
  }

  /** With every condition as one conjunct, following cursors over a fixed table gives exactly the listing (after the
      row that the run continues after, if any), for every sort column and direction, every filter and every limit. */
  lemma {:induction false} ConjunctRunIsExact(p: ListParams, from: Option<Row>, m: Moment, n: nat)
    requires ValidSortBy(p.sortBy) && p.limit > 0 && StoredFrom(from) && Fixed(p, m)
    requires n >= Pages(|ListingAt(p, from, m)|, p.limit)
    ensures var pages := ConjunctPages(p, from, Always(m, n));
      Joined(pages) == ListingAt(p, from, m) && |pages| == Pages(|ListingAt(p, from, m)|, p.limit)
    decreases n
  {
    hide ConjunctStream, Fixed, ListingAt, StoredRow, Joined;
    var s, moments := ListingAt(p, from, m), Always(m, n);
    ConjunctStreamIsListing(p, from, m);
    if |s| > p.limit {
      var last := s[p.limit - 1];
      var rest := ConjunctPages(p, Some(last), moments[1..]);
      ListingIsStored(p, from, m);
      assert last in s;
      assert moments[1..] == Always(m, n - 1);
      RestOfListing(p, from, m, p.limit);
      ConjunctRunIsExact(p, Some(last), m, n - 1);
      JoinedMore(s[..p.limit], rest);
      assert s[..p.limit] + s[p.limit..] == s;
    } else {
      JoinedMore(s, []);
    }
  }

  lemma ListingIsStored(p: ListParams, from: Option<Row>, m: Moment)
    requires Fixed(p, m)
    ensures forall r :: r in ListingAt(p, from, m) ==> StoredRow(r)
  {
    hide ListingAt, Wanted, After, AnswersDiscovery, StoredRow, DistinctIds, DistinctUids;
    FixedListing(p, from, m);
  }

  // ----- tables that change between pages -----

  lemma ConjunctStored(p: ListParams, from: Option<Row>, m: Moment)
    requires ValidSortBy(p.sortBy) && StoredFrom(from) && Consistent(p, m)
    ensures forall r :: r in ConjunctStream(p, from, m) ==> StoredRow(r)
  {
    hide ConjunctStream, Ordered, Wanted, After, AnswersDiscovery, StoredRow, DistinctIds, DistinctUids;
    ConjunctStreamFacts(p, from, m);
  }

  /** Whatever happens to the table, rows come strictly in order over the whole run. */
  lemma {:induction false} ConjunctIsOrdered(p: ListParams, from: Option<Row>, moments: seq<Moment>)
    requires ValidSortBy(p.sortBy) && p.limit > 0 && StoredFrom(from) && AllConsistent(p, moments)
    ensures Ordered(KeysOf(p), Joined(ConjunctPages(p, from, moments)))
    ensures forall r :: r in Joined(ConjunctPages(p, from, moments)) ==> After(p, from, r)
    decreases |moments|
  {
    hide ConjunctStream, Before, Consistent, KeysOf;
    if moments == [] {
      EmptyOrdered(KeysOf(p));
    } else {
      var s := ConjunctStream(p, from, moments[0]);
      ConjunctStreamFacts(p, from, moments[0]);
      ConjunctStored(p, from, moments[0]);
      if |s| > p.limit {
        var last := s[p.limit - 1];
        var rest := ConjunctPages(p, Some(last), moments[1..]);
        assert last in s;
        ConjunctIsOrdered(p, Some(last), moments[1..]);
        OrderedChain(KeysOf(p), from, s, p.limit, Joined(rest));
        JoinedMore(s[..p.limit], rest);
      } else {
        JoinedMore(s, []);
        assert s + [] == s;
      }
    }
  }

  lemma JoinedMore(page: seq<Row>, rest: seq<seq<Row>>)
    ensures Joined([page] + rest) == page + Joined(rest)
    ensures Joined([page]) == page
  {
    Tail(page, rest);
  }

  /** Every row of page i was, when that page was made, in the table, selected by all filters and permitted,
      for every request. */
  lemma {:induction false} ConjunctReturnsWanted(
      p: ListParams, from: Option<Row>, moments: seq<Moment>, i: nat, r: Row)
    requires ValidSortBy(p.sortBy) && p.limit > 0 && StoredFrom(from) && AllConsistent(p, moments)
    requires i < |ConjunctPages(p, from, moments)| && r in ConjunctPages(p, from, moments)[i]
    ensures i < |moments| && r in moments[i].table && Wanted(p, moments[i].decisions, r)
    decreases |moments|
  {
    hide ConjunctStream, Before, Consistent, Wanted, After;
    var s := ConjunctStream(p, from, moments[0]);
    ConjunctStreamFacts(p, from, moments[0]);
    ConjunctStored(p, from, moments[0]);
    if i > 0 {
      assert s[p.limit - 1] in s;
      ConjunctReturnsWanted(p, Some(s[p.limit - 1]), moments[1..], i - 1, r);
    }
  }

  /** The last page offered no further one. */
  ghost predicate ConjunctCompleted(p: ListParams, from: Option<Row>, moments: seq<Moment>)
    requires p.limit > 0
    decreases |moments|
  {
    moments != [] &&
    var s := ConjunctStream(p, from, moments[0]);
    |s| > p.limit ==> ConjunctCompleted(p, Some(s[p.limit - 1]), moments[1..])
  }

  lemma PresentIsSeen(p: ListParams, from: Option<Row>, m: Moment, r: Row)
    requires ValidSortBy(p.sortBy) && StoredFrom(from) && Consistent(p, m) && Present(p, m, r) && After(p, from, r)
    ensures r in ConjunctStream(p, from, m)
    ensures Ordered(KeysOf(p), ConjunctStream(p, from, m))
    ensures forall x :: x in ConjunctStream(p, from, m) ==> StoredRow(x)
  {
    hide ConjunctStream, After, Consistent, Wanted, StoredRow, Ordered;
    ConjunctStreamFacts(p, from, m);
    ConjunctStored(p, from, m);
    PresentIsDiscovered(p, m, r);
  }

  lemma {:induction false} ConjunctMissesNothing(p: ListParams, from: Option<Row>, moments: seq<Moment>, r: Row)
    requires ValidSortBy(p.sortBy) && p.limit > 0 && StoredFrom(from) && AllConsistent(p, moments)
    requires ConjunctCompleted(p, from, moments) && After(p, from, r)
    requires forall i :: 0 <= i < |moments| ==> Present(p, moments[i], r)
    ensures r in Joined(ConjunctPages(p, from, moments))
    decreases |moments|
  {
    hide ConjunctStream, Before, Consistent, Wanted, KeysOf, Ordered, Joined, StoredRow;
    var s := ConjunctStream(p, from, moments[0]);
    PresentIsSeen(p, from, moments[0], r);
    if |s| > p.limit {
      var last := s[p.limit - 1];
      JoinedMore(s[..p.limit], ConjunctPages(p, Some(last), moments[1..]));
      if r !in s[..p.limit] {
        assert s == s[..p.limit] + s[p.limit..];
        assert last in s;
        OrderedAt(KeysOf(p), s, p.limit - 1, r);
        ConjunctMissesNothing(p, Some(last), moments[1..], r);
      }
    } else {
      JoinedMore(s, []);
    }
  }

  /** For every request, whatever else changes: a row that stays is returned exactly once, provided it comes after the
      row that the run continues after, if any. */
  lemma ConjunctStableRowOnce(p: ListParams, from: Option<Row>, moments: seq<Moment>, r: Row)
    requires ValidSortBy(p.sortBy) && p.limit > 0 && StoredFrom(from) && AllConsistent(p, moments)
    requires ConjunctCompleted(p, from, moments) && After(p, from, r)
    requires forall i :: 0 <= i < |moments| ==> Present(p, moments[i], r)
    ensures multiset(Joined(ConjunctPages(p, from, moments)))[r] == 1
  {
    hide ConjunctPages, ConjunctCompleted, After, Present, AllConsistent, StoredFrom;
    ConjunctMissesNothing(p, from, moments, r);
    ConjunctIsOrdered(p, from, moments);
    OrderedOnce(KeysOf(p), Joined(ConjunctPages(p, from, moments)), r);
  }

  // ----- the rendered text -----

  lemma {:induction false} SameRows(p: ListParams, from: Option<Row>, table: seq<Row>)
    requires Usable(p, CursorFrom(p, from)) && ListFragments(p, CursorFrom(p, from)) != [] && !Leaks(p, from)
    ensures var c := CursorFrom(p, from);
      Keep(ListQueryOf(p, c).where, ListArgs(p, c), table) == IntendedRows(p, from, table)
  {
    hide Intended, Usable, CursorFrom, ListArgs, Leaks, EscapesConjunction, ListFragments, Eval;
    if table != [] {
      NoEscape(p, from);
      KeptIsIntended(p, CursorFrom(p, from), table[0]);
      SameRows(p, from, table[1..]);
    }
  }

  /** It carries over to the rendered text wherever the filters are not lost: both see the same rows. */
  lemma SameStream(p: ListParams, from: Option<Row>, m: Moment)
    requires Continues(p, from) && !Leaks(p, from)
    ensures StreamAt(p, from, m) == ConjunctStream(p, from, m)
  {
    hide Keep, Sort, IntendedRows, ListQueryOf, ListArgs, BuildCursor, EncodeCursor, ListFragments;
    var q := p.(allowedTargets := AllowedAt(m));
    if AllowedAt(m) != [] {
      IssuedCursorAccepted(q, from);
      ExecuteList(q, CursorFrom(q, from), m.table);
      SameRows(q, from, m.table);
    }
  }

  lemma NoEscape(p: ListParams, from: Option<Row>)
    ensures Leaks(p, from) <==> EscapesConjunction(p, CursorFrom(p, from))
  {
  }
}
