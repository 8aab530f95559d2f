# Verified model of the resources presenter's list endpoint

The service lists Kubernetes resources from the table `krateo_resources`. A list request is answered in three
steps: discover which (group, resource, namespace) triples match, keep the permitted ones, and run a query limited
to them. Pages are linked by cursors that name the last row returned (keyset pagination). This project models that
path from the request to whole client runs, and the characters of the SQL text in between.

The text is not taken on trust. `QueryBuilder` writes it as the service does, `SqlLexer` and `SqlParser` read it back
with AND binding tighter than OR (PostgreSQL documentation, section 4.1.6), and `SqlMeaning` evaluates it in
three-valued logic (row comparison as in ISO/IEC 9075-2, section 8.2). The database in the run theorems receives text
and arguments, nothing else, and answers with rows of the table. The methods `ListResources`, `DiscoverTargets` and
`HandleResources` get those rows as the driver hands them over, the selected columns by position. Tables satisfy the
constraints of `assets/resources.schema.sql`: unique positive ids, unique global_uid, UUIDs in composition_id. Text
columns are compared by a collation of which only one thing is known, that it is a strict total order, and ILIKE folds
case by a fold of which only one thing is known, that it respects `%`, `_` and backslash. UUIDs are compared by their
bytes, and UUID arguments are read in either case of letters.

| module | part |
|---|---|
| `Common` | Option, Result |
| `SqlTokens`, `SqlLexer`, `SqlParser` | tokens and their spelling, reading characters, reading tokens |
| `Database`, `SortedRows`, `SqlMeaning` | rows and values, ORDER BY, the meaning of conditions and queries |
| `Like` | LIKE matching and escaping |
| `QueryBuilder`, `Fragments`, `QueryTexts` | the builder, conditions with their arguments, the texts put together from strings |
| `Sorting`, `Cursor` | sort columns and directions; cursors, tokens, cursor conditions |
| `ListQuery`, `WrittenTexts` | the two queries, and their texts written out |
| `ListBuilder`, `Paging` | the code that builds the queries, one page |
| `Rbac`, `Requests` | permission batches, the phases of one request |
| `Runs`, `LeakyRuns`, `ConjunctRuns` | whole runs of a client |

## Main results

- The rows of a run come in the order that `sort_by` and `sort_order` ask for, empty values included, stated on the
  fields of the rows (`Runs.RunInRequestedOrder`).
- The text of both queries is pinned to the words of the service: columns, conditions, ORDER BY clauses and cursor
  conditions (`WrittenTexts.ListWritten`, `ListBuilder.BuildDiscoverQuery`).
- A row that stays in the table, wanted and permitted, during a completed run is returned exactly once, in strict
  order, however the rest of the table changes between pages, for all sort columns and directions
  (`Runs.StableRowExactlyOnce`).
- Some cursors lose the filters. After a row without `composition_id`, the descending cursor condition has an
  unparenthesised OR (`internal/sql/cursor.go:206`), and the builder adds no parentheses: for exactly these cursors the
  text does not mean the conjunction (`ListQuery.TextIsConjunctionExactly`), and it keeps every row that has a
  `composition_id`.
- A request returns wanted rows only, and rows that the user may get only, on all tables, if and only if it does not
  carry such a cursor (`LeakyRuns.RequestIsSoundExactly`). This holds for any token, hand-made ones and those issued to
  other requests included; a `composition_id` filter does not help (`LeakyRuns.FilteredRequestMayLose`).
- A run has the same guarantee if and only if its first request carries no such cursor and, when it carries none at
  all, is not leak-prone (`LeakyRuns.RunsAreSoundExactly`). A request is leak-prone when it sorts by `composition_id`
  descending, has no `composition_id` filter, and its name filters do not exclude each other: one of its next pages can
  then carry such a cursor. The failing inputs are tables that the schema allows, with an active row that the user is
  denied (`LeakyRuns.ForbiddenRowReturned`).
- On a fixed table the pages of a run add up to the sorted list of all wanted rows (after the row that the run
  continues after, if any), in max(1, ceil(n / limit)) pages, under the same condition (`Runs.FixedRunIsExact`,
  `Runs.PagesIsCeiling`), which is exact here too (`LeakyRuns.RunsAreExactExactly`). Every run stops, filters lost or
  not (`Runs.FixedRunStops`).
- Reading each condition as one conjunct, all of this holds for every request, on fixed and on changing tables
  (`ConjunctRuns.ConjunctRunIsExact`, `ConjunctRuns.ConjunctReturnsWanted`, `ConjunctRuns.ConjunctStableRowOnce`).
- Discovery, permission filtering and the IN list together are the one-pass filter on one snapshot
  (`Requests.OneSnapshot`), and stay sound on two (`Requests.TwoSnapshots`).
- The run theorems are about what a client receives: it sees the rows of the run item by item, and the cursor of each
  reply is the one that the next request carries (`Runs.ClientSeesRun`, `Runs.ReplyShows`). Every reply of the handler
  is characterised case by case (`Requests.ReplyIs`).
- `CanI` agrees with a per-check rule on all batches if and only if cluster-wide permission implies namespaced
  permission (`Rbac.BatchAgreesExactly`).
- `name_contains` is substring search for every text and every search string (`Like.ILikeIsSubstring`).

## Where code and documentation differ

The model follows the code.

- `docs/SEARCH.md:299` says that a cursor used with another sort returns 400. The list handler answers every error of
  the list query, this one included, as an internal error (`internal/handlers/resources.go:224-230`), and an empty
  success or a denial comes first when nothing is discovered or permitted (`Requests.BadCursorReply`).
- `docs/SEARCH.md:387` says that RBAC is enforced on every request. `LeakyRuns.RequestIsSoundExactly` says on which.
- The comment at `internal/sql/sort_by.go:97` speaks of NULLs at the end for both directions; the code puts them first
  when descending, and the model does too.
- The comment at `internal/sql/builder.go:14-15` says that all conditions are combined using AND. This holds for
  conditions without a top-level OR only.

## Model

| member | source | states |
|---|---|---|
| QueryBuilder.Builder.constructor | internal/sql/builder.go:26-28 | A new builder is empty and has as many placeholders as arguments |
| QueryBuilder.Builder.Where | internal/sql/builder.go:39-42 | Appends the condition and its arguments, changes nothing else, and keeps placeholders and arguments balanced when the call is |
| QueryBuilder.Builder.OrderBy | internal/sql/builder.go:46-48 | Replaces the order, changes nothing else |
| QueryBuilder.Builder.Limit | internal/sql/builder.go:52-56 | Sets a positive limit, ignores any other |
| QueryBuilder.Builder.Render | internal/sql/builder.go:68-105 | The whole text, the appended limit argument, and that the placeholder after LIMIT is the one of the limit value when placeholders and arguments were balanced |
| QueryBuilder.RenderConditions | internal/sql/builder.go:72-92 | The outer loop joins the numbered conditions and ends one past the number of all placeholders |
| QueryBuilder.RenderHoles | internal/sql/builder.go:81-90 | The inner loop numbers the placeholders of one condition from the running index |
| QueryBuilder.OneRunningIndex | internal/sql/builder.go:72-92 | Numbering condition by condition is numbering the joined text in one pass |
| QueryBuilder.HolesBecomeParams | internal/sql/builder.go:82-89 | The j-th `?` becomes `$(k+j)`, and every piece of text between the placeholders stays as it is |
| QueryBuilder.RenderedPieces | internal/sql/builder.go:68-105 | The rendered text is the base, `WHERE` and the conditions joined by `AND` with the k-th `?` of them all replaced by `$k` and no other character changed, `ORDER BY` and the order, and `LIMIT $` with the next number |
| QueryBuilder.DecimalSpelling | internal/sql/builder.go:84-104 | Placeholder numbers are written in decimal digits |
| SqlLexer.LexShow | internal/sql/builder.go:68-105 | Reading shown tokens gives them back, whatever boundary follows |
| SqlParser.OrBack | internal/sql/builder.go:74-92 | A printed condition is parsed back as itself, with AND tighter than OR |
| SqlParser.QueryBack | internal/sql/builder.go:68-105 | A printed query is parsed back as itself |
| SqlMeaning.JoinIsReading | internal/sql/builder.go:76-79 | How `s AND t` without parentheses is parsed, for all conditions s and t |
| SqlMeaning.JoinMeansBoth | internal/sql/builder.go:76-79 | Without a top-level OR on either side, that reading is the three-valued conjunction |
| SqlMeaning.JoinBeforeOr | internal/sql/builder.go:76-79 | A trailing OR keeps only its left half inside the conjunction |
| SqlMeaning.EvalWindow | internal/sql/builder.go:82-87 | A renumbered condition means on the full argument list what it means on its own arguments |
| Fragments.SafeReading | internal/sql/builder.go:74-92 | The rendered text of AND-safe conditions is true of a row exactly when every condition is |
| Fragments.BareOrReading | internal/sql/builder.go:74-92 | What the rendered text means when the last condition has a top-level OR |
| Fragments.RenderedTokens | internal/sql/builder.go:68-105 | The characters of a rendered query parse to its columns, joined conditions, sort keys and limit placeholder |
| Fragments.ReadingParams | internal/sql/builder.go:72-92 | The joined conditions use consecutive placeholders, one for each argument |
| Fragments.PlaceholdersMeetArgs | internal/sql/builder.go:39-42 | In the joined condition the placeholders of fragment i are the next ones after those of the fragments before it, and each is bound to the argument of fragment i that it was written for |
| Fragments.RenderedPlaceholders | internal/sql/builder.go:68-105 | The placeholders found by scanning the text are 1..n from left to right, n the number of arguments |
| SortedRows.BeforeIrreflexive | internal/sql/sort_by.go:106-124 | No row comes before itself |
| SortedRows.BeforeTransitive | internal/sql/sort_by.go:106-124 | The ORDER BY order is transitive, NULLs included |
| SortedRows.BeforeTotal | internal/sql/sort_by.go:106-124 | Keys that end with id order any two rows with different ids |
| SortedRows.SortOrdered | internal/sql/sort_by.go:106-124 | Sorting rows with distinct ids gives a strictly ordered list |
| SortedRows.OrderedUnique | internal/sql/sort_by.go:106-124 | A strictly ordered list is determined by its members |
| Sorting.SortOrderSQLShows | internal/sql/sort_by.go:89-124 | The ORDER BY text is the text of the sort keys used in all order theorems |
| Sorting.DescendingIsReverse | internal/sql/sort_by.go:96-124 | For every sort column, descending order is ascending order turned round, NULLs included |
| Sorting.OrderMeans | internal/sql/sort_by.go:60-124 | For every `sort_by` and `sort_order`, the empty ones included, the sort keys put row a before row b if and only if the fields of a and b compare so: times latest first unless ascending is asked for, anything else ascending unless descending is, missing compositions last when ascending and first when descending, ties by id |
| Like.ContainsIsSubstring | internal/sql/resources.go:294-296 | A text matches the escaped pattern between percent signs exactly when it contains the string |
| Like.ILikeIsSubstring | internal/sql/resources.go:436-440 | The same without regard to case, for any case fold that respects the special characters |
| Cursor.FillCursor | internal/sql/cursor.go:126-153 | The fields that the chosen sort compares are the row's, every field of another sort is blank, the NULL flag is set exactly for a missing composition, and no pointer that the sort's condition follows is nil |
| Cursor.OneCursorNames | internal/sql/cursor.go:126-153 | These properties single out one cursor, the one that all later theorems are about |
| Cursor.CursorRoundTrip | internal/sql/cursor.go:75-97 | Decoding an encoded cursor gives it back, with empty fields omitted on the way |
| Cursor.TokenHolds | internal/sql/cursor.go:16-56 | The token has sort_by and id always, and direction, times, composition and the NULL flag exactly when they are set, each under its own key |
| Cursor.TokenHoldsTexts | internal/sql/cursor.go:16-56 | The token has each text field exactly when it is not empty, under its own key |
| Cursor.NullStaysDistinct | internal/sql/cursor.go:30-48 | After the round trip a NULL composition and a sort that has no use for it remain distinguishable, and the cursor has the fields its sort needs |
| Cursor.CursorAcceptance | internal/sql/cursor.go:112-123 | A cursor of one request is accepted by another exactly when effective column and direction agree |
| Cursor.CursorMeansAfter | internal/sql/cursor.go:171-221 | A row satisfies the condition of the cursor built from a stored row exactly when it comes strictly after that row, for all columns, directions and NULL pairings |
| Cursor.CursorConditionGood | internal/sql/cursor.go:171-221 | Every cursor condition has one argument for each placeholder, and all but one are AND-safe |
| Cursor.BareOrHalvesMean | internal/sql/cursor.go:202-206 | What the two halves of the unparenthesised OR say |
| QueryTexts.CursorConditionShows | internal/sql/cursor.go:171-221 | The strings put together for a cursor are the text of the condition that the theorems are about |
| QueryTexts.HeadShows | internal/sql/resources.go:330-339 | The SELECT clause put together from the selected columns is the text of those columns |
| QueryTexts.OneOfText | internal/sql/resources.go:273-279 | The text of an IN list put together from its columns and one tuple of placeholders for each row |
| ListQuery.TargetsHold | internal/sql/resources.go:272-280 | The IN list is true of a row exactly when its triple is in the list |
| ListQuery.DiscoverMeans | internal/sql/resources.go:86-101 | The discovery conditions hold exactly of active rows that match group, version, resource, cluster and namespace |
| ListQuery.ScopeMeans | internal/sql/resources.go:257-284 | The first conditions hold exactly of active rows of the group, version and cluster asked for whose triple is allowed |
| ListQuery.FiltersMean | internal/sql/resources.go:254-304 | The list conditions hold exactly of active rows that match every filter that is set |
| ListQuery.FiltersSound | internal/sql/resources.go:254-304 | Every list condition but the cursor's is well numbered and AND-safe |
| ListQuery.ListTextReads | internal/sql/resources.go:254-342 | The characters of the list query parse to the selected columns, the joined conditions, the sort keys and the limit |
| ListQuery.PlaceholdersMatchArgs | internal/sql/resources.go:254-342 | The list text has exactly as many placeholders as arguments, numbered 1..n from left to right |
| ListQuery.AcceptedExactly | internal/sql/cursor.go:84-123 | Which tokens a request accepts, and the error for any other: the malformed token, the column of another sort, the direction of another order |
| ListQuery.IntendedMeans | internal/sql/resources.go:310-321 | All conditions together: the filters and the cursor |
| ListQuery.KeptIsIntended | internal/sql/builder.go:74-92 | Without the unparenthesised OR the text keeps exactly the rows of which every condition is true |
| ListQuery.KeptByBareOr | internal/sql/cursor.go:206 | With it, the text keeps every row that has a composition_id, whatever the filters say |
| ListQuery.TextIsConjunctionExactly | internal/sql/builder.go:74-92 | Text and conjunction agree on all rows that the schema allows if and only if the cursor's condition has no top-level OR |
| WrittenTexts.DiscoverWritten | internal/sql/resources.go:86-101 | The conditions and arguments of the discovery query, written out for each parameter that is set |
| WrittenTexts.FiltersWritten | internal/sql/resources.go:254-304 | The conditions and arguments of the list query, written out for each filter that is set |
| WrittenTexts.WrittenColumnsShow | internal/sql/resources.go:330-338 | The names of the thirteen selected columns, and of the JSON columns on request |
| WrittenTexts.ListHeadShows | internal/sql/resources.go:330-339 | The SELECT clause of the list query, written out |
| WrittenTexts.DiscoverHeadShows | internal/sql/resources.go:103 | The SELECT DISTINCT clause of the discovery query, written out |
| WrittenTexts.OrderWritten | internal/sql/sort_by.go:60-124 | The ORDER BY clause for each `sort_by` and `sort_order`, the empty ones included, written out |
| WrittenTexts.CursorWritten | internal/sql/cursor.go:171-221 | The cursor condition for each column, direction and NULL composition, written out |
| WrittenTexts.ListWritten | internal/sql/resources.go:254-342 | The text and arguments of the list query that all theorems are about are these columns, conditions, clauses and limit |
| ListBuilder.BuildDiscoverQuery | internal/sql/resources.go:86-104 | The builder calls produce the SELECT DISTINCT of group, plural and namespace, with one condition and one argument for each parameter that is set, and this is the text that the theorems read |
| ListBuilder.AddFilters | internal/sql/resources.go:257-304 | The sequence of conditional Where calls leaves exactly the conditions and arguments of the filters that are set, by their words |
| ListBuilder.TargetParts | internal/sql/resources.go:273-278 | The loop over targets gives one triple of placeholders and three arguments for each |
| ListBuilder.SelectedColumns | internal/sql/resources.go:331-337 | The thirteen column names, then `raw` and `status_raw` on request |
| ListBuilder.BuildListQuery | internal/sql/resources.go:254-342 | The list text by its words, and its arguments; or the error of a bad or mismatched cursor; or the panic of a cursor that lacks the field its sort follows |
| Paging.ExecuteList | internal/sql/resources.go:325-328 | Executing the list text gives the first limit + 1 rows of the sorted stream of kept rows |
| Paging.StreamIsSorted | internal/sql/resources.go:323 | The stream is strictly ordered and holds exactly the kept rows |
| Paging.PageIsExact | internal/sql/resources.go:226-242 | A page is the first limit rows of the stream; a cursor, after the last of them, is present exactly when a row remains |
| Paging.ResultOfShows | internal/sql/resources.go:226-249 | The result of a page that the run theorems follow holds the first min(limit, n) of n rows field by field, their number, no cursor when no row remains, and otherwise a token that decodes to a cursor naming the last row shown |
| Paging.TokenPoints | internal/sql/resources.go:231-240 | The token made after a row is never the empty one, and decodes to a cursor that names the row by what the sort compares |
| Paging.ScanRow | internal/sql/resources.go:152-220 | Scanning by position puts each selected column, the JSON columns included, into the item and cursor field of its name, field by field |
| Paging.ScanAndTrim | internal/sql/resources.go:141-249 | The result holds the first min(limit, n) of the n scanned rows field by field and Count is their number; the cursor is empty if and only if no row remains, and otherwise decodes to one that names the last row shown |
| Paging.ListResources | internal/sql/resources.go:129-250 | The same of the rows that the database answers to the list text; or the error of the cursor, of the query or of the scan |
| Paging.IssuedCursorAccepted | internal/sql/resources.go:311-317 | A cursor that the service issued is decoded to itself and accepted by the next request |
| Paging.KeptBetween | internal/sql/resources.go:254-342 | Even when filters are lost, the text keeps every matching row after the cursor and only rows after it |
| Rbac.BuildUserCanTargets | internal/rbac/rbac.go:85-95 | Check i asks for `get` on the group, plural and namespace of target i |
| Rbac.FilterByDecisions | internal/rbac/rbac.go:99-107 | Keeps, in order, exactly the targets for which `get` on their group, plural and namespace is decided true; a missing decision is a denial |
| Rbac.KeepNext | internal/rbac/rbac.go:99-107 | A target is appended when it is permitted, and changes nothing about those before it: order and multiplicity stay |
| Rbac.FilterAllowed | internal/rbac/rbac.go:23-35 | One batch asks for `get` on each target; a target is kept if and only if it is among the targets and the batch answers true for its group, plural and namespace |
| Rbac.FirstBatch | internal/rbac/rbac.go:47-55 | The first batch holds exactly the checks with their namespace emptied, verb, group and resource kept |
| Rbac.FormsOnce | internal/rbac/rbac.go:47-55 | No form is asked for twice |
| Rbac.FormsInOrder | internal/rbac/rbac.go:47-55 | What is asked for the first checks comes first, whatever checks follow |
| Rbac.MarkClusterWide | internal/rbac/rbac.go:58-70 | The second loop writes for each check the answer to its verb, group and resource in all namespaces, and collects what is left, with positions |
| Rbac.PendingIndexesExact | internal/rbac/rbac.go:58-70 | The second batch is exactly the namespaced checks not allowed cluster-wide, in input order |
| Rbac.Scatter | internal/rbac/rbac.go:75-78 | Each second-round decision reaches the position that asked for it, and no other |
| Rbac.CanI | internal/rbac/rbac.go:41-79 | Check i is allowed if and only if the first batch allows its verb, group and resource in all namespaces, or it is namespaced and the second batch allows it, duplicates included; which batches are asked, and that an empty one is not |
| Rbac.AnswerByRule | internal/rbac/rbac.go:41-79 | With consistent decisions, answer i depends on the cluster-wide and the own permission of check i alone |
| Rbac.BatchAgreesExactly | internal/rbac/rbac.go:37-41 | All batches agree with the per-check rule if and only if permission for a verb, group and resource in all namespaces implies it in each namespace |
| Requests.DiscoverTargets | internal/sql/resources.go:85-125 | Scanning the discovery answer by position gives its triples, in order, or the error of the query |
| Requests.HandleResources | internal/handlers/resources.go:125-145 | From parsed parameters to that reply: the phases in order, with the queries and the batch that each phase sends |
| Requests.ReplyIs | internal/handlers/resources.go:176-233 | The reply to every request: internal error, crash, denial and success each if and only if; the empty success when nothing is found; and otherwise the items and the cursor of the rows that the database answered |
| Requests.BadCursorReply | internal/handlers/resources.go:187-231 | A malformed or mismatched cursor is an internal error if and only if discovery fails or some discovered target is permitted; otherwise the reply is the empty success or the denial |
| Requests.DiscoveryFinds | internal/sql/resources.go:86-124 | The discovery text finds exactly the triples of the discoverable rows |
| Requests.TwoSnapshots | internal/handlers/resources.go:125-142 | Whatever changed in between, the list filters pass exactly the wanted rows whose triple was discovered |
| Requests.OneSnapshot | internal/handlers/resources.go:125-142 | On one snapshot, discovery, permissions and the IN list select exactly what the one-pass filter selects |
| Requests.EmptyListRestrictsNothing | internal/sql/resources.go:272-280 | With no permitted target and without the early exit, the filters would be right only where nothing matches |
| Runs.ResponseIsPage | internal/sql/resources.go:129-250 | A response holds the first limit rows of its stream, and a cursor exactly when a row remains |
| Runs.StreamFacts | internal/sql/resources.go:254-342 | What a request can return: ordered, after the cursor, nothing wanted missing, nothing unwanted unless the filters are lost |
| Runs.RunIsOrdered | docs/SEARCH.md:291-301 | Over a whole run on a changing table rows come strictly in the order of the sort keys |
| Runs.RunInRequestedOrder | docs/SEARCH.md:291-301 | Any two rows of a run on changing tables compare, on their fields, as sort_by and sort_order ask, and come after the row that the run continues after |
| Runs.ReplyCursor | internal/handlers/resources.go:176-233 | The reply carries a cursor if and only if the run goes on, and it is the one that the next request carries |
| Runs.ReplyShows | internal/handlers/resources.go:176-233 | A listing becomes a success with the rows of its page field by field, their number and its cursor |
| Runs.ClientSeesRun | docs/SEARCH.md:291-301 | A client that sends the cursor of each reply until there is none receives the replies of the run, one for each response |
| Runs.RunMissesNothing | docs/SEARCH.md:291-301 | A row present throughout a completed run is returned |
| Runs.StableRowExactlyOnce | internal/sql/resources.go:129-250 | A row present throughout a completed run, after the row that the run continues after if there is one, is returned exactly once, whatever else changes |
| Runs.RunReturnsWanted | internal/handlers/resources.go:125-142 | Every row of page i was, when page i was made, in the table, selected by all filters and permitted, if the run starts with a request that is not leak-prone or continues after a row whose cursor keeps the filters |
| Runs.DescendingListing | internal/sql/sort_by.go:96-124 | The full descending listing is the reverse of the full ascending one |
| Runs.StreamIsListing | internal/sql/resources.go:310-321 | What a request sees is the listing after its cursor's row, unless the cursor is one that loses the filters |
| Runs.RestOfListing | internal/sql/resources.go:310-321 | The listing after one of its rows is the rest of it |
| Runs.PagesIsCeiling | internal/sql/resources.go:231-242 | The number of pages is max(1, ceil(n / limit)) |
| Runs.FixedRunIsExact | internal/sql/resources.go:226-249 | On a fixed table the pages of a run, from the start or after a row, add up to the sorted list of all wanted rows there, in ceil(n / limit) pages but at least one, unless a cursor of the run loses the filters |
| Runs.FewerAfter | internal/sql/resources.go:231-242 | Each page leaves strictly fewer rows after its cursor |
| Runs.FixedRunStops | internal/sql/resources.go:231-242 | Every run on a fixed table stops, even one that loses its filters |
| LeakyRuns.WitnessFixed | assets/resources.schema.sql:5-40 | The table of the counterexample satisfies the schema, and discovery finds its one target |
| LeakyRuns.FirstStream | internal/sql/cursor.go:202-206 | The first request of the counterexample sees exactly the wanted rows |
| LeakyRuns.SecondStream | internal/sql/cursor.go:202-206 | The next request of the counterexample starts with the stray row |
| LeakyRuns.WitnessPage | internal/sql/cursor.go:202-206 | The second page of the counterexample's run holds the stray row, for every leak-prone request and limit |
| LeakyRuns.SoundResponse | docs/SEARCH.md:387 | Unless the request carries a cursor that loses the filters, every row of its response is in the table, selected, and the user may get its group and plural in its namespace |
| LeakyRuns.StrayResponse | internal/sql/cursor.go:206 | A request that carries such a cursor can be answered with a row that no listing holds, whatever its filters |
| LeakyRuns.RequestIsSoundExactly | docs/SEARCH.md:387 | All responses to a request hold wanted rows only, and permitted rows only, if and only if it does not carry an accepted cursor that loses the filters; the cursor may be any token |
| LeakyRuns.IssuedLoses | internal/sql/cursor.go:126-153 | Among the cursors that the service issues, those that lose the filters are the ones after a row without composition_id, sorted by it descending |
| LeakyRuns.FilteredRequestMayLose | internal/sql/cursor.go:112-123 | A request with a composition_id filter is never leak-prone, and loses its filters with a cursor of another request of the same sort |
| LeakyRuns.RunsAreExactExactly | internal/sql/cursor.go:202-206 | Some run on a fixed table, from the start or after a row, differs from the listing if and only if the first request is leak-prone, or its cursor loses the filters |
| LeakyRuns.ForbiddenRowReturned | internal/handlers/resources.go:131-142 | The second page of a leak-prone request can hold an active row that the user is denied |
| LeakyRuns.RunAfterToken | internal/sql/resources.go:310-321 | After the first page, a run that starts with an accepted cursor, hand-made or not, continues after a stored row with a cursor that keeps the filters, if the first one does |
| LeakyRuns.RunsAreSoundExactly | internal/handlers/resources.go:125-142 | On changing tables, every row of a run that starts with any token was wanted on its page if and only if neither the first request nor one that continues it carries a cursor that loses the filters; and the same for the permission to get the row |
| ConjunctRuns.ConjunctStreamFacts | internal/sql/cursor.go:171-221 | With conditions as conjuncts a request sees exactly the wanted rows after the cursor, for every sort |
| ConjunctRuns.ConjunctRunIsExact | internal/sql/resources.go:226-249 | With conditions as conjuncts the pages add up to the listing for every request |
| ConjunctRuns.ConjunctIsOrdered | docs/SEARCH.md:291-301 | With conditions as conjuncts, rows come strictly in order over a whole run on a changing table |
| ConjunctRuns.ConjunctReturnsWanted | internal/handlers/resources.go:125-142 | With conditions as conjuncts, every row of every request was wanted when its page was made |
| ConjunctRuns.ConjunctStableRowOnce | internal/sql/resources.go:129-250 | With conditions as conjuncts, a row that stays is returned exactly once, for every request, whatever else changes |
| ConjunctRuns.SameStream | internal/sql/builder.go:74-92 | Text and conjuncts see the same rows wherever the filters are not lost |

## Left out

- Runs.FixedRunIsExact: requires that no cursor of the run loses the filters; `LeakyRuns.RunsAreExactExactly` shows that this is the exact condition, and `ConjunctRuns.ConjunctRunIsExact` has no such requirement.
- Runs.RunReturnsWanted: requires `KeepsFilters(p, from)`, that is, a first request that is not leak-prone, or a cursor that does not lose the filters; `LeakyRuns.RunsAreSoundExactly` and `LeakyRuns.IssuedLoses` show that this is the exact condition, and `ConjunctRuns.ConjunctReturnsWanted` has no such requirement.
- Runs.StreamIsListing: requires that the cursor is not one that loses the filters; `ConjunctRuns.ConjunctStreamIsListing` has no such requirement.
- Requests.HandleResources: starts from parsed parameters; parsing and validating the request, serialisation, logging and metrics are not modelled, and permission calls are arbitrary answers.
- Paging.ListResources: cancellation, timeouts and scan errors are one kind of failure, that of the query.
- Like.ILikeIsSubstring: the case fold is a fold of characters; a fold that changes the length of a text is not covered.
- SqlParser.QueryBack: AND and OR chains lean to the right; PostgreSQL's lean to the left, which is immaterial because both operations are associative in three-valued logic.
- Runs in which a request fails: a client that repeats a failed request continues the same run, which is not modelled.
- HTTP, compression, authentication, logging, telemetry and configuration: no deep property.
- The detail endpoint: it returns at most one row.
- Byte-level JSON, time formatting and base64: cursors are modelled as JSON fields with omission of empty ones.
- Malformed UUIDs in hand-made cursors: PostgreSQL refuses the query; in the evaluator they equal no stored value.
- Times as integers, JSON columns as their text.
- Label containment: a row carries the set of label arguments that it contains, an arbitrary set.
- Integer width: ids, times and the limit are unbounded; the service checks that the limit is in 1..5000.
- Changing filters or the limit during a run: `docs/SEARCH.md:386` says that this breaks continuity.
- The permission service, its cache and its batching by namespace: not part of this model.
- Capacity hints for slices, and the panic that a limit below -1 would cause there: requests with such limits are refused earlier.
