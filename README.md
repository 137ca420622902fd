# Movie management page: pagination, query fragments and bulk actions

This project is a Dafny model of the logic that `manage_movies.php` computes
itself. The rest of that page hands its work to MySQL or to the browser. The
model has four modules.

- `Pagination` (`pagination.dfy`) covers the row offset of a listing page and
  the page count for a row total, with 20 rows per page. It also covers the
  "showing X to Y of Z" range. The page number is an unvalidated integer cast,
  so every function accepts any `int`.
- `PageLinks` (`page_links.dfy`) covers the page-link strip under the movie
  table. The strip is a "previous" arrow, an optional link to page 1 with an
  optional ellipsis, a window of at most five numbered pages around the
  current one, an optional ellipsis with a link to the last page, and a
  "next" arrow.
  - The method `RenderStrip` prints the strip entry by entry, as the page
    does. Its window loop is `AppendWindow`.
  - Both are proved equal to the function `Strip`. The properties of the
    strip are lemmas about `Strip`.
  - `Paginate` is the whole pagination block: the small-screen arrows, the
    range line and the strip. It is emitted only when there is more than one
    page.
- `QueryFragments` (`query_fragments.dfy`) covers the SQL text the page
  builds itself and the values it binds.
  - The `IN (?,...,?)` list for the bulk delete and randomize statements.
  - PHP's `trim`.
  - The search clause with its three `%term%` parameters.
  - The property that matters for a prepared statement: one bound value per
    `?`.
- `BulkActions` (`bulk_actions.dfy`) covers the request handlers at the top of
  the page. They run in source order: delete all, delete a selection, detail
  query, count query, listing query, randomize all, randomize a selection.
  - Each handler that runs overwrites the shared `$success` or `$error`
    message.
  - `HandleRequest` runs them over the two message variables. It is proved
    to show the last success and the last failure of the log of store calls
    that `Events` describes.
  - It also returns the write statements sent.

The database is a parameter. Each store call is answered by a `StoreReply`
(a row count, or a failure with the database's message) supplied with the
request. Banner texts are modelled by their kind and by the count or message
they carry.

The bulk delete reports `count($movieIds)`, the number of submitted
identifiers, not the statement's affected-row count (`manage_movies.php:60`);
see `BulkActions.DeleteReportsSubmittedCount`. The bulk randomize, in
contrast, reports the affected-row count (`manage_movies.php:143`).

## Model

| member | source | states |
|---|---|---|
| Pagination.Offset | manage_movies.php:81-83 | for a page at least 1 the offset is non-negative and a multiple of the page size 20; for page 0 or below it is negative |
| Pagination.PageOfRow | manage_movies.php:83 | every row lies on a page numbered at least 1 |
| Pagination.RowOnExactlyOnePage | manage_movies.php:81-83 | the offset windows of the pages partition the rows: a row lies in page p's window exactly when p is the row's page |
| Pagination.TotalPages | manage_movies.php:101 | the page count is the least number of pages that holds all rows: pages×20 ≥ total, one page fewer would not suffice, and it is 0 exactly when total is 0 |
| Pagination.PageHasRowsIffInRange | manage_movies.php:101 | for page ≥ 1 the query window starts inside the result exactly when page ≤ page count |
| Pagination.DisplayRange | manage_movies.php:283 | the printed last row never exceeds the total, and the range spans at most 20 rows |
| Pagination.DisplayRangeWithinTotal | manage_movies.php:283 | for 1 ≤ page ≤ page count: 1 ≤ first ≤ last ≤ total, and every page but the last shows exactly 20 rows |
| Pagination.DisplayRangesTile | manage_movies.php:283 | consecutive pages' ranges follow each other without gap or overlap, from row 1 to the total |
| Pagination.DisplayRangeInvertedBeyondLastPage | manage_movies.php:283 | for a page past the last one (accepted unclamped) the printed first row is after the printed last row |
| PageLinks.StartPage | manage_movies.php:296 | definition: the first window page, `max(1, page - 2)` (bounds in `WindowBounds`) |
| PageLinks.EndPage | manage_movies.php:297 | definition: the last window page, `min(totalPages, page + 2)` (bounds in `WindowBounds`) |
| PageLinks.NumberedEntry | manage_movies.php:307-311 | definition: what one iteration of the window loop prints, the unlinked page number for the current page and a link otherwise (pinned down in `WindowEntries`) |
| PageLinks.Window | manage_movies.php:306-312 | the window loop prints one entry per page of lo..hi |
| PageLinks.WindowEntries | manage_movies.php:306-312 | the k-th window entry is the one printed for page lo+k: unlinked when it is the current page, a link otherwise |
| PageLinks.WindowMembers | manage_movies.php:306-312 | every window entry is a numbered entry for a page in lo..hi, unlinked exactly when it is the current page |
| PageLinks.AppendWindow | manage_movies.php:306-312 | the `for` loop appends exactly the window entries for startPage..endPage, in order |
| PageLinks.Leading | manage_movies.php:299-304 | definition: the page-1 link and the optional ellipsis before the window (characterised by `LeadingParts`) |
| PageLinks.Trailing | manage_movies.php:314-319 | definition: the optional ellipsis and the last-page link after the window (characterised by `TrailingParts`) |
| PageLinks.PrevArrow | manage_movies.php:288-293 | definition: the "previous" arrow to page − 1, printed when page > 1 |
| PageLinks.NextArrow | manage_movies.php:322-327 | definition: the "next" arrow to page + 1, printed when page < totalPages |
| PageLinks.Strip | manage_movies.php:288-327 | definition of the desktop strip in print order: previous arrow, leading part, window startPage..endPage, trailing part, next arrow; `RenderStrip` is proved equal to it and every `Strip…` lemma below is about it |
| PageLinks.Middle | manage_movies.php:295-320 | definition: the strip between its two arrows |
| PageLinks.MobileNav | manage_movies.php:268-279 | definition: the small-screen navigation, the previous arrow then the next arrow (compared with the strip by `MobileNavMatchesStrip`) |
| PageLinks.RenderStrip | manage_movies.php:288-327 | printing the strip step by step (arrow, page-1 link and ellipsis, window loop, ellipsis and last-page link, arrow) yields exactly `Strip` |
| PageLinks.WindowNumbers | manage_movies.php:306-312 | the window prints the page numbers lo..hi in increasing order |
| PageLinks.WindowCurrentCount | manage_movies.php:307-308 | the window prints the current page unlinked once if it lies in lo..hi, else never |
| PageLinks.WindowOnlyNumbers | manage_movies.php:306-312 | the window holds no arrow and no ellipsis |
| PageLinks.LeadingParts | manage_movies.php:299-304 | before the window: the page-1 link iff startPage > 1, one ellipsis iff startPage > 2, nothing else |
| PageLinks.TrailingParts | manage_movies.php:314-319 | after the window: the last-page link iff endPage < totalPages, one ellipsis iff endPage < totalPages − 1, nothing else |
| PageLinks.ArrowParts | manage_movies.php:288-327 | the arrows print no page number, no current page and no ellipsis |
| PageLinks.MiddleMembers | manage_movies.php:295-320 | between the arrows there are only page-1 and last-page links, ellipses and window entries, and no arrow |
| PageLinks.WindowBounds | manage_movies.php:296-297 | startPage ≥ 1, endPage ≤ totalPages, at most five window entries, each within two pages of the current one |
| PageLinks.StripNumbers | manage_movies.php:295-320 | the printed page numbers are page 1 (iff startPage > 1), then startPage..endPage, then the last page (iff endPage < totalPages) |
| PageLinks.StripNumbersIncreasing | manage_movies.php:295-320 | the printed page numbers strictly increase, so no page, page 1 and the last page included, is printed twice |
| PageLinks.StripReachesFirstAndLast | manage_movies.php:295-320 | for 1 ≤ page ≤ totalPages the numbers start at 1, end at totalPages, include the current page and number at most seven |
| PageLinks.StripCurrentCount | manage_movies.php:306-312 | the current page is printed unlinked exactly once when 1 ≤ page ≤ totalPages, and never otherwise |
| PageLinks.StripCurrentUnlinked | manage_movies.php:306-312 | only the current page is printed unlinked, and no link targets it |
| PageLinks.StripEllipsisCount | manage_movies.php:301-317 | the strip has one ellipsis iff startPage > 2 plus one iff endPage < totalPages − 1 |
| PageLinks.JumpsAroundWindow | manage_movies.php:299-319 | around a non-empty window, the printed numbers skip pages once before it iff it starts after page 2, and once after it iff it ends before totalPages − 1 |
| PageLinks.StripEllipsisMarksGaps | manage_movies.php:299-319 | for an existing page, the number of ellipses equals the number of places where consecutive printed numbers skip pages |
| PageLinks.ArrowsAtEnds | manage_movies.php:288-327 | with arrow-free entries between the two arrow parts, "previous" opens the sequence iff page > 1 and "next" closes it iff page < totalPages, with no arrow in between |
| PageLinks.StripArrows | manage_movies.php:288-327 | the strip opens with the "previous" arrow iff page > 1, closes with "next" iff page < totalPages, and has no arrow in between |
| PageLinks.MobileNavMatchesStrip | manage_movies.php:268-279 | the small-screen navigation is exactly the arrows of the desktop strip, in order |
| PageLinks.Paginate | manage_movies.php:266-332 | the block is emitted iff the count query succeeded and there is more than one page, and then holds the arrows, the range line and the strip |
| QueryFragments.Repeat | manage_movies.php:57 | `str_repeat(s, k)`: `s` written `k` times, k times as long as `s` |
| QueryFragments.CountCharFramed | manage_movies.php:58 | literal SQL text without `?` around a fragment adds no placeholder |
| QueryFragments.Placeholders | manage_movies.php:57 | for n ≥ 1 identifiers: 2n−1 characters, `?` at even and `,` at odd positions |
| QueryFragments.PlaceholderCount | manage_movies.php:120 | the list has n `?` and n−1 commas |
| QueryFragments.IdFilter | manage_movies.php:121 | the `IN (...)` clause has one `?` per identifier |
| QueryFragments.DeleteSelected | manage_movies.php:57-59 | the bulk delete binds the posted identifiers in order, one per `?` |
| QueryFragments.RandomizeFilter | manage_movies.php:118-141 | no WHERE clause exactly when no list is given; otherwise the list is bound in order, one per `?` |
| QueryFragments.IsBlank | manage_movies.php:86 | definition: the characters `trim` strips by default (space, tab, newline, carriage return, NUL, vertical tab) |
| QueryFragments.TrimStart | manage_movies.php:86 | drops exactly the leading blanks: a suffix, all dropped characters blank, first kept character not blank |
| QueryFragments.TrimEnd | manage_movies.php:86 | drops exactly the trailing blanks: a prefix, all dropped characters blank, last kept character not blank |
| QueryFragments.Trim | manage_movies.php:86 | `trim` drops exactly the leading and the trailing blanks: the result is a prefix of what follows the leading blanks and everything after it there is blank; it is empty exactly when the input is all blanks (space, tab, newline, carriage return, NUL, vertical tab), and otherwise starts and ends with a non-blank |
| QueryFragments.TrimIdempotent | manage_movies.php:86 | trimming twice equals trimming once |
| QueryFragments.SearchWhereMarks | manage_movies.php:91 | the search condition `SearchWhere` (the three `LIKE ?` comparisons on name, subtitle and English name) has three `?` |
| QueryFragments.PhpEmpty | manage_movies.php:90 | definition: PHP's `empty()` on a string, true for `""` and for `"0"` |
| QueryFragments.SearchFilter | manage_movies.php:86-94 | as written: no clause and no parameters exactly when the trimmed term is PHP-empty (`""` or `"0"`); otherwise the `SearchWhere` clause over the three columns with three parameters `%term%`, one per `?` |
| QueryFragments.SearchForZeroIsIgnored | manage_movies.php:90 | the term `0` survives trimming but yields no search clause |
| QueryFragments.SearchFilterIntended | manage_movies.php:86-94 | corrected: no clause exactly when the raw term is all blanks; otherwise the `SearchWhere` clause with three `%term%` parameters, one per `?` |
| QueryFragments.SearchFiltersAgreeExceptZero | manage_movies.php:90 | the as-written and the corrected search clause differ exactly when the trimmed term is `0` |
| BulkActions.Selects | manage_movies.php:56 | definition: `!empty($movieIds)`, a decoded non-empty list; the same guard is at line 163 |
| BulkActions.AsksDeleteAll | manage_movies.php:42 | definition: `action` is `delete_all` |
| BulkActions.AsksRandomAll | manage_movies.php:150 | definition: `action` is `random_all` |
| BulkActions.DeleteAllPart | manage_movies.php:41-50 | definition: on `delete_all`, one event, the success or the delete failure |
| BulkActions.DeleteSelectedPart | manage_movies.php:52-65 | definition: for a non-empty list, one event, the submitted count or the delete failure; nothing otherwise |
| BulkActions.QueryPart | manage_movies.php:96-113 | definition: a read query contributes a failure or nothing to the banners |
| BulkActions.DetailPart | manage_movies.php:67-78 | definition: when `id` is given, the detail query's event |
| BulkActions.RandomizePart | manage_movies.php:143-145 | definition: a randomize reports its affected-row count or its wrapped failure |
| BulkActions.RandomAllPart | manage_movies.php:149-157 | definition: on `random_all`, the randomize event |
| BulkActions.RandomSelectedPart | manage_movies.php:159-170 | definition: for a non-empty list, the randomize event; nothing otherwise |
| BulkActions.Events | manage_movies.php:41-170 | definition: the events of the store calls a request makes, in source order |
| BulkActions.LastReported | manage_movies.php:193-197 | definition: the success banner, the last success reported, if any |
| BulkActions.LastRaised | manage_movies.php:199-203 | definition: the error banner, the last failure raised, if any |
| BulkActions.DeleteMutations | manage_movies.php:41-65 | definition: the delete statements sent: everything on `delete_all`, the selection delete for a non-empty list |
| BulkActions.RandomizeMutations | manage_movies.php:149-170 | definition: the randomize statements sent: unfiltered on `random_all`, the selection filter for a non-empty list |
| BulkActions.Mutations | manage_movies.php:41-170 | definition: all write statements sent, deletes before the listing is read and randomizes after it |
| BulkActions.RunDeletes | manage_movies.php:41-65 | the two delete handlers leave the last success and failure of their calls and send the delete-all statement (on `action=delete_all`) and the selection delete (for a non-empty list only) |
| BulkActions.RunListingQueries | manage_movies.php:67-113 | the detail, count and listing queries only set the error, to the last one that failed, and never the success |
| BulkActions.RunRandomizes | manage_movies.php:149-170 | the two randomize handlers report the affected rows or the failure of their calls, on top of the earlier messages, and send a statement only for `action=random_all` or a non-empty list |
| BulkActions.HandleRequest | manage_movies.php:41-170 | after all handlers, the success banner is the last success and the error banner the last failure of the calls made, in source order; the statements sent are the deletes then the randomizes |
| BulkActions.CountedTotal | manage_movies.php:97-104 | the row total is known exactly when the count query succeeded, and then is the counted rows |
| BulkActions.PaginateListing | manage_movies.php:266-332 | the pagination block, fed by the count query: emitted iff the count succeeded and gives more than one page, and then shows the range, the strip and the small-screen arrows for that count |
| BulkActions.LastOfConcat | manage_movies.php:41-170 | a later handler's message replaces an earlier one, and a handler that sets none leaves it |
| BulkActions.NoErrorIffCallsSucceed | manage_movies.php:41-170 | the error banner is absent exactly when every store call the request made succeeded |
| BulkActions.SkippedDeleteIsSilent | manage_movies.php:55-56 | a delete payload that decodes to an empty or null list sends nothing and sets no message, as if the field were not posted |
| BulkActions.SkippedRandomizeIsSilent | manage_movies.php:162-163 | the same for the randomize payload |
| BulkActions.DeleteReportsSubmittedCount | manage_movies.php:60 | an accepted bulk delete reports the number of submitted identifiers unless a later randomize reports over it |
| BulkActions.RandomizeReportsAffectedRows | manage_movies.php:164-165 | an accepted selection randomize reports the statement's affected-row count, whatever ran before |
| BulkActions.FailureNeverClearsSuccess | manage_movies.php:41-170 | handlers that report no success (failures, quiet queries) leave the earlier success banner unchanged, for any earlier and later calls |
| BulkActions.RandomAllReportsAffectedRows | manage_movies.php:150-157 | `action=random_all` that the store accepted, with no selection randomize after it, reports the statement's affected-row count |
| BulkActions.FailureKeepsEarlierSuccess | manage_movies.php:41-113 | one instance: a successful delete-all followed by a failing listing query shows both banners |
| BulkActions.SentStatementsBindEveryMark | manage_movies.php:57-141 | every statement sent binds one value per `?`, and the selection delete binds the posted identifiers in order |

## Left out

- Database connection and the meaning of every SQL statement. What DELETE, UPDATE, COUNT, ORDER BY, LIMIT/OFFSET and LIKE do happens inside MySQL. Store calls are inputs (`StoreReply`).
- The random value expressions of the randomize statement (`FLOOR(10 + RAND() * 990)` and the others). They are floating point evaluated by the database's random generator. `RandomizeFilter` models only its WHERE clause and parameters.
- Authentication, the layout and footer includes, the HTML and CSS markup, `htmlspecialchars`, and the client-side JavaScript. They are external code or rendering.
- The `&search=` suffix that every page link carries, and `urlencode`. A strip entry records only what is printed and which page it targets.
- `json_decode`: the payload is given decoded, as `Option<seq<int>>`. `None` stands for a payload that decodes to null or to another value `empty()` treats as empty. A payload that decodes to a truthy non-list (a number, a string) makes `count()` throw outside the `catch`; that fatal error is not modelled. Neither is a JSON object, whose string keys PDO would treat as named parameters.
- Identifier types and array-valued fields. The page's own script posts the checked boxes' values as JSON strings (`manage_movies.php:641`, `656`), and PDO binds whatever the decoded list holds. The model types identifiers as `int`, so the bound values' PHP types and MySQL's string-to-number comparison are not modelled. A `search`, `delete_movies` or `random_movies` field posted as an array makes `trim` or `json_decode` throw a `TypeError`, which the page does not catch; that fatal error is not modelled either.
- The `(int)` casts of `page` and `id` are given as integers. PHP's integer overflow and the floating-point division inside `ceil` are modelled as exact integer arithmetic.
- A negative offset from page 0 or below reaches MySQL as `OFFSET -20`, where the query fails. The model computes the offset; what MySQL does with it is part of the database.
- `%` and `_` in the search term are not escaped and act as LIKE wildcards. That is database behaviour.
- The detail query's fetched row and the listing rows are not modelled. Only their failure sets a message.
- The detail view's delete form posts fields for which the page has no handler. There is no behaviour to model.
- The doc comment at the top of the file describes command-line options the code does not have.
- BulkActions.DeleteReportsSubmittedCount: stated only for requests that do not also randomize. A randomize in the same request overwrites the success message, as `BulkActions.RandomizeReportsAffectedRows` states.

## Findings

| source | as written | input that shows it | evidently intended | confidence | as-written member | corrected member |
|---|---|---|---|---|---|---|
| manage_movies.php:90 | `!empty($search)` is false for the string `"0"`, so searching for `0` applies no filter and lists every movie | `search=0` (also `search=%200%20`) | filter by any term that is not blank after trimming | medium, not executed | QueryFragments.SearchForZeroIsIgnored | QueryFragments.SearchFilterIntended |
