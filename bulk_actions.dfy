/**
  The request handlers at the top of the movie page. In source order they
  run: delete everything (`action=delete_all`), delete a posted selection
  (`delete_movies`), fetch one movie for the detail view (`id`), count the
  matching movies, fetch the listing page, randomize every movie's
  statistics (`action=random_all`) and randomize a posted selection
  (`random_movies`). Each handler that runs overwrites the shared success
  or error message, so the banners show the last success and the last
  error.

  The database is not modelled: each store call is answered by a
  `StoreReply` given as input, and what MySQL does with the statement is
  left out. The banner texts are modelled by their kind and the numbers
  or database message they carry.
 */
module BulkActions {
  import opened Wrappers
  import opened QueryFragments
  import Pagination
  import PageLinks

  /** A posted identifier list: not posted at all, or posted and decoded.
      `None` stands for a payload that decodes to `null` or to another
      value PHP's `empty()` calls empty. */
  datatype IdField = Absent | Posted(decoded: Option<seq<int>>)

  /** `!empty($movieIds)`: the decoded payload is a non-empty list. */
  predicate Selects(field: IdField)
  {
    field.Posted? && field.decoded.Some? && field.decoded.value != []
  }

  /** What a store call answered: success with a row count (the affected
      rows of an update, the counted rows of `COUNT(*)`), or an exception. */
  datatype StoreReply = Done(rows: nat) | Failed(reason: string)

  datatype Success =
    | AllDeleted                 // "all movies deleted"
    | SelectedDeleted(count: nat) // "deleted <count> movies"
    | StatsRandomized(count: nat) // "randomized data for <count> movies"

  /** The read queries whose failure the page reports. */
  datatype Query = DetailQuery | CountQuery | ListQuery

  datatype Failure =
    | DeleteAllFailed(reason: string)
    | DeleteSelectedFailed(reason: string)
    | QueryFailed(query: Query, reason: string)
    | RandomizeFailed(reason: string)

  datatype Request = Request(
    action: Option<string>,   // the `action` query parameter
    deleteMovies: IdField,    // the `delete_movies` form field
    detailId: Option<int>,    // the `id` query parameter
    randomMovies: IdField)    // the `random_movies` form field

  /** The store's answer to each call the page may make. */
  datatype Replies = Replies(
    deleteAll: StoreReply,
    deleteSelected: StoreReply,
    detail: StoreReply,
    count: StoreReply,
    list: StoreReply,
    randomAll: StoreReply,
    randomSelected: StoreReply)

  /** The write statements the page sends to the store. */
  datatype Mutation =
    | DeleteEverything
    | DeleteIds(statement: Statement<int>)
    | RandomizeStats(filter: Statement<int>)

  /** `action=delete_all` in the query string. */
  predicate AsksDeleteAll(req: Request)
  {
    req.action == Some("delete_all")
  }

  /** `action=random_all` in the query string. */
  predicate AsksRandomAll(req: Request)
  {
    req.action == Some("random_all")
  }

  // ---------------------------------------------------------------------
  // The handlers as a log of events

  /** What one store call contributes to the banners. */
  datatype Event = Quiet | Reported(success: Success) | Raised(failure: Failure)

  function DeleteAllPart(req: Request, replies: Replies): seq<Event>
  {
    if AsksDeleteAll(req) then
      match replies.deleteAll
      case Done(_) => [Reported(AllDeleted)]
      case Failed(m) => [Raised(DeleteAllFailed(m))]
    else []
  }

  function DeleteSelectedPart(req: Request, replies: Replies): seq<Event>
  {
    if Selects(req.deleteMovies) then
      match replies.deleteSelected
      case Done(_) => [Reported(SelectedDeleted(|req.deleteMovies.decoded.value|))]
      case Failed(m) => [Raised(DeleteSelectedFailed(m))]
    else []
  }

  function QueryPart(reply: StoreReply, query: Query): seq<Event>
  {
    match reply
    case Done(_) => [Quiet]
    case Failed(m) => [Raised(QueryFailed(query, m))]
  }

  function DetailPart(req: Request, replies: Replies): seq<Event>
  {
    if req.detailId.Some? then QueryPart(replies.detail, DetailQuery) else []
  }

  function RandomizePart(reply: StoreReply): seq<Event>
  {
    match reply
    case Done(n) => [Reported(StatsRandomized(n))]
    case Failed(m) => [Raised(RandomizeFailed(m))]
  }

  function RandomAllPart(req: Request, replies: Replies): seq<Event>
  {
    if AsksRandomAll(req) then RandomizePart(replies.randomAll) else []
  }

  function RandomSelectedPart(req: Request, replies: Replies): seq<Event>
  {
    if Selects(req.randomMovies) then RandomizePart(replies.randomSelected) else []
  }

  /** The store calls the request makes, in the order the page makes them. */
  function Events(req: Request, replies: Replies): seq<Event>
  {
    DeleteAllPart(req, replies) + DeleteSelectedPart(req, replies) + DetailPart(req, replies)
    + QueryPart(replies.count, CountQuery) + QueryPart(replies.list, ListQuery)
    + RandomAllPart(req, replies) + RandomSelectedPart(req, replies)
  }

  /** The success reported last, if any. */
  function LastReported(evs: seq<Event>): Option<Success>
  {
    if evs == [] then None
    else if evs[|evs| - 1].Reported? then Some(evs[|evs| - 1].success)
    else LastReported(evs[..|evs| - 1])
  }

  /** The failure raised last, if any. */
  function LastRaised(evs: seq<Event>): Option<Failure>
  {
    if evs == [] then None
    else if evs[|evs| - 1].Raised? then Some(evs[|evs| - 1].failure)
    else LastRaised(evs[..|evs| - 1])
  }

  lemma LastAfterPart(evs: seq<Event>, part: seq<Event>)
    requires |part| <= 1
    ensures LastReported(evs + part) ==
      if part != [] && part[0].Reported? then Some(part[0].success) else LastReported(evs)
    ensures LastRaised(evs + part) ==
      if part != [] && part[0].Raised? then Some(part[0].failure) else LastRaised(evs)
  {
    if part == [] {
      assert evs + part == evs;
    } else {
      assert (evs + part)[..|evs|] == evs;
    }
  }

  lemma LastOfPart(part: seq<Event>)
    requires |part| <= 1
    ensures LastReported(part) == if part != [] && part[0].Reported? then Some(part[0].success) else None
    ensures LastRaised(part) == if part != [] && part[0].Raised? then Some(part[0].failure) else None
  {
    if part != [] {
      assert part[..0] == [];
    }
  }

  /** The delete statements the request sends, in order. The selection
      statement is built only for a non-empty list. */
  function DeleteMutations(req: Request): seq<Mutation>
  {
    (if AsksDeleteAll(req) then [DeleteEverything] else [])
    + (if Selects(req.deleteMovies) then [DeleteIds(DeleteSelected(req.deleteMovies.decoded.value))] else [])
  }

  /** The randomize statements the request sends, in order. */
  function RandomizeMutations(req: Request): seq<Mutation>
  {
    (if AsksRandomAll(req) then [RandomizeStats(RandomizeFilter(None))] else [])
    + (if Selects(req.randomMovies) then [RandomizeStats(RandomizeFilter(req.randomMovies.decoded))] else [])
  }

  /** The write statements the request sends: deletes before the listing is
      read, randomizes after it. */
  function Mutations(req: Request): seq<Mutation>
  {
    DeleteMutations(req) + RandomizeMutations(req)
  }

  // ---------------------------------------------------------------------
  // The handlers as the page runs them

  /** The two delete handlers, before anything is read. */
  method RunDeletes(req: Request, replies: Replies)
    returns (success: Option<Success>, error: Option<Failure>, sent: seq<Mutation>)
    ensures success == LastReported(DeleteAllPart(req, replies) + DeleteSelectedPart(req, replies))
    ensures error == LastRaised(DeleteAllPart(req, replies) + DeleteSelectedPart(req, replies))
    ensures sent == DeleteMutations(req)
  {
    success, error, sent := None, None, [];
    if AsksDeleteAll(req) {
      sent := sent + [DeleteEverything];
      match replies.deleteAll {
        case Done(_) => success := Some(AllDeleted);
        case Failed(m) => error := Some(DeleteAllFailed(m));
      }
    }
    LastOfPart(DeleteAllPart(req, replies));

    if req.deleteMovies.Posted? {
      var movieIds := req.deleteMovies.decoded;
      if movieIds.Some? && movieIds.value != [] {
        sent := sent + [DeleteIds(DeleteSelected(movieIds.value))];
        match replies.deleteSelected {
          case Done(_) => success := Some(SelectedDeleted(|movieIds.value|));
          case Failed(m) => error := Some(DeleteSelectedFailed(m));
        }
      }
    }
    LastAfterPart(DeleteAllPart(req, replies), DeleteSelectedPart(req, replies));
  }

  /** The detail, count and listing queries; they only ever set the error. */
  method RunListingQueries(req: Request, replies: Replies, ghost evs: seq<Event>, error: Option<Failure>)
    returns (error': Option<Failure>)
    requires error == LastRaised(evs)
    ensures error' == LastRaised(evs + DetailPart(req, replies) + QueryPart(replies.count, CountQuery) + QueryPart(replies.list, ListQuery))
    ensures LastReported(evs + DetailPart(req, replies) + QueryPart(replies.count, CountQuery) + QueryPart(replies.list, ListQuery))
      == LastReported(evs)
  {
    error' := error;
    if req.detailId.Some? {
      if replies.detail.Failed? {
        error' := Some(QueryFailed(DetailQuery, replies.detail.reason));
      }
    }
    LastAfterPart(evs, DetailPart(req, replies));
    ghost var seen := evs + DetailPart(req, replies);

    if replies.count.Failed? {
      error' := Some(QueryFailed(CountQuery, replies.count.reason));
    }
    LastAfterPart(seen, QueryPart(replies.count, CountQuery));
    seen := seen + QueryPart(replies.count, CountQuery);

    if replies.list.Failed? {
      error' := Some(QueryFailed(ListQuery, replies.list.reason));
    }
    LastAfterPart(seen, QueryPart(replies.list, ListQuery));
  }

  /** The two randomize handlers, after the listing has been read. */
  method RunRandomizes(req: Request, replies: Replies, ghost evs: seq<Event>,
                       success: Option<Success>, error: Option<Failure>)
    returns (success': Option<Success>, error': Option<Failure>, sent: seq<Mutation>)
    requires success == LastReported(evs) && error == LastRaised(evs)
    ensures success' == LastReported(evs + RandomAllPart(req, replies) + RandomSelectedPart(req, replies))
    ensures error' == LastRaised(evs + RandomAllPart(req, replies) + RandomSelectedPart(req, replies))
    ensures sent == RandomizeMutations(req)
  {
    success', error', sent := success, error, [];
    if AsksRandomAll(req) {
      sent := sent + [RandomizeStats(RandomizeFilter(None))];
      match replies.randomAll {
        case Done(updatedCount) => success' := Some(StatsRandomized(updatedCount));
        case Failed(m) => error' := Some(RandomizeFailed(m));
      }
    }
    ghost var mid := evs + RandomAllPart(req, replies);
    LastAfterPart(evs, RandomAllPart(req, replies));
    assert success' == LastReported(mid) && error' == LastRaised(mid);
    assert sent == if AsksRandomAll(req) then [RandomizeStats(RandomizeFilter(None))] else [];

    if req.randomMovies.Posted? {
      var movieIds := req.randomMovies.decoded;
      if movieIds.Some? && movieIds.value != [] {
        sent := sent + [RandomizeStats(RandomizeFilter(movieIds))];
        match replies.randomSelected {
          case Done(updatedCount) => success' := Some(StatsRandomized(updatedCount));
          case Failed(m) => error' := Some(RandomizeFailed(m));
        }
      }
    }
    LastAfterPart(mid, RandomSelectedPart(req, replies));
  }

  /** Runs the handlers in source order over the two shared message
      variables, returning the banners shown and the write statements sent. */
  method HandleRequest(req: Request, replies: Replies)
    returns (success: Option<Success>, error: Option<Failure>, sent: seq<Mutation>)
    ensures success == LastReported(Events(req, replies))
    ensures error == LastRaised(Events(req, replies))
    ensures sent == Mutations(req)
  {
    var deletes;
    success, error, deletes := RunDeletes(req, replies);
    ghost var evs := DeleteAllPart(req, replies) + DeleteSelectedPart(req, replies);
    error := RunListingQueries(req, replies, evs, error);
    evs := evs + DetailPart(req, replies) + QueryPart(replies.count, CountQuery) + QueryPart(replies.list, ListQuery);
    var randomizes;
    success, error, randomizes := RunRandomizes(req, replies, evs, success, error);
    sent := deletes + randomizes;
  }

  /** The row total the pagination block works from: the count query's
      result, unset when that query failed. */
  function CountedTotal(reply: StoreReply): (t: Option<nat>)
    ensures t.Some? <==> reply.Done?
    ensures t.Some? ==> t.value == reply.rows
  {
    match reply
    case Done(n) => Some(n)
    case Failed(_) => None
  }

  /** The pagination block under the listing, fed by the count query: it is
      emitted only when the count succeeded and found more than one page of
      movies, and then shows the range and the strip for that count. */
  method PaginateListing(page: int, replies: Replies) returns (pager: Option<PageLinks.Pager>)
    ensures pager.Some? <==> replies.count.Done? && Pagination.TotalPages(replies.count.rows) > 1
    ensures pager.Some? ==>
      pager.value.shown == Pagination.DisplayRange(page, replies.count.rows) &&
      pager.value.strip == PageLinks.Strip(page, Pagination.TotalPages(replies.count.rows)) &&
      pager.value.mobile == PageLinks.MobileNav(page, Pagination.TotalPages(replies.count.rows))
  {
    pager := PageLinks.Paginate(page, CountedTotal(replies.count));
  }

  // ---------------------------------------------------------------------
  // Properties of the handlers

  /** The last success or failure of a concatenation is the second part's
      if it has one, else the first part's. */
  lemma {:induction false} LastOfConcat(x: seq<Event>, y: seq<Event>)
    ensures LastReported(x + y) == if LastReported(y).Some? then LastReported(y) else LastReported(x)
    ensures LastRaised(x + y) == if LastRaised(y).Some? then LastRaised(y) else LastRaised(x)
  {
    if y == [] {
      assert x + y == x;
    } else {
      assert (x + y)[..|x + y| - 1] == x + y[..|y| - 1];
      LastOfConcat(x, y[..|y| - 1]);
    }
  }

  /** Every store call the request makes succeeded. */
  predicate CallsSucceed(req: Request, replies: Replies)
  {
    (AsksDeleteAll(req) ==> replies.deleteAll.Done?)
    && (Selects(req.deleteMovies) ==> replies.deleteSelected.Done?)
    && (req.detailId.Some? ==> replies.detail.Done?)
    && replies.count.Done? && replies.list.Done?
    && (AsksRandomAll(req) ==> replies.randomAll.Done?)
    && (Selects(req.randomMovies) ==> replies.randomSelected.Done?)
  }

  /** The error banner is shown exactly when a store call the request made
      failed; a skipped selection never shows one. */
  lemma NoErrorIffCallsSucceed(req: Request, replies: Replies)
    ensures LastRaised(Events(req, replies)) == None <==> CallsSucceed(req, replies)
  {
    var a, b, c := DeleteAllPart(req, replies), DeleteSelectedPart(req, replies), DetailPart(req, replies);
    var d, e := QueryPart(replies.count, CountQuery), QueryPart(replies.list, ListQuery);
    var f, g := RandomAllPart(req, replies), RandomSelectedPart(req, replies);
    assert LastRaised(Events(req, replies)) == None <==>
      LastRaised(a) == None && LastRaised(b) == None && LastRaised(c) == None && LastRaised(d) == None
      && LastRaised(e) == None && LastRaised(f) == None && LastRaised(g) == None
    by {
      LastOfConcat(a, b);
      LastOfConcat(a + b, c);
      LastOfConcat(a + b + c, d);
      LastOfConcat(a + b + c + d, e);
      LastOfConcat(a + b + c + d + e, f);
      LastOfConcat(a + b + c + d + e + f, g);
    }
    assert LastRaised(a) == None <==> (AsksDeleteAll(req) ==> replies.deleteAll.Done?) by { LastOfPart(a); }
    assert LastRaised(b) == None <==> (Selects(req.deleteMovies) ==> replies.deleteSelected.Done?) by { LastOfPart(b); }
    assert LastRaised(c) == None <==> (req.detailId.Some? ==> replies.detail.Done?) by { LastOfPart(c); }
    assert LastRaised(d) == None <==> replies.count.Done? by { LastOfPart(d); }
    assert LastRaised(e) == None <==> replies.list.Done? by { LastOfPart(e); }
    assert LastRaised(f) == None <==> (AsksRandomAll(req) ==> replies.randomAll.Done?) by { LastOfPart(f); }
    assert LastRaised(g) == None <==> (Selects(req.randomMovies) ==> replies.randomSelected.Done?) by { LastOfPart(g); }
  }

  /** A posted delete list that is empty, or a payload that decodes to
      nothing, has the same effect as not posting the field: no statement,
      no banner. */
  lemma SkippedDeleteIsSilent(req: Request, replies: Replies, decoded: Option<seq<int>>)
    requires !Selects(Posted(decoded))
    ensures Events(req.(deleteMovies := Posted(decoded)), replies) == Events(req.(deleteMovies := Absent), replies)
    ensures Mutations(req.(deleteMovies := Posted(decoded))) == Mutations(req.(deleteMovies := Absent))
  {
  }

  /** The same for the randomize list. */
  lemma SkippedRandomizeIsSilent(req: Request, replies: Replies, decoded: Option<seq<int>>)
    requires !Selects(Posted(decoded))
    ensures Events(req.(randomMovies := Posted(decoded)), replies) == Events(req.(randomMovies := Absent), replies)
    ensures Mutations(req.(randomMovies := Posted(decoded))) == Mutations(req.(randomMovies := Absent))
  {
  }

  /** A bulk delete that the store accepted reports the number of submitted
      identifiers (duplicates and identifiers of missing movies included),
      unless a later randomize in the same request reports over it. */
  lemma DeleteReportsSubmittedCount(req: Request, replies: Replies, ids: seq<int>)
    requires req.deleteMovies == Posted(Some(ids)) && ids != []
    requires replies.deleteSelected.Done?
    requires !AsksRandomAll(req) && !Selects(req.randomMovies)
    ensures LastReported(Events(req, replies)) == Some(SelectedDeleted(|ids|))
  {
    var a, b, c := DeleteAllPart(req, replies), DeleteSelectedPart(req, replies), DetailPart(req, replies);
    var d, e := QueryPart(replies.count, CountQuery), QueryPart(replies.list, ListQuery);
    LastAfterPart(a, b);
    LastAfterPart(a + b, c);
    LastAfterPart(a + b + c, d);
    LastAfterPart(a + b + c + d, e);
    LastAfterPart(a + b + c + d + e, []);
    LastAfterPart(a + b + c + d + e + [], []);
  }

  /** A selection randomize that the store accepted reports the statement's
      affected-row count, whatever ran before it in the request. */
  lemma RandomizeReportsAffectedRows(req: Request, replies: Replies, ids: seq<int>, n: nat)
    requires req.randomMovies == Posted(Some(ids)) && ids != []
    requires replies.randomSelected == Done(n)
    ensures LastReported(Events(req, replies)) == Some(StatsRandomized(n))
  {
    var before := DeleteAllPart(req, replies) + DeleteSelectedPart(req, replies) + DetailPart(req, replies)
      + QueryPart(replies.count, CountQuery) + QueryPart(replies.list, ListQuery) + RandomAllPart(req, replies);
    LastAfterPart(before, RandomSelectedPart(req, replies));
  }

  /** The `random_all` action, too, reports the statement's affected-row
      count when no selection randomize follows it. */
  lemma RandomAllReportsAffectedRows(req: Request, replies: Replies, n: nat)
    requires AsksRandomAll(req) && replies.randomAll == Done(n)
    requires !Selects(req.randomMovies)
    ensures LastReported(Events(req, replies)) == Some(StatsRandomized(n))
  {
    var before := DeleteAllPart(req, replies) + DeleteSelectedPart(req, replies) + DetailPart(req, replies)
      + QueryPart(replies.count, CountQuery) + QueryPart(replies.list, ListQuery);
    LastAfterPart(before, RandomAllPart(req, replies));
    LastAfterPart(before + RandomAllPart(req, replies), RandomSelectedPart(req, replies));
  }

  /** Handlers that report no success leave the earlier success in place:
      a later failure (or a quiet query) never clears the success banner. */
  lemma {:induction false} FailureNeverClearsSuccess(x: seq<Event>, y: seq<Event>)
    requires forall e :: e in y ==> !e.Reported?
    ensures LastReported(x + y) == LastReported(x)
  {
    NothingReported(y);
    LastOfConcat(x, y);
  }

  lemma {:induction false} NothingReported(y: seq<Event>)
    requires forall e :: e in y ==> !e.Reported?
    ensures LastReported(y) == None
  {
    if y != [] {
      assert y[|y| - 1] in y;
      assert forall e :: e in y[..|y| - 1] ==> e in y;
      NothingReported(y[..|y| - 1]);
    }
  }

  /** An instance: after a successful delete-all, a failing listing query
      shows both banners. */
  lemma FailureKeepsEarlierSuccess(req: Request, replies: Replies, m: string)
    requires req == Request(Some("delete_all"), Absent, None, Absent)
    requires replies.deleteAll.Done? && replies.count.Done? && replies.list == Failed(m)
    ensures LastReported(Events(req, replies)) == Some(AllDeleted)
    ensures LastRaised(Events(req, replies)) == Some(QueryFailed(ListQuery, m))
  {
    var a := DeleteAllPart(req, replies);
    var rest := DeleteSelectedPart(req, replies) + DetailPart(req, replies)
      + QueryPart(replies.count, CountQuery) + QueryPart(replies.list, ListQuery)
      + RandomAllPart(req, replies) + RandomSelectedPart(req, replies);
    assert rest == [Quiet, Raised(QueryFailed(ListQuery, m))];
    assert Events(req, replies) == a + rest;
    FailureNeverClearsSuccess(a, rest);
    LastOfPart(a);
    LastOfConcat(a, rest);
    assert LastRaised(rest) == Some(QueryFailed(ListQuery, m)) by {
      assert rest[..1] == [Quiet];
      assert rest[..1][..0] == [];
    }
  }

  /** Every statement the request sends binds exactly one value per `?`,
      and the selection statements bind the posted identifiers in order. */
  lemma SentStatementsBindEveryMark(req: Request)
    ensures forall m :: m in Mutations(req) && m.DeleteIds? ==>
      CountChar(m.statement.sql, '?') == |m.statement.params| && m.statement.params == req.deleteMovies.decoded.value
    ensures forall m :: m in Mutations(req) && m.RandomizeStats? ==>
      CountChar(m.filter.sql, '?') == |m.filter.params|
  {
  }
}
