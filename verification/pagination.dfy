/** getAllEvents and getAllEventGuests: follow `next_cursor` from page to page,
    100 entries per request, until a page says `has_more: false`.

    The server keeps asking for as long as the API reports more pages, so the
    loops are specified against `Follow`, the first `fuel` steps of that
    conversation, and require that some number of steps finishes it. */
module Pagination {
  import opened LumaTypes
  import opened Strings
  import opened ApiClient

  /** How a walk over the pages ends: every entry collected, the first failure,
      or not yet finished after the steps allowed. */
  datatype Outcome<+T> = Collected(items: seq<T>) | Failed(error: McpError) | Unfinished

  /** The requests sent, the pages received in answer, and the outcome. */
  datatype Walk<+E, +T> = Walk(requests: seq<Request>, pages: seq<Page<E>>, outcome: Outcome<T>)

  /** The entries of the pages, page after page, each projected. */
  function Flatten<E, T>(pages: seq<Page<E>>, project: E -> T): seq<T> {
    if pages == [] then [] else Map(pages[0].entries, project) + Flatten(pages[1..], project)
  }

  function Prepend<T>(items: seq<T>, o: Outcome<T>): Outcome<T> {
    match o
    case Collected(xs) => Collected(items + xs)
    case _ => o
  }

  /** At most `fuel` steps of the cursor loop started at `cursor`. `request`
      builds the request for a cursor; `send` is the network. */
  function Follow<E, T>(request: Option<string> -> Request, send: Request -> Transport<Page<E>>,
                        project: E -> T, cursor: Option<string>, fuel: nat): Walk<E, T>
    decreases fuel
  {
    if fuel == 0 then Walk([], [], Unfinished)
    else
      var q := request(cursor);
      match MakeRequest(send(q))
      case Failure(e) => Walk([q], [], Failed(e))
      case Success(page) =>
        if !page.hasMore then Walk([q], [page], Collected(Map(page.entries, project)))
        else
          var rest := Follow(request, send, project, page.nextCursor, fuel - 1);
          Walk([q] + rest.requests, [page] + rest.pages, Prepend(Map(page.entries, project), rest.outcome))
  }

  function ResultOf<T>(o: Outcome<T>): Result<seq<T>, McpError>
    requires !o.Unfinished?
  {
    match o
    case Collected(xs) => Success(xs)
    case Failed(e) => Failure(e)
  }

  /** Once the loop has finished within some number of steps, allowing more steps
      changes nothing. */
  lemma {:induction false} FollowFuelMonotone<E, T>(request: Option<string> -> Request, send: Request -> Transport<Page<E>>,
                                                     project: E -> T, cursor: Option<string>, fuel: nat, more: nat)
    requires !Follow(request, send, project, cursor, fuel).outcome.Unfinished?
    requires fuel <= more
    ensures Follow(request, send, project, cursor, more) == Follow(request, send, project, cursor, fuel)
    decreases fuel
  {
    var q := request(cursor);
    match MakeRequest(send(q))
    case Failure(_) =>
    case Success(page) =>
      if page.hasMore {
        FollowFuelMonotone(request, send, project, page.nextCursor, fuel - 1, more - 1);
      }
  }

  /** Every finished walk from the same cursor is the same walk. */
  lemma FinishedWalksAgree<E, T>(request: Option<string> -> Request, send: Request -> Transport<Page<E>>,
                                 project: E -> T, cursor: Option<string>, fuel: nat)
    requires !Follow(request, send, project, cursor, fuel).outcome.Unfinished?
    ensures forall other: nat :: !Follow(request, send, project, cursor, other).outcome.Unfinished? ==>
      Follow(request, send, project, cursor, other) == Follow(request, send, project, cursor, fuel)
  {
    forall other: nat | !Follow(request, send, project, cursor, other).outcome.Unfinished?
      ensures Follow(request, send, project, cursor, other) == Follow(request, send, project, cursor, fuel)
    {
      if other <= fuel {
        FollowFuelMonotone(request, send, project, cursor, other, fuel);
      } else {
        FollowFuelMonotone(request, send, project, cursor, fuel, other);
      }
    }
  }

  /** A walk sends one request more than the pages it receives exactly when it
      failed or ran out of steps; the first request carries the starting cursor. */
  lemma {:induction false} WalkLengths<E, T>(request: Option<string> -> Request, send: Request -> Transport<Page<E>>,
                                             project: E -> T, cursor: Option<string>, fuel: nat)
    ensures var w := Follow(request, send, project, cursor, fuel);
      && |w.pages| <= |w.requests| <= |w.pages| + 1
      && (w.outcome.Collected? ==> |w.requests| == |w.pages| > 0)
      && (w.outcome.Failed? ==> |w.requests| == |w.pages| + 1)
      && (fuel > 0 ==> |w.requests| > 0 && w.requests[0] == request(cursor))
    decreases fuel
  {
    if fuel > 0 {
      match MakeRequest(send(request(cursor)))
      case Failure(_) =>
      case Success(page) =>
        if page.hasMore {
          WalkLengths(request, send, project, page.nextCursor, fuel - 1);
        }
    }
  }

  /** Page k of a walk is the answer to its request k. */
  lemma {:induction false} WalkAnswers<E, T>(request: Option<string> -> Request, send: Request -> Transport<Page<E>>,
                                             project: E -> T, cursor: Option<string>, fuel: nat)
    ensures var w := Follow(request, send, project, cursor, fuel);
      |w.pages| <= |w.requests| &&
      forall k :: 0 <= k < |w.pages| ==> MakeRequest(send(w.requests[k])) == Success(w.pages[k])
    decreases fuel
  {
    WalkLengths(request, send, project, cursor, fuel);
    if fuel > 0 {
      match MakeRequest(send(request(cursor)))
      case Failure(_) =>
      case Success(page) =>
        if page.hasMore {
          var rest := Follow(request, send, project, page.nextCursor, fuel - 1);
          WalkAnswers(request, send, project, page.nextCursor, fuel - 1);
          var w := Follow(request, send, project, cursor, fuel);
          forall k | 0 <= k < |w.pages|
            ensures MakeRequest(send(w.requests[k])) == Success(w.pages[k])
          {
            if k > 0 {
              assert w.requests[k] == rest.requests[k - 1];
              assert w.pages[k] == rest.pages[k - 1];
            }
          }
        }
    }
  }

  /** Every request after the first carries the `next_cursor` of the page before
      it, and that page said `has_more`. */
  lemma {:induction false} WalkLinks<E, T>(request: Option<string> -> Request, send: Request -> Transport<Page<E>>,
                                           project: E -> T, cursor: Option<string>, fuel: nat)
    ensures var w := Follow(request, send, project, cursor, fuel);
      |w.requests| <= |w.pages| + 1 &&
      forall k :: 0 <= k < |w.requests| - 1 ==>
        w.pages[k].hasMore && w.requests[k + 1] == request(w.pages[k].nextCursor)
    decreases fuel
  {
    WalkLengths(request, send, project, cursor, fuel);
    if fuel > 0 {
      match MakeRequest(send(request(cursor)))
      case Failure(_) =>
      case Success(page) =>
        if page.hasMore {
          var rest := Follow(request, send, project, page.nextCursor, fuel - 1);
          WalkLinks(request, send, project, page.nextCursor, fuel - 1);
          WalkLengths(request, send, project, page.nextCursor, fuel - 1);
          var w := Follow(request, send, project, cursor, fuel);
          forall k | 0 <= k < |w.requests| - 1
            ensures w.pages[k].hasMore && w.requests[k + 1] == request(w.pages[k].nextCursor)
          {
            if k > 0 {
              assert w.requests[k + 1] == rest.requests[k];
              assert w.pages[k] == rest.pages[k - 1];
            }
          }
        }
    }
  }

  /** A walk that collects stops right after the first page that says
      `has_more: false`, and collects exactly the entries of its pages in the
      order they arrived. */
  lemma {:induction false} WalkCollects<E, T>(request: Option<string> -> Request, send: Request -> Transport<Page<E>>,
                                              project: E -> T, cursor: Option<string>, fuel: nat)
    ensures var w := Follow(request, send, project, cursor, fuel);
      w.outcome.Collected? ==>
        |w.pages| > 0 && !w.pages[|w.pages| - 1].hasMore && w.outcome.items == Flatten(w.pages, project)
    decreases fuel
  {
    if fuel > 0 {
      match MakeRequest(send(request(cursor)))
      case Failure(_) =>
      case Success(page) =>
        var w := Follow(request, send, project, cursor, fuel);
        if !page.hasMore {
          assert Flatten(w.pages, project) == Map(page.entries, project) + Flatten([], project);
        } else {
          var rest := Follow(request, send, project, page.nextCursor, fuel - 1);
          WalkCollects(request, send, project, page.nextCursor, fuel - 1);
          assert w.pages[1..] == rest.pages;
        }
    }
  }

  /** A walk that fails stops at the first request whose answer is a failure,
      and reports that failure. */
  lemma {:induction false} WalkFails<E, T>(request: Option<string> -> Request, send: Request -> Transport<Page<E>>,
                                           project: E -> T, cursor: Option<string>, fuel: nat)
    ensures var w := Follow(request, send, project, cursor, fuel);
      w.outcome.Failed? ==>
        |w.requests| == |w.pages| + 1 && MakeRequest(send(w.requests[|w.pages|])) == Failure(w.outcome.error)
    decreases fuel
  {
    if fuel > 0 {
      match MakeRequest(send(request(cursor)))
      case Failure(_) =>
      case Success(page) =>
        if page.hasMore {
          var rest := Follow(request, send, project, page.nextCursor, fuel - 1);
          WalkFails(request, send, project, page.nextCursor, fuel - 1);
          var w := Follow(request, send, project, cursor, fuel);
          if w.outcome.Failed? {
            assert w.requests[|w.pages|] == rest.requests[|rest.pages|];
          }
        }
    }
  }

  /** A page that says `has_more: false` ends the loop whatever its `next_cursor`. */
  lemma LastPageEndsLoop<E, T>(request: Option<string> -> Request, send: Request -> Transport<Page<E>>,
                               project: E -> T, cursor: Option<string>, fuel: nat)
    requires fuel > 0
    requires MakeRequest(send(request(cursor))).Success?
    requires !MakeRequest(send(request(cursor))).value.hasMore
    ensures Follow(request, send, project, cursor, fuel) ==
      Walk([request(cursor)], [MakeRequest(send(request(cursor))).value],
           Collected(Map(MakeRequest(send(request(cursor))).value.entries, project)))
  {
  }

  /** A cursor loop starts with nothing sent, received or collected. */
  lemma FollowStart<E, T>(w: Walk<E, T>)
    ensures w == Walk([] + w.requests, [] + w.pages, Prepend([], w.outcome))
  {
    assert [] + w.requests == w.requests && [] + w.pages == w.pages;
    match w.outcome
    case Collected(xs) => assert [] + xs == xs;
    case _ =>
  }

  /** One turn of a cursor loop that has sent `requests`, received `pages` and
      collected `items`: when the next request fails, the walk ends there. */
  lemma FollowFails<E, T>(request: Option<string> -> Request, send: Request -> Transport<Page<E>>,
                          project: E -> T, cursor: Option<string>, fuel: nat,
                          requests: seq<Request>, pages: seq<Page<E>>, items: seq<T>)
    requires !Follow(request, send, project, cursor, fuel).outcome.Unfinished?
    requires MakeRequest(send(request(cursor))).Failure?
    ensures var w := Follow(request, send, project, cursor, fuel);
      Walk(requests + w.requests, pages + w.pages, Prepend(items, w.outcome)) ==
      Walk(requests + [request(cursor)], pages, Failed(MakeRequest(send(request(cursor))).error))
  {
  }

  /** The same turn when the next request brings a page: its entries are added
      to what was collected and, while it says there are more, the rest of the
      walk is what is left of it from the page's cursor. */
  lemma FollowPage<E, T>(request: Option<string> -> Request, send: Request -> Transport<Page<E>>,
                         project: E -> T, cursor: Option<string>, fuel: nat, whole: Walk<E, T>,
                         q: Request, requests: seq<Request>, pages: seq<Page<E>>, items: seq<T>, page: Page<E>,
                         collected: seq<T>)
    requires !Follow(request, send, project, cursor, fuel).outcome.Unfinished?
    requires var w := Follow(request, send, project, cursor, fuel);
      whole == Walk(requests + w.requests, pages + w.pages, Prepend(items, w.outcome))
    requires q == request(cursor) && MakeRequest(send(q)) == Success(page)
    requires collected == items + Map(page.entries, project)
    ensures fuel > 0
    ensures !page.hasMore ==> whole == Walk(requests + [q], pages + [page], Collected(collected))
    ensures page.hasMore ==>
      var rest := Follow(request, send, project, page.nextCursor, fuel - 1);
      && !rest.outcome.Unfinished?
      && whole == Walk(requests + [q] + rest.requests, pages + [page] + rest.pages, Prepend(collected, rest.outcome))
  {
    if page.hasMore {
      var rest := Follow(request, send, project, page.nextCursor, fuel - 1);
      assert requests + ([q] + rest.requests) == requests + [q] + rest.requests;
      assert pages + ([page] + rest.pages) == pages + [page] + rest.pages;
      match rest.outcome
      case Collected(xs) =>
        assert items + (Map(page.entries, project) + xs) == collected + xs;
      case _ =>
    }
  }

  /** Whether some number of steps finishes the cursor loop. */
  ghost predicate Finishes<E, T>(request: Option<string> -> Request, send: Request -> Transport<Page<E>>,
                                 project: E -> T) {
    exists fuel: nat :: !Follow(request, send, project, None, fuel).outcome.Unfinished?
  }

  /** The loop getAllEvents and getAllEventGuests both run: request the page at
      the cursor, stop at the first failure, add the page's entries, and go on
      from the page's `next_cursor` while it says `has_more`. It sends exactly the
      requests of the finished walk and returns its outcome. */
  method CollectPages<E, T>(request: Option<string> -> Request, send: Request -> Transport<Page<E>>, project: E -> T)
    returns (result: Result<seq<T>, McpError>, requests: seq<Request>)
    requires Finishes(request, send, project)
    ensures forall fuel: nat :: !Follow(request, send, project, None, fuel).outcome.Unfinished? ==>
      var w := Follow(request, send, project, None, fuel);
      requests == w.requests && result == ResultOf(w.outcome)
  {
    ghost var fuel: nat :| !Follow(request, send, project, None, fuel).outcome.Unfinished?;
    FinishedWalksAgree(request, send, project, None, fuel);
    ghost var whole := Follow(request, send, project, None, fuel);
    FollowStart(whole);
    ghost var pages: seq<Page<E>> := [];
    ghost var left := fuel;
    var all: seq<T> := [];
    var cursor: Option<string> := None;
    var hasMore := true;
    requests := [];
    while hasMore
      invariant hasMore ==>
        var rest := Follow(request, send, project, cursor, left);
        !rest.outcome.Unfinished? &&
        whole == Walk(requests + rest.requests, pages + rest.pages, Prepend(all, rest.outcome))
      invariant !hasMore ==> whole == Walk(requests, pages, Collected(all))
      decreases left
    {
      var q := request(cursor);
      var response := MakeRequest(send(q));
      if response.Failure? {
        FollowFails(request, send, project, cursor, left, requests, pages, all);
        requests := requests + [q];
        return Failure(response.error), requests;
      }
      var page := response.value;
      var entries := Map(page.entries, project);
      FollowPage(request, send, project, cursor, left, whole, q, requests, pages, all, page, all + entries);
      requests := requests + [q];
      all := all + entries;
      pages := pages + [page];
      hasMore := page.hasMore;
      cursor := page.nextCursor;
      left := left - 1;
    }
    result := Success(all);
  }

  // ---------------------------------------------------------------------------
  // getAllEvents

  function Itself<T>(x: T): T {
    x
  }

  /** The options of each getAllEvents page request. */
  function EventsPageOptions(cursor: Option<string>): ListEventsOptions {
    ListEventsOptions(cursor, Some(100), None, None, None, None)
  }

  function EventsPageRequest(cursor: Option<string>): Request {
    ListEventsRequest(EventsPageOptions(cursor))
  }

  /** The first request has no cursor and asks for 100 events; a later one passes
      the previous page's cursor when it is non-empty. */
  lemma EventsPageRequests(cursor: Option<string>)
    ensures EventsPageRequest(None) ==
      Get("/calendar/list-events", [Param("pagination_limit", "100")], true)
    ensures Truthy(cursor) ==>
      (EventsPageRequest(cursor) ==
       Get("/calendar/list-events", [Param("pagination_cursor", cursor.value), Param("pagination_limit", "100")], true))
  {
    EventsPageQuery(None);
    EventsPageQuery(cursor);
  }

  /** Only the cursor, when truthy, and the limit of 100 are set. */
  lemma EventsPageQuery(cursor: Option<string>)
    ensures ListEventsQuery(EventsPageOptions(cursor)) ==
      Entry(("pagination_cursor", IfTruthy(cursor))) + [Param("pagination_limit", "100")]
  {
    var t := ListEventsTable(EventsPageOptions(cursor));
    PresentSix(t);
    assert IntToString(100) == "100";
    assert Entry(t[1]) == [Param("pagination_limit", "100")];
    assert Entry(t[2]) == Entry(t[3]) == Entry(t[4]) == Entry(t[5]) == [];
  }

  ghost predicate EventsFinish(send: Request -> Transport<Page<EventSummary>>) {
    Finishes(EventsPageRequest, send, Itself)
  }

  /** getAllEvents: every event of the calendar, 100 per request. */
  method GetAllEvents(send: Request -> Transport<Page<EventSummary>>)
    returns (result: Result<seq<EventSummary>, McpError>, requests: seq<Request>)
    requires EventsFinish(send)
    ensures forall fuel: nat :: !Follow(EventsPageRequest, send, Itself, None, fuel).outcome.Unfinished? ==>
      var w := Follow(EventsPageRequest, send, Itself, None, fuel);
      requests == w.requests && result == ResultOf(w.outcome)
  {
    result, requests := CollectPages(EventsPageRequest, send, Itself);
  }

  /** Two pages, the first pointing at the second: the events of both, in order,
      after exactly two requests. */
  lemma TwoPagesCollected(send: Request -> Transport<Page<EventSummary>>, e1: EventSummary, e2: EventSummary,
                          e3: EventSummary, c1: string, text1: string, text2: string)
    requires send(EventsPageRequest(None)) == Received(200, text1, Success(Page([e1, e2], true, Some(c1))))
    requires send(EventsPageRequest(Some(c1))) == Received(200, text2, Success(Page([e3], false, None)))
    ensures forall fuel: nat :: fuel >= 2 ==>
      Follow(EventsPageRequest, send, Itself, None, fuel).outcome == Collected([e1, e2, e3]) &&
      Follow(EventsPageRequest, send, Itself, None, fuel).requests == [EventsPageRequest(None), EventsPageRequest(Some(c1))]
  {
    forall fuel: nat | fuel >= 2
      ensures Follow(EventsPageRequest, send, Itself, None, fuel).outcome == Collected([e1, e2, e3])
      ensures Follow(EventsPageRequest, send, Itself, None, fuel).requests == [EventsPageRequest(None), EventsPageRequest(Some(c1))]
    {
      assert Map([e1, e2], Itself) == [e1, e2];
      LastOfTwoPages(send, e3, c1, text2, fuel - 1);
    }
  }

  /** The second of the two pages ends the walk with its one event. */
  lemma LastOfTwoPages(send: Request -> Transport<Page<EventSummary>>, e3: EventSummary, c1: string,
                       text2: string, fuel: nat)
    requires send(EventsPageRequest(Some(c1))) == Received(200, text2, Success(Page([e3], false, None)))
    requires fuel > 0
    ensures Follow(EventsPageRequest, send, Itself, Some(c1), fuel) ==
      Walk([EventsPageRequest(Some(c1))], [Page([e3], false, None)], Collected([e3]))
  {
    assert Map([e3], Itself) == [e3];
    LastPageEndsLoop(EventsPageRequest, send, Itself, Some(c1), fuel);
  }

  /** A page that says `has_more` without a non-empty `next_cursor` makes the next
      request the same as the first, so a server that answers the first request
      that way keeps the loop going for as many steps as it is given. */
  lemma {:induction false} MissingCursorLoops(send: Request -> Transport<Page<EventSummary>>, fuel: nat)
    requires MakeRequest(send(EventsPageRequest(None))).Success?
    requires MakeRequest(send(EventsPageRequest(None))).value.hasMore
    requires !Truthy(MakeRequest(send(EventsPageRequest(None))).value.nextCursor)
    ensures Follow(EventsPageRequest, send, Itself, None, fuel).outcome.Unfinished?
    decreases fuel
  {
    var next := MakeRequest(send(EventsPageRequest(None))).value.nextCursor;
    assert ListEventsTable(EventsPageOptions(next)) == ListEventsTable(EventsPageOptions(None));
    assert EventsPageRequest(next) == EventsPageRequest(None);
    if fuel > 0 {
      MissingCursorLoops(send, fuel - 1);
    }
  }

  /** ... and so getAllEvents never returns for such a server. */
  lemma MissingCursorNeverFinishes(send: Request -> Transport<Page<EventSummary>>)
    requires MakeRequest(send(EventsPageRequest(None))).Success?
    requires MakeRequest(send(EventsPageRequest(None))).value.hasMore
    requires !Truthy(MakeRequest(send(EventsPageRequest(None))).value.nextCursor)
    ensures !EventsFinish(send)
  {
    forall fuel: nat
      ensures Follow(EventsPageRequest, send, Itself, None, fuel).outcome.Unfinished?
    {
      MissingCursorLoops(send, fuel);
    }
  }

  // ---------------------------------------------------------------------------
  // getAllEventGuests

  function GuestOf(entry: GuestEntry): Guest {
    entry.guest
  }

  /** The request for each getAllEventGuests page of one event. */
  function GuestsPageRequests(eventApiId: string): Option<string> -> Request {
    cursor => EventGuestsRequest(eventApiId, GuestPageOptions(cursor, Some(100)))
  }

  /** The first request names the event and asks for 100 guests; a later one
      also passes the previous page's cursor when it is non-empty. */
  lemma GuestsPageRequestsShape(eventApiId: string, cursor: Option<string>)
    ensures GuestsPageRequests(eventApiId)(None) ==
      Get("/event/get-guests", [Param("event_api_id", eventApiId), Param("pagination_limit", "100")], false)
    ensures Truthy(cursor) ==>
      GuestsPageRequests(eventApiId)(cursor) ==
      Get("/event/get-guests", [Param("event_api_id", eventApiId), Param("pagination_cursor", cursor.value),
                                Param("pagination_limit", "100")], false)
  {
    GuestsPageQuery(eventApiId, None);
    GuestsPageQuery(eventApiId, cursor);
  }

  lemma GuestsPageQuery(eventApiId: string, cursor: Option<string>)
    ensures EventGuestsQuery(eventApiId, GuestPageOptions(cursor, Some(100))) ==
      [Param("event_api_id", eventApiId)] + Entry(("pagination_cursor", IfTruthy(cursor))) +
      [Param("pagination_limit", "100")]
  {
    var t := EventGuestsTable(GuestPageOptions(cursor, Some(100)));
    PresentTwo(t);
    assert IntToString(100) == "100";
    assert Entry(t[1]) == [Param("pagination_limit", "100")];
  }

  ghost predicate GuestsFinish(eventApiId: string, send: Request -> Transport<Page<GuestEntry>>) {
    Finishes(GuestsPageRequests(eventApiId), send, GuestOf)
  }

  /** getAllEventGuests: every guest of the event, 100 per request, each entry
      reduced to its guest. */
  method GetAllEventGuests(eventApiId: string, send: Request -> Transport<Page<GuestEntry>>)
    returns (result: Result<seq<Guest>, McpError>, requests: seq<Request>)
    requires GuestsFinish(eventApiId, send)
    ensures forall fuel: nat :: !Follow(GuestsPageRequests(eventApiId), send, GuestOf, None, fuel).outcome.Unfinished? ==>
      var w := Follow(GuestsPageRequests(eventApiId), send, GuestOf, None, fuel);
      requests == w.requests && result == ResultOf(w.outcome)
  {
    result, requests := CollectPages(GuestsPageRequests(eventApiId), send, GuestOf);
  }
}
