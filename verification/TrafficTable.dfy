/** The traffic table of the dashboard (`loadTraffic` in public/admin.js): replies guarded by a request counter,
    with two ways in which a reply makes the table ask again. Requests in flight may complete in any order. */
module TrafficTable {
  import opened Options
  import LivePolling

  type OriginId(==) = string

  /** What a request asks for; no origin stands for the empty filter value, "All origins". */
  datatype Query = Query(page: nat, origin: Option<OriginId>)

  datatype Reply = Result(page: nat, totalPages: nat, origins: seq<OriginId>) | Failure

  /** The table body: the loading row, the rows of a reply, or an error row. */
  datatype Body = Untouched | Loading | Rows(request: nat, query: Query) | ErrorRow(request: nat)

  datatype Event = Choose(query: Query) | Reload | Completes(request: nat, reply: Reply)

  /** The filter is emptied by a reply that lists fewer than two origins, or several without the chosen one. */
  predicate Listed(origin: Option<OriginId>, origins: seq<OriginId>) {
    origin.None? || (|origins| > 1 && origin.value in origins)
  }

  /** When a reply is answered by another request, and which. */
  function Retry(q: Query, r: Reply): (retry: Option<Query>)
    requires r.Result?
  {
    if r.page > r.totalPages then Some(Query(r.totalPages, q.origin))
    else if |r.origins| <= 1 && q.origin.Some? then Some(Query(1, None))
    else None
  }

  class Table {
    var trafficRequestId: nat
    var page: nat
    var origin: Option<OriginId>
    var body: Body
    var inFlight: map<nat, Query>
    // every request whose rows have been shown
    var rendered: seq<nat>

    function Filters(): Query
      reads this
    {
      Query(page, origin)
    }

    /** The loading row is there exactly while the newest request is in flight, and that request asked for what
        the filters show; rows and errors are the newest request's, and rows disagree with the filters only in
        an origin that the filter has lost. */
    ghost predicate BodyOk()
      reads this
    {
      && (body.Loading? <==> trafficRequestId in inFlight)
      && (trafficRequestId in inFlight ==> inFlight[trafficRequestId] == Filters())
      && (body.Rows? ==> body.request == trafficRequestId && body.query.page == page
                         && (origin.None? || origin == body.query.origin))
      && (body.ErrorRow? ==> body.request == trafficRequestId)
    }

    ghost predicate RequestsOk()
      reads this
    {
      && (forall r <- inFlight :: r <= trafficRequestId && r !in rendered)
      && (forall r <- rendered :: r <= trafficRequestId)
      && LivePolling.Increasing(rendered)
    }

    ghost predicate Valid()
      reads this
    {
      BodyOk() && RequestsOk()
    }

    constructor ()
      ensures Valid() && body == Untouched && rendered == [] && inFlight == map[] && Filters() == Query(1, None)
    {
      trafficRequestId, page, origin, body := 0, 1, None, Untouched;
      inFlight, rendered := map[], [];
    }

    /** The synchronous part of `loadTraffic`, up to its await. */
    method LoadTraffic()
      requires RequestsOk()
      modifies this`trafficRequestId, this`body, this`inFlight
      ensures Valid() && body == Loading && trafficRequestId == old(trafficRequestId) + 1
      ensures inFlight == old(inFlight)[trafficRequestId := Filters()]
    {
      trafficRequestId := trafficRequestId + 1;
      body := Loading;
      inFlight := inFlight[trafficRequestId := Query(page, origin)];
    }

    /** A filter or page button changes the query and loads. */
    method ChooseQuery(query: Query)
      requires Valid()
      modifies this
      ensures Valid() && body == Loading && Filters() == query && rendered == old(rendered)
      ensures trafficRequestId == old(trafficRequestId) + 1
    {
      page, origin := query.page, query.origin;
      LoadTraffic();
    }

    /** The part of `loadTraffic` after its await. A stale reply, good or bad, changes nothing but what is in
        flight. The newest one asks again as `Retry` says, or is shown; then the rows were asked for with the
        filters now shown if and only if the chosen origin is listed. */
    method CompleteReply(request: nat, reply: Reply)
      requires Valid() && request in inFlight
      modifies this
      ensures Valid() && request !in inFlight
      ensures request != old(trafficRequestId) ==>
        trafficRequestId == old(trafficRequestId) && Filters() == old(Filters()) && body == old(body)
        && rendered == old(rendered)
      ensures request == old(trafficRequestId) && reply.Failure? ==>
        body == ErrorRow(request) && Filters() == old(Filters()) && rendered == old(rendered)
        && trafficRequestId == request
      ensures request == old(trafficRequestId) && reply.Result? ==>
        match Retry(old(Filters()), reply)
        case Some(again) => body == Loading && Filters() == again && trafficRequestId == request + 1
            && rendered == old(rendered)
        case None =>
          && body == Rows(request, old(Filters())) && rendered == old(rendered) + [request]
          && trafficRequestId == request
          && (body.query == Filters() <==> Listed(old(origin), reply.origins))
    {
      inFlight := inFlight - {request};
      if request != trafficRequestId {
        return;
      }
      if reply.Failure? {
        body := ErrorRow(request);
        return;
      }
      if reply.page > reply.totalPages {
        page := reply.totalPages;
        LoadTraffic();
        return;
      }
      var selected := origin;
      origin := None;
      var multiple := |reply.origins| > 1;
      if multiple && selected.Some? && selected.value in reply.origins {
        origin := selected;
      }
      if !multiple && selected.Some? {
        page := 1;
        LoadTraffic();
        return;
      }
      body := Rows(request, Query(page, selected));
      assert forall i :: 0 <= i < |rendered| ==> rendered[i] in rendered && rendered[i] < request;
      rendered := rendered + [request];
    }

    predicate Possible(e: Event)
      reads this
    {
      e.Completes? ==> e.request in inFlight
    }

    /** Any interleaving of choices, reloads and replies: the requests whose rows are shown strictly increase, and
        the loading row never outlives the request it stands for. */
    method Run(events: seq<Event>)
      requires Valid()
      modifies this
      ensures Valid() && old(rendered) <= rendered
      ensures forall i, j :: 0 <= i < j < |rendered| ==> rendered[i] < rendered[j]
      ensures inFlight == map[] ==> !body.Loading?
    {
      for i := 0 to |events|
        invariant Valid() && old(rendered) <= rendered
      {
        if Possible(events[i]) {
          match events[i] {
            case Choose(query) => ChooseQuery(query);
            case Reload => LoadTraffic();
            case Completes(request, reply) => CompleteReply(request, reply);
          }
        }
      }
    }

    /** A server that echoes the page and whose other answers depend only on the origin: left alone with it, a
        loading table shows rows after at most three replies. It lists at least one page, as `pageResult` in
        src/db/repository.ts does. */
    method Settle(totalPages: map<Option<OriginId>, nat>, origins: map<Option<OriginId>, seq<OriginId>>)
        returns (replies: nat)
      requires Valid() && body == Loading
      requires {None, origin} <= totalPages.Keys && {None, origin} <= origins.Keys
      requires forall o <- totalPages :: totalPages[o] >= 1
      modifies this
      ensures Valid() && body.Rows? && 1 <= replies <= 3
      ensures body.query.origin in {None, old(origin)} && body.query.page <= totalPages[body.query.origin]
      ensures body.query.origin.Some? ==> |origins[body.query.origin]| > 1
    {
      replies := 0;
      while body.Loading?
        invariant Valid() && (body.Loading? || body.Rows?)
        invariant origin in {None, old(origin)}
        invariant body.Loading? ==> replies <= 2
        invariant body.Loading? && replies >= 1 ==> page <= totalPages[origin]
        invariant body.Loading? && replies == 2 ==> origin.None?
        invariant body.Rows? ==> 1 <= replies <= 3 && body.query.origin in {None, old(origin)}
        invariant body.Rows? ==> body.query.page <= totalPages[body.query.origin]
        invariant body.Rows? ==> body.query.origin.Some? ==> |origins[body.query.origin]| > 1
        decreases if body.Loading? then 3 - replies else 0
      {
        CompleteReply(trafficRequestId, Result(page, totalPages[origin], origins[origin]));
        replies := replies + 1;
      }
    }
  }
}
