/** The decision logic of the six JSON handlers registered by
    `registerRoutes`: each handler is a pure function from the store and the
    already-parsed request to a status, a body and the next store.  The
    "current user" is hard-coded, as in the server: user 1 reads and creates
    requests, user 2 makes offers. */
module Routes {
  import opened Results
  import opened Seqs
  import opened OrderedMaps
  import opened Json
  import opened Schema
  import opened Recency
  import opened Storage

  /** The user that lists "my" requests and offers and creates requests. */
  const CurrentUserId: int := 1
  /** The user every offer is made by. */
  const OfferingUserId: int := 2

  const RequestNotFound: string := "Request not found"
  const OwnOfferRefused: string := "You cannot offer help on your own request"
  const InvalidRequestData: string := "Invalid request data"
  const CreateRequestFailed: string := "Failed to create request"

  /** The JSON body of a response. */
  datatype Body =
    | RequestList(requests: seq<Request>)
    | OneRequest(request: Request)
    | OneOffer(offer: Offer)
    | Message(message: string)
    | InvalidData(message: string, errors: seq<Issue>)

  datatype Response = Response(status: nat, body: Body)

  /** A response together with the store the handler leaves behind. */
  datatype Handled = Handled(response: Response, store: MemStorage)

  /** `GET /api/requests`: every stored request, newest first. */
  function ListRequests(s: MemStorage): (r: Response)
    ensures r.status == 200 && r.body.RequestList?
    ensures NewestFirst(r.body.requests)
    ensures multiset(r.body.requests) == multiset(Values(s.requests))
  {
    Response(200, RequestList(GetAllRequests(s)))
  }

  /** `GET /api/my-requests`: the requests owned by user 1. */
  function MyRequests(s: MemStorage): (r: Response)
    ensures r.status == 200 && r.body.RequestList?
    ensures r.body.requests == GetRequestsByUser(s, CurrentUserId)
    ensures forall q :: q in r.body.requests <==> q in Values(s.requests) && q.user.id == CurrentUserId
    ensures forall q ::
              multiset(r.body.requests)[q] == if q.user.id == CurrentUserId then multiset(Values(s.requests))[q] else 0
  {
    Response(200, RequestList(GetRequestsByUser(s, CurrentUserId)))
  }

  /** `GET /api/my-offers`: the requests user 1 has offered help on. */
  function MyOffers(s: MemStorage): (r: Response)
    ensures r.status == 200 && r.body.RequestList?
    ensures r.body.requests == GetRequestsByUserOffers(s, CurrentUserId)
    ensures |r.body.requests| <= |OffersBy(s, CurrentUserId)|
    ensures forall q :: q in r.body.requests <==>
      exists o :: o in Values(s.offers) && o.userId == CurrentUserId && Get(s.requests, o.requestId) == Some(q)
  {
    var listed := GetRequestsByUserOffers(s, CurrentUserId);
    assert forall q :: q in listed <==>
      exists o :: o in Values(s.offers) && o.userId == CurrentUserId && Get(s.requests, o.requestId) == Some(q) by {
      forall q ensures q in listed <==>
        exists o :: o in Values(s.offers) && o.userId == CurrentUserId && Get(s.requests, o.requestId) == Some(q)
      {
        GetRequestsByUserOffersMembers(s, CurrentUserId, q);
      }
    }
    Response(200, RequestList(listed))
  }

  /** `GET /api/requests/:id`, where `id` is the parsed path parameter
      (`None` when it does not parse as an integer). */
  function ShowRequest(s: MemStorage, id: Option<int>): (r: Response)
    ensures r.status == 404 || r.status == 200
    ensures r.status == 404 <==> id.None? || Get(s.requests, id.value).None?
    ensures Valid(s) ==> (r.status == 404 <==> id.None? || forall q :: q in Values(s.requests) ==> q.id != id.value)
    ensures r.status == 404 ==> r.body == Message(RequestNotFound)
    ensures r.status == 200 ==> r.body.OneRequest? && Get(s.requests, id.value) == Some(r.body.request)
    ensures Valid(s) && r.status == 200 ==> r.body.request in Values(s.requests) && r.body.request.id == id.value
  {
    match id
    case None => Response(404, Message(RequestNotFound))
    case Some(k) =>
      match GetRequestById(s, k)
      case None => Response(404, Message(RequestNotFound))
      case Some(q) => Response(200, OneRequest(q))
  }

  /** `POST /api/requests`: validate the body, then create the request for
      user 1.  An unknown user 1 makes `createRequest` throw, which the
      handler turns into a 500 after the request counter has moved on. */
  function PostRequest(s: MemStorage, body: Json, now: nat, distance: DistanceFn): (h: Handled)
    ensures h.response.status in {201, 400, 500}
    ensures h.response.status == 400 <==> !IsInsertRequestShape(body)
    ensures h.response.status == 400 ==>
      && h.response.body.InvalidData?
      && h.response.body.message == InvalidRequestData
      && |h.response.body.errors| > 0
      && h.response.body.errors == ValidateInsertRequest(body).error
      && h.store == s
    ensures h.response.status == 500 <==> IsInsertRequestShape(body) && GetUser(s, CurrentUserId).None?
    ensures h.response.status == 500 ==>
      && h.response.body == Message(CreateRequestFailed)
      && h.store == s.(currentRequestId := s.currentRequestId + 1)
    ensures h.response.status == 201 ==>
      var data := InsertRequestOf(body);
      && h.response.body.OneRequest?
      && var q := h.response.body.request;
      && h == Handled(Response(201, OneRequest(q)), CreateRequest(s, data, CurrentUserId, now, distance).store)
      && q.id == s.currentRequestId && q.userId == CurrentUserId
      && q.title == data.title && q.description == data.description
      && q.category == data.category && q.location == data.location
      && q.status == DefaultRequestStatus && q.createdAt == now
      && GetUser(s, CurrentUserId) == Some(q.user)
      && q.distance == distance(ReferenceLat, ReferenceLng, data.location.lat, data.location.lng)
      && Get(h.store.requests, q.id) == Some(q)
      && h.store.currentRequestId == s.currentRequestId + 1
      && h.store.currentUserId == s.currentUserId && h.store.currentOfferId == s.currentOfferId
      && h.store.users == s.users && h.store.offers == s.offers
      && (Valid(s) ==> Values(h.store.requests) == Values(s.requests) + [q])
    ensures Valid(s) ==> Valid(h.store)
  {
    match ValidateInsertRequest(body)
    case Failure(issues) => Handled(Response(400, InvalidData(InvalidRequestData, issues)), s)
    case Success(data) =>
      var c := CreateRequest(s, data, CurrentUserId, now, distance);
      CreateRequestKeepsValid(s, data, CurrentUserId, now, distance);
      match c.value
      case Failure(_) => Handled(Response(500, Message(CreateRequestFailed)), c.store)
      case Success(q) => Handled(Response(201, OneRequest(q)), c.store)
  }

  /** `POST /api/requests/:id/offers`: user 2 offers help on the request,
      forwarding the body's `message` unchecked. */
  function PostOffer(s: MemStorage, id: Option<int>, body: Json, now: nat): (h: Handled)
    ensures h.response.status in {201, 400, 404}
    ensures h.response.status == 404 <==> id.None? || Get(s.requests, id.value).None?
    ensures h.response.status == 404 ==> h.response.body == Message(RequestNotFound) && h.store == s
    ensures h.response.status == 400 <==>
      id.Some? && Get(s.requests, id.value).Some? && Get(s.requests, id.value).value.user.id == OfferingUserId
    ensures h.response.status == 400 ==> h.response.body == Message(OwnOfferRefused) && h.store == s
    ensures h.response.status == 201 ==>
      && h.response.body.OneOffer?
      && var o := h.response.body.offer;
      && o.id == s.currentOfferId && o.requestId == id.value && o.userId == OfferingUserId
      && o.message == Field(body, "message") && o.status == DefaultOfferStatus && o.createdAt == now
      && h == Handled(Response(201, OneOffer(o)),
                      CreateOffer(s, id.value, OfferingUserId, Field(body, "message"), now).store)
      && h.store.users == s.users && h.store.requests == s.requests
      && h.store.currentOfferId == s.currentOfferId + 1
      && h.store.currentUserId == s.currentUserId && h.store.currentRequestId == s.currentRequestId
      && Get(h.store.offers, o.id) == Some(o)
      && (Valid(s) ==> Values(h.store.offers) == Values(s.offers) + [o])
    ensures Valid(s) ==> Valid(h.store)
  {
    match id
    case None => Handled(Response(404, Message(RequestNotFound)), s)
    case Some(k) =>
      match GetRequestById(s, k)
      case None => Handled(Response(404, Message(RequestNotFound)), s)
      case Some(q) =>
        if q.user.id == OfferingUserId then
          Handled(Response(400, Message(OwnOfferRefused)), s)
        else
          var c := CreateOffer(s, k, OfferingUserId, Field(body, "message"), now);
          Handled(Response(201, OneOffer(c.value)), c.store)
  }

  // ---------------------------------------------------------------------
  // Runs of the API

  /** One call to the API, with its inputs already parsed. */
  datatype Call =
    | GetRequests
    | GetMyRequests
    | GetMyOffers
    | GetRequest(id: Option<int>)
    | PostRequestCall(body: Json, now: nat)
    | PostOfferCall(id: Option<int>, body: Json, now: nat)

  /** Dispatches a call to its handler. */
  function Handle(s: MemStorage, c: Call, distance: DistanceFn): (h: Handled)
    ensures c.GetRequests? || c.GetMyRequests? || c.GetMyOffers? || c.GetRequest? ==> h.store == s
  {
    match c
    case GetRequests => Handled(ListRequests(s), s)
    case GetMyRequests => Handled(MyRequests(s), s)
    case GetMyOffers => Handled(MyOffers(s), s)
    case GetRequest(id) => Handled(ShowRequest(s, id), s)
    case PostRequestCall(body, now) => PostRequest(s, body, now, distance)
    case PostOfferCall(id, body, now) => PostOffer(s, id, body, now)
  }

  /** The store after handling `calls` one after another. */
  function Run(s: MemStorage, calls: seq<Call>, distance: DistanceFn): MemStorage
    decreases |calls|
  {
    if |calls| == 0 then s else Run(Handle(s, calls[0], distance).store, calls[1..], distance)
  }

  /** The offer targets a stored request that user 2 does not own. */
  predicate OnOthersRequest(s: MemStorage, o: Offer) {
    Get(s.requests, o.requestId).Some? && Get(s.requests, o.requestId).value.user.id != OfferingUserId
  }

  /** What the handlers keep true of a store: it is valid, every offer is
      user 2's and targets someone else's stored request, and request 2 is
      stored and owned by user 2. */
  predicate ApiInvariant(s: MemStorage) {
    && Valid(s)
    && (forall o :: o in Values(s.offers) ==> o.userId == OfferingUserId && OnOthersRequest(s, o))
    && Get(s.requests, 2).Some? && Get(s.requests, 2).value.user.id == OfferingUserId
  }

  lemma {:induction false} InitialApiInvariant(now: nat)
    ensures ApiInvariant(Initial(now))
  {
    SeedRequestTwo(now);
  }

  lemma {:induction false} PostRequestKeepsApiInvariant(s: MemStorage, body: Json, now: nat, distance: DistanceFn)
    requires ApiInvariant(s)
    ensures ApiInvariant(PostRequest(s, body, now, distance).store)
  {
    var s' := PostRequest(s, body, now, distance).store;
    if IsInsertRequestShape(body) {
      var data := InsertRequestOf(body);
      assert s' == CreateRequest(s, data, CurrentUserId, now, distance).store;
      forall k | Get(s.requests, k).Some?
        ensures Get(s'.requests, k) == Get(s.requests, k)
      {
        CreateRequestKeepsStored(s, data, CurrentUserId, now, distance, k);
      }
      assert forall o :: o in Values(s'.offers) ==> o in Values(s.offers);
    }
  }

  lemma {:induction false} PostOfferKeepsApiInvariant(s: MemStorage, id: Option<int>, body: Json, now: nat)
    requires ApiInvariant(s)
    ensures ApiInvariant(PostOffer(s, id, body, now).store)
  {
    var h := PostOffer(s, id, body, now);
    if h.response.status == 201 {
      var o := h.response.body.offer;
      assert OnOthersRequest(h.store, o);
      assert forall x :: x in Values(h.store.offers) ==> x in Values(s.offers) || x == o;
    }
  }

  /** Every handler keeps the API invariant. */
  lemma {:induction false} HandleKeepsApiInvariant(s: MemStorage, c: Call, distance: DistanceFn)
    requires ApiInvariant(s)
    ensures ApiInvariant(Handle(s, c, distance).store)
  {
    match c
    case PostRequestCall(body, now) => PostRequestKeepsApiInvariant(s, body, now, distance);
    case PostOfferCall(id, body, now) => PostOfferKeepsApiInvariant(s, id, body, now);
    case _ =>
  }

  /** Any sequence of calls keeps the API invariant. */
  lemma {:induction false} RunKeepsApiInvariant(s: MemStorage, calls: seq<Call>, distance: DistanceFn)
    requires ApiInvariant(s)
    ensures ApiInvariant(Run(s, calls, distance))
    decreases |calls|
  {
    if |calls| > 0 {
      HandleKeepsApiInvariant(s, calls[0], distance);
      RunKeepsApiInvariant(Handle(s, calls[0], distance).store, calls[1..], distance);
    }
  }

  /** `/api/my-offers` asks for user 1's offers, but every offer made
      through the API is user 2's: after any run from the seeded store the
      list is empty. */
  lemma {:induction false} MyOffersAlwaysEmpty(now: nat, calls: seq<Call>, distance: DistanceFn)
    ensures MyOffers(Run(Initial(now), calls, distance)) == Response(200, RequestList([]))
  {
    var s := Run(Initial(now), calls, distance);
    InitialApiInvariant(now);
    RunKeepsApiInvariant(Initial(now), calls, distance);
  }

  /** The seeded request 2 belongs to user 2, the hard-coded offerer: after
      any run from the seeded store no offer targets it, and offering on it
      is refused with 400 and leaves the store alone. */
  lemma {:induction false} SeedRequestTwoNeverOffered(
    now: nat, calls: seq<Call>, distance: DistanceFn, body: Json, later: nat)
    ensures var s := Run(Initial(now), calls, distance);
            && (forall o :: o in Values(s.offers) ==> o.requestId != 2)
            && PostOffer(s, Some(2), body, later) == Handled(Response(400, Message(OwnOfferRefused)), s)
  {
    InitialApiInvariant(now);
    RunKeepsApiInvariant(Initial(now), calls, distance);
  }
}
