/** The in-memory domain store (`MemStorage` in server/storage.ts): three
    insertion-ordered maps keyed by integer ids and one id counter per map.
    Each operation is a pure function from a store to a new store. */
module Storage {
  import opened Results
  import opened Seqs
  import opened OrderedMaps
  import opened Json
  import opened Schema
  import opened Recency

  datatype MemStorage = MemStorage(
    users: OrderedMap<User>,
    requests: OrderedMap<Request>,
    offers: OrderedMap<Offer>,
    currentUserId: int,
    currentRequestId: int,
    currentOfferId: int)

  /** What a creating operation hands back: the new store and its result. */
  datatype Created<T> = Created(store: MemStorage, value: T)

  /** The great-circle distance in miles between two coordinates, as
      `calculateDistance(lat1, lng1, lat2, lng2)` computes it. */
  type DistanceFn = (real, real, real, real) -> real

  /** The fixed point every new request's distance is measured from. */
  const ReferenceLat: real := 37.7749
  const ReferenceLng: real := -122.4194

  const UserNotFound: string := "User not found"

  // ---------------------------------------------------------------------
  // Invariant

  /** Every stored request's owner snapshot is a stored user record whose id
      is the request's `userId`. */
  predicate OwnersConsistent(users: OrderedMap<User>, requests: OrderedMap<Request>) {
    forall i :: 0 <= i < |requests| ==>
      requests[i].value.user.id == requests[i].value.userId && requests[i].value.user in Values(users)
  }

  predicate UserIdsMatch(m: OrderedMap<User>) {
    forall i :: 0 <= i < |m| ==> m[i].key == m[i].value.id
  }

  predicate RequestIdsMatch(m: OrderedMap<Request>) {
    forall i :: 0 <= i < |m| ==> m[i].key == m[i].value.id
  }

  predicate OfferIdsMatch(m: OrderedMap<Offer>) {
    forall i :: 0 <= i < |m| ==> m[i].key == m[i].value.id
  }

  /** The store invariant: each key is its record's id, keys lie below their
      counter (so the next id is fresh), and request owners are consistent. */
  predicate Valid(s: MemStorage) {
    && KeysBelow(s.users, s.currentUserId) && UserIdsMatch(s.users)
    && KeysBelow(s.requests, s.currentRequestId) && RequestIdsMatch(s.requests)
    && KeysBelow(s.offers, s.currentOfferId) && OfferIdsMatch(s.offers)
    && OwnersConsistent(s.users, s.requests)
  }

  // ---------------------------------------------------------------------
  // Seed data

  const User1: User := User(1, "Sarah M.", "password123")
  const User2: User := User(2, "Mike T.", "password123")
  const User3: User := User(3, "David L.", "password123")

  const Description1: string :=
    "I'm recovering from surgery and need help getting groceries from Trader Joe's. It's about 10 items. Can compensate for your time."
  const Description2: string :=
    "Need someone to walk my friendly lab mix on Saturday morning. I have an appointment and will be gone for about 3 hours. Regular walker unavailable."
  const Description3: string :=
    "Looking for someone who can help mount my new 55\" TV on drywall. I have the mounting bracket. Should take less than an hour. Can pay or exchange for a skill!"

  function SeedRequest1(now: nat): Request {
    Request(1, "Help with grocery shopping needed", Description1, "groceries",
            Location(37.77, -122.41, Some("Mission District"), Some("San Francisco")),
            1, "open", now, User1, 0.7)
  }

  function SeedRequest2(now: nat): Request {
    Request(2, "Dog walking help this weekend", Description2, "petcare",
            Location(37.75, -122.43, Some("Noe Valley"), Some("San Francisco")),
            2, "open", now, User2, 1.2)
  }

  function SeedRequest3(now: nat): Request {
    Request(3, "Need help mounting a TV", Description3, "handyman",
            Location(37.76, -122.42, Some("Castro"), Some("San Francisco")),
            3, "open", now, User3, 0.9)
  }

  function SeedRequests(now: nat): seq<Request> {
    [SeedRequest1(now), SeedRequest2(now), SeedRequest3(now)]
  }

  const SeedUsers: OrderedMap<User> := [Entry(1, User1), Entry(2, User2), Entry(3, User3)]

  function SeedRequestMap(now: nat): OrderedMap<Request> {
    [Entry(1, SeedRequest1(now)), Entry(2, SeedRequest2(now)), Entry(3, SeedRequest3(now))]
  }

  /** The store at process start: three users, three requests all created at
      `now`, no offers; the user and request counters continue at 4. */
  function Initial(now: nat): (s: MemStorage)
    ensures Valid(s)
    ensures Values(s.users) == [User1, User2, User3]
    ensures Values(s.requests) == SeedRequests(now)
    ensures |s.offers| == 0
    ensures s.currentUserId == 4 && s.currentRequestId == 4 && s.currentOfferId == 1
  {
    SeedOwnersConsistent(now);
    MemStorage(SeedUsers, SeedRequestMap(now), [], 4, 4, 1)
  }

  lemma {:induction false} SeedOwnersConsistent(now: nat)
    ensures OwnersConsistent(SeedUsers, SeedRequestMap(now))
  {
    assert Values(SeedUsers) == [User1, User2, User3];
  }

  // ---------------------------------------------------------------------
  // Users

  /** `getUser(id)`. */
  function GetUser(s: MemStorage, id: int): (r: Option<User>)
    ensures r.Some? ==> r.value in Values(s.users)
    ensures Valid(s) && r.Some? ==> r.value.id == id
    ensures Valid(s) ==> (r.None? <==> forall u :: u in Values(s.users) ==> u.id != id)
  {
    var r := Get(s.users, id);
    if r.Some? then
      var i :| 0 <= i < |s.users| && s.users[i] == Entry(id, r.value);
      assert Values(s.users)[i] == r.value;
      r
    else
      assert Valid(s) ==> forall u :: u in Values(s.users) ==> u.id != id by {
        if Valid(s) {
          forall u | u in Values(s.users) ensures u.id != id {
            var i :| 0 <= i < |s.users| && Values(s.users)[i] == u;
          }
        }
      }
      r
  }

  /** `getUserByUsername(name)`: the earliest-registered user with exactly
      that name, or nothing. */
  function GetUserByUsername(s: MemStorage, name: string): (r: Option<User>)
    ensures r.Some? ==> r.value in Values(s.users) && r.value.username == name
    ensures r.None? <==> forall u :: u in Values(s.users) ==> u.username != name
    ensures r.Some? ==> exists i :: 0 <= i < |s.users| && s.users[i].value == r.value
                                    && forall j :: 0 <= j < i ==> s.users[j].value.username != name
  {
    var vs := Values(s.users);
    var r := Find(vs, (u: User) => u.username == name);
    if r.Some? then
      assert r.value in vs && r.value.username == name by {
        var i :| 0 <= i < |vs| && vs[i] == r.value && r.value.username == name;
      }
      r
    else
      assert forall u :: u in vs ==> u.username != name by {
        forall u | u in vs ensures u.username != name {
          var i := IndexOf(vs, u);
        }
      }
      r
  }

  /** `createUser(data)`: the next user id, whatever the name; names are not
      checked for uniqueness. */
  function CreateUser(s: MemStorage, data: InsertUser): (r: Created<User>)
    ensures r.value == User(s.currentUserId, data.username, data.password)
    ensures r.store.currentUserId == s.currentUserId + 1
    ensures r.store.requests == s.requests && r.store.offers == s.offers
    ensures r.store.currentRequestId == s.currentRequestId && r.store.currentOfferId == s.currentOfferId
    ensures GetUser(r.store, r.value.id) == Some(r.value)
    ensures forall id :: id != r.value.id ==> GetUser(r.store, id) == GetUser(s, id)
    ensures Valid(s) ==> Valid(r.store) && Values(r.store.users) == Values(s.users) + [r.value]
  {
    var id := s.currentUserId;
    var user := User(id, data.username, data.password);
    var s' := s.(users := Set(s.users, id, user), currentUserId := id + 1);
    AddUserLookups(s.users, id, user);
    if Valid(s) then
      AddUserValid(s, user);
      Created(s', user)
    else
      Created(s', user)
  }

  lemma {:induction false} AddUserLookups(users: OrderedMap<User>, id: int, user: User)
    ensures forall k :: k != id ==> Get(Set(users, id, user), k) == Get(users, k)
  {
    forall k | k != id ensures Get(Set(users, id, user), k) == Get(users, k) {
      SetOther(users, id, user, k);
    }
  }

  lemma {:induction false} AddUserValid(s: MemStorage, user: User)
    requires Valid(s)
    requires user.id == s.currentUserId
    ensures Set(s.users, user.id, user) == s.users + [Entry(user.id, user)]
    ensures Values(Set(s.users, user.id, user)) == Values(s.users) + [user]
    ensures Valid(s.(users := Set(s.users, user.id, user), currentUserId := user.id + 1))
  {
    AppendFresh(s.users, user.id, user);
    var users := s.users + [Entry(user.id, user)];
    assert UserIdsMatch(users) by {
      forall i | 0 <= i < |users| ensures users[i].key == users[i].value.id {
        if i < |s.users| {
          assert users[i] == s.users[i];
        }
      }
    }
    assert OwnersConsistent(users, s.requests) by {
      forall q | q in Values(s.users) ensures q in Values(users) {
        assert q in Values(s.users) + [user];
      }
    }
  }

  // ---------------------------------------------------------------------
  // Requests

  /** `getAllRequests()`: every stored request, newest first. */
  function GetAllRequests(s: MemStorage): (r: seq<Request>)
    ensures NewestFirst(r)
    ensures multiset(r) == multiset(Values(s.requests))
  {
    SortNewestFirst(Values(s.requests))
  }

  /** `getRequestById(id)`. */
  function GetRequestById(s: MemStorage, id: int): (r: Option<Request>)
    ensures r.Some? ==> r.value in Values(s.requests)
    ensures Valid(s) && r.Some? ==> r.value.id == id
    ensures Valid(s) ==> (r.None? <==> forall q :: q in Values(s.requests) ==> q.id != id)
  {
    var r := Get(s.requests, id);
    if r.Some? then
      var i :| 0 <= i < |s.requests| && s.requests[i] == Entry(id, r.value);
      assert Values(s.requests)[i] == r.value;
      r
    else
      assert Valid(s) ==> forall q :: q in Values(s.requests) ==> q.id != id by {
        if Valid(s) {
          forall q | q in Values(s.requests) ensures q.id != id {
            var i :| 0 <= i < |s.requests| && Values(s.requests)[i] == q;
          }
        }
      }
      r
  }

  /** `getRequestsByUser(userId)`: the stored requests whose owner snapshot
      has that id, in insertion order. */
  function GetRequestsByUser(s: MemStorage, userId: int): (r: seq<Request>)
    ensures forall q :: q in r <==> q in Values(s.requests) && q.user.id == userId
    ensures forall q :: multiset(r)[q] == if q.user.id == userId then multiset(Values(s.requests))[q] else 0
  {
    Filter(Values(s.requests), (q: Request) => q.user.id == userId)
  }

  /** In a valid store, filtering on the owner snapshot and on `userId` agree. */
  lemma {:induction false} GetRequestsByUserMatchesUserId(s: MemStorage, userId: int)
    requires Valid(s)
    ensures GetRequestsByUser(s, userId) == Filter(Values(s.requests), (q: Request) => q.userId == userId)
  {
    var vs := Values(s.requests);
    forall q | q in vs ensures q.user.id == q.userId {
      var i :| 0 <= i < |vs| && vs[i] == q;
    }
    FilterAgree(vs, (q: Request) => q.user.id == userId, (q: Request) => q.userId == userId);
  }

  /** The requests the given offers point at, in offer order; an offer whose
      request id resolves to nothing contributes nothing. */
  function ResolveOffers(os: seq<Offer>, requests: OrderedMap<Request>): (r: seq<Request>)
    ensures |r| <= |os|
    ensures forall q :: q in r <==> exists i :: 0 <= i < |os| && Get(requests, os[i].requestId) == Some(q)
  {
    if |os| == 0 then []
    else
      var head := match Get(requests, os[0].requestId) case Some(q) => [q] case None => [];
      var rest := ResolveOffers(os[1..], requests);
      assert forall q :: (exists i :: 0 <= i < |os[1..]| && Get(requests, os[1..][i].requestId) == Some(q))
                         ==> (exists i :: 0 <= i < |os| && Get(requests, os[i].requestId) == Some(q)) by {
        forall q | exists i :: 0 <= i < |os[1..]| && Get(requests, os[1..][i].requestId) == Some(q)
          ensures exists i :: 0 <= i < |os| && Get(requests, os[i].requestId) == Some(q)
        {
          var i :| 0 <= i < |os[1..]| && Get(requests, os[1..][i].requestId) == Some(q);
          assert os[i + 1] == os[1..][i];
        }
      }
      assert forall q :: (exists i :: 0 <= i < |os| && Get(requests, os[i].requestId) == Some(q))
                         ==> q in head + rest by {
        forall q | exists i :: 0 <= i < |os| && Get(requests, os[i].requestId) == Some(q)
          ensures q in head + rest
        {
          var i :| 0 <= i < |os| && Get(requests, os[i].requestId) == Some(q);
          if i > 0 {
            assert os[1..][i - 1] == os[i];
          }
        }
      }
      head + rest
  }

  lemma {:induction false} ResolveOffersAppend(a: seq<Offer>, b: seq<Offer>, requests: OrderedMap<Request>)
    ensures ResolveOffers(a + b, requests) == ResolveOffers(a, requests) + ResolveOffers(b, requests)
  {
    if |a| == 0 {
      assert a + b == b;
    } else {
      assert (a + b)[1..] == a[1..] + b;
      ResolveOffersAppend(a[1..], b, requests);
    }
  }

  /** The user's offers, in insertion order. */
  function OffersBy(s: MemStorage, userId: int): (r: seq<Offer>)
    ensures forall o :: o in r <==> o in Values(s.offers) && o.userId == userId
  {
    Filter(Values(s.offers), MadeBy(userId))
  }

  /** The selector of offers made by one user. */
  function MadeBy(userId: int): Offer -> bool {
    (o: Offer) => o.userId == userId
  }

  /** `getRequestsByUserOffers(userId)`: for each of the user's offers in
      insertion order, the request it points at when that request exists.
      Repeated offers give repeated entries; dangling offers are skipped. */
  function GetRequestsByUserOffers(s: MemStorage, userId: int): (r: seq<Request>)
    ensures |r| <= |OffersBy(s, userId)|
    ensures forall q :: q in r ==> q in Values(s.requests)
  {
    var r := ResolveOffers(OffersBy(s, userId), s.requests);
    assert forall q :: q in r ==> q in Values(s.requests) by {
      forall q | q in r ensures q in Values(s.requests) {
        var i :| 0 <= i < |OffersBy(s, userId)| && Get(s.requests, OffersBy(s, userId)[i].requestId) == Some(q);
        var _ := GetRequestById(s, OffersBy(s, userId)[i].requestId);
      }
    }
    r
  }

  /** A request is listed exactly when one of the user's offers points at it. */
  lemma {:induction false} GetRequestsByUserOffersMembers(s: MemStorage, userId: int, q: Request)
    ensures q in GetRequestsByUserOffers(s, userId) <==>
      exists o :: o in Values(s.offers) && o.userId == userId && Get(s.requests, o.requestId) == Some(q)
  {
    var mine := OffersBy(s, userId);
    var listed := ResolveOffers(mine, s.requests);
    assert GetRequestsByUserOffers(s, userId) == listed;
    if q in listed {
      var i :| 0 <= i < |mine| && Get(s.requests, mine[i].requestId) == Some(q);
      assert mine[i] in mine;
    }
    if exists o :: o in Values(s.offers) && o.userId == userId && Get(s.requests, o.requestId) == Some(q) {
      var o :| o in Values(s.offers) && o.userId == userId && Get(s.requests, o.requestId) == Some(q);
      assert o in mine;
      var i := IndexOf(mine, o);
      assert Get(s.requests, mine[i].requestId) == Some(q);
    }
  }

  /** `createRequest(data)` on behalf of `userId` at time `now`. The id is
      taken before the owner is looked up, so a failure still uses one up. */
  function CreateRequest(s: MemStorage, data: InsertRequest, userId: int, now: nat, distance: DistanceFn)
    : (r: Created<Result<Request, string>>)
    ensures r.store.currentRequestId == s.currentRequestId + 1
    ensures r.store.users == s.users && r.store.offers == s.offers
    ensures r.store.currentUserId == s.currentUserId && r.store.currentOfferId == s.currentOfferId
    ensures r.value.Failure? <==> GetUser(s, userId).None?
    ensures r.value.Failure? ==> r.value.error == UserNotFound && r.store.requests == s.requests
    ensures r.value.Success? ==>
      var q := r.value.value;
      && q.id == s.currentRequestId
      && q.title == data.title && q.description == data.description
      && q.category == data.category && q.location == data.location
      && q.userId == userId && GetUser(s, userId) == Some(q.user)
      && q.status == DefaultRequestStatus && q.createdAt == now
      && q.distance == distance(ReferenceLat, ReferenceLng, data.location.lat, data.location.lng)
      && Get(r.store.requests, q.id) == Some(q)
  {
    var id := s.currentRequestId;
    var s1 := s.(currentRequestId := id + 1);
    match GetUser(s, userId)
    case None => Created(s1, Failure(UserNotFound))
    case Some(user) =>
      var q := Request(id, data.title, data.description, data.category, data.location, userId,
                       DefaultRequestStatus, now, user,
                       distance(ReferenceLat, ReferenceLng, data.location.lat, data.location.lng));
      Created(s1.(requests := Set(s.requests, id, q)), Success(q))
  }

  /** Creating a request keeps a valid store valid; a created request takes
      a free id and is appended after the stored ones. */
  lemma {:induction false} CreateRequestKeepsValid(s: MemStorage, data: InsertRequest, userId: int, now: nat,
                                                   distance: DistanceFn)
    ensures var r := CreateRequest(s, data, userId, now, distance);
            && (Valid(s) ==> Valid(r.store))
            && (Valid(s) && r.value.Success? ==>
                  && Get(s.requests, r.value.value.id).None?
                  && Values(r.store.requests) == Values(s.requests) + [r.value.value])
  {
    var r := CreateRequest(s, data, userId, now, distance);
    if Valid(s) && r.value.Success? {
      AddRequestValid(s, r.value.value);
    }
  }

  lemma {:induction false} AddRequestValid(s: MemStorage, q: Request)
    requires Valid(s)
    requires q.id == s.currentRequestId
    requires q.user.id == q.userId && q.user in Values(s.users)
    ensures Get(s.requests, q.id).None?
    ensures Values(Set(s.requests, q.id, q)) == Values(s.requests) + [q]
    ensures Valid(s.(requests := Set(s.requests, q.id, q), currentRequestId := q.id + 1))
  {
    KeysBelowFresh(s.requests, s.currentRequestId, q.id);
    AppendFresh(s.requests, q.id, q);
    AppendedRequestValid(s.users, s.requests, q);
  }

  lemma {:induction false} AppendedRequestValid(users: OrderedMap<User>, requests: OrderedMap<Request>, q: Request)
    requires RequestIdsMatch(requests) && OwnersConsistent(users, requests)
    requires q.user.id == q.userId && q.user in Values(users)
    ensures RequestIdsMatch(requests + [Entry(q.id, q)])
    ensures OwnersConsistent(users, requests + [Entry(q.id, q)])
  {
    var m := requests + [Entry(q.id, q)];
    assert forall i :: 0 <= i < |requests| ==> m[i] == requests[i];
  }

  // ---------------------------------------------------------------------
  // Offers

  /** `createOffer(data)`: always succeeds with the next offer id; neither
      the request nor the user is checked. */
  function CreateOffer(s: MemStorage, requestId: int, userId: int, message: Option<Json>, now: nat)
    : (r: Created<Offer>)
    ensures r.value == Offer(s.currentOfferId, requestId, userId, message, DefaultOfferStatus, now)
    ensures r.store.currentOfferId == s.currentOfferId + 1
    ensures r.store.users == s.users && r.store.requests == s.requests
    ensures r.store.currentUserId == s.currentUserId && r.store.currentRequestId == s.currentRequestId
    ensures Get(r.store.offers, r.value.id) == Some(r.value)
    ensures Valid(s) ==> Valid(r.store) && Values(r.store.offers) == Values(s.offers) + [r.value]
  {
    var id := s.currentOfferId;
    var offer := Offer(id, requestId, userId, message, DefaultOfferStatus, now);
    var s' := s.(offers := Set(s.offers, id, offer), currentOfferId := id + 1);
    if Valid(s) then
      AppendFresh(s.offers, id, offer);
      Created(s', offer)
    else
      Created(s', offer)
  }

  // ---------------------------------------------------------------------
  // Properties relating several operations

  /** In a valid store every request's owner snapshot is what `getUser`
      returns for its `userId`. */
  lemma {:induction false} OwnerSnapshotIsStored(s: MemStorage, q: Request)
    requires Valid(s)
    requires q in Values(s.requests)
    ensures GetUser(s, q.userId) == Some(q.user)
  {
    var i :| 0 <= i < |s.requests| && Values(s.requests)[i] == q;
    var j :| 0 <= j < |s.users| && Values(s.users)[j] == q.user;
    KeysBelowDistinct(s.users, s.currentUserId);
    GetEntry(s.users, j);
  }

  /** After a successful `createRequest`, `getRequestById` of the new id
      returns the new record. */
  lemma {:induction false} CreatedRequestIsFound(s: MemStorage, data: InsertRequest, userId: int, now: nat, distance: DistanceFn)
    requires CreateRequest(s, data, userId, now, distance).value.Success?
    ensures var r := CreateRequest(s, data, userId, now, distance);
            GetRequestById(r.store, r.value.value.id) == Some(r.value.value)
  {
  }

  /** A failed `createRequest` still consumes an id: the next successful
      creation skips it, and no request is ever stored under it. */
  lemma {:induction false} FailedCreateSkipsId(
    s: MemStorage, bad: InsertRequest, badUser: int, good: InsertRequest, goodUser: int,
    now: nat, later: nat, distance: DistanceFn)
    requires Valid(s)
    requires GetUser(s, badUser).None? && GetUser(s, goodUser).Some?
    ensures var first := CreateRequest(s, bad, badUser, now, distance);
            var second := CreateRequest(first.store, good, goodUser, later, distance);
            && first.value == Failure(UserNotFound)
            && second.value.Success?
            && second.value.value.id == s.currentRequestId + 1
            && GetRequestById(second.store, s.currentRequestId).None?
  {
    var first := CreateRequest(s, bad, badUser, now, distance);
    var second := CreateRequest(first.store, good, goodUser, later, distance);
    assert first.store.users == s.users;
    SetOther(first.store.requests, s.currentRequestId + 1, second.value.value, s.currentRequestId);
    KeysBelowFresh(s.requests, s.currentRequestId, s.currentRequestId);
  }

  /** `createUser` does not enforce unique names: registering a seeded name
      again gives two users with that name, and lookup by name still finds
      the seeded one. */
  lemma {:induction false} DuplicateUsernameAccepted(now: nat)
    ensures var r := CreateUser(Initial(now), InsertUser("Sarah M.", "secret"));
            && r.value.id == 4
            && GetUser(r.store, 1).Some? && GetUser(r.store, 1).value.username == "Sarah M."
            && GetUser(r.store, 4) == Some(r.value) && r.value.username == "Sarah M."
            && GetUserByUsername(r.store, "Sarah M.") == Some(User1)
  {
    var s := Initial(now);
    var r := CreateUser(s, InsertUser("Sarah M.", "secret"));
    assert Values(r.store.users) == [User1, User2, User3, r.value];
    KeysBelowDistinct(r.store.users, r.store.currentUserId);
    GetEntry(r.store.users, 0);
    assert Values(r.store.users)[0] == User1;
  }

  /** The one-element list of a found request, empty when none. */
  function Listed(r: Option<Request>): seq<Request> {
    match r case Some(q) => [q] case None => []
  }

  lemma {:induction false} ResolveSingle(o: Offer, requests: OrderedMap<Request>)
    ensures ResolveOffers([o], requests) == Listed(Get(requests, o.requestId))
  {
    assert [o][1..] == [];
  }

  lemma {:induction false} OffersByAppend(s: MemStorage, s': MemStorage, o: Offer, who: int)
    requires Values(s'.offers) == Values(s.offers) + [o]
    ensures OffersBy(s', who) == OffersBy(s, who) + (if o.userId == who then [o] else [])
  {
    FilterAppend(Values(s.offers), [o], MadeBy(who));
    FilterSingle(o, MadeBy(who));
  }

  /** `createOffer` extends exactly the offering user's `getRequestsByUserOffers`
      list, and only by the request the offer points at if that request
      exists: a dangling offer changes no list, a repeated offer repeats
      its request. */
  lemma {:induction false} CreateOfferExtendsOfferedRequests(
    s: MemStorage, requestId: int, userId: int, message: Option<Json>, now: nat, who: int)
    requires Valid(s)
    ensures var s' := CreateOffer(s, requestId, userId, message, now).store;
            GetRequestsByUserOffers(s', who) ==
              GetRequestsByUserOffers(s, who)
              + (if who == userId then Listed(GetRequestById(s, requestId)) else [])
  {
    var c := CreateOffer(s, requestId, userId, message, now);
    var o := c.value;
    OffersByAppend(s, c.store, o, who);
    var extra := if o.userId == who then [o] else [];
    ResolveOffersAppend(OffersBy(s, who), extra, s.requests);
    if who == userId {
      ResolveSingle(o, s.requests);
    }
  }

  /** Offering twice on the same existing request lists it twice. */
  lemma {:induction false} RepeatedOfferListedTwice(
    s: MemStorage, s1: MemStorage, s2: MemStorage,
    requestId: int, userId: int, message: Option<Json>, now: nat, later: nat)
    requires Valid(s)
    requires GetRequestById(s, requestId).Some?
    requires s1 == CreateOffer(s, requestId, userId, message, now).store
    requires s2 == CreateOffer(s1, requestId, userId, message, later).store
    ensures GetRequestsByUserOffers(s2, userId)
              == GetRequestsByUserOffers(s, userId) + [GetRequestById(s, requestId).value, GetRequestById(s, requestId).value]
  {
    var q := GetRequestById(s, requestId).value;
    CreateOfferExtendsOfferedRequests(s, requestId, userId, message, now, userId);
    assert GetRequestsByUserOffers(s1, userId) == GetRequestsByUserOffers(s, userId) + [q];
    assert Valid(s1) && s1.requests == s.requests;
    CreateOfferExtendsOfferedRequests(s1, requestId, userId, message, later, userId);
    var x0 := GetRequestsByUserOffers(s, userId);
    assert GetRequestsByUserOffers(s2, userId) == (x0 + [q]) + [q];
    AppendPair(x0, q, q);
  }

  /** The seeded request 2 is stored under id 2 and owned by user 2. */
  lemma {:induction false} SeedRequestTwo(now: nat)
    ensures Get(Initial(now).requests, 2) == Some(SeedRequest2(now))
    ensures SeedRequest2(now).user.id == 2
  {
    var m := Initial(now).requests;
    KeysBelowDistinct(m, 4);
    GetEntry(m, 1);
    assert m[1] == Entry(2, SeedRequest2(now));
  }

  /** `createRequest` never replaces a stored request. */
  lemma {:induction false} CreateRequestKeepsStored(
    s: MemStorage, data: InsertRequest, userId: int, now: nat, distance: DistanceFn, k: int)
    requires Valid(s)
    requires Get(s.requests, k).Some?
    ensures Get(CreateRequest(s, data, userId, now, distance).store.requests, k) == Get(s.requests, k)
  {
    var r := CreateRequest(s, data, userId, now, distance);
    if r.value.Success? {
      if k >= s.currentRequestId {
        KeysBelowFresh(s.requests, s.currentRequestId, k);
        assert false;
      }
      SetOther(s.requests, s.currentRequestId, r.value.value, k);
    }
  }
}
