# FrndlyNghbrhd neighbourhood-help board — Dafny model

FrndlyNghbrhd is a small web app. Neighbours post requests for help with groceries, pet care, repairs and similar
tasks, and other neighbours offer to help. This project models its core in Dafny:

- the in-memory store `MemStorage`: users, requests and offers in insertion-ordered maps, one id counter per map, and
  the seed data;
- the decision logic of the six JSON handlers: status code, body and next store, with the hard-coded "current users";
- the insert-payload validator of the shared schema, and the stricter form schema of the request page;
- the category table and the relative-time formatter of the client utilities;
- the list rules of the home and map pages: category filter, newest-first sort, the three most recent, and the category
  toggle. The map page also has the view chosen from the address and the count line;
- the request card's description preview, owner initials and category badge.

The store is an immutable record threaded through pure functions. A JavaScript `Map` becomes an association list
(`OrderedMaps.OrderedMap`), because `Array.from(map.values())` order is observable. The store invariant
`Storage.Valid` says three things: each key is its record's id, keys increase and stay below their counter, and every
request's owner snapshot is a stored user with the request's `userId`. Every create operation preserves it.
`Routes.ApiInvariant` strengthens it for runs driven only through the handlers.

The wall clock enters as `now: nat` (milliseconds). Elapsed time enters as whole seconds. The distance function
`calculateDistance` is a parameter `distance: (real, real, real, real) -> real`, and the store is proved to record its
result for the fixed reference point.

Modules, one per file: `Results`, `Seqs`, `Strings`, `OrderedMaps`, `Json`, `Schema`, `Utils`, `Recency`, `Storage`,
`Routes`, `CreateRequestForm`, `Browse` (home.dfy), `MapViewPage`, `RequestCard`.

## Model

| member | source | states |
|---|---|---|
| Storage.Initial | server/storage.ts:34-130 | The seeded store is valid. It holds users 1-3 ("Sarah M.", "Mike T.", "David L.") and the three seed requests, in order, and no offers. The user and request counters are 4 and the offer counter is 1. |
| Storage.SeedRequestTwo | server/storage.ts:91-108 | Request 2 is stored under id 2 and its owner snapshot is user 2. |
| Storage.GetUser | server/storage.ts:132-134 | Returns a stored user. In a valid store that user has the asked id, and the result is absent exactly when no stored user has that id. |
| Storage.GetUserByUsername | server/storage.ts:136-140 | Returns the first user, in insertion order, whose name equals the argument. Absent exactly when no user has that name. |
| Storage.CreateUser | server/storage.ts:142-147 | The new user gets the counter's id and the given name and password. The counter grows by one, nothing else changes, and other ids look up as before. The store stays valid and the user is appended to the values. |
| Storage.DuplicateUsernameAccepted | server/storage.ts:142-147 | Registering the seeded name "Sarah M." again succeeds with id 4. Both users are stored, and lookup by name still returns user 1. |
| Storage.GetAllRequests | server/storage.ts:149-156 | The result is a permutation of the stored requests, ordered newest first. |
| Recency.SortNewestFirst | server/storage.ts:152-155 | The result is a permutation of its input, with `createdAt` non-increasing. |
| Storage.GetRequestById | server/storage.ts:158-160 | Returns a stored request. In a valid store it has the asked id, and it is absent exactly when no stored request has that id. |
| Storage.GetRequestsByUser | server/storage.ts:162-166 | Keeps exactly the stored requests whose owner snapshot has the asked id. Each is kept as often as it is stored. |
| Storage.GetRequestsByUserMatchesUserId | server/storage.ts:162-166 | In a valid store, filtering by the owner snapshot's id equals filtering by `userId`. |
| Storage.OffersBy | server/storage.ts:169-171 | Exactly the stored offers made by the user. |
| Storage.ResolveOffers | server/storage.ts:173-174 | One entry at most per offer, and a request appears exactly when some offer's `requestId` resolves to it. |
| Storage.ResolveOffersAppend | server/storage.ts:173-174 | Resolving offers commutes with concatenation, so the order of offers is kept. |
| Storage.GetRequestsByUserOffers | server/storage.ts:168-175 | No more entries than the user has offers, and every entry is a stored request. |
| Storage.GetRequestsByUserOffersMembers | server/storage.ts:168-175 | A request is listed exactly when one of the user's offers points at its id. |
| Storage.CreateRequest | server/storage.ts:177-211 | The counter always grows by one. The result fails with "User not found" exactly when the user is unknown, and then the requests are unchanged. On success the request has the counter's id, the input's fields, `userId`, the stored user record, status "open", the time and `distance(37.7749, -122.4194, lat, lng)`. It is stored under its id. |
| Storage.CreateRequestKeepsValid | server/storage.ts:177-211 | Creating a request keeps a valid store valid. A created request's id was free before, and the request is appended after the stored ones. |
| Storage.FailedCreateSkipsId | server/storage.ts:178-183 | After a failed creation the next successful one gets the id after the consumed one. Nothing is ever stored under the consumed id. |
| Storage.CreatedRequestIsFound | server/storage.ts:187-210 | After a successful creation, `getRequestById` of the new id returns the new request. |
| Storage.CreateRequestKeepsStored | server/storage.ts:208 | Creating a request never replaces a stored one. |
| Storage.OwnerSnapshotIsStored | server/storage.ts:180-205 | In a valid store, `getUser(request.userId)` returns the request's owner snapshot. |
| Storage.CreateOffer | server/storage.ts:213-227 | Always succeeds. The offer has the counter's id, the given request, user and message, and status "pending", and it is stored under its id. Users and requests are unchanged, the counter grows by one, validity is kept and the offer is appended. |
| Storage.CreateOfferExtendsOfferedRequests | server/storage.ts:168-175 | A new offer adds one entry to the offering user's list: the target request if it exists, nothing if it is dangling. No other user's list changes. |
| Storage.RepeatedOfferListedTwice | server/storage.ts:168-175 | Two offers by one user on one existing request add that request twice. |
| Routes.ListRequests | server/routes.ts:9-16 | 200 with a permutation of the stored requests, newest first. |
| Routes.MyRequests | server/routes.ts:19-29 | 200 with the result of `getRequestsByUser(1)`: the stored requests owned by user 1, in store order, each as often as it is stored. |
| Routes.MyOffers | server/routes.ts:32-42 | 200 with the result of `getRequestsByUserOffers(1)`: at most one entry per offer of user 1. A request is listed exactly when one of user 1's offers points at its id. |
| Routes.ShowRequest | server/routes.ts:45-58 | 404 "Request not found" exactly when the id does not parse or no request has it. Otherwise 200 with the stored request of that id. |
| Routes.PostRequest | server/routes.ts:61-81 | 400 "Invalid request data", carrying exactly the schema's non-empty complaint list, with the store unchanged, exactly when the body fails the schema. 500 exactly when the body passes but user 1 is missing, with only the request counter advanced. Otherwise 201 with exactly the request `createRequest` stores for user 1. It is built from the validated body, with status "open", the stored user 1 as owner, `createdAt` the current time and the recorded distance, and is appended under the counter's id. Only the request counter and the requests change. Validity is kept. |
| Routes.PostOffer | server/routes.ts:84-117 | 404 exactly when the id does not parse or the request is missing. 400 "You cannot offer help on your own request" exactly when the request's owner snapshot is user 2. Both leave the store unchanged. Otherwise 201 with exactly the offer `createOffer` stores: user 2 on that request, the body's `message`, status "pending" and the current time. It is appended to the offers. Only the offer counter and the offers change. |
| Routes.Handle | server/routes.ts:7-117 | The four GET handlers never change the store. |
| Routes.InitialApiInvariant | server/storage.ts:46-130 | The seeded store satisfies the API invariant. |
| Routes.HandleKeepsApiInvariant | server/routes.ts:61-117 | Every handler keeps the invariant: valid store, every offer is user 2's on someone else's stored request, and request 2 is stored and owned by user 2. |
| Routes.RunKeepsApiInvariant | server/routes.ts:7-117 | Any sequence of handler calls keeps the API invariant. |
| Routes.MyOffersAlwaysEmpty | server/routes.ts:36-37 | After any run of handler calls from the seeded store, `/api/my-offers` answers 200 with an empty list. |
| Routes.SeedRequestTwoNeverOffered | server/routes.ts:91-102 | After any run from the seeded store, no offer targets request 2, and offering on it gets 400 with the store unchanged. |
| Schema.StringField | shared/schema.ts:45-47 | Accepts exactly a string member and returns it. Otherwise the result is one type complaint at that path. |
| Schema.NumberField | shared/schema.ts:38-39 | Accepts exactly a number member and returns it. Otherwise the result is one type complaint at that path. |
| Schema.OptionalStringField | shared/schema.ts:40-41 | Accepts an absent member (giving nothing) or a string (giving it). Otherwise the result is one type complaint at that path. |
| Schema.ValidateLocation | shared/schema.ts:37-42 | Succeeds exactly on an object with numeric `lat` and `lng` and absent-or-string `neighborhood` and `city`, and returns those values. Otherwise at least one complaint. |
| Schema.ValidateInsertRequest | shared/schema.ts:44-49 | Succeeds exactly on string title, description and category plus a valid location, and returns the payload's values. Category may be any string. Otherwise at least one complaint. |
| Schema.ValidateEncoded | shared/schema.ts:44-49 | Every request value, written as JSON, passes validation and gives back the same value. |
| Utils.ParseCategory | client/src/lib/utils.ts:8-15 | A recognised string names that category. An unrecognised one names none of the seven. |
| Utils.ParseCategoryName | client/src/lib/utils.ts:8-15 | Reading back a category's identifier gives the category. |
| Utils.CategoryConfig | client/src/lib/utils.ts:17-73 | Every one of the seven categories has a non-empty label, icon and colours. |
| Utils.CategoryLabelsDistinct | client/src/lib/utils.ts:17-73 | Different categories have different labels. |
| Utils.CategoryNameNotInherited | client/src/lib/utils.ts:17-73 | No category identifier is the name of an `Object.prototype` member, so the table's own entries are never shadowed. |
| Utils.CategoryInfoFor | client/src/lib/utils.ts:17-73 | A lookup by stored string finds a table entry exactly for the seven identifiers, and then it is that category's entry. It finds an inherited member exactly for the names of `Object.prototype`, and nothing for every other string. |
| Utils.Bucket | client/src/lib/utils.ts:75-110 | "Just now" exactly below 60 s. Otherwise 1-59 minutes, 1-23 hours, 1-6 days, 1-3 weeks, or fewer than 12 months, or years. |
| Utils.FormatDistanceToNow | client/src/lib/utils.ts:75-110 | The text is "just now" exactly when fewer than 60 s have passed, and otherwise ends in " ago". |
| Utils.BucketClosedForm | client/src/lib/utils.ts:75-110 | The cascade gives closed-form intervals: under 60 s is "just now"; then s div 60 minutes, s div 3600 hours, s div 86400 days and days div 7 weeks; then days div 30 months below 360 days, and days div 365 years from there. |
| Utils.JustNowBelowAMinute | client/src/lib/utils.ts:79-81 | Any elapsed time below 60 s, negative included, reads "just now". |
| Utils.ZeroMonths | client/src/lib/utils.ts:98-106 | 28 and 29 days read "0 months ago". |
| Utils.ZeroYears | client/src/lib/utils.ts:103-109 | 360 to 364 days read "0 years ago". |
| Utils.RenderShape | client/src/lib/utils.ts:85-109 | A count text starts with the count's digits, which read back as the count, then a space, and ends in " ago". It has an "s" before " ago" exactly when the count is not 1. |
| CreateRequestForm.BoundedStringField | client/src/pages/CreateRequest.tsx:30-31 | Accepts exactly a string whose length lies within the bounds. A non-string is a type complaint. A string that is too short or too long gets the matching complaint. |
| CreateRequestForm.ValidateForm | client/src/pages/CreateRequest.tsx:29-39 | Succeeds exactly on the server's shape with a title of 5-100 and a description of 20-500 characters, and returns the payload's values. |
| CreateRequestForm.FormAcceptedByServer | client/src/pages/CreateRequest.tsx:29-39 | Whatever the form accepts, the server schema accepts with the same value. |
| CreateRequestForm.FormBounds | client/src/pages/CreateRequest.tsx:30-31 | A request value passes the form exactly when its title and description lengths lie within the bounds. |
| CreateRequestForm.ServerTakesShortTitle | client/src/pages/CreateRequest.tsx:30 | The server accepts a four-character title that the form refuses. |
| CreateRequestForm.DefaultFormValues | client/src/pages/CreateRequest.tsx:72-85 | The initial category is "groceries" and the initial coordinates are the San Francisco starting point. |
| CreateRequestForm.DefaultsRefused | client/src/pages/CreateRequest.tsx:72-85 | Submitting the untouched form gives exactly two complaints, in order: the title is too short and the description is too short. |
| CreateRequestForm.MoveTo | client/src/pages/CreateRequest.tsx:190-197 | A map click or "Use My Location" sets the coordinates and keeps the neighbourhood, the city and the other fields. |
| CreateRequestForm.MoveToLastWins | client/src/pages/CreateRequest.tsx:190-197 | Of two clicks, only the last one's coordinates remain. |
| CreateRequestForm.MoveToKeepsAcceptance | client/src/pages/CreateRequest.tsx:214-226 | Moving the location never changes whether the form accepts the values. |
| CreateRequestForm.Geolocated | client/src/pages/CreateRequest.tsx:49-64 | The position found at mount replaces the whole location, with "Your neighborhood" and "Your city". |
| CreateRequestForm.ClickKeepsGeolocatedNames | client/src/pages/CreateRequest.tsx:190-197 | A click after the mount-time position keeps its placeholder names. |
| Browse.FilteredRequests | client/src/pages/Home.tsx:46-48 | With no selection the list is unchanged. With a category selected, exactly the requests of that category are kept, never more often than they occur. |
| Browse.FilteredKeepsOrder | client/src/pages/MapView.tsx:44-46 | Filtering distributes over concatenation, so the original order is kept. |
| Browse.SortedRequests | client/src/pages/Home.tsx:50-52 | The result is a permutation of the filtered list, newest first. |
| Browse.RecentRequests | client/src/pages/Home.tsx:54 | The prefix of length min(3, n) of the sorted list. |
| Browse.RecentAreNewest | client/src/pages/Home.tsx:46-54 | The recent list is newest first, holds only filtered requests, and none of it is older than anything it leaves out. |
| Browse.ToggleCategory | client/src/pages/Home.tsx:56-58 | Choosing the selected category clears the selection. Choosing any other category selects it. |
| Browse.ToggleTwice | client/src/pages/Home.tsx:56-58 | Choosing the same category twice, from no selection or from that category, returns to the start. |
| MapViewPage.QueryOf | client/src/pages/MapView.tsx:18 | Empty when the address has no "?". Otherwise the text right after the first "?", up to the next "?" or the end of the address. |
| MapViewPage.ParamOf | client/src/pages/MapView.tsx:18 | A piece with "=" is the name, "=" and the value, where the name holds no "=". A piece without "=" is a name with an empty value. |
| MapViewPage.ParamsOf | client/src/pages/MapView.tsx:18 | At most one pair per "&"-separated piece, and no name holds "=". The empty query has no pairs, and a non-empty query without "&" is one pair. |
| MapViewPage.ParamsOfAppend | client/src/pages/MapView.tsx:18 | The pairs of "a&b" are those of "a" followed by those of "b", so pieces are read in order. |
| MapViewPage.GetParam | client/src/pages/MapView.tsx:18-19 | Absent exactly when no pair has the name. Otherwise the value of the first pair with that name. |
| MapViewPage.InitialView | client/src/pages/MapView.tsx:18-21 | The page opens in the list exactly when the query's `view` is "list". |
| MapViewPage.ToggleViewPath | client/src/pages/MapView.tsx:52-59 | The target is exactly "/map-view" for the map view and exactly "/map-view?view=list" for the list view. |
| MapViewPage.ToggleViewRoundTrip | client/src/pages/MapView.tsx:18-21 | Reading the view from the full address string that `toggleView(v)` navigates to gives v. This holds of the address, not of what the router reports (see Findings). |
| MapViewPage.NoQueryOpensMap | client/src/pages/MapView.tsx:18-21 | An address without "?" opens the map. |
| MapViewPage.PathOf | client/src/pages/MapView.tsx:15 | The reported location is the prefix of the address before its first "?", or the whole address when it has no "?". |
| MapViewPage.InitialViewAsWritten | client/src/pages/MapView.tsx:15-21 | When the split location is the path the router reports, the page always opens on the map. |
| MapViewPage.ListLinkOpensMap | client/src/pages/MapView.tsx:15-21 | The list address "/map-view?view=list" opens the map as written, and the list when the full address is read. |
| MapViewPage.CountLabel | client/src/pages/MapView.tsx:83-84 | The count line starts with the count's digits, which read back as the count, then " request". An "s" follows exactly when the count is not 1. |
| RequestCard.Preview | client/src/components/RequestCard.tsx:53 | Up to 120 characters are shown unchanged. A longer text shows its first 120 characters and "...". Never more than 123 characters. |
| RequestCard.PreviewIdempotent | client/src/components/RequestCard.tsx:53 | Shortening a shown text again changes nothing. |
| RequestCard.GetInitials | client/src/components/RequestCard.tsx:26-32 | At most one character per space-separated part (so per word), and no lower-case ASCII letters. |
| Strings.Split | client/src/components/RequestCard.tsx:28 | `split` on one character gives at least one part, no part holds the separator, and joining the parts with it gives back the string. |
| RequestCard.FirstCharsAreWordStarts | client/src/components/RequestCard.tsx:27-30 | The first characters of the split parts are exactly the non-space characters that begin the name or follow a space. |
| RequestCard.InitialsAreWordStarts | client/src/components/RequestCard.tsx:26-32 | Initials are the upper-cased word starts, in order. Repeated, leading and trailing spaces add nothing. |
| RequestCard.TwoWordInitials | client/src/components/RequestCard.tsx:26-32 | Two words separated by one space give their two upper-cased first letters. |
| RequestCard.DoubledSpaceInitials | client/src/components/RequestCard.tsx:26-32 | A doubled space between two words gives the same two initials. |
| RequestCard.CardCategoryAsWritten | client/src/components/RequestCard.tsx:24 | The card's lookup finds that category's table entry exactly for the seven identifiers. It finds an inherited member exactly for the `Object.prototype` names, and nothing for every other string. |
| RequestCard.UnknownCategoryHasNoBadge | client/src/components/RequestCard.tsx:24 | A request with category "gardening" passes the server schema, and the card's lookup finds nothing for it. |
| RequestCard.CardCategory | client/src/components/RequestCard.tsx:24 | The corrected lookup is total, with non-empty label and colours. It equals the table entry for the seven identifiers and "Other" for anything else, inherited names included. |
| RequestCard.CardCategoryAgrees | client/src/components/RequestCard.tsx:24 | Wherever the lookup as written finds a table entry, the corrected one gives the same entry. |

## Findings

| source | as written | input that shows it | evidently intended | confidence | as-written member | corrected member |
|---|---|---|---|---|---|---|
| client/src/components/RequestCard.tsx:24 | `categoryConfig[category]` with any stored category string. The server schema accepts every string (shared/schema.ts:47). For an unknown name that is not an `Object.prototype` member the lookup is undefined, so reading `bgColor` from it throws while the card renders. An inherited name such as "constructor" renders a blank badge instead. | `POST /api/requests` with category "gardening" and otherwise valid fields | Every stored request renders with badge metadata, for example falling back to "Other" | medium; not executed (the form only offers the seven categories, so only direct API calls reach it) | RequestCard.CardCategoryAsWritten, RequestCard.UnknownCategoryHasNoBadge | RequestCard.CardCategory, RequestCard.CardCategoryAgrees |
| client/src/pages/MapView.tsx:15-21 | The view is read from `location.split('?')[1]`, where `location` comes from wouter's `useLocation()`. That hook reports the path without the query string, so there is never a query to read. | Following the "/map-view?view=list" link (client/src/pages/Home.tsx:88 and 166), or reloading after `toggleView('list')` | The list link opens the list view | medium; not executed (package.json is not modelled; wouter's published releases report the path only) | MapViewPage.InitialViewAsWritten, MapViewPage.ListLinkOpensMap | MapViewPage.InitialView, MapViewPage.ToggleViewRoundTrip |

## Left out

- `calculateDistance` (client/src/lib/utils.ts:112-127) is floating-point trigonometry with rounding. It is a function parameter, and the model only states that the store records its result.
- Wall-clock time is left out. `now` and `createdAt` are natural numbers supplied by the caller. The seed requests share one time stamp, although the source takes three clock readings a moment apart.
- `formatDistanceToNow` receives elapsed whole seconds. Computing them from two `Date` values (`Math.floor(ms / 1000)`) is not modelled.
- Promises and async scheduling are left out. Every storage call is one sequential step, so interleavings are not modelled.
- Express routing, body parsing, JSON serialisation and `createServer` are left out. Handlers take already-parsed inputs, and `parseInt` of a path parameter is an `Option<int>` (absent for NaN).
- The 500 "Failed to fetch …" and "Failed to create offer" branches are left out. Nothing in the modelled code throws on those paths. The 500 of `POST /api/requests` is modelled.
- The `insertOfferSchema` import is left out, because the handler never applies it.
- Zod is left out except as the acceptance predicate. Complaint messages and the exact issue objects are reduced to a path plus a kind (type, too small, too big).
- JavaScript strings are UTF-16, while Dafny `char` sequences count characters. Length bounds and the 120-character preview therefore agree only outside surrogate pairs.
- RequestCard.GetInitials: `toUpperCase` is modelled for ASCII letters only.
- MapViewPage.GetParam: URLSearchParams percent-decoding and '+'-as-space handling are left out. Names and values are compared as written in the query.
- MapViewPage.InitialView: reads the view from the full address, query included. The page as written sees only the path the router reports, which is MapViewPage.InitialViewAsWritten (see Findings).
- Storage.GetAllRequests: the sort is modelled as a stable insertion sort. Only sortedness and permutation are proved, not which of several equally old requests comes first.
- React state, react-query caching, Leaflet, geolocation and navigation plumbing are left out. The handlers are modelled as functions on form values and page state.
- The purely presentational components and `RequestDetail.tsx` are left out. The latter repeats `getInitials`.
- The `users.username` uniqueness declared in shared/schema.ts:7 applies to the database table, which the in-memory store does not use. Storage.DuplicateUsernameAccepted shows that the store does not enforce it.
