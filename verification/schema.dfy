/** The shared data model (shared/schema.ts): the three entities, the embedded
    location value, the default statuses and the insert-payload validator. */
module Schema {
  import opened Results
  import opened Json

  datatype User = User(id: int, username: string, password: string)

  /** The registration payload: a user without its id. */
  datatype InsertUser = InsertUser(username: string, password: string)

  /** Coordinates in degrees plus an optional place name. */
  datatype Location = Location(lat: real, lng: real, neighborhood: Option<string>, city: Option<string>)

  /** A validated `POST /api/requests` payload. `category` is any string: the
      schema does not restrict it to the seven known categories. */
  datatype InsertRequest = InsertRequest(title: string, description: string, category: string, location: Location)

  /** A stored request. `user` is a copy of the owner's record taken at
      creation time, next to the `userId` reference. `createdAt` is a time
      stamp in milliseconds; `distance` is in miles. */
  datatype Request = Request(
    id: int,
    title: string,
    description: string,
    category: string,
    location: Location,
    userId: int,
    status: string,
    createdAt: nat,
    user: User,
    distance: real)

  /** A stored offer of help. The message is whatever the body's `message`
      member held (absent when there was none): nothing checks its type. */
  datatype Offer = Offer(
    id: int,
    requestId: int,
    userId: int,
    message: Option<Json>,
    status: string,
    createdAt: nat)

  const DefaultRequestStatus: string := "open"
  const DefaultOfferStatus: string := "pending"

  /** One validation complaint: where it is and what kind it is. */
  datatype IssueCode = InvalidType | TooSmall(minimum: nat) | TooBig(maximum: nat)
  datatype Issue = Issue(path: seq<string>, code: IssueCode)

  type Checked<T> = Result<T, seq<Issue>>

  /** The complaints a check produced; none for a success. */
  function IssuesOf<T>(r: Checked<T>): seq<Issue> {
    if r.Failure? then r.error else []
  }

  /** `z.string()` on `body[key]`. */
  function StringField(j: Json, key: string, path: seq<string>): (r: Checked<string>)
    ensures r.Success? <==> Field(j, key).Some? && Field(j, key).value.JString?
    ensures r.Success? ==> r.value == Field(j, key).value.s
    ensures r.Failure? ==> r.error == [Issue(path + [key], InvalidType)]
  {
    match Field(j, key)
    case Some(JString(s)) => Success(s)
    case _ => Failure([Issue(path + [key], InvalidType)])
  }

  /** `z.number()` on `body[key]`. */
  function NumberField(j: Json, key: string, path: seq<string>): (r: Checked<real>)
    ensures r.Success? <==> Field(j, key).Some? && Field(j, key).value.JNumber?
    ensures r.Success? ==> r.value == Field(j, key).value.n
    ensures r.Failure? ==> r.error == [Issue(path + [key], InvalidType)]
  {
    match Field(j, key)
    case Some(JNumber(n)) => Success(n)
    case _ => Failure([Issue(path + [key], InvalidType)])
  }

  /** `z.string().optional()` on `body[key]`: absence is accepted. */
  function OptionalStringField(j: Json, key: string, path: seq<string>): (r: Checked<Option<string>>)
    ensures r.Success? <==> Field(j, key).None? || Field(j, key).value.JString?
    ensures r.Success? ==> (r.value.None? <==> Field(j, key).None?)
    ensures r.Success? && r.value.Some? ==> r.value.value == Field(j, key).value.s
    ensures r.Failure? ==> r.error == [Issue(path + [key], InvalidType)]
  {
    match Field(j, key)
    case None => Success(None)
    case Some(JString(s)) => Success(Some(s))
    case _ => Failure([Issue(path + [key], InvalidType)])
  }

  /** `locationSchema` applied to the value found at `path`. */
  function ValidateLocation(j: Json, path: seq<string>): (r: Checked<Location>)
    ensures r.Success? <==> IsLocationShape(j)
    ensures r.Success? ==> LocationOf(j) == r.value
    ensures r.Failure? ==> |r.error| > 0
  {
    if !j.JObject? then Failure([Issue(path, InvalidType)])
    else
      var lat := NumberField(j, "lat", path);
      var lng := NumberField(j, "lng", path);
      var neighborhood := OptionalStringField(j, "neighborhood", path);
      var city := OptionalStringField(j, "city", path);
      var issues := IssuesOf(lat) + IssuesOf(lng) + IssuesOf(neighborhood) + IssuesOf(city);
      if issues == [] then Success(Location(lat.value, lng.value, neighborhood.value, city.value))
      else Failure(issues)
  }

  /** `insertRequestSchema.parse(body)`: the accepted payload, or every
      complaint in schema order (title, description, category, location). */
  function ValidateInsertRequest(body: Json): (r: Checked<InsertRequest>)
    ensures r.Success? <==> IsInsertRequestShape(body)
    ensures r.Success? ==> r.value == InsertRequestOf(body)
    ensures r.Failure? ==> |r.error| > 0
  {
    if !body.JObject? then Failure([Issue([], InvalidType)])
    else
      var title := StringField(body, "title", []);
      var description := StringField(body, "description", []);
      var category := StringField(body, "category", []);
      var location :=
        if "location" in body.fields then ValidateLocation(body.fields["location"], ["location"])
        else Failure([Issue(["location"], InvalidType)]);
      var issues := IssuesOf(title) + IssuesOf(description) + IssuesOf(category) + IssuesOf(location);
      if issues == [] then Success(InsertRequest(title.value, description.value, category.value, location.value))
      else Failure(issues)
  }

  // Declarative description of an acceptable payload, independent of the
  // validator's construction.

  predicate HasString(j: Json, key: string) {
    j.JObject? && key in j.fields && j.fields[key].JString?
  }

  predicate HasNumber(j: Json, key: string) {
    j.JObject? && key in j.fields && j.fields[key].JNumber?
  }

  predicate AbsentOrString(j: Json, key: string) {
    j.JObject? && (key !in j.fields || j.fields[key].JString?)
  }

  predicate IsLocationShape(j: Json) {
    HasNumber(j, "lat") && HasNumber(j, "lng")
    && AbsentOrString(j, "neighborhood") && AbsentOrString(j, "city")
  }

  predicate IsInsertRequestShape(j: Json) {
    HasString(j, "title") && HasString(j, "description") && HasString(j, "category")
    && "location" in j.fields && IsLocationShape(j.fields["location"])
  }

  function OptionalStringOf(j: Json, key: string): Option<string>
    requires AbsentOrString(j, key)
  {
    if key in j.fields then Some(j.fields[key].s) else None
  }

  function LocationOf(j: Json): Location
    requires IsLocationShape(j)
  {
    Location(j.fields["lat"].n, j.fields["lng"].n,
             OptionalStringOf(j, "neighborhood"), OptionalStringOf(j, "city"))
  }

  function InsertRequestOf(j: Json): InsertRequest
    requires IsInsertRequestShape(j)
  {
    InsertRequest(j.fields["title"].s, j.fields["description"].s, j.fields["category"].s,
                  LocationOf(j.fields["location"]))
  }

  // The payload a client sends for a given request (the inverse of validation).

  function EncodeLocation(l: Location): Json {
    var required := map["lat" := JNumber(l.lat), "lng" := JNumber(l.lng)];
    var withNeighborhood :=
      if l.neighborhood.Some? then required["neighborhood" := JString(l.neighborhood.value)] else required;
    var all := if l.city.Some? then withNeighborhood["city" := JString(l.city.value)] else withNeighborhood;
    JObject(all)
  }

  function EncodeInsertRequest(x: InsertRequest): Json {
    JObject(map[
      "title" := JString(x.title),
      "description" := JString(x.description),
      "category" := JString(x.category),
      "location" := EncodeLocation(x.location)])
  }

  /** Every request the client can describe passes validation unchanged. */
  lemma {:induction false} ValidateEncoded(x: InsertRequest)
    ensures ValidateInsertRequest(EncodeInsertRequest(x)) == Success(x)
  {
    var loc := EncodeLocation(x.location);
    assert IsLocationShape(loc);
    assert LocationOf(loc) == x.location;
    assert IsInsertRequestShape(EncodeInsertRequest(x));
  }
}
