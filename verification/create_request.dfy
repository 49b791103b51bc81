/** The request form (client/src/pages/CreateRequest.tsx): the stricter
    client-side schema, the initial form values and the two handlers that
    move the chosen location. */
module CreateRequestForm {
  import opened Results
  import opened Json
  import opened Schema

  const TitleMin: nat := 5
  const TitleMax: nat := 100
  const DescriptionMin: nat := 20
  const DescriptionMax: nat := 500

  /** `z.string().min(lo).max(hi)` on `body[key]`: a non-string is a type
      complaint, otherwise the length is checked against both bounds. */
  function BoundedStringField(j: Json, key: string, lo: nat, hi: nat): (r: Checked<string>)
    ensures r.Success? <==> HasString(j, key) && lo <= |j.fields[key].s| <= hi
    ensures r.Success? ==> r.value == j.fields[key].s
    ensures !HasString(j, key) ==> r == Failure([Issue([key], InvalidType)])
    ensures HasString(j, key) && |j.fields[key].s| < lo ==> r == Failure([Issue([key], TooSmall(lo))])
    ensures HasString(j, key) && lo <= |j.fields[key].s| && hi < |j.fields[key].s| ==>
              r == Failure([Issue([key], TooBig(hi))])
  {
    match StringField(j, key, [])
    case Failure(e) => assert [] + [key] == [key]; Failure(e)
    case Success(s) =>
      if |s| < lo then Failure([Issue([key], TooSmall(lo))])
      else if |s| > hi then Failure([Issue([key], TooBig(hi))])
      else Success(s)
  }

  /** A payload the form accepts: the server's shape plus the length bounds. */
  predicate IsFormShape(j: Json) {
    && IsInsertRequestShape(j)
    && TitleMin <= |j.fields["title"].s| <= TitleMax
    && DescriptionMin <= |j.fields["description"].s| <= DescriptionMax
  }

  /** `createRequestSchema`: the insert schema with bounded title and
      description; complaints come in the same field order. */
  function ValidateForm(body: Json): (r: Checked<InsertRequest>)
    ensures r.Success? <==> IsFormShape(body)
    ensures r.Success? ==> r.value == InsertRequestOf(body)
    ensures r.Failure? ==> |r.error| > 0
  {
    if !body.JObject? then Failure([Issue([], InvalidType)])
    else
      var title := BoundedStringField(body, "title", TitleMin, TitleMax);
      var description := BoundedStringField(body, "description", DescriptionMin, DescriptionMax);
      var category := StringField(body, "category", []);
      var location :=
        if "location" in body.fields then ValidateLocation(body.fields["location"], ["location"])
        else Failure([Issue(["location"], InvalidType)]);
      var issues := IssuesOf(title) + IssuesOf(description) + IssuesOf(category) + IssuesOf(location);
      if issues == [] then Success(InsertRequest(title.value, description.value, category.value, location.value))
      else Failure(issues)
  }

  /** Whatever the form accepts the server accepts, with the same value. */
  lemma {:induction false} FormAcceptedByServer(body: Json)
    requires ValidateForm(body).Success?
    ensures ValidateInsertRequest(body) == ValidateForm(body)
  {
  }

  /** A request the form can describe is accepted by the form exactly when
      its title and description lengths lie within the bounds. */
  lemma {:induction false} FormBounds(x: InsertRequest)
    ensures ValidateForm(EncodeInsertRequest(x)).Success? <==>
      TitleMin <= |x.title| <= TitleMax && DescriptionMin <= |x.description| <= DescriptionMax
    ensures ValidateForm(EncodeInsertRequest(x)).Success? ==> ValidateForm(EncodeInsertRequest(x)).value == x
  {
    ValidateEncoded(x);
  }

  /** The form is strictly stronger: the server takes a four-letter title. */
  lemma {:induction false} ServerTakesShortTitle()
    ensures var x := InsertRequest("Help", "Need someone to water my plants", "other",
                                   Location(0.0, 0.0, None, None));
            && ValidateInsertRequest(EncodeInsertRequest(x)) == Success(x)
            && ValidateForm(EncodeInsertRequest(x)).Failure?
  {
    var x := InsertRequest("Help", "Need someone to water my plants", "other", Location(0.0, 0.0, None, None));
    ValidateEncoded(x);
    FormBounds(x);
  }

  // ---------------------------------------------------------------------
  // Form values

  const DefaultCategory: string := "groceries"
  /** The map's starting point before any position is known. */
  const StartLat: real := 37.7749
  const StartLng: real := -122.4194

  /** The form's initial values: empty text, the groceries category and the
      starting point named "Downtown", "San Francisco". */
  function DefaultFormValues(): (v: InsertRequest)
    ensures v.category == DefaultCategory
    ensures v.location.lat == StartLat && v.location.lng == StartLng
  {
    InsertRequest("", "", DefaultCategory, Location(StartLat, StartLng, Some("Downtown"), Some("San Francisco")))
  }

  /** Submitting the untouched form is refused for the title and the
      description only, both as too short. */
  lemma {:induction false} DefaultsRefused()
    ensures ValidateForm(EncodeInsertRequest(DefaultFormValues())) ==
      Failure([Issue(["title"], TooSmall(TitleMin)), Issue(["description"], TooSmall(DescriptionMin))])
  {
    var body := EncodeInsertRequest(DefaultFormValues());
    var loc := EncodeLocation(DefaultFormValues().location);
    assert body.fields["location"] == loc;
    assert IsLocationShape(loc);
    var tooShortTitle := [Issue(["title"], TooSmall(TitleMin))];
    var tooShortDescription := [Issue(["description"], TooSmall(DescriptionMin))];
    assert BoundedStringField(body, "title", TitleMin, TitleMax) == Failure(tooShortTitle);
    assert BoundedStringField(body, "description", DescriptionMin, DescriptionMax) == Failure(tooShortDescription);
    assert StringField(body, "category", []).Success?;
    assert ValidateLocation(loc, ["location"]).Success?;
    assert "location" in body.fields;
    assert IssuesOf(StringField(body, "category", [])) == [];
    assert IssuesOf(ValidateLocation(loc, ["location"])) == [];
    assert tooShortTitle + tooShortDescription + [] + [] == tooShortTitle + tooShortDescription;
    assert tooShortTitle + tooShortDescription
      == [Issue(["title"], TooSmall(TitleMin)), Issue(["description"], TooSmall(DescriptionMin))];
  }

  /** The map-click handler and the "Use My Location" handler: the new
      coordinates replace the old ones; neighbourhood, city and every other
      field are kept. */
  function MoveTo(v: InsertRequest, lat: real, lng: real): (r: InsertRequest)
    ensures r.location.lat == lat && r.location.lng == lng
    ensures r.location.neighborhood == v.location.neighborhood && r.location.city == v.location.city
    ensures r.title == v.title && r.description == v.description && r.category == v.category
  {
    v.(location := v.location.(lat := lat, lng := lng))
  }

  /** Only the last click counts. */
  lemma {:induction false} MoveToLastWins(v: InsertRequest, lat1: real, lng1: real, lat2: real, lng2: real)
    ensures MoveTo(MoveTo(v, lat1, lng1), lat2, lng2) == MoveTo(v, lat2, lng2)
  {
  }

  /** Moving the location never changes whether the form accepts it. */
  lemma {:induction false} MoveToKeepsAcceptance(v: InsertRequest, lat: real, lng: real)
    ensures ValidateForm(EncodeInsertRequest(MoveTo(v, lat, lng))).Success?
        <==> ValidateForm(EncodeInsertRequest(v)).Success?
  {
    FormBounds(v);
    FormBounds(MoveTo(v, lat, lng));
  }

  /** The position found when the page mounts replaces the whole location,
      with placeholder place names. */
  function Geolocated(v: InsertRequest, lat: real, lng: real): (r: InsertRequest)
    ensures r.location == Location(lat, lng, Some("Your neighborhood"), Some("Your city"))
    ensures r.title == v.title && r.description == v.description && r.category == v.category
  {
    v.(location := Location(lat, lng, Some("Your neighborhood"), Some("Your city")))
  }

  /** After the mount-time position is known, later clicks keep its
      placeholder names. */
  lemma {:induction false} ClickKeepsGeolocatedNames(v: InsertRequest, lat: real, lng: real, lat2: real, lng2: real)
    ensures MoveTo(Geolocated(v, lat, lng), lat2, lng2) == Geolocated(v, lat2, lng2)
  {
  }
}
