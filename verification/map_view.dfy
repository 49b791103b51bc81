/** The map page (client/src/pages/MapView.tsx): the view chosen from the
    address's query string, the address `toggleView` navigates to, and the
    result count line.  Its category filter and toggle are `Browse`'s. */
module MapViewPage {
  import opened Results
  import opened Seqs
  import opened Strings
  import opened Utils

  datatype View = MapView | ListView

  /** What follows the first `?` of an address and precedes a second one,
      empty when there is none (`location.split('?')[1]`, which
      `URLSearchParams` reads as empty when undefined). */
  function QueryOf(address: string): (q: string)
    ensures '?' !in q
    ensures '?' !in address ==> q == ""
    ensures '?' in address ==>
      var end := |PathOf(address)| + 1 + |q|;
      && end <= |address|
      && address[..end] == PathOf(address) + ['?'] + q
      && (end < |address| ==> address[end] == '?')
  {
    var parts := Split(address, '?');
    SplitOnePart(address, '?');
    if |parts| >= 2 then
      var path := parts[0];
      var q := parts[1];
      JoinHead(parts, '?');
      JoinHead(parts[1..], '?');
      var tail := address[|path| + 1..];
      assert tail == Join(parts[1..], '?');
      assert address[..|path| + 1 + |q|] == address[..|path|] + [address[|path|]] + tail[..|q|];
      q
    else
      ""
  }

  /** The part of an address before its first `?`.  wouter's `useLocation`
      reports this path and leaves the query string out. */
  function PathOf(address: string): (path: string)
    ensures '?' !in path
    ensures |path| <= |address| && address[..|path|] == path
    ensures '?' in address ==> |path| < |address| && address[|path|] == '?'
    ensures '?' !in address ==> path == address
  {
    var parts := Split(address, '?');
    SplitOnePart(address, '?');
    JoinHead(parts, '?');
    parts[0]
  }

  /** One `name=value` pair; a piece without `=` has an empty value. */
  datatype Param = Param(name: string, value: string)

  /** A piece split at its first `=`: the name before it, the rest as value. */
  function ParamOf(piece: string): (p: Param)
    ensures '=' !in p.name
    ensures '=' !in piece ==> p == Param(piece, "")
    ensures '=' in piece ==> piece == p.name + ['='] + p.value
  {
    var parts := Split(piece, '=');
    SplitOnePart(piece, '=');
    if |parts| == 1 then Param(piece, "")
    else
      assert Join(parts, '=') == parts[0] + ['='] + Join(parts[1..], '=');
      Param(parts[0], Join(parts[1..], '='))
  }

  /** The pieces of a query that `URLSearchParams` reads: the non-empty ones. */
  predicate IsPiece(piece: string) {
    |piece| > 0
  }

  /** The pairs of a query string in order, skipping empty pieces. */
  function ParamsOf(query: string): (ps: seq<Param>)
    ensures |ps| <= |Split(query, '&')|
    ensures forall i :: 0 <= i < |ps| ==> '=' !in ps[i].name
    ensures query == "" ==> ps == []
    ensures '&' !in query && query != "" ==> ps == [ParamOf(query)]
  {
    var pieces := Filter(Split(query, '&'), IsPiece);
    assert '&' !in query ==> pieces == if query != "" then [query] else [] by {
      if '&' !in query {
        SplitNoSep(query, '&');
        FilterSingle(query, IsPiece);
      }
    }
    Map(pieces, ParamOf)
  }

  /** The pairs of `a&b` are those of `a` followed by those of `b`. */
  lemma {:induction false} ParamsOfAppend(a: string, b: string)
    requires '&' !in a
    ensures ParamsOf(a + ['&'] + b) == ParamsOf(a) + ParamsOf(b)
  {
    SplitPrefix(a, b, '&');
    SplitNoSep(a, '&');
    FilterAppend([a], Split(b, '&'), IsPiece);
    MapAppend(Filter([a], IsPiece), Filter(Split(b, '&'), IsPiece), ParamOf);
  }

  /** `searchParams.get(name)`: the value of the first pair with that name. */
  function GetParam(query: string, name: string): (r: Option<string>)
    ensures var ps := ParamsOf(query);
            r.None? <==> forall i :: 0 <= i < |ps| ==> ps[i].name != name
    ensures var ps := ParamsOf(query);
            r.Some? ==> exists i :: 0 <= i < |ps| && ps[i] == Param(name, r.value)
                                    && forall j :: 0 <= j < i ==> ps[j].name != name
  {
    match Find(ParamsOf(query), (p: Param) => p.name == name)
    case None => None
    case Some(p) => Some(p.value)
  }

  const MapViewPath: string := "/map-view"
  const ViewKey: string := "view"
  const ListValue: string := "list"
  /** The query string that selects the list view. */
  const ListQuery: string := ViewKey + ['='] + ListValue

  /** The view the page opens in: the list exactly when `view=list`. */
  function InitialView(address: string): (v: View)
    ensures v == ListView <==> GetParam(QueryOf(address), ViewKey) == Some(ListValue)
  {
    if GetParam(QueryOf(address), ViewKey) == Some(ListValue) then ListView else MapView
  }

  /** The view the page opens in when the location it splits is the path
      that `useLocation` reports: there is never a query to read, so the
      page always opens on the map. */
  function InitialViewAsWritten(address: string): (v: View)
    ensures v == MapView
  {
    NoQueryOpensMap(PathOf(address));
    InitialView(PathOf(address))
  }

  /** The address `toggleView(view)` navigates to: the page's path, with
      the list query only for the list view. */
  function ToggleViewPath(v: View): (path: string)
    ensures |path| >= |MapViewPath| && path[..|MapViewPath|] == MapViewPath
    ensures v == MapView <==> path == MapViewPath
    ensures v == ListView ==> path == MapViewPath + ['?'] + ListQuery
  {
    match v
    case ListView =>
      assert |MapViewPath + ['?'] + ListQuery| > |MapViewPath|;
      MapViewPath + ['?'] + ListQuery
    case MapView => MapViewPath
  }

  lemma {:induction false} ListPathQuery()
    ensures QueryOf(MapViewPath + ['?'] + ListQuery) == ListQuery
  {
    assert '?' !in MapViewPath;
    assert '?' !in ListQuery;
    SplitPrefix(MapViewPath, ListQuery, '?');
    SplitNoSep(ListQuery, '?');
  }

  lemma {:induction false} ListQueryParams()
    ensures ParamsOf(ListQuery) == [Param(ViewKey, ListValue)]
  {
    assert '&' !in ListQuery;
    SplitNoSep(ListQuery, '&');
    FilterSingle(ListQuery, IsPiece);
    assert '=' !in ViewKey && '=' !in ListValue;
    SplitPrefix(ViewKey, ListValue, '=');
    SplitNoSep(ListValue, '=');
  }

  /** Navigating with `toggleView` and reloading opens the same view. */
  lemma {:induction false} ToggleViewRoundTrip(v: View)
    ensures InitialView(ToggleViewPath(v)) == v
  {
    if v == ListView {
      ListPathQuery();
      ListQueryParams();
    } else {
      assert '?' !in MapViewPath;
      NoQueryOpensMap(MapViewPath);
    }
  }

  /** The list link of the home page opens the map: the page as written
      never sees its query, while reading the full address gives the list. */
  lemma {:induction false} ListLinkOpensMap()
    ensures InitialViewAsWritten(ToggleViewPath(ListView)) == MapView
    ensures InitialView(ToggleViewPath(ListView)) == ListView
  {
    ToggleViewRoundTrip(ListView);
  }

  /** An address without a query string opens the map. */
  lemma {:induction false} NoQueryOpensMap(address: string)
    requires '?' !in address
    ensures InitialView(address) == MapView
  {
    assert ParamsOf("") == [];
  }

  const Singular: string := "request"
  /** The plural is the singular with an `s`. */
  const Plural: string := Singular + ['s']

  /** The noun of the count line agrees with the count. */
  function RequestNoun(n: nat): string {
    if n == 1 then Singular else Plural
  }

  /** " in <category>" when a category is selected, else nothing. */
  function SelectionSuffix(selected: Option<CategoryType>): string {
    match selected
    case Some(c) => " in " + CategoryName(c)
    case None => ""
  }

  /** What follows the number: the noun, "found" and the selection. */
  function CountTail(n: nat, selected: Option<CategoryType>): string {
    [' '] + RequestNoun(n) + " found" + SelectionSuffix(selected)
  }

  /** "N request(s) found", followed by " in <category>" when one is
      selected.  The count can be read back from the line, and the noun is
      plural exactly when the count is not one. */
  function CountLabel(n: nat, selected: Option<CategoryType>): (text: string)
    ensures var digits := NatToString(n);
            var at := |digits| + |Singular| + 1;
            && |text| > at
            && text[..|digits|] == digits
            && ParseNat(text[..|digits|]) == n
            && text[|digits|..at] == [' '] + Singular
            && (text[at] == 's' <==> n != 1)
  {
    var digits := NatToString(n);
    var rest := CountTail(n, selected);
    ParseNatToString(n);
    CountTailShape(n, selected);
    assert (digits + rest)[..|digits|] == digits;
    assert (digits + rest)[|digits|..|digits| + |Singular| + 1] == rest[..|Singular| + 1];
    digits + rest
  }

  /** A word, perhaps followed by an `s`, then text not starting with `s`:
      the character after the word is `s` exactly when the `s` is there. */
  lemma {:induction false} WordThen(word: string, plural: bool, more: string)
    requires |more| > 0 && more[0] != 's'
    ensures var text := word + (if plural then ['s'] else []) + more;
            && |text| > |word|
            && text[..|word|] == word
            && (text[|word|] == 's' <==> plural)
  {
    var text := word + (if plural then ['s'] else []) + more;
    assert text == word + ((if plural then ['s'] else []) + more);
  }

  lemma {:induction false} CountTailShape(n: nat, selected: Option<CategoryType>)
    ensures var rest := CountTail(n, selected);
            && |rest| > |Singular| + 1
            && rest[..|Singular| + 1] == [' '] + Singular
            && (rest[|Singular| + 1] == 's' <==> n != 1)
  {
    var more := " found" + SelectionSuffix(selected);
    var word := [' '] + Singular;
    assert more[0] == ' ';
    assert CountTail(n, selected) == word + (if n != 1 then ['s'] else []) + more;
    WordThen(word, n != 1, more);
  }
}
