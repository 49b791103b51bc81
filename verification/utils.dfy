/** Client utilities (client/src/lib/utils.ts): the category taxonomy and the
    relative-time formatter. The great-circle distance is not modelled here;
    the store receives it as a function parameter. */
module Utils {
  import opened Results
  import opened Strings

  datatype CategoryType = Groceries | Handyman | Petcare | Transportation | Education | Childcare | Other

  /** The identifier of a category, as stored in `Request.category`. */
  function CategoryName(c: CategoryType): string {
    match c
    case Groceries => "groceries"
    case Handyman => "handyman"
    case Petcare => "petcare"
    case Transportation => "transportation"
    case Education => "education"
    case Childcare => "childcare"
    case Other => "other"
  }

  /** The category a stored category string names, if it names one. */
  function ParseCategory(s: string): (r: Option<CategoryType>)
    ensures r.Some? ==> CategoryName(r.value) == s
    ensures r.None? ==> forall c: CategoryType :: CategoryName(c) != s
  {
    if s == "groceries" then Some(Groceries)
    else if s == "handyman" then Some(Handyman)
    else if s == "petcare" then Some(Petcare)
    else if s == "transportation" then Some(Transportation)
    else if s == "education" then Some(Education)
    else if s == "childcare" then Some(Childcare)
    else if s == "other" then Some(Other)
    else None
  }

  /** Category identifiers are distinct, so parsing a name recovers the category. */
  lemma {:induction false} ParseCategoryName(c: CategoryType)
    ensures ParseCategory(CategoryName(c)) == Some(c)
  {
  }

  datatype CategoryInfo = CategoryInfo(labelText: string, icon: string, bgColor: string, hoverColor: string, textColor: string)

  /** `categoryConfig[c]`: display metadata, defined for every category. */
  function CategoryConfig(c: CategoryType): (info: CategoryInfo)
    ensures |info.labelText| > 0 && |info.icon| > 0
    ensures |info.bgColor| > 0 && |info.hoverColor| > 0 && |info.textColor| > 0
  {
    match c
    case Groceries => CategoryInfo("Groceries", "fas fa-shopping-basket", "bg-indigo-100", "hover:bg-indigo-200", "text-primary")
    case Handyman => CategoryInfo("Handyman", "fas fa-tools", "bg-emerald-100", "hover:bg-emerald-200", "text-secondary")
    case Petcare => CategoryInfo("Pet Care", "fas fa-paw", "bg-amber-100", "hover:bg-amber-200", "text-amber-600")
    case Transportation => CategoryInfo("Transportation", "fas fa-car", "bg-blue-100", "hover:bg-blue-200", "text-blue-600")
    case Education => CategoryInfo("Education", "fas fa-book", "bg-purple-100", "hover:bg-purple-200", "text-purple-600")
    case Childcare => CategoryInfo("Childcare", "fas fa-baby", "bg-pink-100", "hover:bg-pink-200", "text-pink-600")
    case Other => CategoryInfo("Other", "fas fa-ellipsis-h", "bg-gray-100", "hover:bg-gray-200", "text-gray-600")
  }

  /** Different categories never share a label. */
  lemma {:induction false} CategoryLabelsDistinct(c: CategoryType, d: CategoryType)
    requires c != d
    ensures CategoryConfig(c).labelText != CategoryConfig(d).labelText
  {
  }

  /** What reading a property of a plain JavaScript object finds: the
      object's own entry, a member every object inherits from
      `Object.prototype`, or nothing (`undefined`). */
  datatype Lookup<T> = Own(entry: T) | Inherited | Undefined

  /** The property names every plain object inherits from `Object.prototype`. */
  const InheritedNames: set<string> := {
    "constructor", "hasOwnProperty", "isPrototypeOf", "propertyIsEnumerable",
    "toLocaleString", "toString", "valueOf", "__proto__",
    "__defineGetter__", "__defineSetter__", "__lookupGetter__", "__lookupSetter__"
  }

  /** No category identifier is an inherited property name. */
  lemma {:induction false} CategoryNameNotInherited(c: CategoryType)
    ensures CategoryName(c) !in InheritedNames
  {
    match c
    case Groceries =>
    case Handyman =>
    case Petcare =>
    case Transportation =>
    case Education =>
    case Childcare =>
    case Other =>
  }

  /** `categoryConfig[category]` for a stored category string, which the
      server does not restrict: the table's entry for the seven identifiers,
      an inherited member for the names of `Object.prototype`, and
      `undefined` for anything else. */
  function CategoryInfoFor(category: string): (r: Lookup<CategoryInfo>)
    ensures r.Own? <==> exists c: CategoryType :: CategoryName(c) == category
    ensures forall c: CategoryType :: CategoryName(c) == category ==> r == Own(CategoryConfig(c))
    ensures r.Inherited? <==> category in InheritedNames
    ensures r.Undefined? <==> ParseCategory(category).None? && category !in InheritedNames
  {
    match ParseCategory(category)
    case Some(c) =>
      ParseCategoryName(c);
      CategoryNameNotInherited(c);
      Own(CategoryConfig(c))
    case None => if category in InheritedNames then Inherited else Undefined
  }

  // ---------------------------------------------------------------------
  // Relative time

  const SecondsPerMinute: int := 60
  const SecondsPerHour: int := 3600
  const SecondsPerDay: int := 86400

  datatype TimeUnit = Minute | Hour | Day | Week | Month | Year

  function UnitName(u: TimeUnit): string {
    match u
    case Minute => "minute"
    case Hour => "hour"
    case Day => "day"
    case Week => "week"
    case Month => "month"
    case Year => "year"
  }

  /** What the formatter decided to say, before it is rendered as text. */
  datatype Elapsed = JustNow | Ago(count: nat, unit: TimeUnit)

  /** The cascade of `formatDistanceToNow` on the elapsed whole seconds
      (`Math.floor` of the millisecond difference over 1000). Each unit is
      floored from the previous one; months and years are taken from days. */
  function Bucket(seconds: int): (e: Elapsed)
    ensures e.JustNow? <==> seconds < 60
    ensures e.Ago? && e.unit == Minute ==> 1 <= e.count < 60
    ensures e.Ago? && e.unit == Hour ==> 1 <= e.count < 24
    ensures e.Ago? && e.unit == Day ==> 1 <= e.count < 7
    ensures e.Ago? && e.unit == Week ==> 1 <= e.count < 4
    ensures e.Ago? && e.unit == Month ==> e.count < 12
  {
    if seconds < 60 then JustNow
    else
      var minutes := seconds / 60;
      if minutes < 60 then Ago(minutes, Minute)
      else
        var hours := minutes / 60;
        if hours < 24 then Ago(hours, Hour)
        else
          var days := hours / 24;
          if days < 7 then Ago(days, Day)
          else
            var weeks := days / 7;
            if weeks < 4 then Ago(weeks, Week)
            else
              var months := days / 30;
              if months < 12 then Ago(months, Month)
              else Ago(days / 365, Year)
  }

  /** The "s" that follows a unit whose count is not exactly one. */
  function PluralSuffix(n: nat): string {
    if n != 1 then "s" else ""
  }

  function Render(e: Elapsed): string {
    match e
    case JustNow => "just now"
    case Ago(n, u) => NatToString(n) + " " + UnitName(u) + PluralSuffix(n) + " ago"
  }

  /** `formatDistanceToNow`, given the elapsed time in whole seconds. */
  function FormatDistanceToNow(seconds: int): (text: string)
    ensures text == "just now" <==> seconds < 60
    ensures seconds >= 60 ==> |text| > 4 && text[|text| - 4..] == " ago"
  {
    var e := Bucket(seconds);
    if e.Ago? then
      RenderShape(e.count, e.unit);
      Render(e)
    else
      Render(e)
  }

  /** Flooring twice by constant divisors is flooring once by their product. */
  lemma {:induction false} DivDiv(a: int, b: int, c: int)
    requires a >= 0 && b > 0 && c > 0
    ensures a / b / c == a / (b * c)
  {
    var q := a / b;
    var q2 := q / c;
    var r2 := q % c;
    var r := r2 * b + a % b;
    Regroup(a, q, a % b, q2, r2, b, c);
    assert r < b * c by {
      MulLeq(r2, c - 1, b);
      assert (c - 1) * b == c * b - b;
    }
    DivUnique(a, b * c, q2, r);
  }

  /** `a = q b + r1` and `q = q2 c + r2` give `a = q2 (b c) + (r2 b + r1)`. */
  lemma {:induction false} Regroup(a: int, q: int, r1: int, q2: int, r2: int, b: int, c: int)
    requires a == q * b + r1 && q == q2 * c + r2
    ensures a == q2 * (b * c) + (r2 * b + r1)
  {
    assert q * b == (q2 * c + r2) * b;
    assert (q2 * c + r2) * b == q2 * c * b + r2 * b;
    assert q2 * c * b == q2 * (b * c);
  }

  lemma {:induction false} MulLeq(x: int, y: int, b: int)
    requires 0 <= x <= y && b >= 0
    ensures x * b <= y * b
  {
    assert y * b - x * b == (y - x) * b;
    MulNonneg(y - x, b);
  }

  lemma {:induction false} MulNonneg(k: int, b: int)
    requires k >= 0 && b >= 0
    ensures k * b >= 0
  {
    if k > 0 {
      MulNonneg(k - 1, b);
      assert k * b == (k - 1) * b + b;
    }
  }

  lemma {:induction false} DivUnique(a: int, d: int, q: int, r: int)
    requires d > 0 && 0 <= r < d && a == q * d + r
    ensures a / d == q
  {
    var q' := a / d;
    var r' := a % d;
    assert q' * d + r' == q * d + r;
    if q' > q {
      assert (q' - q) * d == q' * d - q * d;
      MulAtLeast(q' - q, d);
    } else if q' < q {
      assert (q - q') * d == q * d - q' * d;
      MulAtLeast(q - q', d);
    }
  }

  lemma {:induction false} MulAtLeast(k: int, d: int)
    requires k >= 1 && d > 0
    ensures k * d >= d
  {
    if k > 1 {
      MulAtLeast(k - 1, d);
      assert k * d == (k - 1) * d + d;
    }
  }

  /** The cascade in closed form: each bucket is a half-open interval of
      elapsed seconds and the count is the elapsed time divided by the
      unit's length, with a month taken as 30 days and a year as 365. */
  lemma {:induction false} BucketClosedForm(s: int)
    ensures s < 60 <==> Bucket(s) == JustNow
    ensures 60 <= s < 3600 ==> Bucket(s) == Ago(s / 60, Minute)
    ensures 3600 <= s < 86400 ==> Bucket(s) == Ago(s / 3600, Hour)
    ensures 86400 <= s < 7 * 86400 ==> Bucket(s) == Ago(s / 86400, Day)
    ensures 7 * 86400 <= s < 28 * 86400 ==> Bucket(s) == Ago(s / (7 * 86400), Week)
    ensures 28 * 86400 <= s < 360 * 86400 ==> Bucket(s) == Ago(s / (30 * 86400), Month)
    ensures 360 * 86400 <= s ==> Bucket(s) == Ago(s / (365 * 86400), Year)
  {
    if s >= 60 {
      DivDiv(s, 60, 60);
      DivDiv(s, 3600, 24);
      var days := s / 86400;
      DivDiv(s, 86400, 7);
      DivDiv(s, 86400, 30);
      DivDiv(s, 86400, 365);
      assert days / 7 < 4 <==> days < 28;
      assert days / 30 < 12 <==> days < 360;
    }
  }

  /** Less than a minute, and any negative elapsed time, reads "just now". */
  lemma {:induction false} JustNowBelowAMinute(s: int)
    requires s < 60
    ensures FormatDistanceToNow(s) == "just now"
  {
  }

  /** 28 and 29 days fall past the week bucket but short of a 30-day month. */
  lemma {:induction false} ZeroMonths(s: int)
    requires 28 * 86400 <= s < 30 * 86400
    ensures FormatDistanceToNow(s) == "0 months ago"
  {
    BucketClosedForm(s);
    assert s / (30 * 86400) == 0;
  }

  /** 360 to 364 days fall past twelve 30-day months but short of 365 days. */
  lemma {:induction false} ZeroYears(s: int)
    requires 360 * 86400 <= s < 365 * 86400
    ensures FormatDistanceToNow(s) == "0 years ago"
  {
    BucketClosedForm(s);
    assert s / (365 * 86400) == 0;
  }

  /** A non-"just now" text is the count, the unit, an "s" exactly when the
      count is not one, and " ago"; the count can be read back from it. */
  lemma {:induction false} RenderShape(n: nat, u: TimeUnit)
    ensures var text := Render(Ago(n, u));
            var digits := NatToString(n);
            && text[..|digits|] == digits
            && ParseNat(text[..|digits|]) == n
            && text[|digits|] == ' '
            && text[|text| - 4..] == " ago"
            && (text[|text| - 5] == 's' <==> n != 1)
  {
    ParseNatToString(n);
    var text := Render(Ago(n, u));
    var digits := NatToString(n);
    assert text == digits + (" " + UnitName(u) + PluralSuffix(n) + " ago");
  }
}
