/** The request card (client/src/components/RequestCard.tsx): the shortened
    description, the owner's initials and the category badge. */
module RequestCard {
  import opened Results
  import opened Strings
  import opened Json
  import opened Schema
  import opened Utils

  const PreviewLength: nat := 120
  const Ellipsis: string := "..."

  /** The description as the card shows it: unchanged up to 120 characters,
      otherwise its first 120 characters and an ellipsis. */
  function Preview(description: string): (r: string)
    ensures |description| <= PreviewLength ==> r == description
    ensures |description| > PreviewLength ==>
      |r| == PreviewLength + |Ellipsis| && r[..PreviewLength] == description[..PreviewLength]
      && r[PreviewLength..] == Ellipsis
    ensures |r| <= PreviewLength + |Ellipsis|
  {
    if |description| > PreviewLength then description[..PreviewLength] + Ellipsis else description
  }

  /** Shortening a shown text again changes nothing. */
  lemma {:induction false} PreviewIdempotent(description: string)
    ensures Preview(Preview(description)) == Preview(description)
  {
    var shown := Preview(description);
    if |description| > PreviewLength {
      assert shown[..PreviewLength] + Ellipsis == shown;
    }
  }

  // ---------------------------------------------------------------------
  // Initials

  /** The first character of each part; an empty part gives nothing
      (`part[0]` is undefined and `join` renders it as empty). */
  function FirstChars(parts: seq<string>): (r: string)
    ensures |r| <= |parts|
  {
    if |parts| == 0 then []
    else (if |parts[0]| > 0 then [parts[0][0]] else []) + FirstChars(parts[1..])
  }

  /** `getInitials(name)`: split on single spaces, keep first characters,
      upper-case. */
  function GetInitials(name: string): (r: string)
    ensures |r| <= |Split(name, ' ')| <= |name| + 1
    ensures forall i :: 0 <= i < |r| ==> !('a' <= r[i] <= 'z')
  {
    var parts := Split(name, ' ');
    assert |parts| <= |name| + 1 by { SplitCount(name); }
    ToUpper(FirstChars(parts))
  }

  /** A direct description of the same characters: those that are not a
      space and begin the name or follow a space.  `atStart` says whether
      the previous character was a space (or there was none). */
  function WordStarts(s: string, atStart: bool): string {
    if |s| == 0 then []
    else (if atStart && s[0] != ' ' then [s[0]] else []) + WordStarts(s[1..], s[0] == ' ')
  }

  lemma {:induction false} SplitCount(s: string)
    ensures |Split(s, ' ')| <= |s| + 1
  {
    if |s| > 0 {
      SplitCount(s[1..]);
    }
  }

  lemma {:induction false} FirstCharsCons(p: string, rest: seq<string>)
    ensures FirstChars([p] + rest) == (if |p| > 0 then [p[0]] else []) + FirstChars(rest)
  {
    assert ([p] + rest)[1..] == rest;
  }

  /** The split-based computation and the direct description agree, both
      for the whole name and for what follows its first word. */
  lemma {:induction false} FirstCharsAreWordStarts(s: string)
    ensures FirstChars(Split(s, ' ')) == WordStarts(s, true)
    ensures FirstChars(Split(s, ' ')[1..]) == WordStarts(s, false)
  {
    if |s| > 0 {
      var rest := Split(s[1..], ' ');
      FirstCharsAreWordStarts(s[1..]);
      if s[0] == ' ' {
        assert Split(s, ' ') == [""] + rest;
        FirstCharsCons("", rest);
        assert Split(s, ' ')[1..] == rest;
      } else {
        var first := [s[0]] + rest[0];
        assert Split(s, ' ') == [first] + rest[1..];
        FirstCharsCons(first, rest[1..]);
        assert Split(s, ' ')[1..] == rest[1..];
      }
    }
  }

  /** Initials are the upper-cased first characters of the space-separated
      words in order; repeated, leading and trailing spaces add nothing. */
  lemma {:induction false} InitialsAreWordStarts(name: string)
    ensures GetInitials(name) == ToUpper(WordStarts(name, true))
  {
    FirstCharsAreWordStarts(name);
  }

  /** Two words give two initials. */
  lemma {:induction false} TwoWordInitials(w1: string, w2: string)
    requires |w1| > 0 && |w2| > 0 && ' ' !in w1 && ' ' !in w2
    ensures GetInitials(w1 + [' '] + w2) == ToUpper([w1[0], w2[0]])
  {
    SplitPrefix(w1, w2, ' ');
    SplitNoSep(w2, ' ');
    FirstCharsCons(w1, [w2]);
    FirstCharsCons(w2, []);
  }

  /** A doubled space between two words adds nothing. */
  lemma {:induction false} DoubledSpaceInitials(w1: string, w2: string)
    requires |w1| > 0 && |w2| > 0 && ' ' !in w1 && ' ' !in w2
    ensures GetInitials(w1 + [' '] + ([' '] + w2)) == ToUpper([w1[0], w2[0]])
  {
    SplitPrefix(w1, [' '] + w2, ' ');
    assert [' '] + w2 == [] + [' '] + w2;
    SplitPrefix([], w2, ' ');
    SplitNoSep(w2, ' ');
    assert Split(w1 + [' '] + ([' '] + w2), ' ') == [w1, [], w2];
    FirstCharsCons(w1, [[], w2]);
    FirstCharsCons([], [w2]);
    FirstCharsCons(w2, []);
  }

  // ---------------------------------------------------------------------
  // Category badge

  /** `categoryConfig[category]` as the card reads it.  The server stores
      any category string.  For one outside the seven the lookup finds an
      inherited member of `Object.prototype` (whose `bgColor`, `textColor`
      and `label` are undefined, so the badge renders blank) or nothing at
      all, and then reading `bgColor` from it throws. */
  function CardCategoryAsWritten(category: string): (r: Lookup<CategoryInfo>)
    ensures r.Own? <==> ParseCategory(category).Some?
    ensures r.Own? ==> r.entry == CategoryConfig(ParseCategory(category).value)
    ensures r.Inherited? <==> category in InheritedNames
    ensures r.Undefined? <==> ParseCategory(category).None? && category !in InheritedNames
  {
    CategoryInfoFor(category)
  }

  /** A request the server accepts whose card finds nothing for its
      category. */
  lemma {:induction false} UnknownCategoryHasNoBadge()
    ensures var x := InsertRequest("Lawn mowing", "Looking for help mowing a small lawn", "gardening",
                                   Location(37.77, -122.42, None, None));
            && ValidateInsertRequest(EncodeInsertRequest(x)) == Success(x)
            && CardCategoryAsWritten(x.category).Undefined?
  {
    var x := InsertRequest("Lawn mowing", "Looking for help mowing a small lawn", "gardening",
                           Location(37.77, -122.42, None, None));
    ValidateEncoded(x);
  }

  /** The badge metadata with every category outside the seven shown as
      "Other": defined for every stored string and equal to the table for
      the seven names. */
  function CardCategory(category: string): (info: CategoryInfo)
    ensures |info.labelText| > 0 && |info.bgColor| > 0 && |info.textColor| > 0
    ensures forall c: CategoryType :: CategoryName(c) == category ==> info == CategoryConfig(c)
    ensures ParseCategory(category).None? ==> info == CategoryConfig(Other)
  {
    match CardCategoryAsWritten(category)
    case Own(info) => info
    case Inherited => CategoryConfig(Other)
    case Undefined => CategoryConfig(Other)
  }

  /** Where the card's lookup finds a table entry, the corrected badge is
      that entry. */
  lemma {:induction false} CardCategoryAgrees(category: string)
    requires CardCategoryAsWritten(category).Own?
    ensures CardCategory(category) == CardCategoryAsWritten(category).entry
  {
  }
}
