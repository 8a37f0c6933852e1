/** Location autocomplete. The home page and the trip planner rank
    suggestions in two passes (names containing the query, then names with a
    word sharing the query's first three letters); the ride-booking screen
    keeps only the first pass. Either way at most five names are offered. */
module Suggest {
  import opened Seqs
  import opened Text
  import Gazetteer

  const MaxSuggestions: nat := 5
  /** Pass 1 alone is returned once it has found this many names. */
  const EnoughContainsMatches: nat := 3
  /** Pass 2 compares word starts against this many leading query characters. */
  const FuzzyPrefixLength: nat := 3

  /** Pass 1 test: the lower-cased name equals or includes the lower-cased query. */
  predicate ContainsMatch(query: string, loc: string) {
    Lower(loc) == query || Includes(Lower(loc), query)
  }

  /** Pass 2 test: some space-separated word of the lower-cased name starts
      with `query.substring(0, 3)`. */
  predicate FuzzyMatch(query: string, loc: string) {
    SomeWordStartsWith(Lower(loc), TakeAtMost(query, FuzzyPrefixLength))
  }

  function ContainsTest(query: string): string -> bool {
    loc => ContainsMatch(query, loc)
  }

  function FuzzyTest(query: string): string -> bool {
    loc => FuzzyMatch(query, loc)
  }

  /** Names found by pass 2 only. */
  function FuzzyOnlyTest(query: string): string -> bool {
    AndNot(FuzzyTest(query), ContainsTest(query))
  }

  /** The ride screen's test: the lower-cased name includes the query. */
  function IncludesTest(query: string): string -> bool {
    loc => Includes(Lower(loc), query)
  }

  /** `filterLocations` of the home page and the trip planner. */
  function TwoPassSuggestions(input: string, places: seq<string>): (r: seq<string>)
    ensures input == "" ==> r == []
    ensures |r| <= MaxSuggestions
    ensures forall x | x in r :: x in places
    ensures forall x | x in r ::
              Includes(Lower(x), Lower(input)) ||
              SomeWordStartsWith(Lower(x), TakeAtMost(Lower(input), FuzzyPrefixLength))
  {
    if input == "" then []
    else
      var query := Lower(input);
      var exact := Filter(ContainsTest(query), places);
      EqualityIsInclusion(query, exact);
      if |exact| >= EnoughContainsMatches then TakeAtMost(exact, MaxSuggestions)
      else
        var both := exact + Filter(FuzzyTest(query), places);
        assert forall x | x in both :: x in places && (ContainsMatch(query, x) || FuzzyMatch(query, x));
        TakeAtMost(Dedupe(both), MaxSuggestions)
  }

  /** The `=== input` disjunct of pass 1 adds nothing to `includes`. */
  lemma EqualityIsInclusion(query: string, names: seq<string>)
    ensures forall x | x in names && ContainsMatch(query, x) :: Includes(Lower(x), query)
  {
    forall x | x in names && ContainsMatch(query, x)
      ensures Includes(Lower(x), query)
    {
      IncludesTrivial(Lower(x));
    }
  }

  /** `filterLocations` of the ride-booking screen: pass 1 only. */
  function ContainsOnlySuggestions(input: string, places: seq<string>): (r: seq<string>)
    ensures input == "" ==> r == []
    ensures |r| <= MaxSuggestions
    ensures forall x | x in r :: x in places && Includes(Lower(x), Lower(input))
  {
    if input == "" then []
    else
      var query := Lower(input);
      TakeAtMost(Filter(IncludesTest(query), places), MaxSuggestions)
  }

  /** The ranking spelled out: the contains-matches in list order; when there
      are fewer than three, followed by the names only pass 2 finds, in list
      order; cut at five. */
  function RankedSuggestions(input: string, places: seq<string>): seq<string> {
    if input == "" then []
    else
      var query := Lower(input);
      var exact := Filter(ContainsTest(query), places);
      if |exact| >= EnoughContainsMatches then TakeAtMost(exact, MaxSuggestions)
      else TakeAtMost(exact + Filter(FuzzyOnlyTest(query), places), MaxSuggestions)
  }

  /** Over a list of distinct names the two-pass filter is exactly the
      ranking: deduplicating the concatenated passes keeps pass 1 in front
      and appends the pass-2-only names in list order. */
  lemma TwoPassIsRanked(input: string, places: seq<string>)
    requires NoDup(places)
    ensures TwoPassSuggestions(input, places) == RankedSuggestions(input, places)
  {
    if input != "" {
      var query := Lower(input);
      var exact := Filter(ContainsTest(query), places);
      if |exact| < EnoughContainsMatches {
        FilterNoDup(ContainsTest(query), places);
        DedupeAppend(exact, Filter(FuzzyTest(query), places));
        FilterOutsideFilter(ContainsTest(query), FuzzyTest(query), places);
        FilterNoDup(FuzzyOnlyTest(query), places);
        DedupeNoDup(Filter(FuzzyOnlyTest(query), places));
      }
    }
  }

  /** Every name of the result is a list entry and none is offered twice. */
  lemma TwoPassNoDuplicates(input: string, places: seq<string>)
    requires NoDup(places)
    ensures NoDup(TwoPassSuggestions(input, places))
  {
    if input != "" {
      var query := Lower(input);
      FilterNoDup(ContainsTest(query), places);
    }
  }

  /** With fewer than three contains-matches every one of them is offered,
      ahead of all other names. */
  lemma FewContainsMatchesComeFirst(input: string, places: seq<string>)
    requires input != "" && NoDup(places)
    requires |Filter(ContainsTest(Lower(input)), places)| < EnoughContainsMatches
    ensures var exact := Filter(ContainsTest(Lower(input)), places);
            |exact| <= |TwoPassSuggestions(input, places)| &&
            TwoPassSuggestions(input, places)[..|exact|] == exact
  {
    TwoPassIsRanked(input, places);
  }

  /** With three or more contains-matches no pass-2 name is offered: the
      result is the first five contains-matches. */
  lemma ManyContainsMatchesOnly(input: string, places: seq<string>)
    requires input != ""
    requires |Filter(ContainsTest(Lower(input)), places)| >= EnoughContainsMatches
    ensures var r := TwoPassSuggestions(input, places);
            |r| == if |Filter(ContainsTest(Lower(input)), places)| < MaxSuggestions
                   then |Filter(ContainsTest(Lower(input)), places)| else MaxSuggestions
    ensures forall x | x in TwoPassSuggestions(input, places) :: ContainsMatch(Lower(input), x)
    ensures TwoPassSuggestions(input, places) ==
            TakeAtMost(Filter(ContainsTest(Lower(input)), places), MaxSuggestions)
  {
  }

  /** The ride screen's suggestions are always a prefix of the two-pass
      suggestions over the same list. */
  lemma ContainsOnlyIsPrefix(input: string, places: seq<string>)
    requires NoDup(places)
    ensures ContainsOnlySuggestions(input, places) <= TwoPassSuggestions(input, places)
  {
    if input != "" {
      var query := Lower(input);
      var exact := Filter(ContainsTest(query), places);
      ContainsOnlyIsPass1(input, places);
      TwoPassIsRanked(input, places);
      TakeAtMostPrefix(exact, Filter(FuzzyOnlyTest(query), places), MaxSuggestions);
    }
  }

  /** The ride screen's filter keeps exactly the names pass 1 keeps. */
  lemma ContainsOnlyIsPass1(input: string, places: seq<string>)
    requires input != ""
    ensures ContainsOnlySuggestions(input, places) ==
            TakeAtMost(Filter(ContainsTest(Lower(input)), places), MaxSuggestions)
  {
    var query := Lower(input);
    forall i | 0 <= i < |places|
      ensures IncludesTest(query)(places[i]) == ContainsTest(query)(places[i])
    {
      IncludesTrivial(Lower(places[i]));
    }
    FilterCongruent(IncludesTest(query), ContainsTest(query), places);
  }

  /** While the list has at most five names containing the query, the ride
      screen offers all of them. */
  lemma ContainsOnlyComplete(input: string, places: seq<string>, x: string)
    requires input != ""
    requires |Filter(IncludesTest(Lower(input)), places)| <= MaxSuggestions
    requires x in places && Includes(Lower(x), Lower(input))
    ensures x in ContainsOnlySuggestions(input, places)
  {
  }

  /** A query that no name of `places` matches in either pass, but that one
      extra name `extra` contains, is answered with nothing over `places`
      and with exactly that name over `places + [extra]`. */
  lemma OnlyAddedNameMatches(input: string, places: seq<string>, extra: string)
    requires input != ""
    requires forall x | x in places :: !ContainsMatch(Lower(input), x) && !FuzzyMatch(Lower(input), x)
    requires ContainsMatch(Lower(input), extra)
    ensures TwoPassSuggestions(input, places) == []
    ensures TwoPassSuggestions(input, places + [extra]) == [extra]
  {
    var query := Lower(input);
    NoneMatch(ContainsTest(query), places);
    NoneMatch(FuzzyTest(query), places);
    NothingFound(input, places);
    AddedNameOnly(query, places, extra);
    AddedNameFound(input, places + [extra], extra);
  }

  /** When neither pass finds anything, nothing is suggested. */
  lemma NothingFound(input: string, places: seq<string>)
    requires input != ""
    requires Filter(ContainsTest(Lower(input)), places) == []
    requires Filter(FuzzyTest(Lower(input)), places) == []
    ensures TwoPassSuggestions(input, places) == []
  {
    assert Dedupe<string>([]) == [];
  }

  /** When pass 1 finds one name and pass 2 at most that name, it alone is suggested. */
  lemma AddedNameFound(input: string, places: seq<string>, extra: string)
    requires input != ""
    requires Filter(ContainsTest(Lower(input)), places) == [extra]
    requires Filter(FuzzyTest(Lower(input)), places) == Filter(FuzzyTest(Lower(input)), [extra])
    ensures TwoPassSuggestions(input, places) == [extra]
  {
    var fz := Filter(FuzzyTest(Lower(input)), [extra]);
    assert fz == [] || fz == [extra];
    assert [extra] == [] + [extra];
    assert Dedupe<string>([]) == [];
    DedupeSnoc([], extra);
    DedupeSnoc([extra], extra);
  }

  /** Helper: over `places + [extra]` pass 1 finds only `extra`, pass 2 at most `extra`. */
  lemma AddedNameOnly(query: string, places: seq<string>, extra: string)
    requires Filter(ContainsTest(query), places) == [] && Filter(FuzzyTest(query), places) == []
    requires ContainsMatch(query, extra)
    ensures Filter(ContainsTest(query), places + [extra]) == [extra]
    ensures Filter(FuzzyTest(query), places + [extra]) == Filter(FuzzyTest(query), [extra])
  {
    FilterAppend(ContainsTest(query), places, [extra]);
    FilterAppend(FuzzyTest(query), places, [extra]);
    assert Filter(ContainsTest(query), [extra]) == [extra];
  }

  lemma NoneMatch(f: string -> bool, s: seq<string>)
    requires forall x | x in s :: !f(x)
    ensures Filter(f, s) == []
  {
  }

  /** A query that matches no trip-planner name but is contained in
      "SRM University" (such as "srm") is answered with that one name on the
      home page and with nothing in the trip planner. */
  lemma SrmOnlyOnHomePage(input: string)
    requires input != ""
    requires forall x | x in Gazetteer.TripPlannerLocations ::
               !ContainsMatch(Lower(input), x) && !FuzzyMatch(Lower(input), x)
    requires ContainsMatch(Lower(input), "SRM University")
    ensures TwoPassSuggestions(input, Gazetteer.TripPlannerLocations) == []
    ensures TwoPassSuggestions(input, Gazetteer.HomeLocations) == ["SRM University"]
  {
    Gazetteer.HomeExtendsTripPlanner();
    OnlyAddedNameMatches(input, Gazetteer.TripPlannerLocations, "SRM University");
  }

  /** "srm" passes the first test against "SRM University". */
  lemma SrmQueryMatchesSrm()
    ensures ContainsMatch(Lower("srm"), "SRM University")
  {
    SrmLowerPrefix();
    SrmLowerIsSrm();
    PrefixMatches("srm", "SRM University");
  }

  /** A name whose lower-cased form starts with the query passes pass 1. */
  lemma PrefixMatches(query: string, loc: string)
    requires StartsWith(Lower(loc), query)
    ensures ContainsMatch(query, loc)
  {
    assert Lower(loc)[0..] == Lower(loc);
  }

  lemma SrmLowerIsSrm()
    ensures Lower("srm") == "srm"
  {
  }

  lemma SrmLowerPrefix()
    ensures Lower("SRM University")[..3] == "srm"
  {
    var s := "SRM University";
    assert s[0] == 'S' && s[1] == 'R' && s[2] == 'M';
    assert LowerChar('S') == 's';
  }

  // ---------------------------------------------------------------------
  // The pages' own lists, which name no place twice.

  /** On the home page every query gets the ranked suggestions, none twice. */
  lemma HomeSuggestionsRanked(input: string)
    ensures TwoPassSuggestions(input, Gazetteer.HomeLocations) ==
            RankedSuggestions(input, Gazetteer.HomeLocations)
    ensures NoDup(TwoPassSuggestions(input, Gazetteer.HomeLocations))
  {
    Gazetteer.HomeDistinct();
    TwoPassIsRanked(input, Gazetteer.HomeLocations);
    TwoPassNoDuplicates(input, Gazetteer.HomeLocations);
  }

  /** The same holds in the trip planner. */
  lemma TripPlannerSuggestionsRanked(input: string)
    ensures TwoPassSuggestions(input, Gazetteer.TripPlannerLocations) ==
            RankedSuggestions(input, Gazetteer.TripPlannerLocations)
    ensures NoDup(TwoPassSuggestions(input, Gazetteer.TripPlannerLocations))
  {
    Gazetteer.TripPlannerDistinct();
    TwoPassIsRanked(input, Gazetteer.TripPlannerLocations);
    TwoPassNoDuplicates(input, Gazetteer.TripPlannerLocations);
  }

  /** On the ride screen's list its suggestions are a prefix of what the
      two-pass filter would offer there. */
  lemma RideSuggestionsArePrefix(input: string)
    ensures ContainsOnlySuggestions(input, Gazetteer.RideLocations) <=
            TwoPassSuggestions(input, Gazetteer.RideLocations)
  {
    Gazetteer.RideDistinct();
    ContainsOnlyIsPrefix(input, Gazetteer.RideLocations);
  }

  // ---------------------------------------------------------------------
  // The autocomplete field: input text, current suggestions, dropdown.

  datatype Matcher = TwoPass | ContainsOnly

  function Suggestions(m: Matcher, input: string, places: seq<string>): seq<string> {
    match m
    case TwoPass => TwoPassSuggestions(input, places)
    case ContainsOnly => ContainsOnlySuggestions(input, places)
  }

  datatype Field = Field(text: string, suggestions: seq<string>, open: bool)

  const EmptyField := Field("", [], false)

  /** The dropdown is open only while it has something to show, and it only
      ever shows names of the page's list. */
  predicate FieldOk(f: Field, places: seq<string>) {
    (f.open ==> f.suggestions != []) && forall x | x in f.suggestions :: x in places
  }

  /** The change handler: store the text, recompute, open iff non-empty. */
  function Edit(f: Field, value: string, m: Matcher, places: seq<string>): (r: Field)
    ensures r.text == value
    ensures r.open <==> r.suggestions != []
    ensures value == "" ==> !r.open
    ensures forall x | x in r.suggestions :: x in places
  {
    var s := Suggestions(m, value, places);
    Field(value, s, |s| > 0)
  }

  /** The select handler: store the chosen name verbatim and close. */
  function Pick(f: Field, loc: string): (r: Field)
    ensures r.text == loc && !r.open
    ensures r.suggestions == f.suggestions
  {
    f.(text := loc, open := false)
  }

  /** A mouse-down outside the field closes the dropdown and keeps the text. */
  function ClickOutside(f: Field): (r: Field)
    ensures !r.open && r.text == f.text && r.suggestions == f.suggestions
  {
    f.(open := false)
  }

  /** Focusing the field reopens its dropdown when it has something to show. */
  function Focus(f: Field): (r: Field)
    ensures r.open <==> f.suggestions != []
    ensures r.text == f.text && r.suggestions == f.suggestions
  {
    f.(open := |f.suggestions| > 0)
  }

  /** The origin and destination fields of a search form. */
  datatype Fields = Fields(origin: Field, destination: Field)

  const EmptyFields := Fields(EmptyField, EmptyField)

  datatype FieldEvent =
    | OriginChanged(value: string)
    | DestinationChanged(value: string)
    | OriginPicked(loc: string)
    | DestinationPicked(loc: string)
    | OriginFocused
    | DestinationFocused
    /** A mouse-down anywhere on the page, inside or outside each field. */
    | MouseDown(insideOrigin: bool, insideDestination: bool)

  predicate FieldsOk(f: Fields, places: seq<string>) {
    FieldOk(f.origin, places) && FieldOk(f.destination, places)
  }

  /** The handlers of the two fields. Each handler touches only its own
      field; a mouse-down closes every dropdown it did not land in. */
  function FieldsStep(f: Fields, e: FieldEvent, m: Matcher, places: seq<string>): (r: Fields)
    ensures (e.OriginChanged? || e.OriginPicked? || e.OriginFocused?) ==> r.destination == f.destination
    ensures (e.DestinationChanged? || e.DestinationPicked? || e.DestinationFocused?) ==> r.origin == f.origin
    ensures e.OriginChanged? ==> r.origin.text == e.value && (r.origin.open <==> r.origin.suggestions != [])
    ensures e.DestinationChanged? ==> r.destination.text == e.value && (r.destination.open <==> r.destination.suggestions != [])
    ensures e.OriginPicked? ==> r.origin.text == e.loc && !r.origin.open
    ensures e.DestinationPicked? ==> r.destination.text == e.loc && !r.destination.open
    ensures e.OriginFocused? ==> r.origin.text == f.origin.text && (r.origin.open <==> f.origin.suggestions != [])
    ensures e.DestinationFocused? ==> r.destination.text == f.destination.text && (r.destination.open <==> f.destination.suggestions != [])
    ensures e.MouseDown? ==>
              r.origin.text == f.origin.text && r.destination.text == f.destination.text &&
              (r.origin.open <==> f.origin.open && e.insideOrigin) &&
              (r.destination.open <==> f.destination.open && e.insideDestination)
  {
    match e
    case OriginChanged(v) => f.(origin := Edit(f.origin, v, m, places))
    case DestinationChanged(v) => f.(destination := Edit(f.destination, v, m, places))
    case OriginPicked(loc) => f.(origin := Pick(f.origin, loc))
    case DestinationPicked(loc) => f.(destination := Pick(f.destination, loc))
    case OriginFocused => f.(origin := Focus(f.origin))
    case DestinationFocused => f.(destination := Focus(f.destination))
    case MouseDown(inO, inD) =>
      Fields(if inO then f.origin else ClickOutside(f.origin),
             if inD then f.destination else ClickOutside(f.destination))
  }

  /** Every handler keeps both dropdowns well-formed. */
  lemma FieldsStepKeepsOk(f: Fields, e: FieldEvent, m: Matcher, places: seq<string>)
    requires FieldsOk(f, places)
    ensures FieldsOk(FieldsStep(f, e, m, places), places)
  {
  }

  /** Typing a name and then picking a suggestion leaves exactly the picked
      name in the field, with the dropdown closed, whatever was typed. */
  lemma TypeThenPick(f: Fields, typed: string, loc: string, m: Matcher, places: seq<string>)
    ensures var r := FieldsStep(FieldsStep(f, OriginChanged(typed), m, places), OriginPicked(loc), m, places);
            r.origin.text == loc && !r.origin.open && r.destination == f.destination
  {
  }
}
