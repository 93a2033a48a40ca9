/**
 * The country search app (course/data_for_countries/src/App.js): a filter
 * over the list of countries, the four-way classification of what to show,
 * the "show" button that selects one country by name, and the details view.
 */
module Countries {
  import opened Collections
  import opened Text

  datatype Language = Language(name: string)
  datatype Flags = Flags(png: string)
  datatype Country = Country(name: string, capital: string, area: real, languages: seq<Language>, flags: Flags)

  /** What `DisplayCountries` renders. */
  datatype Display =
    | Blank                          // empty filter: an empty list
    | TooMany                        // more than 10 matches: "Too many matches, specify another filter"
    | Details(country: Country)      // exactly one match: its details
    | Names(items: seq<Country>)     // otherwise: one list item with a show button per match

  /** What `ShowCountryData` renders. */
  datatype CountryView =
    | NoCountry                      // no country selected
    | CountryDetails(country: Country)
    | MissingCountry                 // no country has that name: reading `countryData.name` throws

  /** `filterCountryList(filter)`: the countries whose name matches, in order. */
  function FilterCountryList(countries: seq<Country>, filter: string): (r: seq<Country>)
    ensures IsSubsequence(r, countries)
    ensures forall c :: c in r <==> c in countries && MatchesFilter(c.name, filter)
    ensures forall c :: multiset(r)[c] == if MatchesFilter(c.name, filter) then multiset(countries)[c] else 0
    ensures filter == "" ==> r == countries
  {
    EmptyFilterMatchesAll();
    KeepIf(countries, (c: Country) => MatchesFilter(c.name, filter))
  }

  /** `DisplayCountries`: exactly one of four outcomes for every filter and list. */
  function DisplayCountries(countryFilter: string, countries: seq<Country>): (r: Display)
    ensures r.Blank? <==> countryFilter == ""
    ensures r.TooMany? <==> countryFilter != "" && |FilterCountryList(countries, countryFilter)| > 10
    ensures r.Details? <==> countryFilter != "" && |FilterCountryList(countries, countryFilter)| == 1
    ensures r.Details? ==> FilterCountryList(countries, countryFilter) == [r.country]
    ensures r.Details? ==> r.country in countries && MatchesFilter(r.country.name, countryFilter)
    ensures r.Names? ==> r.items == FilterCountryList(countries, countryFilter) && |r.items| != 1 && |r.items| <= 10
  {
    if countryFilter == "" then Blank
    else
      var filteredCountries := FilterCountryList(countries, countryFilter);
      if |filteredCountries| > 10 then TooMany
      else if |filteredCountries| == 1 then Details(filteredCountries[0])
      else Names(filteredCountries)
  }

  /** Exactly ten matches are still listed, not refused. */
  lemma TenMatchesAreListed(countryFilter: string, countries: seq<Country>)
    requires countryFilter != ""
    requires |FilterCountryList(countries, countryFilter)| == 10
    ensures DisplayCountries(countryFilter, countries) == Names(FilterCountryList(countries, countryFilter))
  {
  }

  /** No match at all gives an empty list, not the blank or the details case. */
  lemma NoMatchIsEmptyList(countryFilter: string, countries: seq<Country>)
    requires countryFilter != ""
    requires forall c :: c in countries ==> !MatchesFilter(c.name, countryFilter)
    ensures DisplayCountries(countryFilter, countries) == Names([])
  {
  }

  /** The text content of a list item: the name followed by its button's label. */
  function ItemText(c: Country): (t: string)
    ensures |t| == |c.name| + 4
    ensures c.name <= t && t[|c.name|..] == "show"
  {
    c.name + "show"
  }

  /** JavaScript's `s.slice(start, end)`: negative positions count from the end. */
  function JsSlice(s: string, start: int, end: int): (r: string)
    ensures |r| <= |s|
    ensures 0 <= start <= end <= |s| ==> r == s[start..end]
    ensures 0 <= end <= start ==> r == ""
    ensures start == 0 && end < 0 ==> r == s[..if |s| + end < 0 then 0 else |s| + end]
    ensures start == 0 && end > |s| ==> r == s
  {
    var from := if start < 0 then (if |s| + start < 0 then 0 else |s| + start)
                else if start > |s| then |s| else start;
    var to := if end < 0 then (if |s| + end < 0 then 0 else |s| + end)
              else if end > |s| then |s| else end;
    if from < to then s[from..to] else ""
  }

  /** The name the show-button handler reads off its list item's text. */
  function ShownName(itemText: string): (r: string)
    ensures |itemText| >= 4 ==> r == itemText[..|itemText| - 4]
    ensures |itemText| == 3 ==> r == itemText[..2]
    ensures |itemText| <= 2 ==> r == ""
  {
    JsSlice(itemText, 0, |itemText| - 4)
  }

  /** The show button recovers exactly the name of the country it was shown for. */
  lemma ShowButtonRoundTrip(c: Country)
    ensures ShownName(ItemText(c)) == c.name
  {
    assert ItemText(c)[..|ItemText(c)| - 4] == c.name;
  }

  /** `ShowCountryData`: nothing, or the first country with exactly that name. */
  function ShowCountryData(showCountry: string, countries: seq<Country>): (r: CountryView)
    ensures r.NoCountry? <==> showCountry == ""
    ensures r.MissingCountry? <==> showCountry != "" && forall i :: 0 <= i < |countries| ==> countries[i].name != showCountry
    ensures r.CountryDetails? ==> exists i :: 0 <= i < |countries| && countries[i] == r.country &&
                                             r.country.name == showCountry &&
                                             forall j :: 0 <= j < i ==> countries[j].name != showCountry
  {
    if showCountry == "" then NoCountry
    else
      match FindFirst(countries, (c: Country) => c.name == showCountry)
      case Some(countryData) => CountryDetails(countryData)
      case None => MissingCountry
  }

  class App {
    var countries: seq<Country>
    var countryFilter: string
    var showCountry: string

    /** The selected name, when there is one, belongs to some country. */
    ghost predicate Valid()
      reads this
    {
      showCountry == "" || exists i :: 0 <= i < |countries| && countries[i].name == showCountry
    }

    /** The state once the country list has been fetched. */
    constructor (fetched: seq<Country>)
      ensures Valid()
      ensures countries == fetched && countryFilter == "" && showCountry == ""
    {
      countries := fetched;
      countryFilter := "";
      showCountry := "";
    }

    /** Typing in the search box replaces the filter and clears the selection. */
    method HandleCountryFilterChange(value: string)
      requires Valid()
      modifies this`countryFilter, this`showCountry
      ensures Valid()
      ensures countryFilter == value && showCountry == ""
    {
      countryFilter := value;
      showCountry := "";
    }

    /**
     * Clicking the show button of a listed country: `itemText` is the text of
     * the list item holding that button.
     */
    method HandleShowButtonClick(itemText: string)
      requires Valid()
      requires DisplayCountries(countryFilter, countries).Names?
      requires exists c :: c in DisplayCountries(countryFilter, countries).items && itemText == ItemText(c)
      modifies this`showCountry
      ensures Valid()
      ensures showCountry == ShownName(itemText)
      ensures exists c :: c in countries && showCountry == c.name
    {
      ghost var c :| c in DisplayCountries(countryFilter, countries).items && itemText == ItemText(c);
      ShowButtonRoundTrip(c);
      var countryName := ShownName(itemText);
      showCountry := countryName;
      ghost var i :| 0 <= i < |countries| && countries[i] == c;
    }

    /** The details view never reaches the missing-country case from a valid state. */
    function SelectedCountry(): (r: CountryView)
      reads this
      requires Valid()
      ensures !r.MissingCountry?
      ensures r.NoCountry? <==> showCountry == ""
    {
      ShowCountryData(showCountry, countries)
    }
  }
}
