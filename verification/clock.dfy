/**
 * The world clock's city search: a query keeps the cities whose name or
 * country contains it, ignoring case.
 */
module Clock {
  import opened Text
  import opened Seqs

  /** A searchable city; the flag glyph is not modelled. */
  datatype City = City(name: string, timezone: string, country: string)

  const WorldCities: seq<City> := [
    City("New York", "America/New_York", "ABD"),
    City("Los Angeles", "America/Los_Angeles", "ABD"),
    City("Londra", "Europe/London", "İngiltere"),
    City("Paris", "Europe/Paris", "Fransa"),
    City("Tokyo", "Asia/Tokyo", "Japonya"),
    City("Dubai", "Asia/Dubai", "BAE"),
    City("Moskova", "Europe/Moscow", "Rusya"),
    City("Sydney", "Australia/Sydney", "Avustralya"),
    City("Hong Kong", "Asia/Hong_Kong", "Çin"),
    City("Singapur", "Asia/Singapore", "Singapur"),
    City("Berlin", "Europe/Berlin", "Almanya"),
    City("Madrid", "Europe/Madrid", "İspanya"),
    City("Bakü", "Asia/Baku", "Azerbaycan"),
    City("Tahran", "Asia/Tehran", "İran"),
    City("Kahire", "Africa/Cairo", "Mısır")]

  /** The lowercased name or country contains the lowercased query. */
  predicate Matches(c: City, query: string) {
    Contains(Lower(c.name), Lower(query)) || Contains(Lower(c.country), Lower(query))
  }

  /** `filteredCities` over any list: an empty query keeps every city. */
  function Search(cities: seq<City>, query: string): (r: seq<City>)
    ensures query == "" ==> r == cities
    ensures forall c :: c in r ==> c in cities && Matches(c, query)
    ensures forall i :: 0 <= i < |cities| && Matches(cities[i], query) ==> cities[i] in r
    ensures IsSubsequence(r, cities)
  {
    if query == "" then
      SubsequenceRefl(cities);
      EveryCityMatchesEmpty(cities);
      cities
    else
      FilterIsSubsequence(cities, c => Matches(c, query));
      Filter(cities, c => Matches(c, query))
  }

  /** Every string contains the empty one, so the empty query would match
      every city even without its own branch. */
  lemma EveryCityMatchesEmpty(cities: seq<City>)
    ensures forall c :: c in cities ==> Matches(c, "")
  {
    forall c | c in cities
      ensures Matches(c, "")
    {
      assert MatchesAt(Lower(c.name), Lower(""), 0);
    }
  }

  /** The search over the fifteen listed cities. */
  function FilteredCities(query: string): (r: seq<City>)
    ensures |r| <= 15
    ensures query == "" ==> r == WorldCities
  {
    Search(WorldCities, query)
  }
}
