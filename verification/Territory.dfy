/** The region test of a location: the EXISTS over the territory's regions that every anchor ends in. */
module Territory {
  import opened Relational
  import opened Text

  function TextOr(v: Value): string {
    match v
    case Text(s) => s
    case Num(n) => Decimal(n)
    case _ => ""
  }

  /** The number in the first one to five digits of `s`, if it starts with a digit. */
  function ZipNumber(s: string, width: nat, acc: nat, seen: bool): int
    decreases width
  {
    if width > 0 && s != "" && '0' <= s[0] <= '9'
    then ZipNumber(s[1..], width - 1, 10 * acc + (s[0] as int - '0' as int), true)
    else if seen then acc else -1
  }

  predicate InRegion(region: Region, loc: Location, near: (real, real, real, Value, Value) -> bool) {
    var zip := ZipNumber(Trim(TextOr(loc.zip)), 5, 0, false);
    var city := Lower(Trim(TextOr(loc.city)));
    var state := Trim(TextOr(loc.state));
    var country := Upper(Trim(TextOr(loc.country)));
    match region
    case ZipRange(ranges) => zip >= 0 && exists i :: 0 <= i < |ranges| && ranges[i].0 <= zip <= ranges[i].1
    case CityState(cities) => city != "" && (city, Upper(state)) in cities
    case GeoRadius(lat, lng, miles) => loc.lat != Null && loc.lng != Null && near(lat, lng, miles, loc.lat, loc.lng)
    case CountryRegion(parts) => state != "" && (country, Lower(state)) in parts
    case CountryOnly(countries) => country != "" && country in countries
  }

  /** Does a location fall in any region of the territory? */
  predicate InSomeRegion(loc: Location, territory: Value, near: (real, real, real, Value, Value) -> bool) {
    territory.Territory? && exists i :: 0 <= i < |territory.regions| && InRegion(territory.regions[i], loc, near)
  }
}
