/** The society card: name, address, an optional location line and an
    optional "Latest" badge. */
module SocietyCard {
  import opened Wrappers
  import opened Text
  import opened SocietyForms

  /** `[city, state, postalCode].filter(Boolean).join(", ")`. */
  function FormattedLocation(soc: Society): (r: string)
    ensures r == "" <==> !Truthy(soc.city) && !Truthy(soc.state) && !Truthy(soc.postalCode)
  {
    TruthiesSmall(soc.city, soc.state, soc.postalCode);
    Join(Truthies([soc.city, soc.state, soc.postalCode]), ", ")
  }

  /** With all three parts present, the location line is city, state and
      postal code in that order, separated by ", ". */
  lemma LocationAllParts(soc: Society, city: string, state: string, postal: string)
    requires city != "" && state != "" && postal != ""
    ensures FormattedLocation(soc.(city := Some(city), state := Some(state), postalCode := Some(postal)))
            == city + ", " + state + ", " + postal
  {
    TruthiesSmall(Some(city), Some(state), Some(postal));
    assert [city] + [state] + [postal] == [city, state, postal];
    assert [city, state, postal][1..] == [state, postal];
    assert [state, postal][1..] == [postal];
    assert Join([postal], ", ") == postal;
    assert Join([state, postal], ", ") == state + ", " + postal;
    assert Join([city, state, postal], ", ") == city + ", " + (state + ", " + postal);
    assert city + ", " + (state + ", " + postal) == city + ", " + state + ", " + postal;
  }

  /** An absent state leaves no empty slot between city and postal code. */
  lemma LocationSkipsAbsentState(soc: Society, city: string, postal: string)
    requires city != "" && postal != ""
    ensures FormattedLocation(soc.(city := Some(city), state := None, postalCode := Some(postal)))
            == city + ", " + postal
  {
    TruthiesSmall(Some(city), None, Some(postal));
    assert [city, postal][1..] == [postal];
    assert Join([postal], ", ") == postal;
  }

  /** An empty city counts as absent. */
  lemma LocationSkipsEmptyCity(soc: Society, state: string)
    requires state != ""
    ensures FormattedLocation(soc.(city := Some(""), state := Some(state), postalCode := None)) == state
  {
    TruthiesSmall(Some(""), Some(state), None);
  }

  /** What the card renders. */
  datatype Card = Card(
    name: string,
    address: string,
    location: Option<string>,
    latestBadge: bool,
    highlighted: bool)

  /** `SocietyCard({ society, isLatest })`; `isLatest` may be omitted, in
      which case it is false. */
  function Render(soc: Society, isLatest: Option<bool>): (c: Card)
    ensures c.name == soc.name && c.address == soc.address
    ensures c.location.Some? <==> Truthy(soc.city) || Truthy(soc.state) || Truthy(soc.postalCode)
    ensures c.location.Some? ==> c.location.value == FormattedLocation(soc)
    ensures c.latestBadge <==> isLatest == Some(true)
    ensures c.highlighted == c.latestBadge
  {
    var latest := isLatest.GetOr(false);
    var location := FormattedLocation(soc);
    Card(soc.name, soc.address, if location != "" then Some(location) else None, latest, latest)
  }
}
