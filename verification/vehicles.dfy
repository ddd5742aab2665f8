/** The vehicles page: every vehicle in the society with search and a detail
    pane. */
module Vehicles {
  import opened Wrappers
  import opened Text
  import opened Seqs
  import opened Search
  import opened Http
  import opened ListPage

  datatype Vehicle = Vehicle(
    id: string,
    make: string,
    model: string,
    color: string,
    licensePlate: string,
    userId: string,
    userName: Option<string>,
    lastEntry: Option<string>,
    lastExit: Option<string>)

  /** The fields the search box looks at. */
  function SearchFields(v: Vehicle): seq<string> {
    [v.make, v.model, v.color, v.licensePlate] + Present(v.userName)
  }

  /** The page's filter callback written out, for a lower-cased query `q`. */
  predicate Hit(v: Vehicle, q: string) {
    || Contains(Lower(v.make), q)
    || Contains(Lower(v.model), q)
    || Contains(Lower(v.color), q)
    || Contains(Lower(v.licensePlate), q)
    || (Truthy(v.userName) && Contains(Lower(v.userName.value), q))
  }

  lemma MatchesIffHit(v: Vehicle, query: string)
    ensures Matches(query, SearchFields(v)) <==> Hit(v, Lower(query))
  {
    var opt := Present(v.userName);
    assert SearchFields(v) == [v.make] + ([v.model] + ([v.color] + ([v.licensePlate] + opt)));
    MatchesCons(query, v.make, [v.model] + ([v.color] + ([v.licensePlate] + opt)));
    MatchesCons(query, v.model, [v.color] + ([v.licensePlate] + opt));
    MatchesCons(query, v.color, [v.licensePlate] + opt);
    MatchesCons(query, v.licensePlate, opt);
    MatchesPresent(query, v.userName);
  }

  /** The filtered view: the whole list for a blank query, otherwise the
      order-preserving subsequence of vehicles whose make, model, colour,
      licence plate or owner name contains the lower-cased query. */
  lemma FilteredVehicles(vehicles: seq<Vehicle>, query: string)
    ensures var r := SearchBy(vehicles, query, SearchFields);
            && IsSubsequence(r, vehicles)
            && |r| <= |vehicles|
            && (IsBlank(query) ==> r == vehicles)
            && forall i | 0 <= i < |vehicles| ::
                 vehicles[i] in r <==> IsBlank(query) || Hit(vehicles[i], Lower(query))
  {
    forall i | 0 <= i < |vehicles| {
      MatchesIffHit(vehicles[i], query);
    }
  }

  /** Searching the filtered view again with the same query changes nothing. */
  lemma FilterTwice(vehicles: seq<Vehicle>, query: string)
    ensures SearchBy(SearchBy(vehicles, query, SearchFields), query, SearchFields)
            == SearchBy(vehicles, query, SearchFields)
  {
    SearchIdempotent(vehicles, query, SearchFields);
  }

  // ---------------------------------------------------------------------------
  // Page state

  const FetchFailure := "Failed to fetch vehicles"

  /** `fetchVehicles` once the response to GET /vehicle/all is in. */
  function FetchVehicles(s: ListState<Vehicle>, resp: Response<seq<Vehicle>>): (r: ListState<Vehicle>)
    ensures !r.loading
    ensures resp.Ok? ==> r.items == resp.payload && r.filtered == resp.payload && r.error == s.error
    ensures resp.Ok? ==> r.selected == if |resp.payload| > 0 then None else s.selected
    ensures resp.Failed? ==> r.error == "Failed to fetch vehicles"
    ensures !resp.Ok? ==> r.items == s.items && r.selected == s.selected
  {
    Load(s, resp, FetchFailure)
  }

  /** The search effect. */
  function ApplySearch(s: ListState<Vehicle>): (r: ListState<Vehicle>)
    ensures r.items == s.items && InSync(r, SearchFields)
  {
    Refresh(s, SearchFields)
  }

  /** The detail column. */
  function DetailColumn(s: ListState<Vehicle>): (p: Pane<Vehicle>)
    ensures p.Placeholder? ==> (p.message == "No vehicles found" <==> |s.filtered| == 0)
    ensures p.Placeholder? ==> (p.message == "Select a vehicle to view details" <==> |s.filtered| > 0)
  {
    DetailPane(s, "No vehicles found", "Select a vehicle to view details")
  }
}
