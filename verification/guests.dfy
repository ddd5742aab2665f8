/** The guests page: guest entries filtered by a "verified only" switch and a
    search box. The client fills in the phone number when the backend omits
    it, and fabricates the verification flag and residence with random values,
    which this model takes as parameters. */
module Guests {
  import opened Wrappers
  import opened Text
  import opened Seqs
  import opened Search
  import opened Http
  import opened ListPage

  datatype GuestVehicle = GuestVehicle(
    vehicleId: Option<string>,
    vehicleModel: Option<string>,
    vehicleLicensePlateNumber: Option<string>,
    vehicleColor: Option<string>,
    isGuest: Option<bool>)

  datatype GuestResidence = GuestResidence(id: string, addressLine1: Option<string>, block: Option<string>)

  datatype Guest = Guest(
    guestId: string,
    guestName: string,
    guestPhoneNumber: Option<string>,
    eta: string,
    visitCompleted: bool,
    residence: Option<GuestResidence>,
    guestVehicle: Option<GuestVehicle>)

  /** The licence plate of the guest's vehicle, if there is a vehicle. */
  function Plate(g: Guest): Option<string> {
    if g.guestVehicle.Some? then g.guestVehicle.value.vehicleLicensePlateNumber else None
  }

  /** The fields the search box looks at. */
  function SearchFields(g: Guest): seq<string> {
    [g.guestName] + Present(g.guestPhoneNumber) + Present(Plate(g))
  }

  /** The page's search callback written out, for a lower-cased query `q`. */
  predicate Hit(g: Guest, q: string) {
    || Contains(Lower(g.guestName), q)
    || (Truthy(g.guestPhoneNumber) && Contains(Lower(g.guestPhoneNumber.value), q))
    || (g.guestVehicle.Some? && Truthy(g.guestVehicle.value.vehicleLicensePlateNumber)
        && Contains(Lower(g.guestVehicle.value.vehicleLicensePlateNumber.value), q))
  }

  lemma MatchesIffHit(g: Guest, query: string)
    ensures Matches(query, SearchFields(g)) <==> Hit(g, Lower(query))
  {
    var p, v := Present(g.guestPhoneNumber), Present(Plate(g));
    assert SearchFields(g) == [g.guestName] + (p + v);
    MatchesCons(query, g.guestName, p + v);
    MatchesPresent(query, g.guestPhoneNumber);
    MatchesPresent(query, Plate(g));
    if p == [] {
      assert p + v == v;
    } else {
      assert p + v == [p[0]] + v;
      MatchesCons(query, p[0], v);
    }
  }

  predicate Verified(g: Guest) {
    g.visitCompleted
  }

  /** `filterGuests`: first keep only completed visits when the switch is on,
      then apply the search unless the query is blank. */
  function FilterGuests(guests: seq<Guest>, query: string, verifiedOnly: bool): (r: seq<Guest>)
    ensures verifiedOnly ==> forall i | 0 <= i < |r| :: r[i].visitCompleted
    ensures !verifiedOnly && IsBlank(query) ==> r == guests
    ensures |r| <= |guests|
  {
    var byFlag := if verifiedOnly then Filter(guests, Verified) else guests;
    var r := SearchBy(byFlag, query, SearchFields);
    assert forall i | 0 <= i < |r| :: r[i] in byFlag by {
      forall i | 0 <= i < |r| ensures r[i] in byFlag {
        if !IsBlank(query) {
          FilterMembership(byFlag, Matcher(query, SearchFields), r[i]);
        }
      }
    }
    if verifiedOnly then
      forall i | 0 <= i < |r| ensures r[i].visitCompleted {
        FilterMembership(guests, Verified, r[i]);
      }
      r
    else r
  }

  /** Both conditions of the page in one predicate. */
  function Keep(query: string, verifiedOnly: bool): Guest -> bool {
    (g: Guest) => (!verifiedOnly || g.visitCompleted) && (IsBlank(query) || Matches(query, SearchFields(g)))
  }

  /** The guests shown are exactly those, in their original order, that pass
      the switch AND the search: one filter by the conjunction. */
  lemma FilterGuestsIsConjunction(guests: seq<Guest>, query: string, verifiedOnly: bool)
    ensures FilterGuests(guests, query, verifiedOnly) == Filter(guests, Keep(query, verifiedOnly))
  {
    var keep := Keep(query, verifiedOnly);
    var search := Matcher(query, SearchFields);
    if !verifiedOnly && IsBlank(query) {
      FilterKeepsAll(guests, keep);
    } else if !verifiedOnly {
      FilterExtensional(guests, search, keep);
    } else if IsBlank(query) {
      FilterExtensional(guests, Verified, keep);
    } else {
      FilterFilter(guests, Verified, search);
      FilterExtensional(guests, And(Verified, search), keep);
    }
  }

  /** Membership in the filtered view, both directions. */
  lemma FilterGuestsMembers(guests: seq<Guest>, query: string, verifiedOnly: bool)
    ensures var r := FilterGuests(guests, query, verifiedOnly);
            && IsSubsequence(r, guests)
            && forall i | 0 <= i < |guests| ::
                 guests[i] in r <==>
                   && (!verifiedOnly || guests[i].visitCompleted)
                   && (IsBlank(query) || Hit(guests[i], Lower(query)))
  {
    FilterGuestsIsConjunction(guests, query, verifiedOnly);
    forall i | 0 <= i < |guests|
      ensures guests[i] in Filter(guests, Keep(query, verifiedOnly)) <==> guests[i] in guests && Keep(query, verifiedOnly)(guests[i])
      ensures Matches(query, SearchFields(guests[i])) <==> Hit(guests[i], Lower(query))
    {
      FilterMembership(guests, Keep(query, verifiedOnly), guests[i]);
      MatchesIffHit(guests[i], query);
    }
  }

  /** Applying the switch after the search gives the same list as the page's
      switch-then-search order. */
  lemma SwitchAndSearchCommute(guests: seq<Guest>, query: string, verifiedOnly: bool)
    ensures FilterGuests(guests, query, verifiedOnly)
            == if verifiedOnly then Filter(SearchBy(guests, query, SearchFields), Verified)
               else SearchBy(guests, query, SearchFields)
  {
    if verifiedOnly && !IsBlank(query) {
      FilterCommutes(guests, Verified, Matcher(query, SearchFields));
    }
  }

  // ---------------------------------------------------------------------------
  // Loading

  /** One guest as the loader rewrites it: a missing or empty phone number
      becomes "N/A", and the verification flag and residence are replaced by
      the values the loader draws at random. */
  function Enhance(g: Guest, visited: bool, home: GuestResidence): (r: Guest)
    ensures r.guestId == g.guestId && r.guestName == g.guestName && r.eta == g.eta
    ensures r.guestVehicle == g.guestVehicle
    ensures Truthy(g.guestPhoneNumber) ==> r.guestPhoneNumber == g.guestPhoneNumber
    ensures !Truthy(g.guestPhoneNumber) ==> r.guestPhoneNumber == Some("N/A")
    ensures r.visitCompleted == visited && r.residence == Some(home)
  {
    g.(guestPhoneNumber := if Truthy(g.guestPhoneNumber) then g.guestPhoneNumber else Some("N/A"),
       visitCompleted := visited,
       residence := Some(home))
  }

  /** The loader's `data.map(...)`; `visited(i)` and `home(i)` stand for the
      random draws made for the `i`-th guest. */
  function EnhanceAll(data: seq<Guest>, visited: nat -> bool, home: nat -> GuestResidence): (r: seq<Guest>)
    ensures |r| == |data|
    ensures forall i | 0 <= i < |data| :: r[i] == Enhance(data[i], visited(i), home(i))
  {
    seq(|data|, i requires 0 <= i < |data| => Enhance(data[i], visited(i), home(i)))
  }

  /** After loading every guest has a truthy phone number, names and list
      length are unchanged, and the query "n/a" finds every guest that came
      without a phone number. */
  lemma EnhancedPhones(data: seq<Guest>, visited: nat -> bool, home: nat -> GuestResidence)
    ensures var r := EnhanceAll(data, visited, home);
            && |r| == |data|
            && (forall i | 0 <= i < |r| :: Truthy(r[i].guestPhoneNumber) && r[i].guestName == data[i].guestName)
            && forall i | 0 <= i < |r| :: !Truthy(data[i].guestPhoneNumber) ==> Matches("n/a", SearchFields(r[i]))
  {
    var r := EnhanceAll(data, visited, home);
    assert Lower("N/A") == "n/a" && Lower("n/a") == "n/a";
    assert OccursAt(Lower("N/A"), Lower("n/a"), 0);
    forall i | 0 <= i < |r| && !Truthy(data[i].guestPhoneNumber)
      ensures Matches("n/a", SearchFields(r[i]))
    {
      MatchesIffHit(r[i], "n/a");
    }
  }

  // ---------------------------------------------------------------------------
  // Page state

  datatype PageState = PageState(list: ListState<Guest>, verifiedOnly: bool)

  const FetchFailure := "Failed to fetch guests"

  /** After mount: loading, nothing loaded, and the switch on. */
  function Mount(): (s: PageState)
    ensures s.verifiedOnly && s.list.loading && s.list.items == []
  {
    PageState(Mounted(), true)
  }

  /** `fetchGuests` once the response to GET /guest/all is in. On success the
      enhanced list is stored, and the handler's own `filterGuests()` call
      filters the list it closed over, which is the one before this load; the
      filter effect then brings the view up to date. The selection is never
      touched. */
  function FetchGuests(s: PageState, resp: Response<seq<Guest>>,
                       visited: nat -> bool, home: nat -> GuestResidence): (r: PageState)
    ensures !r.list.loading && r.verifiedOnly == s.verifiedOnly && r.list.query == s.list.query
    ensures r.list.selected == s.list.selected
    ensures resp.Ok? ==> r.list.items == EnhanceAll(resp.payload, visited, home) && r.list.error == s.list.error
    ensures resp.Ok? ==> r.list.filtered == FilterGuests(s.list.items, s.list.query, s.verifiedOnly)
    ensures resp.Failed? ==> r.list.error == "Failed to fetch guests"
    ensures resp.Thrown? ==> r.list.error == resp.reason
    ensures !resp.Ok? ==> r.list.items == s.list.items && r.list.filtered == s.list.filtered
  {
    match resp
    case Ok(data) =>
      s.(list := s.list.(items := EnhanceAll(data, visited, home),
                         filtered := FilterGuests(s.list.items, s.list.query, s.verifiedOnly),
                         loading := false))
    case Failed(_, _) => s.(list := s.list.(error := FetchFailure, loading := false))
    case Thrown(reason) => s.(list := s.list.(error := reason, loading := false))
  }

  /** The filter effect, run when the query, the switch or the list changes. */
  function ApplyFilter(s: PageState): (r: PageState)
    ensures r.list.items == s.list.items && r.verifiedOnly == s.verifiedOnly && r.list.query == s.list.query
    ensures r.list.filtered == FilterGuests(s.list.items, s.list.query, s.verifiedOnly)
  {
    s.(list := s.list.(filtered := FilterGuests(s.list.items, s.list.query, s.verifiedOnly)))
  }

  /** Toggling "Show verified guests only". */
  function SetVerifiedOnly(s: PageState, on: bool): (r: PageState)
    ensures r.verifiedOnly == on && r.list == s.list
  {
    s.(verifiedOnly := on)
  }

  /** The first load on mount: the handler's own filter call sees the empty
      list it closed over, so the view only fills once the effect runs; then
      it holds exactly the verified guests of the enhanced list. */
  lemma FirstLoad(data: seq<Guest>, visited: nat -> bool, home: nat -> GuestResidence)
    ensures var loaded := FetchGuests(Mount(), Ok(data), visited, home);
            && loaded.list.filtered == []
            && ApplyFilter(loaded).list.filtered == Filter(EnhanceAll(data, visited, home), Verified)
  {
    var m := Mount();
    var enhanced := EnhanceAll(data, visited, home);
    var loaded := FetchGuests(m, Ok(data), visited, home);
    assert IsBlank(m.list.query);
    assert FilterGuests([], "", true) == [];
    assert loaded.list.items == enhanced && loaded.list.query == "" && loaded.verifiedOnly;
    assert FilterGuests(enhanced, "", true) == Filter(enhanced, Verified);
  }

  /** The detail column's placeholder distinguishes an empty view with the
      switch on from one with the switch off. */
  function DetailColumn(s: PageState): (p: Pane<Guest>)
    ensures p.Placeholder? && |s.list.filtered| == 0 && s.verifiedOnly ==> p.message == "No verified guests found"
    ensures p.Placeholder? && |s.list.filtered| == 0 && !s.verifiedOnly ==> p.message == "No guests found"
    ensures p.Placeholder? ==> (p.message == "Select a guest to view details" <==> |s.list.filtered| > 0)
  {
    var empty := if s.verifiedOnly then "No verified guests found" else "No guests found";
    DetailPane(s.list, empty, "Select a guest to view details")
  }
}
