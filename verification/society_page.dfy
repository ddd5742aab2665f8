/** The society page: loads the latest society and shows it, the
    registration form, a spinner or a "no society" placeholder. */
module SocietyPage {
  import opened Wrappers
  import opened Text
  import opened Http
  import opened SocietyForms
  import SocietyCard

  datatype PageState = PageState(
    showRegistrationForm: bool,
    society: Option<Society>,
    loading: bool,
    error: string)

  function Mount(): (s: PageState)
    ensures !s.showRegistrationForm && s.society.None? && s.loading && s.error == ""
  {
    PageState(false, None, true, "")
  }

  const FetchFailure := "Failed to fetch society"

  /** `fetchLatestSociety` once the response to GET /society/latest is in; a
      2xx body is `Some` when it is truthy. A 404 means "no society yet". */
  function FetchLatestSociety(s: PageState, resp: Response<Option<Society>>): (r: PageState)
    ensures !r.loading
    ensures r.showRegistrationForm <==> !(resp.Ok? && resp.payload.Some?)
    ensures resp.Ok? && resp.payload.Some? ==> r.society == resp.payload
    ensures !(resp.Ok? && resp.payload.Some?) ==> r.society == s.society
    ensures resp.Ok? || resp.IsNotFound() ==> r.error == s.error
    ensures resp.Failed? && !resp.IsNotFound() ==> r.error == "Failed to fetch society"
    ensures resp.Thrown? ==> r.error == resp.reason
  {
    match resp
    case Failed(status, _) =>
      if status == 404 then s.(showRegistrationForm := true, loading := false)
      else s.(error := FetchFailure, showRegistrationForm := true, loading := false)
    case Thrown(reason) => s.(error := reason, showRegistrationForm := true, loading := false)
    case Ok(data) =>
      if data.Some? then s.(society := data, showRegistrationForm := false, loading := false)
      else s.(showRegistrationForm := true, loading := false)
  }

  /** The EDIT and REGISTER SOCIETY buttons. */
  function OpenForm(s: PageState): (r: PageState)
    ensures r.showRegistrationForm && r.society == s.society && r.loading == s.loading && r.error == s.error
  {
    s.(showRegistrationForm := true)
  }

  /** The form's cancel button. */
  function CancelForm(s: PageState): (r: PageState)
    ensures !r.showRegistrationForm && r.society == s.society && r.loading == s.loading && r.error == s.error
  {
    s.(showRegistrationForm := false)
  }

  /** `formatAddress`: the address, then the truthy ones of city and state
      joined by ", " (when there is any), then the postal code (when truthy),
      all joined by ", ". */
  function FormatAddress(soc: Society): (r: string)
    ensures |soc.address| <= |r| && r[..|soc.address|] == soc.address
  {
    var cityState := if Truthy(soc.city) || Truthy(soc.state) then [Join(Truthies([soc.city, soc.state]), ", ")] else [];
    var parts := [soc.address] + cityState + Present(soc.postalCode);
    assert parts[0] == soc.address;
    Join(parts, ", ")
  }

  /** The page's address line agrees with the card: it is the address alone
      when the card shows no location line, and otherwise the address, ", "
      and the card's location line. */
  lemma {:induction false} FormatAddressMatchesCard(soc: Society)
    ensures var loc := SocietyCard.FormattedLocation(soc);
            FormatAddress(soc) == if loc == "" then soc.address else soc.address + ", " + loc
  {
    var cs := Truthies([soc.city, soc.state]);
    var p := Present(soc.postalCode);
    TruthiesSmall(soc.city, soc.state, soc.postalCode);
    var all := Truthies([soc.city, soc.state, soc.postalCode]);
    assert all == cs + p;
    var a := soc.address;
    if cs == [] {
      assert all == p;
      if p == [] {
        assert [a] + [] + p == [a];
      } else {
        assert [a] + [] + p == [a, p[0]];
        assert Join(p, ", ") == p[0];
      }
    } else {
      var x := Join(cs, ", ");
      assert x != "" by {
        assert cs[0] != "";
      }
      if p == [] {
        assert all == cs;
        assert [a] + [x] + p == [a, x];
      } else {
        JoinConcat(cs, p, ", ");
        assert Join(p, ", ") == p[0];
        var parts := [a] + [x] + p;
        assert parts == [a, x, p[0]];
        assert parts[1..] == [x, p[0]];
        assert parts[1..][1..] == [p[0]];
        assert Join(parts, ", ") == a + ", " + (x + ", " + p[0]);
      }
    }
  }

  /** Address "A", city "C", no state, postal code "P" is "A, C, P". */
  lemma FormatAddressExample()
    ensures FormatAddress(Society("s1", "Name", "A", Some("C"), None, Some("P"))) == "A, C, P"
  {
    var soc := Society("s1", "Name", "A", Some("C"), None, Some("P"));
    SocietyCard.LocationSkipsAbsentState(soc, "C", "P");
    assert soc == soc.(city := Some("C"), state := None, postalCode := Some("P"));
    FormatAddressMatchesCard(soc);
    assert "A" + ", " + ("C" + ", " + "P") == "A, C, P";
  }

  /** What the main area shows. */
  datatype View = Spinner | RegistrationForm | Profile(name: string, address: string) | NoSociety

  /** The rendering cascade: spinner, else form, else the society, else the
      placeholder. */
  function ViewOf(s: PageState): (v: View)
    ensures v.Spinner? <==> s.loading
    ensures v.RegistrationForm? <==> !s.loading && s.showRegistrationForm
    ensures v.Profile? <==> !s.loading && !s.showRegistrationForm && s.society.Some?
    ensures v.Profile? ==> v.name == s.society.value.name && v.address == FormatAddress(s.society.value)
  {
    if s.loading then Spinner
    else if s.showRegistrationForm then RegistrationForm
    else if s.society.Some? then Profile(s.society.value.name, FormatAddress(s.society.value))
    else NoSociety
  }

  /** A successful registration re-fetches; when the latest society comes
      back the page shows it, otherwise the registration form stays open. */
  lemma AfterRegistration(s: PageState, resp: Response<Option<Society>>)
    ensures var v := ViewOf(FetchLatestSociety(s.(loading := true), resp));
            && (resp.Ok? && resp.payload.Some? ==>
                  v == Profile(resp.payload.value.name, FormatAddress(resp.payload.value)))
            && (!(resp.Ok? && resp.payload.Some?) ==> v == RegistrationForm)
  {
  }

  /** The EDIT button on the society view opens the registration form, not an
      edit form of the shown society. */
  lemma EditOpensRegistrationForm(s: PageState)
    requires ViewOf(s).Profile?
    ensures ViewOf(OpenForm(s)) == RegistrationForm
    ensures ViewOf(CancelForm(OpenForm(s))) == ViewOf(s)
  {
  }
}
