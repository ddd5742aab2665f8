/** The approved-users page: approved residents with search and a detail
    pane. Users are read-only here. */
module Users {
  import opened Wrappers
  import opened Text
  import opened Seqs
  import opened Search
  import opened Http
  import opened ListPage

  datatype Residence = Residence(
    id: string,
    addressLine1: Option<string>,
    block: Option<string>,
    residence: Option<string>,
    residenceType: Option<string>)

  datatype User = User(
    residentId: string,
    firstname: string,
    lastname: string,
    email: string,
    phone: Option<string>,
    cnic: Option<string>,
    residence: Residence)

  /** The fields the search box looks at: phone, block, residence and
      residence type are not among them. */
  function SearchFields(u: User): seq<string> {
    [u.firstname, u.lastname, u.email] + Present(u.cnic) + Present(u.residence.addressLine1)
  }

  /** The page's filter callback written out, for a lower-cased query `q`. */
  predicate Hit(u: User, q: string) {
    || Contains(Lower(u.firstname), q)
    || Contains(Lower(u.lastname), q)
    || Contains(Lower(u.email), q)
    || (Truthy(u.cnic) && Contains(Lower(u.cnic.value), q))
    || (Truthy(u.residence.addressLine1) && Contains(Lower(u.residence.addressLine1.value), q))
  }

  lemma MatchesIffHit(u: User, query: string)
    ensures Matches(query, SearchFields(u)) <==> Hit(u, Lower(query))
  {
    var c, a := Present(u.cnic), Present(u.residence.addressLine1);
    assert SearchFields(u) == [u.firstname] + ([u.lastname] + ([u.email] + (c + a)));
    MatchesCons(query, u.firstname, [u.lastname] + ([u.email] + (c + a)));
    MatchesCons(query, u.lastname, [u.email] + (c + a));
    MatchesCons(query, u.email, c + a);
    MatchesPresent(query, u.cnic);
    MatchesPresent(query, u.residence.addressLine1);
    if c == [] {
      assert c + a == a;
    } else {
      assert c + a == [c[0]] + a;
      MatchesCons(query, c[0], a);
    }
  }

  /** The filtered view: the whole list for a blank query, otherwise the
      order-preserving subsequence of users whose first name, last name,
      e-mail, CNIC or address line contains the lower-cased query. */
  lemma FilteredUsers(users: seq<User>, query: string)
    ensures var r := SearchBy(users, query, SearchFields);
            && IsSubsequence(r, users)
            && |r| <= |users|
            && (IsBlank(query) ==> r == users)
            && forall i | 0 <= i < |users| ::
                 users[i] in r <==> IsBlank(query) || Hit(users[i], Lower(query))
  {
    forall i | 0 <= i < |users| {
      MatchesIffHit(users[i], query);
    }
  }

  /** Phone, block, residence and residence type never influence the search:
      changing them changes no match. */
  lemma UnsearchedFields(u: User, query: string, phone: Option<string>, block: Option<string>,
                         residence: Option<string>, residenceType: Option<string>)
    ensures var v := u.(phone := phone, residence := u.residence.(block := block,
                        residence := residence, residenceType := residenceType));
            Matches(query, SearchFields(v)) == Matches(query, SearchFields(u))
  {
  }

  /** A user whose phone number is the only field containing the query is not
      shown. */
  lemma PhoneOnlyMatchExcluded()
    ensures var u := User("r1", "A", "B", "a@b.com", Some("0300"), None,
                          Residence("h1", None, None, None, None));
            SearchBy([u], "0300", SearchFields) == []
  {
    var u := User("r1", "A", "B", "a@b.com", Some("0300"), None,
                  Residence("h1", None, None, None, None));
    assert Lower("0300") == "0300";
    NotContainsMissingChar(Lower(u.firstname), "0300", 0);
    NotContainsMissingChar(Lower(u.lastname), "0300", 0);
    NotContainsMissingChar(Lower(u.email), "0300", 0);
    MatchesIffHit(u, "0300");
    NotBlank("0300", 0);
    SearchSingleton(u, "0300", SearchFields);
  }

  // ---------------------------------------------------------------------------
  // Page state

  const FetchFailure := "Failed to fetch approved users"

  /** `fetchApprovedUsers` once the response to GET /admin/approval/approved
      is in. */
  function FetchApprovedUsers(s: ListState<User>, resp: Response<seq<User>>): (r: ListState<User>)
    ensures !r.loading
    ensures resp.Ok? ==> r.items == resp.payload && r.filtered == resp.payload && r.error == s.error
    ensures resp.Ok? ==> r.selected == if |resp.payload| > 0 then None else s.selected
    ensures resp.Failed? ==> r.error == "Failed to fetch approved users"
    ensures !resp.Ok? ==> r.items == s.items && r.selected == s.selected
  {
    Load(s, resp, FetchFailure)
  }

  /** The search effect. */
  function ApplySearch(s: ListState<User>): (r: ListState<User>)
    ensures r.items == s.items && InSync(r, SearchFields)
  {
    Refresh(s, SearchFields)
  }

  /** The detail column. */
  function DetailColumn(s: ListState<User>): (p: Pane<User>)
    ensures p.Placeholder? ==> (p.message == "No approved users found" <==> |s.filtered| == 0)
    ensures p.Placeholder? ==> (p.message == "Select a user to view details" <==> |s.filtered| > 0)
  {
    DetailPane(s, "No approved users found", "Select a user to view details")
  }
}
