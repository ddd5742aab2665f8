/** The employees page: the employee list with search, the detail pane, and
    the handler the add-employee dialog submits to. */
module Employees {
  import opened Wrappers
  import opened Text
  import opened Seqs
  import opened Search
  import opened Http
  import opened ListPage
  import AddEmployeeModal

  datatype Employee = Employee(
    employeeId: string,
    firstname: string,
    lastname: string,
    email: string,
    phone: Option<string>,
    cnic: Option<string>,
    internalRole: string,
    department: Option<string>,
    shift: Option<string>,
    joiningDate: Option<string>)

  /** The fields the search box looks at. */
  function SearchFields(e: Employee): seq<string> {
    [e.firstname, e.lastname, e.email, e.internalRole] + Present(e.department)
  }

  /** The page's filter callback written out, for an already lower-cased
      query `q`. */
  predicate Hit(e: Employee, q: string) {
    || Contains(Lower(e.firstname), q)
    || Contains(Lower(e.lastname), q)
    || Contains(Lower(e.email), q)
    || Contains(Lower(e.internalRole), q)
    || (Truthy(e.department) && Contains(Lower(e.department.value), q))
  }

  lemma MatchesIffHit(e: Employee, query: string)
    ensures Matches(query, SearchFields(e)) <==> Hit(e, Lower(query))
  {
    var opt := Present(e.department);
    assert SearchFields(e) == [e.firstname] + ([e.lastname] + ([e.email] + ([e.internalRole] + opt)));
    MatchesCons(query, e.firstname, [e.lastname] + ([e.email] + ([e.internalRole] + opt)));
    MatchesCons(query, e.lastname, [e.email] + ([e.internalRole] + opt));
    MatchesCons(query, e.email, [e.internalRole] + opt);
    MatchesCons(query, e.internalRole, opt);
    MatchesPresent(query, e.department);
  }

  /** The filtered view: the whole list for a blank query, otherwise the
      order-preserving subsequence of employees whose first name, last name,
      e-mail, role or (when present) department contains the lower-cased,
      untrimmed query. */
  lemma FilteredEmployees(employees: seq<Employee>, query: string)
    ensures var r := SearchBy(employees, query, SearchFields);
            && IsSubsequence(r, employees)
            && |r| <= |employees|
            && (IsBlank(query) ==> r == employees)
            && forall i | 0 <= i < |employees| ::
                 employees[i] in r <==> IsBlank(query) || Hit(employees[i], Lower(query))
  {
    forall i | 0 <= i < |employees| {
      MatchesIffHit(employees[i], query);
    }
  }

  /** The single employee of the end-to-end example. */
  function Guard(): Employee {
    Employee("e1", "A", "B", "a@b.com", None, None, "Guard", None, None, None)
  }

  lemma GuardMatchesRole()
    ensures Matches("guard", SearchFields(Guard()))
  {
    assert Lower("Guard") == "guard" && Lower("guard") == "guard";
    assert OccursAt(Lower(Guard().internalRole), Lower("guard"), 0);
    MatchesIffHit(Guard(), "guard");
  }

  lemma GuardMissesXyz()
    ensures !Matches("xyz", SearchFields(Guard()))
  {
    var e := Guard();
    assert Lower("xyz") == "xyz";
    NotContainsMissingChar(Lower(e.firstname), "xyz", 0);
    NotContainsMissingChar(Lower(e.lastname), "xyz", 0);
    NotContainsMissingChar(Lower(e.email), "xyz", 0);
    NotContainsMissingChar(Lower(e.internalRole), "xyz", 0);
    MatchesIffHit(e, "xyz");
  }

  lemma GuardMissesSpacedGuard()
    ensures !Matches(" guard", SearchFields(Guard()))
  {
    var e := Guard();
    assert Lower(" guard")[0] == ' ';
    NotContainsMissingChar(Lower(e.firstname), Lower(" guard"), 0);
    NotContainsMissingChar(Lower(e.lastname), Lower(" guard"), 0);
    NotContainsMissingChar(Lower(e.email), Lower(" guard"), 0);
    NotContainsMissingChar(Lower(e.internalRole), Lower(" guard"), 0);
    MatchesIffHit(e, " guard");
  }

  /** Searching "guard" keeps the guard: the role matches case-insensitively;
      searching "xyz" finds nothing; and so does " guard", which is not blank
      and whose leading space takes part in the match because the query is
      never trimmed before matching. */
  lemma GuardExample()
    ensures SearchBy([Guard()], "guard", SearchFields) == [Guard()]
    ensures SearchBy([Guard()], "xyz", SearchFields) == []
    ensures SearchBy([Guard()], " guard", SearchFields) == []
  {
    GuardMatchesRole();
    GuardMissesXyz();
    GuardMissesSpacedGuard();
    NotBlank("guard", 0);
    NotBlank("xyz", 0);
    NotBlank(" guard", 1);
    SearchSingleton(Guard(), "guard", SearchFields);
    SearchSingleton(Guard(), "xyz", SearchFields);
    SearchSingleton(Guard(), " guard", SearchFields);
  }

  // ---------------------------------------------------------------------------
  // Page state

  datatype PageState = PageState(list: ListState<Employee>, showAddModal: bool)

  const FetchFailure := "Failed to fetch employees"
  const CreateFailure := "Failed to create employee"

  /** After mount: loading, nothing loaded, no query and the dialog closed. */
  function Mount(): (s: PageState)
    ensures s.list.loading && s.list.items == [] && s.list.filtered == [] && s.list.selected.None?
    ensures s.list.error == "" && s.list.query == "" && !s.showAddModal
  {
    PageState(Mounted(), false)
  }

  /** `fetchEmployees` once the response to GET /employee/all is in. */
  function FetchEmployees(s: PageState, resp: Response<seq<Employee>>): (r: PageState)
    ensures !r.list.loading && r.showAddModal == s.showAddModal
    ensures resp.Ok? ==> r.list.items == resp.payload && r.list.filtered == resp.payload
    ensures resp.Ok? ==> r.list.error == s.list.error
    ensures resp.Ok? ==> r.list.selected == if |resp.payload| > 0 then None else s.list.selected
    ensures resp.Failed? ==> r.list.error == "Failed to fetch employees"
    ensures !resp.Ok? ==> r.list.items == s.list.items && r.list.selected == s.list.selected
  {
    s.(list := Load(s.list, resp, FetchFailure))
  }

  /** The search effect. */
  function ApplySearch(s: PageState): (r: PageState)
    ensures r.list.items == s.list.items && InSync(r.list, SearchFields)
  {
    s.(list := Refresh(s.list, SearchFields))
  }

  /** The page after the add handler, the request it sent, the value it
      resolves to, and whether it re-fetched the list. */
  datatype AddResult = AddResult(
    state: PageState,
    request: Request<AddEmployeeModal.EmployeeForm>,
    success: bool,
    refetched: bool)

  /** `handleAddEmployee`: POST /employee/create with the dialog's data,
      answered by `create`; on success the list is re-fetched (answered by
      `refetch`) and the dialog closed. */
  function HandleAddEmployee(s: PageState, data: AddEmployeeModal.EmployeeForm,
                             create: Response<()>, refetch: Response<seq<Employee>>): (r: AddResult)
    ensures r.request == Request(Post, "/employee/create", Some(data))
    ensures r.success <==> create.Ok?
    ensures r.refetched <==> create.Ok?
    ensures create.Ok? ==> !r.state.showAddModal && r.state.list == FetchEmployees(s, refetch).list
    ensures !create.Ok? ==> r.state.showAddModal == s.showAddModal
    ensures !create.Ok? ==> r.state.list == s.list.(error := r.state.list.error)
    ensures create.Failed? && create.body.Json? && Truthy(create.body.message) ==>
              r.state.list.error == create.body.message.value
    ensures create.Failed? && create.body.Json? && !Truthy(create.body.message) ==>
              r.state.list.error == "Failed to create employee"
    ensures create.Failed? && create.body.Malformed? ==> r.state.list.error == create.body.reason
    ensures create.Thrown? ==> r.state.list.error == create.reason
  {
    var request := Request(Post, "/employee/create", Some(data));
    match MutationError(create, CreateFailure)
    case None => AddResult(FetchEmployees(s, refetch).(showAddModal := false), request, true, true)
    case Some(message) => AddResult(s.(list := s.list.(error := message)), request, false, false)
  }

  /** A successful add whose re-fetch succeeds, followed by the search
      effect, shows the re-fetched list searched by the unchanged query; a
      failed add changes neither the list nor the view, so a synchronised view
      stays synchronised. */
  lemma AddThenSearch(s: PageState, data: AddEmployeeModal.EmployeeForm,
                      create: Response<()>, refetch: Response<seq<Employee>>)
    ensures var r := HandleAddEmployee(s, data, create, refetch).state;
            create.Ok? && refetch.Ok? ==>
              && ApplySearch(r).list.items == refetch.payload
              && ApplySearch(r).list.filtered == SearchBy(refetch.payload, s.list.query, SearchFields)
    ensures var r := HandleAddEmployee(s, data, create, refetch).state;
            !create.Ok? ==>
              && r.list.items == s.list.items && r.list.filtered == s.list.filtered
              && (InSync(s.list, SearchFields) ==> InSync(r.list, SearchFields))
  {
  }

  /** The detail column. */
  function DetailColumn(s: PageState): (p: Pane<Employee>)
    ensures p.Placeholder? ==> (p.message == "No employees found" <==> |s.list.filtered| == 0)
    ensures p.Placeholder? ==> (p.message == "Select an employee to view details" <==> |s.list.filtered| > 0)
  {
    DetailPane(s.list, "No employees found", "Select an employee to view details")
  }
}
