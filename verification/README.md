# VaultX admin client — a Dafny model of its page logic

VaultX is a gated-community management system; this project models the
client-side logic of its web admin dashboard. It covers:

- the search filters of the employees, approved-users, vehicles and guests
  pages;
- the load, select, approve, reject and add handlers of those pages and of
  the pending-approvals page, as pure transitions of page state;
- the validation and submit handler of the add-employee dialog;
- the society page, the society card, and the society registration and edit
  forms;
- the route guard that runs before every page request.

Every HTTP call is abstracted into a `Response` value with three cases: a 2xx
with its decoded payload, a non-2xx with its error body, or a thrown error
with its message. A handler becomes a function from (state, responses) to
the new state. Where one handler runs another (approve re-fetches, add
re-fetches), it takes one response per request.

Layout:

- `wrappers.dfy`, `text.dfy`, `seqs.dfy`: `Option`, and the JavaScript string
  operations the pages use: `trim` with the ECMAScript white-space set,
  ASCII `toLowerCase`, `includes`, `filter(Boolean)`, `join`. Also an
  order-preserving `Filter` with its algebra.
- `search.dfy`: the case-insensitive substring search every list page runs.
  A blank query keeps everything.
- `http.dfy`: responses, requests, and the `message || fallback` rule for
  error bodies.
- `list_page.dfy`: the state that the employees, users and vehicles pages
  share (collection, filtered view, selection, loading, banner, query).
- One file per page or component: `employees.dfy`, `users.dfy`,
  `vehicles.dfy`, `guests.dfy`, `approvals.dfy`, `add_employee_modal.dfy`,
  `society_page.dfy`, `society_card.dfy`, `society_forms.dfy` (what the two
  society forms share), `edit_society_form.dfy`,
  `society_registration_form.dfy`, `middleware.dfy`.

Some of the code's behaviour is easy to misread; the model follows the code:

- `handleReject` makes no request: it only removes the resident locally.
- The EDIT button on the society page opens the registration form, not the
  edit form (`SocietyPage.EditOpensRegistrationForm`).
- The route matcher's `favicon.ico` has an unescaped `.`, so any character
  may stand between `favicon` and `ico`.
- Both society forms mark name and address `required`, so the browser never
  calls the submit handler while either is empty (`SocietyForms.CanSubmit`).
- The add-employee dialog's e-mail input has `type="email"`: while the
  personal tab is showing, the browser stops a submit whose e-mail is
  non-empty and not a valid address before the handler runs
  (`AddEmployeeModal.BrowserBlocks`).
- The password length check counts UTF-16 code units, so an emoji counts
  twice (`Text.Utf16Length`).

## Model

| member | source | states |
|---|---|---|
| Text.BlankIffAllSpace | src/app/dashboard/employees/page.tsx:42 | a query is blank (`trim() === ""`) exactly when every character is ECMAScript white space |
| Search.SearchBy | src/app/dashboard/employees/page.tsx:41-56 | the filtered view is an order-preserving subsequence of the collection; it is the whole collection for a blank query; otherwise it contains an item iff one of its search fields contains the lower-cased query, with every occurrence kept |
| Search.SearchIdempotent | src/app/dashboard/vehicles/page.tsx:37-52 | searching an already-filtered view with the same query changes nothing |
| Search.MatchesPresent | src/app/dashboard/employees/page.tsx:52 | an optional field takes part in the match only when it is truthy |
| Http.MutationError | src/app/dashboard/employees/page.tsx:97-107 | a mutation reports no error iff it got a 2xx; otherwise the error is the body's truthy `message`, else the fallback, else the thrown message |
| ListPage.Load | src/app/dashboard/employees/page.tsx:58-83 | a 2xx replaces both the collection and the filtered view and clears the selection only for a non-empty payload; a failure sets the banner and keeps all data; loading ends in every case |
| ListPage.Refresh | src/app/dashboard/employees/page.tsx:41-56 | the filter effect changes only the filtered view; the result is a subsequence of the collection, and the whole collection for a blank query |
| ListPage.LoadThenRefresh | src/app/dashboard/employees/page.tsx:41-83 | after a successful load and the effect it triggers, the view is the payload searched by the current query |
| ListPage.FailedLoadKeepsSync | src/app/dashboard/users/page.tsx:60-85 | a failed load leaves a synchronised view synchronised |
| ListPage.Mounted | src/app/dashboard/employees/page.tsx:29-34 | the shared list state starts loading, empty, with no selection, banner or query |
| ListPage.SetQuery | src/app/dashboard/employees/page.tsx:138 | typing in the search box changes the query and nothing else until the effect runs |
| ListPage.SetQueryThenRefresh | src/app/dashboard/employees/page.tsx:41-56 | typing a query and running the effect it triggers shows the collection searched by the new query; the selection is kept even when the view no longer lists it, so the details stay on screen |
| ListPage.Select | src/app/dashboard/employees/page.tsx:156 | clicking an item selects it and changes nothing else |
| ListPage.SelectShowsDetails | src/app/dashboard/employees/page.tsx:156-164 | once loading is over a clicked item is shown in the detail pane; selecting and the filter effect commute |
| ListPage.RefreshIdempotent | src/app/dashboard/users/page.tsx:43-58 | running the filter effect twice equals running it once |
| ListPage.DetailPane | src/app/dashboard/vehicles/page.tsx:122-129 | skeleton iff loading; details iff not loading and something is selected; otherwise the placeholder depends on whether the filtered view is empty |
| Employees.MatchesIffHit | src/app/dashboard/employees/page.tsx:46-53 | the generic search over the employee's fields is the page's five-way disjunction (first name, last name, e-mail, role, truthy department) |
| Employees.FilteredEmployees | src/app/dashboard/employees/page.tsx:41-56 | an employee is shown iff the query is blank or one of those fields contains the lower-cased query; order is kept |
| Employees.GuardExample | src/app/dashboard/employees/page.tsx:41-56 | "guard" finds an employee whose role is "Guard"; "xyz" and " guard" (untrimmed) find nothing |
| Employees.Mount | src/app/dashboard/employees/page.tsx:29-35 | the page starts loading, with nothing loaded or selected, no banner, an empty search box and the dialog closed |
| Employees.FetchEmployees | src/app/dashboard/employees/page.tsx:58-83 | the load outcome with the banner "Failed to fetch employees"; the add dialog's visibility is untouched |
| Employees.ApplySearch | src/app/dashboard/employees/page.tsx:41-56 | the search effect keeps the collection and leaves the view in sync with it |
| Employees.HandleAddEmployee | src/app/dashboard/employees/page.tsx:85-110 | sends a POST to /employee/create carrying the dialog's data; resolves true iff that call got a 2xx, in which case it re-fetches once and closes the dialog; otherwise the banner shows `message`, "Failed to create employee" or the thrown message, and nothing else changes |
| Employees.AddThenSearch | src/app/dashboard/employees/page.tsx:41-110 | a successful add with a successful re-fetch, followed by the search effect, shows the re-fetched list searched by the unchanged query; a failed add leaves list and view alone, so a synchronised view stays synchronised |
| Employees.DetailColumn | src/app/dashboard/employees/page.tsx:161-168 | "No employees found" iff the view is empty; "Select an employee to view details" iff it is not |
| Users.MatchesIffHit | src/app/dashboard/users/page.tsx:48-55 | the generic search is the page's disjunction over first name, last name, e-mail, truthy CNIC and truthy address line |
| Users.FilteredUsers | src/app/dashboard/users/page.tsx:43-58 | a user is shown iff the query is blank or one of those fields contains the lower-cased query |
| Users.UnsearchedFields | src/app/dashboard/users/page.tsx:48-55 | phone, block, residence and residence type never change whether a user matches |
| Users.PhoneOnlyMatchExcluded | src/app/dashboard/users/page.tsx:48-55 | a user whose phone is the only field containing the query is filtered out |
| Users.FetchApprovedUsers | src/app/dashboard/users/page.tsx:60-85 | the load outcome with the banner "Failed to fetch approved users" |
| Users.ApplySearch | src/app/dashboard/users/page.tsx:43-58 | the search effect keeps the collection and syncs the view |
| Users.DetailColumn | src/app/dashboard/users/page.tsx:124-131 | "No approved users found" iff the view is empty, else "Select a user to view details" |
| Vehicles.MatchesIffHit | src/app/dashboard/vehicles/page.tsx:42-49 | the generic search is the page's disjunction over make, model, colour, licence plate and truthy owner name |
| Vehicles.FilteredVehicles | src/app/dashboard/vehicles/page.tsx:37-52 | a vehicle is shown iff the query is blank or one of those fields contains the lower-cased query |
| Vehicles.FilterTwice | src/app/dashboard/vehicles/page.tsx:37-52 | the vehicle search is idempotent |
| Vehicles.FetchVehicles | src/app/dashboard/vehicles/page.tsx:54-79 | the load outcome with the banner "Failed to fetch vehicles" |
| Vehicles.ApplySearch | src/app/dashboard/vehicles/page.tsx:37-52 | the search effect keeps the collection and syncs the view |
| Vehicles.DetailColumn | src/app/dashboard/vehicles/page.tsx:122-129 | "No vehicles found" iff the view is empty, else "Select a vehicle to view details" |
| Guests.MatchesIffHit | src/app/dashboard/guests/page.tsx:70-76 | the generic search is the page's disjunction over name, truthy phone and truthy licence plate |
| Guests.FilterGuests | src/app/dashboard/guests/page.tsx:59-80 | with the switch on only completed visits remain; with the switch off and a blank query the list is unchanged; the view is never longer than the list |
| Guests.FilterGuestsIsConjunction | src/app/dashboard/guests/page.tsx:59-80 | switch-then-search is one order-preserving filter by the conjunction of the two conditions |
| Guests.FilterGuestsMembers | src/app/dashboard/guests/page.tsx:59-80 | a guest is shown iff (switch off or visit completed) and (query blank or a field contains the lower-cased query) |
| Guests.SwitchAndSearchCommute | src/app/dashboard/guests/page.tsx:62-77 | applying the switch after the search gives the same view |
| Guests.Enhance | src/app/dashboard/guests/page.tsx:99-108 | the loader keeps a truthy phone number and otherwise writes "N/A"; the flag and residence come from the random draws |
| Guests.EnhanceAll | src/app/dashboard/guests/page.tsx:99-108 | the loader maps every guest, keeping length and order |
| Guests.EnhancedPhones | src/app/dashboard/guests/page.tsx:101 | after loading every phone is truthy, and "n/a" matches every guest that came without one |
| Guests.Mount | src/app/dashboard/guests/page.tsx:43-49 | the page starts loading, empty, with "verified only" on |
| Guests.FetchGuests | src/app/dashboard/guests/page.tsx:82-117 | a 2xx stores the enhanced list, and the handler's own filter call uses the pre-load list; a failure sets "Failed to fetch guests" or the thrown message; the selection is never touched |
| Guests.ApplyFilter | src/app/dashboard/guests/page.tsx:55-57 | the filter effect recomputes the view from list, query and switch |
| Guests.SetVerifiedOnly | src/app/dashboard/guests/page.tsx:152 | the checkbox changes only the switch |
| Guests.FirstLoad | src/app/dashboard/guests/page.tsx:51-57 | after the first load the view is still empty until the effect runs; then it holds exactly the completed visits |
| Guests.DetailColumn | src/app/dashboard/guests/page.tsx:173-184 | an empty view reads "No verified guests found" with the switch on and "No guests found" with it off; a non-empty one reads "Select a guest to view details" |
| Approvals.Mount | src/app/dashboard/approvals/page.tsx:30-33 | the page starts loading with nothing pending |
| Approvals.FetchPendingApprovals | src/app/dashboard/approvals/page.tsx:39-71 | a 404 empties the list and selection without an error; a 2xx selects the first item or nothing; other failures set "Failed to fetch pending approvals" or the thrown message and keep the data; loading ends |
| Approvals.FetchKeepsSelectionListed | src/app/dashboard/approvals/page.tsx:39-71 | every load keeps the selection among the listed requests |
| Approvals.HandleApprove | src/app/dashboard/approvals/page.tsx:72-91 | sends a PATCH of /admin/approve/{residentId} with no body; exactly one re-fetch after a 2xx and none otherwise; a failure sets "Failed to approve resident" or the thrown message and changes nothing else |
| Approvals.ApproveKeepsBanner | src/app/dashboard/approvals/page.tsx:86-87 | a successful approve never clears the banner, and a resident the backend no longer lists is not shown |
| Approvals.HandleReject | src/app/dashboard/approvals/page.tsx:93-111 | drops exactly the resident's requests, keeping the rest in order; a selected rejected request is replaced by the first remaining one or none; any other selection, the banner and loading stay |
| Approvals.RejectKeepsSelectionListed | src/app/dashboard/approvals/page.tsx:100-107 | rejecting keeps the selection among the listed requests |
| Approvals.RejectIdempotent | src/app/dashboard/approvals/page.tsx:100-107 | rejecting the same resident twice equals rejecting once |
| Approvals.DetailColumn | src/app/dashboard/approvals/page.tsx:143-156 | "No pending approvals at the moment" iff nothing is pending, else "Select a resident approval request to view details" |
| AddEmployeeModal.Set | src/components/add-employee-modal.tsx:46-48 | an edit changes the named field and no other |
| AddEmployeeModal.EmailPatternMeaning | src/components/add-employee-modal.tsx:67-68 | the e-mail pattern holds iff there is no white space, exactly one '@', a non-empty local part, and a '.' in the domain that is neither its first nor its last character |
| Text.Utf16Length | src/components/add-employee-modal.tsx:63 | `length` counts UTF-16 code units: at least one and at most two per character, and zero only for "" |
| Text.Utf16LengthBmp | src/components/add-employee-modal.tsx:63 | the UTF-16 length equals the number of characters iff none lies outside the Basic Multilingual Plane |
| AddEmployeeModal.Validate | src/components/add-employee-modal.tsx:55-72 | each field has an error iff its rule fails, with the message of the last rule that fired (length over required for the password, pattern over required for the e-mail); the password's length is its UTF-16 length; no other field ever has one |
| AddEmployeeModal.PasswordLengthInCodeUnits | src/components/add-employee-modal.tsx:63 | three emoji, or four letters and an emoji, are long enough; five letters are not |
| AddEmployeeModal.ValidIff | src/components/add-employee-modal.tsx:55-72 | the form is valid iff first name, last name and role are filled in, the password has at least six UTF-16 code units and the e-mail matches |
| AddEmployeeModal.BrowserAcceptedAgainstPattern | src/components/add-employee-modal.tsx:156-163 | for an address the browser's `type="email"` check accepts, the handler's pattern holds iff the domain after its '@' contains a dot |
| AddEmployeeModal.EmailGateExample | src/components/add-employee-modal.tsx:156-163 | "abc" on the personal tab is stopped by the browser and nothing changes; on the employment tab the handler runs and reports "Invalid email format"; "a@b" passes the browser and fails the pattern |
| AddEmployeeModal.Opened | src/components/add-employee-modal.tsx:27-44 | the dialog opens empty, without errors, on the personal tab |
| AddEmployeeModal.HandleChange | src/components/add-employee-modal.tsx:46-53 | an edit stores the value and blanks that field's error only if it had a non-empty one |
| AddEmployeeModal.ChangeClearsOwnError | src/components/add-employee-modal.tsx:46-53 | typing never adds or removes an error entry; the edited input then shows no error; the personal tab shows an error iff another personal input had one; the tab stays |
| AddEmployeeModal.ChangeBackRestoresForm | src/components/add-employee-modal.tsx:46-53 | typing a value and then the old one restores the form, with every other input's error untouched |
| AddEmployeeModal.HandleSubmit | src/components/add-employee-modal.tsx:74-97 | on the personal tab a non-empty e-mail the browser rejects stops the submit with nothing changed; otherwise `onSubmit` is called iff the form is valid; the fresh error map is stored; an invalid form picks its tab from the previous map; a valid one closes iff the promise resolves true and shows the rejection message otherwise |
| AddEmployeeModal.StaleTabChoice | src/components/add-employee-modal.tsx:78-83 | a first submit whose only problem is the empty first name switches to the employment tab |
| AddEmployeeModal.HandleSubmitFreshTab | src/components/add-employee-modal.tsx:78-83 | with the tab chosen from the map just computed, the personal tab is chosen iff a personal field failed |
| AddEmployeeModal.FreshTabShowsAnError | src/components/add-employee-modal.tsx:80-82 | a submit the handler rejects lands on a tab holding an invalid field |
| SocietyForms.Set | src/components/society-registration-form.tsx:30-33 | an edit changes the named field and no other |
| SocietyForms.SetOrder | src/components/society/edit-society-form.tsx:40-43 | edits to different fields commute; a second edit of one field overwrites the first |
| SocietyForms.HandleChange | src/components/society/edit-society-form.tsx:40-43 | `handleChange` changes only the named field, not the error or the submitting flag |
| SocietyForms.Submit | src/components/society/edit-society-form.tsx:45-72 | a submit the browser lets through sends the form data; the callback runs exactly once iff 2xx; the error is "" on success, else `message`, the fallback or the thrown message; submitting ends |
| SocietyForms.SubmitErrorIffFailure | src/components/society/edit-society-form.tsx:61-68 | when failures carry non-empty messages, the error is empty iff the callback ran iff the request succeeded |
| SocietyForms.SubmitUnlocks | src/components/society/edit-society-form.tsx:69-71 | after any outcome the same form can be submitted again |
| EditSocietyForm.InitialFields | src/components/society/edit-society-form.tsx:30-36 | the form copies name and address, and the truthy optional parts, with "" otherwise |
| EditSocietyForm.Open | src/components/society/edit-society-form.tsx:30-38 | the form opens with the society's name and address, each truthy optional part copied and "" for the others, no error and not submitting |
| EditSocietyForm.UntouchedRoundTrip | src/components/society/edit-society-form.tsx:30-58 | submitting an untouched form PATCHes the society's own path with its own name, address and truthy optional parts |
| EditSocietyForm.HandleSubmit | src/components/society/edit-society-form.tsx:45-72 | PATCH /society/{societyId} of the edited society with the five fields, fallback "Failed to update society" |
| SocietyRegistrationForm.Open | src/components/society-registration-form.tsx:20-28 | the form opens with all five fields empty |
| SocietyRegistrationForm.HandleSubmit | src/components/society-registration-form.tsx:35-62 | POST /society/add with the five fields, fallback "Failed to register society" |
| SocietyRegistrationForm.RequiredInputs | src/components/society-registration-form.tsx:82-98 | the empty form sends nothing; once name and address are typed in it sends |
| SocietyCard.FormattedLocation | src/components/society-card.tsx:20 | the location is "" iff city, state and postal code are all absent or empty |
| SocietyCard.LocationAllParts | src/components/society-card.tsx:20 | the location lists city, state and postal code in that order, separated by ", " |
| SocietyCard.LocationSkipsAbsentState | src/components/society-card.tsx:20 | an absent state leaves no empty slot |
| SocietyCard.LocationSkipsEmptyCity | src/components/society-card.tsx:20 | an empty city counts as absent |
| SocietyCard.Render | src/components/society-card.tsx:17-43 | name and address are shown verbatim; the location line iff some location part is truthy; the badge and ring iff `isLatest` is true, which it is not by default |
| SocietyPage.Mount | src/app/dashboard/society/page.tsx:21-24 | the page starts loading, with no society and the form hidden |
| SocietyPage.FetchLatestSociety | src/app/dashboard/society/page.tsx:30-63 | the form is shown unless a 2xx brings a society, which is then stored; 404 and 2xx keep the error; other failures set "Failed to fetch society" or the thrown message; loading ends |
| SocietyPage.OpenForm | src/app/dashboard/society/page.tsx:111-126 | EDIT and REGISTER SOCIETY only show the form |
| SocietyPage.CancelForm | src/app/dashboard/society/page.tsx:102 | cancel only hides the form |
| SocietyPage.FormatAddress | src/app/dashboard/society/page.tsx:69-82 | the formatted address always begins with the address, even an empty one |
| SocietyPage.FormatAddressMatchesCard | src/app/dashboard/society/page.tsx:69-82 | the page's address line is the address alone when the card would show no location, else the address, ", " and the card's location |
| SocietyPage.FormatAddressExample | src/app/dashboard/society/page.tsx:77-81 | address "A", city "C", no state, postal code "P" give "A, C, P" |
| SocietyPage.ViewOf | src/app/dashboard/society/page.tsx:95-130 | spinner iff loading; else the form iff shown; else the society's name and formatted address iff one is stored; else the placeholder |
| SocietyPage.AfterRegistration | src/app/dashboard/society/page.tsx:65-67 | after a registration the re-fetch shows the society it gets back, and otherwise keeps the form open |
| SocietyPage.EditOpensRegistrationForm | src/app/dashboard/society/page.tsx:99-115 | EDIT on the society view opens the registration form; cancelling returns to the same view |
| Middleware.Decide | middleware.ts:4-19 | "/" with a truthy token goes to /dashboard; any other path without one goes to "/"; everything else passes |
| Middleware.NoSelfRedirect | middleware.ts:9-18 | a request is never redirected to its own path, only to "/" or "/dashboard" |
| Middleware.RedirectSettles | middleware.ts:6-16 | following a redirect with the same cookie passes the guard |
| Middleware.EmptyCookieIsAbsent | middleware.ts:5-14 | an empty cookie value is treated as no cookie |
| Middleware.LoginPageIsExact | middleware.ts:6 | "/dashboard" and "/x" are never the login page |
| Middleware.Route | middleware.ts:21-32 | paths the matcher excludes pass untouched; all others get the guard's decision; still never a self-redirect |
| Middleware.GuardedIff | middleware.ts:30 | a path is guarded iff it starts with "/" and with none of "/api", "/_next/static", "/_next/image", and "/favicon" followed by any character and "ico" |
| Middleware.ApiNeverGuarded | middleware.ts:30 | no path under "/api" reaches the guard, so none is ever redirected |
| Middleware.DashboardGuarded | middleware.ts:30 | every path under "/dashboard" reaches the guard |
| Middleware.MatcherExamples | middleware.ts:30 | pages, including one whose path merely contains "api", are guarded; /api/…, /_next/static/…, /_next/image and /favicon.ico are not |
| Seqs.FilterFilter | src/app/dashboard/guests/page.tsx:63-76 | two filters in a row are one filter by the conjunction |

## Left out

- Network, JSON decoding, `getToken` and the API base URL: each response is a parameter. `src/lib/auth.ts` is not part of this model.
- React scheduling: each handler is one atomic transition, and effects are separate functions applied after it. Interleavings of concurrent handlers are not modelled, for example a reject whose `pendingApprovals` closure is older than the list `prev` it filters.
- The 500 ms simulated delay in `handleReject`, and its `catch` branch, which cannot run.
- The "An error occurred …" messages used when a non-`Error` value is thrown. Every thrown value is an `Error` with a message here.
- Text.Lower: `toLowerCase` is modelled for ASCII letters only; other characters are left as they are.
- Guests.EnhanceAll: the random verification flag, residence id, house number and block are parameters (one draw per guest index), not random values.
- The add-employee dialog's manual tab click, its cancel button and `onOpenChange`, and disabling its submit button while submitting.
- AddEmployeeModal.HandleSubmit: does not model a second submit while one is in flight.
- AddEmployeeModal.HandleChange: the browser's value sanitisation of the e-mail input (it drops line breaks and leading and trailing white space) is not modelled; the typed value is stored as it is.
- AddEmployeeModal.BrowserBlocks: a partly typed joining date, which the browser also treats as bad input, is not modelled; the date input's value is a plain string here.
- Rendering of lists, detail panels, the dashboard layout, `formatDate` and `toLocaleString` (locale and time-zone dependent).
- Page-level error banners are modelled as the `error` string; whether the alert renders is just `error != ""`.

## Findings

| source | as written | input that shows it | evidently intended | confidence | as-written member | corrected member |
|---|---|---|---|---|---|---|
| src/components/add-employee-modal.tsx:80-82 | the tab to show after a failed validation is chosen from `errors`, the map of the render the submit happened in, not the map `validateForm` just built | first submit with last name "B", e-mail "a@b.co", password "secret", role "Guard" and an empty first name: the only error is on the personal tab, yet the dialog switches to the employment tab | choose the tab from the freshly computed error map, so the dialog shows a tab holding an invalid field | not executed | AddEmployeeModal.StaleTabChoice | AddEmployeeModal.HandleSubmitFreshTab |
