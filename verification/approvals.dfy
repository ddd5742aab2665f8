/** The pending-approvals page: resident registration requests with a
    selected request, approve (a backend call followed by a re-fetch) and
    reject (a purely local removal). */
module Approvals {
  import opened Wrappers
  import opened Seqs
  import opened Http
  import ListPage

  datatype Residence = Residence(
    addressLine1: Option<string>,
    block: Option<string>,
    residence: Option<string>,
    residenceType: Option<string>)

  datatype PendingApproval = PendingApproval(
    residentId: string,
    firstname: string,
    lastname: string,
    cnic: string,
    email: string,
    phone: string,
    residence: Residence)

  datatype PageState = PageState(
    pending: seq<PendingApproval>,
    selected: Option<PendingApproval>,
    loading: bool,
    error: string)

  const FetchFailure := "Failed to fetch pending approvals"
  const ApproveFailure := "Failed to approve resident"

  function Mount(): (s: PageState)
    ensures s.pending == [] && s.selected.None? && s.loading && s.error == ""
  {
    PageState([], None, true, "")
  }

  /** The selection, if any, is one of the listed requests. */
  predicate SelectionListed(s: PageState) {
    s.selected.None? || s.selected.value in s.pending
  }

  /** `fetchPendingApprovals` once the response to GET /admin/approval/pending
      is in. A 404 means "nothing pending" and is not an error; a 2xx selects
      the first request; every other failure sets the banner. */
  function FetchPendingApprovals(s: PageState, resp: Response<seq<PendingApproval>>): (r: PageState)
    ensures !r.loading
    ensures resp.IsNotFound() ==> r.pending == [] && r.selected.None? && r.error == s.error
    ensures resp.Ok? ==> r.pending == resp.payload && r.error == s.error
    ensures resp.Ok? && |resp.payload| > 0 ==> r.selected == Some(resp.payload[0])
    ensures resp.Ok? && |resp.payload| == 0 ==> r.selected.None?
    ensures resp.Failed? && !resp.IsNotFound() ==> r.error == "Failed to fetch pending approvals"
    ensures resp.Thrown? ==> r.error == resp.reason
    ensures (resp.Failed? && !resp.IsNotFound()) || resp.Thrown? ==>
              r.pending == s.pending && r.selected == s.selected
    ensures resp.Ok? || resp.IsNotFound() ==> SelectionListed(r)
  {
    match resp
    case Failed(status, _) =>
      if status == 404 then s.(pending := [], selected := None, loading := false)
      else s.(error := FetchFailure, loading := false)
    case Thrown(reason) => s.(error := reason, loading := false)
    case Ok(data) =>
      s.(pending := data, selected := if |data| > 0 then Some(data[0]) else None, loading := false)
  }

  /** A load keeps a listed selection listed, whatever the response. */
  lemma FetchKeepsSelectionListed(s: PageState, resp: Response<seq<PendingApproval>>)
    requires SelectionListed(s)
    ensures SelectionListed(FetchPendingApprovals(s, resp))
  {
  }

  /** The page after an approve, the request it sent, and how many times the
      list was re-fetched. */
  datatype ApproveResult = ApproveResult(state: PageState, request: Request<()>, refetches: nat)

  /** `handleApprove`: PATCH /admin/approve/{residentId} with no body,
      answered by `resp`; a 2xx re-fetches the list, answered by `refetch`. */
  function HandleApprove(s: PageState, residentId: string, resp: Response<()>,
                         refetch: Response<seq<PendingApproval>>): (r: ApproveResult)
    ensures r.request == Request(Patch, "/admin/approve/" + residentId, None)
    ensures r.refetches == if resp.Ok? then 1 else 0
    ensures resp.Ok? ==> r.state == FetchPendingApprovals(s, refetch)
    ensures resp.Failed? ==> r.state == s.(error := "Failed to approve resident")
    ensures resp.Thrown? ==> r.state == s.(error := resp.reason)
  {
    var request := Request(Patch, "/admin/approve/" + residentId, None);
    match resp
    case Ok(_) => ApproveResult(FetchPendingApprovals(s, refetch), request, 1)
    case Failed(_, _) => ApproveResult(s.(error := ApproveFailure), request, 0)
    case Thrown(reason) => ApproveResult(s.(error := reason), request, 0)
  }

  /** A successful approve never clears an earlier error banner, and when the
      backend no longer lists the approved resident the re-fetched list does
      not show them either. */
  lemma ApproveKeepsBanner(s: PageState, refetch: seq<PendingApproval>, residentId: string)
    ensures var r := HandleApprove(s, residentId, Ok(()), Ok(refetch)).state;
            && r.error == s.error
            && ((forall i | 0 <= i < |refetch| :: refetch[i].residentId != residentId) ==>
                 forall i | 0 <= i < |r.pending| :: r.pending[i].residentId != residentId)
  {
  }

  /** Keeps the requests of residents other than `residentId`. */
  function Other(residentId: string): PendingApproval -> bool {
    (a: PendingApproval) => a.residentId != residentId
  }

  /** `handleReject`: no request is made. Every request of the resident is
      dropped from the list; if the selected request was theirs, the first
      remaining request (or none) is selected instead. */
  function HandleReject(s: PageState, residentId: string): (r: PageState)
    ensures IsSubsequence(r.pending, s.pending)
    ensures forall i | 0 <= i < |r.pending| :: r.pending[i].residentId != residentId
    ensures forall i | 0 <= i < |s.pending| :: s.pending[i].residentId != residentId ==> s.pending[i] in r.pending
    ensures s.selected.Some? && s.selected.value.residentId == residentId ==>
              r.selected == if |r.pending| > 0 then Some(r.pending[0]) else None
    ensures !(s.selected.Some? && s.selected.value.residentId == residentId) ==> r.selected == s.selected
    ensures r.loading == s.loading && r.error == s.error
  {
    var remaining := Filter(s.pending, Other(residentId));
    forall i | 0 <= i < |s.pending| && s.pending[i].residentId != residentId
      ensures s.pending[i] in remaining
    {
      FilterMembership(s.pending, Other(residentId), s.pending[i]);
    }
    if s.selected.Some? && s.selected.value.residentId == residentId then
      s.(pending := remaining, selected := if |remaining| > 0 then Some(remaining[0]) else None)
    else
      s.(pending := remaining)
  }

  /** Rejecting keeps a listed selection listed. */
  lemma RejectKeepsSelectionListed(s: PageState, residentId: string)
    requires SelectionListed(s)
    ensures SelectionListed(HandleReject(s, residentId))
  {
    var r := HandleReject(s, residentId);
    if s.selected.Some? && s.selected.value.residentId != residentId {
      var i :| 0 <= i < |s.pending| && s.pending[i] == s.selected.value;
    }
  }

  /** Rejecting a resident twice is the same as rejecting them once. */
  lemma RejectIdempotent(s: PageState, residentId: string)
    ensures HandleReject(HandleReject(s, residentId), residentId) == HandleReject(s, residentId)
  {
    FilterIdempotent(s.pending, Other(residentId));
  }

  /** The detail column; its placeholder looks at the whole pending list. */
  function DetailColumn(s: PageState): (p: ListPage.Pane<PendingApproval>)
    ensures p.Skeleton? <==> s.loading
    ensures p.Details? <==> !s.loading && s.selected.Some?
    ensures p.Placeholder? ==> (p.message == "No pending approvals at the moment" <==> |s.pending| == 0)
    ensures p.Placeholder? ==>
              (p.message == "Select a resident approval request to view details" <==> |s.pending| > 0)
  {
    if s.loading then ListPage.Skeleton
    else if s.selected.Some? then ListPage.Details(s.selected.value)
    else if |s.pending| == 0 then ListPage.Placeholder("No pending approvals at the moment")
    else ListPage.Placeholder("Select a resident approval request to view details")
  }
}
