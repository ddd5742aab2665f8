/** The society edit form: pre-filled from an existing society, submitted as
    a PATCH of that society. */
module EditSocietyForm {
  import opened Wrappers
  import opened Text
  import opened Http
  import opened SocietyForms

  const UpdateFailure := "Failed to update society"

  /** `society.x || ""` for the optional parts. */
  function InitialFields(soc: Society): (f: SocietyFields)
    ensures f.name == soc.name && f.address == soc.address
    ensures f.city == (if Truthy(soc.city) then soc.city.value else "")
    ensures f.state == (if Truthy(soc.state) then soc.state.value else "")
    ensures f.postalCode == (if Truthy(soc.postalCode) then soc.postalCode.value else "")
  {
    SocietyFields(soc.name, soc.address, soc.city.GetOr(""), soc.state.GetOr(""), soc.postalCode.GetOr(""))
  }

  /** The form as it opens on `soc`: pre-filled, not submitting, no error. */
  function Open(soc: Society): (s: FormState)
    ensures s.fields.name == soc.name && s.fields.address == soc.address
    ensures Truthy(soc.city) ==> Some(s.fields.city) == soc.city
    ensures Truthy(soc.state) ==> Some(s.fields.state) == soc.state
    ensures Truthy(soc.postalCode) ==> Some(s.fields.postalCode) == soc.postalCode
    ensures !Truthy(soc.city) ==> s.fields.city == ""
    ensures !Truthy(soc.state) ==> s.fields.state == ""
    ensures !Truthy(soc.postalCode) ==> s.fields.postalCode == ""
    ensures !s.isSubmitting && s.error == ""
  {
    Opened(InitialFields(soc))
  }

  /** Opening the form on a society and submitting it untouched sends the
      society's own fields back to its own path. */
  lemma UntouchedRoundTrip(soc: Society, resp: Response<()>)
    requires soc.name != "" && soc.address != ""
    ensures var req := HandleSubmit(Open(soc), soc, resp).request;
            && req.Some?
            && req.value.path == "/society/" + soc.societyId
            && var b := req.value.body.value;
               b.name == soc.name && b.address == soc.address
               && (Truthy(soc.city) ==> Some(b.city) == soc.city)
               && (Truthy(soc.state) ==> Some(b.state) == soc.state)
               && (Truthy(soc.postalCode) ==> Some(b.postalCode) == soc.postalCode)
  {
  }

  /** `handleSubmit`: PATCH /society/{societyId} of the edited society with the
      five fields; `resp` answers it; a 2xx calls `onSocietyUpdated`. */
  function HandleSubmit(s: FormState, soc: Society, resp: Response<()>): (r: Submission)
    ensures !CanSubmit(s) ==> r == Submission(s, None, 0)
    ensures CanSubmit(s) ==> r.request == Some(Request(Patch, "/society/" + soc.societyId, Some(s.fields)))
    ensures CanSubmit(s) ==> !r.state.isSubmitting && r.state.fields == s.fields
    ensures CanSubmit(s) ==> r.callbackCalls == if resp.Ok? then 1 else 0
    ensures CanSubmit(s) && resp.Ok? ==> r.state.error == ""
    ensures CanSubmit(s) && resp.Failed? && resp.body.Json? && !Truthy(resp.body.message) ==>
              r.state.error == "Failed to update society"
    ensures CanSubmit(s) && resp.Failed? && resp.body.Json? && Truthy(resp.body.message) ==>
              r.state.error == resp.body.message.value
    ensures CanSubmit(s) && resp.Failed? && resp.body.Malformed? ==> r.state.error == resp.body.reason
    ensures CanSubmit(s) && resp.Thrown? ==> r.state.error == resp.reason
  {
    Submit(s, Patch, "/society/" + soc.societyId, resp, UpdateFailure)
  }
}
