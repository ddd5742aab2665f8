/** The society registration form: starts empty and POSTs a new society. */
module SocietyRegistrationForm {
  import opened Wrappers
  import opened Text
  import opened Http
  import opened SocietyForms

  const RegisterFailure := "Failed to register society"

  function Open(): (s: FormState)
    ensures forall k: Field :: FieldValue(s.fields, k) == ""
    ensures !s.isSubmitting && s.error == ""
  {
    Opened(SocietyFields("", "", "", "", ""))
  }

  /** `handleSubmit`: POST /society/add with the five fields; `resp` answers
      it; a 2xx calls `onSocietyCreated`. */
  function HandleSubmit(s: FormState, resp: Response<()>): (r: Submission)
    ensures !CanSubmit(s) ==> r == Submission(s, None, 0)
    ensures CanSubmit(s) ==> r.request == Some(Request(Post, "/society/add", Some(s.fields)))
    ensures CanSubmit(s) ==> !r.state.isSubmitting && r.state.fields == s.fields
    ensures CanSubmit(s) ==> r.callbackCalls == if resp.Ok? then 1 else 0
    ensures CanSubmit(s) && resp.Ok? ==> r.state.error == ""
    ensures CanSubmit(s) && resp.Failed? && resp.body.Json? && !Truthy(resp.body.message) ==>
              r.state.error == "Failed to register society"
    ensures CanSubmit(s) && resp.Failed? && resp.body.Json? && Truthy(resp.body.message) ==>
              r.state.error == resp.body.message.value
    ensures CanSubmit(s) && resp.Failed? && resp.body.Malformed? ==> r.state.error == resp.body.reason
    ensures CanSubmit(s) && resp.Thrown? ==> r.state.error == resp.reason
  {
    Submit(s, Post, "/society/add", resp, RegisterFailure)
  }

  /** The empty form cannot be submitted: the browser stops it before any
      request; once name and address are typed in, it can. */
  lemma RequiredInputs(name: string, address: string, resp: Response<()>)
    ensures HandleSubmit(Open(), resp).request.None?
    ensures var s := HandleChange(HandleChange(Open(), Name, name), Address, address);
            HandleSubmit(s, resp).request.Some? <==> name != "" && address != ""
  {
  }
}
