/** What the society registration form and the society edit form share: the
    five inputs, the change handler, and the submit handler up to the request
    it sends and the fallback message it shows. */
module SocietyForms {
  import opened Wrappers
  import opened Text
  import opened Http

  /** The record a society page receives from GET /society/latest. */
  datatype Society = Society(
    societyId: string,
    name: string,
    address: string,
    city: Option<string>,
    state: Option<string>,
    postalCode: Option<string>)

  /** The `name` attributes of the five inputs. */
  datatype Field = Name | Address | City | State | PostalCode

  /** The form data, which is also the JSON body of the request. */
  datatype SocietyFields = SocietyFields(
    name: string,
    address: string,
    city: string,
    state: string,
    postalCode: string)

  function FieldValue(f: SocietyFields, k: Field): string {
    match k
    case Name => f.name
    case Address => f.address
    case City => f.city
    case State => f.state
    case PostalCode => f.postalCode
  }

  /** `{ ...prev, [name]: value }`. */
  function Set(f: SocietyFields, k: Field, v: string): (r: SocietyFields)
    ensures FieldValue(r, k) == v
    ensures forall o: Field | o != k :: FieldValue(r, o) == FieldValue(f, o)
  {
    match k
    case Name => f.(name := v)
    case Address => f.(address := v)
    case City => f.(city := v)
    case State => f.(state := v)
    case PostalCode => f.(postalCode := v)
  }

  /** Two edits of different inputs commute, and a second edit of the same
      input overwrites the first. */
  lemma SetOrder(f: SocietyFields, j: Field, k: Field, v: string, w: string)
    ensures j != k ==> Set(Set(f, j, v), k, w) == Set(Set(f, k, w), j, v)
    ensures Set(Set(f, k, v), k, w) == Set(f, k, w)
  {
  }

  datatype FormState = FormState(fields: SocietyFields, isSubmitting: bool, error: string)

  function Opened(fields: SocietyFields): (s: FormState)
    ensures s.fields == fields && !s.isSubmitting && s.error == ""
  {
    FormState(fields, false, "")
  }

  /** `handleChange`: only the named input changes. */
  function HandleChange(s: FormState, k: Field, v: string): (r: FormState)
    ensures FieldValue(r.fields, k) == v
    ensures forall o: Field | o != k :: FieldValue(r.fields, o) == FieldValue(s.fields, o)
    ensures r.isSubmitting == s.isSubmitting && r.error == s.error
  {
    s.(fields := Set(s.fields, k, v))
  }

  /** Whether pressing the submit button reaches the handler: the button is
      disabled while a submission is in flight, and the browser refuses to
      submit while a `required` input (name, address) is empty. */
  predicate CanSubmit(s: FormState) {
    !s.isSubmitting && s.fields.name != "" && s.fields.address != ""
  }

  /** The form after pressing submit, the request sent (none when the press
      did not reach the handler) and how often the success callback ran. */
  datatype Submission = Submission(state: FormState, request: Option<Request<SocietyFields>>, callbackCalls: nat)

  /** `handleSubmit` for a form that sends `verb path` and falls back to
      `fallback`; `resp` answers the request. The handler first clears the
      error and raises `isSubmitting`, and lowers it again in `finally`. */
  function Submit(s: FormState, verb: Method, path: string, resp: Response<()>, fallback: string): (r: Submission)
    ensures !CanSubmit(s) ==> r == Submission(s, None, 0)
    ensures CanSubmit(s) ==> r.request == Some(Request(verb, path, Some(s.fields)))
    ensures CanSubmit(s) ==> r.state.fields == s.fields && !r.state.isSubmitting
    ensures CanSubmit(s) ==> r.callbackCalls == if resp.Ok? then 1 else 0
    ensures CanSubmit(s) && resp.Ok? ==> r.state.error == ""
    ensures CanSubmit(s) && resp.Failed? && resp.body.Json? ==>
              r.state.error == if Truthy(resp.body.message) then resp.body.message.value else fallback
    ensures CanSubmit(s) && resp.Failed? && resp.body.Malformed? ==> r.state.error == resp.body.reason
    ensures CanSubmit(s) && resp.Thrown? ==> r.state.error == resp.reason
  {
    if !CanSubmit(s) then Submission(s, None, 0)
    else
      var pending := s.(isSubmitting := true, error := "");
      var request := Request(verb, path, Some(pending.fields));
      match MutationError(resp, fallback)
      case None => Submission(pending.(isSubmitting := false), Some(request), 1)
      case Some(message) => Submission(pending.(isSubmitting := false, error := message), Some(request), 0)
  }

  /** The error shown after a submission is empty exactly when the request
      succeeded, provided a failure never comes with an empty message. */
  lemma SubmitErrorIffFailure(s: FormState, verb: Method, path: string, resp: Response<()>, fallback: string)
    requires CanSubmit(s) && fallback != ""
    requires resp.Failed? && resp.body.Malformed? ==> resp.body.reason != ""
    requires resp.Thrown? ==> resp.reason != ""
    ensures var r := Submit(s, verb, path, resp, fallback);
            (r.state.error == "" <==> resp.Ok?) && (r.callbackCalls == 1 <==> resp.Ok?)
  {
  }

  /** After a failed submission the user can submit again unchanged: the
      form is not left locked. */
  lemma SubmitUnlocks(s: FormState, verb: Method, path: string, resp: Response<()>, fallback: string)
    requires CanSubmit(s)
    ensures CanSubmit(Submit(s, verb, path, resp, fallback).state)
  {
  }
}
