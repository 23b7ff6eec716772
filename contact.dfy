/**
 * The contact-form controller of src/app/components/Contact.tsx: three text
 * fields, a submission status and an error message, changed by field edits
 * and by submissions to the Formspree relay. A submission is two events: it
 * begins when the form is submitted and completes when the request settles,
 * with an outcome that stands for what `fetch` and `res.json()` produced.
 */
module Contact {
  import opened Wrappers
  import opened Strings

  /** `SubmitStatus`. */
  datatype Status = Idle | Sending | Success | Error

  /** The `name` attributes of the form's three inputs. */
  datatype Field = Name | Email | Message

  /** `formData`. */
  datatype FormFields = FormFields(name: string, email: string, message: string)
  {
    function Get(f: Field): string {
      match f
      case Name => name
      case Email => email
      case Message => message
    }

    /** `{ ...formData, [f]: v }`. */
    function With(f: Field, v: string): (r: FormFields)
      ensures r.Get(f) == v
      ensures forall g :: g != f ==> r.Get(g) == Get(g)
    {
      match f
      case Name => this.(name := v)
      case Email => this.(email := v)
      case Message => this.(message := v)
    }
  }

  const EmptyFields: FormFields := FormFields("", "", "")

  const NotConfiguredMessage: string := "Contact form is not configured. Please set VITE_FORMSPREE_FORM_ID in .env"
  const NetworkErrorMessage: string := "Network error. Check your connection and try again."
  const FormspreeEndpoint: string := "https://formspree.io/f/"

  /** The message shown for a rejected submission whose response names no error. */
  function FailedMessage(status: nat): string {
    "Failed to send (" + DecimalString(status) + "). Try again or email directly."
  }

  /** The JSON body posted to the relay. */
  datatype Payload = Payload(name: string, email: string, message: string, replyTo: string)

  /** A POST to `url` with `payload` as its JSON body. */
  datatype Request = Request(url: string, payload: Payload)

  /** The body sent for the fields as they stand: the reply-to address is the sender's email. */
  function PayloadOf(fields: FormFields): (p: Payload)
    ensures p.replyTo == p.email == fields.email
    ensures p.name == fields.name && p.message == fields.message
  {
    Payload(fields.name, fields.email, fields.message, fields.email)
  }

  /**
   * What `res.json().catch(() => ({}))` gives: a body that is not JSON (read
   * as `{}`), the JSON value `null`, or another JSON value whose `error`
   * property is a string (`None` when it is missing).
   */
  datatype ResponseBody = Unparsable | JsonNull | Json(error: Option<string>)

  /** How the request settled: a response, or a `fetch` that threw. */
  datatype Outcome = Response(status: nat, body: ResponseBody) | TransportFailure

  /** `res.ok`. */
  predicate Ok(status: nat) {
    200 <= status <= 299
  }

  /** The component's three state cells. */
  datatype FormState = FormState(fields: FormFields, status: Status, errorMessage: string)

  const Initial: FormState := FormState(EmptyFields, Idle, "")

  /** `!FORMSPREE_FORM_ID` is false: the form ID is set and not empty. */
  predicate Configured(formId: Option<string>) {
    formId.Some? && formId.value != ""
  }

  /** The state after a submission begins, and the request it sends, if any. */
  datatype Submission = Submission(state: FormState, request: Option<Request>)

  /** `handleSubmit` up to its `await`. */
  function Begun(s: FormState, formId: Option<string>): (r: Submission)
    ensures r.state.fields == s.fields
    ensures r.request.Some? <==> Configured(formId)
    ensures !Configured(formId) ==> r.state.status == Error && r.state.errorMessage == NotConfiguredMessage
    ensures Configured(formId) ==>
              && r.state.status == Sending && r.state.errorMessage == ""
              && r.request.value.url == FormspreeEndpoint + formId.value
              && r.request.value.payload == PayloadOf(s.fields)
  {
    if !Configured(formId) then Submission(FormState(s.fields, Error, NotConfiguredMessage), None)
    else
      Submission(FormState(s.fields, Sending, ""),
                 Some(Request(FormspreeEndpoint + formId.value, PayloadOf(s.fields))))
  }

  /**
   * The message for a response that is not OK: the body's `error` when it is
   * a non-empty string, else the templated message. Reading `error` of `null`
   * throws, and the `catch` around the request turns that into the network
   * error message.
   */
  function RejectionMessage(status: nat, body: ResponseBody): (m: string)
    ensures m != ""
    ensures body == JsonNull ==> m == NetworkErrorMessage
    ensures body.Json? && body.error.Some? && body.error.value != "" ==> m == body.error.value
    ensures body.Unparsable? || body == Json(None) || body == Json(Some("")) ==> m == FailedMessage(status)
  {
    match body
    case JsonNull => NetworkErrorMessage
    case Json(Some(error)) => if error != "" then error else FailedMessage(status)
    case _ => FailedMessage(status)
  }

  /** `handleSubmit` after its `await`: the request has settled with `outcome`. */
  function Settled(s: FormState, outcome: Outcome): (r: FormState)
    ensures r.status == Success <==> outcome.Response? && Ok(outcome.status)
    ensures r.status == Success ==> r.fields == EmptyFields && r.errorMessage == s.errorMessage
    ensures r.status != Success ==> r.status == Error && r.fields == s.fields && r.errorMessage != ""
    ensures outcome.TransportFailure? ==> r.errorMessage == NetworkErrorMessage
    ensures outcome.Response? && !Ok(outcome.status) ==> r.errorMessage == RejectionMessage(outcome.status, outcome.body)
  {
    match outcome
    case TransportFailure => FormState(s.fields, Error, NetworkErrorMessage)
    case Response(status, body) =>
      if !Ok(status) then FormState(s.fields, Error, RejectionMessage(status, body))
      else FormState(EmptyFields, Success, s.errorMessage)
  }

  /** `handleChange` for the input named `f`. */
  function Edited(s: FormState, f: Field, v: string): (r: FormState)
    ensures r.fields.Get(f) == v
    ensures forall g :: g != f ==> r.fields.Get(g) == s.fields.Get(g)
    ensures r.status == Idle && r.errorMessage == s.errorMessage
  {
    FormState(s.fields.With(f, v), Idle, s.errorMessage)
  }

  // What the form displays.

  /** The "Message sent" line is rendered. */
  predicate SuccessShown(s: FormState) {
    s.status == Success
  }

  /** The error line is rendered. */
  predicate ErrorShown(s: FormState) {
    s.status == Error && s.errorMessage != ""
  }

  /** The submit button is disabled and reads "Sending...". */
  predicate SubmitDisabled(s: FormState) {
    s.status == Sending
  }

  /** Every state a handler produces satisfies this (`RunKeepsConsistency`). */
  predicate Consistent(s: FormState) {
    && (s.status == Error ==> s.errorMessage != "")
    && (s.status == Sending ==> s.errorMessage == "")
  }

  /** Every handler ends in a consistent state, whatever the state it starts from. */
  lemma {:induction false} HandlersEstablishConsistency(s: FormState, formId: Option<string>, outcome: Outcome, f: Field, v: string)
    ensures Consistent(Begun(s, formId).state)
    ensures Consistent(Settled(s, outcome))
    ensures Consistent(Edited(s, f, v))
  {
  }

  /** In a consistent state, the error line is shown exactly when the status is `error`. */
  lemma {:induction false} ErrorShownIffError(s: FormState)
    requires Consistent(s)
    ensures ErrorShown(s) <==> s.status == Error
  {
  }

  /** At most one of the two status lines is shown, and neither while sending. */
  lemma {:induction false} StatusLinesExclusive(s: FormState)
    ensures !(SuccessShown(s) && ErrorShown(s))
    ensures SubmitDisabled(s) ==> !SuccessShown(s) && !ErrorShown(s)
  {
  }

  // Sequences of events.

  datatype Event = Change(field: Field, value: string) | Submit | Complete(outcome: Outcome)

  function Step(s: FormState, formId: Option<string>, e: Event): FormState {
    match e
    case Change(f, v) => Edited(s, f, v)
    case Submit => Begun(s, formId).state
    case Complete(outcome) => Settled(s, outcome)
  }

  /** The state after the events, in order. */
  function Run(s: FormState, formId: Option<string>, events: seq<Event>): FormState
    decreases |events|
  {
    if events == [] then s else Run(Step(s, formId, events[0]), formId, events[1..])
  }

  /**
   * Whatever the events, in any order and interleaving, the form ends
   * consistent, so the error line shows exactly when the status is `error`.
   * Every handler makes any state consistent, so after the first event this
   * holds whatever the start; the requirement on `s` matters only for a run
   * with no events.
   */
  lemma {:induction false} RunKeepsConsistency(s: FormState, formId: Option<string>, events: seq<Event>)
    requires Consistent(s)
    ensures Consistent(Run(s, formId, events))
    ensures ErrorShown(Run(s, formId, events)) <==> Run(s, formId, events).status == Error
    decreases |events|
  {
    if events != [] {
      var e := events[0];
      var f, v := if e.Change? then e.field else Name, if e.Change? then e.value else "";
      var outcome := if e.Complete? then e.outcome else TransportFailure;
      HandlersEstablishConsistency(s, formId, outcome, f, v);
      RunKeepsConsistency(Step(s, formId, e), formId, events[1..]);
    } else {
      ErrorShownIffError(s);
    }
  }

  /** The state after a run of field edits, made in order. */
  function Edits(s: FormState, edits: seq<(Field, string)>): FormState
    decreases |edits|
  {
    if edits == [] then s else Edits(Edited(s, edits[0].0, edits[0].1), edits[1..])
  }

  /**
   * Last write wins: after a run of edits, a field holds the value of the
   * last edit to it, or its old value when no edit touched it; the status is
   * `idle` after any edit, and the error message is the old one.
   */
  lemma {:induction false} LastWriteWins(s: FormState, edits: seq<(Field, string)>, f: Field)
    ensures (forall i :: 0 <= i < |edits| ==> edits[i].0 != f) ==> Edits(s, edits).fields.Get(f) == s.fields.Get(f)
    ensures forall i :: 0 <= i < |edits| && edits[i].0 == f && (forall j :: i < j < |edits| ==> edits[j].0 != f)
              ==> Edits(s, edits).fields.Get(f) == edits[i].1
    ensures edits != [] ==> Edits(s, edits).status == Idle
    ensures Edits(s, edits).errorMessage == s.errorMessage
  {
    if forall i :: 0 <= i < |edits| ==> edits[i].0 != f {
      UntouchedFieldKept(s, edits, f);
    }
    forall i | 0 <= i < |edits| && edits[i].0 == f && (forall j :: i < j < |edits| ==> edits[j].0 != f)
      ensures Edits(s, edits).fields.Get(f) == edits[i].1
    {
      LastWriteKept(s, edits, f, i);
    }
    EditsStatusLine(s, edits);
  }

  /** A field no edit names keeps its value. */
  lemma {:induction false} UntouchedFieldKept(s: FormState, edits: seq<(Field, string)>, f: Field)
    requires forall i :: 0 <= i < |edits| ==> edits[i].0 != f
    ensures Edits(s, edits).fields.Get(f) == s.fields.Get(f)
    decreases |edits|
  {
    if edits != [] {
      var rest := edits[1..];
      assert forall i :: 0 <= i < |rest| ==> rest[i] == edits[i + 1];
      UntouchedFieldKept(Edited(s, edits[0].0, edits[0].1), rest, f);
    }
  }

  /** The edit at `i` is the last one to name `f`, so `f` ends with its value. */
  lemma {:induction false} LastWriteKept(s: FormState, edits: seq<(Field, string)>, f: Field, i: nat)
    requires i < |edits| && edits[i].0 == f
    requires forall j :: i < j < |edits| ==> edits[j].0 != f
    ensures Edits(s, edits).fields.Get(f) == edits[i].1
    decreases i
  {
    var s' := Edited(s, edits[0].0, edits[0].1);
    var rest := edits[1..];
    assert forall j :: 0 <= j < |rest| ==> rest[j] == edits[j + 1];
    if i == 0 {
      UntouchedFieldKept(s', rest, f);
    } else {
      LastWriteKept(s', rest, f, i - 1);
    }
  }

  /** Any edit sets the status to `idle`; no edit touches the error message. */
  lemma {:induction false} EditsStatusLine(s: FormState, edits: seq<(Field, string)>)
    ensures edits != [] ==> Edits(s, edits).status == Idle
    ensures Edits(s, edits).errorMessage == s.errorMessage
    decreases |edits|
  {
    if edits != [] {
      EditsStatusLine(Edited(s, edits[0].0, edits[0].1), edits[1..]);
    }
  }

  // The controller as the component holds it.

  class ContactForm {
    /** `FORMSPREE_FORM_ID`, fixed when the bundle is built. */
    const formId: Option<string>
    var formData: FormFields
    var submitStatus: Status
    var errorMessage: string

    function State(): FormState
      reads this
    {
      FormState(formData, submitStatus, errorMessage)
    }

    /** The component's first render: empty fields, `idle`, no message. */
    constructor(formId: Option<string>)
      ensures this.formId == formId
      ensures State() == Initial
    {
      this.formId := formId;
      formData := EmptyFields;
      submitStatus := Idle;
      errorMessage := "";
    }

    /** `handleChange`. */
    method HandleChange(field: Field, value: string)
      modifies this
      ensures State() == Edited(old(State()), field, value)
    {
      formData := formData.With(field, value);
      if submitStatus != Idle {
        submitStatus := Idle;
      }
    }

    /** `handleSubmit` up to the `await` of `fetch`: returns the request it sends, if any. */
    method BeginSubmit() returns (request: Option<Request>)
      modifies this
      ensures Submission(State(), request) == Begun(old(State()), formId)
    {
      if formId.None? || formId.value == "" {
        errorMessage := NotConfiguredMessage;
        submitStatus := Error;
        return None;
      }
      submitStatus := Sending;
      errorMessage := "";
      request := Some(Request(FormspreeEndpoint + formId.value, PayloadOf(formData)));
    }

    /** The rest of `handleSubmit`, once the request has settled. */
    method CompleteSubmit(outcome: Outcome)
      modifies this
      ensures State() == Settled(old(State()), outcome)
    {
      if outcome.TransportFailure? {
        submitStatus := Error;
        errorMessage := NetworkErrorMessage;
        return;
      }
      if !Ok(outcome.status) {
        if outcome.body.JsonNull? {
          submitStatus := Error;
          errorMessage := NetworkErrorMessage;
          return;
        }
        submitStatus := Error;
        var serverError := if outcome.body.Json? && outcome.body.error.Some? then outcome.body.error.value else "";
        errorMessage := if serverError != "" then serverError else FailedMessage(outcome.status);
        return;
      }
      submitStatus := Success;
      formData := EmptyFields;
    }
  }

  // Scenarios.

  /** A 200 response: `success`, the fields emptied, nothing in error. */
  lemma {:induction false} SubmitAccepted(s: FormState, formId: Option<string>, body: ResponseBody)
    requires Configured(formId)
    ensures var sub := Begun(s, formId);
      && sub.request == Some(Request(FormspreeEndpoint + formId.value,
                                     Payload(s.fields.name, s.fields.email, s.fields.message, s.fields.email)))
      && Settled(sub.state, Response(200, body)) == FormState(EmptyFields, Success, "")
  {
  }

  /** A 422 response with `{ error: "bad email" }`: `error`, the server's message, the fields kept. */
  lemma {:induction false} SubmitRejectedWithServerError(s: FormState, formId: Option<string>)
    requires Configured(formId)
    ensures Settled(Begun(s, formId).state, Response(422, Json(Some("bad email"))))
      == FormState(s.fields, Error, "bad email")
  {
  }

  /** A rejection without a server message names the status code it got. */
  lemma {:induction false} RejectionNamesStatus(status: nat, body: ResponseBody)
    requires !Ok(status) && (body.Unparsable? || body == Json(None) || body == Json(Some("")))
    ensures RejectionMessage(status, body) == FailedMessage(status)
  {
  }

  /** Different status codes give different templated messages: the code can be read back. */
  lemma {:induction false} FailedMessageInjective(a: nat, b: nat)
    requires FailedMessage(a) == FailedMessage(b)
    ensures a == b
  {
    var p, q := "Failed to send (", "). Try again or email directly.";
    var da, db := DecimalString(a), DecimalString(b);
    assert FailedMessage(a) == p + da + q;
    assert FailedMessage(b) == p + db + q;
    assert |da| == |db|;
    assert da == FailedMessage(a)[|p|..|p| + |da|];
    assert db == FailedMessage(b)[|p|..|p| + |db|];
    DecimalRoundTrip(a);
    DecimalRoundTrip(b);
  }

  /** A request that never gets a response: `error` with the network message, the fields kept. */
  lemma {:induction false} SubmitFailsInTransport(s: FormState, formId: Option<string>)
    requires Configured(formId)
    ensures Settled(Begun(s, formId).state, TransportFailure) == FormState(s.fields, Error, NetworkErrorMessage)
  {
  }

  /** Without a form ID no request is made, and the form reports that it is not configured. */
  lemma {:induction false} SubmitUnconfigured(s: FormState)
    ensures Begun(s, None) == Submission(FormState(s.fields, Error, NotConfiguredMessage), None)
    ensures Begun(s, Some("")) == Submission(FormState(s.fields, Error, NotConfiguredMessage), None)
    ensures ErrorShown(Begun(s, None).state)
  {
  }

  /** Editing after a success or an error clears the status line; so does editing while sending. */
  lemma {:induction false} EditClearsStatusLine(s: FormState, f: Field, v: string)
    ensures !SuccessShown(Edited(s, f, v)) && !ErrorShown(Edited(s, f, v)) && !SubmitDisabled(Edited(s, f, v))
  {
  }
}
