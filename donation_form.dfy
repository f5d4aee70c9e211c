/** The create/edit dialog (src/components/DonationForm.tsx): four text
    fields, the reset-or-prefill effect that runs whenever the dialog's
    `open`, `mode` or `donation` props change, the validity check that
    enables Submit, and the submit handler with its create/edit branch and
    callbacks. The component's state is a class; the props are parameters
    of the methods that read them. */
module DonationForm {
  import opened Common
  import opened Types
  import opened Forms

  datatype Mode = Create | Edit

  datatype Field = Title | Description | Quantity | Location

  /** `formData`: four strings. */
  datatype FormData = FormData(title: string, description: string, quantity: string, location: string) {
    function Get(f: Field): string {
      match f
      case Title => title
      case Description => description
      case Quantity => quantity
      case Location => location
    }

    /** `{ ...prev, [field]: value }` */
    function With(f: Field, v: string): (r: FormData)
      ensures r.Get(f) == v
      ensures forall g :: g != f ==> r.Get(g) == Get(g)
    {
      match f
      case Title => this.(title := v)
      case Description => this.(description := v)
      case Quantity => this.(quantity := v)
      case Location => this.(location := v)
    }
  }

  const EmptyForm: FormData := FormData("", "", "", "")

  /** The form the effect sets: the donation's fields, the quantity as
      its decimal text, in edit mode with a donation; all empty
      otherwise. */
  function ResetForm(donation: Option<Donation>, mode: Mode): FormData {
    if donation.Some? && mode == Edit then
      var d := donation.value;
      FormData(d.title, d.description, IntToString(d.quantity), d.location)
    else EmptyForm
  }

  /** `isFormValid()` */
  predicate IsFormValid(form: FormData) {
    NonBlank(form.title) && NonBlank(form.description) && QuantityValid(form.quantity)
    && NonBlank(form.location)
  }

  /** The body sent: the four fields with `quantity` parsed; the dialog
      has no food type or expiry date. */
  function PayloadOf(form: FormData): Payload {
    Payload(form.title, form.description, ParseInt(form.quantity), form.location, None, None)
  }

  /** A valid form sends non-blank text and a positive quantity. */
  lemma ValidPayload(form: FormData)
    requires IsFormValid(form)
    ensures var p := PayloadOf(form);
      NonBlank(p.title) && NonBlank(p.description) && NonBlank(p.location)
      && p.quantity.Some? && p.quantity.value > 0
  {
  }

  /** A freshly reset form is invalid, so Submit starts disabled in create
      mode and in edit mode without a donation. */
  lemma ResetEmptyInvalid(donation: Option<Donation>, mode: Mode)
    requires donation.None? || mode == Create
    ensures ResetForm(donation, mode) == EmptyForm
    ensures !IsFormValid(ResetForm(donation, mode))
  {
    var f := ResetForm(donation, mode);
    assert f == EmptyForm;
    assert f.title == [] && |Trim(f.title)| <= |f.title|;
    assert !NonBlank(f.title);
  }

  /** The prefilled form is valid exactly when the donation's title,
      description and location are non-blank and its quantity positive,
      and saving it unchanged sends the donation's own values. */
  lemma PrefillValidIff(d: Donation)
    ensures IsFormValid(ResetForm(Some(d), Edit)) <==>
      NonBlank(d.title) && NonBlank(d.description) && d.quantity > 0 && NonBlank(d.location)
    ensures PayloadOf(ResetForm(Some(d), Edit)) == Payload(d.title, d.description, Some(d.quantity), d.location, None, None)
  {
    ParseIntToString(d.quantity);
    if d.quantity > 0 {
      PositiveQuantityText(d.quantity);
    }
  }

  /** What the dialog calls on its parent. */
  datatype Callback = OnSuccess | OnClose

  /** The server's answer to a save. */
  datatype Outcome = Saved | Rejected(response: Option<FieldErrors>)

  /** The request `handleSubmit` sends: a POST to the collection in create
      mode, a PUT to the donation's path in edit mode with a donation, and
      none in edit mode without one. */
  function SubmitRequest(form: FormData, donation: Option<Donation>, mode: Mode): (r: Option<Request>)
    ensures r.None? <==> mode.Edit? && donation.None?
    ensures r.Some? ==> r.value.payload == PayloadOf(form)
    ensures mode == Create ==> r.Some? && r.value.verb == Post && r.value.path == DonationsPath
    ensures mode == Edit && donation.Some? ==>
      r.Some? && r.value.verb == Put && r.value.path == DonationPath(IntToString(donation.value.id))
  {
    if mode.Create? then Some(Request(Post, DonationsPath, PayloadOf(form)))
    else if donation.Some? then Some(Request(Put, DonationPath(IntToString(donation.value.id)), PayloadOf(form)))
    else None
  }

  class Dialog {
    var form: FormData
    var loading: bool
    var error: string

    constructor()
      ensures form == EmptyForm && !loading && error == []
    {
      form := EmptyForm;
      loading := false;
      error := "";
    }

    /** The effect on `[donation, mode, open]`. */
    method Reset(donation: Option<Donation>, mode: Mode)
      modifies this
      ensures form == ResetForm(donation, mode) && error == [] && loading == old(loading)
    {
      if donation.Some? && mode == Edit {
        var d := donation.value;
        form := FormData(d.title, d.description, IntToString(d.quantity), d.location);
      } else {
        form := FormData("", "", "", "");
      }
      error := "";
    }

    /** `handleChange(field)` */
    method HandleChange(f: Field, value: string)
      modifies this
      ensures form == old(form).With(f, value)
      ensures loading == old(loading) && error == old(error)
    {
      form := form.With(f, value);
    }

    /** `disabled={loading || !isFormValid()}` negated. */
    predicate SubmitEnabled()
      reads this
    {
      !loading && IsFormValid(form)
    }

    /** The start of `handleSubmit`: loading on, error cleared, the
        request (if any) sent. */
    method BeginSubmit(donation: Option<Donation>, mode: Mode) returns (request: Option<Request>)
      modifies this
      ensures request == SubmitRequest(old(form), donation, mode)
      ensures form == old(form) && loading && error == []
    {
      loading := true;
      error := "";
      if mode == Create {
        request := Some(Request(Post, DonationsPath, PayloadOf(form)));
      } else if donation.Some? {
        request := Some(Request(Put, DonationPath(IntToString(donation.value.id)), PayloadOf(form)));
      } else {
        request := None;
      }
    }

    /** The end of `handleSubmit`, given the outcome of the request (a
        save that sent no request succeeds): the callbacks run, or the
        error message is set; loading is off either way. */
    method FinishSubmit(outcome: Outcome) returns (calls: seq<Callback>)
      modifies this
      ensures outcome.Saved? ==> calls == [OnSuccess, OnClose] && error == old(error)
      ensures outcome.Rejected? ==> calls == [] && error == ErrorMessage(outcome.response, SaveFailed)
      ensures form == old(form) && !loading
    {
      calls := [];
      match outcome {
        case Saved =>
          calls := calls + [OnSuccess];
          calls := calls + [OnClose];
        case Rejected(response) =>
          error := ErrorMessage(response, SaveFailed);
      }
      loading := false;
    }

    /** The whole of `handleSubmit`, given what the server would answer a
        request: in edit mode without a donation nothing is sent, and the
        callbacks run all the same. */
    method HandleSubmit(donation: Option<Donation>, mode: Mode, server: Outcome)
      returns (request: Option<Request>, calls: seq<Callback>)
      modifies this
      ensures request == SubmitRequest(old(form), donation, mode)
      ensures request.None? || server.Saved? ==> calls == [OnSuccess, OnClose] && error == []
      ensures request.Some? && server.Rejected? ==>
        calls == [] && error == ErrorMessage(server.response, SaveFailed)
      ensures form == old(form) && !loading
    {
      request := BeginSubmit(donation, mode);
      calls := FinishSubmit(if request.None? then Saved else server);
    }

    /** Pressing an enabled Submit sends a request whose payload has
        non-blank text and a positive quantity, unless edit mode has no
        donation. */
    method PressSubmit(donation: Option<Donation>, mode: Mode) returns (request: Option<Request>)
      requires SubmitEnabled()
      modifies this
      ensures request == SubmitRequest(old(form), donation, mode)
      ensures loading && error == [] && !SubmitEnabled()
      ensures request.Some? ==>
        NonBlank(request.value.payload.title) && NonBlank(request.value.payload.description)
        && NonBlank(request.value.payload.location)
        && request.value.payload.quantity.Some? && request.value.payload.quantity.value > 0
    {
      ValidPayload(form);
      request := BeginSubmit(donation, mode);
    }
  }
}
