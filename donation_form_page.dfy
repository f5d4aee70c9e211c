/** The three-step donation page (src/pages/DonationFormPage.tsx): the
    form state, the stepper with its claimed-donation warning, the step
    checks, the edit prefill and the submit request. The page is a class
    whose fields are the component's `useState` variables; each handler is
    a method, and each button a method whose precondition is the button's
    enabled condition. */
module DonationFormPage {
  import opened Common
  import opened Types
  import opened Forms

  /** The fields of `formData`. */
  datatype Field = Title | Description | Quantity | Location | FoodType | ExpiryDate

  /** `formData`: six strings. */
  datatype FormData = FormData(
    title: string,
    description: string,
    quantity: string,
    location: string,
    foodType: string,
    expiryDate: string
  ) {
    function Get(f: Field): string {
      match f
      case Title => title
      case Description => description
      case Quantity => quantity
      case Location => location
      case FoodType => foodType
      case ExpiryDate => expiryDate
    }

    /** `{ ...prev, [field]: value }` */
    function With(f: Field, v: string): (r: FormData)
      ensures r.Get(f) == v
      ensures forall g :: g != f ==> r.Get(g) == Get(g)
    {
      match f
      case Title => this.(title := v)
      case Description => this.(description := v)
      case Quantity => this.(quantity := v)
      case Location => this.(location := v)
      case FoodType => this.(foodType := v)
      case ExpiryDate => this.(expiryDate := v)
    }
  }

  const EmptyForm: FormData := FormData("", "", "", "", "", "")

  /** `steps.length - 1`: the review step, where Submit replaces Next. */
  const LastStep: int := 2

  /** The step whose content holds the field's input; the page has no
      input for the food type or the expiry date. */
  function StepOf(f: Field): Option<int> {
    match f
    case Title => Some(0)
    case Description => Some(0)
    case Quantity => Some(1)
    case Location => Some(1)
    case FoodType => None
    case ExpiryDate => None
  }

  /** `isStepValid(step)` */
  predicate IsStepValid(form: FormData, step: int) {
    if step == 0 then NonBlank(form.title) && NonBlank(form.description)
    else if step == 1 then QuantityValid(form.quantity) && NonBlank(form.location)
    else true
  }

  /** A step's check reads only the fields of that step: changing a field
      shown on another step leaves it as it was. */
  lemma StepValidReadsOwnFields(form: FormData, f: Field, v: string, step: int)
    requires StepOf(f) != Some(step)
    ensures IsStepValid(form.With(f, v), step) == IsStepValid(form, step)
  {
    var r := form.With(f, v);
    if step == 0 {
      assert r.title == r.Get(Title) == form.Get(Title);
      assert r.description == r.Get(Description) == form.Get(Description);
    } else if step == 1 {
      assert r.quantity == r.Get(Quantity) == form.Get(Quantity);
      assert r.location == r.Get(Location) == form.Get(Location);
    }
  }

  /** `Boolean(id)`: the route has a non-empty id. */
  predicate EditMode(id: Option<string>) {
    id.Some? && id.value != []
  }

  /** The prefill of `fetchDonation`: the text fields as they are, the
      quantity as its decimal text, a missing food type or expiry date as
      `''`. */
  function Prefill(d: Donation): FormData {
    FormData(d.title, d.description, IntToString(d.quantity), d.location,
             d.foodType.GetOr(""), d.expiryDate.GetOr(""))
  }

  /** The body `handleSubmit` sends: the form with `quantity` replaced by
      `parseInt(quantity)`. */
  function PayloadOf(form: FormData): Payload {
    Payload(form.title, form.description, ParseInt(form.quantity), form.location,
            Some(form.foodType), Some(form.expiryDate))
  }

  /** Saving a prefilled form unchanged sends the donation's own values
      back: the quantity text parses to the quantity it was written from. */
  lemma PrefillRoundTrip(d: Donation)
    ensures PayloadOf(Prefill(d)) == Payload(d.title, d.description, Some(d.quantity), d.location,
                                             Some(d.foodType.GetOr("")), Some(d.expiryDate.GetOr("")))
  {
    ParseIntToString(d.quantity);
  }

  /** A donation the server would accept: what steps 0 and 1 check. */
  predicate Acceptable(d: Donation) {
    NonBlank(d.title) && NonBlank(d.description) && d.quantity > 0 && NonBlank(d.location)
  }

  /** Prefilling from an acceptable donation passes every step check. */
  lemma PrefillValid(d: Donation, step: int)
    requires Acceptable(d)
    ensures IsStepValid(Prefill(d), step)
  {
    PositiveQuantityText(d.quantity);
  }

  /** A form that passes step 1 sends a positive quantity. */
  lemma StepOneQuantity(form: FormData)
    requires IsStepValid(form, 1)
    ensures PayloadOf(form).quantity.Some? && PayloadOf(form).quantity.value > 0
  {
  }

  /** The server's answer to a save: success, or an error whose response
      holds field errors (`None` when there is no response). */
  datatype Outcome = Saved | Rejected(response: Option<FieldErrors>)

  const LoadFailed: string := "Failed to load donation details"
  const Updated: string := "Donation updated successfully!"
  const Created: string := "Donation created successfully!"

  /** The page's state, as one value. */
  datatype PageState = PageState(
    activeStep: int,
    showClaimedWarning: bool,
    form: FormData,
    donationDetails: Option<Donation>,
    loading: bool,
    error: string,
    successOpen: bool,
    successMessage: string
  )

  class FormPage {
    /** The `:id` route parameter. */
    const id: Option<string>
    var activeStep: int
    var showClaimedWarning: bool
    var form: FormData
    var donationDetails: Option<Donation>
    var loading: bool
    var error: string
    var successOpen: bool
    var successMessage: string

    function State(): PageState
      reads this
    {
      PageState(activeStep, showClaimedWarning, form, donationDetails, loading, error,
                successOpen, successMessage)
    }

    /** The stepper stays on its three steps, and the warning is only open
        on the first. */
    ghost predicate Valid()
      reads this
    {
      0 <= activeStep <= LastStep && (showClaimedWarning ==> activeStep == 0)
    }

    /** Every step behind the active one passes its check, and the warning
        opens only over a valid first step. */
    ghost predicate Passed()
      reads this
    {
      (activeStep >= 1 ==> IsStepValid(form, 0))
      && (activeStep >= 2 ==> IsStepValid(form, 1))
      && (showClaimedWarning ==> IsStepValid(form, 0))
    }

    predicate IsEditMode()
      reads this
    {
      EditMode(id)
    }

    /** `handleNext` opens the warning instead of advancing. */
    predicate Gated()
      reads this
    {
      IsEditMode() && donationDetails.Some? && donationDetails.value.isClaimed && activeStep == 0
    }

    /** The Next button is shown (not on the review step) and enabled (the
        step is valid), and the modal warning is not covering it. */
    predicate NextEnabled()
      reads this
    {
      activeStep != LastStep && IsStepValid(form, activeStep) && !showClaimedWarning
    }

    /** The Back button is enabled and not covered by the warning. */
    predicate BackEnabled()
      reads this
    {
      activeStep != 0 && !showClaimedWarning
    }

    /** The Submit button is shown (on the review step) and enabled. */
    predicate SubmitEnabled()
      reads this
    {
      activeStep == LastStep && !loading && IsStepValid(form, activeStep) && !showClaimedWarning
    }

    constructor(routeId: Option<string>)
      ensures id == routeId
      ensures State() == PageState(0, false, EmptyForm, None, false, "", false, "")
      ensures Valid() && Passed()
    {
      id := routeId;
      activeStep := 0;
      showClaimedWarning := false;
      form := EmptyForm;
      donationDetails := None;
      loading := false;
      error := "";
      successOpen := false;
      successMessage := "";
    }

    /** `handleNext` */
    method HandleNext()
      modifies this
      ensures old(Gated()) ==> State() == old(State()).(showClaimedWarning := true)
      ensures !old(Gated()) ==> State() == old(State()).(activeStep := old(activeStep) + 1)
    {
      if IsEditMode() && donationDetails.Some? && donationDetails.value.isClaimed && activeStep == 0 {
        showClaimedWarning := true;
        return;
      }
      activeStep := activeStep + 1;
    }

    /** `handleBack` */
    method HandleBack()
      modifies this
      ensures State() == old(State()).(activeStep := old(activeStep) - 1)
    {
      activeStep := activeStep - 1;
    }

    /** `handleProceedWithEdit` */
    method HandleProceedWithEdit()
      modifies this
      ensures State() == old(State()).(showClaimedWarning := false, activeStep := old(activeStep) + 1)
    {
      showClaimedWarning := false;
      activeStep := activeStep + 1;
    }

    /** The dialog's Cancel button. */
    method HandleCancelWarning()
      modifies this
      ensures State() == old(State()).(showClaimedWarning := false)
    {
      showClaimedWarning := false;
    }

    /** `handleChange(field)` with the input's new value. */
    method HandleChange(f: Field, value: string)
      modifies this
      ensures State() == old(State()).(form := old(form).With(f, value))
    {
      form := form.With(f, value);
    }

    /** Pressing Next: the first step of a claimed donation in edit mode
        opens the warning and stays; any other step advances by one. */
    method PressNext()
      requires Valid() && Passed() && NextEnabled()
      modifies this
      ensures Valid() && Passed()
      ensures old(Gated()) ==> showClaimedWarning && activeStep == 0
      ensures !old(Gated()) ==> activeStep == old(activeStep) + 1
      ensures form == old(form)
    {
      HandleNext();
    }

    /** Pressing Back: one step back, never below the first. */
    method PressBack()
      requires Valid() && Passed() && BackEnabled()
      modifies this
      ensures Valid() && Passed()
      ensures activeStep == old(activeStep) - 1 && form == old(form)
    {
      HandleBack();
    }

    /** Proceeding from the warning: it closes and the stepper moves to
        the second step. */
    method PressProceed()
      requires Valid() && Passed() && showClaimedWarning
      modifies this
      ensures Valid() && Passed()
      ensures !showClaimedWarning && activeStep == 1 && form == old(form)
    {
      HandleProceedWithEdit();
    }

    /** Cancelling the warning: it closes and the stepper stays. */
    method PressCancel()
      requires Valid() && Passed() && showClaimedWarning
      modifies this
      ensures Valid() && Passed()
      ensures !showClaimedWarning && activeStep == 0 && form == old(form)
    {
      HandleCancelWarning();
    }

    /** Typing into an input: only the inputs of the active step are
        shown, and none while the warning covers the page. */
    method TypeInto(f: Field, value: string)
      requires Valid() && Passed() && StepOf(f) == Some(activeStep) && !showClaimedWarning
      modifies this
      ensures Valid() && Passed()
      ensures form == old(form).With(f, value) && activeStep == old(activeStep)
    {
      if activeStep == 1 {
        StepValidReadsOwnFields(form, f, value, 0);
      }
      HandleChange(f, value);
    }

    /** `fetchDonation`, given the answer of the GET request (`None` when
        it fails): the details are stored and the form prefilled, or the
        load error is shown. */
    method FetchDonation(answer: Option<Donation>)
      modifies this
      ensures answer.Some? ==>
        State() == old(State()).(donationDetails := answer, form := Prefill(answer.value))
      ensures answer.None? ==> State() == old(State()).(error := LoadFailed)
      ensures old(Valid()) ==> Valid()
      ensures old(Passed()) && (answer.Some? ==> Acceptable(answer.value)) ==> Passed()
    {
      match answer {
        case Some(d) =>
          donationDetails := Some(d);
          form := Prefill(d);
          if Acceptable(d) {
            PrefillValid(d, 0);
            PrefillValid(d, 1);
          }
        case None =>
          error := LoadFailed;
      }
    }

    /** The request `handleSubmit` sends for the current form: a PUT to
        the donation's path in edit mode, a POST to the collection
        otherwise. */
    function SubmitRequest(): (r: Request)
      reads this
      ensures r.payload == PayloadOf(form)
      ensures IsEditMode() ==> r.verb == Put && r.path == DonationPath(id.value)
      ensures !IsEditMode() ==> r.verb == Post && r.path == DonationsPath
    {
      if IsEditMode() then Request(Put, DonationPath(id.value), PayloadOf(form))
      else Request(Post, DonationsPath, PayloadOf(form))
    }

    /** The start of `handleSubmit`: loading on, error cleared, the request
        sent. */
    method BeginSubmit() returns (request: Request)
      modifies this
      ensures request == old(SubmitRequest())
      ensures State() == old(State()).(loading := true, error := "")
    {
      request := SubmitRequest();
      loading := true;
      error := "";
    }

    /** The end of `handleSubmit`, given the server's outcome. */
    method FinishSubmit(outcome: Outcome)
      modifies this
      ensures outcome.Saved? ==>
        State() == old(State()).(loading := false,
                                 successMessage := if IsEditMode() then Updated else Created,
                                 successOpen := true)
      ensures outcome.Rejected? ==>
        State() == old(State()).(loading := false, error := ErrorMessage(outcome.response, SaveFailed))
    {
      match outcome {
        case Saved =>
          if IsEditMode() {
            successMessage := Updated;
          } else {
            successMessage := Created;
          }
          successOpen := true;
        case Rejected(response) =>
          error := ErrorMessage(response, SaveFailed);
      }
      loading := false;
    }

    /** Pressing Submit: the request carries a non-blank title,
        description and location and a positive quantity, because the
        stepper only reaches the review step through valid steps. */
    method PressSubmit() returns (request: Request)
      requires Valid() && Passed() && SubmitEnabled()
      modifies this
      ensures Valid() && Passed() && loading && error == []
      ensures request == old(SubmitRequest())
      ensures NonBlank(request.payload.title) && NonBlank(request.payload.description)
        && NonBlank(request.payload.location)
      ensures request.payload.quantity.Some? && request.payload.quantity.value > 0
    {
      StepOneQuantity(form);
      request := BeginSubmit();
    }
  }
}
