/** What the two donation forms (src/pages/DonationFormPage.tsx and
    src/components/DonationForm.tsx) share: the text checks of their
    validation, the quantity conversion of the payload, the requests they
    send and the message they show when the server rejects a donation. */
module Forms {
  import opened Common

  // ---------------------------------------------------------------------
  // Validation
  // ---------------------------------------------------------------------

  /** `s.trim() !== ''` */
  predicate NonBlank(s: string) {
    Trim(s) != []
  }

  /** `quantity.trim() !== '' && parseInt(quantity) > 0` */
  predicate QuantityValid(q: string) {
    NonBlank(q) && ParsesPositive(q)
  }

  /** A quantity that parses to a positive number is never blank, so the
      trim test adds nothing to the `parseInt` test. */
  lemma PositiveIsNonBlank(q: string)
    requires ParsesPositive(q)
    ensures NonBlank(q)
  {
    var t := TrimStart(q);
    var body := if t != [] && (t[0] == '-' || t[0] == '+') then t[1..] else t;
    var run := DigitRun(body);
    assert run != [];
    assert t != [];
    assert !IsWhitespace(t[0]);
    assert t[0] == q[|q| - |t|];
    TrimEmptyIff(q);
  }

  /** The text `toString` writes for a positive quantity is valid. */
  lemma PositiveQuantityText(n: int)
    requires n > 0
    ensures QuantityValid(IntToString(n))
  {
    ParseIntToString(n);
    PositiveIsNonBlank(IntToString(n));
  }

  /** The quantity check reads a leading number: `"12 boxes"` is
      accepted. */
  lemma QuantityAcceptsLeadingNumber()
    ensures QuantityValid("12 boxes")
  {
    var q := "12 boxes";
    assert !IsWhitespace(q[0]);
    assert TrimStart(q) == q;
    assert q[1..] == "2 boxes" && q[1..][1..] == " boxes";
    assert DigitRun(" boxes") == [];
    assert DigitRun(q) == "12";
    PositiveIsNonBlank(q);
  }

  /** Zero is not a positive quantity. */
  lemma QuantityRejectsZero()
    ensures !QuantityValid("0")
  {
    assert TrimStart("0") == "0";
    assert DigitRun("0") == "0";
  }

  /** A negative number is not a positive quantity. */
  lemma QuantityRejectsNegative()
    ensures !QuantityValid("-2")
  {
    assert TrimStart("-2") == "-2";
    assert "-2"[1..] == "2" && DigitRun("2") == "2";
  }

  /** Text without a leading number is rejected. */
  lemma QuantityRejectsWords()
    ensures !QuantityValid("boxes")
  {
    var q := "boxes";
    assert q[0] == 'b' && !IsWhitespace(q[0]) && !IsDigit(q[0]);
    assert TrimStart(q) == q;
    assert DigitRun(q) == [];
    assert ParseInt(q) == None;
  }

  // ---------------------------------------------------------------------
  // Requests
  // ---------------------------------------------------------------------

  datatype Verb = Post | Put

  /** The body sent: the form's text fields, with `quantity` replaced by
      `parseInt(quantity)` (`None` for `NaN`, which is sent as `null`);
      `foodType` and `expiryDate` are `None` when the form has no such
      field. */
  datatype Payload = Payload(
    title: string,
    description: string,
    quantity: Option<int>,
    location: string,
    foodType: Option<string>,
    expiryDate: Option<string>
  )

  datatype Request = Request(verb: Verb, path: string, payload: Payload)

  const DonationsPath: string := "/donations/"

  /** `/donations/${id}/` */
  function DonationPath(id: string): (p: string)
    ensures p == DonationsPath + id + "/"
    ensures |p| == |id| + 12
  {
    DonationsPath + id + "/"
  }

  /** The id in a donation path is recoverable, so distinct ids give
      distinct paths. */
  lemma DonationPathInjective(a: string, b: string)
    requires DonationPath(a) == DonationPath(b)
    ensures a == b
  {
    assert a == DonationPath(a)[11..|DonationPath(a)| - 1];
    assert b == DonationPath(b)[11..|DonationPath(b)| - 1];
  }

  // ---------------------------------------------------------------------
  // The error message
  // ---------------------------------------------------------------------

  /** The field errors of a rejected request (`err.response.data`): each
      field's list of messages, empty when the field is absent. */
  datatype FieldErrors = FieldErrors(
    title: seq<string>,
    description: seq<string>,
    quantity: seq<string>,
    location: seq<string>
  )

  /** `xs?.[0]` read as a truthy string. */
  function FirstMessage(xs: seq<string>): (m: Option<string>)
    ensures m.Some? <==> |xs| > 0 && xs[0] != []
    ensures m.Some? ==> m.value == xs[0] && m.value != []
  {
    if |xs| > 0 && xs[0] != [] then Some(xs[0]) else None
  }

  /** `a || b` on optional strings. */
  function OrElse(a: Option<string>, b: string): string {
    if a.Some? then a.value else b
  }

  /** The `||` chain over `title`, `description`, `quantity` and
      `location`, then `fallback`; `response` is `None` when the error
      carries no response (a network failure). */
  function ErrorMessage(response: Option<FieldErrors>, fallback: string): string {
    match response
    case None => fallback
    case Some(e) =>
      OrElse(FirstMessage(e.title),
        OrElse(FirstMessage(e.description),
          OrElse(FirstMessage(e.quantity),
            OrElse(FirstMessage(e.location), fallback))))
  }

  /** The message is the first message of the first field, in the order
      title, description, quantity, location, that has one; the fallback
      when none has. */
  lemma ErrorPriority(e: FieldErrors, fallback: string)
    ensures FirstMessage(e.title).Some? ==> ErrorMessage(Some(e), fallback) == e.title[0]
    ensures FirstMessage(e.title).None? && FirstMessage(e.description).Some? ==>
      ErrorMessage(Some(e), fallback) == e.description[0]
    ensures FirstMessage(e.title).None? && FirstMessage(e.description).None? && FirstMessage(e.quantity).Some? ==>
      ErrorMessage(Some(e), fallback) == e.quantity[0]
    ensures (FirstMessage(e.title).None? && FirstMessage(e.description).None? && FirstMessage(e.quantity).None?
      && FirstMessage(e.location).Some?) ==>
      ErrorMessage(Some(e), fallback) == e.location[0]
    ensures (FirstMessage(e.title).None? && FirstMessage(e.description).None? && FirstMessage(e.quantity).None?
      && FirstMessage(e.location).None?) ==>
      ErrorMessage(Some(e), fallback) == fallback
  {
  }

  /** The message is never empty when the fallback is not: an empty first
      message falls through to the next field. */
  lemma ErrorMessageNonEmpty(response: Option<FieldErrors>, fallback: string)
    requires fallback != []
    ensures ErrorMessage(response, fallback) != []
    ensures response.None? ==> ErrorMessage(response, fallback) == fallback
  {
  }

  /** The message is one of the four first messages or the fallback. */
  lemma ErrorMessageSource(e: FieldErrors, fallback: string)
    ensures var m := ErrorMessage(Some(e), fallback);
      m == fallback
      || (|e.title| > 0 && m == e.title[0])
      || (|e.description| > 0 && m == e.description[0])
      || (|e.quantity| > 0 && m == e.quantity[0])
      || (|e.location| > 0 && m == e.location[0])
  {
  }

  const SaveFailed: string := "Failed to save donation. Please try again."
}
