/**
 * The add/edit form (src/components/ClientForm.tsx): the values it starts
 * from, the three date pickers it keeps as state, and the record it hands
 * on when submitted.
 */
module ClientForm {
  import opened Basics
  import opened Schema

  /** The registered inputs of the form (the dates are pickers, not inputs). */
  datatype FormValues = FormValues(
    clientName: string,
    email: string,
    phoneNumber: string,
    billingAddress: string,
    reviewsOrdered: int,
    amountPaidOnCall: string,
    nextMonthAgreedPayment: string,
    notes: string)

  /** `s || fallback` for a string that may be null. */
  function OrText(s: Option<string>, fallback: string): (r: string)
    ensures s.Some? && s.value != "" ==> r == s.value
    ensures s.None? || s.value == "" ==> r == fallback
  {
    if s.Some? && s.value != "" then s.value else fallback
  }

  /**
   * `defaultValues`: each field of the client being edited, or the blank
   * form's value when there is no client or the field is null or empty
   * ("" for text, 0 reviews, "0.00" for both amounts).
   */
  function Defaults(client: Option<Client>): (v: FormValues)
    ensures client.None? ==> v == FormValues("", "", "", "", DefaultReviews, DefaultAmount, DefaultAmount, "")
    ensures client.Some? ==> (
      && v.clientName == client.value.clientName
      && v.email == client.value.email
      && v.phoneNumber == client.value.phoneNumber
      && v.billingAddress == client.value.billingAddress
      && v.reviewsOrdered == (if client.value.reviewsOrdered.Some? then client.value.reviewsOrdered.value else 0)
      && v.amountPaidOnCall == (if client.value.amountPaidOnCall.Some? then client.value.amountPaidOnCall.value else DefaultAmount)
      && v.nextMonthAgreedPayment == (if client.value.nextMonthAgreedPayment.Some? then client.value.nextMonthAgreedPayment.value else DefaultAmount)
      && v.notes == (if client.value.notes.Some? then client.value.notes.value else ""))
  {
    if client.None? then
      FormValues("", "", "", "", DefaultReviews, DefaultAmount, DefaultAmount, "")
    else
      var c := client.value;
      FormValues(
        OrText(Some(c.clientName), ""), OrText(Some(c.email), ""),
        OrText(Some(c.phoneNumber), ""), OrText(Some(c.billingAddress), ""),
        if c.reviewsOrdered.Some? && c.reviewsOrdered.value != 0 then c.reviewsOrdered.value else DefaultReviews,
        OrText(if c.amountPaidOnCall.Some? then Some(c.amountPaidOnCall.value) else None, DefaultAmount),
        OrText(if c.nextMonthAgreedPayment.Some? then Some(c.nextMonthAgreedPayment.value) else None, DefaultAmount),
        OrText(c.notes, ""))
  }

  /**
   * What the schema resolver is given: every registered input, and no
   * date keys at all (the pickers are not registered with the form).
   */
  function Draft(v: FormValues): (d: InsertDraft)
    ensures d.testAdCallDate.Omitted? && d.dateOfNextContact.Omitted? && d.dateCommissionsDue.Omitted?
    ensures d.reviewsOrdered == Given(Some(v.reviewsOrdered)) && d.notes == Given(Some(v.notes))
    ensures d.amountPaidOnCall == v.amountPaidOnCall && d.nextMonthAgreedPayment == v.nextMonthAgreedPayment
  {
    InsertDraft(v.clientName, v.email, v.phoneNumber, v.billingAddress, Omitted,
                Given(Some(v.reviewsOrdered)), v.amountPaidOnCall, v.nextMonthAgreedPayment,
                Omitted, Omitted, Given(Some(v.notes)))
  }

  /**
   * `handleSubmit`'s record: the validated data with the three date keys
   * set from the pickers. An unset picker still sets its key, to
   * `undefined`.
   */
  function WithPickerDates(data: InsertClient, testAd: Option<Millis>, nextContact: Option<Millis>,
                           commissions: Option<Millis>): (r: InsertClient)
    ensures r.testAdCallDate == Given(testAd) && r.dateOfNextContact == Given(nextContact)
    ensures r.dateCommissionsDue == Given(commissions)
    ensures r.(testAdCallDate := data.testAdCallDate, dateOfNextContact := data.dateOfNextContact,
               dateCommissionsDue := data.dateCommissionsDue) == data
  {
    data.(testAdCallDate := Given(testAd), dateOfNextContact := Given(nextContact),
          dateCommissionsDue := Given(commissions))
  }

  /**
   * What saving the form yields: the schema's errors, or the validated data
   * with the picker dates.
   */
  function SubmitResult(values: FormValues, testAd: Option<Millis>, nextContact: Option<Millis>,
                        commissions: Option<Millis>): (r: Result<InsertClient, seq<FieldError>>)
    ensures r.Ok? <==> AmountValid(values.amountPaidOnCall) && AmountValid(values.nextMonthAgreedPayment)
    ensures r.Ok? ==> (
      && r.value.clientName == values.clientName && r.value.email == values.email
      && r.value.phoneNumber == values.phoneNumber && r.value.billingAddress == values.billingAddress
      && r.value.reviewsOrdered == Given(Some(values.reviewsOrdered))
      && r.value.amountPaidOnCall == values.amountPaidOnCall
      && r.value.nextMonthAgreedPayment == values.nextMonthAgreedPayment
      && r.value.notes == Given(Some(values.notes))
      && r.value.testAdCallDate == Given(testAd) && r.value.dateOfNextContact == Given(nextContact)
      && r.value.dateCommissionsDue == Given(commissions))
    ensures r.Err? ==> r == ParseInsert(Draft(values))
  {
    var parsed := ParseInsert(Draft(values));
    if parsed.Err? then parsed
    else Ok(WithPickerDates(parsed.value, testAd, nextContact, commissions))
  }

  /** The form never starts out invalid: its defaults always pass the schema. */
  lemma DefaultsValidate(client: Option<Client>)
    ensures ParseInsert(Draft(Defaults(client))).Ok?
  {
    DefaultAmountIsZero();
  }

  /**
   * The form's state: the values it started from and the three picker
   * dates. The typed-in values live in the form library and are passed to
   * `Submit`.
   */
  class Form {
    var defaults: FormValues
    var testAdCallDate: Option<Millis>
    var dateOfNextContact: Option<Millis>
    var dateCommissionsDue: Option<Millis>

    /** Opening the form for `client` (or for a new client). Each picker starts at the client's date, if any. */
    constructor(client: Option<Client>)
      ensures defaults == Defaults(client)
      ensures testAdCallDate == (if client.Some? then client.value.testAdCallDate else None)
      ensures dateOfNextContact == (if client.Some? then client.value.dateOfNextContact else None)
      ensures dateCommissionsDue == (if client.Some? then client.value.dateCommissionsDue else None)
    {
      defaults := Defaults(client);
      testAdCallDate := if client.Some? then client.value.testAdCallDate else None;
      dateOfNextContact := if client.Some? then client.value.dateOfNextContact else None;
      dateCommissionsDue := if client.Some? then client.value.dateCommissionsDue else None;
    }

    /** The test-ad-call picker's `onSelect`: it changes that date and nothing else. */
    method SetTestAdCallDate(d: Option<Millis>)
      modifies this
      ensures testAdCallDate == d
      ensures dateOfNextContact == old(dateOfNextContact) && dateCommissionsDue == old(dateCommissionsDue)
      ensures defaults == old(defaults)
    {
      testAdCallDate := d;
    }

    /** The next-contact picker's `onSelect`. */
    method SetDateOfNextContact(d: Option<Millis>)
      modifies this
      ensures dateOfNextContact == d
      ensures testAdCallDate == old(testAdCallDate) && dateCommissionsDue == old(dateCommissionsDue)
      ensures defaults == old(defaults)
    {
      dateOfNextContact := d;
    }

    /** The commission-date picker's `onSelect`. */
    method SetDateCommissionsDue(d: Option<Millis>)
      modifies this
      ensures dateCommissionsDue == d
      ensures testAdCallDate == old(testAdCallDate) && dateOfNextContact == old(dateOfNextContact)
      ensures defaults == old(defaults)
    {
      dateCommissionsDue := d;
    }

    /**
     * Saving: the schema resolver checks the typed-in values; when they
     * fail, the errors come back and nothing is submitted; when they pass,
     * the validated data with the picker dates is what `onSubmit` receives.
     */
    method Submit(values: FormValues) returns (r: Result<InsertClient, seq<FieldError>>)
      ensures r.Ok? <==> AmountValid(values.amountPaidOnCall) && AmountValid(values.nextMonthAgreedPayment)
      ensures r.Ok? ==> (
        && r.value.clientName == values.clientName && r.value.email == values.email
        && r.value.phoneNumber == values.phoneNumber && r.value.billingAddress == values.billingAddress
        && r.value.reviewsOrdered == Given(Some(values.reviewsOrdered))
        && r.value.amountPaidOnCall == values.amountPaidOnCall
        && r.value.nextMonthAgreedPayment == values.nextMonthAgreedPayment
        && r.value.notes == Given(Some(values.notes))
        && r.value.testAdCallDate == Given(testAdCallDate)
        && r.value.dateOfNextContact == Given(dateOfNextContact)
        && r.value.dateCommissionsDue == Given(dateCommissionsDue))
      ensures r.Err? ==> r == ParseInsert(Draft(values))
      ensures r == SubmitResult(values, testAdCallDate, dateOfNextContact, dateCommissionsDue)
    {
      var parsed := ParseInsert(Draft(values));
      if parsed.Err? {
        return parsed;
      }
      r := Ok(WithPickerDates(parsed.value, testAdCallDate, dateOfNextContact, dateCommissionsDue));
    }
  }
}
