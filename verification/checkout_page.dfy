/**
 * The checkout page (bookit-frontend/src/pages/CheckoutPages.tsx): the visitor's
 * details, the terms checkbox, the promo preview through POST /promo/validate,
 * and the request it sends to POST /bookings.
 */
module CheckoutPage {
  import opened Wrappers
  import opened Text
  import opened Forms
  import opened Catalog
  import opened Promo
  import opened Reservation
  import opened DetailsPage

  /** The keys of the page's error map: the three inputs and the terms checkbox. */
  datatype CheckoutField = UserNameField | UserEmailField | UserPhoneField | TermsField

  datatype CheckoutForm = CheckoutForm(userName: string, userEmail: string, userPhone: string)
  {
    /** `{ ...prev, [name]: value }` for one of the three inputs. */
    function With(field: CheckoutField, value: string): (r: CheckoutForm)
      requires field != TermsField
      ensures field == UserNameField ==> r == this.(userName := value)
      ensures field == UserEmailField ==> r == this.(userEmail := value)
      ensures field == UserPhoneField ==> r == this.(userPhone := value)
    {
      match field
      case UserNameField => this.(userName := value)
      case UserEmailField => this.(userEmail := value)
      case UserPhoneField => this.(userPhone := value)
    }
  }

  /**
   * `validateForm`: an error for a name that is blank or shorter than two
   * characters, for an address the e-mail pattern rejects, and for unaccepted
   * terms; never one for the optional phone number.
   */
  function CheckoutErrors(form: CheckoutForm, termsAccepted: bool): (errors: map<CheckoutField, string>)
    ensures UserNameField in errors <==> !FilledAtLeast(form.userName, 2)
    ensures UserEmailField in errors <==> !ValidEmail(form.userEmail)
    ensures TermsField in errors <==> !termsAccepted
    ensures UserPhoneField !in errors
    ensures UserNameField in errors ==> errors[UserNameField] == "Please enter a valid name"
    ensures UserEmailField in errors ==> errors[UserEmailField] == "Please enter a valid email address"
    ensures TermsField in errors ==> errors[TermsField] == "Please accept the terms and safety policy"
  {
    var e0: map<CheckoutField, string> := map[];
    var e1 := if FilledAtLeast(form.userName, 2) then e0 else e0[UserNameField := "Please enter a valid name"];
    var e2 := if ValidEmail(form.userEmail) then e1 else e1[UserEmailField := "Please enter a valid email address"];
    if termsAccepted then e2 else e2[TermsField := "Please accept the terms and safety policy"]
  }

  /** The form passes exactly when the name is filled, the address has the e-mail shape and the terms are accepted. */
  lemma CheckoutAccepts(form: CheckoutForm, termsAccepted: bool)
    ensures |CheckoutErrors(form, termsAccepted)| == 0 <==>
      FilledAtLeast(form.userName, 2) && EmailShape(form.userEmail) && termsAccepted
  {
    ValidEmailShape(form.userEmail);
    var errors := CheckoutErrors(form, termsAccepted);
    if |errors| != 0 {
      var f :| f in errors;
    }
  }

  /**
   * The body of POST /bookings: the trimmed name, the trimmed lower-cased
   * address, the trimmed phone or none when it is blank, and the upper-cased
   * promo code only when a promo is applied.
   */
  function BookingPayload(handoff: Handoff, form: CheckoutForm, promoCode: string, promoApplied: bool): (p: BookingRequest)
    ensures p.experienceId == handoff.experience.id && p.slotId == handoff.slot.id
    ensures p.numberOfPeople == handoff.numberOfPeople
    ensures p.userName == Trim(form.userName)
    ensures p.userEmail == ToLower(Trim(form.userEmail))
    ensures p.userPhone.None? <==> Trim(form.userPhone) == []
    ensures p.userPhone.Some? ==> p.userPhone.value == Trim(form.userPhone)
    ensures p.promoCode.Some? <==> promoApplied
    ensures p.promoCode.Some? ==> p.promoCode.value == ToUpper(promoCode)
  {
    var phone := Trim(form.userPhone);
    BookingRequest(
      handoff.experience.id, handoff.slot.id,
      Trim(form.userName), ToLower(Trim(form.userEmail)),
      if phone == [] then None else Some(phone),
      handoff.numberOfPeople,
      if promoApplied then Some(ToUpper(promoCode)) else None)
  }

  /**
   * A request built from a form whose name and address pass their rules (as in
   * every form the page accepts) carries a non-blank trimmed name and an address
   * that still has the e-mail shape.
   */
  lemma AcceptedPayloadWellFormed(handoff: Handoff, form: CheckoutForm, promoCode: string, promoApplied: bool)
    requires FilledAtLeast(form.userName, 2) && ValidEmail(form.userEmail)
    ensures var p := BookingPayload(handoff, form, promoCode, promoApplied);
      && p.userName != [] && Trim(p.userName) == p.userName
      && p.userEmail == ToLower(form.userEmail)
      && ValidEmail(p.userEmail) && EmailShape(p.userEmail)
  {
    var p := BookingPayload(handoff, form, promoCode, promoApplied);
    BlankIffAllWhitespace(form.userName);
    assert p.userName != [];
    TrimIdempotent(form.userName);
    NormalizedEmailValid(form.userEmail);
    assert p.userEmail == ToLower(form.userEmail);
    ValidEmailShape(p.userEmail);
  }

  /**
   * The booking applies the very quote the preview showed: for the same ledger
   * and time, the upper-cased code the request carries, priced at the handoff's
   * total (which the details page set to the experience price times the party
   * size, as the server computes it), gets the quote that previewing the typed
   * code gave.
   */
  lemma BookingAppliesPreviewedQuote(promos: Ledger, handoff: Handoff, form: CheckoutForm, promoCode: string, now: int)
    requires Trim(promoCode) != []
    requires Validate(promos, promoCode, handoff.totalPrice, now).Success?
    ensures var p := BookingPayload(handoff, form, promoCode, true);
      AppliedQuote(promos, p.promoCode, handoff.totalPrice, now)
        == Some(Validate(promos, promoCode, handoff.totalPrice, now).value)
  {
    BlankIgnoresCase(promoCode);
    ValidateOfUpper(promos, promoCode, handoff.totalPrice, now);
  }

  /** The line under the promo field. */
  datatype PromoNotice =
    | NoNotice
    | EnterCode                    // "Please enter a promo code"
    | Saved(savings: real)         // "Promo applied! You saved ..."
    | Rejected(reason: Rejection)  // the server's message

  /** The page's state for one handoff from the details page. */
  class CheckoutView {
    const handoff: Handoff
    var form: CheckoutForm
    var termsAccepted: bool
    var errors: map<CheckoutField, string>
    var promoCode: string
    var promoApplied: bool
    var discountAmount: real
    var finalPrice: real
    var promoNotice: PromoNotice
    var promoSuccess: bool

    /** The shown price is the handoff's total less the discount, and there is no discount without an applied promo. */
    predicate Valid()
      reads this
    {
      && finalPrice == handoff.totalPrice - discountAmount
      && (!promoApplied ==> discountAmount == 0.0)
    }

    constructor (handoff: Handoff)
      ensures Valid()
      ensures this.handoff == handoff
      ensures form == CheckoutForm("", "", "") && !termsAccepted && errors == map[]
      ensures promoCode == "" && !promoApplied && discountAmount == 0.0 && finalPrice == handoff.totalPrice
      ensures promoNotice == NoNotice && !promoSuccess
    {
      this.handoff := handoff;
      form := CheckoutForm("", "", "");
      termsAccepted := false;
      errors := map[];
      promoCode := "";
      promoApplied := false;
      discountAmount := 0.0;
      finalPrice := handoff.totalPrice;
      promoNotice := NoNotice;
      promoSuccess := false;
    }

    /** Typing in one of the three inputs: the value is stored and that field's error message emptied. */
    method ChangeField(field: CheckoutField, value: string)
      requires field != TermsField
      modifies this
      ensures form == old(form).With(field, value)
      ensures errors == ClearError(old(errors), field)
      ensures termsAccepted == old(termsAccepted) && promoCode == old(promoCode) && promoApplied == old(promoApplied)
      ensures discountAmount == old(discountAmount) && finalPrice == old(finalPrice)
      ensures promoNotice == old(promoNotice) && promoSuccess == old(promoSuccess)
    {
      form := form.With(field, value);
      if field in errors && errors[field] != "" {
        errors := errors[field := ""];
      }
    }

    /** The terms checkbox: ticking it removes a pending terms error; unticking leaves the errors alone. */
    method SetTerms(checked: bool)
      modifies this
      ensures termsAccepted == checked
      ensures errors == if checked && TermsField in old(errors) && old(errors)[TermsField] != "" then old(errors) - {TermsField} else old(errors)
      ensures form == old(form) && promoCode == old(promoCode) && promoApplied == old(promoApplied)
      ensures discountAmount == old(discountAmount) && finalPrice == old(finalPrice)
      ensures promoNotice == old(promoNotice) && promoSuccess == old(promoSuccess)
    {
      termsAccepted := checked;
      if checked && TermsField in errors && errors[TermsField] != "" {
        errors := errors - {TermsField};
      }
    }

    /** Typing in the promo field, which is disabled while a promo is applied: the text is upper-cased. */
    method EditPromoCode(value: string)
      requires !promoApplied
      modifies this
      ensures promoCode == ToUpper(value)
      ensures form == old(form) && termsAccepted == old(termsAccepted) && errors == old(errors)
      ensures promoApplied == old(promoApplied) && discountAmount == old(discountAmount) && finalPrice == old(finalPrice)
      ensures promoNotice == old(promoNotice) && promoSuccess == old(promoSuccess)
    {
      promoCode := ToUpper(value);
    }

    /**
     * Apply, shown only while no promo is applied: a blank code asks for one;
     * otherwise the server's preview for the handoff's total either applies its
     * discount and final amount or is shown as rejected, leaving the prices.
     */
    method ApplyPromo(promos: Ledger, now: int)
      requires !promoApplied
      modifies this
      ensures Trim(promoCode) == [] ==>
        && promoNotice == EnterCode && !promoSuccess && !promoApplied
        && discountAmount == old(discountAmount) && finalPrice == old(finalPrice)
      ensures Trim(promoCode) != [] ==>
        var v := Validate(promos, promoCode, handoff.totalPrice, now);
        && promoApplied == v.Success? && promoSuccess == v.Success?
        && (v.Success? ==>
              && discountAmount == v.value.discountAmount && finalPrice == v.value.finalAmount
              && promoNotice == Saved(v.value.savings))
        && (v.Failure? ==>
              && discountAmount == old(discountAmount) && finalPrice == old(finalPrice)
              && promoNotice == Rejected(v.error))
      ensures old(Valid()) ==> Valid()
      ensures form == old(form) && termsAccepted == old(termsAccepted) && errors == old(errors)
      ensures promoCode == old(promoCode)
    {
      if Trim(promoCode) == [] {
        promoNotice := EnterCode;
        promoSuccess := false;
        return;
      }
      promoNotice := NoNotice;
      promoSuccess := false;
      ShowPreview(Validate(promos, promoCode, handoff.totalPrice, now));
    }

    /** The server's answer to a preview: a quote is applied, a rejection is shown and the prices stay. */
    method ShowPreview(v: Result<Quote, Rejection>)
      modifies this
      ensures promoApplied == v.Success? && promoSuccess == v.Success?
      ensures v.Success? ==>
        && discountAmount == v.value.discountAmount && finalPrice == v.value.finalAmount
        && promoNotice == Saved(v.value.savings)
      ensures v.Failure? ==>
        && discountAmount == old(discountAmount) && finalPrice == old(finalPrice)
        && promoNotice == Rejected(v.error)
      ensures form == old(form) && termsAccepted == old(termsAccepted) && errors == old(errors)
      ensures promoCode == old(promoCode)
    {
      match v
      case Success(quote) =>
        promoApplied := true;
        discountAmount := quote.discountAmount;
        finalPrice := quote.finalAmount;
        promoNotice := Saved(quote.savings);
        promoSuccess := true;
      case Failure(reason) =>
        promoApplied := false;
        promoSuccess := false;
        promoNotice := Rejected(reason);
    }

    /** Remove: the code, the discount and the notice are cleared and the full price is shown again. */
    method RemovePromo()
      modifies this
      ensures promoCode == "" && !promoApplied && discountAmount == 0.0 && finalPrice == handoff.totalPrice
      ensures promoNotice == NoNotice && !promoSuccess
      ensures Valid()
      ensures form == old(form) && termsAccepted == old(termsAccepted) && errors == old(errors)
    {
      promoCode := "";
      promoApplied := false;
      discountAmount := 0.0;
      finalPrice := handoff.totalPrice;
      promoNotice := NoNotice;
      promoSuccess := false;
    }

    /** Confirm: the form is validated; when it passes, the booking request to send. */
    method Submit() returns (request: Option<BookingRequest>)
      modifies this`errors
      ensures errors == CheckoutErrors(form, termsAccepted)
      ensures request.Some? <==> |errors| == 0
      ensures request.Some? ==> request.value == BookingPayload(handoff, form, promoCode, promoApplied)
    {
      errors := CheckoutErrors(form, termsAccepted);
      if |errors| != 0 {
        return None;
      }
      request := Some(BookingPayload(handoff, form, promoCode, promoApplied));
    }
  }
}
