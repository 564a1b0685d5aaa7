/**
 * The form component: one field per form value, one per error slot, the summary and the
 * lookup link. The click handler, the validation-and-summary handler, the phone field's
 * change handling with its normalising effect, and the QR switch are methods on it.
 */
module AppComponent {
  import opened Wrappers
  import opened Text
  import Phone
  import Uri
  import opened Submission

  class App {
    var customerName: string
    var customerType: string
    var phoneNumber: string
    var memberNumber: string
    var temporaryAssessment: string
    var contactMethod: string
    var itemCount: string
    var inputSummary: string
    var emailOrPhone: string
    var customerLink: Option<string>
    var qrChecked: bool
    var phoneNumberError: string
    var emailError: string
    var contactMethodError: string
    var customerNameError: string
    var customerTypeError: string
    var temporaryAssessmentError: string
    var itemCountError: string

    /** The form's values as one record. */
    function Values(): Form
      reads this
    {
      Form(customerName, customerType, phoneNumber, memberNumber, temporaryAssessment,
           contactMethod, itemCount, emailOrPhone)
    }

    /** The error slots as one record. */
    function Errors(): ErrorSlots
      reads this
    {
      ErrorSlots(contactMethodError, emailError, phoneNumberError, customerNameError,
                 customerTypeError, temporaryAssessmentError, itemCountError)
    }

    /** The phone field holds a value its effect no longer changes. */
    predicate PhoneSettled()
      reads this
    {
      Phone.Normalize(phoneNumber) == phoneNumber
    }

    /** The initial state: every field empty except the item count, which starts at the
        placeholder "0"; no link, QR switch off, no error. */
    constructor ()
      ensures Values() == Form("", "", "", "", "", "", "0", "")
      ensures inputSummary == "" && customerLink == None && !qrChecked
      ensures Errors() == ErrorSlots("", "", "", "", "", "", "")
      ensures PhoneSettled()
    {
      customerName, customerType, phoneNumber, memberNumber := "", "", "", "";
      temporaryAssessment, contactMethod, itemCount := "", "", "0";
      inputSummary, emailOrPhone, customerLink, qrChecked := "", "", None, false;
      phoneNumberError, emailError, contactMethodError := "", "", "";
      customerNameError, customerTypeError, temporaryAssessmentError, itemCountError := "", "", "", "";
    }

    /** The phone field's change handler stores `v`; the effect then runs after each
        change of the field and stores the normalised value back, until a run leaves the
        value as it is. Returns how many times the effect ran. */
    method ChangePhoneNumber(v: string) returns (effectRuns: nat)
      modifies this`phoneNumber
      ensures phoneNumber == Phone.Normalize(v)
      ensures PhoneSettled()
      ensures 1 <= effectRuns <= 2
      ensures effectRuns == 1 <==> Phone.IsNormal(v)
    {
      phoneNumber := v;
      var cleaned := Phone.Normalize(phoneNumber);
      effectRuns := 1;
      while cleaned != phoneNumber
        invariant cleaned == Phone.Normalize(phoneNumber)
        invariant phoneNumber == v || phoneNumber == Phone.Normalize(v)
        invariant effectRuns == if phoneNumber == v then 1 else 2
        decreases if phoneNumber == v then 1 else 0
      {
        Phone.NormalizeIdempotent(v);
        phoneNumber := cleaned;
        cleaned := Phone.Normalize(phoneNumber);
        effectRuns := effectRuns + 1;
      }
      Phone.NormalizeIdempotent(v);
      Phone.NormalFixedPoint(v);
    }

    /** The QR switch's change handler. */
    method HandleQrCheck(checked: bool)
      modifies this`qrChecked
      ensures qrChecked == checked
    {
      qrChecked := checked;
    }

    /** The rule section of the handler, lines for lines: every rule is evaluated in
        turn, each setting its own slot to its message or clearing it, and `hasError`
        records whether any rule fired. `form` is the render's snapshot of the values,
        which is what the handler reads while its slot updates are pending. */
    method RunRules(form: Form) returns (hasError: bool)
      modifies this`contactMethodError, this`emailError, this`phoneNumberError,
               this`customerNameError, this`customerTypeError,
               this`temporaryAssessmentError, this`itemCountError
      ensures Errors() == Validate(form)
      ensures hasError <==> !Errors().NoErrors()
    {
      hasError := false;

      if form.temporaryAssessment == "yes" && form.contactMethod == "" {
        contactMethodError := ContactMethodMessage;
        hasError := true;
      } else {
        contactMethodError := "";
      }

      if form.temporaryAssessment == "yes" && form.contactMethod == "email" && Trim(form.emailOrPhone) == [] {
        emailError := EmailMessage;
        hasError := true;
      } else {
        emailError := "";
      }

      if form.customerType == "existing" && Trim(form.phoneNumber) == [] {
        phoneNumberError := PhoneExistingMessage;
        hasError := true;
      } else if form.temporaryAssessment == "yes" && form.contactMethod == "phone" && Trim(form.phoneNumber) == [] {
        phoneNumberError := PhoneContactMessage;
        hasError := true;
      } else {
        phoneNumberError := "";
      }

      if Trim(form.customerName) == [] {
        customerNameError := CustomerNameMessage;
        hasError := true;
      } else {
        customerNameError := "";
      }

      if form.customerType == "" {
        customerTypeError := CustomerTypeMessage;
        hasError := true;
      } else {
        customerTypeError := "";
      }

      if form.temporaryAssessment == "" {
        temporaryAssessmentError := TemporaryAssessmentMessage;
        hasError := true;
      } else {
        temporaryAssessmentError := "";
      }

      if form.itemCount == "0" {
        itemCountError := ItemCountMessage;
        hasError := true;
      } else {
        itemCountError := "";
      }
    }

    /** The validation-and-summary handler: runs every rule; on any error it stops
        there, otherwise it sets the lookup link and the summary and hands the summary
        to the clipboard (returned as `copied`). */
    method UpdateSummary() returns (copied: Option<string>)
      modifies this`contactMethodError, this`emailError, this`phoneNumberError,
               this`customerNameError, this`customerTypeError,
               this`temporaryAssessmentError, this`itemCountError,
               this`customerLink, this`inputSummary
      ensures Values() == old(Values())
      ensures Errors() == Validate(Values())
      ensures copied.Some? <==> Errors().NoErrors()
      ensures Errors().NoErrors() ==>
        && customerLink == LookupLink(Values())
        && inputSummary == SummaryText(Values())
        && copied == Some(inputSummary)
      ensures !Errors().NoErrors() ==>
        inputSummary == old(inputSummary) && customerLink == old(customerLink)
    {
      var form := Values();
      var hasError := RunRules(form);
      if hasError {
        return None;
      }

      if form.customerType == "existing" && Trim(form.phoneNumber) != [] {
        customerLink := Some(LookupPrefix + Uri.EncodeUriComponent(form.phoneNumber));
      } else {
        customerLink := None;
      }
      assert customerLink == LookupLink(form);

      var summary := SummaryText(form);
      inputSummary := summary;
      copied := Some(summary);
      assert Values() == form;
    }

    /** The button's click handler: with a temporary assessment over LINE and the QR
        switch off the click is refused and nothing changes; otherwise it validates. */
    method HandleButtonClick() returns (copied: Option<string>)
      modifies this`contactMethodError, this`emailError, this`phoneNumberError,
               this`customerNameError, this`customerTypeError,
               this`temporaryAssessmentError, this`itemCountError,
               this`customerLink, this`inputSummary
      ensures SubmitBlocked(old(Values()), old(qrChecked)) ==> unchanged(this) && copied == None
      ensures !SubmitBlocked(old(Values()), old(qrChecked)) ==>
        && Values() == old(Values())
        && Errors() == Validate(Values())
        && (copied.Some? <==> Errors().NoErrors())
        && (Errors().NoErrors() ==>
              customerLink == LookupLink(Values()) && inputSummary == SummaryText(Values())
              && copied == Some(inputSummary))
        && (!Errors().NoErrors() ==>
              inputSummary == old(inputSummary) && customerLink == old(customerLink))
    {
      if temporaryAssessment == "yes" && contactMethod == "LINE" && !qrChecked {
        copied := None;
      } else {
        copied := UpdateSummary();
      }
    }

    /** The button is disabled under the same condition that makes a click do nothing. */
    predicate ButtonDisabled()
      reads this
    {
      temporaryAssessment == "yes" && contactMethod == "LINE" && !qrChecked
    }
  }
}
