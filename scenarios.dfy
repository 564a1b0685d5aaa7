/**
 * Concrete submissions worked through the model: the outcomes the form is meant to give
 * for a few typical inputs.
 */
module Scenarios {
  import opened Wrappers
  import opened Text
  import Uri
  import opened Submission
  import opened AppComponent

  /** An existing customer with a plain number gets a lookup link whose keyword is the
      number itself. */
  lemma ExistingCustomerLink(f: Form)
    requires f.customerType == "existing" && f.phoneNumber == "09012345678"
    ensures LookupLink(f) == Some(LookupPrefix + "09012345678")
  {
    Uri.EncodeUnreservedIsIdentity(f.phoneNumber);
    assert !IsBlank(f.phoneNumber) by { assert !IsWhitespace(f.phoneNumber[0]); }
  }

  /** A temporary assessment by email without an address puts the email message in
      the email slot, whatever the other fields hold. */
  lemma MissingEmailAddress(f: Form)
    requires f.temporaryAssessment == "yes" && f.contactMethod == "email" && f.emailOrPhone == ""
    ensures Validate(f).email == EmailMessage
    ensures !Validate(f).NoErrors()
  {
  }

  /** A new customer without a phone number and without a temporary assessment passes
      every rule and gets no lookup link. */
  lemma NewCustomerWithoutAssessment(f: Form)
    requires f.customerName == "Tanaka" && f.customerType == "new" && f.phoneNumber == ""
    requires f.temporaryAssessment == "no" && f.itemCount == "3"
    ensures Validate(f).NoErrors()
    ensures LookupLink(f) == None
  {
    assert !IsBlank(f.customerName) by { assert !IsWhitespace(f.customerName[0]); }
    ValidatePassesIffComplete(f);
  }

  /** The summary of that submission: seven lines, with neither the member line nor the
      contact lines, and the phone line kept although the number is empty. */
  lemma NewCustomerSummary(f: Form)
    requires f.customerName == "Tanaka" && f.customerType == "new" && f.phoneNumber == ""
    requires f.temporaryAssessment == "no" && f.itemCount == "3"
    ensures SummaryText(f) == JoinLines([Header, "顧客名: Tanaka", "顧客タイプ: 新規顧客", "電話番号: ", "仮査定: なし", "商品点数: 3", Trailer])
  {
    var e := SummaryEntries(f);
    assert e[4] == [] && e[6] == [] && e[7] == [];
    assert e[1] != [] && e[2] != [] && e[3] != [] && e[5] != [] && e[8] != [];
    KeepNonEmptyOfNewCustomer(e);
    assert e[1] == "顧客名: Tanaka";
    assert e[2] == "顧客タイプ: 新規顧客";
    assert e[3] == "電話番号: ";
    assert e[5] == "仮査定: なし";
    assert e[8] == "商品点数: 3";
  }

  /** Filtering ten entries whose member, contact-method and email entries are empty
      keeps the other seven, in order. */
  lemma KeepNonEmptyOfNewCustomer(e: seq<string>)
    requires |e| == 10 && e[4] == [] && e[6] == [] && e[7] == []
    requires e[0] != [] && e[1] != [] && e[2] != [] && e[3] != [] && e[5] != [] && e[8] != [] && e[9] != []
    ensures KeepNonEmpty(e) == [e[0], e[1], e[2], e[3], e[5], e[8], e[9]]
  {
    assert e[9..] == [e[9]];
    assert KeepNonEmpty(e[9..]) == [e[9]];
    assert KeepNonEmpty(e[8..]) == [e[8], e[9]];
    assert KeepNonEmpty(e[7..]) == [e[8], e[9]];
    assert KeepNonEmpty(e[6..]) == [e[8], e[9]];
    assert KeepNonEmpty(e[5..]) == [e[5], e[8], e[9]];
    assert KeepNonEmpty(e[4..]) == [e[5], e[8], e[9]];
    assert KeepNonEmpty(e[3..]) == [e[3], e[5], e[8], e[9]];
    assert KeepNonEmpty(e[2..]) == [e[2], e[3], e[5], e[8], e[9]];
    assert KeepNonEmpty(e[1..]) == [e[1], e[2], e[3], e[5], e[8], e[9]];
    assert e[0..] == e;
  }

  /** The same kind of submission through the component: with a temporary assessment
      over LINE the click is refused until the QR switch is on, then it copies the
      summary. */
  method LineAssessmentWalkthrough(name: string)
    requires name == "Sato"
  {
    var app := new App();
    app.customerName := name;
    app.customerType := "new";
    app.temporaryAssessment := "yes";
    app.contactMethod := "LINE";
    app.itemCount := "5";
    var copied := app.HandleButtonClick();
    assert copied == None;
    app.HandleQrCheck(true);
    assert !IsBlank(app.customerName) by { assert !IsWhitespace(app.customerName[0]); }
    ValidatePassesIffComplete(app.Values());
    copied := app.HandleButtonClick();
    assert copied == Some(SummaryText(app.Values()));
  }
}
