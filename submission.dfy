/**
 * The pure part of the submission path: the seven validation rules with their error
 * messages, the gate that refuses a click before validation, the lookup link and the
 * summary text, all as functions of the form's values.
 */
module Submission {
  import opened Wrappers
  import opened Text
  import Uri

  /** The form's values as the component holds them, every one a string. */
  datatype Form = Form(
    customerName: string,
    customerType: string,         // "", "new" or "existing"
    phoneNumber: string,
    memberNumber: string,
    temporaryAssessment: string,  // "", "yes" or "no"
    contactMethod: string,        // "", "LINE", "email" or "phone"
    itemCount: string,            // "0", "1".."29" or "30+"
    emailOrPhone: string)

  /** One message slot per validated field; the empty string means no error. */
  datatype ErrorSlots = ErrorSlots(
    contactMethod: string,
    email: string,
    phoneNumber: string,
    customerName: string,
    customerType: string,
    temporaryAssessment: string,
    itemCount: string)
  {
    predicate NoErrors() {
      contactMethod == "" && email == "" && phoneNumber == "" && customerName == ""
      && customerType == "" && temporaryAssessment == "" && itemCount == ""
    }
  }

  const ContactMethodMessage := "仮査定の手段を選択してください。"
  const EmailMessage := "仮査定手段がメールの場合、メールアドレスを入力してください。"
  const PhoneExistingMessage := "「電話番号」を入力してください。"
  const PhoneContactMessage := "仮査定手段が電話の場合、電話番号を入力してください。"
  const CustomerNameMessage := "「顧客名」を入力してください。"
  const CustomerTypeMessage := "「顧客区分」を選択してください。"
  const TemporaryAssessmentMessage := "「仮査定有無」を選択してください。"
  const ItemCountMessage := "持込商品点数を選択してください。"

  // The rules, each as the condition under which its slot gets a message.
  // `!x.trim()` is written `Trim(x) == []`, `!contactMethod` is `contactMethod == ""`.

  predicate ContactMethodMissing(f: Form) {
    f.temporaryAssessment == "yes" && f.contactMethod == ""
  }

  predicate EmailMissing(f: Form) {
    f.temporaryAssessment == "yes" && f.contactMethod == "email" && Trim(f.emailOrPhone) == []
  }

  predicate PhoneMissingForExisting(f: Form) {
    f.customerType == "existing" && Trim(f.phoneNumber) == []
  }

  predicate PhoneMissingForPhoneContact(f: Form) {
    f.temporaryAssessment == "yes" && f.contactMethod == "phone" && Trim(f.phoneNumber) == []
  }

  predicate CustomerNameMissing(f: Form) {
    Trim(f.customerName) == []
  }

  predicate CustomerTypeMissing(f: Form) {
    f.customerType == ""
  }

  predicate TemporaryAssessmentMissing(f: Form) {
    f.temporaryAssessment == ""
  }

  predicate ItemCountMissing(f: Form) {
    f.itemCount == "0"
  }

  function PhoneError(f: Form): string {
    if PhoneMissingForExisting(f) then PhoneExistingMessage
    else if PhoneMissingForPhoneContact(f) then PhoneContactMessage
    else ""
  }

  /** The error slots after every rule has been evaluated. */
  function Validate(f: Form): ErrorSlots {
    ErrorSlots(
      if ContactMethodMissing(f) then ContactMethodMessage else "",
      if EmailMissing(f) then EmailMessage else "",
      PhoneError(f),
      if CustomerNameMissing(f) then CustomerNameMessage else "",
      if CustomerTypeMissing(f) then CustomerTypeMessage else "",
      if TemporaryAssessmentMissing(f) then TemporaryAssessmentMessage else "",
      if ItemCountMissing(f) then ItemCountMessage else "")
  }

  /** Collect-all validation: each slot holds a message exactly when its own rule fires,
      and the phone slot prefers the existing-customer message over the phone-contact one. */
  lemma ValidateSlots(f: Form)
    ensures Validate(f).contactMethod != "" <==> ContactMethodMissing(f)
    ensures Validate(f).email != "" <==> EmailMissing(f)
    ensures Validate(f).customerName != "" <==> CustomerNameMissing(f)
    ensures Validate(f).customerType != "" <==> CustomerTypeMissing(f)
    ensures Validate(f).temporaryAssessment != "" <==> TemporaryAssessmentMissing(f)
    ensures Validate(f).itemCount != "" <==> ItemCountMissing(f)
    ensures Validate(f).phoneNumber ==
      if PhoneMissingForExisting(f) then PhoneExistingMessage
      else if PhoneMissingForPhoneContact(f) then PhoneContactMessage
      else ""
  {
  }

  /** No rule reads a field outside its own: changing the other fields leaves a slot
      as it was, so every slot is computed whatever the others hold. */
  lemma ValidateSlotsAreIndependent(f: Form, g: Form)
    ensures f.temporaryAssessment == g.temporaryAssessment && f.contactMethod == g.contactMethod
      ==> Validate(f).contactMethod == Validate(g).contactMethod
    ensures f.temporaryAssessment == g.temporaryAssessment && f.contactMethod == g.contactMethod
      && f.emailOrPhone == g.emailOrPhone
      ==> Validate(f).email == Validate(g).email
    ensures f.customerType == g.customerType && f.temporaryAssessment == g.temporaryAssessment
      && f.contactMethod == g.contactMethod && f.phoneNumber == g.phoneNumber
      ==> Validate(f).phoneNumber == Validate(g).phoneNumber
    ensures f.customerName == g.customerName ==> Validate(f).customerName == Validate(g).customerName
    ensures f.customerType == g.customerType ==> Validate(f).customerType == Validate(g).customerType
    ensures f.temporaryAssessment == g.temporaryAssessment
      ==> Validate(f).temporaryAssessment == Validate(g).temporaryAssessment
    ensures f.itemCount == g.itemCount ==> Validate(f).itemCount == Validate(g).itemCount
  {
  }

  /** A form that is complete in the sense the form's labels describe: a non-blank name,
      both selections made, at least one item, a phone number for an existing customer,
      and for a temporary assessment a contact method together with the address or
      number it needs. */
  ghost predicate Complete(f: Form) {
    && !IsBlank(f.customerName)
    && f.customerType != ""
    && f.temporaryAssessment != ""
    && f.itemCount != "0"
    && (f.customerType == "existing" ==> !IsBlank(f.phoneNumber))
    && (f.temporaryAssessment == "yes" ==>
          && f.contactMethod != ""
          && (f.contactMethod == "email" ==> !IsBlank(f.emailOrPhone))
          && (f.contactMethod == "phone" ==> !IsBlank(f.phoneNumber)))
  }

  /** Validation leaves every slot empty exactly when the form is complete. */
  lemma ValidatePassesIffComplete(f: Form)
    ensures Validate(f).NoErrors() <==> Complete(f)
  {
    TrimEmptyIffBlank(f.customerName);
    TrimEmptyIffBlank(f.phoneNumber);
    TrimEmptyIffBlank(f.emailOrPhone);
  }

  /** The click handler refuses to run validation; the same condition disables the button. */
  predicate SubmitBlocked(f: Form, qrChecked: bool) {
    f.temporaryAssessment == "yes" && f.contactMethod == "LINE" && !qrChecked
  }

  const LookupPrefix := "https://app.recore-pos.com/member/list/?keyword="

  /** The member-search link set after a successful validation. */
  function LookupLink(f: Form): (link: Option<string>)
    ensures link.Some? <==> f.customerType == "existing" && !IsBlank(f.phoneNumber)
    ensures link.Some? ==>
      |link.value| >= |LookupPrefix| && link.value[..|LookupPrefix|] == LookupPrefix
      && link.value[|LookupPrefix|..] == Uri.EncodeUriComponent(f.phoneNumber)
  {
    TrimEmptyIffBlank(f.phoneNumber);
    if f.customerType == "existing" && Trim(f.phoneNumber) != [] then
      Some(LookupPrefix + Uri.EncodeUriComponent(f.phoneNumber))
    else None
  }

  // The entries of the summary array, in order.

  const Header := "`[toall]`\nお客様がご来店しました。"
  const Trailer := "これより写真をお送ります。査定対応お願いします。"

  function NameLine(f: Form): string { "顧客名: " + f.customerName }

  function TypeLabel(customerType: string): string {
    if customerType == "new" then "新規顧客" else "既存顧客"
  }

  function TypeLine(f: Form): string { "顧客タイプ: " + TypeLabel(f.customerType) }

  function PhoneLine(f: Form): string { "電話番号: " + f.phoneNumber }

  function MemberLine(f: Form): string { "会員番号: " + f.memberNumber }

  function AssessmentLabel(temporaryAssessment: string): string {
    if temporaryAssessment == "yes" then "あり" else "なし"
  }

  function AssessmentLine(f: Form): string { "仮査定: " + AssessmentLabel(f.temporaryAssessment) }

  function ContactMethodLine(f: Form): string { "仮査定手段: " + f.contactMethod }

  function EmailLine(f: Form): string { "メールアドレス: " + f.emailOrPhone }

  function ItemCountLine(f: Form): string { "商品点数: " + f.itemCount }

  /** The ten-entry array literal; a conditional entry is '' when its guard is false. */
  function SummaryEntries(f: Form): seq<string> {
    [ Header,
      NameLine(f),
      TypeLine(f),
      PhoneLine(f),
      if f.customerType == "existing" then MemberLine(f) else "",
      AssessmentLine(f),
      if f.temporaryAssessment == "yes" then ContactMethodLine(f) else "",
      if f.temporaryAssessment == "yes" && f.contactMethod == "email" then EmailLine(f) else "",
      ItemCountLine(f),
      Trailer ]
  }

  /** `[…].filter(Boolean).join('\n')`. */
  function SummaryText(f: Form): string {
    JoinLines(KeepNonEmpty(SummaryEntries(f)))
  }

  /** `"\n" + line` when `present`, nothing otherwise. */
  function OptionalLine(present: bool, line: string): string {
    if present then "\n" + line else ""
  }

  /** The summary written out line by line: the fixed lines always, each optional line
      only under its guard, one line feed between neighbours. */
  function SummaryLayout(f: Form): string {
    Header
    + ("\n" + NameLine(f))
    + ("\n" + TypeLine(f))
    + ("\n" + PhoneLine(f))
    + OptionalLine(f.customerType == "existing", MemberLine(f))
    + ("\n" + AssessmentLine(f))
    + OptionalLine(f.temporaryAssessment == "yes", ContactMethodLine(f))
    + OptionalLine(f.temporaryAssessment == "yes" && f.contactMethod == "email", EmailLine(f))
    + ("\n" + ItemCountLine(f))
    + ("\n" + Trailer)
  }

  /** The filtered and joined array is the line-by-line layout: an omitted entry leaves
      no blank line, and the phone line is present even for an empty number. */
  lemma SummaryTextIsLayout(f: Form)
    ensures SummaryText(f) == SummaryLayout(f)
  {
    var e := SummaryEntries(f);
    JoinKeptLines(Header, e[1..]);
    assert e == [Header] + e[1..];
    LinesAfterNine(e[1..]);
    var x1, x2, x3 := "\n" + NameLine(f), "\n" + TypeLine(f), "\n" + PhoneLine(f);
    var x4 := OptionalLine(f.customerType == "existing", MemberLine(f));
    var x5 := "\n" + AssessmentLine(f);
    var x6 := OptionalLine(f.temporaryAssessment == "yes", ContactMethodLine(f));
    var x7 := OptionalLine(f.temporaryAssessment == "yes" && f.contactMethod == "email", EmailLine(f));
    var x8, x9 := "\n" + ItemCountLine(f), "\n" + Trailer;
    assert LineAfter(e[1]) == x1 && LineAfter(e[2]) == x2 && LineAfter(e[3]) == x3;
    assert LineAfter(e[4]) == x4 && LineAfter(e[5]) == x5 && LineAfter(e[6]) == x6;
    assert LineAfter(e[7]) == x7 && LineAfter(e[8]) == x8 && LineAfter(e[9]) == x9;
    assert SummaryText(f) == Header + (x1 + (x2 + (x3 + (x4 + (x5 + (x6 + (x7 + (x8 + x9))))))));
    ConcatTen(Header, x1, x2, x3, x4, x5, x6, x7, x8, x9);
  }

  /** Regrouping ten concatenated strings. */
  lemma ConcatTen(h: string, x1: string, x2: string, x3: string, x4: string,
                  x5: string, x6: string, x7: string, x8: string, x9: string)
    ensures h + (x1 + (x2 + (x3 + (x4 + (x5 + (x6 + (x7 + (x8 + x9))))))))
         == h + x1 + x2 + x3 + x4 + x5 + x6 + x7 + x8 + x9
  {
  }

  /** The values of the item-count select: "0", then "1" to "29", then "30+". */
  function ItemCountOptions(): (opts: seq<string>)
    ensures |opts| == 31 && opts[0] == "0" && opts[30] == "30+"
    ensures forall n :: 1 <= n <= 29 ==> opts[n] == Decimal(n)
  {
    ["0"] + seq(29, n requires 0 <= n < 29 => Decimal(n + 1)) + ["30+"]
  }

  /** Option `n` of the select is the decimal rendering of `n` itself, as `n + 1` over
      the keys 0 to 28 gives. */
  lemma ItemCountOptionValues(n: nat)
    requires 1 <= n <= 29
    ensures DigitsValue(ItemCountOptions()[n]) == n
  {
    DecimalValue(n);
  }

  /** Of all the options of the select, only the placeholder "0" trips the item-count rule. */
  lemma OnlyPlaceholderCountRejected(f: Form, i: nat)
    requires i < |ItemCountOptions()| && f.itemCount == ItemCountOptions()[i]
    ensures ItemCountMissing(f) <==> i == 0
  {
  }
}
