# Customer-arrival form: submission path

A model of the submission path of the single-page form that store staff fill in when a
customer arrives (`src/App.jsx`). It covers four parts. The phone field's effect turns
full-width digits into ASCII digits and deletes hyphens. The click handler refuses to
submit when a temporary assessment over LINE has not had its QR code confirmed. The
validation-and-summary handler runs every field rule, filling one error slot per field,
and stops on any error. Otherwise it sets the member-search link for an existing
customer and builds the fixed-order chat summary. That summary is what gets copied to
the clipboard.

Layout:

- `wrappers.dfy`: `Option`.
- `text.dfy`: the string operations the handler relies on. These are ECMAScript
  `trim` with its whitespace set, `filter(Boolean)`, `join('\n')` and decimal rendering.
- `phone.dfy`: the normalisation of the phone field.
- `uri.dfy`: `encodeURIComponent` as ECMA-262 defines it. Characters go to UTF-8 and
  every byte outside the unreserved set becomes `%XX` with upper-case hex digits.
- `submission.dfy`: the form values and error slots as values, plus the field rules,
  the submit gate, the lookup link, the summary and the item-count options.
- `app.dfy`: the component as a class `App`. It holds one field per form value, one per
  error slot, and the summary and link. The handlers are methods that update those fields.
- `scenarios.dfy`: typical submissions worked through the model.

The lookup link is not a line of the summary: the code keeps it in its own state
(`src/App.jsx:134-153`), and so does the model (`customerLink`, `LookupLink`).

## Model

| member | source | states |
|---|---|---|
| Phone.NormalizeIsNormal | src/App.jsx:61-63 | The normalised phone number contains no ASCII hyphen and no full-width digit. |
| Phone.NormalizeLength | src/App.jsx:62 | Normalisation removes exactly the hyphens: the length drops by the number of hyphens. |
| Phone.NormalizeKeepsOrder | src/App.jsx:61-63 | Every non-hyphen character survives in its original order, shifted left by the hyphens before it, and is mapped by the full-width-to-ASCII digit map. |
| Phone.ToHalfWidth | src/App.jsx:63 | A full-width digit U+FF10..U+FF19 becomes the ASCII digit of the same value; any other character is unchanged. |
| Phone.HalfWidthDigits | src/App.jsx:63 | The digit replacement is a character-by-character map of the same length. |
| Phone.NormalizeIdempotent | src/App.jsx:59-65 | Normalising twice gives the same result as normalising once, so the effect's second run changes nothing. |
| Phone.NormalFixedPoint | src/App.jsx:59-65 | Normalisation leaves a number unchanged exactly when it has no hyphen and no full-width digit. |
| Phone.NormalizeFixesNormal | src/App.jsx:59-65 | A number with no hyphen and no full-width digit is left as it is. |
| Phone.NormalizeAppend | src/App.jsx:61-63 | Normalisation distributes over concatenation: the number can be normalised piece by piece. |
| Text.TrimSpec | src/App.jsx:79 | `trim` returns the slice between the leading and the trailing whitespace, and the slice neither starts nor ends with whitespace. |
| Text.TrimEmptyIffBlank | src/App.jsx:87 | `!x.trim()` holds exactly when every character of `x` is whitespace. |
| Text.KeepNonEmptyMembers | src/App.jsx:153 | `filter(Boolean)` keeps exactly the non-empty entries, as a set of values. |
| Text.KeepNonEmptyAppend | src/App.jsx:153 | `filter(Boolean)` distributes over concatenation, so the kept entries stay in their order and keep their multiplicity. |
| Text.JoinKeptLines | src/App.jsx:153 | Filtering then joining with newlines puts each kept entry after a newline and adds nothing for an empty entry. |
| Text.Decimal | src/App.jsx:238 | The decimal rendering of a number is a non-empty digit string starting with '0' only for zero. |
| Text.DecimalValue | src/App.jsx:238 | The decimal rendering of `n` denotes `n`, read digit by digit with the most significant first. |
| Uri.Utf8RoundTrip | src/App.jsx:136 | The UTF-8 bytes that `encodeURIComponent` escapes decode back to the code point. |
| Uri.PercentRoundTrip | src/App.jsx:136 | Percent-escaping a byte string and decoding the `%XX` triples gives back the bytes. |
| Uri.EncodeAlphabet | src/App.jsx:136 | The encoded keyword consists only of unreserved characters, `%` and upper-case hex digits, so it cannot break out of the query parameter. |
| Uri.EncodeUnreservedIsIdentity | src/App.jsx:136 | A string of unreserved characters, such as a normalised all-digit number, is encoded as itself. |
| Submission.ValidateSlots | src/App.jsx:70-129 | Each error slot holds its message exactly when its own rule fires. The phone slot shows the existing-customer message before the phone-contact message. |
| Submission.ValidateSlotsAreIndependent | src/App.jsx:67-129 | Each slot depends only on the fields its rule reads, so every rule is evaluated and all errors are collected, not just the first. |
| Submission.ValidatePassesIffComplete | src/App.jsx:67-132 | Validation leaves every slot empty exactly when the form is complete. Complete means a non-blank name, both selections made, an item count other than "0", a phone number for an existing customer, and for a temporary assessment a contact method with the address or number it needs. |
| Submission.LookupLink | src/App.jsx:135-140 | A link exists exactly for an existing customer with a non-blank phone number. It is the member-search prefix followed by the URI-encoded phone number. |
| Submission.SummaryTextIsLayout | src/App.jsx:142-153 | The summary is the header, name, type, phone, member (existing only), assessment, contact method (assessment only), email (email contact only), item count and trailer, in that order, one per line. An omitted line leaves no blank line. |
| Submission.ItemCountOptions | src/App.jsx:236-240 | The item-count select offers "0", the decimals 1 to 29, and "30+". |
| Submission.ItemCountOptionValues | src/App.jsx:237-239 | Option `n` between 1 and 29 is the decimal string whose value is `n`. |
| Submission.OnlyPlaceholderCountRejected | src/App.jsx:236-240 | Of the select's options, only the placeholder "0" trips the item-count rule. |
| AppComponent.App.constructor | src/App.jsx:11-32 | Initial state: every value empty except the item count "0", no link, QR switch off, no error; the phone field is already normalised. |
| AppComponent.App.ChangePhoneNumber | src/App.jsx:59-65 | After a change of the phone field the effect re-runs until the value stops changing. The field ends up holding the normalised input. The effect runs once if the input was already normal and twice otherwise. |
| AppComponent.App.HandleQrCheck | src/App.jsx:54-57 | The QR switch takes the checked state. |
| AppComponent.App.RunRules | src/App.jsx:68-129 | Every slot is set to what validation gives for the values read by the handler, and the error flag is raised exactly when some slot holds a message. |
| AppComponent.App.UpdateSummary | src/App.jsx:67-154 | The form values are untouched and the slots hold the validation result. Only when no slot holds a message are the link and the summary set and the summary handed to the clipboard; otherwise the link and summary keep their old values. |
| AppComponent.App.HandleButtonClick | src/App.jsx:43-51 | A temporary assessment over LINE without QR confirmation changes nothing and copies nothing. Otherwise the click behaves as the validation-and-summary handler. |
| Scenarios.ExistingCustomerLink | src/App.jsx:135-137 | An existing customer with phone "09012345678" gets the link ending in `keyword=09012345678`. |
| Scenarios.MissingEmailAddress | src/App.jsx:79-81 | An email assessment without an address fills the email slot and blocks the summary. |
| Scenarios.NewCustomerWithoutAssessment | src/App.jsx:67-140 | New customer "Tanaka", no phone, no assessment, 3 items: every rule passes and no link is set. |
| Scenarios.NewCustomerSummary | src/App.jsx:142-153 | That submission's summary is exactly seven lines: header, name, type "新規顧客", the empty phone line, assessment "なし", item count and trailer. |

## Left out

- The clipboard write is not modelled. `navigator.clipboard.writeText` is asynchronous
  and its promise is outside the model (`src/App.jsx:156-166`). `UpdateSummary` returns
  the text it would write as `copied`. The success notice, its 10-second timeout and
  the console logs are left out. So is the failure path that puts a message into the
  item-count error slot.
- `window.alert`, `preventDefault` and the alert colour (`alertVariant`) on the blocked
  click and the QR switch are display only and are left out (`src/App.jsx:45-47, 56`).
- `customerLink` holds the URL string. The source stores an anchor element built around
  that URL, and rendering it is display only.
- React state updates are batched. While the handler runs it reads the values of the
  render in which the click happened. `RunRules` therefore takes that snapshot as
  `form`, and the model does not represent the deferred re-render.
- The other fields' change handlers are plain assignments of the typed value. The model
  writes those fields directly. `memberNumber` is never written by the source's form.
- Rendering (the JSX, the disabled button, feedback texts) is not modelled.
  `App.ButtonDisabled` mirrors the `disabled` condition at `src/App.jsx:328` and carries
  no contract of its own.
- Lone UTF-16 surrogates, for which `encodeURIComponent` throws `URIError`, cannot
  occur in a Dafny `char`, so that error path is not modelled.
- `Uri.EncodeUriComponent`: only its alphabet, its identity on unreserved strings and
  the byte-level round trip are proved. Full decoding of an encoded string back to the
  input is not stated.
- A concrete full-width input such as `０９０-1234-5678` has no lemma of its own. The
  general lemmas `Phone.NormalizeKeepsOrder`, `Phone.NormalizeLength` and
  `Phone.ToHalfWidth` give its normalisation character by character.
