/**
 * The registration form's validation rules as functions of the form's
 * current values: one outcome per field validator (its verdict and the
 * message it writes to the field's error element), the aggregate of all
 * twelve, and the cheaper "quick gate" that drives the submit button.
 */
module Rules {
  import opened Wrappers
  import opened Text
  import opened FieldChecks

  /** One radio button of the gender group. */
  datatype Radio = Radio(value: string, checked: bool)

  /** The values of the form's controls. `gender` is empty when the page has no
      gender radios; `city` is `None` when it has no city input. */
  datatype Form = Form(
    firstName: string,
    lastName: string,
    email: string,
    countryCode: string,
    phone: string,
    dob: string,
    gender: seq<Radio>,
    country: string,
    state: string,
    city: Option<string>,
    password: string,
    confirmPassword: string,
    terms: bool)

  /** The fields that have a validator and an error element. */
  datatype FieldId =
    | FirstName | LastName | Email | CountryCode | Phone | Country | State
    | City | Gender | Password | ConfirmPassword | Terms

  /** The order in which `isFormValid` runs the validators. */
  const VALIDATOR_ORDER: seq<FieldId> := [
    FirstName, LastName, Email, CountryCode, Phone, Country, State,
    City, Gender, Password, ConfirmPassword, Terms
  ]

  /** The messages the validators write into an error element. */
  datatype Message =
    | FirstNameRequired | LastNameRequired
    | EmailRequired | EmailMalformed | EmailDisposable
    | CodeRequired | CodeMalformed | CodeUnrecognized(code: string)
    | PhoneRequired | PhoneMalformed
    | CountryRequired | StateRequired | CityRequired | GenderRequired
    | PasswordRequired | PasswordWeak | ConfirmRequired | ConfirmMismatch
    | TermsRequired

  /** The text shown for each message; none is empty, so an empty error
      element always means "no error". */
  function Wording(m: Message): (t: string)
    ensures t != ""
  {
    match m
    case FirstNameRequired => "First name is required"
    case LastNameRequired => "Last name is required"
    case EmailRequired => "Email is required"
    case EmailMalformed => "Invalid email format"
    case EmailDisposable => "Disposable email addresses are not allowed"
    case CodeRequired => "Country code is required"
    case CodeMalformed => "Use format +<country code>, e.g. +1, +91"
    case CodeUnrecognized(v) => "Unrecognized country code: " + v + ". Use a correct calling code like +1, +91."
    case PhoneRequired => "Phone is required"
    case PhoneMalformed => "Enter a valid phone number (6–12 digits) without country code"
    case CountryRequired => "Country is required"
    case StateRequired => "State is required"
    case CityRequired => "City is required"
    case GenderRequired => "Please select your gender"
    case PasswordRequired => "Password is required"
    case PasswordWeak => "Password is weak — make it longer and include uppercase, number, and symbol"
    case ConfirmRequired => "Please confirm password"
    case ConfirmMismatch => "Passwords do not match"
    case TermsRequired => "You must accept terms & conditions"
  }

  /** What one validator does: pass and clear its error (`setError(id, "")`),
      fail and write a message, or pass without touching the page at all. */
  datatype Outcome = Passed | Failed(message: Message) | Silent {
    /** The validator's boolean result. */
    predicate Ok() { !Failed? }
  }

  /** What the validator hands to `setError`, or `None` when it does not call it. */
  function Report(o: Outcome): (r: Option<string>)
    ensures r.None? <==> o.Silent?
    ensures r.Some? ==> (r.value == "" <==> o.Ok())
  {
    match o
    case Passed => Some("")
    case Failed(m) => Some(Wording(m))
    case Silent => None
  }

  // ---------------------------------------------------------------- the twelve validators

  /** A required text field (`validateFirstName`, `validateLastName`, and the
      city when the page has one): blank after trimming fails. */
  function RequiredText(value: string, message: Message): Outcome {
    if Trim(value) == "" then Failed(message) else Passed
  }

  /** `validateEmail`: required, then the format, then the blocklist. */
  function EmailOutcome(f: Form): Outcome {
    var v := Trim(f.email);
    if v == "" then Failed(EmailRequired)
    else if !IsValidEmailFormat(v) then Failed(EmailMalformed)
    else if IsDisposableEmail(v) then Failed(EmailDisposable)
    else Passed
  }

  /** `validateCountryCode`: required, then `+` and one to four digits, then the allow-list. */
  function CountryCodeOutcome(f: Form): Outcome {
    var v := Trim(f.countryCode);
    if v == "" then Failed(CodeRequired)
    else if !IsCallingCodeShape(v) then Failed(CodeMalformed)
    else if !IsAllowedCode(v) then Failed(CodeUnrecognized(v))
    else Passed
  }

  /** `validatePhone`: required, then `isValidPhone` of the trimmed value. */
  function PhoneOutcome(f: Form): Outcome {
    var v := Trim(f.phone);
    if v == "" then Failed(PhoneRequired)
    else if !IsValidPhone(v) then Failed(PhoneMalformed)
    else Passed
  }

  /** A required selection (`validateCountry`, `validateState`): not trimmed. */
  function RequiredChoice(value: string, message: Message): Outcome {
    if value == "" then Failed(message) else Passed
  }

  /** `validateCity`: passes without writing when the page has no city input. */
  function CityOutcome(f: Form): Outcome {
    match f.city
    case None => Silent
    case Some(c) => RequiredText(c, CityRequired)
  }

  /** Some radio of the group is checked. */
  predicate SomeChecked(radios: seq<Radio>) {
    exists i | 0 <= i < |radios| :: radios[i].checked
  }

  /** `validateGender`: passes without writing when there are no radios. */
  function GenderOutcome(f: Form): Outcome {
    if |f.gender| == 0 then Silent
    else if SomeChecked(f.gender) then Passed
    else Failed(GenderRequired)
  }

  /** `validatePassword`: required (untrimmed), then a score of at least 3. */
  function PasswordOutcome(f: Form): Outcome {
    var pw := f.password;
    if pw == "" then Failed(PasswordRequired)
    else if CalcPasswordScore(pw) < 3 then Failed(PasswordWeak)
    else Passed
  }

  /** `validateConfirmPassword`: required, then equal to the untrimmed password. */
  function ConfirmOutcome(f: Form): Outcome {
    if f.confirmPassword == "" then Failed(ConfirmRequired)
    else if f.password != f.confirmPassword then Failed(ConfirmMismatch)
    else Passed
  }

  /** `validateTerms`. */
  function TermsOutcome(f: Form): Outcome {
    if !f.terms then Failed(TermsRequired) else Passed
  }

  // ---------------------------------------------------------------- what each validator means

  /** A required text passes exactly when it has a visible character, and
      otherwise writes its own message. */
  lemma RequiredTextMeaning(value: string, message: Message)
    ensures RequiredText(value, message) == if HasVisibleChar(value) then Passed else Failed(message)
  {
    TrimEmptyIff(value);
  }

  /** The e-mail passes exactly when its trimmed text has the shape
      local@host.tld and is not on the blocklist; the first rule broken names the message. */
  lemma EmailMeaning(f: Form)
    ensures !EmailOutcome(f).Silent?
    ensures EmailOutcome(f).Ok() <==> EmailShape(Trim(f.email)) && !IsDisposableEmail(Trim(f.email))
    ensures !HasVisibleChar(f.email) ==> EmailOutcome(f) == Failed(EmailRequired)
    ensures HasVisibleChar(f.email) && !EmailShape(Trim(f.email)) ==> EmailOutcome(f) == Failed(EmailMalformed)
    ensures EmailShape(Trim(f.email)) && IsDisposableEmail(Trim(f.email)) ==> EmailOutcome(f) == Failed(EmailDisposable)
  {
    TrimEmptyIff(f.email);
    EmailFormatIff(Trim(f.email));
  }

  /** The calling code passes exactly when its trimmed text is allow-listed;
      a well-formed code off the list is named in the message. */
  lemma CountryCodeMeaning(f: Form)
    ensures !CountryCodeOutcome(f).Silent?
    ensures CountryCodeOutcome(f).Ok() <==> IsAllowedCode(Trim(f.countryCode))
    ensures !HasVisibleChar(f.countryCode) ==> CountryCodeOutcome(f) == Failed(CodeRequired)
    ensures IsCallingCodeShape(Trim(f.countryCode)) && !IsAllowedCode(Trim(f.countryCode)) ==>
      CountryCodeOutcome(f) == Failed(CodeUnrecognized(Trim(f.countryCode)))
  {
    TrimEmptyIff(f.countryCode);
    AllowedCodesHaveShape(Trim(f.countryCode));
  }

  /** The phone passes exactly when it holds only digits and separators,
      with six to twelve digits. */
  lemma PhoneMeaning(f: Form)
    ensures !PhoneOutcome(f).Silent?
    ensures PhoneOutcome(f).Ok() <==> DigitsAndSeparators(f.phone) && 6 <= CountDigits(f.phone) <= 12
    ensures !HasVisibleChar(f.phone) ==> PhoneOutcome(f) == Failed(PhoneRequired)
  {
    TrimEmptyIff(f.phone);
    StripIgnoresTrim(f.phone);
    PhoneIff(f.phone);
  }

  /** The city passes when there is no city input, and otherwise when it has a
      visible character; without the input nothing is written. */
  lemma CityMeaning(f: Form)
    ensures CityOutcome(f).Silent? <==> f.city.None?
    ensures CityOutcome(f).Ok() <==> f.city.None? || HasVisibleChar(f.city.value)
    ensures CityOutcome(f).Failed? ==> CityOutcome(f) == Failed(CityRequired)
  {
    if f.city.Some? {
      RequiredTextMeaning(f.city.value, CityRequired);
    }
  }

  /** Gender passes when there are no radios or one is checked; without radios
      nothing is written. */
  lemma GenderMeaning(f: Form)
    ensures GenderOutcome(f).Silent? <==> f.gender == []
    ensures GenderOutcome(f).Ok() <==> f.gender == [] || exists r :: r in f.gender && r.checked
  {
    if GenderOutcome(f).Ok() && f.gender != [] {
      var i :| 0 <= i < |f.gender| && f.gender[i].checked;
      assert f.gender[i] in f.gender;
    }
  }

  /** The password passes exactly when it meets at least three of the four criteria. */
  lemma PasswordMeaning(f: Form)
    ensures !PasswordOutcome(f).Silent?
    ensures PasswordOutcome(f).Ok() <==> |SatisfiedCriteria(f.password)| >= 3
    ensures f.password == "" ==> PasswordOutcome(f) == Failed(PasswordRequired)
  {
    ScoreCountsCriteria(f.password);
  }

  /** The selections, the confirmation and the terms box: each passes exactly
      when it is set (the confirmation also when it equals the password, both
      untrimmed), and each always writes. */
  lemma SimpleFieldsMeaning(f: Form)
    ensures RequiredChoice(f.country, CountryRequired).Ok() <==> f.country != ""
    ensures RequiredChoice(f.state, StateRequired).Ok() <==> f.state != ""
    ensures ConfirmOutcome(f).Ok() <==> f.confirmPassword != "" && f.confirmPassword == f.password
    ensures f.confirmPassword != "" && f.confirmPassword != f.password ==> ConfirmOutcome(f) == Failed(ConfirmMismatch)
    ensures TermsOutcome(f).Ok() <==> f.terms
    ensures !RequiredChoice(f.country, CountryRequired).Silent? && !RequiredChoice(f.state, StateRequired).Silent?
    ensures !ConfirmOutcome(f).Silent? && !TermsOutcome(f).Silent?
  {
  }

  // ---------------------------------------------------------------- dispatch

  /** The outcomes of the twelve validators, in `VALIDATOR_ORDER`. */
  function Outcomes(f: Form): (os: seq<Outcome>)
    ensures |os| == |VALIDATOR_ORDER|
  {
    [ RequiredText(f.firstName, FirstNameRequired),
      RequiredText(f.lastName, LastNameRequired),
      EmailOutcome(f),
      CountryCodeOutcome(f),
      PhoneOutcome(f),
      RequiredChoice(f.country, CountryRequired),
      RequiredChoice(f.state, StateRequired),
      CityOutcome(f),
      GenderOutcome(f),
      PasswordOutcome(f),
      ConfirmOutcome(f),
      TermsOutcome(f) ]
  }

  /** Where `id` stands in `VALIDATOR_ORDER`. */
  function Position(id: FieldId): (k: nat)
    ensures k < |VALIDATOR_ORDER| && VALIDATOR_ORDER[k] == id
  {
    match id
    case FirstName => 0 case LastName => 1 case Email => 2 case CountryCode => 3
    case Phone => 4 case Country => 5 case State => 6 case City => 7 case Gender => 8
    case Password => 9 case ConfirmPassword => 10 case Terms => 11
  }

  /** The validator of field `id`. */
  function Check(f: Form, id: FieldId): Outcome {
    Outcomes(f)[Position(id)]
  }

  /** Only the city and gender validators can return without writing. */
  lemma OnlyOptionalFieldsSilent(f: Form, id: FieldId)
    ensures Check(f, id).Silent? ==> id == City || id == Gender
  {
    // Which message is written does not matter here, only that one is.
    hide Trim, IsValidEmailFormat, IsDisposableEmail, IsCallingCodeShape, IsAllowedCode, IsValidPhone;
    hide CalcPasswordScore, SomeChecked;
  }

  // ---------------------------------------------------------------- the error table

  /** `setError(id, message)` on the error texts, when the validator calls it. */
  function Record(errors: map<FieldId, string>, id: FieldId, report: Option<string>): map<FieldId, string> {
    match report
    case None => errors
    case Some(m) => errors[id := m]
  }

  /** The error texts after running the validators `ids` in order, the
      validator of `k` reporting `report(k)`. */
  function Replay(errors: map<FieldId, string>, report: FieldId -> Option<string>, ids: seq<FieldId>): map<FieldId, string> {
    if ids == [] then errors
    else Record(Replay(errors, report, ids[..|ids| - 1]), ids[|ids| - 1], report(ids[|ids| - 1]))
  }

  /** Replaying `ids` adds exactly the keys of the fields among them that write. */
  lemma {:induction false} ReplayKeys(errors: map<FieldId, string>, report: FieldId -> Option<string>, ids: seq<FieldId>)
    ensures Replay(errors, report, ids).Keys == errors.Keys + (set k | k in ids && report(k).Some?)
  {
    if ids != [] {
      var init, last := ids[..|ids| - 1], ids[|ids| - 1];
      ReplayKeys(errors, report, init);
      assert ids == init + [last];
      assert (set k | k in ids && report(k).Some?) ==
        (set k | k in init && report(k).Some?) + (if report(last).Some? then {last} else {});
    }
  }

  /** After replaying `ids`, a field among them that writes shows what it wrote
      last, and every other entry is as before. */
  lemma {:induction false} ReplayAt(errors: map<FieldId, string>, report: FieldId -> Option<string>, ids: seq<FieldId>, id: FieldId)
    ensures id in ids && report(id).Some? ==>
      id in Replay(errors, report, ids) && Replay(errors, report, ids)[id] == report(id).value
    ensures (id !in ids || report(id).None?) && id in errors ==>
      id in Replay(errors, report, ids) && Replay(errors, report, ids)[id] == errors[id]
  {
    if ids != [] {
      var init, last := ids[..|ids| - 1], ids[|ids| - 1];
      ReplayAt(errors, report, init, id);
      assert ids == init + [last];
      assert id in ids <==> id in init || id == last;
    }
  }

  /** What each validator of `f` hands to `setError`. */
  function Reports(f: Form): FieldId -> Option<string> {
    id => Report(Check(f, id))
  }

  /** The error texts after running the validators `ids` on `f` in order. */
  function ErrorsAfter(errors: map<FieldId, string>, f: Form, ids: seq<FieldId>): map<FieldId, string> {
    Replay(errors, Reports(f), ids)
  }

  /** Running one more validator records its report on top of the earlier ones. */
  lemma ErrorsAfterStep(errors: map<FieldId, string>, f: Form, ids: seq<FieldId>, id: FieldId)
    ensures ErrorsAfter(errors, f, ids + [id]) == Record(ErrorsAfter(errors, f, ids), id, Report(Check(f, id)))
  {
    hide Check;
    assert (ids + [id])[..|ids|] == ids;
  }

  /** Once all twelve have run, every field that writes shows "" exactly when
      its own validator passed: every validator ran, failures did not stop the rest. */
  lemma AllErrorsReported(errors: map<FieldId, string>, f: Form, id: FieldId)
    requires !Check(f, id).Silent?
    ensures id in ErrorsAfter(errors, f, VALIDATOR_ORDER)
    ensures ErrorsAfter(errors, f, VALIDATOR_ORDER)[id] == "" <==> Check(f, id).Ok()
  {
    hide Check;
    assert id == VALIDATOR_ORDER[Position(id)];
    ReplayAt(errors, Reports(f), VALIDATOR_ORDER, id);
  }

  // ---------------------------------------------------------------- the aggregate

  /** Every validator among `ids` passes. */
  predicate AllPass(f: Form, ids: seq<FieldId>) {
    forall i | 0 <= i < |ids| :: Check(f, ids[i]).Ok()
  }

  /** One more validator keeps the verdict exactly when it passes. */
  lemma AllPassStep(f: Form, ids: seq<FieldId>, id: FieldId)
    ensures AllPass(f, ids + [id]) <==> AllPass(f, ids) && Check(f, id).Ok()
  {
    hide Check;
    if AllPass(f, ids + [id]) {
      forall i | 0 <= i < |ids| ensures Check(f, ids[i]).Ok() {
        assert (ids + [id])[i] == ids[i];
      }
      assert (ids + [id])[|ids|] == id;
    }
  }

  /** The verdict of `isFormValid`. */
  predicate FormValid(f: Form) {
    AllPass(f, VALIDATOR_ORDER)
  }

  /** `isFormValid` accepts exactly when every one of the twelve validators does. */
  lemma FormValidIff(f: Form)
    ensures FormValid(f) <==> forall id: FieldId :: Check(f, id).Ok()
  {
    if FormValid(f) {
      forall id: FieldId ensures Check(f, id).Ok() {
        assert VALIDATOR_ORDER[Position(id)] == id;
      }
    }
  }

  /** What `isFormValid` accepting says of each validator. */
  lemma FormValidFields(f: Form)
    requires FormValid(f)
    ensures RequiredText(f.firstName, FirstNameRequired).Ok() && RequiredText(f.lastName, LastNameRequired).Ok()
    ensures EmailOutcome(f).Ok() && CountryCodeOutcome(f).Ok() && PhoneOutcome(f).Ok()
    ensures f.country != "" && f.state != "" && CityOutcome(f).Ok() && GenderOutcome(f).Ok()
    ensures f.password != "" && ConfirmOutcome(f).Ok() && f.terms
  {
    hide RequiredText, EmailOutcome, CountryCodeOutcome, PhoneOutcome, CityOutcome, GenderOutcome, ConfirmOutcome;
    var o := VALIDATOR_ORDER;
    assert Check(f, o[0]).Ok() && Check(f, o[1]).Ok() && Check(f, o[2]).Ok() && Check(f, o[3]).Ok();
    assert Check(f, o[4]).Ok() && Check(f, o[5]).Ok() && Check(f, o[6]).Ok() && Check(f, o[7]).Ok();
    assert Check(f, o[8]).Ok() && Check(f, o[9]).Ok() && Check(f, o[10]).Ok() && Check(f, o[11]).Ok();
  }

  // ---------------------------------------------------------------- the quick gate

  /** The gender part of `checkFormState`: no radios, or one checked. */
  predicate GenderChecked(f: Form) { |f.gender| == 0 || SomeChecked(f.gender) }

  /** `requiredPresent` of `checkFormState`. */
  predicate RequiredPresent(f: Form) {
    && Trim(f.firstName) != ""
    && Trim(f.lastName) != ""
    && Trim(f.email) != ""
    && Trim(f.countryCode) != ""
    && Trim(f.phone) != ""
    && f.country != ""
    && f.state != ""
    && (f.city.None? || Trim(f.city.value) != "")
    && f.password != ""
    && f.confirmPassword != ""
    && f.terms
    && GenderChecked(f)
  }

  /** `quickChecks` of `checkFormState`: the format checks only. */
  predicate QuickChecks(f: Form) {
    && IsValidEmailFormat(Trim(f.email))
    && IsCallingCodeShape(Trim(f.countryCode))
    && IsValidPhone(Trim(f.phone))
  }

  /** `checkFormState` leaves submit enabled exactly when this holds. */
  predicate QuickGate(f: Form) {
    RequiredPresent(f) && QuickChecks(f)
  }

  /** A form that passes full validation is never held back by the gate. */
  lemma FormValidOpensGate(f: Form)
    requires FormValid(f)
    ensures QuickGate(f)
  {
    FormValidFields(f);
    TrimEmptyIff(f.firstName);
    TrimEmptyIff(f.lastName);
    if f.city.Some? { TrimEmptyIff(f.city.value); }
  }

  /** The gate reads the password only for being non-empty, never its strength. */
  lemma GateIgnoresPasswordStrength(f: Form, pw: string, confirm: string)
    requires (pw == "") == (f.password == "") && (confirm == "") == (f.confirmPassword == "")
    ensures QuickGate(f.(password := pw, confirmPassword := confirm)) == QuickGate(f)
  {
  }

  /** The gate reads the calling code only for its shape and the e-mail only
      for its format: neither allow-list nor blocklist. */
  lemma GateIgnoresLists(f: Form, email: string, code: string)
    requires IsValidEmailFormat(Trim(email)) == IsValidEmailFormat(Trim(f.email))
    requires IsCallingCodeShape(Trim(code)) == IsCallingCodeShape(Trim(f.countryCode))
    ensures QuickGate(f.(email := email, countryCode := code)) == QuickGate(f)
  {
    hide Trim, IsValidPhone, SomeChecked, EmailSplitAt;
    if IsValidEmailFormat(Trim(email)) {
      assert Trim(email) != "" && Trim(f.email) != "";
    }
    if IsCallingCodeShape(Trim(code)) {
      assert Trim(code) != "" && Trim(f.countryCode) != "";
    }
  }
}
