/**
 * The registration page as an object whose state the handlers change in
 * place: the error element of every field and the `invalid` class of its
 * input, the country and state option lists, the password meter, the
 * result line and the submit button's `disabled` flag. The form's values
 * are read from `form`; only rebuilding a select changes one of them.
 */
module Page {
  import opened Wrappers
  import opened Text
  import opened FieldChecks
  import opened Ordering
  import opened CountryData
  import opened Rules
  import opened Submission

  /** One `<option>` of a select: its value and its text. */
  datatype SelectOption = SelectOption(value: string, text: string)

  const COUNTRY_PLACEHOLDER := SelectOption("", "Select country")
  const STATE_PLACEHOLDER := SelectOption("", "Select state")

  const RESULT_FIX_ERRORS := "Please fix the errors above before submitting."
  const RESULT_SUCCESS := "Registration successful! You may download the submitted data below."

  /** One option per name, value and text both the name, in the given order. */
  function Options(names: seq<string>): (opts: seq<SelectOption>)
    ensures |opts| == |names|
    ensures forall i | 0 <= i < |names| :: opts[i] == SelectOption(names[i], names[i])
  {
    if names == [] then []
    else Options(names[..|names| - 1]) + [SelectOption(names[|names| - 1], names[|names| - 1])]
  }

  /** The text of the strength label for a score. */
  function StrengthText(score: nat): string {
    "Strength: " + StrengthLabel(score)
  }

  /** The options after a placeholder: ascending, each name once, exactly the keys. */
  lemma ListedOptionsSorted(keys: set<string>)
    ensures var opts := Options(Listing(keys));
      && (forall i, j | 0 <= i < j < |opts| :: Before(opts[i].value, opts[j].value))
      && (forall k :: k in keys <==> exists i | 0 <= i < |opts| :: opts[i].value == k)
  {
    hide Listing, Before;
    var r := Listing(keys);
    var opts := Options(r);
    assert StrictlySorted(r);
    forall k ensures k in keys <==> exists i | 0 <= i < |opts| :: opts[i].value == k {
      if k in keys {
        var i :| 0 <= i < |r| && r[i] == k;
        assert opts[i].value == k;
      }
    }
  }

  /** The page. The constants say which optional elements exist and what
      `window.COUNTRY_DATA` holds; `form` is what the controls currently show.

      Some methods open with a `hide` statement. It keeps the verifier from
      unfolding definitions the proof only passes along: the trimming and
      character-class predicates, the message texts (`Wording`), the
      per-field outcomes behind `Check`, and the sorted listings. Each method
      hides only what its own proof would otherwise unfold at great cost. */
  class RegistrationPage {
    var form: Form
    /** The text of each field's error element. */
    var errors: map<FieldId, string>
    /** The fields whose input carries the `invalid` class. */
    var invalid: set<FieldId>
    var countryOptions: seq<SelectOption>
    var stateOptions: seq<SelectOption>
    /** The `data-strength` attribute of the password meter. */
    var meterStrength: nat
    /** The text of the strength label. */
    var strengthText: string
    /** The text of the result line under the form. */
    var resultText: string
    var submitDisabled: bool

    const countryData: Option<CountryTable>
    const hasMeter: bool
    const hasStrengthLabel: bool
    const hasSubmitButton: bool
    /** Whether the `formResult` element exists; the download link is
        attached to it, so without it no download is offered. */
    const hasResultLine: bool

    /** Every field has an error element, and an input is marked invalid
        exactly when its error element shows a message. */
    ghost predicate Valid()
      reads this
    {
      && (forall id: FieldId :: id in errors)
      && (forall id :: id in invalid <==> id in errors && errors[id] != "")
    }

    /** A freshly loaded page: no messages, nothing marked, empty lists. */
    constructor (form0: Form, data: Option<CountryTable>, meter: bool, strengthLabel: bool, submit: bool, resultLine: bool)
      ensures Valid()
      ensures form == form0 && countryData == data
      ensures hasMeter == meter && hasStrengthLabel == strengthLabel && hasSubmitButton == submit
      ensures hasResultLine == resultLine
      ensures forall id: FieldId :: errors[id] == ""
      ensures invalid == {} && countryOptions == [] && stateOptions == [STATE_PLACEHOLDER]
      ensures submitDisabled == false && resultText == ""
    {
      form := form0;
      errors := map id: FieldId | id in VALIDATOR_ORDER :: "";
      invalid := {};
      countryOptions := [];
      stateOptions := [STATE_PLACEHOLDER];
      meterStrength := 0;
      strengthText := StrengthText(0);
      resultText := "";
      submitDisabled := false;
      countryData := data;
      hasMeter := meter;
      hasStrengthLabel := strengthLabel;
      hasSubmitButton := submit;
      hasResultLine := resultLine;
      new;
      forall id: FieldId ensures id in errors {
        assert VALIDATOR_ORDER[Position(id)] == id;
      }
    }

    // -------------------------------------------------------------- setError

    /** `setError(id, message)`: the error element shows `message` and the
        input is marked invalid exactly when `message` is not empty. */
    method SetError(id: FieldId, message: string)
      requires Valid()
      modifies this`errors, this`invalid
      ensures Valid()
      ensures errors == old(errors)[id := message]
      ensures invalid == if message == "" then old(invalid) - {id} else old(invalid) + {id}
    {
      errors := errors[id := message];
      if message != "" {
        invalid := invalid + {id};
      } else {
        invalid := invalid - {id};
      }
    }

    /** The radios are scanned in order until a checked one is found. */
    static method AnyChecked(radios: seq<Radio>) returns (found: bool)
      ensures found == SomeChecked(radios)
    {
      found := false;
      var i := 0;
      while i < |radios| && !found
        invariant 0 <= i <= |radios|
        invariant found <==> exists j | 0 <= j < i :: radios[j].checked
      {
        if radios[i].checked {
          found := true;
        }
        i := i + 1;
      }
    }

    // -------------------------------------------------------------- the validators

    method ValidateFirstName() returns (ok: bool)
      requires Valid()
      modifies this`errors, this`invalid
      ensures Valid()
      ensures ok == RequiredText(form.firstName, FirstNameRequired).Ok()
      ensures errors == Record(old(errors), FirstName, Report(RequiredText(form.firstName, FirstNameRequired)))
    {
      hide Trim;
      var v := Trim(form.firstName);
      if v == "" { SetError(FirstName, Wording(FirstNameRequired)); return false; }
      SetError(FirstName, ""); return true;
    }

    method ValidateLastName() returns (ok: bool)
      requires Valid()
      modifies this`errors, this`invalid
      ensures Valid()
      ensures ok == RequiredText(form.lastName, LastNameRequired).Ok()
      ensures errors == Record(old(errors), LastName, Report(RequiredText(form.lastName, LastNameRequired)))
    {
      hide Trim;
      var v := Trim(form.lastName);
      if v == "" { SetError(LastName, Wording(LastNameRequired)); return false; }
      SetError(LastName, ""); return true;
    }

    method ValidateEmail() returns (ok: bool)
      requires Valid()
      modifies this`errors, this`invalid
      ensures Valid()
      ensures ok == EmailOutcome(form).Ok()
      ensures errors == Record(old(errors), Email, Report(EmailOutcome(form)))
    {
      hide Trim, IsValidEmailFormat, IsDisposableEmail;
      var v := Trim(form.email);
      if v == "" { SetError(Email, Wording(EmailRequired)); return false; }
      if !IsValidEmailFormat(v) { SetError(Email, Wording(EmailMalformed)); return false; }
      if IsDisposableEmail(v) { SetError(Email, Wording(EmailDisposable)); return false; }
      SetError(Email, ""); return true;
    }

    method ValidateCountryCode() returns (ok: bool)
      requires Valid()
      modifies this`errors, this`invalid
      ensures Valid()
      ensures ok == CountryCodeOutcome(form).Ok()
      ensures errors == Record(old(errors), CountryCode, Report(CountryCodeOutcome(form)))
    {
      hide Trim, IsCallingCodeShape, IsAllowedCode;
      var v := Trim(form.countryCode);
      if v == "" { SetError(CountryCode, Wording(CodeRequired)); return false; }
      if !IsCallingCodeShape(v) { SetError(CountryCode, Wording(CodeMalformed)); return false; }
      if !IsAllowedCode(v) { SetError(CountryCode, Wording(CodeUnrecognized(v))); return false; }
      SetError(CountryCode, ""); return true;
    }

    method ValidatePhone() returns (ok: bool)
      requires Valid()
      modifies this`errors, this`invalid
      ensures Valid()
      ensures ok == PhoneOutcome(form).Ok()
      ensures errors == Record(old(errors), Phone, Report(PhoneOutcome(form)))
    {
      hide Trim, IsValidPhone;
      var v := Trim(form.phone);
      if v == "" { SetError(Phone, Wording(PhoneRequired)); return false; }
      if !IsValidPhone(v) { SetError(Phone, Wording(PhoneMalformed)); return false; }
      SetError(Phone, ""); return true;
    }

    method ValidateCountry() returns (ok: bool)
      requires Valid()
      modifies this`errors, this`invalid
      ensures Valid()
      ensures ok == RequiredChoice(form.country, CountryRequired).Ok()
      ensures errors == Record(old(errors), Country, Report(RequiredChoice(form.country, CountryRequired)))
    {
      if form.country == "" { SetError(Country, Wording(CountryRequired)); return false; }
      SetError(Country, ""); return true;
    }

    method ValidateState() returns (ok: bool)
      requires Valid()
      modifies this`errors, this`invalid
      ensures Valid()
      ensures ok == RequiredChoice(form.state, StateRequired).Ok()
      ensures errors == Record(old(errors), State, Report(RequiredChoice(form.state, StateRequired)))
    {
      if form.state == "" { SetError(State, Wording(StateRequired)); return false; }
      SetError(State, ""); return true;
    }

    method ValidateCity() returns (ok: bool)
      requires Valid()
      modifies this`errors, this`invalid
      ensures Valid()
      ensures ok == CityOutcome(form).Ok()
      ensures errors == Record(old(errors), City, Report(CityOutcome(form)))
    {
      hide Trim;
      if form.city.None? { return true; }
      var v := Trim(form.city.value);
      if v == "" { SetError(City, Wording(CityRequired)); return false; }
      SetError(City, ""); return true;
    }

    method ValidateGender() returns (ok: bool)
      requires Valid()
      modifies this`errors, this`invalid
      ensures Valid()
      ensures ok == GenderOutcome(form).Ok()
      ensures errors == Record(old(errors), Gender, Report(GenderOutcome(form)))
    {
      if |form.gender| == 0 { return true; }
      var found := AnyChecked(form.gender);
      if found { SetError(Gender, ""); return true; }
      SetError(Gender, Wording(GenderRequired)); return false;
    }

    /** `updatePasswordMeter(score)`: nothing without a meter; otherwise the
        meter takes the score and the label, if present, its wording. */
    method UpdatePasswordMeter(score: nat)
      modifies this`meterStrength, this`strengthText
      ensures meterStrength == if hasMeter then score else old(meterStrength)
      ensures strengthText == if hasMeter && hasStrengthLabel then StrengthText(score) else old(strengthText)
    {
      if !hasMeter { return; }
      meterStrength := score;
      if hasStrengthLabel {
        strengthText := StrengthText(score);
      }
    }

    method ValidatePassword() returns (ok: bool)
      requires Valid()
      modifies this`errors, this`invalid, this`meterStrength, this`strengthText
      ensures Valid()
      ensures ok == PasswordOutcome(form).Ok()
      ensures errors == Record(old(errors), Password, Report(PasswordOutcome(form)))
      ensures MeterShows(old(meterStrength), old(strengthText), CalcPasswordScore(form.password))
    {
      var pw := form.password;
      if pw == "" {
        SetError(Password, Wording(PasswordRequired));
        UpdatePasswordMeter(0);
        return false;
      }
      var score := CalcPasswordScore(pw);
      UpdatePasswordMeter(score);
      if score < 3 { SetError(Password, Wording(PasswordWeak)); return false; }
      SetError(Password, ""); return true;
    }

    /** The meter and its label show `score`, as far as the page has them. */
    ghost predicate MeterShows(meter0: nat, text0: string, score: nat)
      reads this
    {
      && meterStrength == (if hasMeter then score else meter0)
      && strengthText == (if hasMeter && hasStrengthLabel then StrengthText(score) else text0)
    }

    method ValidateConfirmPassword() returns (ok: bool)
      requires Valid()
      modifies this`errors, this`invalid
      ensures Valid()
      ensures ok == ConfirmOutcome(form).Ok()
      ensures errors == Record(old(errors), ConfirmPassword, Report(ConfirmOutcome(form)))
    {
      var pw := form.password;
      var cpw := form.confirmPassword;
      if cpw == "" { SetError(ConfirmPassword, Wording(ConfirmRequired)); return false; }
      if pw != cpw { SetError(ConfirmPassword, Wording(ConfirmMismatch)); return false; }
      SetError(ConfirmPassword, ""); return true;
    }

    method ValidateTerms() returns (ok: bool)
      requires Valid()
      modifies this`errors, this`invalid
      ensures Valid()
      ensures ok == TermsOutcome(form).Ok()
      ensures errors == Record(old(errors), Terms, Report(TermsOutcome(form)))
    {
      if !form.terms { SetError(Terms, Wording(TermsRequired)); return false; }
      SetError(Terms, ""); return true;
    }

    /** The validator of field `id`, as listed in `isFormValid`. */
    method RunValidator(id: FieldId) returns (ok: bool)
      requires Valid()
      modifies this`errors, this`invalid, this`meterStrength, this`strengthText
      ensures Valid()
      ensures ok == Check(form, id).Ok()
      ensures errors == Record(old(errors), id, Report(Check(form, id)))
      ensures id == Password ==> MeterShows(old(meterStrength), old(strengthText), CalcPasswordScore(form.password))
      ensures id != Password ==> meterStrength == old(meterStrength) && strengthText == old(strengthText)
    {
      hide Wording, Trim, RequiredText, EmailOutcome, CountryCodeOutcome, PhoneOutcome, RequiredChoice;
      hide CityOutcome, GenderOutcome, PasswordOutcome, ConfirmOutcome, TermsOutcome;
      match id
      case FirstName => ok := ValidateFirstName();
      case LastName => ok := ValidateLastName();
      case Email => ok := ValidateEmail();
      case CountryCode => ok := ValidateCountryCode();
      case Phone => ok := ValidatePhone();
      case Country => ok := ValidateCountry();
      case State => ok := ValidateState();
      case City => ok := ValidateCity();
      case Gender => ok := ValidateGender();
      case Password => ok := ValidatePassword();
      case ConfirmPassword => ok := ValidateConfirmPassword();
      case Terms => ok := ValidateTerms();
    }

    // -------------------------------------------------------------- isFormValid

    /** `isFormValid`: every validator runs, in order, whatever the earlier ones
        returned; the verdict is true exactly when all of them passed. */
    method IsFormValid() returns (ok: bool)
      requires Valid()
      modifies this`errors, this`invalid, this`meterStrength, this`strengthText
      ensures Valid()
      ensures ok == FormValid(form)
      ensures errors == ErrorsAfter(old(errors), form, VALIDATOR_ORDER)
      ensures MeterShows(old(meterStrength), old(strengthText), CalcPasswordScore(form.password))
    {
      hide Check, Wording;
      assert AllPass(form, VALIDATOR_ORDER[..0]);
      hide AllPass;
      ok := true;
      for i := 0 to |VALIDATOR_ORDER|
        invariant Valid()
        invariant ok == AllPass(form, VALIDATOR_ORDER[..i])
        invariant errors == ErrorsAfter(old(errors), form, VALIDATOR_ORDER[..i])
        invariant Password !in VALIDATOR_ORDER[..i] ==> meterStrength == old(meterStrength) && strengthText == old(strengthText)
        invariant Password in VALIDATOR_ORDER[..i] ==> MeterShows(old(meterStrength), old(strengthText), CalcPasswordScore(form.password))
      {
        var id := VALIDATOR_ORDER[i];
        var passed := RunValidator(id);
        ErrorsAfterStep(old(errors), form, VALIDATOR_ORDER[..i], id);
        AllPassStep(form, VALIDATOR_ORDER[..i], id);
        assert VALIDATOR_ORDER[..i + 1] == VALIDATOR_ORDER[..i] + [id];
        if !passed {
          ok := false;
        }
      }
      assert VALIDATOR_ORDER[..|VALIDATOR_ORDER|] == VALIDATOR_ORDER;
      assert VALIDATOR_ORDER[Position(Password)] == Password;
    }

    // -------------------------------------------------------------- checkFormState

    /** `checkFormState`: without a submit button nothing happens; otherwise
        submit is disabled exactly when the quick gate is closed. */
    method CheckFormState()
      modifies this`submitDisabled
      ensures submitDisabled == if hasSubmitButton then !QuickGate(form) else old(submitDisabled)
    {
      hide Trim, IsValidEmailFormat, IsCallingCodeShape, IsValidPhone;
      if !hasSubmitButton { return; }
      var genderChecked := true;
      if |form.gender| != 0 {
        genderChecked := AnyChecked(form.gender);
      }
      var requiredPresent :=
        && Trim(form.firstName) != ""
        && Trim(form.lastName) != ""
        && Trim(form.email) != ""
        && Trim(form.countryCode) != ""
        && Trim(form.phone) != ""
        && form.country != ""
        && form.state != ""
        && (if form.city.Some? then Trim(form.city.value) != "" else true)
        && form.password != ""
        && form.confirmPassword != ""
        && form.terms
        && genderChecked;
      var quickChecks :=
        && IsValidEmailFormat(Trim(form.email))
        && IsCallingCodeShape(Trim(form.countryCode))
        && IsValidPhone(Trim(form.phone));
      submitDisabled := !(requiredPresent && quickChecks);
    }

    // -------------------------------------------------------------- the cascade

    /** `populateCountries`: the placeholder, then every country of the data
        in ascending order; rebuilding the select leaves no country selected. */
    method PopulateCountries()
      modifies this`countryOptions, this`form
      ensures countryOptions == [COUNTRY_PLACEHOLDER] + Options(Listing(GetCountryData(countryData).Keys))
      ensures form == old(form).(country := "")
    {
      hide GetCountryData, Listing, IsSortedListing, StrictlySorted, Before;
      var data := GetCountryData(countryData);
      countryOptions := [COUNTRY_PLACEHOLDER];
      form := form.(country := "");
      var names := SortedKeys(data.Keys);
      for i := 0 to |names|
        invariant countryOptions == [COUNTRY_PLACEHOLDER] + Options(names[..i])
        invariant form == old(form).(country := "")
      {
        countryOptions := countryOptions + [SelectOption(names[i], names[i])];
        assert names[..i + 1][..i] == names[..i];
      }
      assert names[..|names|] == names;
    }

    /** `populateStates(country)`: the placeholder, then the country's states in
        ascending order; the placeholder alone for an empty or unknown country.
        Rebuilding the select leaves no state selected. */
    method PopulateStates(country: string)
      modifies this`stateOptions, this`form
      ensures stateOptions == [STATE_PLACEHOLDER] + Options(Listing(StateNames(GetCountryData(countryData), country)))
      ensures form == old(form).(state := "")
    {
      hide GetCountryData, Listing, IsSortedListing, StrictlySorted, Before;
      stateOptions := [STATE_PLACEHOLDER];
      form := form.(state := "");
      if country == "" { return; }
      var data := GetCountryData(countryData);
      if country !in data { return; }
      var keys := if data[country].states.Some? then data[country].states.value.Keys else {};
      var names := SortedKeys(keys);
      for i := 0 to |names|
        invariant stateOptions == [STATE_PLACEHOLDER] + Options(names[..i])
        invariant form == old(form).(state := "")
      {
        stateOptions := stateOptions + [SelectOption(names[i], names[i])];
        assert names[..i + 1][..i] == names[..i];
      }
      assert names[..|names|] == names;
    }

    /** The country select's change handler: list the new country's states,
        validate country and state, refresh the gate. The state list was just
        rebuilt, so the state is always reported missing and submit disabled. */
    method OnCountryChange()
      requires Valid()
      modifies this`stateOptions, this`form, this`errors, this`invalid, this`submitDisabled
      ensures Valid()
      ensures stateOptions == [STATE_PLACEHOLDER] + Options(Listing(StateNames(GetCountryData(countryData), old(form).country)))
      ensures form == old(form).(state := "")
      ensures errors == old(errors)[Country := Report(RequiredChoice(form.country, CountryRequired)).value]
                                   [State := Wording(StateRequired)]
      ensures submitDisabled == if hasSubmitButton then true else old(submitDisabled)
    {
      hide GetCountryData, StateNames, Listing, IsSortedListing, StrictlySorted, Before, Options, Trim;
      PopulateStates(form.country);
      var _ := ValidateCountry();
      var _ := ValidateState();
      CheckFormState();
    }

    // -------------------------------------------------------------- submit

    /** The submit handler. All validators run; on failure the result line, if
        present, asks for fixes and nothing is offered. On success the result
        line reports success and carries the download link, which offers the
        record under its file name; without a result line the link is built but
        never attached. Submit is disabled either way. `createdAt` and `now`
        are the two clock readings. */
    method Submit(createdAt: string, now: string) returns (download: Option<(RegistrationRecord, string)>)
      requires Valid()
      modifies this`errors, this`invalid, this`meterStrength, this`strengthText, this`resultText, this`submitDisabled
      ensures Valid()
      ensures errors == ErrorsAfter(old(errors), form, VALIDATOR_ORDER)
      ensures download.Some? <==> FormValid(form) && hasResultLine
      ensures download.Some? ==>
        download.value == (BuildRecord(form, createdAt), FileName(Trim(form.firstName), now))
      ensures resultText == if !hasResultLine then old(resultText)
                            else if FormValid(form) then RESULT_SUCCESS else RESULT_FIX_ERRORS
      ensures submitDisabled == if FormValid(form) && hasSubmitButton then true else old(submitDisabled)
      ensures MeterShows(old(meterStrength), old(strengthText), CalcPasswordScore(form.password))
    {
      hide Check, FormValid, Trim, Wording;
      var ok := IsFormValid();
      if !ok {
        if hasResultLine {
          resultText := RESULT_FIX_ERRORS;
        }
        return None;
      }
      var data := BuildRecord(form, createdAt);
      if hasResultLine {
        resultText := RESULT_SUCCESS;
      }
      var name := FileName(data.firstName, now);
      download := if hasResultLine then Some((data, name)) else None;
      if hasSubmitButton {
        submitDisabled := true;
      }
    }
  }
}
