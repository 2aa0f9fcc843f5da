/**
 * What a successful submit produces: the record of the entered values
 * (the object handed to `JSON.stringify`) and the name of the file it is
 * offered under. The clock is an input here: the record's `createdAt` and
 * the time in the file name are two separate `toISOString()` readings.
 */
module Submission {
  import opened Wrappers
  import opened Text
  import opened FieldChecks
  import opened Rules

  /** The submitted data. Text inputs are trimmed, selections are not; the
      date of birth is `null` when left empty, the gender is the first checked
      radio's value, and the city is `null` when the page has no city input.
      No password is recorded. */
  datatype RegistrationRecord = RegistrationRecord(
    firstName: string,
    lastName: string,
    email: string,
    countryCode: string,
    phone: string,
    dob: Option<string>,
    gender: Option<string>,
    country: string,
    state: string,
    city: Option<string>,
    createdAt: string)

  /** The value of the first checked radio, or `None` when none is checked. */
  function FirstChecked(radios: seq<Radio>): (r: Option<string>)
    ensures r.None? <==> !SomeChecked(radios)
    ensures r.Some? ==> exists i | 0 <= i < |radios| ::
      radios[i].checked && radios[i].value == r.value && forall j | 0 <= j < i :: !radios[j].checked
  {
    if radios == [] then None
    else if radios[0].checked then Some(radios[0].value)
    else
      var r := FirstChecked(radios[1..]);
      assert SomeChecked(radios) ==> SomeChecked(radios[1..]) by {
        if SomeChecked(radios) {
          var i :| 0 <= i < |radios| && radios[i].checked;
          assert radios[1..][i - 1].checked;
        }
      }
      assert SomeChecked(radios[1..]) ==> SomeChecked(radios) by {
        if SomeChecked(radios[1..]) {
          var i :| 0 <= i < |radios[1..]| && radios[1..][i].checked;
          assert radios[i + 1].checked;
        }
      }
      if r.Some? then
        var i :| 0 <= i < |radios[1..]| && radios[1..][i].checked && radios[1..][i].value == r.value
          && forall j | 0 <= j < i :: !radios[1..][j].checked;
        assert forall j | 0 <= j < i + 1 :: !radios[j].checked by {
          forall j | 0 <= j < i + 1 ensures !radios[j].checked {
            if j > 0 { assert radios[j] == radios[1..][j - 1]; }
          }
        }
        assert radios[i + 1] == radios[1..][i];
        r
      else
        r
  }

  /** The object built on submit (the clock reading `createdAt` is an input). */
  function BuildRecord(f: Form, createdAt: string): RegistrationRecord {
    RegistrationRecord(
      firstName := Trim(f.firstName),
      lastName := Trim(f.lastName),
      email := Trim(f.email),
      countryCode := Trim(f.countryCode),
      phone := Trim(f.phone),
      dob := if f.dob == "" then None else Some(f.dob),
      gender := FirstChecked(f.gender),
      country := f.country,
      state := f.state,
      city := if f.city.Some? then Some(Trim(f.city.value)) else None,
      createdAt := createdAt)
  }

  /** A record built from a form that passed `isFormValid` holds only values
      the validators accept: trimmed non-empty names, a well-shaped e-mail off
      the blocklist, an allow-listed calling code, a valid phone, both
      selections, a gender whenever the page offers one and a non-empty city
      whenever the page has a city input. */
  lemma ValidFormRecord(f: Form, createdAt: string)
    requires FormValid(f)
    ensures var r := BuildRecord(f, createdAt);
      && r.firstName != "" && Trim(r.firstName) == r.firstName
      && r.lastName != "" && Trim(r.lastName) == r.lastName
      && EmailShape(r.email) && !IsDisposableEmail(r.email)
      && IsAllowedCode(r.countryCode)
      && IsValidPhone(r.phone)
      && r.country != "" && r.state != ""
      && (r.gender.Some? <==> f.gender != [])
      && (r.city.Some? <==> f.city.Some?)
      && (r.city.Some? ==> r.city.value != "" && Trim(r.city.value) == r.city.value)
      && r.createdAt == createdAt
  {
    FormValidFields(f);
    RequiredTextMeaning(f.firstName, FirstNameRequired);
    RequiredTextMeaning(f.lastName, LastNameRequired);
    TrimEmptyIff(f.firstName);
    TrimEmptyIff(f.lastName);
    TrimIdempotent(f.firstName);
    TrimIdempotent(f.lastName);
    EmailMeaning(f);
    CountryCodeMeaning(f);
    GenderMeaning(f);
    if f.city.Some? {
      CityMeaning(f);
      TrimEmptyIff(f.city.value);
      TrimIdempotent(f.city.value);
    }
    assert IsValidPhone(Trim(f.phone)) by {
      hide RequiredText, EmailOutcome, CountryCodeOutcome, CityOutcome, GenderOutcome;
    }
  }

  // ---------------------------------------------------------------- the file name

  /** `replace(/[:T]/g, '-')` on one character. */
  function StampChar(c: char): char {
    if c == ':' || c == 'T' then '-' else c
  }

  /** Every character of `s` through `StampChar`. */
  function Dashed(s: string): (r: string)
    ensures |r| == |s|
    ensures forall i | 0 <= i < |s| :: r[i] == StampChar(s[i])
  {
    if s == [] then [] else [StampChar(s[0])] + Dashed(s[1..])
  }

  /** The time part of the file name: the first 19 characters of the ISO
      timestamp with every `:` and `T` turned into `-`. */
  function Stamp(iso: string): (s: string)
    ensures |s| == if |iso| < 19 then |iso| else 19
    ensures ':' !in s && 'T' !in s
    ensures forall i | 0 <= i < |s| && iso[i] != ':' && iso[i] != 'T' :: s[i] == iso[i]
  {
    Dashed(if |iso| < 19 then iso else iso[..19])
  }

  /** The download name, `registration_<first name or "user">_<stamp>.json`. */
  function FileName(firstName: string, iso: string): string {
    "registration_" + (if firstName == "" then "user" else firstName) + "_" + Stamp(iso) + ".json"
  }

  /** The name always has the fixed prefix and extension, and carries the
      first name when there is one and `user` otherwise. */
  lemma FileNameShape(firstName: string, iso: string)
    ensures var n := FileName(firstName, iso);
      && |n| > 18 && n[..13] == "registration_" && n[|n| - 5..] == ".json"
      && (firstName != "" ==> n[13..13 + |firstName|] == firstName)
      && (firstName == "" ==> n[13..17] == "user")
  {
    var who := if firstName == "" then "user" else firstName;
    var n := FileName(firstName, iso);
    assert n == "registration_" + who + "_" + Stamp(iso) + ".json";
    assert n[..13] == "registration_";
    assert n[13..13 + |who|] == who;
  }

  /** The stamp of a timestamp as `toISOString` writes it. */
  lemma StampExample()
    ensures Stamp("2024-05-01T10:20:30.123Z") == "2024-05-01-10-20-30"
  {
  }
}
