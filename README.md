# Registration form validation, in Dafny

This project models the client-side logic of a registration page (`js/register.js`).

The page holds these fields:
- first and last name, e-mail;
- calling code and phone number;
- date of birth;
- gender radios;
- country and state selects, fed by a country → state table;
- an optional city input;
- password and its confirmation, with a strength meter;
- a terms check box.

Twelve validators each check one field. They write the field's error element and mark its input `invalid`. `isFormValid` runs all twelve. `checkFormState` is a cheaper "quick gate" that enables or disables the submit button. Submitting a valid form builds a record of the entered values and offers it under a generated file name.

The model is split into modules that follow the program's parts:

- `Text`: JavaScript's `trim()`, and the whitespace and character classes the regular expressions use. Also ASCII lower-casing and "the text after the last `@`".
- `FieldChecks`: the pure field predicates.
  - `isValidEmailFormat`, with the proved equivalence between the regular expression and a plain description of the address shape.
  - `isDisposableEmail` and its blocklist.
  - `isValidPhone`.
  - The calling-code shape and allow-list.
  - `calcPasswordScore` and the meter's label.
- `Ordering`: the order `Array.prototype.sort()` gives strings. This module proves it is a strict total order. It also defines the sorted listing of a set of keys, and `SortedKeys`, a method that builds it by insertion.
- `CountryData`: the fallback table, `getCountryData`, and the state names listed for a country.
- `Rules`: the form's values as a datatype and each validator as a function giving an `Outcome`. An outcome is either pass-and-clear, fail-with-a-message or pass-without-writing. This module also holds:
  - the aggregate verdict and the error table after running validators in order;
  - the quick gate;
  - the lemmas stating what each validator accepts.
- `Submission`: the record built on submit and the download file name.
- `Page`: the page as a class whose handlers change its state in place:
  - the error texts and `invalid` marks;
  - the option lists;
  - the meter;
  - the result line;
  - the button's `disabled` flag.

  Every `validate*` function, `setError`, `updatePasswordMeter`, `isFormValid` (a `for` loop over the validators), `checkFormState`, `populateCountries`/`populateStates` (loops appending options), the country-change handler and the submit handler is a method. Each method is proved against the functions of `Rules`, `CountryData`, `Ordering` and `Submission`.

The clock is an input: `Submit` takes the two `toISOString()` readings as strings. The externally supplied `window.COUNTRY_DATA` is a constructor argument. Which optional elements exist is also fixed at construction: the meter, the strength label, the submit button and the result line. A city input that does not exist is `None`, and a page without gender radios has an empty radio list.

Two behaviours follow from the code as written, and the model keeps them:
- `validateState` only requires a non-empty state value. It does not check that the state belongs to the selected country.
- Rebuilding a select through `innerHTML` resets its value to the placeholder. So the country-change handler always reports "State is required" and disables submit (`Page.RegistrationPage.OnCountryChange`).

## Model

| member | source | states |
|---|---|---|
| `Text.TrimStart` | js/register.js:112 | the result is a suffix of the input, everything cut off is whitespace, and it does not start with whitespace |
| `Text.TrimEnd` | js/register.js:112 | the result is a prefix of the input, everything cut off is whitespace, and it does not end with whitespace |
| `Text.TrimIsSlice` | js/register.js:112 | `trim()` is a contiguous slice with only whitespace removed on either side, not starting or ending with whitespace |
| `Text.TrimEmptyIff` | js/register.js:113 | the trimmed value is non-empty exactly when the value has a non-whitespace character |
| `Text.TrimIdempotent` | js/register.js:311-315 | trimming twice equals trimming once |
| `Text.ToLower` | js/register.js:58 | lower-casing keeps the length and maps each character independently |
| `Text.AfterLast` | js/register.js:58 | `split('@').pop()` is a suffix free of the separator, preceded by the separator unless it is the whole string |
| `Text.AfterLastOfSuffix` | js/register.js:58 | for `prefix + "@" + tail` with no `@` in `tail`, the text after the last `@` is `tail` |
| `FieldChecks.MatchHasShape` | js/register.js:53 | a match of `^[^\s@]+@[^\s@]+\.[^\s@]{2,}$` has no whitespace, one `@`, and a dot with a character before it and two after |
| `FieldChecks.ShapeMatches` | js/register.js:53 | conversely, that shape matches the regular expression |
| `FieldChecks.FormatHasShape` | js/register.js:51-55 | `isValidEmailFormat` implies the plain address shape |
| `FieldChecks.ShapeHasFormat` | js/register.js:51-55 | the plain address shape implies `isValidEmailFormat` |
| `FieldChecks.EmailFormatIff` | js/register.js:51-55 | `isValidEmailFormat(s)` holds exactly when `s` has the plain address shape |
| `FieldChecks.EmailFormatAccepts` | js/register.js:51-55 | `"a@b.co"` has the e-mail format |
| `FieldChecks.EmailFormatRejects` | js/register.js:51-55 | `"a@b"` (no dot after the `@`) and `"plainaddress"` (no `@`) do not have the e-mail format |
| `FieldChecks.DisposableHasNoAt` | js/register.js:20-25 | no blocklisted domain contains `@` |
| `FieldChecks.LowerKeepsAt` | js/register.js:57-58 | lower-casing keeps every `@` |
| `FieldChecks.DisposableInAnyCase` | js/register.js:56-60 | any local part followed by `@` and a listed domain, in any letter case, is disposable |
| `FieldChecks.StripSeparators` | js/register.js:63 | deleting separators keeps exactly the non-separator characters and never lengthens |
| `FieldChecks.StripSeparatorsAppend` | js/register.js:63 | deleting separators distributes over concatenation |
| `FieldChecks.StripIgnoresTrimStart` | js/register.js:140-142 | leading whitespace does not change the separator-free phone |
| `FieldChecks.StripIgnoresTrimEnd` | js/register.js:140-142 | trailing whitespace does not change the separator-free phone |
| `FieldChecks.StripIgnoresTrim` | js/register.js:140-142 | trimming before `isValidPhone` does not change the separator-free phone |
| `FieldChecks.StripCountsDigits` | js/register.js:63-64 | for a value of digits and separators, the cleaned length is its number of digits |
| `FieldChecks.PhoneIff` | js/register.js:61-65 | `isValidPhone` holds exactly when the value has only digits, whitespace, `-`, `(` and `)`, with 6 to 12 digits |
| `FieldChecks.AllowedCodesHaveShape` | js/register.js:31-37 | every allow-listed calling code has the `+` and one-to-four-digits shape |
| `FieldChecks.CallingCodeAccepts` | js/register.js:31-37 | `"+91"` has the shape and is on the list; `"91"`, without the plus sign, fails the shape |
| `FieldChecks.CallingCodeUnlisted` | js/register.js:31-37 | `"+9999"` has the shape but is not on the list |
| `FieldChecks.CalcPasswordScore` | js/register.js:66-74 | the score is at most 4, and the empty password scores 0 |
| `FieldChecks.SatisfiedCriteriaFlagged` | js/register.js:69-72 | the satisfied criteria are the four tests taken one at a time |
| `FieldChecks.PasswordScoreLow` | js/register.js:66-74 | `""` scores 0 and `"abcdefgh"` scores 1 |
| `FieldChecks.PasswordScoreHigh` | js/register.js:66-74 | `"Abcdefgh"` scores 2, `"Abcdefg1"` 3 and `"Abcdefg1!"` 4 |
| `FieldChecks.ScoreCountsCriteria` | js/register.js:66-74 | the score equals the number of criteria met: length at least 8, an upper-case letter, a digit, a character outside `[A-Za-z0-9]` |
| `FieldChecks.StrengthLabel` | js/register.js:208-209 | the label is one of the five labels, and any score of 4 or more shows "Strong" |
| `FieldChecks.StrengthLabelsByScore` | js/register.js:208-209 | scores 0 to 3 show "—", "Very weak", "Weak" and "Good" |
| `FieldChecks.ThresholdMatchesLabel` | js/register.js:173 | the score passes `validatePassword`'s threshold exactly when the meter reads "Good" or "Strong" |
| `Ordering.BeforeIrreflexive` | js/register.js:86 | no string sorts before itself |
| `Ordering.BeforeAsymmetric` | js/register.js:86 | two strings never sort before each other |
| `Ordering.BeforeTransitive` | js/register.js:86 | the sort order is transitive |
| `Ordering.BeforeTotal` | js/register.js:86 | of two different strings, one sorts before the other |
| `Ordering.Insert` | js/register.js:86 | inserting a new name into an ascending list keeps it ascending, adds exactly that name and grows it by one |
| `Ordering.HasLeast` | js/register.js:86 | a non-empty set of names has a least one |
| `Ordering.Listing` | js/register.js:86 | the listing is ascending, lists exactly the keys, and has one entry per key |
| `Ordering.SortedKeys` | js/register.js:101 | `Object.keys(...).sort()` returns the ascending listing of the keys |
| `Ordering.ListingEmptyIff` | js/register.js:86 | a sorted listing is empty exactly when its key set is |
| `Ordering.SortedListingUnique` | js/register.js:86 | a set of keys has only one ascending listing |
| `CountryData.GetCountryData` | js/register.js:77-79 | the external table when present and non-empty, the fallback otherwise; never empty |
| `CountryData.StateNames` | js/register.js:98-101 | no states for an empty or unknown country or one without `states`, otherwise the keys of its `states` |
| `CountryData.FallbackStates` | js/register.js:11-14 | the fallback has India and United States, with three states each |
| `Rules.Wording` | js/register.js:113-185 | no validator message is empty |
| `Rules.Report` | js/register.js:42-49 | `setError` is skipped only by a validator that returns without writing, and the text written is empty exactly when the validator passes |
| `Rules.RequiredTextMeaning` | js/register.js:111-120 | a trimmed required text passes exactly when it has a visible character, otherwise it writes its message |
| `Rules.EmailMeaning` | js/register.js:121-127 | the e-mail passes exactly when its trimmed text has the address shape and is not disposable; the message names the first rule broken |
| `Rules.CountryCodeMeaning` | js/register.js:128-138 | the code passes exactly when its trimmed text is allow-listed; blank is "required"; a well-formed unlisted code is quoted in the message |
| `Rules.PhoneMeaning` | js/register.js:139-144 | the phone passes exactly when it holds only digits and separators with 6 to 12 digits; blank is "required" |
| `Rules.CityMeaning` | js/register.js:155-161 | without a city input it passes and writes nothing; otherwise it passes exactly when the city has a visible character |
| `Rules.GenderMeaning` | js/register.js:162-167 | without radios it passes and writes nothing; otherwise it passes exactly when a radio is checked |
| `Rules.PasswordMeaning` | js/register.js:168-175 | the password passes exactly when it meets at least three criteria; empty is "required" |
| `Rules.SimpleFieldsMeaning` | js/register.js:145-187 | country and state pass exactly when selected; the confirmation exactly when it is non-empty and equals the password; terms exactly when checked |
| `Rules.Outcomes` | js/register.js:190-195 | one outcome per validator in the list |
| `Rules.Position` | js/register.js:190-195 | every field has its place in the validator list |
| `Rules.OnlyOptionalFieldsSilent` | js/register.js:155-167 | only the city and gender validators can return without writing |
| `Rules.ReplayKeys` | js/register.js:42-49 | running validators adds error entries for exactly the fields among them that write |
| `Rules.ReplayAt` | js/register.js:42-49 | after validators run, a field among them that writes shows what it wrote, and every other entry is unchanged |
| `Rules.ErrorsAfterStep` | js/register.js:197 | running one more validator records its report on top of the earlier ones |
| `Rules.AllErrorsReported` | js/register.js:190-199 | after `isFormValid`, each writing field's error is empty exactly when its validator passed |
| `Rules.AllPassStep` | js/register.js:197 | one more validator keeps `ok` true exactly when it passes |
| `Rules.FormValidIff` | js/register.js:190-199 | `isFormValid` is true exactly when all twelve validators pass |
| `Rules.FormValidFields` | js/register.js:190-199 | a valid form passes each validator and has country, state, password and terms set |
| `Rules.FormValidOpensGate` | js/register.js:371-400 | a form that passes `isFormValid` is never held back by the quick gate |
| `Rules.GateIgnoresPasswordStrength` | js/register.js:390-391 | the gate reads the password and confirmation only for being non-empty |
| `Rules.GateIgnoresLists` | js/register.js:395-397 | the gate reads the e-mail and calling code only through the format checks, never the blocklist or the allow-list |
| `Submission.FirstChecked` | js/register.js:317-321 | `None` exactly when no radio is checked; otherwise the value of a checked radio with none checked before it |
| `Submission.ValidFormRecord` | js/register.js:305-326 | the record of a valid form has trimmed non-empty names, a well-shaped non-disposable e-mail, an allow-listed code, a valid phone, both selections, a gender exactly when radios exist, and a non-empty trimmed city exactly when the input exists |
| `Submission.Dashed` | js/register.js:335 | `replace(/[:T]/g, '-')` keeps the length and maps each character |
| `Submission.Stamp` | js/register.js:335 | the stamp has the first `min(19, length)` characters, contains no `:` and no `T`, and keeps every other character |
| `Submission.FileNameShape` | js/register.js:335 | the name starts with `registration_`, ends with `.json`, and carries the first name, or `user` when it is empty |
| `Submission.StampExample` | js/register.js:335 | `2024-05-01T10:20:30.123Z` stamps as `2024-05-01-10-20-30` |
| `Page.Options` | js/register.js:86-91 | one option per name, in order, with value and text both the name |
| `Page.ListedOptionsSorted` | js/register.js:101-107 | the listed options are strictly ascending and are exactly the keys |
| `Page.RegistrationPage.SetError` | js/register.js:42-49 | only the field's error text changes; its input is marked invalid exactly when the message is non-empty |
| `Page.RegistrationPage.AnyChecked` | js/register.js:375-380 | the radio scan finds a checked radio exactly when one exists |
| `Page.RegistrationPage.ValidateFirstName` | js/register.js:111-115 | returns the first-name verdict and writes only its own entry |
| `Page.RegistrationPage.ValidateLastName` | js/register.js:116-120 | returns the last-name verdict and writes only its own entry |
| `Page.RegistrationPage.ValidateEmail` | js/register.js:121-127 | returns the e-mail verdict and writes only its own entry |
| `Page.RegistrationPage.ValidateCountryCode` | js/register.js:128-138 | returns the calling-code verdict and writes only its own entry |
| `Page.RegistrationPage.ValidatePhone` | js/register.js:139-144 | returns the phone verdict and writes only its own entry |
| `Page.RegistrationPage.ValidateCountry` | js/register.js:145-149 | returns the country verdict and writes only its own entry |
| `Page.RegistrationPage.ValidateState` | js/register.js:150-154 | returns the state verdict and writes only its own entry |
| `Page.RegistrationPage.ValidateCity` | js/register.js:155-161 | returns the city verdict and writes its own entry, or nothing when there is no city input |
| `Page.RegistrationPage.ValidateGender` | js/register.js:162-167 | returns the gender verdict and writes its own entry, or nothing when there are no radios |
| `Page.RegistrationPage.UpdatePasswordMeter` | js/register.js:202-210 | without a meter nothing changes; otherwise the meter takes the score, and the label, when present, reads `Strength: ` and the label for the score |
| `Page.RegistrationPage.ValidatePassword` | js/register.js:168-175 | returns the password verdict, writes only its own entry, and leaves the meter showing the score |
| `Page.RegistrationPage.ValidateConfirmPassword` | js/register.js:176-182 | returns the confirmation verdict and writes only its own entry |
| `Page.RegistrationPage.ValidateTerms` | js/register.js:183-187 | returns the terms verdict and writes only its own entry |
| `Page.RegistrationPage.RunValidator` | js/register.js:190-195 | calling one listed validator gives that field's verdict and error-table update |
| `Page.RegistrationPage.IsFormValid` | js/register.js:190-199 | every validator runs even after a failure; the result is true exactly when all pass; the error table is the result of all twelve writes in order |
| `Page.RegistrationPage.CheckFormState` | js/register.js:371-400 | without a button nothing changes; otherwise submit is disabled exactly when the quick gate is closed |
| `Page.RegistrationPage.PopulateCountries` | js/register.js:81-92 | the country list is the placeholder followed by the data's countries in ascending order, and no country is selected |
| `Page.RegistrationPage.PopulateStates` | js/register.js:94-108 | the state list is the placeholder followed by the country's states in ascending order (placeholder alone for an empty or unknown country), and no state is selected |
| `Page.RegistrationPage.OnCountryChange` | js/register.js:231-237 | the states of the chosen country are listed, the country error is updated, the state error always reads "State is required", and submit is disabled |
| `Page.RegistrationPage.Submit` | js/register.js:303-341 | all validators run; a download is offered exactly when the form is valid and the page has a result line to attach the link to, holding the built record and its file name; a present result line shows the verdict's message; a valid form disables a present button |

## Left out

- Event wiring (`DOMContentLoaded`, the input, change and radio listeners other than the country change): browser plumbing that only calls the modelled validators and `checkFormState`.
- The state-select change handler (js/register.js:241-245): it is `validateState` followed by `checkFormState`, both modelled.
- The `filled` CSS classes, the footer year, the reset button and the meter's `.bar` element: presentation only.
- The `className` of the result line, the Blob, the object URL and the download link: the model returns the record and the file name instead.
- `JSON.stringify` of the record: a library call.
- The clock: the two `toISOString()` readings are string inputs of `Submit`.
- Unicode beyond ASCII in `toLowerCase()`: lower-casing is modelled for `A`–`Z` only.
- UTF-16 code units: strings are sequences of code points. Lengths, `slice`, and the `sort()` order differ from JavaScript only for characters outside the Basic Multilingual Plane.
- Missing form elements: every field's input and error element, and both selects, are assumed present, apart from the optional city input, the gender radios, the meter, the label, the submit button and the result line (`formResult`). The `invalid` class is tracked for every field.
- `null` or non-object entries in `window.COUNTRY_DATA`, and keys inherited through the object prototype: an entry is a record whose `states` may be missing, and only own keys are looked up.
- The worked phone examples (`123-456-7890` accepted, `12345` rejected) are covered by `FieldChecks.PhoneIff` but not stated as separate lemmas: evaluating the literals costs the verifier more than the general statement does.
