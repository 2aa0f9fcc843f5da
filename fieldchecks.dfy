/**
 * The field predicates of the registration form: the e-mail shape and the
 * disposable-domain blocklist, the phone shape, the calling-code shape and
 * allow-list, and the password score with its strength label.
 */
module FieldChecks {
  import opened Text

  // ---------------------------------------------------------------- e-mail

  /** Regular-expression `[^\s@]`. */
  predicate IsWordChar(c: char) { !IsSpace(c) && c != '@' }

  /** `s` matches `[^\s@]*`. */
  predicate AllWordChars(s: string) {
    forall i | 0 <= i < |s| :: IsWordChar(s[i])
  }

  /** `d` matches `[^\s@]+\.[^\s@]{2,}` with the dot at index `j`. */
  predicate DomainSplitAt(d: string, j: int) {
    0 < j < |d| && d[j] == '.' && AllWordChars(d[..j]) && AllWordChars(d[j + 1..]) && |d| - (j + 1) >= 2
  }

  /** `d` matches `[^\s@]+\.[^\s@]{2,}`. */
  predicate MatchesDomain(d: string) {
    exists j | 0 < j < |d| :: DomainSplitAt(d, j)
  }

  /** `email` matches `^[^\s@]+@[^\s@]+\.[^\s@]{2,}$` with the `@` at index `i`. */
  predicate EmailSplitAt(email: string, i: int) {
    0 < i < |email| && email[i] == '@' && AllWordChars(email[..i]) && MatchesDomain(email[i + 1..])
  }

  /** `isValidEmailFormat`: an empty value fails, otherwise the value must match
      `^[^\s@]+@[^\s@]+\.[^\s@]{2,}$` (the `i` flag changes nothing here). */
  predicate IsValidEmailFormat(email: string) {
    email != "" && exists i | 0 < i < |email| :: EmailSplitAt(email, i)
  }

  /** No character of `s` is whitespace. */
  predicate NoSpace(s: string) {
    forall k | 0 <= k < |s| :: !IsSpace(s[k])
  }

  /** The address shape in plain words: no whitespace anywhere; exactly one `@`,
      at position `i > 0`; after it, a dot at position `j` with at least one
      character between `@` and the dot and at least two after the dot. */
  ghost predicate EmailShape(s: string) {
    && NoSpace(s)
    && exists i | 0 < i < |s| ::
         && s[i] == '@'
         && (forall k | 0 <= k < |s| && k != i :: s[k] != '@')
         && exists j | i + 1 < j < |s| - 2 :: s[j] == '.'
  }

  /** A regular-expression match, split at its `@` (index `i`) and at its dot
      (index `j` of the domain), has the plain-words shape. */
  lemma MatchHasShape(s: string, i: nat, j: nat)
    requires 0 < i < |s| && s[i] == '@' && AllWordChars(s[..i])
    requires DomainSplitAt(s[i + 1..], j)
    ensures NoSpace(s)
    ensures forall k | 0 <= k < |s| && k != i :: s[k] != '@'
    ensures i + 1 < i + 1 + j < |s| - 2 && s[i + 1 + j] == '.'
  {
    var d := s[i + 1..];
    var local, host, tld := s[..i], d[..j], d[j + 1..];
    forall k | 0 <= k < |s| && k != i ensures IsWordChar(s[k]) {
      if k < i {
        assert s[k] == local[k];
      } else if k < i + 1 + j {
        assert s[k] == d[k - i - 1] == host[k - i - 1];
      } else if k > i + 1 + j {
        assert s[k] == d[k - i - 1] == tld[k - i - 2 - j];
      }
    }
    assert s[i + 1 + j] == d[j];
  }

  /** Conversely, the plain-words shape matches the regular expression. */
  lemma ShapeMatches(s: string, i: nat, j: nat)
    requires NoSpace(s) && 0 < i < |s| && s[i] == '@'
    requires forall k | 0 <= k < |s| && k != i :: s[k] != '@'
    requires i + 1 < j < |s| - 2 && s[j] == '.'
    ensures EmailSplitAt(s, i)
  {
    var d := s[i + 1..];
    var j' := j - i - 1;
    assert d[j'] == '.';
    var local, host, tld := s[..i], d[..j'], d[j' + 1..];
    assert AllWordChars(local) by {
      forall k | 0 <= k < |local| ensures IsWordChar(local[k]) { assert local[k] == s[k]; }
    }
    assert AllWordChars(host) by {
      forall k | 0 <= k < |host| ensures IsWordChar(host[k]) { assert host[k] == d[k] == s[k + i + 1]; }
    }
    assert AllWordChars(tld) by {
      forall k | 0 <= k < |tld| ensures IsWordChar(tld[k]) { assert tld[k] == d[k + j' + 1] == s[k + j + 1]; }
    }
    assert DomainSplitAt(d, j');
  }

  lemma FormatHasShape(s: string)
    requires IsValidEmailFormat(s)
    ensures EmailShape(s)
  {
    var i :| 0 < i < |s| && EmailSplitAt(s, i);
    var j :| 0 < j < |s[i + 1..]| && DomainSplitAt(s[i + 1..], j);
    MatchHasShape(s, i, j);
  }

  lemma ShapeHasFormat(s: string)
    requires EmailShape(s)
    ensures IsValidEmailFormat(s)
  {
    var i :| 0 < i < |s| && s[i] == '@' && (forall k | 0 <= k < |s| && k != i :: s[k] != '@')
             && exists j | i + 1 < j < |s| - 2 :: s[j] == '.';
    var j :| i + 1 < j < |s| - 2 && s[j] == '.';
    ShapeMatches(s, i, j);
  }

  /** `isValidEmailFormat` accepts exactly the addresses of `EmailShape`. */
  lemma EmailFormatIff(s: string)
    ensures IsValidEmailFormat(s) <==> EmailShape(s)
  {
    if IsValidEmailFormat(s) { FormatHasShape(s); }
    if EmailShape(s) { ShapeHasFormat(s); }
  }

  /** Providers of throw-away addresses, rejected outright (js/register.js:20-25). */
  const DISPOSABLE_DOMAINS: seq<string> := [
    "mailinator.com", "10minutemail.com", "guerrillamail.com", "trashmail.com", "tempmail.com",
    "guerrillamail.net", "getnada.com", "dispostable.com", "yopmail.com", "spamgourmet.com",
    "maildrop.cc", "mintemail.com", "throwawaymail.com", "moakt.com", "tempr.email",
    "trashmail.net", "spam4.me", "mail-temp.net", "anonymbox.com", "fakeinbox.com"
  ]

  lemma DisposableHasNoAt(d: string)
    requires d in DISPOSABLE_DOMAINS
    ensures '@' !in d
  {
  }

  /** "a@b.co" has the e-mail format. */
  lemma EmailFormatAccepts()
    ensures IsValidEmailFormat("a@b.co")
  {
    var good := "a@b.co";
    assert DomainSplitAt(good[2..], 1);
    assert EmailSplitAt(good, 1);
  }

  /** "a@b" (no dot after the `@`) and "plainaddress" (no `@`) do not. */
  lemma EmailFormatRejects()
    ensures !IsValidEmailFormat("a@b")
    ensures !IsValidEmailFormat("plainaddress")
  {
    if IsValidEmailFormat("a@b") {
      FormatHasShape("a@b");
    }
  }

  /** `isDisposableEmail`: the lower-cased text after the last `@` is a listed domain. */
  predicate IsDisposableEmail(email: string) {
    email != "" && '@' in email && ToLower(AfterLast(email, '@')) in DISPOSABLE_DOMAINS
  }

  lemma LowerKeepsAt(s: string)
    ensures '@' in s ==> '@' in ToLower(s)
  {
    if '@' in s {
      var k :| 0 <= k < |s| && s[k] == '@';
      assert ToLower(s)[k] == '@';
    }
  }

  /** Any listed domain, written in any mix of letter cases after any local part,
      makes the address disposable. */
  lemma DisposableInAnyCase(local: string, domain: string)
    requires ToLower(domain) in DISPOSABLE_DOMAINS
    ensures IsDisposableEmail(local + "@" + domain)
  {
    DisposableHasNoAt(ToLower(domain));
    LowerKeepsAt(domain);
    AfterLastOfSuffix(local, '@', domain);
    assert (local + "@" + domain)[|local|] == '@';
  }

  // ---------------------------------------------------------------- phone

  /** Regular-expression `[\s-()]`: whitespace, hyphen and parentheses. */
  predicate IsPhoneSeparator(c: char) { IsSpace(c) || c == '-' || c == '(' || c == ')' }

  /** `phone.replace(/[\s-()]/g, '')`: `s` with every separator deleted, the rest kept in order. */
  function StripSeparators(s: string): (r: string)
    ensures |r| <= |s|
    ensures forall c :: c in r <==> c in s && !IsPhoneSeparator(c)
  {
    if s == [] then []
    else (if IsPhoneSeparator(s[0]) then [] else [s[0]]) + StripSeparators(s[1..])
  }

  lemma {:induction false} StripSeparatorsAppend(a: string, b: string)
    ensures StripSeparators(a + b) == StripSeparators(a) + StripSeparators(b)
  {
    if a != [] {
      assert (a + b)[1..] == a[1..] + b;
      StripSeparatorsAppend(a[1..], b);
    } else {
      assert a + b == b;
    }
  }

  lemma {:induction false} StripIgnoresTrimStart(s: string)
    ensures StripSeparators(TrimStart(s)) == StripSeparators(s)
  {
    if s != [] && IsSpace(s[0]) { StripIgnoresTrimStart(s[1..]); }
  }

  lemma {:induction false} StripIgnoresTrimEnd(s: string)
    ensures StripSeparators(TrimEnd(s)) == StripSeparators(s)
  {
    if s != [] && IsSpace(s[|s| - 1]) {
      var init := s[..|s| - 1];
      StripIgnoresTrimEnd(init);
      StripSeparatorsAppend(init, [s[|s| - 1]]);
      assert s == init + [s[|s| - 1]];
    }
  }

  /** Trimming never changes what remains once the separators are stripped. */
  lemma StripIgnoresTrim(s: string)
    ensures StripSeparators(Trim(s)) == StripSeparators(s)
  {
    StripIgnoresTrimEnd(TrimStart(s));
    StripIgnoresTrimStart(s);
  }

  /** `isValidPhone`: non-empty, and the separator-free rest matches `^\d{6,12}$`. */
  predicate IsValidPhone(phone: string) {
    && phone != ""
    && var cleaned := StripSeparators(phone);
       6 <= |cleaned| <= 12 && forall i | 0 <= i < |cleaned| :: IsDigit(cleaned[i])
  }

  /** The number of ASCII digits in `s`. */
  function CountDigits(s: string): nat {
    if s == [] then 0 else (if IsDigit(s[0]) then 1 else 0) + CountDigits(s[1..])
  }

  /** Every character of `s` is a digit or a separator. */
  predicate DigitsAndSeparators(s: string) {
    forall i | 0 <= i < |s| :: IsDigit(s[i]) || IsPhoneSeparator(s[i])
  }

  lemma {:induction false} StripCountsDigits(s: string)
    requires DigitsAndSeparators(s)
    ensures |StripSeparators(s)| == CountDigits(s)
  {
    if s != [] {
      assert DigitsAndSeparators(s[1..]) by {
        forall i | 0 <= i < |s| - 1 ensures IsDigit(s[1..][i]) || IsPhoneSeparator(s[1..][i]) {
          assert s[1..][i] == s[i + 1];
        }
      }
      StripCountsDigits(s[1..]);
    }
  }

  /** A phone number is accepted exactly when it is written with digits and
      separators only and holds between 6 and 12 digits. */
  lemma PhoneIff(phone: string)
    ensures IsValidPhone(phone) <==> DigitsAndSeparators(phone) && 6 <= CountDigits(phone) <= 12
  {
    var cleaned := StripSeparators(phone);
    if IsValidPhone(phone) {
      forall i | 0 <= i < |phone| ensures IsDigit(phone[i]) || IsPhoneSeparator(phone[i]) {
        if !IsPhoneSeparator(phone[i]) {
          assert phone[i] in cleaned;
        }
      }
      StripCountsDigits(phone);
    }
    if DigitsAndSeparators(phone) && 6 <= CountDigits(phone) <= 12 {
      StripCountsDigits(phone);
      forall i | 0 <= i < |cleaned| ensures IsDigit(cleaned[i]) {
        assert cleaned[i] in phone;
      }
    }
  }

  // ---------------------------------------------------------------- calling code

  /** `/^\+\d{1,4}$/`: a plus sign followed by one to four digits. */
  predicate IsCallingCodeShape(v: string) {
    2 <= |v| <= 5 && v[0] == '+' && forall i | 1 <= i < |v| :: IsDigit(v[i])
  }

  /** The curated calling codes, one constant per line of the literal in
      js/register.js:31-37; the literal repeats a few, which a set keeps once.
      The split is there for `AllowedCodesHaveShape`: the verifier cannot
      settle the shape of all sixty codes at once, but it can line by line. */
  const CODES_LINE_1: seq<string> := ["+1", "+7", "+20", "+27", "+30", "+31", "+32", "+33", "+34", "+36", "+39", "+40", "+44", "+49"]
  const CODES_LINE_2: seq<string> := ["+52", "+55", "+61", "+62", "+63", "+64", "+65", "+66", "+81", "+82", "+84", "+86", "+90"]
  const CODES_LINE_3: seq<string> := ["+91", "+94", "+98", "+351", "+353", "+358", "+212", "+218", "+260", "+254", "+256"]
  const CODES_LINE_4: seq<string> := ["+234", "+234", "+254", "+353", "+358", "+370", "+380", "+971", "+966", "+962", "+880"]
  const CODES_LINE_5: seq<string> := ["+421", "+420", "+43", "+48", "+47", "+46", "+41", "+353", "+385", "+371", "+372"]

  /** `new Set([...])` of the five lines above. */
  const VALID_COUNTRY_CODES: set<string> :=
    set c | c in CODES_LINE_1 + CODES_LINE_2 + CODES_LINE_3 + CODES_LINE_4 + CODES_LINE_5

  /** `validCountryCodes.has(v)`. */
  predicate IsAllowedCode(v: string) { v in VALID_COUNTRY_CODES }

  /** Every allow-listed code already has the `+digits` shape, so passing the
      allow-list implies passing the shape check. */
  lemma AllowedCodesHaveShape(v: string)
    ensures IsAllowedCode(v) ==> IsCallingCodeShape(v)
  {
    if v !in VALID_COUNTRY_CODES {
    } else if v in CODES_LINE_1 {
    } else if v in CODES_LINE_2 {
    } else if v in CODES_LINE_3 {
    } else if v in CODES_LINE_4 {
    }
  }

  /** "+91" is on the list; "91" lacks the plus sign. */
  lemma CallingCodeAccepts()
    ensures IsCallingCodeShape("+91") && IsAllowedCode("+91")
    ensures !IsCallingCodeShape("91")
  {
    assert "+91" in CODES_LINE_3;
  }

  /** "+9999" has the shape but is not on the list. */
  lemma CallingCodeUnlisted()
    ensures IsCallingCodeShape("+9999") && !IsAllowedCode("+9999")
  {
    var c := "+9999";
    assert c !in CODES_LINE_1 && c !in CODES_LINE_2 && c !in CODES_LINE_3;
    assert c !in CODES_LINE_4 && c !in CODES_LINE_5;
  }

  // ---------------------------------------------------------------- password

  predicate HasUpper(pw: string) { exists i | 0 <= i < |pw| :: IsUpper(pw[i]) }
  predicate HasDigit(pw: string) { exists i | 0 <= i < |pw| :: IsDigit(pw[i]) }
  /** Regular-expression `[^A-Za-z0-9]`. */
  predicate HasSymbol(pw: string) { exists i | 0 <= i < |pw| :: !IsAlphanumeric(pw[i]) }

  /** `calcPasswordScore`: one point per criterion met, an empty password scores 0. */
  function CalcPasswordScore(pw: string): (score: nat)
    ensures score <= 4
    ensures pw == "" ==> score == 0
  {
    if pw == "" then 0
    else
      (if |pw| >= 8 then 1 else 0) + (if HasUpper(pw) then 1 else 0)
      + (if HasDigit(pw) then 1 else 0) + (if HasSymbol(pw) then 1 else 0)
  }

  /** The four criteria of the strength meter. */
  datatype Criterion = MinLength | Uppercase | Digit | Symbol

  predicate Meets(pw: string, c: Criterion) {
    match c
    case MinLength => |pw| >= 8
    case Uppercase => HasUpper(pw)
    case Digit => HasDigit(pw)
    case Symbol => HasSymbol(pw)
  }

  function SatisfiedCriteria(pw: string): (s: set<Criterion>)
    ensures forall c :: c in s <==> Meets(pw, c)
  {
    set c | c in {MinLength, Uppercase, Digit, Symbol} && Meets(pw, c)
  }

  /** The criterion `c` alone when `met`, nothing otherwise. */
  function IfMet(met: bool, c: Criterion): (s: set<Criterion>)
    ensures |s| == if met then 1 else 0
    ensures forall x :: x in s <==> met && x == c
  {
    if met then {c} else {}
  }

  /** The criteria among the four whose flag is set. */
  function Flagged(a: bool, b: bool, c: bool, d: bool): set<Criterion> {
    IfMet(a, MinLength) + IfMet(b, Uppercase) + IfMet(c, Digit) + IfMet(d, Symbol)
  }

  lemma FlaggedSize(a: bool, b: bool, c: bool, d: bool)
    ensures |Flagged(a, b, c, d)| ==
      (if a then 1 else 0) + (if b then 1 else 0) + (if c then 1 else 0) + (if d then 1 else 0)
  {
    var sa, sb, sc, sd := IfMet(a, MinLength), IfMet(b, Uppercase), IfMet(c, Digit), IfMet(d, Symbol);
    assert |sa + sb| == |sa| + |sb| by { assert sa !! sb; }
    assert |sa + sb + sc| == |sa + sb| + |sc| by { assert (sa + sb) !! sc; }
    assert |sa + sb + sc + sd| == |sa + sb + sc| + |sd| by { assert (sa + sb + sc) !! sd; }
  }

  lemma FlaggedMembers(a: bool, b: bool, c: bool, d: bool, x: Criterion)
    ensures x in Flagged(a, b, c, d) <==>
      match x case MinLength => a case Uppercase => b case Digit => c case Symbol => d
  {
    match x
    case MinLength =>
    case Uppercase =>
    case Digit =>
    case Symbol =>
  }

  /** The criteria met, one criterion at a time. */
  lemma SatisfiedCriteriaFlagged(pw: string)
    ensures SatisfiedCriteria(pw) == Flagged(|pw| >= 8, HasUpper(pw), HasDigit(pw), HasSymbol(pw))
  {
    hide HasUpper, HasDigit, HasSymbol, Flagged;
    forall x ensures x in SatisfiedCriteria(pw) <==> x in Flagged(|pw| >= 8, HasUpper(pw), HasDigit(pw), HasSymbol(pw)) {
      FlaggedMembers(|pw| >= 8, HasUpper(pw), HasDigit(pw), HasSymbol(pw), x);
    }
  }

  /** The score is the number of criteria the password meets. */
  lemma ScoreCountsCriteria(pw: string)
    ensures CalcPasswordScore(pw) == |SatisfiedCriteria(pw)|
  {
    SatisfiedCriteriaFlagged(pw);
    FlaggedSize(|pw| >= 8, HasUpper(pw), HasDigit(pw), HasSymbol(pw));
    assert pw == "" ==> !HasUpper(pw) && !HasDigit(pw) && !HasSymbol(pw);
  }

  /** The meter's labels, indexed by score (js/register.js:208). */
  const STRENGTH_LABELS: seq<string> := ["—", "Very weak", "Weak", "Good", "Strong"]

  /** `labels[Math.min(score, labels.length - 1)]`. */
  function StrengthLabel(score: nat): (shown: string)
    ensures shown in STRENGTH_LABELS
    ensures score >= |STRENGTH_LABELS| - 1 ==> shown == "Strong"
  {
    STRENGTH_LABELS[if score < |STRENGTH_LABELS| - 1 then score else |STRENGTH_LABELS| - 1]
  }

  /** The label for each score from 0 to 3; higher scores show "Strong". */
  lemma StrengthLabelsByScore()
    ensures StrengthLabel(0) == "—" && StrengthLabel(1) == "Very weak"
    ensures StrengthLabel(2) == "Weak" && StrengthLabel(3) == "Good"
  {
  }

  /** Passwords of eight lower-case letters and below score at most 1. */
  lemma PasswordScoreLow()
    ensures CalcPasswordScore("") == 0
    ensures CalcPasswordScore("abcdefgh") == 1
  {
  }

  /** An upper-case letter, then a digit, then a symbol each add a point. */
  lemma PasswordScoreHigh()
    ensures CalcPasswordScore("Abcdefgh") == 2
    ensures CalcPasswordScore("Abcdefg1") == 3
    ensures CalcPasswordScore("Abcdefg1!") == 4
  {
    var w2, w3, w4 := "Abcdefgh", "Abcdefg1", "Abcdefg1!";
    assert IsUpper(w2[0]) && IsUpper(w3[0]) && IsUpper(w4[0]);
    assert IsDigit(w3[7]) && IsDigit(w4[7]);
    assert !IsAlphanumeric(w4[8]);
  }

  /** A non-empty password reaches the acceptance threshold exactly when the
      meter reads "Good" or "Strong". */
  lemma ThresholdMatchesLabel(pw: string)
    ensures CalcPasswordScore(pw) >= 3 <==> StrengthLabel(CalcPasswordScore(pw)) in {"Good", "Strong"}
  {
    var s := CalcPasswordScore(pw);
    assert s == 0 || s == 1 || s == 2 || s == 3 || s == 4;
  }
}
