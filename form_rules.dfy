/**
 * What the four authentication forms share: the email pattern
 * `^[A-Z0-9._%+-]+@[A-Z0-9.-]+\.[A-Z]{2,4}$` with the `i` flag, the
 * validation messages, and the answer of an authentication request.
 */
module FormRules {
  import opened Wrappers
  import opened JsValues
  import opened Text

  const EMAIL_REQUIRED := "Email is required"
  const INVALID_EMAIL := "Invalid email address"
  const FULL_NAME_REQUIRED := "Full name is required"
  const PASSWORD_REQUIRED := "Password is required"
  const PASSWORD_TOO_SHORT := "Password must be at least 6 characters"
  const CONFIRM_REQUIRED := "Confirm Password is required"
  const SUBMIT_FALLBACK := "An error occurred"
  const MIN_PASSWORD_LENGTH := 6

  /** `[A-Z]` under the `i` flag: an ASCII letter of either case. */
  predicate IsLetter(c: char) {
    ('A' <= c <= 'Z') || ('a' <= c <= 'z')
  }

  predicate IsDigit(c: char) {
    '0' <= c <= '9'
  }

  /** `[A-Z0-9._%+-]`, the characters of the part before "@". */
  predicate IsLocalChar(c: char) {
    IsLetter(c) || IsDigit(c) || c == '.' || c == '_' || c == '%' || c == '+' || c == '-'
  }

  /** `[A-Z0-9.-]`, the characters of the domain. */
  predicate IsDomainChar(c: char) {
    IsLetter(c) || IsDigit(c) || c == '.' || c == '-'
  }

  /**
   * "@" at `at` and "." at `dot` split the text into a non-empty local part,
   * a non-empty domain and a final run of 2 to 4 letters.
   */
  predicate EmailSplit(s: string, at: int, dot: int) {
    0 < at && at + 1 < dot && dot + 3 <= |s| <= dot + 5
    && s[at] == '@' && s[dot] == '.'
    && (forall i :: 0 <= i < at ==> IsLocalChar(s[i]))
    && (forall i :: at < i < dot ==> IsDomainChar(s[i]))
    && (forall i :: dot < i < |s| ==> IsLetter(s[i]))
  }

  /** The pattern read as a match: some split of the text fits it. */
  ghost predicate MatchesEmailPattern(s: string) {
    exists at, dot :: EmailSplit(s, at, dot)
  }

  /** The position of the first `c`, or |s| when there is none. */
  function FirstIndex(s: string, c: char): (r: nat)
    ensures r <= |s| && (r < |s| ==> s[r] == c)
    ensures forall i :: 0 <= i < r ==> s[i] != c
  {
    if s == [] then 0
    else if s[0] == c then 0
    else 1 + FirstIndex(s[1..], c)
  }

  /** The position of the last `c`, or -1 when there is none. */
  function LastIndex(s: string, c: char): (r: int)
    ensures -1 <= r < |s| && (0 <= r ==> s[r] == c)
    ensures forall i :: r < i < |s| ==> s[i] != c
  {
    if s == [] then -1
    else if s[|s| - 1] == c then |s| - 1
    else LastIndex(s[..|s| - 1], c)
  }

  lemma FirstIndexIs(s: string, c: char, k: nat)
    requires k < |s| && s[k] == c
    requires forall i :: 0 <= i < k ==> s[i] != c
    ensures FirstIndex(s, c) == k
  {
  }

  lemma LastIndexIs(s: string, c: char, k: nat)
    requires k < |s| && s[k] == c
    requires forall i :: k < i < |s| ==> s[i] != c
    ensures LastIndex(s, c) == k
  {
  }

  /**
   * The decision the regular expression makes, without search: neither the
   * local part nor the domain can hold "@", and the final letters cannot
   * hold ".", so only the first "@" and the last "." can split a match.
   */
  predicate IsValidEmail(s: string) {
    EmailSplit(s, FirstIndex(s, '@'), LastIndex(s, '.'))
  }

  /** Any split that fits is the one at the first "@" and the last ".". */
  lemma SplitIsUnique(s: string, at: int, dot: int)
    requires EmailSplit(s, at, dot)
    ensures at == FirstIndex(s, '@') && dot == LastIndex(s, '.')
  {
    forall i | 0 <= i < at ensures s[i] != '@' {
      assert IsLocalChar(s[i]);
    }
    FirstIndexIs(s, '@', at);
    forall i | dot < i < |s| ensures s[i] != '.' {
      assert IsLetter(s[i]);
    }
    LastIndexIs(s, '.', dot);
  }

  /** The decision agrees with the pattern on every text, both ways. */
  lemma IsValidEmailMatchesPattern(s: string)
    ensures IsValidEmail(s) <==> MatchesEmailPattern(s)
  {
    if MatchesEmailPattern(s) {
      var at, dot :| EmailSplit(s, at, dot);
      SplitIsUnique(s, at, dot);
    }
  }

  /** An address with a "+" tag, a dotted domain and a mixed-case ending is accepted. */
  lemma ValidEmailExample()
    ensures IsValidEmail("a+b@x.y.Io")
  {
    var good := "a+b@x.y.Io";
    FirstIndexIs(good, '@', 3);
    LastIndexIs(good, '.', 7);
    assert IsLocalChar(good[0]) && IsLocalChar(good[1]) && IsLocalChar(good[2]);
    assert IsDomainChar(good[4]) && IsDomainChar(good[5]) && IsDomainChar(good[6]);
    assert IsLetter(good[8]) && IsLetter(good[9]);
  }

  /** No "." after the "@", a final part of 6 letters, an empty local part. */
  lemma InvalidEmailExamples()
    ensures !IsValidEmail("ana@example")
    ensures !IsValidEmail("ana@ex.travel")
    ensures !IsValidEmail("@ex.com")
  {
    FirstIndexIs("ana@example", '@', 3);
    LastIndexIs("ana@ex.travel", '.', 6);
    FirstIndexIs("@ex.com", '@', 0);
  }

  /** A second "@" lands in the domain, where it is not allowed. */
  lemma TwoAtSignsRejected()
    ensures !IsValidEmail("a@@ex.com")
  {
    var twoAts := "a@@ex.com";
    FirstIndexIs(twoAts, '@', 1);
    assert !IsDomainChar(twoAts[2]);
  }

  /** The first failing email check: required, then the pattern. */
  function EmailError(email: string): (r: Option<string>)
    ensures r == None <==> email != "" && MatchesEmailPattern(email)
    ensures email == "" ==> r == Some(EMAIL_REQUIRED)
    ensures email != "" && r != None ==> r == Some(INVALID_EMAIL)
  {
    IsValidEmailMatchesPattern(email);
    if email == "" then Some(EMAIL_REQUIRED)
    else if !IsValidEmail(email) then Some(INVALID_EMAIL)
    else None
  }

  /** The answer of `POST /api/auth/local` or `/api/auth/local/register`. */
  datatype AuthOutcome =
    | AuthSucceeded(jwt: string, username: string, email: string)
    | AuthFailed(error: Thrown)

  /** The message recorded for `key`, if any. */
  function FieldError(errors: map<string, string>, key: string): (r: Option<string>)
    ensures r.Some? <==> key in errors
    ensures r.Some? ==> r.value == errors[key]
  {
    if key in errors then Some(errors[key]) else None
  }

  /**
   * The first failing password check of the registration forms: required,
   * then a `length` (in UTF-16 code units) of at least six.
   */
  function PasswordError(password: string): (r: Option<string>)
    ensures r == None <==> Utf16Length(password) >= MIN_PASSWORD_LENGTH
    ensures password == "" ==> r == Some(PASSWORD_REQUIRED)
    ensures password != "" && r != None ==> r == Some(PASSWORD_TOO_SHORT)
  {
    if password == "" then Some(PASSWORD_REQUIRED)
    else if Utf16Length(password) < MIN_PASSWORD_LENGTH then Some(PASSWORD_TOO_SHORT)
    else None
  }

  /**
   * The length is counted in code units: three characters outside the Basic
   * Multilingual Plane pass, three ordinary letters do not.
   */
  lemma PasswordLengthInCodeUnits()
    ensures PasswordError("\U{1F600}\U{1F600}\U{1F600}") == None
    ensures PasswordError("abc") == Some(PASSWORD_TOO_SHORT)
  {
    var astral := "\U{1F600}\U{1F600}\U{1F600}";
    assert forall i :: 0 <= i < |astral| ==> (astral[i] as int) >= 0x1_0000;
    var plain := "abc";
    assert forall i :: 0 <= i < |plain| ==> (plain[i] as int) < 0x1_0000;
  }

  /** A rule that is only "required". */
  function RequiredError(value: string, message: string): (r: Option<string>)
    ensures r == None <==> value != ""
    ensures r != None ==> r == Some(message)
  {
    if value == "" then Some(message) else None
  }

  /** The body of `POST /api/auth/local`: the email is sent as the identifier. */
  datatype LoginRequest = LoginRequest(password: string, identifier: string)

  /** The answer of a request whose body is not used. */
  datatype RequestOutcome = Succeeded | Failed(error: Thrown)
}
