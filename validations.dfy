/** Input validation and sanitisation of subscriber data
    (vibe-coding-landing/src/lib/validations.ts).

    The validators collect field-tagged errors by successive pushes onto a
    local list; each is a method proved equal to a declarative statement of
    which errors arise. The two regular expressions are hand-written
    scanners proved equal to what the patterns mean. */
module Validations {
  import opened Types
  import opened Strings

  // ---------------------------------------------------------------------------
  // The email pattern /^[^\s@]+@[^\s@]+\.[^\s@]+$/
  // ---------------------------------------------------------------------------

  /** `[^\s@]` */
  predicate EmailPartChar(c: char) {
    !IsSpace(c) && c != '@'
  }

  /** `[^\s@]+` */
  predicate EmailPart(s: string) {
    |s| > 0 && forall k :: 0 <= k < |s| ==> EmailPartChar(s[k])
  }

  /** The whole string is `local` `@` `host` `.` `tld` with the '@' at `i`
      and the chosen '.' at `j`, each part a non-empty run of `[^\s@]`. */
  predicate EmailSplit(s: string, i: int, j: int) {
    0 <= i < j < |s| && s[i] == '@' && s[j] == '.'
    && EmailPart(s[..i]) && EmailPart(s[i + 1..j]) && EmailPart(s[j + 1..])
  }

  /** What the email regular expression accepts: some way to split the string. */
  ghost predicate EmailPattern(s: string) {
    exists i, j :: EmailSplit(s, i, j)
  }

  /** A string the pattern accepts has no whitespace and exactly one '@'. */
  lemma SplitShape(s: string, i: int, j: int)
    requires EmailSplit(s, i, j)
    ensures 0 < i && i + 1 < j < |s| - 1
    ensures forall k :: 0 <= k < |s| ==> !IsSpace(s[k]) && (s[k] == '@' <==> k == i)
  {
    forall k | 0 <= k < |s| ensures !IsSpace(s[k]) && (s[k] == '@' <==> k == i) {
      if k < i {
        assert s[..i][k] == s[k];
      } else if i < k < j {
        assert s[i + 1..j][k - i - 1] == s[k];
      } else if j < k {
        assert s[j + 1..][k - j - 1] == s[k];
      }
    }
  }

  /** `SplitShape` at two given positions. */
  lemma SplitShapeAt(s: string, i: int, j: int, k1: int, k2: int)
    requires EmailSplit(s, i, j) && 0 <= k1 < |s| && 0 <= k2 < |s|
    ensures !IsSpace(s[k1]) && (s[k1] == '@' <==> k1 == i)
    ensures s[k2] == '@' <==> k2 == i
  {
    SplitShape(s, i, j);
  }

  /** A hand-written matcher for the email pattern: one left-to-right scan
      that fails on whitespace or a second '@' and remembers whether a '.'
      follows the '@' with characters on both of its sides. */
  method MatchesEmailPattern(s: string) returns (b: bool)
    ensures b == EmailPattern(s)
  {
    var at := -1;
    var dot := -1;
    var i := 0;
    while i < |s|
      invariant 0 <= i <= |s|
      invariant forall k :: 0 <= k < i ==> !IsSpace(s[k])
      invariant -1 <= at < i
      invariant forall k :: 0 <= k < i ==> (s[k] == '@' <==> k == at)
      invariant at == -1 ==> dot == -1
      invariant dot == -1 || (at + 1 < dot < i && dot < |s| - 1 && s[dot] == '.')
      invariant dot == -1 && at >= 0 ==> forall k :: at + 1 < k < i && k < |s| - 1 ==> s[k] != '.'
    {
      var c := s[i];
      if IsSpace(c) || (c == '@' && at >= 0) {
        forall p, q | EmailSplit(s, p, q) ensures false {
          SplitShapeAt(s, p, q, i, if at >= 0 then at else i);
        }
        return false;
      }
      if c == '@' {
        at := i;
      } else if c == '.' && at >= 0 && at + 1 < i < |s| - 1 && dot == -1 {
        dot := i;
      }
      i := i + 1;
    }
    b := at > 0 && dot != -1;
    if b {
      assert forall k :: 0 <= k < |s| && k != at ==> EmailPartChar(s[k]);
      assert EmailPart(s[..at]);
      assert EmailPart(s[at + 1..dot]);
      assert EmailPart(s[dot + 1..]);
      assert EmailSplit(s, at, dot);
    } else {
      forall p, q | EmailSplit(s, p, q) ensures false {
        SplitShape(s, p, q);
      }
    }
  }

  // ---------------------------------------------------------------------------
  // The name pattern /^[a-zA-Z\s\-']+$/
  // ---------------------------------------------------------------------------

  /** `[a-zA-Z\s\-']` */
  predicate NameChar(c: char) {
    ('a' <= c <= 'z') || ('A' <= c <= 'Z') || IsSpace(c) || c == '-' || c == '\''
  }

  /** What the name regular expression accepts. */
  predicate NamePattern(s: string) {
    |s| > 0 && forall k :: 0 <= k < |s| ==> NameChar(s[k])
  }

  /** A hand-written matcher for the name pattern. */
  method MatchesNamePattern(s: string) returns (b: bool)
    ensures b == NamePattern(s)
  {
    if s == [] {
      return false;
    }
    var i := 0;
    while i < |s|
      invariant 0 <= i <= |s|
      invariant forall k :: 0 <= k < i ==> NameChar(s[k])
    {
      if !NameChar(s[i]) {
        return false;
      }
      i := i + 1;
    }
    return true;
  }

  // ---------------------------------------------------------------------------
  // Error messages
  // ---------------------------------------------------------------------------

  const EmailRequired := ValidationError("email", "Email is required")
  const EmailInvalid := ValidationError("email", "Please enter a valid email address")
  const EmailTooLong := ValidationError("email", "Email address is too long")
  const NameRequired := ValidationError("name", "Name is required")
  const NameTooShort := ValidationError("name", "Name must be at least 2 characters long")
  const NameTooLong := ValidationError("name", "Name is too long (maximum 100 characters)")
  const NameInvalidChars := ValidationError("name", "Name contains invalid characters")

  /** The longest email address accepted. */
  const MaxEmailLength := 255
  const MinNameLength := 2
  const MaxNameLength := 100

  // ---------------------------------------------------------------------------
  // validateEmail, validateName, validateSubscriberForm
  // ---------------------------------------------------------------------------

  /** The errors `validateEmail` reports, in order: only "required" for an
      empty string; otherwise a format error and a length error, each when it applies. */
  ghost function EmailErrors(email: string): seq<ValidationError> {
    if email == [] then [EmailRequired]
    else
      (if EmailPattern(email) then [] else [EmailInvalid])
      + (if |email| > MaxEmailLength then [EmailTooLong] else [])
  }

  /** The errors `validateName` reports, in order. The length bounds apply to
      the raw string, the character check to the trimmed one. */
  ghost function NameErrors(name: string): seq<ValidationError> {
    if name == [] then [NameRequired]
    else
      (if |name| < MinNameLength then [NameTooShort] else [])
      + (if |name| > MaxNameLength then [NameTooLong] else [])
      + (if NamePattern(Trim(name)) then [] else [NameInvalidChars])
  }

  method ValidateEmail(email: string) returns (r: ValidationResult)
    ensures r.errors == EmailErrors(email)
    ensures r.isValid <==> email != [] && EmailPattern(email) && |email| <= MaxEmailLength
    ensures r.isValid <==> r.errors == []
    ensures forall k :: 0 <= k < |r.errors| ==> r.errors[k].field == "email"
  {
    var errors: seq<ValidationError> := [];
    if email == [] {
      errors := errors + [EmailRequired];
      return ValidationResult(false, errors);
    }
    var matches := MatchesEmailPattern(email);
    if !matches {
      errors := errors + [EmailInvalid];
    }
    if |email| > MaxEmailLength {
      errors := errors + [EmailTooLong];
    }
    r := ValidationResult(|errors| == 0, errors);
  }

  /** A name is valid exactly when it is non-empty, 2 to 100 characters
      long, and its trimmed form matches the name pattern; every error is
      tagged "name" and has a message. */
  lemma NameErrorsMeaning(name: string)
    ensures NameErrors(name) == [] <==> name != [] && MinNameLength <= |name| <= MaxNameLength && NamePattern(Trim(name))
    ensures forall k :: 0 <= k < |NameErrors(name)| ==> NameErrors(name)[k].field == "name" && NameErrors(name)[k].message != ""
  {
    if name == [] {
      assert NameErrors(name) == [NameRequired];
    } else {
      NameFindings(NameErrors(name), |name| < MinNameLength, |name| > MaxNameLength, NamePattern(Trim(name)));
    }
  }

  /** The errors of a non-empty name, from the outcome of each check. */
  lemma NameFindings(e: seq<ValidationError>, short: bool, long: bool, matches: bool)
    requires e == (if short then [NameTooShort] else []) + (if long then [NameTooLong] else [])
                  + (if matches then [] else [NameInvalidChars])
    ensures e == [] <==> !short && !long && matches
    ensures forall k :: 0 <= k < |e| ==> e[k].field == "name" && e[k].message != ""
  {
  }

  /** An email is valid exactly when it is non-empty, matches the email
      pattern and is at most 255 characters long; every error is tagged
      "email" and has a message. */
  lemma EmailErrorsMeaning(email: string)
    ensures EmailErrors(email) == [] <==> email != [] && EmailPattern(email) && |email| <= MaxEmailLength
    ensures forall k :: 0 <= k < |EmailErrors(email)| ==> EmailErrors(email)[k].field == "email" && EmailErrors(email)[k].message != ""
  {
    if email == [] {
      assert EmailErrors(email) == [EmailRequired];
    } else {
      EmailFindings(EmailErrors(email), EmailPattern(email), |email| > MaxEmailLength);
    }
  }

  /** The errors of a non-empty email, from the outcome of each check. */
  lemma EmailFindings(e: seq<ValidationError>, matches: bool, long: bool)
    requires e == (if matches then [] else [EmailInvalid]) + (if long then [EmailTooLong] else [])
    ensures e == [] <==> matches && !long
    ensures forall k :: 0 <= k < |e| ==> e[k].field == "email" && e[k].message != ""
  {
  }

  method ValidateName(name: string) returns (r: ValidationResult)
    ensures r.errors == NameErrors(name)
    ensures r.isValid <==> name != [] && MinNameLength <= |name| <= MaxNameLength && NamePattern(Trim(name))
    ensures r.isValid <==> r.errors == []
    ensures forall k :: 0 <= k < |r.errors| ==> r.errors[k].field == "name"
  {
    var errors: seq<ValidationError> := [];
    if name == [] {
      errors := errors + [NameRequired];
      return ValidationResult(false, errors);
    }
    if |name| < MinNameLength {
      errors := errors + [NameTooShort];
    }
    if |name| > MaxNameLength {
      errors := errors + [NameTooLong];
    }
    assert errors == (if |name| < MinNameLength then [NameTooShort] else [])
                   + (if |name| > MaxNameLength then [NameTooLong] else []);
    var trimmed := Trim(name);
    var matches := MatchesNamePattern(trimmed);
    if !matches {
      errors := errors + [NameInvalidChars];
    }
    assert errors == NameErrors(name);
    NameErrorsMeaning(name);
    r := ValidationResult(|errors| == 0, errors);
  }

  /** An empty email is reported once, as "required", and nothing else is checked. */
  lemma EmptyEmailOnlyRequired()
    ensures EmailErrors("") == [ValidationError("email", "Email is required")]
  {
  }

  /** A non-empty email that fails both checks reports both, format error first. */
  lemma EmailBothFailures(email: string)
    requires email != [] && !EmailPattern(email) && |email| > MaxEmailLength
    ensures EmailErrors(email) == [EmailInvalid, EmailTooLong]
  {
  }

  /** An email with whitespace in it never matches the pattern. */
  lemma {:induction false} EmailWithSpaceRejected(email: string, k: int)
    requires 0 <= k < |email| && IsSpace(email[k])
    ensures !EmailPattern(email)
    ensures EmailInvalid in EmailErrors(email)
  {
    forall p, q | EmailSplit(email, p, q) ensures false {
      SplitShape(email, p, q);
    }
  }

  /** A one-character name outside the allowed characters is reported twice:
      too short, and invalid characters. */
  lemma OneCharInvalidName(name: string)
    requires |name| == 1 && !NameChar(name[0])
    ensures NameErrors(name) == [NameTooShort, NameInvalidChars]
  {
    if !IsSpace(name[0]) {
      TrimFixed(name);
    }
  }

  /** A non-empty name made only of whitespace passes the length checks when
      long enough, yet fails the character check because it trims to nothing. */
  lemma {:induction false} BlankNameRejected(name: string)
    requires 2 <= |name| <= 100 && AllSpace(name)
    ensures NameErrors(name) == [NameInvalidChars]
  {
    TrimAllSpace(name);
  }

  /** The errors of `validateSubscriberForm`: the name errors, then the email errors. */
  ghost function FormErrors(data: SubscriberFormData): seq<ValidationError> {
    NameErrors(data.name) + EmailErrors(data.email)
  }

  method ValidateSubscriberForm(data: SubscriberFormData) returns (r: ValidationResult)
    ensures r.errors == NameErrors(data.name) + EmailErrors(data.email)
    ensures r.isValid <==> NameErrors(data.name) == [] && EmailErrors(data.email) == []
  {
    var errors: seq<ValidationError> := [];
    var nameValidation := ValidateName(data.name);
    errors := errors + nameValidation.errors;
    var emailValidation := ValidateEmail(data.email);
    errors := errors + emailValidation.errors;
    r := ValidationResult(|errors| == 0, errors);
  }

  /** In the form's error list, name errors precede email errors: all errors
      tagged "name" come before all errors tagged "email", and no other tag occurs. */
  lemma FormErrorsOrdered(data: SubscriberFormData)
    ensures forall a, b :: 0 <= a < b < |FormErrors(data)| && FormErrors(data)[b].field == "name"
              ==> FormErrors(data)[a].field == "name"
    ensures forall a :: 0 <= a < |FormErrors(data)| ==> FormErrors(data)[a].field in {"name", "email"}
  {
    var n := NameErrors(data.name);
    var e := EmailErrors(data.email);
    var f := FormErrors(data);
    NameErrorsMeaning(data.name);
    EmailErrorsMeaning(data.email);
    assert forall a :: 0 <= a < |f| ==> (a < |n| ==> f[a] == n[a]) && (a >= |n| ==> f[a] == e[a - |n|]);
    assert forall a :: 0 <= a < |f| ==> (f[a].field == "name" <==> a < |n|);
  }

  // ---------------------------------------------------------------------------
  // validateRequiredField
  // ---------------------------------------------------------------------------

  method ValidateRequiredField(value: string, fieldName: string, minLength: int := 1)
    returns (errors: seq<ValidationError>)
    ensures |errors| <= 1
    ensures errors == [] <==> |Trim(value)| != 0 && |Trim(value)| >= minLength
    ensures |Trim(value)| == 0 ==> errors == [ValidationError(fieldName, fieldName + " is required")]
    ensures 0 < |Trim(value)| < minLength ==> errors == [ValidationError(fieldName,
      fieldName + " must be at least " + IntToString(minLength) + " character(s) long")]
  {
    errors := [];
    if value == [] || |Trim(value)| == 0 {
      errors := errors + [ValidationError(fieldName, fieldName + " is required")];
    } else if |Trim(value)| < minLength {
      errors := errors + [ValidationError(fieldName,
        fieldName + " must be at least " + IntToString(minLength) + " character(s) long")];
    }
  }

  // ---------------------------------------------------------------------------
  // sanitizeInput
  // ---------------------------------------------------------------------------

  /** `s.replace(/\s+/g, ' ')`: every maximal run of whitespace becomes one space. */
  function CollapseSpaces(s: string): (r: string)
    ensures |r| <= |s|
    ensures r == [] <==> s == []
    ensures s != [] ==> r[0] == if IsSpace(s[0]) then ' ' else s[0]
    decreases |s|
  {
    if s == [] then []
    else if IsSpace(s[0]) then [' '] + CollapseSpaces(TrimStart(s[1..]))
    else [s[0]] + CollapseSpaces(s[1..])
  }

  /** `input.trim().replace(/\s+/g, ' ')` */
  function SanitizeInput(input: string): string {
    CollapseSpaces(Trim(input))
  }

  /** Whitespace occurs only as single ' ' characters. */
  predicate SingleSpaced(s: string) {
    forall k :: 0 <= k < |s| && IsSpace(s[k]) ==> s[k] == ' ' && (k + 1 < |s| ==> !IsSpace(s[k + 1]))
  }

  /** Neither end of the string is whitespace. */
  predicate Trimmed(s: string) {
    s == [] || (!IsSpace(s[0]) && !IsSpace(s[|s| - 1]))
  }

  /** The characters of `s` that are not whitespace, in order. */
  function NonSpace(s: string): string {
    if s == [] then [] else (if IsSpace(s[0]) then [] else [s[0]]) + NonSpace(s[1..])
  }

  lemma {:induction false} NonSpaceOfAllSpace(s: string)
    requires AllSpace(s)
    ensures NonSpace(s) == []
  {
    if s != [] {
      NonSpaceOfAllSpace(s[1..]);
    }
  }

  lemma {:induction false} NonSpaceAppend(a: string, b: string)
    ensures NonSpace(a + b) == NonSpace(a) + NonSpace(b)
  {
    if a == [] {
      assert a + b == b;
    } else {
      var h: string := if IsSpace(a[0]) then [] else [a[0]];
      assert (a + b)[0] == a[0];
      assert (a + b)[1..] == a[1..] + b;
      NonSpaceAppend(a[1..], b);
      calc {
        NonSpace(a + b);
        h + NonSpace(a[1..] + b);
        h + (NonSpace(a[1..]) + NonSpace(b));
        (h + NonSpace(a[1..])) + NonSpace(b);
        NonSpace(a) + NonSpace(b);
      }
    }
  }

  /** Prepending one character keeps a string single-spaced when that
      character is not whitespace, or is ' ' and not followed by whitespace. */
  lemma SingleSpacedCons(x: char, c: string)
    requires SingleSpaced(c)
    requires IsSpace(x) ==> x == ' ' && (c == [] || !IsSpace(c[0]))
    ensures SingleSpaced([x] + c)
  {
    var r := [x] + c;
    forall k | 0 <= k < |r| && IsSpace(r[k]) ensures r[k] == ' ' && (k + 1 < |r| ==> !IsSpace(r[k + 1])) {
      if k > 0 {
        assert r[k] == c[k - 1];
        if k + 1 < |r| {
          assert r[k + 1] == c[k];
        }
      }
    }
  }

  /** Collapsing leaves only single spaces. */
  lemma {:induction false} CollapseSingleSpaced(s: string)
    ensures SingleSpaced(CollapseSpaces(s))
    decreases |s|
  {
    if s != [] {
      if IsSpace(s[0]) {
        var t := TrimStart(s[1..]);
        CollapseSingleSpaced(t);
        SingleSpacedCons(' ', CollapseSpaces(t));
      } else {
        CollapseSingleSpaced(s[1..]);
        SingleSpacedCons(s[0], CollapseSpaces(s[1..]));
      }
    }
  }

  /** Collapsing keeps the last character, or turns trailing whitespace into one ' '. */
  lemma {:induction false} CollapseLast(s: string)
    requires s != []
    ensures CollapseSpaces(s)[|CollapseSpaces(s)| - 1] == if IsSpace(s[|s| - 1]) then ' ' else s[|s| - 1]
    decreases |s|, 1
  {
    if IsSpace(s[0]) {
      CollapseLastSpace(s);
    } else if |s| > 1 {
      CollapseLastChar(s);
    } else {
      CollapseStep(s);
    }
  }

  lemma {:induction false} CollapseLastSpace(s: string)
    requires s != [] && IsSpace(s[0])
    ensures CollapseSpaces(s)[|CollapseSpaces(s)| - 1] == if IsSpace(s[|s| - 1]) then ' ' else s[|s| - 1]
    decreases |s|, 0
  {
    CollapseStep(s);
    var t := TrimStart(s[1..]);
    if t == [] {
      assert s[1..][..|s| - 1] == s[1..];
      LastAfterBlank(s, CollapseSpaces(s));
    } else {
      CollapseLast(t);
      LastAfterSpace(s, t, CollapseSpaces(s), CollapseSpaces(t));
    }
  }

  lemma {:induction false} CollapseLastChar(s: string)
    requires |s| > 1 && !IsSpace(s[0])
    ensures CollapseSpaces(s)[|CollapseSpaces(s)| - 1] == if IsSpace(s[|s| - 1]) then ' ' else s[|s| - 1]
    decreases |s|, 0
  {
    CollapseStep(s);
    CollapseLast(s[1..]);
    LastAfterChar(s, CollapseSpaces(s), CollapseSpaces(s[1..]));
  }

  /** One step of collapsing, by the first character. */
  lemma CollapseStep(s: string)
    requires s != []
    ensures IsSpace(s[0]) ==> CollapseSpaces(s) == [' '] + CollapseSpaces(TrimStart(s[1..]))
    ensures !IsSpace(s[0]) ==> CollapseSpaces(s) == [s[0]] + CollapseSpaces(s[1..])
  {
  }

  /** The last-character step when everything after a leading whitespace is whitespace. */
  lemma LastAfterBlank(s: string, r: string)
    requires s != [] && IsSpace(s[0]) && AllSpace(s[1..]) && r == [' ']
    ensures r[|r| - 1] == if IsSpace(s[|s| - 1]) then ' ' else s[|s| - 1]
  {
    if |s| > 1 {
      assert s[1..][|s| - 2] == s[|s| - 1];
    }
  }

  /** The last-character step across a leading run of whitespace, `t` being what follows it. */
  lemma LastAfterSpace(s: string, t: string, r: string, c: string)
    requires s != [] && 0 < |t| <= |s| - 1 && t == s[1..][|s| - 1 - |t|..]
    requires r == [' '] + c && c != [] && c[|c| - 1] == if IsSpace(t[|t| - 1]) then ' ' else t[|t| - 1]
    ensures r[|r| - 1] == if IsSpace(s[|s| - 1]) then ' ' else s[|s| - 1]
  {
    TailSuffixLast(s, t);
    ConsLast(' ', c);
  }

  /** The last-character step across a leading non-whitespace character. */
  lemma LastAfterChar(s: string, r: string, c: string)
    requires |s| > 1 && r == [s[0]] + c
    requires c != [] && c[|c| - 1] == if IsSpace(s[|s| - 1]) then ' ' else s[|s| - 1]
    ensures r[|r| - 1] == if IsSpace(s[|s| - 1]) then ' ' else s[|s| - 1]
  {
    ConsLast(s[0], c);
  }

  /** A non-empty suffix of the tail ends where the whole string ends. */
  lemma TailSuffixLast(s: string, t: string)
    requires s != [] && 0 < |t| <= |s| - 1 && t == s[1..][|s| - 1 - |t|..]
    ensures s[|s| - 1] == t[|t| - 1]
  {
    assert t[|t| - 1] == s[1..][|s| - 2];
  }

  /** Prepending a character keeps the last character of a non-empty string. */
  lemma ConsLast(x: char, c: string)
    ensures var r := [x] + c; r[|r| - 1] == if c == [] then x else c[|c| - 1]
  {
  }

  /** Collapsing keeps every non-whitespace character, in order. */
  lemma {:induction false} CollapseNonSpace(s: string)
    ensures NonSpace(CollapseSpaces(s)) == NonSpace(s)
    decreases |s|, 1
  {
    if s != [] {
      if IsSpace(s[0]) {
        CollapseNonSpaceSpace(s);
      } else {
        CollapseNonSpaceChar(s);
      }
    }
  }

  lemma {:induction false} CollapseNonSpaceSpace(s: string)
    requires s != [] && IsSpace(s[0])
    ensures NonSpace(CollapseSpaces(s)) == NonSpace(s)
    decreases |s|, 0
  {
    var t := TrimStart(s[1..]);
    CollapseStep(s);
    CollapseNonSpace(t);
    NonSpaceTrimStart(s[1..]);
    NonSpaceAfterSpace(s, t, CollapseSpaces(t), CollapseSpaces(s));
  }

  /** The whitespace step of `CollapseNonSpace`, over the pieces it puts together. */
  lemma NonSpaceAfterSpace(s: string, t: string, c: string, r: string)
    requires s != [] && IsSpace(s[0]) && NonSpace(t) == NonSpace(s[1..])
    requires r == [' '] + c && NonSpace(c) == NonSpace(t)
    ensures NonSpace(r) == NonSpace(s)
  {
    NonSpaceCons(' ', c);
  }

  lemma {:induction false} CollapseNonSpaceChar(s: string)
    requires s != [] && !IsSpace(s[0])
    ensures NonSpace(CollapseSpaces(s)) == NonSpace(s)
    decreases |s|, 0
  {
    CollapseStep(s);
    CollapseNonSpace(s[1..]);
    NonSpaceCons(s[0], CollapseSpaces(s[1..]));
  }

  /** The non-whitespace characters of a string with one character in front. */
  lemma NonSpaceCons(x: char, c: string)
    ensures NonSpace([x] + c) == (if IsSpace(x) then [] else [x]) + NonSpace(c)
  {
    assert ([x] + c)[1..] == c;
  }

  /** A single-spaced string is left as it is by collapsing. */
  lemma {:induction false} CollapseSpacesFixed(s: string)
    requires SingleSpaced(s)
    ensures CollapseSpaces(s) == s
    decreases |s|
  {
    if s != [] {
      assert SingleSpaced(s[1..]) by {
        forall k | 0 <= k < |s[1..]| && IsSpace(s[1..][k])
          ensures s[1..][k] == ' ' && (k + 1 < |s[1..]| ==> !IsSpace(s[1..][k + 1]))
        {
          assert s[1..][k] == s[k + 1];
          if k + 1 < |s[1..]| {
            assert s[1..][k + 1] == s[k + 2];
          }
        }
      }
      if IsSpace(s[0]) {
        assert s[1..] == [] || !IsSpace(s[1..][0]);
        assert TrimStart(s[1..]) == s[1..];
      }
      CollapseSpacesFixed(s[1..]);
    }
  }

  /** The sanitised string has no whitespace at either end, every whitespace
      character in it is a single ' ', and its non-whitespace characters are
      exactly those of the input, in order. */
  lemma SanitizeInputNormalises(input: string)
    ensures Trimmed(SanitizeInput(input))
    ensures SingleSpaced(SanitizeInput(input))
    ensures NonSpace(SanitizeInput(input)) == NonSpace(input)
  {
    var t := Trim(input);
    assert Trimmed(SanitizeInput(input)) by {
      TrimEnds(input);
      CollapseKeepsTrimmed(t);
    }
    assert SingleSpaced(SanitizeInput(input)) by {
      CollapseSingleSpaced(t);
    }
    assert NonSpace(SanitizeInput(input)) == NonSpace(input) by {
      CollapseNonSpace(t);
      NonSpaceTrim(input);
    }
  }

  /** Collapsing a trimmed string leaves it trimmed. */
  lemma CollapseKeepsTrimmed(t: string)
    requires Trimmed(t)
    ensures Trimmed(CollapseSpaces(t))
  {
    if t != [] {
      CollapseLast(t);
    }
  }

  /** Trimming removes whitespace only. */
  lemma NonSpaceTrim(s: string)
    ensures NonSpace(Trim(s)) == NonSpace(s)
  {
    NonSpaceTrimStart(s);
    DropTrailingSpace(TrimStart(s), Trim(s));
  }

  /** `trimStart` keeps the non-whitespace characters. */
  lemma NonSpaceTrimStart(s: string)
    ensures NonSpace(TrimStart(s)) == NonSpace(s)
  {
    DropLeadingSpace(s, TrimStart(s));
  }

  /** Dropping leading whitespace keeps the non-whitespace characters. */
  lemma DropLeadingSpace(s: string, t: string)
    requires |t| <= |s| && t == s[|s| - |t|..] && AllSpace(s[..|s| - |t|])
    ensures NonSpace(t) == NonSpace(s)
  {
    var a := s[..|s| - |t|];
    assert s == a + t;
    NonSpaceAppend(a, t);
    NonSpaceOfAllSpace(a);
    assert [] + NonSpace(t) == NonSpace(t);
  }

  /** Dropping trailing whitespace keeps the non-whitespace characters. */
  lemma DropTrailingSpace(s: string, t: string)
    requires |t| <= |s| && t == s[..|t|] && AllSpace(s[|t|..])
    ensures NonSpace(t) == NonSpace(s)
  {
    var b := s[|t|..];
    assert s == t + b;
    NonSpaceAppend(t, b);
    NonSpaceOfAllSpace(b);
    assert NonSpace(t) + [] == NonSpace(t);
  }

  /** Sanitising twice is the same as sanitising once. */
  lemma SanitizeInputIdempotent(input: string)
    ensures SanitizeInput(SanitizeInput(input)) == SanitizeInput(input)
  {
    var r := SanitizeInput(input);
    SanitizeInputNormalises(input);
    TrimFixed(r);
    CollapseSpacesFixed(r);
  }

  // ---------------------------------------------------------------------------
  // validateAndSanitizeSubscriber
  // ---------------------------------------------------------------------------

  /** The canonical form of an email address: lower-cased, then trimmed. */
  function CanonicalEmail(email: string): string {
    Trim(ToLower(email))
  }

  /** The sanitised copy of the form data. */
  function Sanitized(data: SubscriberFormData): SubscriberFormData {
    SubscriberFormData(SanitizeInput(data.name), CanonicalEmail(data.email),
      Some(data.subscribedToUpdates.GetOr(false)))
  }

  datatype SanitizedValidation = SanitizedValidation(
    isValid: bool, errors: seq<ValidationError>, sanitizedData: SubscriberFormData)

  method ValidateAndSanitizeSubscriber(data: SubscriberFormData) returns (r: SanitizedValidation)
    ensures r.sanitizedData == Sanitized(data)
    ensures r.sanitizedData.name == SanitizeInput(data.name)
    ensures r.sanitizedData.email == CanonicalEmail(data.email)
    ensures r.sanitizedData.subscribedToUpdates.Some?
    ensures r.sanitizedData.subscribedToUpdates.value <==> data.subscribedToUpdates == Some(true)
    ensures r.errors == FormErrors(r.sanitizedData)
    ensures r.isValid <==> r.errors == []
  {
    var sanitizedData := Sanitized(data);
    var validation := ValidateSubscriberForm(sanitizedData);
    r := SanitizedValidation(validation.isValid, validation.errors, sanitizedData);
  }

  /** Canonicalising an address twice changes nothing more, and two addresses
      that differ only in letter case or surrounding whitespace canonicalise alike. */
  lemma CanonicalEmailIdempotent(email: string)
    ensures CanonicalEmail(CanonicalEmail(email)) == CanonicalEmail(email)
  {
    var t := CanonicalEmail(email);
    CanonicalEmailShape(email);
    assert ToLower(t) == t;
    TrimFixed(t);
  }

  lemma CanonicalEmailIgnoresCase(a: string, b: string)
    requires ToLower(a) == ToLower(b)
    ensures CanonicalEmail(a) == CanonicalEmail(b)
  {
  }

  /** A canonical address is unchanged by lower-casing and has no whitespace at its ends. */
  lemma CanonicalEmailShape(email: string)
    ensures LowerCased(CanonicalEmail(email))
    ensures Trimmed(CanonicalEmail(email))
  {
    TrimEnds(ToLower(email));
    ToLowerLowered(email);
    TrimKeepsLowered(ToLower(email));
  }

  /** Trimming a lower-cased string leaves it lower-cased. */
  lemma TrimKeepsLowered(x: string)
    requires LowerCased(x)
    ensures LowerCased(Trim(x))
  {
    var y := TrimStart(x);
    LowerCasedSuffix(x, y);
    LowerCasedPrefix(y, Trim(x));
  }

  /** Lower-casing again changes nothing. */
  lemma ToLowerLowered(s: string)
    ensures LowerCased(ToLower(s))
  {
    forall k | 0 <= k < |ToLower(s)| ensures LowerChar(ToLower(s)[k]) == ToLower(s)[k] {
      LowerCharIdempotent(s[k]);
    }
  }

  lemma LowerCasedSuffix(x: string, t: string)
    requires LowerCased(x) && |t| <= |x| && t == x[|x| - |t|..]
    ensures LowerCased(t)
  {
    forall k | 0 <= k < |t| ensures LowerChar(t[k]) == t[k] {
      assert t[k] == x[|x| - |t| + k];
    }
  }

  lemma LowerCasedPrefix(x: string, t: string)
    requires LowerCased(x) && |t| <= |x| && t == x[..|t|]
    ensures LowerCased(t)
  {
    forall k | 0 <= k < |t| ensures LowerChar(t[k]) == t[k] {
      assert t[k] == x[k];
    }
  }
}
