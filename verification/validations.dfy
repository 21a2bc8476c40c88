/** The registration and login form validators: ordered check chains over a
    string, where the first failing check decides the message, and the
    per-country postal-code patterns. */
module Validations {
  import opened Common
  import opened JsString

  /** `{ isValid, message? }`; a valid result carries no message. */
  datatype ValidationResult = ValidationResult(isValid: bool, message: Option<string>)

  const EMAIL_REQUIRED := "Email is required"
  const EMAIL_SPACES := "Email should not contain leading or trailing spaces"
  const EMAIL_FORMAT := "Please enter a valid email address (e.g., user@example.com)"

  const PASSWORD_REQUIRED := "Password is required"
  const PASSWORD_SPACES := "Password should not contain leading or trailing spaces"
  const PASSWORD_LENGTH := "Password must be at least 8 characters long"
  const PASSWORD_UPPER := "Password must contain at least one uppercase letter"
  const PASSWORD_LOWER := "Password must contain at least one lowercase letter"
  const PASSWORD_DIGIT := "Password must contain at least one number"

  const Valid := ValidationResult(true, None)

  function Invalid(message: string): ValidationResult {
    ValidationResult(false, Some(message))
  }

  // ---------------------------------------------------------------- email

  /** A character the class `[^\s@]` accepts. */
  predicate Plain(c: char) {
    !IsWs(c) && c != '@'
  }

  predicate AllPlain(t: string) {
    forall i :: 0 <= i < |t| ==> Plain(t[i])
  }

  /** The language of `/^[^\s@]+@[^\s@]+\.[^\s@]+$/`, read off the expression
      piece by piece: a plain run, `@`, a plain run, `.`, a plain run, each run
      non-empty. */
  ghost predicate EmailPattern(s: string) {
    exists a, d ::
      && 0 < a && a + 1 < d && d + 1 < |s|
      && s[a] == '@' && s[d] == '.'
      && AllPlain(s[..a]) && AllPlain(s[a + 1..d]) && AllPlain(s[d + 1..])
  }

  /** Decides the email pattern by scanning: the first `@` ends a non-empty plain
      local part, and the rest is a plain domain holding a `.` that is neither its
      first nor its last character. */
  predicate MatchesEmail(s: string) {
    var a := IndexOf(s, '@');
    && 0 < a < |s|
    && AllPlain(s[..a])
    && var dom := s[a + 1..];
       && AllPlain(dom)
       && |dom| >= 3
       && '.' in dom[1..|dom| - 1]
  }

  /** A slice of a plain string is plain. */
  lemma AllPlainSlice(t: string, i: nat, j: nat)
    requires AllPlain(t) && i <= j <= |t|
    ensures AllPlain(t[i..j])
  {
    assert forall k :: 0 <= k < j - i ==> t[i..j][k] == t[i + k];
  }

  /** Joining plain strings around a plain character gives a plain string. */
  lemma AllPlainJoin(x: string, c: char, y: string)
    requires AllPlain(x) && Plain(c) && AllPlain(y)
    ensures AllPlain(x + [c] + y)
  {
    var t := x + [c] + y;
    forall k | 0 <= k < |t| ensures Plain(t[k]) {
      if k < |x| { assert t[k] == x[k]; }
      else if k > |x| { assert t[k] == y[k - |x| - 1]; }
    }
  }

  /** Every string the scanner accepts is in the language of the expression. */
  lemma MatchesEmailSound(s: string)
    requires MatchesEmail(s)
    ensures EmailPattern(s)
  {
    var a := IndexOf(s, '@');
    var dom := s[a + 1..];
    var mid := dom[1..|dom| - 1];
    var k :| 0 <= k < |mid| && mid[k] == '.';
    var d := a + 2 + k;
    assert s[d] == dom[k + 1] == '.';
    AllPlainSlice(dom, 0, k + 1);
    AllPlainSlice(dom, k + 2, |dom|);
    assert s[a + 1..d] == dom[0..k + 1];
    assert s[d + 1..] == dom[k + 2..|dom|];
    assert s[a] == '@';
  }

  /** `IndexOf` finds an occurrence that has no earlier twin. */
  lemma IndexOfFirst(s: string, c: char, a: nat)
    requires a < |s| && s[a] == c && c !in s[..a]
    ensures IndexOf(s, c) == a
  {
  }

  /** A plain string holds no `@`. */
  lemma PlainHasNoAt(t: string)
    requires AllPlain(t)
    ensures '@' !in t
  {
  }

  /** The scanner accepts a string split as the expression prescribes. */
  lemma MatchesEmailAt(s: string, a: nat, d: nat)
    requires 0 < a && a + 1 < d && d + 1 < |s|
    requires s[a] == '@' && s[d] == '.'
    requires AllPlain(s[..a]) && AllPlain(s[a + 1..d]) && AllPlain(s[d + 1..])
    ensures MatchesEmail(s)
  {
    PlainHasNoAt(s[..a]);
    IndexOfFirst(s, '@', a);
    var dom := s[a + 1..];
    var left, right := s[a + 1..d], s[d + 1..];
    assert dom == left + ['.'] + right;
    AllPlainJoin(left, '.', right);
    var mid := dom[1..|dom| - 1];
    assert mid[d - a - 2] == '.';
  }

  /** Every string in the language of the expression is accepted by the scanner. */
  lemma MatchesEmailComplete(s: string)
    requires EmailPattern(s)
    ensures MatchesEmail(s)
  {
    var a, d :|
      && 0 < a && a + 1 < d && d + 1 < |s|
      && s[a] == '@' && s[d] == '.'
      && AllPlain(s[..a]) && AllPlain(s[a + 1..d]) && AllPlain(s[d + 1..]);
    MatchesEmailAt(s, a, d);
  }

  /** The scanner accepts exactly the language of the regular expression. */
  lemma MatchesEmailIsPattern(s: string)
    ensures MatchesEmail(s) <==> EmailPattern(s)
  {
    if MatchesEmail(s) { MatchesEmailSound(s); }
    if EmailPattern(s) { MatchesEmailComplete(s); }
  }

  /** A string in the email language neither starts nor ends with whitespace. */
  lemma EmailPatternUntrimmable(s: string)
    ensures EmailPattern(s) ==> !HasOuterWs(s) && !AllWs(s)
  {
    if !EmailPattern(s) { return; }
    var a, d :|
      && 0 < a && a + 1 < d && d + 1 < |s|
      && s[a] == '@' && s[d] == '.'
      && AllPlain(s[..a]) && AllPlain(s[a + 1..d]) && AllPlain(s[d + 1..]);
    assert s[..a][0] == s[0];
    assert s[d + 1..][|s| - d - 2] == s[|s| - 1];
  }

  /** `validateEmail`: required, then no surrounding spaces, then the pattern. */
  function ValidateEmail(email: string): (r: ValidationResult)
    ensures r.isValid <==> r.message.None?
    ensures r.isValid <==> EmailPattern(email)
    ensures r.message == Some(EMAIL_REQUIRED) <==> AllWs(email)
    ensures r.message == Some(EMAIL_SPACES) <==> !AllWs(email) && HasOuterWs(email)
    ensures r.message == Some(EMAIL_FORMAT) <==> !AllWs(email) && !HasOuterWs(email) && !EmailPattern(email)
  {
    TrimFixedPoint(email);
    MatchesEmailIsPattern(email);
    EmailPatternUntrimmable(email);
    if Trim(email) == "" then Invalid(EMAIL_REQUIRED)
    else if email != Trim(email) then Invalid(EMAIL_SPACES)
    else if !MatchesEmail(Trim(email)) then Invalid(EMAIL_FORMAT)
    else Valid
  }

  // ------------------------------------------------------------- password

  predicate IsUpper(c: char) { 'A' <= c <= 'Z' }
  predicate IsLower(c: char) { 'a' <= c <= 'z' }
  predicate IsDigit(c: char) { '0' <= c <= '9' }

  /** `/[A-Z]/.test(s)` */
  predicate HasUpper(s: string) { exists i :: 0 <= i < |s| && IsUpper(s[i]) }
  /** `/[a-z]/.test(s)` */
  predicate HasLower(s: string) { exists i :: 0 <= i < |s| && IsLower(s[i]) }
  /** `/[0-9]/.test(s)` */
  predicate HasDigit(s: string) { exists i :: 0 <= i < |s| && IsDigit(s[i]) }

  /** `validatePassword`: required, no surrounding spaces, at least eight
      UTF-16 code units, then one uppercase, one lowercase and one digit, in
      that order. */
  function ValidatePassword(password: string): (r: ValidationResult)
    ensures r.isValid <==> r.message.None?
    ensures r.isValid <==>
      !HasOuterWs(password) && Utf16Len(password) >= 8 && HasUpper(password) && HasLower(password) && HasDigit(password)
    ensures r.message == Some(PASSWORD_REQUIRED) <==> AllWs(password)
    ensures r.message == Some(PASSWORD_SPACES) <==> !AllWs(password) && HasOuterWs(password)
    ensures r.message == Some(PASSWORD_LENGTH) <==> !AllWs(password) && !HasOuterWs(password) && Utf16Len(password) < 8
    ensures r.message == Some(PASSWORD_UPPER) <==>
      !HasOuterWs(password) && Utf16Len(password) >= 8 && !HasUpper(password)
    ensures r.message == Some(PASSWORD_LOWER) <==>
      !HasOuterWs(password) && Utf16Len(password) >= 8 && HasUpper(password) && !HasLower(password)
    ensures r.message == Some(PASSWORD_DIGIT) <==>
      !HasOuterWs(password) && Utf16Len(password) >= 8 && HasUpper(password) && HasLower(password) && !HasDigit(password)
  {
    TrimFixedPoint(password);
    if Trim(password) == "" then Invalid(PASSWORD_REQUIRED)
    else if password != Trim(password) then Invalid(PASSWORD_SPACES)
    else if Utf16Len(password) < 8 then Invalid(PASSWORD_LENGTH)
    else if !HasUpper(password) then Invalid(PASSWORD_UPPER)
    else if !HasLower(password) then Invalid(PASSWORD_LOWER)
    else if !HasDigit(password) then Invalid(PASSWORD_DIGIT)
    else Valid
  }

  /** Length counts UTF-16 code units: three letters and digits followed by
      three emoji make a password of nine units, which is long enough,
      although it has only six characters. */
  lemma AstralPasswordAccepted()
    ensures var p := "Aa1\U{1F600}\U{1F600}\U{1F600}";
      |p| == 6 && ValidatePassword(p).isValid
  {
    var p := "Aa1\U{1F600}\U{1F600}\U{1F600}";
    assert IsUpper(p[0]) && IsLower(p[1]) && IsDigit(p[2]);
    assert p == "Aa1" + "\U{1F600}\U{1F600}\U{1F600}";
    Utf16LenConcat("Aa1", "\U{1F600}\U{1F600}\U{1F600}");
    assert Utf16Len("\U{1F600}\U{1F600}\U{1F600}") == 6;
    assert !IsWs(p[0]) && !IsWs(p[5]);
  }

  // ---------------------------------------------------------- postal codes

  /** The `Country` enumeration; `Empty` is the unselected option. */
  datatype Country = Empty | BY | UA | RU | US

  /** One position of an anchored pattern: `\d` or a literal character. */
  datatype Atom = Digit | Lit(c: char)

  /** `^head(tail)?$` when `tail` is present, `^head$` otherwise; every atom
      matches exactly one character. */
  datatype Pattern = Pattern(head: seq<Atom>, tail: Option<seq<Atom>>)

  /** `\d{n}` */
  function Digits(n: nat): (r: seq<Atom>)
    ensures |r| == n
    ensures forall i :: 0 <= i < n ==> r[i] == Digit
  {
    if n == 0 then [] else [Digit] + Digits(n - 1)
  }

  /** `postalCodePatterns`: the pattern each country's postal code must match. */
  function PostalCodePattern(c: Country): Pattern {
    match c
    case Empty => Pattern(Digits(0), None)
    case BY => Pattern(Digits(6), None)
    case RU => Pattern(Digits(6), None)
    case UA => Pattern(Digits(5), None)
    case US => Pattern(Digits(5), Some([Lit('-')] + Digits(4)))
  }

  function AtomMatches(a: Atom, ch: char): bool {
    match a
    case Digit => IsDigit(ch)
    case Lit(c) => ch == c
  }

  /** Matches a run of atoms against the whole of `s`, one atom per character. */
  function MatchRun(atoms: seq<Atom>, s: string): bool {
    if |atoms| == 0 then |s| == 0
    else |s| > 0 && AtomMatches(atoms[0], s[0]) && MatchRun(atoms[1..], s[1..])
  }

  /** `pattern.test(s)` for an anchored pattern with an optional tail group. */
  function Matches(p: Pattern, s: string): bool {
    || MatchRun(p.head, s)
    || (&& p.tail.Some?
        && |s| >= |p.head|
        && MatchRun(p.head, s[..|p.head|])
        && MatchRun(p.tail.value, s[|p.head|..]))
  }

  predicate AllDigits(s: string) {
    forall i :: 0 <= i < |s| ==> IsDigit(s[i])
  }

  /** A run of atoms matches exactly the strings of its length whose characters
      each match the atom in the same position. */
  lemma {:induction false} MatchRunPositionwise(atoms: seq<Atom>, s: string)
    ensures MatchRun(atoms, s) <==>
      |s| == |atoms| && forall i :: 0 <= i < |s| ==> AtomMatches(atoms[i], s[i])
  {
    if |atoms| > 0 && |s| > 0 {
      MatchRunPositionwise(atoms[1..], s[1..]);
      if |s| == |atoms| && forall i :: 0 <= i < |s| ==> AtomMatches(atoms[i], s[i]) {
        assert forall i :: 0 <= i < |s[1..]| ==> AtomMatches(atoms[1..][i], s[1..][i]) by {
          forall i | 0 <= i < |s[1..]| ensures AtomMatches(atoms[1..][i], s[1..][i]) {
            assert atoms[1..][i] == atoms[i + 1] && s[1..][i] == s[i + 1];
          }
        }
      }
      if MatchRun(atoms, s) {
        forall i | 0 <= i < |s| ensures AtomMatches(atoms[i], s[i]) {
          if i > 0 { assert atoms[1..][i - 1] == atoms[i] && s[1..][i - 1] == s[i]; }
        }
      }
    }
  }

  /** `\d{n}` accepts exactly the strings of `n` ASCII digits. */
  lemma DigitsLanguage(n: nat, s: string)
    ensures MatchRun(Digits(n), s) <==> |s| == n && AllDigits(s)
  {
    MatchRunPositionwise(Digits(n), s);
  }

  /** The language of each country's pattern: six digits for Belarus and Russia,
      five for Ukraine, five optionally followed by `-` and four for the United
      States, and only the empty string for the unselected country. */
  lemma PostalCodeLanguages(s: string)
    ensures Matches(PostalCodePattern(Empty), s) <==> s == ""
    ensures Matches(PostalCodePattern(BY), s) <==> |s| == 6 && AllDigits(s)
    ensures Matches(PostalCodePattern(RU), s) <==> |s| == 6 && AllDigits(s)
    ensures Matches(PostalCodePattern(UA), s) <==> |s| == 5 && AllDigits(s)
    ensures Matches(PostalCodePattern(US), s) <==>
      || (|s| == 5 && AllDigits(s))
      || (|s| == 10 && AllDigits(s[..5]) && s[5] == '-' && AllDigits(s[6..]))
  {
    DigitsLanguage(0, s);
    DigitsLanguage(6, s);
    DigitsLanguage(5, s);
    if |s| >= 5 {
      DigitsLanguage(5, s[..5]);
      var tail := [Lit('-')] + Digits(4);
      MatchRunPositionwise(tail, s[5..]);
      if |s| == 10 && AllDigits(s[6..]) && s[5] == '-' {
        forall i | 0 <= i < 5 ensures AtomMatches(tail[i], s[5..][i]) {
          if i > 0 { assert s[5..][i] == s[6..][i - 1]; }
        }
      }
      if MatchRun(tail, s[5..]) {
        forall i | 0 <= i < |s[6..]| ensures IsDigit(s[6..][i]) {
          assert AtomMatches(tail[i + 1], s[5..][i + 1]);
        }
      }
    }
  }
}
