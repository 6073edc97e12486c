/**
 * `validateEmail` and `validatePassword` (`src/lib/validation.ts`): what registration and
 * password changes accept. Lengths are JavaScript lengths, in UTF-16 code units.
 */
module Validation {
  import opened Wrappers
  import Text

  const INVALID_EMAIL := "Invalid email."
  const WEAK_PASSWORD := "Weak password."
  const MAX_EMAIL_LENGTH := 320
  const MIN_PASSWORD_LENGTH := 10

  /** `[^\s@]`: JavaScript's `\s` is the set `trim` removes. */
  predicate EmailChar(c: char) {
    c != '@' && !Text.IsJsWhitespace(c)
  }

  predicate EmailChars(s: string) {
    forall c | c in s :: EmailChar(c)
  }

  /** `[^\s@]+\.[^\s@]+`: no `@` or white space, and a dot with something on each side. */
  predicate IsDomain(d: string) {
    EmailChars(d) && exists dot | 0 < dot < |d| - 1 :: d[dot] == '.'
  }

  /** `EMAIL_RE.test(e)` for `/^[^\s@]+@[^\s@]+\.[^\s@]+$/`. */
  predicate MatchesEmail(e: string) {
    exists at | 0 < at < |e| :: e[at] == '@' && EmailChars(e[..at]) && IsDomain(e[at + 1..])
  }

  /** A matching address has exactly one `@`, at least one character before it, and at
      least three after it. */
  lemma MatchesEmailShape(e: string, at: int)
    requires 0 < at < |e| && e[at] == '@' && EmailChars(e[..at]) && IsDomain(e[at + 1..])
    ensures forall k | 0 <= k < |e| && e[k] == '@' :: k == at
    ensures |e| >= at + 4 && |e| >= 5
  {
    forall k | 0 <= k < |e| && k != at
      ensures e[k] != '@'
    {
      if k < at {
        assert e[..at][k] == e[k] && e[..at][k] in e[..at];
      } else {
        assert e[at + 1..][k - at - 1] == e[k] && e[at + 1..][k - at - 1] in e[at + 1..];
      }
    }
  }

  /** `validateEmail(value)`: the trimmed, lower-cased address if it matches and is at most
      320 code units long. */
  function ValidateEmail(value: string): (r: Result<string, string>)
    ensures r.Err? ==> r.error == INVALID_EMAIL
    ensures r.Ok? ==> r.value == Text.ToLower(Text.Trim(value))
    ensures r.Ok? <==>
      var e := Text.ToLower(Text.Trim(value));
      MatchesEmail(e) && Text.Utf16Length(e) <= MAX_EMAIL_LENGTH
    ensures r.Ok? ==> forall i | 0 <= i < |r.value| :: !Text.IsAsciiUpper(r.value[i])
  {
    var email := Text.ToLower(Text.Trim(value));
    if email == [] || Text.Utf16Length(email) > MAX_EMAIL_LENGTH || !MatchesEmail(email) then Err(INVALID_EMAIL)
    else Ok(email)
  }

  /** An accepted address is accepted again as it is. */
  lemma ValidateEmailIdempotent(value: string)
    requires ValidateEmail(value).Ok?
    ensures ValidateEmail(ValidateEmail(value).value) == ValidateEmail(value)
  {
    Text.ToLowerTrimIdempotent(value);
  }

  /** An accepted address has a single `@`. */
  lemma AcceptedEmailHasOneAt(value: string)
    requires ValidateEmail(value).Ok?
    ensures var e := ValidateEmail(value).value;
      exists at | 0 < at < |e| :: e[at] == '@' && forall k | 0 <= k < |e| && e[k] == '@' :: k == at
  {
    var e := ValidateEmail(value).value;
    var at :| 0 < at < |e| && e[at] == '@' && EmailChars(e[..at]) && IsDomain(e[at + 1..]);
    MatchesEmailShape(e, at);
  }

  predicate HasLower(s: string) { exists c | c in s :: Text.IsAsciiLower(c) }
  predicate HasUpper(s: string) { exists c | c in s :: Text.IsAsciiUpper(c) }
  predicate HasDigit(s: string) { exists c | c in s :: Text.IsDigit(c) }

  /** `[^a-zA-Z0-9]`: anything but an ASCII letter or digit, so a non-ASCII letter counts. */
  predicate IsSymbol(c: char) {
    !Text.IsAsciiLower(c) && !Text.IsAsciiUpper(c) && !Text.IsDigit(c)
  }

  predicate HasSymbol(s: string) { exists c | c in s :: IsSymbol(c) }

  /** The five rules of lines 13-19. */
  predicate StrongPassword(p: string) {
    Text.Utf16Length(p) >= MIN_PASSWORD_LENGTH && HasLower(p) && HasUpper(p) && HasDigit(p) && HasSymbol(p)
  }

  /** `validatePassword(value)`: the trimmed password if it keeps every rule. */
  function ValidatePassword(value: string): (r: Result<string, string>)
    ensures r.Err? ==> r.error == WEAK_PASSWORD
    ensures r.Ok? <==> StrongPassword(Text.Trim(value))
    ensures r.Ok? ==> r.value == Text.Trim(value) && Text.Trim(r.value) == r.value
  {
    var password := Text.Trim(value);
    Text.TrimIdempotent(value);
    if StrongPassword(password) then Ok(password) else Err(WEAK_PASSWORD)
  }

  /** An accepted password is accepted again as it is. */
  lemma ValidatePasswordIdempotent(value: string)
    requires ValidatePassword(value).Ok?
    ensures ValidatePassword(ValidatePassword(value).value) == ValidatePassword(value)
  {
    Text.TrimIdempotent(value);
  }

  /** An address put together from a local part, `@` and a domain matches. */
  lemma MatchesJoined(local: string, domain: string)
    requires local != [] && EmailChars(local) && IsDomain(domain)
    ensures MatchesEmail(local + "@" + domain)
  {
    var e := local + "@" + domain;
    var at := |local|;
    assert e[at] == '@';
    assert e[..at] == local;
    assert e[at + 1..] == domain;
  }


  /** `e` is lower-case letters with an `@` at `at` and a dot at `dot`, each with a letter
      on either side: an address of the form `local@name.tld`. */
  predicate LowerAddress(e: string, at: int, dot: int) {
    && 0 < at && at + 1 < dot && dot + 1 < |e|
    && e[at] == '@' && e[dot] == '.'
    && forall i | 0 <= i < |e| && i != at && i != dot :: Text.IsAsciiLower(e[i])
  }

  /** Such an address matches. */
  lemma LowerAddressMatches(e: string, at: int, dot: int)
    requires LowerAddress(e, at, dot)
    ensures MatchesEmail(e)
  {
    var local, domain := e[..at], e[at + 1..];
    forall c | c in local
      ensures EmailChar(c)
    {
      var k :| 0 <= k < |local| && local[k] == c;
      assert c == e[k];
    }
    forall c | c in domain
      ensures EmailChar(c)
    {
      var k :| 0 <= k < |domain| && domain[k] == c;
      assert c == e[at + 1 + k];
    }
    assert domain[dot - at - 1] == '.';
    MatchesJoined(local, domain);
    assert local + "@" + domain == e;
  }

  /** Trimming and lower-casing leave such an address as it is. */
  lemma LowerAddressNormal(e: string, at: int, dot: int)
    requires LowerAddress(e, at, dot)
    ensures Text.ToLower(Text.Trim(e)) == e
  {
    assert Text.IsAsciiLower(e[0]) && Text.IsAsciiLower(e[|e| - 1]);
    Text.TrimUnchanged(e);
    Text.ToLowerUnchanged(e);
  }

  /** An address of lower-case words, `local@name.tld`, of at most 160 characters is
      accepted as it is. */
  lemma AcceptsLowerAddress(e: string, at: int, dot: int)
    requires LowerAddress(e, at, dot) && |e| <= MAX_EMAIL_LENGTH / 2
    ensures ValidateEmail(e) == Ok(e)
  {
    LowerAddressMatches(e, at, dot);
    LowerAddressNormal(e, at, dot);
  }

  /** A text of at least ten characters with an upper-case letter, a lower-case letter, a
      digit and a symbol at the given places is a strong password. */
  lemma StrongAt(p: string, upper: int, lower: int, digit: int, symbol: int)
    requires |p| >= MIN_PASSWORD_LENGTH
    requires 0 <= upper < |p| && Text.IsAsciiUpper(p[upper])
    requires 0 <= lower < |p| && Text.IsAsciiLower(p[lower])
    requires 0 <= digit < |p| && Text.IsDigit(p[digit])
    requires 0 <= symbol < |p| && IsSymbol(p[symbol])
    ensures StrongPassword(p)
  {
    assert HasUpper(p) by { assert p[upper] in p; }
    assert HasLower(p) by { assert p[lower] in p; }
    assert HasDigit(p) by { assert p[digit] in p; }
    assert HasSymbol(p) by { assert p[symbol] in p; }
    assert Text.Utf16Length(p) >= MIN_PASSWORD_LENGTH;
  }

  /** The examples of the validation tests. Facts about the literals are proved each on
      its own, away from the trimming and lower-casing lemmas. */
  lemma AcceptsUserAtExample()
    ensures ValidateEmail("user@example.com") == Ok("user@example.com")
  {
    AcceptsLowerAddress("user@example.com", 4, 12);
  }

  lemma RejectsNope()
    ensures ValidateEmail("nope").Err?
  {
    NopeFacts();
    Text.TrimUnchanged("nope");
    Text.ToLowerUnchanged("nope");
  }

  lemma NopeFacts()
    ensures !MatchesEmail("nope")
    ensures forall i | 0 <= i < |"nope"| :: !Text.IsAsciiUpper("nope"[i])
  {
  }

  lemma RejectsShort()
    ensures ValidatePassword("short").Err?
  {
    ShortFacts();
    Text.TrimUnchanged("short");
  }

  lemma ShortFacts()
    ensures !HasUpper("short")
  {
  }

  lemma RejectsAllLowercase()
    ensures ValidatePassword("alllowercasebutlong").Err?
  {
    AllLowercaseFacts();
    Text.TrimUnchanged("alllowercasebutlong");
  }

  lemma AllLowercaseFacts()
    ensures !HasUpper("alllowercasebutlong")
  {
  }

  lemma AcceptsValid1234()
    ensures ValidatePassword("Valid1234!") == Ok("Valid1234!")
  {
    Valid1234Trimmed();
    Valid1234Strong();
  }

  lemma Valid1234Trimmed()
    ensures Text.Trim("Valid1234!") == "Valid1234!"
  {
    Text.TrimUnchanged("Valid1234!");
  }

  lemma Valid1234Strong()
    ensures StrongPassword("Valid1234!")
  {
    StrongAt("Valid1234!", 0, 1, 5, 9);
  }
}
