/**
 * `validateSecretValue` and `assertSecureSecrets` (`src/lib/config.ts`): the start-up
 * check that refuses to run in production with a missing, short or placeholder secret.
 * The environment is a parameter.
 */
module Config {
  import opened Wrappers
  import Text

  const PLACEHOLDER := "replace-with-strong-secret"
  const MIN_SECRET_LENGTH := 16
  const WEAK_SECRETS := "Missing or weak secrets in production."
  const PRODUCTION := "production"

  /** `validateSecretValue(value).ok`: present, at least 16 code units once trimmed, and
      free of the placeholder text. */
  function ValidateSecretValue(value: Option<string>): (ok: bool)
    ensures ok <==> value.Some? && Text.Utf16Length(Text.Trim(value.value)) >= MIN_SECRET_LENGTH
                    && !Text.Contains(value.value, PLACEHOLDER)
  {
    if value.None? || value.value == [] then false
    else Text.Utf16Length(Text.Trim(value.value)) >= MIN_SECRET_LENGTH && !Text.Contains(value.value, PLACEHOLDER)
  }

  /** The environment variables the check reads; `None` is an unset variable. */
  datatype Env = Env(nodeEnv: Option<string>, nextAuthSecret: Option<string>, keysEncryptionSecret: Option<string>)

  /** `KEYS_ENCRYPTION_SECRET || NEXTAUTH_SECRET`: an empty or unset keys secret falls back
      to the session secret. */
  function KeysSecret(env: Env): (s: Option<string>)
    ensures env.keysEncryptionSecret.Some? && env.keysEncryptionSecret.value != [] ==> s == env.keysEncryptionSecret
    ensures env.keysEncryptionSecret.None? || env.keysEncryptionSecret.value == [] ==> s == env.nextAuthSecret
  {
    if env.keysEncryptionSecret.Some? && env.keysEncryptionSecret.value != [] then env.keysEncryptionSecret
    else env.nextAuthSecret
  }

  /** `assertSecureSecrets()`: the thrown error becomes `Err`. */
  function AssertSecureSecrets(env: Env): (r: Result<(), string>)
    ensures env.nodeEnv != Some(PRODUCTION) ==> r.Ok?
    ensures env.nodeEnv == Some(PRODUCTION) ==>
      (r.Ok? <==> ValidateSecretValue(env.nextAuthSecret) && ValidateSecretValue(KeysSecret(env)))
    ensures r.Err? ==> r.error == WEAK_SECRETS
  {
    if env.nodeEnv != Some(PRODUCTION) then Ok(())
    else if !ValidateSecretValue(env.nextAuthSecret) || !ValidateSecretValue(KeysSecret(env)) then Err(WEAK_SECRETS)
    else Ok(())
  }

  /** In production without a separate keys secret, the session secret alone decides. */
  lemma FallbackToSessionSecret(env: Env)
    requires env.nodeEnv == Some(PRODUCTION)
    requires env.keysEncryptionSecret.None? || env.keysEncryptionSecret == Some("")
    ensures AssertSecureSecrets(env).Ok? <==> ValidateSecretValue(env.nextAuthSecret)
  {
  }

  /** When production starts, the secret that encrypts API keys is valid. */
  lemma ProductionKeysSecretValid(env: Env)
    requires env.nodeEnv == Some(PRODUCTION) && AssertSecureSecrets(env).Ok?
    ensures ValidateSecretValue(KeysSecret(env)) && KeysSecret(env).Some?
  {
  }

  /** Any text holding the placeholder is refused, however long. */
  lemma PlaceholderRejected(before: string, after: string)
    ensures !ValidateSecretValue(Some(before + PLACEHOLDER + after))
  {
    var s := before + PLACEHOLDER + after;
    assert s[|before|..|before| + |PLACEHOLDER|] == PLACEHOLDER;
    assert Text.OccursAt(s, PLACEHOLDER, |before|);
  }

  /** Text of fewer than eight characters is never a secret: even a character outside the
      Basic Multilingual Plane counts only two code units. */
  lemma ShortRejected(s: string)
    requires |s| < MIN_SECRET_LENGTH / 2
    ensures !ValidateSecretValue(Some(s))
  {
    assert Text.Utf16Length(Text.Trim(s)) <= 2 * |Text.Trim(s)|;
  }

  /** Sixteen or more characters without surrounding white space make a secret when the
      text is too short to hold the placeholder. */
  lemma ShortOfPlaceholderAccepted(s: string)
    requires MIN_SECRET_LENGTH <= |s| < |PLACEHOLDER|
    requires !Text.IsJsWhitespace(s[0]) && !Text.IsJsWhitespace(s[|s| - 1])
    ensures ValidateSecretValue(Some(s))
  {
    Text.TrimUnchanged(s);
  }

  /** The examples of the configuration test. */
  lemma AcceptsExample()
    ensures ValidateSecretValue(Some("super-secret-value-123"))
  {
    ShortOfPlaceholderAccepted("super-secret-value-123");
  }

  lemma RejectsPlaceholder()
    ensures !ValidateSecretValue(Some(PLACEHOLDER))
  {
    PlaceholderRejected("", "");
    assert "" + PLACEHOLDER + "" == PLACEHOLDER;
  }
}
