/**
 * `SigningPlugin.java`: configures Gradle's signing with in-memory PGP keys
 * when both the secret key and its password are configured. It carries an
 * older copy of the secret-key rule of `Configs.parseSecretKey`.
 *
 * The two lookups (`getConfig(project, "OSSRH_GPG_SECRET_KEY")` and
 * `getConfig(project, "OSSRH_GPG_SECRET_KEY_PASSWORD")`) are inputs; null
 * is `None`.
 */
module Signing {
  import opened Wrappers
  import opened Text
  import opened Exceptions
  import Internal
  import Configs

  /** `getGpgSecretKey`: no key is null; an armored key is kept; anything else must decode from Base64. */
  function GetGpgSecretKey(secretKey: Option<Text>): Result<Option<Text>, Exception> {
    match secretKey
    case None => Success(None)
    case Some(key) =>
      if StartsWith(key, [Dash]) then Success(Some(key))
      else
        match Internal.Base64Decode(key)
        case Some(decoded) => Success(Some(decoded))
        case None => Failure(Exception(Gradle, Ascii("Invalid gpg secret key: ") + key))
  }

  /** What `signing.useInMemoryPgpKeys` is given. */
  datatype InMemoryPgpKeys = InMemoryPgpKeys(secretKey: Text, password: Text)

  /** `configureSigning`: the keys to sign with, or `None` when the key or the password is missing. */
  function ConfigureSigning(secretKey: Option<Text>, password: Option<Text>): Result<Option<InMemoryPgpKeys>, Exception> {
    var key :- GetGpgSecretKey(secretKey);
    if key.Some? && password.Some? then Success(Some(InMemoryPgpKeys(key.value, password.value)))
    else Success(None)
  }

  /** No key configured: no key and no error. */
  lemma AbsentKeyIsNull()
    ensures GetGpgSecretKey(None) == Success(None)
  {
  }

  /**
   * The older rule agrees with `Configs.parseSecretKey` on every present key:
   * the same keys are accepted, with the same result; only the message of the
   * error differs, which names the key here.
   */
  lemma AgreesWithParseSecretKey(key: Text)
    ensures GetGpgSecretKey(Some(key)).Success? <==> Configs.ParseSecretKey(key).Success?
    ensures GetGpgSecretKey(Some(key)).Success? ==> GetGpgSecretKey(Some(key)).value == Some(Configs.ParseSecretKey(key).value)
    ensures GetGpgSecretKey(Some(key)).Failure? ==>
      GetGpgSecretKey(Some(key)).error == Exception(Gradle, Ascii("Invalid gpg secret key: ") + key)
  {
  }

  /** A Base64-wrapped key is unwrapped, and an empty key is kept as an empty key (it is not skipped). */
  lemma EncodedKeyUnwrapped(s: Text)
    ensures GetGpgSecretKey(Some(Internal.Base64Encode(s))) == Success(Some(s))
    ensures GetGpgSecretKey(Some([])) == Success(Some([]))
  {
    Configs.SecretKeyOfEncoded(s);
    AgreesWithParseSecretKey(Internal.Base64Encode(s));
    Configs.SecretKeyOfEncoded([]);
    AgreesWithParseSecretKey([]);
  }

  /** Signing is configured exactly when both the key and the password are present and the key is valid. */
  lemma SigningNeedsBoth(secretKey: Option<Text>, password: Option<Text>)
    ensures ConfigureSigning(secretKey, password).Failure? <==> GetGpgSecretKey(secretKey).Failure?
    ensures var r := ConfigureSigning(secretKey, password);
      r.Success? ==>
        (r.value.Some? <==> secretKey.Some? && password.Some?)
        && (r.value.Some? ==> r.value.value == InMemoryPgpKeys(GetGpgSecretKey(secretKey).value.value, password.value))
  {
  }
}
