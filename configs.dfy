/**
 * `Configs.java`: every configuration value the kit reads, with its keys,
 * parser, static fallback and link, and the rule for GPG secret keys.
 */
module Configs {
  import opened Wrappers
  import opened Text
  import opened Exceptions
  import opened Variants
  import Base64
  import Internal

  // ---------------------------------------------------------------------------
  // Parsers of this file

  /**
   * `parseSecretKey`: an armored key (it starts with `-`) is taken as it is;
   * anything else must be Base64, and is decoded; text that is not Base64 is
   * a fatal error, never "no value".
   */
  function ParseSecretKey(text: Text): Result<Text, Exception> {
    if StartsWith(text, [Dash]) then Success(text)
    else
      match Internal.Base64Decode(text)
      case Some(decoded) => Success(decoded)
      case None => Failure(Thrown(Gradle, "Invalid gpg secret key."))
  }

  function SecretKeyParser(text: Text): Parsed<Text> {
    match ParseSecretKey(text)
    case Success(key) => Value(key)
    case Failure(e) => Reject(e)
  }

  predicate IsDigit(b: byte) {
    48 <= b <= 57
  }

  predicate AllDigits(t: Text) {
    forall i :: 0 <= i < |t| ==> IsDigit(t[i])
  }

  function DecimalValue(t: Text): nat
    requires AllDigits(t)
  {
    if t == [] then 0 else DecimalValue(t[..|t| - 1]) * 10 + (t[|t| - 1] - 48) as nat
  }

  /** `JavaLanguageVersion.of(String)`, for plain major versions: a positive decimal number. */
  function JavaLanguageVersionOf(t: Text): Parsed<nat> {
    if t != [] && AllDigits(t) && DecimalValue(t) > 0 then Value(DecimalValue(t))
    else Reject(Exception(IllegalArgument, t))
  }

  /** `ofJavaLanguageVersion`: trimmed, blank skipped, then read as a version. */
  const OfJavaLanguageVersion: Text -> Parsed<nat> := OfTrimAndSkipEmpty(JavaLanguageVersionOf)

  /** `ofStringArray`: a comma separated list of strings. */
  const OfStringArray: Text -> Parsed<seq<Text>> := OfStringList(Comma)

  // ---------------------------------------------------------------------------
  // The descriptors, in the order the file declares them

  const KitLogEnabled: Descriptor<bool> := Descriptor(
    Some("Kit Log Enabled"), Some("Enable or Disable Kit Logging"), Some(false),
    ["KIT_LOG_ENABLED", "kit.log.enabled", "gradle.kit.log.enabled"], OfBoolean, None)

  const KitJavaCompilerVersion: Descriptor<nat> := Descriptor(
    Some("Kit Java Compiler Version"), None, Some(17),
    ["KIT_JAVA_COMPILER_VERSION", "kit.java.compiler.version"], OfJavaLanguageVersion, None)

  const KitJavaSourceVersion: Descriptor<nat> := Descriptor(
    Some("Kit Java Source Version"), None, Some(9),
    ["KIT_JAVA_SOURCE_VERSION", "kit.java.source.version"], OfJavaLanguageVersion, None)

  const KitJavaTargetVersion: Descriptor<nat> := Descriptor(
    Some("Kit Java Target Version"), None, None,
    ["KIT_JAVA_TARGET_VERSION", "kit.java.target.version"], OfJavaLanguageVersion, Some(KitJavaSourceVersion))

  const KitJavaTestSourceVersion: Descriptor<nat> := Descriptor(
    Some("Kit Java Test Source Version"), None, None,
    ["KIT_JAVA_TEST_SOURCE_VERSION", "kit.java.test.source.version"], OfJavaLanguageVersion, Some(KitJavaSourceVersion))

  const KitJavaTestTargetVersion: Descriptor<nat> := Descriptor(
    Some("Kit Java Test Target Version"), None, None,
    ["KIT_JAVA_TEST_TARGET_VERSION", "kit.java.test.target.version"], OfJavaLanguageVersion, Some(KitJavaTestSourceVersion))

  const KitProjectWorkflow: Descriptor<Text> := Descriptor(
    Some("Kit Project Workflow"), None, Some(Ascii("unknown")),
    ["KIT_PROJECT_WORKFLOW", "PROJECT_WORKFLOW", "kit.project.workflow"], OfString, None)

  const KitOssrhUrl: Descriptor<Text> := Descriptor(
    Some("Kit OSSRH URL"), None,
    Some(Ascii("https://central.sonatype.com/api/v1/publisher/upload?publishingType=USER_MANAGED")),
    ["KIT_OSSRH_URL", "kit.ossrh.url"], OfString, None)

  const KitOssrhUsername: Descriptor<Text> := Descriptor(
    Some("Kit OSSRH User Login Name"), None, None,
    ["KIT_OSSRH_USERNAME", "OSSRH_USERNAME", "kit.ossrh.username"], OfString, None)

  const KitOssrhPassword: Descriptor<Text> := Descriptor(
    Some("Kit OSSRH Password"), None, None,
    ["KIT_OSSRH_PASSWORD", "OSSRH_PASSWORD", "kit.ossrh.password"], OfString, None)

  const KitGpgSecretKey: Descriptor<Text> := Descriptor(
    Some("Kit OSSRH GPG Secret Key"), None, None,
    ["KIT_OSSRH_GPG_SECRET_KEY", "OSSRH_GPG_SECRET_KEY", "kit.ossrh.gpg.secret.key"],
    OfTrimAndSkipEmpty(SecretKeyParser), None)

  const KitGpgSecretKeyPassword: Descriptor<Text> := Descriptor(
    Some("Kit OSSRH GPG Secret Key Password"), None, None,
    ["KIT_OSSRH_GPG_SECRET_KEY_PASSWORD", "OSSRH_GPG_SECRET_KEY_PASSWORD", "kit.ossrh.gpg.secret.key.password"],
    OfString, None)

  const KitIncludeTags: Descriptor<seq<Text>> := Descriptor(
    Some("Kit Java Test Include Tags"), None, Some([]),
    ["KIT_INCLUDE_TAGS", "kit.include.tags", "includeTags"], OfStringArray, None)

  const KitExcludeTags: Descriptor<seq<Text>> := Descriptor(
    Some("Kit Java Test Exclude Tags"), None,
    Some([Ascii("unstable"), Ascii("slow"), Ascii("integration"), Ascii("functional")]),
    ["KIT_EXCLUDE_TAGS", "kit.exclude.tags", "excludeTags"], OfStringArray, None)

  const KitIntegrationExcludeTags: Descriptor<seq<Text>> := Descriptor(
    Some("Kit Java Integration Exclude Tags"), None,
    Some([Ascii("unstable"), Ascii("slow"), Ascii("functional")]),
    ["KIT_INTEGRATION_EXCLUDE_TAGS", "kit.integration.exclude.tags", "excludeIntegrationTags"], OfStringArray,
    Some(KitExcludeTags))

  const KitFunctionalExcludeTags: Descriptor<seq<Text>> := Descriptor(
    Some("Kit Java Functional Exclude Tags"), None,
    Some([Ascii("unstable"), Ascii("slow"), Ascii("integration")]),
    ["KIT_FUNCTIONAL_EXCLUDE_TAGS", "kit.functional.exclude.tags"], OfStringArray,
    Some(KitExcludeTags))

  // ---------------------------------------------------------------------------
  // The table as declared

  /** A descriptor's name and the name of the descriptor it links to. */
  datatype Entry = Entry(name: string, link: Option<string>)

  function Summary<T>(d: Descriptor<T>): Entry {
    Entry(d.name.GetOr("***"), match d.link case Some(l) => Some(l.name.GetOr("***")) case None => None)
  }

  /** Every descriptor of the file, in declaration order. */
  const Table: seq<Entry> := [
    Summary(KitLogEnabled), Summary(KitJavaCompilerVersion), Summary(KitJavaSourceVersion),
    Summary(KitJavaTargetVersion), Summary(KitJavaTestSourceVersion), Summary(KitJavaTestTargetVersion),
    Summary(KitProjectWorkflow), Summary(KitOssrhUrl), Summary(KitOssrhUsername), Summary(KitOssrhPassword),
    Summary(KitGpgSecretKey), Summary(KitGpgSecretKeyPassword), Summary(KitIncludeTags),
    Summary(KitExcludeTags), Summary(KitIntegrationExcludeTags), Summary(KitFunctionalExcludeTags)]

  /** The names along a descriptor's link chain, starting with its own; finite because links are values. */
  function LinkChain<T>(d: Descriptor<T>): seq<string>
    decreases d
  {
    [d.name.GetOr("***")] + match d.link case Some(l) => LinkChain(l) case None => []
  }

  /** Names are unique, and every link names a descriptor declared earlier: the link graph is acyclic. */
  lemma TableLinksPointBackward()
    ensures forall i, j :: 0 <= i < j < |Table| ==> Table[i].name != Table[j].name
    ensures forall i :: 0 <= i < |Table| && Table[i].link.Some? ==>
      exists j :: 0 <= j < i && Table[j].name == Table[i].link.value
  {
    assert Table[3].link == Some(Table[2].name);
    assert Table[4].link == Some(Table[2].name);
    assert Table[5].link == Some(Table[4].name);
    assert Table[14].link == Some(Table[13].name);
    assert Table[15].link == Some(Table[13].name);
  }

  /** The test target version falls back to the test source version, and that to the source version. */
  lemma TestTargetVersionChain()
    ensures LinkChain(KitJavaTestTargetVersion) ==
      ["Kit Java Test Target Version", "Kit Java Test Source Version", "Kit Java Source Version"]
    ensures KitJavaSourceVersion.fallback == Some(9)
  {
  }

  /** The static fallbacks the file declares. */
  lemma DeclaredFallbacks()
    ensures KitLogEnabled.fallback == Some(false)
    ensures KitJavaCompilerVersion.fallback == Some(17)
    ensures KitJavaSourceVersion.fallback == Some(9)
    ensures KitIncludeTags.fallback == Some([])
    ensures KitExcludeTags.fallback == Some([Ascii("unstable"), Ascii("slow"), Ascii("integration"), Ascii("functional")])
    ensures KitProjectWorkflow.fallback == Some(Ascii("unknown"))
  {
  }

  // ---------------------------------------------------------------------------
  // The secret-key rule

  lemma EncodedShape(s: Text)
    ensures var e := Internal.Base64Encode(s);
      (s == [] <==> e == []) && (e != [] ==> Base64.IsAlphabet(e[0]) && !IsBlank(e[|e| - 1]))
  {
    Base64.EncodeLength(s);
    Base64.EncodeAlphabet(s);
  }

  /** A Base64-wrapped key is unwrapped: parsing `base64Encode(s)` gives `s` for every `s`. */
  lemma SecretKeyOfEncoded(s: Text)
    ensures ParseSecretKey(Internal.Base64Encode(s)) == Success(s)
  {
    var e := Internal.Base64Encode(s);
    EncodedShape(s);
    Base64.DecodeEncode(s);
    assert !StartsWith(e, [Dash]);
  }

  /** Text that is neither armored nor Base64 is always an error. */
  lemma SecretKeyRejects(t: Text, i: nat)
    requires !StartsWith(t, [Dash])
    requires i < |t| && !Base64.IsAlphabet(t[i]) && t[i] != Base64.Padding
    ensures ParseSecretKey(t) == Failure(Thrown(Gradle, "Invalid gpg secret key."))
  {
    Base64.DecodeRejectsForeign(t, i);
  }

  // ---------------------------------------------------------------------------
  // The behaviour the tests pin down, for every conforming resolver

  /** The single map source of the tests' `withGetConfig`: every key of the descriptor set to `input` (null: not held). */
  function WithGetConfig<T>(d: Descriptor<T>, input: Option<Text>): seq<Source> {
    [map k | k in d.keys && input.Some? :: input.value]
  }

  lemma WithGetConfigNull<T>(d: Descriptor<T>)
    ensures NoneHeld(d, WithGetConfig(d, None))
  {
  }

  lemma WithGetConfigValue<T>(d: Descriptor<T>, v: Text)
    requires |d.keys| > 0
    ensures AllHeldAre(d, WithGetConfig(d, Some(v)), v)
  {
    var sources := WithGetConfig(d, Some(v));
    assert d.keys[0] in d.keys && d.keys[0] in sources[0];
  }

  /** With no value anywhere, the test target version is still present: the source version's fallback, 9. */
  lemma TestTargetVersionWithoutValue(resolve: Resolver<nat>)
    requires Conforms(resolve)
    ensures resolve(KitJavaTestTargetVersion, WithGetConfig(KitJavaTestTargetVersion, None)) == Present(9)
  {
    var sources := WithGetConfig(KitJavaTestTargetVersion, None);
    assert ConformsAt(resolve, KitJavaTestTargetVersion, sources);
    assert ConformsAt(resolve, KitJavaTestSourceVersion, sources);
    assert ConformsAt(resolve, KitJavaSourceVersion, sources);
  }

  /** "21" reads as Java version 21. */
  lemma VersionOf21()
    ensures OfJavaLanguageVersion(Ascii("21")) == Value(21)
  {
    var v := Ascii("21");
    assert v == [50, 49];
    TrimUnblanked(v);
    TrimAndSkipEmptyAt(JavaLanguageVersionOf, v);
    assert v[..1] == [50];
    assert [50 as byte][..0] == [];
    assert DecimalValue([50]) == 2;
    assert DecimalValue(v) == 21;
  }

  /** The value "21" for the test target version yields version 21. */
  lemma TestTargetVersionOf21(resolve: Resolver<nat>)
    requires Conforms(resolve)
    ensures resolve(KitJavaTestTargetVersion, WithGetConfig(KitJavaTestTargetVersion, Some(Ascii("21")))) == Present(21)
  {
    var v := Ascii("21");
    var sources := WithGetConfig(KitJavaTestTargetVersion, Some(v));
    WithGetConfigValue(KitJavaTestTargetVersion, v);
    assert ConformsAt(resolve, KitJavaTestTargetVersion, sources);
    VersionOf21();
  }

  /** An empty secret key is no value at all. */
  lemma SecretKeyEmptyIsAbsent(resolve: Resolver<Text>)
    requires Conforms(resolve)
    ensures resolve(KitGpgSecretKey, WithGetConfig(KitGpgSecretKey, Some([]))) == Absent
  {
    var sources := WithGetConfig(KitGpgSecretKey, Some([]));
    WithGetConfigValue(KitGpgSecretKey, []);
    assert ConformsAt(resolve, KitGpgSecretKey, sources);
    TrimAndSkipEmptyAt(SecretKeyParser, []);
  }

  /** A Base64-wrapped secret key resolves to the unwrapped key (for "Hello World!" as for every text). */
  lemma SecretKeyEncodedResolves(resolve: Resolver<Text>, s: Text)
    requires Conforms(resolve)
    ensures resolve(KitGpgSecretKey, WithGetConfig(KitGpgSecretKey, Some(Internal.Base64Encode(s)))) ==
      if s == [] then Absent else Present(s)
  {
    var e := Internal.Base64Encode(s);
    var sources := WithGetConfig(KitGpgSecretKey, Some(e));
    WithGetConfigValue(KitGpgSecretKey, e);
    assert ConformsAt(resolve, KitGpgSecretKey, sources);
    EncodedShape(s);
    TrimUnblanked(e);
    TrimAndSkipEmptyAt(SecretKeyParser, e);
    SecretKeyOfEncoded(s);
    assert KitGpgSecretKey.parser(e) == if s == [] then Skip else Value(s);
  }

  /**
   * An armored secret key (one whose trimmed text starts with `-`, e.g.
   * "-Hello World!" or a key ending in a newline) resolves to its trimmed text.
   */
  lemma SecretKeyArmoredResolves(resolve: Resolver<Text>, t: Text)
    requires Conforms(resolve)
    requires StartsWith(Trim(t), [Dash])
    ensures resolve(KitGpgSecretKey, WithGetConfig(KitGpgSecretKey, Some(t))) == Present(Trim(t))
  {
    var sources := WithGetConfig(KitGpgSecretKey, Some(t));
    WithGetConfigValue(KitGpgSecretKey, t);
    assert ConformsAt(resolve, KitGpgSecretKey, sources);
    TrimAndSkipEmptyAt(SecretKeyParser, t);
  }

  /**
   * A secret key whose trimmed text is neither armored nor Base64 (e.g.
   * "Hello World!", with or without surrounding blanks) is an error, not an
   * absent value.
   */
  lemma SecretKeyMalformedFails(resolve: Resolver<Text>, t: Text, i: nat)
    requires Conforms(resolve)
    requires i < |Trim(t)| && !Base64.IsAlphabet(Trim(t)[i]) && Trim(t)[i] != Base64.Padding
    requires !StartsWith(Trim(t), [Dash])
    ensures resolve(KitGpgSecretKey, WithGetConfig(KitGpgSecretKey, Some(t))) ==
      Invalid(Thrown(Gradle, "Invalid gpg secret key."))
  {
    var sources := WithGetConfig(KitGpgSecretKey, Some(t));
    WithGetConfigValue(KitGpgSecretKey, t);
    assert ConformsAt(resolve, KitGpgSecretKey, sources);
    TrimAndSkipEmptyAt(SecretKeyParser, t);
    SecretKeyRejects(Trim(t), i);
  }

  /** The tests' malformed key "Hello World!" qualifies: it is its own trim, has no leading dash, and has a space inside. */
  lemma HelloWorldIsMalformed(t: Text)
    requires t == Ascii("Hello World!")
    ensures |t| == 12 && !StartsWith(t, [Dash]) && !Base64.IsAlphabet(t[5]) && t[5] != Base64.Padding
    ensures Trim(t) == t
  {
    assert |t| == 12 && t[0] == 72 && t[5] == 32 && t[11] == 33;
    assert t[..1] == [72];
    TrimUnblanked(t);
  }
}
