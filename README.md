# gradle-kit core, modelled in Dafny

This project models the configuration and validation core of the gradle-kit
Gradle plugins and proves that core's properties. It covers five areas:

- **The codec helpers of `Internal`.** Base64 over UTF-8 text, lowercase hex
  rendering of digests, and the `.md5`/`.sha1` checksum run.
- **The configuration descriptors.** The table of `Configs` (keys,
  fallbacks, links, parsers and the GPG secret-key rule) and the mutable
  `ConfigImpl` builder.
- **The apply-once marker of `ProjectApplier`.** Also its test-project rule,
  its source order and its log flag.
- **The validation front-ends.** `UploadBundleImpl` (argument checks, check
  order, dry run, the authorization header), `SigningPlugin` (the older
  secret-key rule and the both-present guard) and `JavaVersioningApplier`
  (tag properties, tagged test tasks, Java versions and compiler arguments).

Text is a sequence of bytes (`Text.Text`), standing for UTF-8. Java's
`null` is `Option.None`, and a thrown exception is a `Result.Failure`.

Descriptors are resolved by the external `io.github.jonloucks.variants`
library, which is not part of this model. `Variants` holds a stand-in for it:
- A descriptor is a datatype with the shape of `Config<T>` plus its link.
- A source maps keys to raw text.
- A resolver is a parameter.

The predicate `Variants.Conforms` commits a resolver only to what the kit's
tests rely on:
- With none of a descriptor's keys held, the result is the link's value, the
  static fallback, or absent.
- When every held key holds the same non-empty text, the result is the
  parser's verdict on it.

`Variants.ReferenceResolve` tries the keys in declared order, each in the
sources in rank order, then the link, then the fallback; an empty value counts
as absent and a parse error ends the lookup. It is proved to conform, so no lemma rests on an
unsatisfiable assumption. Every statement about resolution is proved for every
conforming resolver.

Each source file keeps its own form:
- `ConfigImpl` is a class whose methods update its fields in place.
- `applyOnce` is a method that reads and writes the extra-properties object of
  a `Project`. It is proved equal to the function
  `ProjectApplying.ApplyOnceOutcome`, about which the lemmas are stated.
- `writeDigestBytes` is a loop over an array.
- The compile options and the Java plugin extension are objects updated in
  place.
- Everything else is functions and lemmas.
- `ConfigBuilder.ConfigImpl.AsDescriptor` is the `Variants.Descriptor` a
  builder stands for, so the builder and the descriptor table are one model of
  `Config<T>`.

Points of the code the model keeps:
- The sources are, in this order, the system environment, the project's
  environment variables, the system properties, and the project's properties
  (`ProjectApplier.java:18-23`).
- An empty secret key is absent because the descriptor's parser trims and skips
  empty text (`Configs.java:84`). `parseSecretKey` itself decodes `""` to `""`.
  The older `SigningPlugin` rule keeps an empty key as an empty key.
- `ConfigImpl.java` overrides `fallback(Config<T>)` and `getLink`, which the
  `Config.java` of this revision does not declare. The model keeps them as the
  builder's link field and its setter `FallbackTo`.
- The tagged test tasks of `JavaVersioningApplier` read the same
  "excludeTags" property as the default task. Setting that property replaces
  the excludes of every task (`JavaVersioning.ExcludeTagsOverrideAll`).

## Model

| member | source | states |
|---|---|---|
| Base64.DecodeEncode | src/main/java/io/github/jonloucks/gradle/kit/Internal.java:21-27 | the basic decoder inverts the basic encoder on every input, padding included |
| Base64.EncodeLength | src/main/java/io/github/jonloucks/gradle/kit/Internal.java:21-23 | the encoding of n bytes is 4·⌈n/3⌉ characters |
| Base64.EncodeAlphabet | src/main/java/io/github/jonloucks/gradle/kit/Internal.java:21-23 | every encoded character is in the alphabet or is '='; only the last two can be '=' |
| Base64.DecodeRejectsForeign | src/main/java/io/github/jonloucks/gradle/kit/Internal.java:25-27 | one foreign character anywhere makes decoding fail |
| Base64.UnitRoundTrip | src/main/java/io/github/jonloucks/gradle/kit/Internal.java:21-27 | a 3-byte group encodes to 4 full characters that decode back to the group |
| Base64.CharOf | src/main/java/io/github/jonloucks/gradle/kit/Internal.java:21-23 | a 6-bit value maps to an alphabet character (never '=') whose value is that number |
| Internal.Unsigned | src/main/java/io/github/jonloucks/gradle/kit/Internal.java:58 | %02x prints a signed byte as its value modulo 256, in 0..255 |
| Internal.WriteDigestBytes | src/main/java/io/github/jonloucks/gradle/kit/Internal.java:55-59 | the loop over the digest array builds exactly Hex of the digest |
| Internal.HexLength | src/main/java/io/github/jonloucks/gradle/kit/Internal.java:56-59 | the hex rendering has two characters per digest byte |
| Internal.HexAt | src/main/java/io/github/jonloucks/gradle/kit/Internal.java:56-59 | byte k appears at positions 2k and 2k+1, as two lowercase hex digits, in byte order |
| Internal.HexRoundTrip | src/main/java/io/github/jonloucks/gradle/kit/Internal.java:55-59 | the hex rendering identifies the digest: parsing it back gives the digest bytes |
| Internal.CreateChecksumsNull | src/main/java/io/github/jonloucks/gradle/kit/Internal.java:29-31 | a null file fails with IllegalArgument "File must be present." before any digest or write |
| Internal.CreateChecksumsOutcome | src/main/java/io/github/jonloucks/gradle/kit/Internal.java:29-53 | a run succeeds iff both digests are read and both files written; it writes <path>.md5 then <path>.sha1 with their hex; any failure is "Unable to generate checksums." after at most the MD5 file |
| Internal.CreateChecksumsUnreadable | src/main/java/io/github/jonloucks/gradle/kit/Internal.java:47-53 | a file that cannot be read yields "Unable to generate checksums." and writes nothing |
| Text.JavaSplitJoin | src/main/java/io/github/jonloucks/gradle/kit/JavaVersioningApplier.java:84 | String.split on one character: no separator gives the whole text; otherwise no field holds the separator, the last field is non-empty, and joining the fields gives the text less its trailing separators |
| Text.FieldsJoin | src/main/java/io/github/jonloucks/gradle/kit/JavaVersioningApplier.java:84 | the fields between separators join back to the text, and none holds the separator |
| Text.TrimEmptyIffAllBlank | src/main/java/io/github/jonloucks/gradle/kit/Configs.java:84 | trimming gives empty text exactly when every character is at or below U+0020 |
| Variants.RequireWithoutValue | src/main/java/io/github/jonloucks/gradle/kit/ProjectApplier.java:64-66 | requireConfig on a descriptor no source sets and with no link succeeds exactly when it has a fallback, with that value; otherwise it fails with a MissingConfig error (its message text is a stand-in) |
| Variants.RequireAgreedValue | src/main/java/io/github/jonloucks/gradle/kit/ProjectApplier.java:64-66 | requireConfig on a value every source agrees on gives the parsed value, or fails with the parser's own exception |
| Variants.TrimAndSkipEmptyIgnoresBlanks | src/main/java/io/github/jonloucks/gradle/kit/Configs.java:84 | ofTrimAndSkipEmpty: all-blank text is no value; other text reaches the parser trimmed, with non-blank ends; blanks around a value never change the verdict |
| Variants.ReferenceConforms | src/test/java/io/github/jonloucks/gradle/kit/ConfigsTests.java:73-82 | the reference resolver (keys, sources, link, fallback; empty is absent) has every behaviour the tests require |
| Variants.ScanKeysAgreed | src/test/java/io/github/jonloucks/gradle/kit/ConfigsTests.java:73-82 | when every held key holds the same text, scanning keys and sources yields the parser's verdict on it |
| Configs.SecretKeyOfEncoded | src/main/java/io/github/jonloucks/gradle/kit/Configs.java:140-141 | parseSecretKey unwraps base64Encode(s) to s for every s |
| Configs.SecretKeyRejects | src/main/java/io/github/jonloucks/gradle/kit/Configs.java:140-144 | text with no leading '-' and a non-Base64 character fails with Gradle "Invalid gpg secret key." |
| Configs.EncodedShape | src/main/java/io/github/jonloucks/gradle/kit/Internal.java:21-23 | an encoded key is empty only for the empty key, starts with an alphabet character (never '-') and has no blank end |
| Configs.TableLinksPointBackward | src/main/java/io/github/jonloucks/gradle/kit/Configs.java:18-121 | descriptor names are unique and every link names a descriptor declared earlier, so the links are acyclic |
| Configs.TestTargetVersionChain | src/main/java/io/github/jonloucks/gradle/kit/Configs.java:31-53 | example: the declared link chain of the test target version, ending at the source version's fallback 9 |
| Configs.DeclaredFallbacks | src/main/java/io/github/jonloucks/gradle/kit/Configs.java:18-104 | example: the declared fallbacks are log false, compiler 17, source 9, include tags empty, exclude tags unstable/slow/integration/functional, workflow "unknown" |
| Configs.VersionOf21 | src/main/java/io/github/jonloucks/gradle/kit/Configs.java:129-131 | example: ofJavaLanguageVersion reads "21" as version 21 |
| Configs.WithGetConfigNull | src/test/java/io/github/jonloucks/gradle/kit/ConfigsTests.java:73-82 | the test helper with a null input holds none of the descriptor's keys |
| Configs.WithGetConfigValue | src/test/java/io/github/jonloucks/gradle/kit/ConfigsTests.java:73-82 | the test helper with an input holds it under every key of the descriptor |
| Configs.TestTargetVersionWithoutValue | src/test/java/io/github/jonloucks/gradle/kit/ConfigsTests.java:27-31 | with no value, every conforming resolver finds the test target version present, as 9 |
| Configs.TestTargetVersionOf21 | src/test/java/io/github/jonloucks/gradle/kit/ConfigsTests.java:34-39 | with "21" under every key, the test target version is 21 |
| Configs.SecretKeyEmptyIsAbsent | src/test/java/io/github/jonloucks/gradle/kit/ConfigsTests.java:42-46 | an empty secret key resolves to absent |
| Configs.SecretKeyEncodedResolves | src/test/java/io/github/jonloucks/gradle/kit/ConfigsTests.java:49-54 | a Base64-wrapped secret key resolves to the unwrapped key (absent only for the empty key) |
| Configs.SecretKeyArmoredResolves | src/test/java/io/github/jonloucks/gradle/kit/ConfigsTests.java:57-62 | a secret key whose trimmed text starts with '-' resolves to that trimmed text, so a key ending in a newline loses the newline |
| Configs.SecretKeyMalformedFails | src/test/java/io/github/jonloucks/gradle/kit/ConfigsTests.java:65-71 | a secret key whose trimmed text has no leading '-' and a character outside the Base64 alphabet is an Invalid result with "Invalid gpg secret key.", never absent, whatever blanks surround it |
| Configs.HelloWorldIsMalformed | src/test/java/io/github/jonloucks/gradle/kit/ConfigsTests.java:65-71 | example: the test's "Hello World!" meets the requires of SecretKeyMalformedFails (it is its own trim, has no leading '-', and has a space inside) |
| ConfigBuilder.ConfigImpl.constructor | src/main/java/io/github/jonloucks/gradle/kit/ConfigImpl.java:88-97 | a new builder holds only its parser: its descriptor has no name, description, fallback, keys or link |
| ConfigBuilder.ConfigImpl.Name | src/main/java/io/github/jonloucks/gradle/kit/ConfigImpl.java:16-19 | sets the name; the descriptor changes in its name only; returns the same builder |
| ConfigBuilder.ConfigImpl.Description | src/main/java/io/github/jonloucks/gradle/kit/ConfigImpl.java:22-25 | sets the description; the descriptor changes in its description only; returns the same builder |
| ConfigBuilder.ConfigImpl.Fallback | src/main/java/io/github/jonloucks/gradle/kit/ConfigImpl.java:28-31 | sets the fallback supplier; the descriptor changes in its fallback only, to the supplier's value; returns the same builder |
| ConfigBuilder.ConfigImpl.Keys | src/main/java/io/github/jonloucks/gradle/kit/ConfigImpl.java:34-42 | appends the keys in argument order; the first key becomes the name only when none is set; zero keys change nothing; the descriptor changes in keys and name only; keeps "a builder with keys has a name" |
| ConfigBuilder.ConfigImpl.FallbackTo | src/main/java/io/github/jonloucks/gradle/kit/ConfigImpl.java:45-48 | sets the link; the descriptor changes in its link only, to the linked builder's descriptor; returns the same builder |
| ConfigBuilder.FallbackResolves | src/main/java/io/github/jonloucks/gradle/kit/ConfigImpl.java:60-66 | getFallback is the builder's static fallback: with no value anywhere and no link, every conforming resolver yields the supplier's value, and nothing without a supplier or when it gives null |
| ConfigBuilder.OfResolves | src/main/java/io/github/jonloucks/gradle/kit/ConfigImpl.java:78-81 | of is the builder's parser: an agreed value it accepts is what every conforming resolver yields; one it maps to null leaves an unlinked builder without fallback absent |
| ConfigBuilder.ToStringNamesDescriptor | src/main/java/io/github/jonloucks/gradle/kit/ConfigImpl.java:83-86 | toString is the name, or "***" without one; a builder with keys shows its name, never "***" unless so named; in the stand-in MissingConfig message it comes first |
| ConfigBuilder.ExplicitNameKept | src/main/java/io/github/jonloucks/gradle/kit/ConfigImpl.java:16-42 | a name set before keys(...) is never overwritten by the first key |
| ConfigBuilder.FirstKeyNames | src/main/java/io/github/jonloucks/gradle/kit/ConfigImpl.java:34-42 | two keys(...) calls concatenate the keys, and the first key of the first non-empty call names the builder |
| ConfigBuilder.NoKeysNoChange | src/main/java/io/github/jonloucks/gradle/kit/ConfigImpl.java:35 | keys() with no arguments leaves the keys and the name as they were |
| ProjectApplying.ProjectApplier.constructor | src/main/java/io/github/jonloucks/gradle/kit/ProjectApplier.java:15-17 | the applier keeps its project and uses its class name as the marker key |
| ProjectApplying.ProjectApplier.ApplyOnce | src/main/java/io/github/jonloucks/gradle/kit/ProjectApplier.java:28-43 | the extra properties and the work done after the call, and what it throws, are those `ProjectApplying.ApplyOnceOutcome` gives |
| ProjectApplying.Run | src/main/java/io/github/jonloucks/gradle/kit/ProjectApplier.java:37 | running a block performs its actions in order until one throws, as `ProjectApplying.RunOutcome` defines it |
| ProjectApplying.RunAction | src/main/java/io/github/jonloucks/gradle/kit/ProjectApplier.java:37 | one action of a block: work, or a nested applyOnce by another applier on the same project |
| ProjectApplying.SuccessThenSkip | src/main/java/io/github/jonloucks/gradle/kit/ProjectApplier.java:28-43 | after a call that did not throw, the marker is TRUE and every later call is skipped with nothing changed |
| ProjectApplying.ExceptionAllowsRetry | src/main/java/io/github/jonloucks/gradle/kit/ProjectApplier.java:36-41 | an exception becomes the marker and is rethrown, so the next call marks TRUE and runs its block again |
| ProjectApplying.ErrorKeepsMarker | src/main/java/io/github/jonloucks/gradle/kit/ProjectApplier.java:36-41 | a thrown Error is not caught: it propagates and the marker stays TRUE, so later calls are skipped |
| ProjectApplying.ReentrantCallSkipped | src/main/java/io/github/jonloucks/gradle/kit/ProjectApplier.java:35-37 | the marker is set before the block runs, so the block's own applyOnce for the same applier does nothing |
| ProjectApplying.RunKeepsApplied | src/main/java/io/github/jonloucks/gradle/kit/ProjectApplier.java:31-37 | no block clears a TRUE marker |
| ProjectApplying.ActionKeepsApplied | src/main/java/io/github/jonloucks/gradle/kit/ProjectApplier.java:31-37 | no single action clears a TRUE marker |
| ProjectApplying.ApplyOnceKeepsOthers | src/main/java/io/github/jonloucks/gradle/kit/ProjectApplier.java:17-35 | applying one applier class never changes the marker of another class its block does not call |
| ProjectApplying.RunKeepsOthers | src/main/java/io/github/jonloucks/gradle/kit/ProjectApplier.java:17-35 | a block leaves the markers of the applier classes it does not call alone |
| ProjectApplying.ActionKeepsOthers | src/main/java/io/github/jonloucks/gradle/kit/ProjectApplier.java:17-35 | an action leaves the markers of the applier classes it does not call alone |
| ProjectApplying.TwiceRunsOnce | src/test/java/io/github/jonloucks/gradle/kit/ProjectApplierTests.java:55-68 | applying twice on a fresh project does the block's work exactly once |
| ProjectApplying.ThrowingRetries | src/test/java/io/github/jonloucks/gradle/kit/ProjectApplierTests.java:71-84 | a block that throws an exception throws it on the first and on the second call |
| ProjectApplying.TestProjectNames | src/main/java/io/github/jonloucks/gradle/kit/ProjectApplier.java:57-59 | a project is a test project iff its name ends with "-test" or "-tests" |
| ProjectApplying.TestProjectExamples | src/test/java/io/github/jonloucks/gradle/kit/ProjectApplierTests.java:25-52 | example: the tests' names "-test" and "-tests" are test projects; "-api" and "-impl" are not |
| ProjectApplying.ExtraPropertyIsFound | src/test/java/io/github/jonloucks/gradle/kit/ProjectApplierTests.java:87-106 | an extra property set under a key no other source holds is what every conforming resolver finds, through the four sources in code order (ProjectApplier.java:18-23) and the project property source (83-85) |
| ProjectApplying.LogDisabledByDefault | src/main/java/io/github/jonloucks/gradle/kit/ProjectApplier.java:75-77 | with no log flag in any source, logging is off |
| ProjectApplying.LogFlagFollowsValue | src/main/java/io/github/jonloucks/gradle/kit/ProjectApplier.java:74-76 | with the log flag set to one value, isLogEnabled never fails, and logging is on exactly when the text is "true" in any mix of cases |
| Uploading.Authorization | src/main/java/io/github/jonloucks/gradle/kit/UploadBundleImpl.java:28-40 | the header value starts with "Bearer " |
| Uploading.NullArgumentFailsFirst | src/main/java/io/github/jonloucks/gradle/kit/UploadBundleImpl.java:17-21 | a null environment, bundle name or bundle file fails with its own IllegalArgument message, checked in that order, before the upload starts, whatever the configuration, files and server |
| Uploading.AcceptedBundleUploads | src/main/java/io/github/jonloucks/gradle/kit/UploadBundleImpl.java:17-46 | a bundle the constructor accepts fails first on a missing file, and a completed upload sends that bundle name and file with the url and credentials found in its environment |
| Uploading.AuthorizationDecodes | src/main/java/io/github/jonloucks/gradle/kit/UploadBundleImpl.java:28-40 | removing "Bearer " and Base64-decoding the header gives username:password back |
| Uploading.MissingFileFailsFirst | src/main/java/io/github/jonloucks/gradle/kit/UploadBundleImpl.java:57-61 | a missing bundle file fails with "Bundle file not found at: <path>." whatever the configuration and the server |
| Uploading.UploadRequest | src/main/java/io/github/jonloucks/gradle/kit/UploadBundleImpl.java:23-46 | a completed upload found the file, url, username and password and a well-formed url; its request carries them with the Bearer header; it was a dry run iff the username is "dry-run" |
| Uploading.MissingUsernameFails | src/main/java/io/github/jonloucks/gradle/kit/UploadBundleImpl.java:25-27 | a missing username fails with "Author username must be present.", whether or not the password is present |
| Uploading.MissingPasswordFails | src/main/java/io/github/jonloucks/gradle/kit/UploadBundleImpl.java:71-73 | with a username present, a missing password fails with "Author password must be present." |
| Uploading.DryRunSendsNothing | src/main/java/io/github/jonloucks/gradle/kit/UploadBundleImpl.java:44-46 | a "dry-run" user passes every check and succeeds without sending, whatever the server would have done |
| Uploading.SendOutcome | src/main/java/io/github/jonloucks/gradle/kit/UploadBundleImpl.java:48-54 | any other user succeeds iff the server accepts; a refusal is "Failure response: <response>." and an IO failure "Unable connect to <url>." |
| Uploading.OnlyPasswordSet | src/test/java/io/github/jonloucks/gradle/kit/InternalTests.java:96-106 | with only the password configured, the upload fails on the username |
| Uploading.OnlyUsernameSet | src/test/java/io/github/jonloucks/gradle/kit/InternalTests.java:108-116 | with only the username configured, the upload fails on the password |
| Uploading.DryRunCredentials | src/test/java/io/github/jonloucks/gradle/kit/InternalTests.java:118-127 | with both credentials "dry-run", the upload completes as a dry run to the default publisher url |
| Signing.AbsentKeyIsNull | src/main/java/io/github/jonloucks/gradle/kit/SigningPlugin.java:57-69 | no configured key gives no key and no error |
| Signing.AgreesWithParseSecretKey | src/main/java/io/github/jonloucks/gradle/kit/SigningPlugin.java:57-70 | on a present key the older rule accepts what parseSecretKey accepts, with the same result; its error is "Invalid gpg secret key: " followed by the key |
| Signing.EncodedKeyUnwrapped | src/main/java/io/github/jonloucks/gradle/kit/SigningPlugin.java:63-64 | a Base64-wrapped key is unwrapped; an empty key stays an empty key |
| Signing.SigningNeedsBoth | src/main/java/io/github/jonloucks/gradle/kit/SigningPlugin.java:41-50 | in-memory keys are configured exactly when the key and the password are both present, with the decoded key; a bad key is the only error |
| JavaVersioning.PropertyTagsCases | src/main/java/io/github/jonloucks/gradle/kit/JavaVersioningApplier.java:80-133 | absent gives the defaults, null gives no tags, and a value gives comma-free tags that join back to it less its trailing commas |
| JavaVersioning.TestTaggingRulesShape | src/main/java/io/github/jonloucks/gradle/kit/JavaVersioningApplier.java:90-126 | for all properties: the rules fail exactly without a "test" source set, with IllegalState "No test source set found"; otherwise the test task includes the "includeTags" tags and the integration and functional tasks, in group verification and run after test, include only their own tag |
| JavaVersioning.TrailingEmptyTagsDropped | src/main/java/io/github/jonloucks/gradle/kit/JavaVersioningApplier.java:84 | example: "a,b,," splits into a and b |
| JavaVersioning.DefaultTagRules | src/main/java/io/github/jonloucks/gradle/kit/JavaVersioningApplier.java:90-97 | example: with no properties, test excludes the four tags; integrationTest excludes unstable, slow, functional; functionalTest excludes unstable, slow, integration |
| JavaVersioning.ExcludeTagsOverrideAll | src/main/java/io/github/jonloucks/gradle/kit/JavaVersioningApplier.java:99-142 | an "excludeTags" property replaces the excludes of all three tasks |
| JavaVersioning.DefaultVersions | src/main/java/io/github/jonloucks/gradle/kit/JavaVersioningApplier.java:68-78 | with no version configured, source and target are 9 and the compiler is 17 |
| JavaVersioning.CompileOptions.ConfigureJavaCompile | src/main/java/io/github/jonloucks/gradle/kit/JavaVersioningApplier.java:50-55 | release becomes the target version and "-Xlint:all" is appended after the existing arguments, in order; without a target version nothing changes and the error is thrown |
| JavaVersioning.ConfigureAllJavaCompiles | src/main/java/io/github/jonloucks/gradle/kit/JavaVersioningApplier.java:42-48 | with a target version every compile task gets that release and the appended lint argument; without one the first task's lookup throws and no task changes; over no tasks nothing is looked up or thrown |
| JavaVersioning.JavaPluginExtension.ConfigureJavaPlugin | src/main/java/io/github/jonloucks/gradle/kit/JavaVersioningApplier.java:57-65 | module path inference is on; source, target and toolchain are set to the source, target and compiler versions in that order, stopping at the first missing one; jars are added only after all three |
| JavaVersioning.ConfigureDefaultVersions | src/main/java/io/github/jonloucks/gradle/kit/JavaVersioningApplier.java:37-78 | on a project with no versions configured, the plugin gets source 9, target 9, toolchain 17, and a compile task gets release 9 plus the lint argument |

## Left out

- Rows whose third column starts with "example" record a fixed fact of the descriptor table or one test input; they are not general properties.
- ConfigBuilder.ConfigImpl.FallbackTo: requires that the linked builder not lead back to this one. The source accepts such a cycle; the model excludes it so that every builder stands for a finite descriptor.
- ConfigBuilder.ParserOf: a parser that throws is not modelled; a builder's parser gives a value or null.

- Variants.Require: the text of the MissingConfig message ("<name>" or "<name> : <description>", with "***" for no name) is a stand-in. The library's own message is not part of this model and is not checked by any test, so no lemma depends on that text being the library's.
- Variants.Conforms: it does not say which of the link and the static fallback wins when a descriptor has both, and it says nothing about sources that hold different values for one descriptor. The library that decides this is not part of this model. As a consequence, nothing is stated about the integration and functional exclude-tag descriptors with an unset "excludeTags".
- The library's parsers (`ofString`, `ofBoolean`, `ofTrimAndSkipEmpty`, `ofList`) are not part of this model. They are written as the identity, `Boolean.parseBoolean`, `String.trim` plus "blank is no value", and `String.split`.
- Configs.JavaLanguageVersionOf: reads only plain positive major versions such as "21". Forms like "1.8" and the exception message of `JavaLanguageVersion.of` are not modelled; the rejected text stands in for the message.
- Configs.ParseSecretKey: the null check of `textCheck` is not modelled. Under `ofTrimAndSkipEmpty` the key is never null or blank.
- Uploading.Upload: the HTTP client's URL check is an input, and its exception carries the url as its message. The "accept" header, the multipart media type and the response body are not modelled.
- The network call, the file system and the clocks are inputs or left out. That covers the existence of the bundle file, the HTTP outcome, digest reading and checksum writing.
- MD5 and SHA-1 digests are computed by `MessageDigest`, which is not part of this model. The digest of a file is an input.
- UTF-8 decoding of the decoded Base64 bytes is not modelled (text is bytes throughout), so Java's replacement of malformed sequences is left out.
- Logging (`log`, `System.out`) has no behaviour the model could state, and is left out. So are `isRootProject`, `getProject` and `getEnvironment`, which are Gradle object plumbing.
- ConfigImpl's null arguments are left out; setters take values. The plain getters `getName`, `getDescription`, `getKeys` and `getLink` are the fields themselves.
- Gradle wiring is left out: `afterEvaluate`, `configureEach`, task registration and `check` dependencies, the test classes directories and classpath, and applying the signing plugin. Only the values these receive are modelled.
- The tagged test tasks' missing test source set is reported when the rules are built. In Gradle it surfaces when Gradle configures that test task.
- Reflection checks that the utility classes cannot be instantiated have no counterpart here.
