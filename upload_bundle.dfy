/**
 * `UploadBundleImpl.java`: publishing a bundle to the OSSRH publisher. The
 * constructor checks its arguments; `upload` checks the file, looks up the
 * url and the credentials, builds the request, and sends it unless the user
 * name is "dry-run".
 *
 * The HTTP exchange is an input: what the server did, or that it could not
 * be reached. So are the file system (does the bundle file exist) and the
 * URL syntax check of the HTTP client.
 */
module Uploading {
  import opened Wrappers
  import opened Text
  import opened Exceptions
  import opened Variants
  import Configs
  import Internal
  import Base64

  /** An environment: its sources, highest rank first. */
  datatype Environment = Environment(sources: seq<Source>)

  datatype UploadBundle = UploadBundle(environment: Environment, bundleName: Text, bundleFile: Internal.File)

  /** The multipart POST the upload builds. */
  datatype Request = Request(url: Text, authorization: Text, bundleName: Text, bundleFile: Internal.File)

  /** What the server did with the request. */
  datatype HttpOutcome = Successful | Unsuccessful(response: Text) | Unreachable

  /** A completed upload: a dry run that sent nothing, or a request the server accepted. */
  datatype Delivery = DryRun(request: Request) | Delivered(request: Request)

  /** The constructor: each argument must be present, checked in order. */
  function NewUploadBundle(environment: Option<Environment>, bundleName: Option<Text>, bundleFile: Option<Internal.File>):
    (r: Result<UploadBundle, Exception>)
    ensures r.Success? <==> environment.Some? && bundleName.Some? && bundleFile.Some?
    ensures r.Success? ==> r.value == UploadBundle(environment.value, bundleName.value, bundleFile.value)
    ensures environment.None? ==> r == Failure(Thrown(IllegalArgument, "Environment must be present."))
    ensures environment.Some? && bundleName.None? ==> r == Failure(Thrown(IllegalArgument, "Bundle name must be present."))
    ensures environment.Some? && bundleName.Some? && bundleFile.None? ==>
      r == Failure(Thrown(IllegalArgument, "Bundle file must be present."))
  {
    if environment.None? then Failure(Thrown(IllegalArgument, "Environment must be present."))
    else if bundleName.None? then Failure(Thrown(IllegalArgument, "Bundle name must be present."))
    else if bundleFile.None? then Failure(Thrown(IllegalArgument, "Bundle file must be present."))
    else Success(UploadBundle(environment.value, bundleName.value, bundleFile.value))
  }

  /** `requireNonEmpty`: the value when one is found, else a Gradle error with the given message. */
  function RequireNonEmpty(found: Found<Text>, message: string): (r: Result<Text, Exception>)
    ensures r.Success? <==> found.Present?
    ensures found.Present? ==> r.value == found.value
    ensures found.Absent? ==> r == Failure(Thrown(Gradle, message))
    ensures found.Invalid? ==> r == Failure(found.error)
  {
    match found
    case Present(v) => Success(v)
    case Absent => Failure(Thrown(Gradle, message))
    case Invalid(e) => Failure(e)
  }

  function Lookup(resolve: Resolver<Text>, b: UploadBundle, d: Descriptor<Text>, message: string): Result<Text, Exception> {
    RequireNonEmpty(resolve(d, b.environment.sources), message)
  }

  /** The "Authorization" header: "Bearer " and the Base64 of "<username>:<password>". */
  function Authorization(username: Text, password: Text): (r: Text)
    ensures |r| >= 7 && r[..7] == Ascii("Bearer ")
  {
    Ascii("Bearer ") + Internal.Base64Encode(username + Ascii(":") + password)
  }

  const DryRunUser: Text := Ascii("dry-run")

  function MissingFile(f: Internal.File): Exception {
    Exception(Gradle, Ascii("Bundle file not found at: ") + f.absolutePath + Ascii("."))
  }

  /**
   * `upload()`. The checks run in this order: the bundle file exists, the url,
   * the user name and the password are found, and the url is well formed.
   * Then a "dry-run" user stops, and any other user sends the request.
   */
  function Upload(b: UploadBundle, resolve: Resolver<Text>, fileExists: bool, isValidUrl: Text -> bool, http: HttpOutcome):
    Result<Delivery, Exception>
  {
    if !fileExists then Failure(MissingFile(b.bundleFile))
    else
      var url :- Lookup(resolve, b, Configs.KitOssrhUrl, "Publisher url must be present.");
      var username :- Lookup(resolve, b, Configs.KitOssrhUsername, "Author username must be present.");
      var password :- Lookup(resolve, b, Configs.KitOssrhPassword, "Author password must be present.");
      var request := Request(url, Authorization(username, password), b.bundleName, b.bundleFile);
      if !isValidUrl(url) then Failure(Exception(IllegalArgument, url))
      else if username == DryRunUser then Success(DryRun(request))
      else
        match http
        case Successful => Success(Delivered(request))
        case Unsuccessful(response) => Failure(Exception(Gradle, Ascii("Failure response: ") + response + Ascii(".")))
        case Unreachable => Failure(Exception(Gradle, Ascii("Unable connect to ") + url + Ascii(".")))
  }

  /** `Internal.uploadBundle`: construct, then upload. */
  function UploadBundleWith(
    environment: Option<Environment>, bundleName: Option<Text>, bundleFile: Option<Internal.File>,
    resolve: Resolver<Text>, fileExists: bool, isValidUrl: Text -> bool, http: HttpOutcome): Result<Delivery, Exception>
  {
    var b :- NewUploadBundle(environment, bundleName, bundleFile);
    Upload(b, resolve, fileExists, isValidUrl, http)
  }

  // ---------------------------------------------------------------------------
  // What upload promises, for every resolver

  /** A missing bundle file fails before any configuration is looked up or anything is sent. */
  lemma MissingFileFailsFirst(b: UploadBundle, resolve: Resolver<Text>, isValidUrl: Text -> bool, http: HttpOutcome)
    ensures Upload(b, resolve, false, isValidUrl, http) == Failure(MissingFile(b.bundleFile))
  {
  }

  /** The header carries exactly the credentials: stripping "Bearer " and decoding gives `username:password`. */
  lemma AuthorizationDecodes(username: Text, password: Text)
    ensures Internal.Base64Decode(Authorization(username, password)[7..]) == Some(username + Ascii(":") + password)
  {
    var r := Authorization(username, password);
    assert r[7..] == Internal.Base64Encode(username + Ascii(":") + password);
    Base64.DecodeEncode(username + Ascii(":") + password);
  }

  /** Every completed upload sent (or would have sent) the header built from the found credentials, to the found url. */
  lemma UploadRequest(b: UploadBundle, resolve: Resolver<Text>, fileExists: bool, isValidUrl: Text -> bool, http: HttpOutcome)
    requires Upload(b, resolve, fileExists, isValidUrl, http).Success?
    ensures var sources := b.environment.sources;
      var url := resolve(Configs.KitOssrhUrl, sources);
      var username := resolve(Configs.KitOssrhUsername, sources);
      var password := resolve(Configs.KitOssrhPassword, sources);
      && fileExists && url.Present? && username.Present? && password.Present? && isValidUrl(url.value)
      && Upload(b, resolve, fileExists, isValidUrl, http).value.request ==
         Request(url.value, Authorization(username.value, password.value), b.bundleName, b.bundleFile)
      && (Upload(b, resolve, fileExists, isValidUrl, http).value.DryRun? <==> username.value == DryRunUser)
  {
  }

  /** The user name is looked up before the password, so a missing user name wins even if the password is missing too. */
  lemma MissingUsernameFails(b: UploadBundle, resolve: Resolver<Text>, isValidUrl: Text -> bool, http: HttpOutcome)
    requires Conforms(resolve)
    requires resolve(Configs.KitOssrhUrl, b.environment.sources).Present?
    requires NoneHeld(Configs.KitOssrhUsername, b.environment.sources)
    ensures Upload(b, resolve, true, isValidUrl, http) == Failure(Thrown(Gradle, "Author username must be present."))
  {
    assert ConformsAt(resolve, Configs.KitOssrhUsername, b.environment.sources);
  }

  /** With a user name found, a missing password fails. */
  lemma MissingPasswordFails(b: UploadBundle, resolve: Resolver<Text>, isValidUrl: Text -> bool, http: HttpOutcome)
    requires Conforms(resolve)
    requires resolve(Configs.KitOssrhUrl, b.environment.sources).Present?
    requires resolve(Configs.KitOssrhUsername, b.environment.sources).Present?
    requires NoneHeld(Configs.KitOssrhPassword, b.environment.sources)
    ensures Upload(b, resolve, true, isValidUrl, http) == Failure(Thrown(Gradle, "Author password must be present."))
  {
    assert ConformsAt(resolve, Configs.KitOssrhPassword, b.environment.sources);
  }

  /** A "dry-run" user completes every check and sends nothing, whatever the server would have done. */
  lemma DryRunSendsNothing(b: UploadBundle, resolve: Resolver<Text>, isValidUrl: Text -> bool, http: HttpOutcome, password: Text)
    requires Conforms(resolve)
    requires var url := resolve(Configs.KitOssrhUrl, b.environment.sources); url.Present? && isValidUrl(url.value)
    requires resolve(Configs.KitOssrhUsername, b.environment.sources) == Present(DryRunUser)
    requires resolve(Configs.KitOssrhPassword, b.environment.sources) == Present(password)
    ensures Upload(b, resolve, true, isValidUrl, http) ==
      Success(DryRun(Request(resolve(Configs.KitOssrhUrl, b.environment.sources).value,
        Authorization(DryRunUser, password), b.bundleName, b.bundleFile)))
  {
  }

  /** A real user's upload fails exactly when the server refuses it or cannot be reached, with the matching message. */
  lemma SendOutcome(b: UploadBundle, resolve: Resolver<Text>, isValidUrl: Text -> bool, http: HttpOutcome, url: Text, username: Text, password: Text)
    requires resolve(Configs.KitOssrhUrl, b.environment.sources) == Present(url) && isValidUrl(url)
    requires resolve(Configs.KitOssrhUsername, b.environment.sources) == Present(username) && username != DryRunUser
    requires resolve(Configs.KitOssrhPassword, b.environment.sources) == Present(password)
    ensures var r := Upload(b, resolve, true, isValidUrl, http);
      && (http.Successful? ==> r == Success(Delivered(Request(url, Authorization(username, password), b.bundleName, b.bundleFile))))
      && (http.Unsuccessful? ==> r == Failure(Exception(Gradle, Ascii("Failure response: ") + http.response + Ascii("."))))
      && (http.Unreachable? ==> r == Failure(Exception(Gradle, Ascii("Unable connect to ") + url + Ascii("."))))
  {
  }

  /** A null constructor argument fails before the upload starts, whatever the configuration, the file system and the server. */
  lemma NullArgumentFailsFirst(
    environment: Option<Environment>, bundleName: Option<Text>, bundleFile: Option<Internal.File>,
    resolve: Resolver<Text>, fileExists: bool, isValidUrl: Text -> bool, http: HttpOutcome)
    ensures var r := UploadBundleWith(environment, bundleName, bundleFile, resolve, fileExists, isValidUrl, http);
      && (environment.None? ==> r == Failure(Thrown(IllegalArgument, "Environment must be present.")))
      && (environment.Some? && bundleName.None? ==> r == Failure(Thrown(IllegalArgument, "Bundle name must be present.")))
      && (environment.Some? && bundleName.Some? && bundleFile.None? ==>
        r == Failure(Thrown(IllegalArgument, "Bundle file must be present.")))
  {
  }

  /**
   * A bundle the constructor accepts uploads the name and the file it was
   * given: a missing file is the first failure, and a completed upload
   * carries that name and file with the url and the credentials found in the
   * given environment.
   */
  lemma AcceptedBundleUploads(
    environment: Environment, bundleName: Text, bundleFile: Internal.File,
    resolve: Resolver<Text>, fileExists: bool, isValidUrl: Text -> bool, http: HttpOutcome)
    ensures var r := UploadBundleWith(Some(environment), Some(bundleName), Some(bundleFile),
        resolve, fileExists, isValidUrl, http);
      var url := resolve(Configs.KitOssrhUrl, environment.sources);
      var username := resolve(Configs.KitOssrhUsername, environment.sources);
      var password := resolve(Configs.KitOssrhPassword, environment.sources);
      && (!fileExists ==> r == Failure(MissingFile(bundleFile)))
      && (r.Success? ==>
        && fileExists && url.Present? && username.Present? && password.Present?
        && r.value.request == Request(url.value, Authorization(username.value, password.value), bundleName, bundleFile))
  {
    var b := UploadBundle(environment, bundleName, bundleFile);
    assert UploadBundleWith(Some(environment), Some(bundleName), Some(bundleFile), resolve, fileExists, isValidUrl, http) ==
      Upload(b, resolve, fileExists, isValidUrl, http);
    if !fileExists {
      MissingFileFailsFirst(b, resolve, isValidUrl, http);
    }
    if Upload(b, resolve, fileExists, isValidUrl, http).Success? {
      UploadRequest(b, resolve, fileExists, isValidUrl, http);
    }
  }

  // ---------------------------------------------------------------------------
  // The scenarios of the tests, with a single map source

  function MapSource(entries: map<string, Text>): Environment {
    Environment([entries])
  }

  /** Only "kit.ossrh.password" is set: the user name is reported missing. */
  lemma OnlyPasswordSet(resolve: Resolver<Text>, name: Text, file: Internal.File, isValidUrl: Text -> bool, http: HttpOutcome)
    requires Conforms(resolve)
    ensures UploadBundleWith(Some(MapSource(map["kit.ossrh.password" := DryRunUser])), Some(name), Some(file),
      resolve, true, isValidUrl, http) == Failure(Thrown(Gradle, "Author username must be present."))
  {
    var b := UploadBundle(MapSource(map["kit.ossrh.password" := DryRunUser]), name, file);
    assert ConformsAt(resolve, Configs.KitOssrhUrl, b.environment.sources);
    MissingUsernameFails(b, resolve, isValidUrl, http);
  }

  /** Only "kit.ossrh.username" is set: the password is reported missing. */
  lemma OnlyUsernameSet(resolve: Resolver<Text>, name: Text, file: Internal.File, isValidUrl: Text -> bool, http: HttpOutcome)
    requires Conforms(resolve)
    ensures UploadBundleWith(Some(MapSource(map["kit.ossrh.username" := DryRunUser])), Some(name), Some(file),
      resolve, true, isValidUrl, http) == Failure(Thrown(Gradle, "Author password must be present."))
  {
    var b := UploadBundle(MapSource(map["kit.ossrh.username" := DryRunUser]), name, file);
    var sources := b.environment.sources;
    assert ConformsAt(resolve, Configs.KitOssrhUrl, sources);
    assert ConformsAt(resolve, Configs.KitOssrhUsername, sources);
    assert "kit.ossrh.username" in Configs.KitOssrhUsername.keys && "kit.ossrh.username" in sources[0];
    assert AllHeldAre(Configs.KitOssrhUsername, sources, DryRunUser);
    MissingPasswordFails(b, resolve, isValidUrl, http);
  }

  /** Both credentials are "dry-run": the upload succeeds without sending, with the default publisher url. */
  lemma DryRunCredentials(resolve: Resolver<Text>, name: Text, file: Internal.File, isValidUrl: Text -> bool, http: HttpOutcome)
    requires Conforms(resolve)
    requires isValidUrl(Configs.KitOssrhUrl.fallback.value)
    ensures UploadBundleWith(
      Some(MapSource(map["kit.ossrh.username" := DryRunUser, "kit.ossrh.password" := DryRunUser])), Some(name), Some(file),
      resolve, true, isValidUrl, http) ==
      Success(DryRun(Request(Configs.KitOssrhUrl.fallback.value, Authorization(DryRunUser, DryRunUser), name, file)))
  {
    var b := UploadBundle(MapSource(map["kit.ossrh.username" := DryRunUser, "kit.ossrh.password" := DryRunUser]), name, file);
    var sources := b.environment.sources;
    assert ConformsAt(resolve, Configs.KitOssrhUrl, sources);
    assert ConformsAt(resolve, Configs.KitOssrhUsername, sources);
    assert ConformsAt(resolve, Configs.KitOssrhPassword, sources);
    assert "kit.ossrh.username" in Configs.KitOssrhUsername.keys && "kit.ossrh.username" in sources[0];
    assert "kit.ossrh.password" in Configs.KitOssrhPassword.keys && "kit.ossrh.password" in sources[0];
    assert AllHeldAre(Configs.KitOssrhUsername, sources, DryRunUser);
    assert AllHeldAre(Configs.KitOssrhPassword, sources, DryRunUser);
    DryRunSendsNothing(b, resolve, isValidUrl, http, DryRunUser);
  }
}
