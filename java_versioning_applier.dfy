/**
 * `JavaVersioningApplier.java`: sets the Java versions of a project's
 * compilation and registers the tagged test tasks. Test tags come from the
 * project properties "includeTags" and "excludeTags".
 *
 * A project's properties are a map from name to value; a name that maps to
 * `None` is a property that exists with a null value.
 */
module JavaVersioning {
  import opened Wrappers
  import opened Text
  import opened Exceptions
  import opened Variants
  import Configs

  type Properties = map<string, Option<Text>>

  // ---------------------------------------------------------------------------
  // Tag properties

  /** `splitTagsProperty`: a present non-null value split on ","; otherwise no tags. */
  function SplitTagsProperty(properties: Properties, propertyName: string): (r: seq<Text>)
    ensures propertyName !in properties || properties[propertyName].None? ==> r == []
    ensures propertyName in properties && properties[propertyName].Some? ==>
      r == JavaSplit(properties[propertyName].value, Comma)
  {
    if propertyName in properties && properties[propertyName].Some? then JavaSplit(properties[propertyName].value, Comma)
    else []
  }

  /** `getPropertyTags`: the defaults when the property does not exist, else the property's tags. */
  function GetPropertyTags(properties: Properties, propertyName: string, defaults: seq<Text>): (r: seq<Text>)
    ensures propertyName !in properties ==> r == defaults
    ensures propertyName in properties ==> r == SplitTagsProperty(properties, propertyName)
  {
    if propertyName in properties then SplitTagsProperty(properties, propertyName) else defaults
  }

  /** An absent property gives the defaults, a null one no tags at all, and a value its comma-separated tags. */
  lemma PropertyTagsCases(properties: Properties, propertyName: string, defaults: seq<Text>)
    ensures propertyName !in properties ==> GetPropertyTags(properties, propertyName, defaults) == defaults
    ensures propertyName in properties && properties[propertyName].None? ==>
      GetPropertyTags(properties, propertyName, defaults) == []
    ensures propertyName in properties && properties[propertyName].Some? ==>
      var value := properties[propertyName].value;
      var tags := GetPropertyTags(properties, propertyName, defaults);
      (Comma !in value ==> tags == [value])
      && (Comma in value ==>
        (forall i :: 0 <= i < |tags| ==> Comma !in tags[i])
        && (tags == [] || tags[|tags| - 1] != [])
        && |Join(tags, Comma)| <= |value| && value[..|Join(tags, Comma)|] == Join(tags, Comma)
        && forall i :: |Join(tags, Comma)| <= i < |value| ==> value[i] == Comma)
  {
    if propertyName in properties && properties[propertyName].Some? {
      JavaSplitJoin(properties[propertyName].value, Comma);
    }
  }

  /** "a,b,," drops its trailing empty tags. */
  lemma TrailingEmptyTagsDropped()
    ensures JavaSplit(Ascii("a,b,,"), Comma) == [Ascii("a"), Ascii("b")]
  {
    var s := Ascii("a,b,,");
    assert s == [97, 44, 98, 44, 44];
    assert s[1..] == [44, 98, 44, 44];
    assert s[2..] == [98, 44, 44];
    assert s[3..] == [44, 44];
    assert s[4..] == [44];
    assert s[5..] == [];
    assert s[4..][1..] == s[5..] && s[3..][1..] == s[4..] && s[2..][1..] == s[3..] && s[1..][1..] == s[2..];
    assert Fields(s[4..], Comma) == [[], []];
    assert Fields(s[3..], Comma) == [[], [], []];
    assert s[2..][0] == 98 && s[2..][0] != Comma;
    assert [s[2..][0]] + [] == [98];
    assert Fields(s[2..], Comma) == [[98], [], []];
    assert Fields(s[1..], Comma) == [[], [98], [], []];
    assert s[0] == 97 && [s[0]] + [] == [97];
    assert Fields(s, Comma) == [[97], [98], [], []];
    assert Ascii("a") == [97] && Ascii("b") == [98];
    assert [[97 as byte], [98 as byte], [], []][..3] == [[97], [98], []];
    assert [[97 as byte], [98 as byte], []][..2] == [[97], [98]];
    assert DropTrailingEmpty([[97], [98]]) == [[97], [98]];
    assert Comma in s by {
      assert s[1] == Comma;
    }
  }

  // ---------------------------------------------------------------------------
  // Test tasks

  /** The JUnit platform options and the settings of a test task. */
  datatype TestTask = TestTask(
    name: string,
    description: Option<Text>,
    group: Option<string>,
    includeTags: seq<Text>,
    excludeTags: seq<Text>,
    shouldRunAfter: seq<string>)

  const DefaultExcludes: seq<Text> := [Ascii("unstable"), Ascii("slow"), Ascii("integration"), Ascii("functional")]

  /** `configureDefaultTestTask`: the "test" task's tags. */
  function DefaultTestTask(properties: Properties): (r: TestTask)
    ensures r.name == "test"
    ensures r.includeTags == GetPropertyTags(properties, "includeTags", [])
    ensures r.excludeTags == GetPropertyTags(properties, "excludeTags", DefaultExcludes)
  {
    TestTask("test", None, None,
      GetPropertyTags(properties, "includeTags", []),
      GetPropertyTags(properties, "excludeTags", DefaultExcludes), [])
  }

  /**
   * `registerTaggedTestTask(includeTag, excludeTags...)`: a task named
   * `<includeTag>Test` that runs only that tag; it needs the "test" source set.
   */
  function TaggedTestTask(properties: Properties, sourceSetNames: seq<string>, includeTag: string, excludeDefaults: seq<Text>):
    (r: Result<TestTask, Exception>)
    ensures r.Failure? <==> "test" !in sourceSetNames
    ensures r.Failure? ==> r.error == Thrown(IllegalState, "No test source set found")
    ensures r.Success? ==>
      && r.value.name == includeTag + "Test"
      && r.value.includeTags == [Ascii(includeTag)]
      && r.value.excludeTags == GetPropertyTags(properties, "excludeTags", excludeDefaults)
      && r.value.group == Some("verification")
  {
    if "test" !in sourceSetNames then Failure(Thrown(IllegalState, "No test source set found"))
    else
      Success(TestTask(includeTag + "Test", Some(Ascii("Runs tests with tag: " + includeTag)), Some("verification"),
        [Ascii(includeTag)], GetPropertyTags(properties, "excludeTags", excludeDefaults), ["test"]))
  }

  /** `configureTestTaggingRules`: the default task, then the integration and functional tasks. */
  function TestTaggingRules(properties: Properties, sourceSetNames: seq<string>): Result<seq<TestTask>, Exception> {
    var integration :- TaggedTestTask(properties, sourceSetNames, "integration",
      [Ascii("unstable"), Ascii("slow"), Ascii("functional")]);
    var functional := TaggedTestTask(properties, sourceSetNames, "functional",
      [Ascii("unstable"), Ascii("slow"), Ascii("integration")]);
    Success([DefaultTestTask(properties), integration, functional.value])
  }

  /**
   * For every set of project properties: the rules fail exactly when the
   * project has no "test" source set, with "No test source set found";
   * otherwise they give the "test" task, which includes the "includeTags"
   * tags, and two tasks in group verification that each run only their own
   * tag, after "test".
   */
  lemma TestTaggingRulesShape(properties: Properties, sourceSetNames: seq<string>)
    ensures var r := TestTaggingRules(properties, sourceSetNames);
      && (r.Failure? <==> "test" !in sourceSetNames)
      && (r.Failure? ==> r.error == Thrown(IllegalState, "No test source set found"))
      && (r.Success? ==>
        && |r.value| == 3
        && r.value[0].name == "test" && r.value[0].includeTags == GetPropertyTags(properties, "includeTags", [])
        && r.value[1].name == "integrationTest" && r.value[1].includeTags == [Ascii("integration")]
        && r.value[2].name == "functionalTest" && r.value[2].includeTags == [Ascii("functional")]
        && forall i :: 1 <= i < 3 ==> r.value[i].group == Some("verification") && r.value[i].shouldRunAfter == ["test"])
  {
  }

  /** Without tag properties: the default task excludes the four slow tags, and each tagged task excludes the others. */
  lemma DefaultTagRules(sourceSetNames: seq<string>)
    requires "test" in sourceSetNames
    ensures var r := TestTaggingRules(map[], sourceSetNames);
      && r.Success? && |r.value| == 3
      && r.value[0].name == "test" && r.value[0].includeTags == [] && r.value[0].excludeTags == DefaultExcludes
      && r.value[1].name == "integrationTest" && r.value[1].includeTags == [Ascii("integration")]
      && r.value[1].excludeTags == [Ascii("unstable"), Ascii("slow"), Ascii("functional")]
      && r.value[2].name == "functionalTest" && r.value[2].includeTags == [Ascii("functional")]
      && r.value[2].excludeTags == [Ascii("unstable"), Ascii("slow"), Ascii("integration")]
  {
  }

  /** The tagged tasks read the same "excludeTags" property as the default task: setting it replaces every task's excludes. */
  lemma ExcludeTagsOverrideAll(properties: Properties, sourceSetNames: seq<string>)
    requires "test" in sourceSetNames && "excludeTags" in properties
    ensures var r := TestTaggingRules(properties, sourceSetNames);
      r.Success? && forall i :: 0 <= i < |r.value| ==>
        r.value[i].excludeTags == SplitTagsProperty(properties, "excludeTags")
  {
  }

  // ---------------------------------------------------------------------------
  // Java versions

  /** `requireConfig(project, d)`: the version the environment resolves, or the error of not having one. */
  function RequiredVersion(resolve: Resolver<nat>, sources: seq<Source>, d: Descriptor<nat>): Result<nat, Exception> {
    Require(d, resolve(d, sources))
  }

  /** With no version configured anywhere, the source and target versions are 9 and the compiler is 17. */
  lemma DefaultVersions(resolve: Resolver<nat>, sources: seq<Source>)
    requires Conforms(resolve)
    requires NoneHeld(Configs.KitJavaSourceVersion, sources)
    requires NoneHeld(Configs.KitJavaTargetVersion, sources)
    requires NoneHeld(Configs.KitJavaCompilerVersion, sources)
    ensures RequiredVersion(resolve, sources, Configs.KitJavaSourceVersion) == Success(9)
    ensures RequiredVersion(resolve, sources, Configs.KitJavaTargetVersion) == Success(9)
    ensures RequiredVersion(resolve, sources, Configs.KitJavaCompilerVersion) == Success(17)
  {
    assert ConformsAt(resolve, Configs.KitJavaSourceVersion, sources);
    assert ConformsAt(resolve, Configs.KitJavaTargetVersion, sources);
    assert ConformsAt(resolve, Configs.KitJavaCompilerVersion, sources);
  }

  const Lint: string := "-Xlint:all"

  /** A compile task's options. */
  class CompileOptions {
    var release: Option<nat>
    var compilerArgs: seq<string>

    constructor (compilerArgs: seq<string>)
      ensures release == None && this.compilerArgs == compilerArgs
    {
      release := None;
      this.compilerArgs := compilerArgs;
    }

    /**
     * `configureJavaCompile`: release becomes the target version, and
     * "-Xlint:all" is appended after the existing arguments. Without a
     * target version nothing changes and the error is thrown.
     */
    method ConfigureJavaCompile(targetVersion: Result<nat, Exception>) returns (thrown: Option<Exception>)
      modifies this
      ensures targetVersion.Failure? ==>
        thrown == Some(targetVersion.error) && release == old(release) && compilerArgs == old(compilerArgs)
      ensures targetVersion.Success? ==>
        thrown == None && release == Some(targetVersion.value) && compilerArgs == old(compilerArgs) + [Lint]
    {
      if targetVersion.Failure? {
        return Some(targetVersion.error);
      }
      release := Some(targetVersion.value);
      var args := compilerArgs;
      args := args + [Lint];
      compilerArgs := args;
      thrown := None;
    }
  }

  /**
   * `configureAllJavaCompiles`: every compile task in turn, stopping at the
   * first error. With no compile task the action never runs, so a missing
   * target version is never looked up and nothing is thrown.
   */
  method ConfigureAllJavaCompiles(compiles: seq<CompileOptions>, targetVersion: Result<nat, Exception>)
    returns (thrown: Option<Exception>)
    requires forall i, j :: 0 <= i < j < |compiles| ==> compiles[i] != compiles[j]
    modifies set i | 0 <= i < |compiles| :: compiles[i]
    ensures targetVersion.Failure? && |compiles| > 0 ==> thrown == Some(targetVersion.error)
    ensures targetVersion.Success? || |compiles| == 0 ==> thrown == None
    ensures forall i :: 0 <= i < |compiles| ==>
      if targetVersion.Success? then
        compiles[i].release == Some(targetVersion.value) && compiles[i].compilerArgs == old(compiles[i].compilerArgs) + [Lint]
      else
        compiles[i].release == old(compiles[i].release) && compiles[i].compilerArgs == old(compiles[i].compilerArgs)
  {
    thrown := None;
    if targetVersion.Failure? {
      if |compiles| > 0 {
        thrown := compiles[0].ConfigureJavaCompile(targetVersion);
      }
      return;
    }
    for k := 0 to |compiles|
      invariant forall i :: 0 <= i < k ==>
        compiles[i].release == Some(targetVersion.value) && compiles[i].compilerArgs == old(compiles[i].compilerArgs) + [Lint]
      invariant forall i :: k <= i < |compiles| ==>
        compiles[i].release == old(compiles[i].release) && compiles[i].compilerArgs == old(compiles[i].compilerArgs)
    {
      var _ := compiles[k].ConfigureJavaCompile(targetVersion);
    }
  }

  /** The Java plugin's extension settings the applier writes. */
  class JavaPluginExtension {
    var inferModulePath: bool
    var sourceCompatibility: Option<nat>
    var targetCompatibility: Option<nat>
    var toolchainLanguageVersion: Option<nat>
    var withJavadocJar: bool
    var withSourcesJar: bool

    constructor ()
      ensures !inferModulePath && sourceCompatibility == None && targetCompatibility == None
      ensures toolchainLanguageVersion == None && !withJavadocJar && !withSourcesJar
    {
      inferModulePath := false;
      sourceCompatibility := None;
      targetCompatibility := None;
      toolchainLanguageVersion := None;
      withJavadocJar := false;
      withSourcesJar := false;
    }

    /**
     * `configureJavaPlugin`: module path inference, then source, target and
     * toolchain versions, then the javadoc and sources jars. A missing
     * version stops it where it is, keeping what was already set.
     */
    method ConfigureJavaPlugin(source: Result<nat, Exception>, target: Result<nat, Exception>, compiler: Result<nat, Exception>)
      returns (thrown: Option<Exception>)
      modifies this
      ensures inferModulePath
      ensures thrown == (if source.Failure? then Some(source.error)
        else if target.Failure? then Some(target.error)
        else if compiler.Failure? then Some(compiler.error) else None)
      ensures sourceCompatibility == (if source.Success? then Some(source.value) else old(sourceCompatibility))
      ensures targetCompatibility == (if source.Success? && target.Success? then Some(target.value) else old(targetCompatibility))
      ensures toolchainLanguageVersion ==
        (if thrown == None then Some(compiler.value) else old(toolchainLanguageVersion))
      ensures withJavadocJar == (thrown == None || old(withJavadocJar))
      ensures withSourcesJar == (thrown == None || old(withSourcesJar))
    {
      inferModulePath := true;
      if source.Failure? {
        return Some(source.error);
      }
      sourceCompatibility := Some(source.value);
      if target.Failure? {
        return Some(target.error);
      }
      targetCompatibility := Some(target.value);
      if compiler.Failure? {
        return Some(compiler.error);
      }
      toolchainLanguageVersion := Some(compiler.value);
      withJavadocJar := true;
      withSourcesJar := true;
      thrown := None;
    }
  }

  /** On a project with no version configured, the plugin and every compile task get the default versions. */
  method ConfigureDefaultVersions(resolve: Resolver<nat>, sources: seq<Source>, compile: CompileOptions)
    returns (java: JavaPluginExtension)
    requires Conforms(resolve)
    requires NoneHeld(Configs.KitJavaSourceVersion, sources)
    requires NoneHeld(Configs.KitJavaTargetVersion, sources)
    requires NoneHeld(Configs.KitJavaCompilerVersion, sources)
    modifies compile
    ensures java.sourceCompatibility == Some(9) && java.targetCompatibility == Some(9)
    ensures java.toolchainLanguageVersion == Some(17)
    ensures compile.release == Some(9) && compile.compilerArgs == old(compile.compilerArgs) + [Lint]
  {
    DefaultVersions(resolve, sources);
    java := new JavaPluginExtension();
    var _ := java.ConfigureJavaPlugin(
      RequiredVersion(resolve, sources, Configs.KitJavaSourceVersion),
      RequiredVersion(resolve, sources, Configs.KitJavaTargetVersion),
      RequiredVersion(resolve, sources, Configs.KitJavaCompilerVersion));
    var _ := compile.ConfigureJavaCompile(RequiredVersion(resolve, sources, Configs.KitJavaTargetVersion));
  }
}
