/**
 * `ProjectApplier.java`: the base of every applier. It runs an applier's
 * configuration block at most once per project, keeping a marker in the
 * project's extra properties; it classifies test projects; and it ranks the
 * configuration sources.
 */
module ProjectApplying {
  import opened Wrappers
  import opened Text
  import opened Exceptions
  import opened Variants
  import Configs

  // ---------------------------------------------------------------------------
  // Values kept in the extra properties, and the blocks that run

  /** A Java throwable: an `Exception` (caught by `applyOnce`) or an `Error` (not caught). */
  datatype Throwable = Throwable(isException: bool, className: Text, message: Text)

  /** `Throwable.toString()`: the class name, a colon and the message. */
  function ThrowableText(t: Throwable): Text {
    t.className + Ascii(": ") + t.message
  }

  /** What an extra property holds: the marker `TRUE`, a thrown exception, or any other text value. */
  datatype Extra = BoolValue(b: bool) | ThrownValue(thrown: Throwable) | TextValue(text: Text)

  /**
   * A configuration block (`Runnable`), as a small program: a sequence of
   * actions that ends normally or by throwing.
   */
  datatype Body = Return | Throw(thrown: Throwable) | Then(action: Action, next: Body)

  /** One step of a block: some work, or a nested `applyOnce` by the applier of the given class. */
  datatype Action = Work(step: string) | ApplyOnceFrom(applierName: string, body: Body)

  /** A project's extra properties and the work done on it so far. */
  datatype State = State(extras: map<string, Extra>, performed: seq<string>)

  datatype Outcome = Outcome(state: State, thrown: Option<Throwable>)

  function Marker(st: State, name: string): Option<Extra> {
    if name in st.extras then Some(st.extras[name]) else None
  }

  /** The marker says the applier has already been applied. */
  predicate Applied(st: State, name: string) {
    Marker(st, name) == Some(BoolValue(true))
  }

  function Mark(st: State, name: string, value: Extra): State {
    st.(extras := st.extras[name := value])
  }

  /** After the block: an exception replaces the marker and is rethrown; an error or success leaves TRUE. */
  function Settle(o: Outcome, name: string): Outcome {
    match o.thrown
    case Some(t) => if t.isException then Outcome(Mark(o.state, name, ThrownValue(t)), Some(t)) else o
    case None => o
  }

  /** `applyOnce(block)` for the applier of class `name`. */
  function ApplyOnceOutcome(st: State, name: string, body: Body): Outcome
    decreases body, 1
  {
    if Applied(st, name) then Outcome(st, None)
    else Settle(RunOutcome(Mark(st, name, BoolValue(true)), body), name)
  }

  /** Running a block: the actions in order until one throws. */
  function RunOutcome(st: State, body: Body): Outcome
    decreases body, 0
  {
    match body
    case Return => Outcome(st, None)
    case Throw(t) => Outcome(st, Some(t))
    case Then(a, next) =>
      var o := ActionOutcome(st, a);
      if o.thrown.Some? then o else RunOutcome(o.state, next)
  }

  function ActionOutcome(st: State, a: Action): Outcome
    decreases a, 0
  {
    match a
    case Work(step) => Outcome(st.(performed := st.performed + [step]), None)
    case ApplyOnceFrom(n, b) => ApplyOnceOutcome(st, n, b)
  }

  /** The applier classes whose `applyOnce` a block may call. */
  function Mentions(body: Body): set<string>
    decreases body, 0
  {
    match body
    case Return => {}
    case Throw(_) => {}
    case Then(a, next) => ActionMentions(a) + Mentions(next)
  }

  function ActionMentions(a: Action): set<string>
    decreases a, 0
  {
    match a
    case Work(_) => {}
    case ApplyOnceFrom(n, b) => {n} + Mentions(b)
  }

  // ---------------------------------------------------------------------------
  // The objects: Gradle's project and extra properties, and the applier

  class ExtraPropertiesExtension {
    var properties: map<string, Extra>

    constructor ()
      ensures properties == map[]
    {
      properties := map[];
    }

    method Set(name: string, value: Extra)
      modifies this
      ensures properties == old(properties)[name := value]
    {
      properties := properties[name := value];
    }
  }

  class Project {
    const name: string
    /** `getExtensions().getExtraProperties()`. */
    const extraProperties: ExtraPropertiesExtension
    /** The labels of the work the blocks have done on this project, in order. */
    var performed: seq<string>

    constructor (name: string)
      ensures this.name == name && fresh(extraProperties)
      ensures extraProperties.properties == map[] && performed == []
    {
      this.name := name;
      extraProperties := new ExtraPropertiesExtension();
      performed := [];
    }

    method Perform(step: string)
      modifies this
      ensures performed == old(performed) + [step]
    {
      performed := performed + [step];
    }
  }

  function StateOf(p: Project): State
    reads p, p.extraProperties
  {
    State(p.extraProperties.properties, p.performed)
  }

  class ProjectApplier {
    const project: Project
    /** `getClass().getName()`: the marker key. */
    const applierName: string

    constructor (project: Project, applierName: string)
      ensures this.project == project && this.applierName == applierName
    {
      this.project := project;
      this.applierName := applierName;
    }

    /** `applyOnce(block)`: skipped when the marker is TRUE; otherwise marks, runs, and records an exception. */
    method ApplyOnce(body: Body) returns (thrown: Option<Throwable>)
      modifies project, project.extraProperties
      decreases body, 1
      ensures var o := ApplyOnceOutcome(old(StateOf(project)), applierName, body);
        StateOf(project) == o.state && thrown == o.thrown
    {
      var extension := project.extraProperties;
      if applierName in extension.properties && extension.properties[applierName] == BoolValue(true) {
        thrown := None;
      } else {
        extension.Set(applierName, BoolValue(true));
        thrown := Run(project, body);
        if thrown.Some? && thrown.value.isException {
          extension.Set(applierName, ThrownValue(thrown.value));
        }
      }
    }
  }

  method Run(project: Project, body: Body) returns (thrown: Option<Throwable>)
    modifies project, project.extraProperties
    decreases body, 0
    ensures var o := RunOutcome(old(StateOf(project)), body);
      StateOf(project) == o.state && thrown == o.thrown
  {
    match body
    case Return =>
      thrown := None;
    case Throw(t) =>
      thrown := Some(t);
    case Then(a, next) =>
      thrown := RunAction(project, a);
      if thrown.None? {
        thrown := Run(project, next);
      }
  }

  method RunAction(project: Project, a: Action) returns (thrown: Option<Throwable>)
    modifies project, project.extraProperties
    decreases a, 0
    ensures var o := ActionOutcome(old(StateOf(project)), a);
      StateOf(project) == o.state && thrown == o.thrown
  {
    match a
    case Work(step) =>
      project.Perform(step);
      thrown := None;
    case ApplyOnceFrom(n, b) =>
      var applier := new ProjectApplier(project, n);
      thrown := applier.ApplyOnce(b);
  }

  // ---------------------------------------------------------------------------
  // What applyOnce promises

  /** A block never clears a TRUE marker: nested calls for that applier are skipped, others touch only their own. */
  lemma {:induction false} RunKeepsApplied(st: State, name: string, body: Body)
    requires Applied(st, name)
    ensures Applied(RunOutcome(st, body).state, name)
    decreases body, 0
  {
    match body
    case Return =>
    case Throw(_) =>
    case Then(a, next) =>
      ActionKeepsApplied(st, name, a);
      var o := ActionOutcome(st, a);
      if o.thrown.None? {
        RunKeepsApplied(o.state, name, next);
      }
  }

  lemma {:induction false} ActionKeepsApplied(st: State, name: string, a: Action)
    requires Applied(st, name)
    ensures Applied(ActionOutcome(st, a).state, name)
    decreases a, 0
  {
    match a
    case Work(_) =>
    case ApplyOnceFrom(n, b) =>
      if !Applied(st, n) {
        assert n != name;
        var marked := Mark(st, n, BoolValue(true));
        RunKeepsApplied(marked, name, b);
      }
  }

  /** After a call that did not throw, every later call for the same applier is skipped. */
  lemma SuccessThenSkip(st: State, name: string, body: Body, later: Body)
    requires ApplyOnceOutcome(st, name, body).thrown.None?
    ensures var s := ApplyOnceOutcome(st, name, body).state;
      Applied(s, name) && ApplyOnceOutcome(s, name, later) == Outcome(s, None)
  {
    if !Applied(st, name) {
      RunKeepsApplied(Mark(st, name, BoolValue(true)), name, body);
    }
  }

  /** An exception from the block is the new marker and is rethrown, so the next call runs the block again. */
  lemma ExceptionAllowsRetry(st: State, name: string, body: Body, later: Body)
    requires var o := ApplyOnceOutcome(st, name, body); o.thrown.Some? && o.thrown.value.isException
    ensures var o := ApplyOnceOutcome(st, name, body);
      && !Applied(st, name)
      && Marker(o.state, name) == Some(ThrownValue(o.thrown.value))
      && ApplyOnceOutcome(o.state, name, later) ==
         Settle(RunOutcome(Mark(o.state, name, BoolValue(true)), later), name)
  {
  }

  /** An `Error` is not caught: it propagates and the marker stays TRUE, so the block is not retried. */
  lemma ErrorKeepsMarker(st: State, name: string, body: Body, later: Body)
    requires var o := ApplyOnceOutcome(st, name, body); o.thrown.Some? && !o.thrown.value.isException
    ensures var s := ApplyOnceOutcome(st, name, body).state;
      Applied(s, name) && ApplyOnceOutcome(s, name, later) == Outcome(s, None)
  {
    RunKeepsApplied(Mark(st, name, BoolValue(true)), name, body);
  }

  /** The marker is set before the block runs, so the block's own `applyOnce` for the same applier is skipped. */
  lemma ReentrantCallSkipped(st: State, name: string, inner: Body, next: Body)
    ensures ApplyOnceOutcome(st, name, Then(ApplyOnceFrom(name, inner), next)) == ApplyOnceOutcome(st, name, next)
  {
    if !Applied(st, name) {
      var marked := Mark(st, name, BoolValue(true));
      assert Applied(marked, name);
      assert ActionOutcome(marked, ApplyOnceFrom(name, inner)) == Outcome(marked, None);
      assert RunOutcome(marked, Then(ApplyOnceFrom(name, inner), next)) == RunOutcome(marked, next);
    }
  }

  /** The marker of an applier class that is neither this one nor one the block calls is left alone. */
  lemma {:induction false} RunKeepsOthers(st: State, k: string, body: Body)
    requires k !in Mentions(body)
    ensures Marker(RunOutcome(st, body).state, k) == Marker(st, k)
    decreases body, 0
  {
    match body
    case Return =>
    case Throw(_) =>
    case Then(a, next) =>
      ActionKeepsOthers(st, k, a);
      var o := ActionOutcome(st, a);
      if o.thrown.None? {
        RunKeepsOthers(o.state, k, next);
      }
  }

  lemma {:induction false} ActionKeepsOthers(st: State, k: string, a: Action)
    requires k !in ActionMentions(a)
    ensures Marker(ActionOutcome(st, a).state, k) == Marker(st, k)
    decreases a, 0
  {
    match a
    case Work(_) =>
    case ApplyOnceFrom(n, b) =>
      if !Applied(st, n) {
        var marked := Mark(st, n, BoolValue(true));
        RunKeepsOthers(marked, k, b);
      }
  }

  /** Distinct applier classes keep distinct markers: applying one never marks another. */
  lemma ApplyOnceKeepsOthers(st: State, name: string, k: string, body: Body)
    requires k != name && k !in Mentions(body)
    ensures Marker(ApplyOnceOutcome(st, name, body).state, k) == Marker(st, k)
  {
    if !Applied(st, name) {
      RunKeepsOthers(Mark(st, name, BoolValue(true)), k, body);
    }
  }

  /** Applying twice on a fresh project with a block that does not throw does its work once. */
  method TwiceRunsOnce(name: string, step: string) returns (project: Project)
    ensures project.performed == [step]
    ensures Applied(StateOf(project), name)
  {
    project := new Project("project");
    var applier := new ProjectApplier(project, name);
    ghost var start := StateOf(project);
    var first := applier.ApplyOnce(Then(Work(step), Return));
    assert start.extras == map[] && start.performed == [];
    assert !Applied(start, name);
    ghost var marked := Mark(start, name, BoolValue(true));
    assert ActionOutcome(marked, Work(step)) == Outcome(marked.(performed := [step]), None);
    assert RunOutcome(marked, Then(Work(step), Return)) == Outcome(marked.(performed := [step]), None);
    SuccessThenSkip(start, name, Then(Work(step), Return), Then(Work(step), Return));
    var second := applier.ApplyOnce(Then(Work(step), Return));
  }

  /** A block that throws an exception throws it on every call: each call retries. */
  method ThrowingRetries(name: string, error: Throwable) returns (first: Option<Throwable>, second: Option<Throwable>)
    requires error.isException
    ensures first == Some(error) && second == Some(error)
  {
    var project := new Project("project");
    var applier := new ProjectApplier(project, name);
    first := applier.ApplyOnce(Throw(error));
    second := applier.ApplyOnce(Throw(error));
  }

  // ---------------------------------------------------------------------------
  // Project classification

  /** `isTestProject`: the project's name ends with "-test" or "-tests". */
  predicate IsTestProject(projectName: string) {
    EndsWith(projectName, "-test") || EndsWith(projectName, "-tests")
  }

  lemma TestProjectNames(projectName: string)
    ensures IsTestProject(projectName) <==>
      exists base: string :: projectName == base + "-test" || projectName == base + "-tests"
  {
    if EndsWith(projectName, "-test") {
      var base := projectName[..|projectName| - 5];
      assert projectName == base + "-test";
    } else if EndsWith(projectName, "-tests") {
      var base := projectName[..|projectName| - 6];
      assert projectName == base + "-tests";
    }
    if exists base: string :: projectName == base + "-test" || projectName == base + "-tests" {
      var base: string :| projectName == base + "-test" || projectName == base + "-tests";
      if projectName == base + "-test" {
        assert projectName[|projectName| - 5..] == "-test";
      } else {
        assert projectName[|projectName| - 6..] == "-tests";
      }
    }
  }

  lemma TestProjectExamples()
    ensures IsTestProject("-test") && IsTestProject("-tests")
    ensures !IsTestProject("-api") && !IsTestProject("-impl")
  {
    assert "-tests"[1..] == "tests";
  }

  // ---------------------------------------------------------------------------
  // Configuration sources

  /** `projectProperty(key)`: the property's `toString()`. */
  function ExtraText(e: Extra): Text {
    match e
    case BoolValue(b) => if b then Ascii("true") else Ascii("false")
    case ThrownValue(t) => ThrowableText(t)
    case TextValue(t) => t
  }

  function ProjectPropertySource(properties: map<string, Extra>): (r: Source)
    ensures r.Keys == properties.Keys
    ensures forall k :: k in properties ==> r[k] == ExtraText(properties[k])
  {
    map k | k in properties :: ExtraText(properties[k])
  }

  /** The sources of the applier's environment, highest rank first. */
  function ProjectSources(
    systemEnvironment: Source, projectEnvironment: Source, systemProperties: Source,
    projectProperties: map<string, Extra>): (r: seq<Source>)
    ensures |r| == 4
    ensures r[0] == systemEnvironment && r[1] == projectEnvironment && r[2] == systemProperties
    ensures r[3] == ProjectPropertySource(projectProperties)
  {
    [systemEnvironment, projectEnvironment, systemProperties, ProjectPropertySource(projectProperties)]
  }

  /** An extra property set under a key no other source holds is the value a descriptor with that key finds. */
  lemma ExtraPropertyIsFound(
    resolve: Resolver<Text>, key: string, value: Text,
    systemEnvironment: Source, projectEnvironment: Source, systemProperties: Source,
    projectProperties: map<string, Extra>)
    requires Conforms(resolve)
    requires value != []
    requires key !in systemEnvironment && key !in projectEnvironment && key !in systemProperties
    requires key in projectProperties && projectProperties[key] == TextValue(value)
    ensures var d := Descriptor(Some("Test variant"), None, Some(Ascii("unknown")), [key], OfString, None);
      resolve(d, ProjectSources(systemEnvironment, projectEnvironment, systemProperties, projectProperties)) ==
        Present(value)
  {
    var d := Descriptor(Some("Test variant"), None, Some(Ascii("unknown")), [key], OfString, None);
    var sources := ProjectSources(systemEnvironment, projectEnvironment, systemProperties, projectProperties);
    assert ConformsAt(resolve, d, sources);
    assert key in d.keys && key in sources[3];
    assert AllHeldAre(d, sources, value);
  }

  /** `isLogEnabled`: the log flag's value, false when it resolves to nothing. */
  function IsLogEnabled(resolve: Resolver<bool>, sources: seq<Source>): (r: Result<bool, Exception>)
    ensures resolve(Configs.KitLogEnabled, sources).Absent? ==> r == Success(false)
    ensures resolve(Configs.KitLogEnabled, sources).Present? ==>
      r == Success(resolve(Configs.KitLogEnabled, sources).value)
  {
    match resolve(Configs.KitLogEnabled, sources)
    case Present(b) => Success(b)
    case Absent => Success(false)
    case Invalid(e) => Failure(e)
  }

  /** With no log flag in any source, logging is off. */
  lemma LogDisabledByDefault(resolve: Resolver<bool>, sources: seq<Source>)
    requires Conforms(resolve)
    requires NoneHeld(Configs.KitLogEnabled, sources)
    ensures IsLogEnabled(resolve, sources) == Success(false)
  {
    assert ConformsAt(resolve, Configs.KitLogEnabled, sources);
  }

  /**
   * With the log flag set to one value wherever it is set, `isLogEnabled`
   * never fails, and turns logging on exactly when the text is "true" in
   * any mix of upper and lower case (`Boolean.parseBoolean`).
   */
  lemma LogFlagFollowsValue(resolve: Resolver<bool>, sources: seq<Source>, v: Text)
    requires Conforms(resolve)
    requires AllHeldAre(Configs.KitLogEnabled, sources, v) && v != []
    ensures IsLogEnabled(resolve, sources) ==
      Success(|v| == 4 && forall i :: 0 <= i < 4 ==> Lower(v[i]) == Ascii("true")[i])
  {
    assert ConformsAt(resolve, Configs.KitLogEnabled, sources);
    OfBooleanCases(v);
  }
}
