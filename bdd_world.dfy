/**
 * The per-scenario World (src/run/bddWorld.ts).
 *
 * A World owns the transient custom-fixture map that `invokeStep` fills for
 * exactly one step handler call. Fixture values and step results are of the
 * type parameter V. The step-definition lookup, the computation of invocation
 * parameters and the step code itself live outside this file; they appear
 * here as function-valued fields.
 */
module World {
  import opened Wrappers

  /** A step handler either returns a value or throws an error. */
  datatype HandlerOutcome<V> = Returned(value: V) | Threw(error: string)

  /**
   * A registered step definition: the code to run, and the computation of
   * the parameters the code receives for a step text and argument (which
   * may throw). Both see the World, whose only changing part is its custom
   * fixtures, so both receive the fixtures attached at the time of the call.
   */
  datatype StepDefinition<!V> = StepDefinition(
    code: (map<string, V>, seq<V>) -> HandlerOutcome<V>,
    invocationParameters: (string, Option<V>, map<string, V>) -> Result<seq<V>, string>)

  /**
   * The classes a World constructor can be: the default Cucumber World,
   * the playwright-bdd World (which extends it), or a user-defined class
   * with the class it extends, if any.
   */
  datatype WorldClass =
    | CucumberWorld
    | BddWorldClass
    | UserClass(name: string, parent: Option<WorldClass>)

  /**
   * The support code library: the registered World constructor and the
   * lookup of the step definition that matches a text within a file.
   */
  datatype SupportCodeLibrary<!V> = SupportCodeLibrary(
    world: WorldClass,
    findStepDefinition: (string, string) -> Option<StepDefinition<V>>)

  datatype TestInfo = TestInfo(file: string, title: string)

  /** The test object of the runner the World runs in. */
  datatype TestHandle = TestHandle(name: string)

  datatype BddWorldOptions<!V> = BddWorldOptions(
    testInfo: TestInfo,
    supportCodeLibrary: SupportCodeLibrary<V>,
    tags: seq<string>,
    test: TestHandle)

  /** How a step invocation can fail. */
  datatype StepError =
    | UndefinedStep(text: string)
    | ParametersFailed(reason: string)
    | HandlerFailed(reason: string)
  {
    function Message(): string
    {
      match this
      case UndefinedStep(text) => "Undefined step: \"" + text + "\""
      case ParametersFailed(reason) => reason
      case HandlerFailed(reason) => reason
    }
  }

  class BddWorld<V> {
    const options: BddWorldOptions<V>
    var customFixtures: map<string, V>

    constructor(options: BddWorldOptions<V>)
      ensures this.options == options
      ensures TestInfo() == options.testInfo && Tags() == options.tags && Test() == options.test
      ensures customFixtures == map[]
    {
      this.options := options;
      customFixtures := map[];
    }

    function TestInfo(): TestInfo
    {
      options.testInfo
    }

    function Tags(): seq<string>
    {
      options.tags
    }

    function Test(): TestHandle
    {
      options.test
    }

    /**
     * The custom fixture of the given name for the step being run, or None
     * (JavaScript `undefined`) when the step was given no such fixture.
     */
    function UseFixture(fixtureName: string): (r: Option<V>)
      reads this
      ensures r.Some? <==> fixtureName in customFixtures
      ensures r.Some? ==> r.value == customFixtures[fixtureName]
    {
      if fixtureName in customFixtures then Some(customFixtures[fixtureName]) else None
    }

    /**
     * Runs the step definition that matches `text` in the current test file.
     * The custom fixtures are attached for the handler call only; with no
     * `finally` in the source, they stay attached when the parameters or the
     * handler throw.
     */
    method InvokeStep(text: string, argument: Option<V>, fixtures: Option<map<string, V>>)
      returns (r: Result<V, StepError>)
      modifies this
      ensures var found := options.supportCodeLibrary.findStepDefinition(text, TestInfo().file);
        found.None? ==> && r == Failure(UndefinedStep(text))
                        && r.error.Message() == "Undefined step: \"" + text + "\""
                        && customFixtures == old(customFixtures)
      ensures var found := options.supportCodeLibrary.findStepDefinition(text, TestInfo().file);
        found.Some? ==>
          var attached := fixtures.GetOr(map[]);
          match found.value.invocationParameters(text, argument, attached)
          case Failure(e) => r == Failure(ParametersFailed(e)) && customFixtures == attached
          case Success(parameters) =>
            match found.value.code(attached, parameters)
            case Returned(v) => r == Success(v) && customFixtures == map[]
            case Threw(e) => r == Failure(HandlerFailed(e)) && customFixtures == attached
    {
      var stepDefinition := options.supportCodeLibrary.findStepDefinition(text, TestInfo().file);
      if stepDefinition.None? {
        return Failure(UndefinedStep(text));
      }
      // attach the custom fixtures: the only channel into the step code
      customFixtures := if fixtures.Some? then fixtures.value else map[];
      var code := stepDefinition.value.code;
      // the parameters are computed with the fixtures already attached
      var parameters := stepDefinition.value.invocationParameters(text, argument, customFixtures);
      if parameters.Failure? {
        return Failure(ParametersFailed(parameters.error));
      }
      // the step code runs with the World's fixtures as they are now
      var outcome := code(customFixtures, parameters.value);
      if outcome.Threw? {
        return Failure(HandlerFailed(outcome.error));
      }
      customFixtures := map[];
      r := Success(outcome.value);
    }
  }

  /**
   * Two steps of one scenario, run one after the other on the same World:
   * the second handler sees only the fixtures given to the second call,
   * whatever the first call attached or left behind.
   */
  method RunTwoSteps<V>(world: BddWorld<V>, first: string, fixtures1: Option<map<string, V>>,
                        second: string, fixtures2: Option<map<string, V>>)
    returns (r1: Result<V, StepError>, r2: Result<V, StepError>)
    modifies world
    ensures var found := world.options.supportCodeLibrary.findStepDefinition(second, world.TestInfo().file);
      var attached := fixtures2.GetOr(map[]);
      found.Some? && found.value.invocationParameters(second, None, attached).Success? ==>
        var outcome := found.value.code(attached, found.value.invocationParameters(second, None, attached).value);
        r2 == (if outcome.Returned? then Success(outcome.value) else Failure(HandlerFailed(outcome.error)))
  {
    r1 := world.InvokeStep(first, None, fixtures1);
    r2 := world.InvokeStep(second, None, fixtures2);
  }

  /**
   * The prototype chain of a class: the class it extends, then that class's
   * chain. The Cucumber World is the root of the chain here.
   */
  function PrototypeChain(c: WorldClass): seq<WorldClass>
  {
    match c
    case CucumberWorld => []
    case BddWorldClass => [CucumberWorld]
    case UserClass(_, parent) =>
      if parent.Some? then [parent.value] + PrototypeChain(parent.value) else []
  }

  /**
   * `Object.prototype.isPrototypeOf.call(BddWorld, c)`: the playwright-bdd
   * World is on the prototype chain of c, so it is a proper ancestor of c.
   */
  predicate InheritsFromBddWorld(c: WorldClass): (r: bool)
    ensures r <==> BddWorldClass in PrototypeChain(c)
    ensures r ==> c != BddWorldClass && c != CucumberWorld
  {
    match c
    case CucumberWorld => false
    case BddWorldClass => false
    case UserClass(_, parent) =>
      parent.Some? && (parent.value == BddWorldClass || InheritsFromBddWorld(parent.value))
  }

  const CustomWorldError := "CustomWorld should inherit from playwright-bdd World"

  /**
   * The World class to instantiate, as written: the default Cucumber World
   * is replaced by the playwright-bdd World, a proper descendant of the
   * playwright-bdd World is kept, anything else is rejected.
   */
  function GetWorldConstructor<V>(library: SupportCodeLibrary<V>): (r: Result<WorldClass, string>)
    ensures library.world == CucumberWorld ==> r == Success(BddWorldClass)
    ensures library.world != CucumberWorld && InheritsFromBddWorld(library.world) ==> r == Success(library.world)
    ensures r.Failure? <==> library.world != CucumberWorld && !InheritsFromBddWorld(library.world)
    ensures r.Failure? ==> r.error == CustomWorldError
  {
    if library.world == CucumberWorld then Success(BddWorldClass)
    else if !InheritsFromBddWorld(library.world) then Failure(CustomWorldError)
    else Success(library.world)
  }

  /**
   * As written, registering the playwright-bdd World itself as the World
   * constructor is rejected, although it is what the default case returns.
   */
  lemma BddWorldItselfRejected<V>(library: SupportCodeLibrary<V>)
    requires library.world == BddWorldClass
    ensures GetWorldConstructor(library) == Failure(CustomWorldError)
    ensures GetWorldConstructor(library.(world := CucumberWorld)) == Success(BddWorldClass)
  {
  }

  /** The playwright-bdd World or one of its descendants. */
  predicate IsBddWorld(c: WorldClass)
  {
    c == BddWorldClass || InheritsFromBddWorld(c)
  }

  /** The corrected decision: the playwright-bdd World itself is accepted too. */
  function GetWorldConstructorCorrected<V>(library: SupportCodeLibrary<V>): (r: Result<WorldClass, string>)
    ensures r.Success? ==> IsBddWorld(r.value)
    ensures r.Success? <==> library.world == CucumberWorld || IsBddWorld(library.world)
    ensures IsBddWorld(library.world) ==> r == Success(library.world)
    ensures r.Failure? ==> r.error == CustomWorldError
  {
    if library.world == CucumberWorld then Success(BddWorldClass)
    else if !IsBddWorld(library.world) then Failure(CustomWorldError)
    else Success(library.world)
  }

  /** The two decisions differ only on the playwright-bdd World itself. */
  lemma CorrectionOnlyAffectsBddWorld<V>(library: SupportCodeLibrary<V>)
    ensures library.world != BddWorldClass ==>
      GetWorldConstructorCorrected(library) == GetWorldConstructor(library)
  {
  }
}
