/**
 * The decisions of the `test` command (src/cli/commands/test.ts): which CLI
 * options become config overrides, how they are merged into each BDD config,
 * the rejection of an empty config list, and which config is generated in
 * the calling process and which in a worker.
 */
module TestCommand {
  import opened Wrappers

  /** A JavaScript value as the option parser leaves it in a parsed option. */
  datatype JsValue = Undefined | Str(s: string) | Bool(b: bool)

  /** `Boolean(v)`: the empty string, `false` and `undefined` are falsy. */
  function Truthy(v: JsValue): (r: bool)
    ensures r <==> (v.Str? && v.s != "") || v == Bool(true)
  {
    match v
    case Undefined => false
    case Str(s) => s != ""
    case Bool(b) => b
  }

  /**
   * The parsed options of the command. The outer Option says whether the
   * key is present in the options object; `tags` holds a string or
   * `undefined`.
   */
  datatype TestCommandOptions = TestCommandOptions(
    config: Option<string>,
    tags: Option<Option<string>>,
    verbose: Option<JsValue>)

  /** A BDD configuration; `tags` may be `undefined`. */
  datatype BDDConfig = BDDConfig(
    outputDir: string,
    paths: seq<string>,
    require: seq<string>,
    importTestFrom: Option<string>,
    tags: Option<string>,
    verbose: bool)

  /** A `Partial<BDDConfig>` as the CLI builds it: for each key, whether it is set and to what. */
  datatype CliConfig = CliConfig(tags: Option<Option<string>>, verbose: Option<bool>)

  const EmptyCliConfig := CliConfig(None, None)

  /** Only the keys present in the options become overrides. */
  function BuildCliOptions(opts: TestCommandOptions): (r: CliConfig)
    ensures r.tags.Some? <==> opts.tags.Some?
    ensures opts.tags.Some? ==> r.tags.value == opts.tags.value
    ensures r.verbose.Some? <==> opts.verbose.Some?
    ensures opts.verbose.Some? ==> r.verbose.value == Truthy(opts.verbose.value)
    ensures opts.tags.None? && opts.verbose.None? ==> r == EmptyCliConfig
  {
    var withTags := if opts.tags.Some? then EmptyCliConfig.(tags := opts.tags) else EmptyCliConfig;
    if opts.verbose.Some? then withTags.(verbose := Some(Truthy(opts.verbose.value))) else withTags
  }

  /**
   * `{ ...config, ...cliConfig }`: each key set in the CLI config takes the
   * CLI value (even `undefined`), every other field keeps the config's value.
   */
  function MergeConfig(config: BDDConfig, cli: CliConfig): (r: BDDConfig)
    ensures r.tags == (if cli.tags.Some? then cli.tags.value else config.tags)
    ensures r.verbose == (if cli.verbose.Some? then cli.verbose.value else config.verbose)
    ensures r.outputDir == config.outputDir && r.paths == config.paths
    ensures r.require == config.require && r.importTestFrom == config.importTestFrom
  {
    var withTags := if cli.tags.Some? then config.(tags := cli.tags.value) else config;
    if cli.verbose.Some? then withTags.(verbose := cli.verbose.value) else withTags
  }

  /** Without CLI overrides the config is used as it is. */
  lemma MergeEmptyIsIdentity(config: BDDConfig)
    ensures MergeConfig(config, EmptyCliConfig) == config
  {
  }

  /** Applying the same overrides twice changes nothing more. */
  lemma MergeIdempotent(config: BDDConfig, cli: CliConfig)
    ensures MergeConfig(MergeConfig(config, cli), cli) == MergeConfig(config, cli)
  {
  }

  const NoConfigsMessage := "No BDD configs found. Did you use defineBddConfig() in playwright.config.ts?"

  /** The command exits with a message when no BDD config was registered. */
  function AssertConfigsCount<T>(configs: seq<T>): (r: Outcome<string>)
    ensures r.Fail? <==> |configs| == 0
    ensures r.Fail? ==> r.error == NoConfigsMessage
  {
    if |configs| == 0 then Fail(NoConfigsMessage) else Pass
  }

  /** A generation task: in the calling process, or in a worker with a copy of its config. */
  datatype GenerationTask = GenerateInProcess(config: BDDConfig) | RunInWorker(config: BDDConfig)

  /**
   * One task per config, in order, each with the merged config; the first
   * config runs in the calling process and every other in a worker.
   */
  function GenerationTasks(configs: seq<BDDConfig>, cli: CliConfig): (r: seq<GenerationTask>)
    ensures |r| == |configs|
    ensures forall i :: 0 <= i < |r| ==> r[i].config == MergeConfig(configs[i], cli)
    ensures forall i :: 0 <= i < |r| ==> (r[i].GenerateInProcess? <==> i == 0)
  {
    seq(|configs|, i requires 0 <= i < |configs| =>
      var finalConfig := MergeConfig(configs[i], cli);
      if i == 0 then GenerateInProcess(finalConfig) else RunInWorker(finalConfig))
  }

  /** The number of tasks that run in the calling process. */
  function InProcessCount(tasks: seq<GenerationTask>): nat
  {
    if tasks == [] then 0
    else (if tasks[0].GenerateInProcess? then 1 else 0) + InProcessCount(tasks[1..])
  }

  lemma {:induction false} NoInProcessTask(tasks: seq<GenerationTask>)
    requires forall i :: 0 <= i < |tasks| ==> tasks[i].RunInWorker?
    ensures InProcessCount(tasks) == 0
    decreases |tasks|
  {
    if tasks != [] {
      NoInProcessTask(tasks[1..]);
    }
  }

  /** Exactly one config is generated in the calling process when there is any. */
  lemma ExactlyOneInProcess(configs: seq<BDDConfig>, cli: CliConfig)
    requires |configs| > 0
    ensures InProcessCount(GenerationTasks(configs, cli)) == 1
  {
    var tasks := GenerationTasks(configs, cli);
    NoInProcessTask(tasks[1..]);
  }

  /**
   * The command's action after the configs are loaded: reject an empty
   * list, else plan one generation task per config with the CLI overrides.
   */
  function TestAction(opts: TestCommandOptions, configs: seq<BDDConfig>): (r: Result<seq<GenerationTask>, string>)
    ensures r.Failure? <==> |configs| == 0
    ensures r.Failure? ==> r.error == NoConfigsMessage
    ensures r.Success? ==> r.value == GenerationTasks(configs, BuildCliOptions(opts))
  {
    match AssertConfigsCount(configs)
    case Fail(message) => Failure(message)
    case Pass => Success(GenerationTasks(configs, BuildCliOptions(opts)))
  }

  /** Without `--tags` and `--verbose`, every task carries its config unchanged. */
  lemma NoFlagsKeepConfigs(opts: TestCommandOptions, configs: seq<BDDConfig>)
    requires opts.tags.None? && opts.verbose.None? && |configs| > 0
    ensures TestAction(opts, configs).Success?
    ensures forall i :: 0 <= i < |configs| ==> TestAction(opts, configs).value[i].config == configs[i]
  {
    forall i | 0 <= i < |configs|
      ensures TestAction(opts, configs).value[i].config == configs[i]
    {
      MergeEmptyIsIdentity(configs[i]);
    }
  }
}
