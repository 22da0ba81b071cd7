# playwright-bdd core, modelled in Dafny

This project models four pieces of playwright-bdd, the bridge that turns
Gherkin scenarios into Playwright tests and reports their results as
Cucumber messages:

- **Step-argument dispatch** (`step_arguments.dfy`, module `StepArguments`).
  A pickle step argument goes to the data-table handler or the doc-string
  handler. The data table is checked first. An argument with neither fails
  with "Unknown step argument".
- **Attachment messages** (`test_step_attachments.dfy`, module
  `TestStepAttachments`). Each native attachment of a step becomes one
  protocol `attachment` message, in capture order. The message is bound to
  the test-case-run id and the test-step id and tagged `BASE64`. Its body is
  the Base64 of the file when the attachment has a truthy path, otherwise
  of its buffer. The Base64 encoding of section 4 of RFC 4648 is modelled
  in `base64.dfy` (module `Base64`) as an encoder with a strict decoder. The
  decoder accepts exactly the strings the encoder produces.
- **The per-scenario World** (`bdd_world.dfy`, module `World`). The class
  `BddWorld` has one mutable field, `customFixtures`. `InvokeStep` looks up
  the step definition for the text in the current test file and fails with
  `Undefined step: "<text>"` when there is none. Otherwise it attaches the
  given fixtures (or `{}`), computes the parameters and runs the step code.
  It clears the fixtures only when the code returns normally. There is no
  `finally`, so when the parameters or the code throw, the fixtures stay
  attached. `GetWorldConstructor` decides which World class to use.
- **The `test` command** (`test_command.dfy`, module `TestCommand`). It
  builds CLI overrides from the keys present in the parsed options. It merges
  them into each config by the object-spread rule. It rejects an empty
  config list with the exact message. It plans one generation task per
  config: the first runs in the calling process, the others in workers.

`wrappers.dfy` holds the `Option`, `Result` and `Outcome` datatypes.

Inputs from outside the core are parameters or function-valued fields:
- the file system read of `fs.readFileSync` is a `ReadFile` function;
- the attachment lookup of the attachment mapper is a field of `AttachmentMapper`;
- the step-definition lookup is a field of `SupportCodeLibrary`;
- the parameter computation and the step code are fields of `StepDefinition`.

Two details of the code that the model keeps:
- The code reads the file whenever the path is truthy, even when a buffer
  is present (src/reporter/cucumber/messagesBuilder/TestStepAttachments.ts:40-41).
  An empty path is falsy, so the buffer is used.
- The fixtures are cleared only after a normal return (src/run/bddWorld.ts:75).
  There is no `finally`, so they stay attached when the parameters or the
  code throw.

## Model

| member | source | states |
|---|---|---|
| `StepArguments.ParseStepArgument` | src/cucumber/stepArguments.ts:13-23 | a present data table gives exactly the data-table handler's result; else a present doc string gives exactly the doc-string handler's result; it fails, naming the argument, iff both are absent |
| `StepArguments.DataTableWins` | src/cucumber/stepArguments.ts:17-20 | with a data table present, the doc-string handler is never consulted: mappings that share the data-table handler give the same result, even when a doc string is present too |
| `StepArguments.DocStringIgnoresDataTableHandler` | src/cucumber/stepArguments.ts:19-22 | without a data table, the data-table handler is never consulted |
| `Base64.Encode` | src/reporter/cucumber/messagesBuilder/TestStepAttachments.ts:41-42 | the standard padded Base64 of the bytes: every character is from the 64-character alphabet or is the pad `=` (its length, round trips and uniqueness are the lemmas below) |
| `Base64.EncodeLength` | src/reporter/cucumber/messagesBuilder/TestStepAttachments.ts:40-42 | the Base64 text of n bytes has 4 * ceil(n / 3) characters |
| `Base64.DecodeEncode` | src/reporter/cucumber/messagesBuilder/TestStepAttachments.ts:40-42 | decoding the Base64 text of any bytes gives those bytes back |
| `Base64.EncodeDecode` | src/reporter/cucumber/messagesBuilder/TestStepAttachments.ts:40-42 | any text the decoder accepts is exactly the encoding of what it decodes to |
| `Base64.DecodeIffEncode` | src/reporter/cucumber/messagesBuilder/TestStepAttachments.ts:40-42 | decoding a text gives some bytes iff that text is the encoding of those bytes |
| `TestStepAttachments.TestStepAttachments.GetAttachmentBodyBase64` | src/reporter/cucumber/messagesBuilder/TestStepAttachments.ts:39-43 | with a truthy path the body decodes to the file's bytes, whether or not a buffer is present; otherwise it decodes to the buffer; its length is 4 * ceil(n / 3); an attachment with neither is excluded by precondition (the `body!` assertion) |
| `TestStepAttachments.TestStepAttachments.BuildAttachmentMessage` | src/reporter/cucumber/messagesBuilder/TestStepAttachments.ts:24-37 | the message carries the test-case-run id and test-step id, encoding `BASE64`, the attachment's content type as media type and its name as file name, and a body that decodes to the payload |
| `TestStepAttachments.TestStepAttachments.BuildMessages` | src/reporter/cucumber/messagesBuilder/TestStepAttachments.ts:17-22 | no native step gives no messages; otherwise there is one message per native attachment, and the i-th message is built from the i-th attachment |
| `TestStepAttachments.MessagesMatchAttachments` | src/reporter/cucumber/messagesBuilder/TestStepAttachments.ts:17-37 | the i-th message of a step has the run and step ids, `BASE64`, the i-th attachment's media type and name, and decodes to the i-th attachment's payload |
| `World.BddWorld.constructor` | src/run/bddWorld.ts:120-130 | the `testInfo`, `tags` and `test` getters return the options' `testInfo`, `$tags` and `$test`; the custom fixtures start empty (line 39) |
| `World.BddWorld.UseFixture` | src/run/bddWorld.ts:96-98 | gives the attached fixture of that name, or `undefined` when none is attached; reads the World and changes nothing |
| `World.BddWorld.InvokeStep` | src/run/bddWorld.ts:46-78 | no matching definition: fails with `Undefined step` and the fixtures are unchanged; its message is exactly `Undefined step: "<text>"`; otherwise the given fixtures (or `{}`) are attached before the parameters are computed, so both the parameter computation and the code see them, and the code's result is returned unchanged; after a normal return the fixtures are `{}`; after a throw in the parameters or the code they are still the given map |
| `World.RunTwoSteps` | src/run/bddWorld.ts:58-75 | on one World, the second step's parameters and code see only the fixtures given to the second call, whatever the first call attached or left behind |
| `World.GetWorldConstructor` | src/run/bddWorld.ts:141-150 | the default Cucumber World gives the playwright-bdd World; a proper descendant of the playwright-bdd World is returned as it is; anything else fails with "CustomWorld should inherit from playwright-bdd World" |
| `World.InheritsFromBddWorld` | src/run/bddWorld.ts:146 | true iff the playwright-bdd World is a proper ancestor of the class, i.e. lies on its prototype chain; so it is false for the playwright-bdd World itself and for the Cucumber World |
| `World.BddWorldItselfRejected` | src/run/bddWorld.ts:146-148 | as written, registering the playwright-bdd World itself is rejected, although the default case returns that very class |
| `World.GetWorldConstructorCorrected` | src/run/bddWorld.ts:141-150 | accepts exactly the default World, the playwright-bdd World and its descendants; whatever it returns is the playwright-bdd World or a descendant |
| `World.CorrectionOnlyAffectsBddWorld` | src/run/bddWorld.ts:146 | the corrected decision agrees with the original on every class but the playwright-bdd World itself |
| `TestCommand.BuildCliOptions` | src/cli/commands/test.ts:32-37 | `tags` is set iff the key is present, to the same value; `verbose` is set iff its key is present, to `Boolean(opts.verbose)`; with neither key the result is empty |
| `TestCommand.MergeConfig` | src/cli/commands/test.ts:49 | each field set in the CLI config takes the CLI value, even `undefined`; every other field keeps the config's value |
| `TestCommand.MergeEmptyIsIdentity` | src/cli/commands/test.ts:49 | merging no overrides leaves the config unchanged |
| `TestCommand.MergeIdempotent` | src/cli/commands/test.ts:49 | merging the same overrides twice equals merging them once |
| `TestCommand.AssertConfigsCount` | src/cli/commands/test.ts:39-43 | fails iff the list is empty, with "No BDD configs found. Did you use defineBddConfig() in playwright.config.ts?" |
| `TestCommand.GenerationTasks` | src/cli/commands/test.ts:45-51 | one task per config, in input order, each with the merged config; the task at index 0 runs in process and every other index runs in a worker |
| `TestCommand.ExactlyOneInProcess` | src/cli/commands/test.ts:48-50 | for a non-empty config list, exactly one task runs in the calling process |
| `TestCommand.TestAction` | src/cli/commands/test.ts:24-30 | an empty config list exits with the message; otherwise the tasks are planned with the overrides built from the options |
| `TestCommand.NoFlagsKeepConfigs` | src/cli/commands/test.ts:32-49 | without `--tags` and `--verbose` every task carries its config unchanged |

## Findings

| source | as written | input that shows it | evidently intended | confidence | as-written member | corrected member |
|---|---|---|---|---|---|---|
| src/run/bddWorld.ts:146 | `Object.prototype.isPrototypeOf.call(BddWorld, World)` holds only for proper descendants of `BddWorld` | a library whose World was set to `BddWorld` itself: `getWorldConstructor` throws "CustomWorld should inherit from playwright-bdd World" | `BddWorld` and its descendants are accepted, as the default case already yields `BddWorld` | medium, not executed | `World.BddWorldItselfRejected` | `World.GetWorldConstructorCorrected` |

## Left out

- Worker threads, `once(worker, 'exit')` and `Promise.all` (src/cli/commands/test.ts:53-63) are concurrency and process plumbing. Only the task plan is modelled. The worker's exit status is never checked (line 61), so a worker that exits with an error code does not fail the command.
- `loadPlaywrightConfig`, `getEnvConfigs` and the commander option parsing (src/cli/commands/test.ts:19-30) are I/O and library calls. The parsed options and the loaded configs are inputs. The `config` key of the options is only read by the config loader.
- `BDDConfig` has more fields than the six modelled. The config module is not part of this model. Every unmodelled field behaves like `outputDir` under the merge: it keeps the config's value.
- `fs.readFileSync` is the `ReadFile` function. A read that fails (a missing file) is not modelled.
- `attachmentMapper.getStepAttachments` is not part of this model. It is a function field returning the ordered attachment list.
- `findStepDefinition`, `getStepCode` and `getInvocationParameters` are not part of this model. They are function fields. The errors that `findStepDefinition` itself may raise (ambiguous matches) are not modelled.
- `getLocationInFile` inspects the call stack and `runStepWithCustomLocation` reports the step to Playwright. Call-site attribution is not modelled; the model returns the step code's result directly, as `runStepWithCustomLocation` does.
- The step code is a function of the attached fixtures and the parameters. Its other effects on the World are not modelled. These include a nested `invokeStep`, which would clear the outer step's fixtures.
- `async`/`await` is not modelled; a step invocation is one sequential call.
- The text of `util.inspect(arg)` in the "Unknown step argument" error is not modelled; the error carries the argument itself.
- The built-in fixture getters (`page`, `context`, `browser`, `browserName`, `request`) and the empty `init` and `destroy` pass through to Playwright objects or do nothing.
- The Cucumber World base class and the other `IWorldOptions` fields (`attach`, `log`, `parameters`) belong to Cucumber.
