# A verified model of the next-sharexam flow engine

next-sharexam lets users draw flow diagrams and run them. A diagram's nodes are input, question,
HTTP request, Gemini info, Gemini prompt, Puter prompt and output nodes. Its edges may carry
conditions. This project models the part of the application that runs a diagram, in Dafny:

- the xstate machine `flowMachine` and its three executors;
- the execution panel's start and reset buttons and its completion view;
- the diagram loader `DiagramData`;
- the node and edge types;
- the zod schemas that validate diagrams and users.

The model is organised as follows:

- `FlowTypes` holds the data model: node types and statuses, a JavaScript value type, typed nodes
  and edges, and `nodes.find`.
- `Executors` gives each executor as a function from what the outside world answered (an HTTP
  response, a Gemini reply, a Puter reply) to the outcome the machine receives.
- `FlowSpec` gives the machine's meaning as pure functions:
  - `Route` is the guard chain of `evaluating`;
  - `NextNode` is `findNextNode`;
  - `Settle` covers the eventless transitions;
  - `Step` is the whole reaction to one event.
- `FlowProperties` proves what a run guarantees:
  - an invariant every event keeps;
  - what ANSWER, `onDone` and `onError` record;
  - a failing node never ends a run;
  - only STOP stops one;
  - events a state does not list are ignored.
- `FlowEngine` contains the shared execution store and the machine as classes. There is one method
  per event: `Start`, `Answer`, `Stop`, `Reset`, `Complete`, plus `ExecDone` and `ExecError` for
  the executors' outcomes. Each method is proved to change the machine and the store exactly as
  `Step` says. `FindNextNode` is the edge loop of `findNextNode`, proved equal to `NextNode`.
- `ExecutionPanel`, `DiagramData`, `DiagramValidation` and `UserValidation` model the named
  components and schemas. `SchemaIssues` holds the shared zod issue shapes.
- `FlowScenarios` proves the traces of small diagrams under `Step`.

Outside the model:

- The condition evaluator (`evaluateCondition`, lib/evaluator) is a parameter of type
  `(Value, Answers) -> Option<bool>`. `None` means the evaluation threw.
- The network, the browser key store and template rendering become the executors' inputs: what
  the request answered, what `atob` made of the stored key, and whether the template threw.
- store/flowStore is not part of this model. Its setters are plain field updates on `FlowStore`.

Behaviour worth knowing:

- The machine's own RESET only returns to `idle`. It keeps the answers, the statuses and the
  context's current node id (`FlowProperties.ResetKeepsStore`). The reset buttons clear the store
  after sending RESET. The execution panel does this for `completed` and `stopped`. `DiagramData`
  does it for `completed` only.
- The start node is the FIRST input node, not a unique one. A null or empty id counts as "no
  current node".
- STOP reaches the machine in two ways. In `waitingInput` it is handled directly. Otherwise it
  only reaches the `isStopped` guard, and only when `evaluating` is stuck on an id that matches no
  node. STOP is ignored while an executor runs. The `running.stopped` sub-state is never entered.
- "Invalid node" can only be thrown when the current node does not fit the processing state. The
  invariant `FlowProperties.Consistent` rules that out, as `FlowProperties.InvocationsAreReady`
  proves.
- `Consistent` is kept by every event on a fixed diagram. It assumes that nobody swaps the diagram
  during a run. `DiagramData.DiagramEntry.SelectDiagram` and `UnselectDiagram` replace the store's
  nodes and edges but reset only a `completed` run. A machine left in `waitingInput` can therefore
  sit on an id the new diagram lacks, and the invariant says nothing about that case.
- The START action's value is `useFlowStore.getState().currentNodeId`, read once when the machine
  is defined. The context factory reads the same store field again when the actor is created. The
  first is the constructor parameter `startSeed`, the second the constructor's initial
  `currentNodeId`.

## Model

| member | source | states |
|---|---|---|
| FlowTypes.ParseNodeType | types/flow.ts:3-10 | a tag names a node type exactly when it is one of the seven tags, and names that type only |
| FlowTypes.ParseNodeStatus | types/flow.ts:11 | a tag names a status exactly when it is one of `idle`, `running`, `executed`, `error` |
| FlowTypes.FindNode | machines/flowMachine.ts:333-337 | the node found carries the id and belongs to the list; none is found exactly when the id is null or no node carries it |
| FlowTypes.FindNodeIsFirst | machines/flowMachine.ts:333-337 | `find` returns the earliest node with the id |
| FlowTypes.FirstOfType | machines/flowMachine.ts:384-388 | the node found has the type; none exactly when no node has it |
| FlowTypes.FirstOfTypeIsFirst | components/ExecutionPanel.tsx:16 | the start node is the earliest input node |
| Executors.DecimalRoundTrip | machines/flowMachine.ts:30 | the decimal text of a status reads back as that status |
| Executors.HttpErrorNamesStatus | machines/flowMachine.ts:30 | the message `HTTP <status>` determines the status it failed with |
| Executors.HttpOutcome | machines/flowMachine.ts:25-31 | success exactly on a 2xx response that is read as text or parses as JSON; a non-2xx status fails with `HTTP <status>`; `text` gives the body text, any other type the parsed JSON; with any other type a 2xx body that does not parse fails with the parse error; transport errors pass through |
| Executors.GeminiOutcome | machines/flowMachine.ts:46-87 | a key `atob` rejects fails with its message; an absent or empty key fails with `Gemini API key not configured`; a template error fails with its message; success exactly on a 2xx reply with a key, a rendered prompt and a JSON body, and then the first candidate's text when truthy, `No response` otherwise; an error reply fails with `Gemini API error: ` and the provider's message or the status text, a body that is not JSON fails with its parse error and a `null` body with the `TypeError` of reading its first field, on any status; transport errors pass through |
| Executors.PuterOutcome | machines/flowMachine.ts:101-115 | fails exactly when the template or the call throws or the call yields `null`/`undefined`: with `Puter error: <error>`, `undefined` for template errors, nullish responses and values without an `error` field, and with the handler's own `TypeError` message when the thrown value is nullish; a success is the content when truthy, whatever its kind, and the whole response otherwise |
| Executors.PuterFailureNamesCause | machines/flowMachine.ts:110-115 | unless a nullish value was thrown, the text after `Puter error: ` is exactly the thrown value's `error` field, or `undefined` |
| FlowSpec.Route | machines/flowMachine.ts:150-161 | the guard chain routes a found node by its type (the table of `TypeTarget`), a null id to `completed`, and an unknown id to `stopped` on STOP and nowhere otherwise |
| FlowSpec.Land | machines/flowMachine.ts:152-160 | leaving `evaluating` keeps answers and statuses, and `isStopped` clears the current id |
| FlowSpec.NoOutgoingEdges | machines/flowMachine.ts:392-394 | a node no edge leaves has no connected edges |
| FlowSpec.OutgoingIsFilter | machines/flowMachine.ts:392-394 | the connected edges are exactly the edges leaving the node |
| FlowSpec.PickNoneIffNoEligible | machines/flowMachine.ts:396-415 | the loop finds no target exactly when no connected edge is eligible |
| FlowSpec.NextNodeFromStart | machines/flowMachine.ts:384-389 | with no current node the next node is a non-empty id of an input node, and null exactly when there is no input node or the first has an empty id |
| FlowSpec.NextNodeNoneIffNoEligible | machines/flowMachine.ts:392-417 | from a node, the next node is null exactly when no edge leaving it is eligible (unconditioned, or its condition evaluates true) |
| FlowSpec.FirstEligibleEdgeWins | machines/flowMachine.ts:396-415 | the first eligible edge in declared order decides, whatever later edges say |
| FlowSpec.ChosenEdgeIsFirstEligible | machines/flowMachine.ts:396-415 | whatever target is chosen is that of the first eligible edge |
| FlowSpec.ChosenEdgeIndex | machines/flowMachine.ts:396-415 | gives the index of that first eligible edge |
| FlowSpec.PickOutgoingUnfold | machines/flowMachine.ts:396-412 | one loop iteration: an eligible first edge leaving the node decides, otherwise the rest do |
| FlowSpec.HttpInvocation | machines/flowMachine.ts:187-198 | the input is refused with `Invalid node` exactly when the current node is not an HTTP node |
| FlowSpec.GeminiInvocation | machines/flowMachine.ts:229-241 | refused with `Invalid node` exactly when the current node is not a Gemini node; the input carries the current answers |
| FlowSpec.PuterInvocation | machines/flowMachine.ts:272-283 | refused with `Invalid node` exactly when the current node is not a Puter node; the input carries the current answers |
| FlowSpec.FittingPayloadsGiveTypedInputs | types/flow.ts:68-107 | when the current node's payload fits its interface, each executor's input fields have the declared types |
| FlowSpec.StartNode | machines/flowMachine.ts:384-388 | `startNode?.id \|\| null`; characterised by `FlowSpec.NextNodeFromStart` |
| FlowSpec.HasCondition | machines/flowMachine.ts:397 | `edge.data?.condition` is truthy: the edge carries a non-empty condition |
| FlowSpec.Eligible | machines/flowMachine.ts:397-414 | an edge is taken when it has no condition or its condition evaluates true; the loop over it is characterised by `FlowSpec.PickNoneIffNoEligible` and `FlowSpec.FirstEligibleEdgeWins` |
| FlowSpec.NextNode | machines/flowMachine.ts:380-418 | `findNextNode`; characterised by `FlowSpec.NextNodeFromStart`, `FlowSpec.NextNodeNoneIffNoEligible`, `FlowSpec.FirstEligibleEdgeWins` and `FlowSpec.ChosenEdgeIsFirstEligible`, and computed by `FlowEngine.FindNextNode` |
| FlowSpec.Mark | machines/flowMachine.ts:420-434 | `markNodeAsExecuted`/`markNodeAsError`: sets the current node's status unless the id is falsy, as the `FlowEngine.FlowMachine.MarkNodeAs*` methods state |
| FlowSpec.Enter | machines/flowMachine.ts:150-151 | entering `evaluating` runs `findNextNode`, as `FlowEngine.FlowMachine.EnterEvaluating` states |
| FlowSpec.Settle | machines/flowMachine.ts:150-161 | the eventless transitions of `evaluating` and `executing`; its properties are `FlowProperties.SettleConsistent`, `SettleKeepsAnswers`, `SettleMarksOnlyAutoNodes`, `SettleIgnoresStatuses` and `SettleStopsOnlyOnStop` |
| FlowSpec.Step | machines/flowMachine.ts:135-328 | the reaction to one event; its properties are the `FlowProperties` lemmas, and each `FlowEngine.FlowMachine` event method equals it |
| FlowTypes.Truthy | machines/flowMachine.ts:169 | JavaScript truthiness, used by `if (event.answer)`, `\|\|` and the edge conditions |
| FlowTypes.PayloadFits | types/flow.ts:56-107 | the payload interfaces; used by `FlowSpec.FittingPayloadsGiveTypedInputs` |
| FlowProperties.Consistent | machines/flowMachine.ts:150-161 | the invariant: waiting and processing states sit on a node of the matching type, `completed` has no current node, the transient states are never at rest; kept by `FlowProperties.StepConsistent` |
| FlowProperties.InitialConsistent | machines/flowMachine.ts:119-132 | a new machine satisfies the invariant |
| FlowProperties.SettleConsistent | machines/flowMachine.ts:150-161 | the eventless transitions keep the invariant |
| FlowProperties.StepConsistent | machines/flowMachine.ts:135-328 | every event keeps it: waiting and processing states sit on a node of the matching type, `completed` has no current node |
| FlowProperties.InvocationsAreReady | machines/flowMachine.ts:187-192 | in a processing state of a consistent machine the executor's input is built, never `Invalid node` |
| FlowProperties.SettleKeepsAnswers | machines/flowMachine.ts:311-314 | passing through `executing` never writes an answer |
| FlowProperties.SettleMarksOnlyAutoNodes | machines/flowMachine.ts:420-427 | the eventless transitions only mark input/output nodes `executed` and change no other status |
| FlowProperties.OnlyAutoNodesExecutedTransitive | machines/flowMachine.ts:311-314 | that relation composes over successive passes |
| FlowProperties.SettleIgnoresStatuses | machines/flowMachine.ts:333-376 | routing never reads statuses: two configurations differing only in statuses follow the same path |
| FlowProperties.SettleStopsOnlyOnStop | machines/flowMachine.ts:372-376 | without STOP the eventless transitions never reach `stopped` |
| FlowProperties.AnswerRecorded | machines/flowMachine.ts:165-177 | ANSWER stores a truthy answer under the event's node id (a falsy one is dropped) and marks the current node executed |
| FlowProperties.ExecDoneRecorded | machines/flowMachine.ts:199-209 | `onDone` stores the output under the current node and marks it executed |
| FlowProperties.ExecErrorRecorded | machines/flowMachine.ts:210-222 | `onError` stores `{error: message}` under the current node and leaves it in `error` |
| FlowProperties.ExecErrorIsNotFatal | machines/flowMachine.ts:210-222 | after a failure the run goes on exactly as after a success returning `{error: message}` |
| FlowProperties.OnlyStopStops | machines/flowMachine.ts:178-180 | a run that ends up in `stopped` got there through STOP |
| FlowProperties.UnhandledEventsAreIgnored | machines/flowMachine.ts:322-328 | at rest, an event the state does not list changes nothing (terminal states take only RESET, COMPLETE is never handled, STOP is ignored while processing) |
| FlowProperties.StopWhileWaiting | machines/flowMachine.ts:178-180 | STOP while waiting goes to `stopped` and changes nothing else |
| FlowProperties.ResetKeepsStore | machines/flowMachine.ts:322-328 | RESET from `completed`/`stopped` goes to `idle` and keeps answers, statuses and current id |
| FlowProperties.StartWithoutInputCompletes | machines/flowMachine.ts:380-389 | START when there is no input node, or the first has an empty id, completes at once, recording nothing |
| FlowProperties.StartAloneCompletes | machines/flowMachine.ts:384-418 | for any diagram, START with a first input node that no edge leaves runs that node and completes at once: answers unchanged, only that node's status set to executed |
| FlowProperties.LastAutoNodeCompletes | machines/flowMachine.ts:150-161 | an input or output node that no edge leaves, once `evaluating` reaches it, is marked executed and the run completes with no current node and the answers unchanged |
| FlowProperties.StartEntersFirstInput | machines/flowMachine.ts:384-389 | START begins at the first input node |
| FlowEngine.FindNextNode | machines/flowMachine.ts:380-418 | the edge loop with `break` computes `NextNode` |
| FlowEngine.FlowStore.ClearRun | components/ExecutionPanel.tsx:21-23 | clears the current id, the answers and the statuses, nothing else |
| FlowEngine.FlowMachine.constructor | machines/flowMachine.ts:130-132 | a machine in `idle` whose context starts from the store's current id and whose START value is the given seed; it is consistent |
| FlowEngine.FlowMachine.EnterEvaluating | machines/flowMachine.ts:150-151 | entering `evaluating` sets the current node to `NextNode` |
| FlowEngine.FlowMachine.MarkNodeAsExecuted | machines/flowMachine.ts:420-427 | marks the current node executed unless its id is falsy |
| FlowEngine.FlowMachine.MarkNodeAsError | machines/flowMachine.ts:429-434 | marks the current node as error unless its id is falsy |
| FlowEngine.FlowMachine.Land | machines/flowMachine.ts:152-160 | takes the chosen non-executing transition |
| FlowEngine.FlowMachine.Settle | machines/flowMachine.ts:150-161 | the eventless transitions, as `FlowSpec.Settle` |
| FlowEngine.FlowMachine.PassExecuting | machines/flowMachine.ts:311-314 | `executing` marks its node and re-enters `evaluating` |
| FlowEngine.FlowMachine.Start | machines/flowMachine.ts:135-144 | START as `Step` says; keeps the invariant |
| FlowEngine.FlowMachine.Answer | machines/flowMachine.ts:165-177 | ANSWER as `Step` says; keeps the invariant |
| FlowEngine.FlowMachine.Stop | machines/flowMachine.ts:178-180 | STOP as `Step` says; keeps the invariant |
| FlowEngine.FlowMachine.Reset | machines/flowMachine.ts:322-328 | RESET as `Step` says; keeps the invariant |
| FlowEngine.FlowMachine.Complete | machines/flowMachine.ts:12-17 | COMPLETE, declared but never handled, as `Step` says |
| FlowEngine.FlowMachine.ExecDone | machines/flowMachine.ts:199-209 | an executor's success as `Step` says; keeps the invariant |
| FlowEngine.FlowMachine.ExecError | machines/flowMachine.ts:210-222 | an executor's failure as `Step` says; keeps the invariant |
| ExecutionPanel.StartClick | components/ExecutionPanel.tsx:37-41 | marks the first input node running, then sends START |
| ExecutionPanel.StartNodeEndsExecuted | components/ExecutionPanel.tsx:37-41 | the start node's `running` badge is replaced by `executed` within the same START |
| ExecutionPanel.HandleReset | components/ExecutionPanel.tsx:18-25 | only a `completed` or `stopped` run is reset: RESET, then current id, answers and statuses cleared; otherwise nothing changes |
| ExecutionPanel.ShownResults | components/ExecutionPanel.tsx:66-77 | a result is shown exactly when it is declared with non-empty label and value and its value holds |
| ExecutionPanel.ShownResultsAppend | components/ExecutionPanel.tsx:67-77 | the shown results keep declared order |
| ExecutionPanel.ResultsToShow | components/ExecutionPanel.tsx:63-77 | the loop fails exactly when a considered result's evaluation throws, and otherwise yields `ShownResults`, copied verbatim |
| ExecutionPanel.Classify | components/ExecutionPanel.tsx:85-106 | valid exactly when the node exists, its `valid` field is not `""` and that expression holds; it throws exactly when that expression is evaluated and throws, and is invalid in every other case |
| ExecutionPanel.AnswersToShow | components/ExecutionPanel.tsx:79-107 | one entry per answer key, ids distinct and covering the keys, each answer unchanged and classified by `Classify`; fails exactly when a classification throws |
| DiagramData.LoadableType | components/diagrams/DiagramData.tsx:39-88 | the switch knows exactly six tags, each parsed to its node type, never `puter` |
| DiagramData.LoadNode | components/diagrams/DiagramData.tsx:39-88 | a known tag gives a node with the same id, type, position and payload; any other gives none |
| DiagramData.Loaded | components/diagrams/DiagramData.tsx:36-91 | every stored node of a known type is loaded, no `puter` node is |
| DiagramData.LoadedFromStored | components/diagrams/DiagramData.tsx:36-91 | every loaded node comes from a stored node of a known type |
| DiagramData.LoadedAppend | components/diagrams/DiagramData.tsx:38-89 | loading keeps input order |
| DiagramData.BuildNodes | components/diagrams/DiagramData.tsx:36-91 | the loop computes `Loaded` |
| DiagramData.LoadEdge | components/diagrams/DiagramData.tsx:96-99 | id, source, target copied; `data` present exactly when the stored condition is non-empty, holding it |
| DiagramData.LoadEdgeKeepsGuard | components/diagrams/DiagramData.tsx:97-99 | a loaded edge is guarded exactly when its stored condition is non-empty |
| DiagramData.BuildEdges | components/diagrams/DiagramData.tsx:93-103 | one loaded edge per stored edge, in order |
| DiagramData.DiagramEntry.constructor | components/diagrams/DiagramData.tsx:19-26 | the entry holds its diagram, the machine and the edit id |
| DiagramData.DiagramEntry.HandleReset | components/diagrams/DiagramData.tsx:105-113 | resets only a `completed` run, not a `stopped` one |
| DiagramData.DiagramEntry.SelectDiagram | components/diagrams/DiagramData.tsx:115-125 | selections cleared, diagram loaded, results or `[]`, completed run reset, the machine's current id kept, edit id set |
| DiagramData.DiagramEntry.UnselectDiagram | components/diagrams/DiagramData.tsx:127-137 | selections, nodes, edges, results cleared, viewport `{0,0,1}`, completed run reset, the machine's current id kept, edit id null |
| SchemaIssues.LengthIssues | lib/validations/diagram.validation.ts:42-45 | no issue exactly within the bounds; the min message below, the max message above |
| SchemaIssues.RequiredIssues | lib/validations/diagram.validation.ts:4-5 | no issue exactly for a non-empty string |
| SchemaIssues.EachIssues | lib/validations/diagram.validation.ts:51-53 | an array raises no issue exactly when no element does |
| SchemaIssues.OptionalIssues | lib/validations/diagram.validation.ts:50-54 | an absent optional field raises no issue |
| DiagramValidation.ResultIssues | lib/validations/diagram.validation.ts:3-7 | no issue exactly when label and value are non-empty |
| DiagramValidation.NodeIssues | lib/validations/diagram.validation.ts:19-25 | no issue exactly when id and type are non-empty |
| DiagramValidation.EdgeIssues | lib/validations/diagram.validation.ts:27-33 | no issue exactly when id, source and target are non-empty |
| DiagramValidation.TitleIssues | lib/validations/diagram.validation.ts:42-45 | no issue exactly for 1 to 100 characters |
| DiagramValidation.DescriptionIssues | lib/validations/diagram.validation.ts:46-49 | no issue exactly for 1 to 500 characters |
| DiagramValidation.PartsIssues | lib/validations/diagram.validation.ts:51-53 | no issue exactly when every present array has only valid elements |
| DiagramValidation.ArrayIssuesEmpty | lib/validations/diagram.validation.ts:51-53 | an optional array is clean exactly when absent or all its elements are valid |
| DiagramValidation.CreateIssues | lib/validations/diagram.validation.ts:41-55 | no issue exactly when the create body is valid |
| DiagramValidation.UpdateIssues | lib/validations/diagram.validation.ts:57-73 | no issue exactly when the update body is valid; absent fields are skipped through `SchemaIssues.OptionalIssues` |
| DiagramValidation.UpdateAgreesWithCreate | lib/validations/diagram.validation.ts:57-73 | with every field present the update schema reports exactly the create schema's issues |
| DiagramValidation.LengthBoundsAreTight | lib/validations/diagram.validation.ts:42-45 | 100 characters pass, 101 give the too-long message, an empty title the required message |
| UserValidation.RangeIssues | lib/validations/user.validation.ts:9-12 | no issue exactly within the range, at most one issue |
| UserValidation.UserIssues | lib/validations/user.validation.ts:3-14 | no issue exactly when name is 3 to 50 characters, the email passes, role is in [0, 1] and status is at least 0 |
| UserValidation.UserIssueMessages | lib/validations/user.validation.ts:4-7 | a short or long name reports only its own message |
| FlowScenarios.QuestionFlowWaits | machines/flowMachine.ts:135-161 | input -> question -> output: START runs the input and waits at the question |
| FlowScenarios.QuestionFlowCompletes | machines/flowMachine.ts:163-177 | answering records `answers.b`, runs the output and completes with no current node |
| FlowScenarios.AnswerEntersOutput | machines/flowMachine.ts:165-177 | the answered question leads to the output node |
| FlowScenarios.OutputCompletes | machines/flowMachine.ts:311-314 | the output node runs and the run completes |
| FlowScenarios.FalseConditionFallsThrough | machines/flowMachine.ts:396-415 | a false condition is passed over for the next, unconditioned edge |
| FlowScenarios.ServerErrorFails | machines/flowMachine.ts:30 | a response with status 500 fails with exactly `HTTP 500` |
| FlowScenarios.FailedRequestContinues | machines/flowMachine.ts:210-222 | status 500 gives `HTTP 500`, the node shows `error`, `{error: "HTTP 500"}` is recorded and the run continues |
| FlowScenarios.LoneInputCompletes | machines/flowMachine.ts:384-389 | one concrete lone input node completes at once with no answers (the general statement is `FlowProperties.StartAloneCompletes`) |

## Left out

- FlowSpec.Settle: the eventless chain through input and output nodes is bounded by |nodes| + 1 passes per event. A diagram whose input and output nodes form a cycle makes xstate loop forever. The model instead stops in `evaluating` when the bound runs out. Every diagram without such a cycle stays within the bound.
- ExecutionPanel.AnswersToShow: the entries follow the key order of `Object.keys`. That order puts integer-like keys first, ascending, then the other keys in insertion order. The model leaves it open, so the contract fixes the set of entries, not their order.
- FlowEngine.FlowStore.ClearRun: store/flowStore is not part of this model. `resetNodeStatuses` is modelled as emptying the status map, since a node without an entry shows as idle.
- Network I/O (`fetch`, the Gemini REST call, `puter.ai.chat`): each executor takes the reply it got as an input.
- The Gemini request: the rendered prompt, the model URL and the temperature default of 1.0 are not modelled.
- Executors.GeminiOutcome: the provider's `error.message` is taken as a string. A non-string value, which the template literal would stringify, is not modelled.
- Stored nodes are assumed to carry a `data` record, as the `MyNode` type requires (types/flow.ts:109-116), and a node stored without one is read as having an empty record. The validation schema accepts a node without `data`, and `buildNodes` forwards it with a cast. The source then throws a `TypeError` where the model reads `undefined` fields: on `n.data.valid` in the results panel, and when the executors' inputs are built. Those throws are not modelled.
- Handlebars template rendering: a foreign library. The prompt text only matters through whether rendering throws, and the model takes that as an input (`Rendering`), with the thrown message.
- `localStorage`/`atob`: browser I/O. The model sees the stored key as absent, decoded, or rejected by `atob` with a message.
- The HTTP executor's `response.text()` rejecting is not modelled; only `response.json()` failing to parse is.
- `evaluateCondition`: arbitrary JavaScript evaluation. It is a parameter.
- xstate scheduling and async timing: each event is one atomic method. The asynchronous invocation is the pair of events `ExecDone`/`ExecError`.
- `console.log`/`console.error` calls: logging only.
- The unused guard `isOutputNode` and the empty action `updateAnswer`: neither is referenced by any transition.
- `GEMINI_MODELS`, `PUTER_MODELS` and the option types `QuestionOption`, `GeminiModel`, `PuterModel`: model catalogues used only by the editor UI.
- zod type errors (a number where a string is expected, and so on): drafts are typed values, so only the length and range constraints are modelled. `z.email` is a parameter.
- Numbers are reals, without NaN or infinities. Validated roles and statuses may therefore be fractional, as zod allows.
- String lengths count Dafny characters. JavaScript counts UTF-16 code units, so the two differ outside the Basic Multilingual Plane.
- The rendering of the React components (markup, icons, dialogs) and the `running` label of the execution panel: presentation only.
- Auth, routes, session and DB code: outside the engine.
