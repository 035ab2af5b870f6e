/** The flow execution machine (`flowMachine`) as pure functions: its states and events, the guards,
    the actions, and `Step`, the whole reaction of the machine to one event, eventless transitions
    included. The class in module FlowMachine is proved to behave as `Step` says. */
module FlowSpec {
  import opened Wrappers
  import opened FlowTypes
  import opened Executors

  /** The sub-states of `running`; `Halting` is the sub-state named `stopped`. */
  datatype Substate =
    | Evaluating
    | WaitingInput
    | ProcessingHttp
    | ProcessingGemini
    | ProcessingPuter
    | Executing
    | Halting

  /** The top-level states. */
  datatype State = Idle | Running(sub: Substate) | Completed | Stopped

  /** `FlowEvent`, plus the completion and failure of an invoked executor. */
  datatype Event =
    | Start
    | Answer(nodeId: string, answer: Value)
    | Complete
    | Reset
    | Stop
    | ExecDone(output: Value)
    | ExecError(message: string)

  /** What the machine reads but does not write: the store's nodes and edges, the condition
      evaluator, and `seed`, the store's current node id as it was when the machine was defined
      (the START action assigns that value, read once when the module loads). */
  datatype Env = Env(nodes: seq<Node>, edges: seq<Edge>, eval: Evaluator, seed: Option<string>)

  /** The machine's state tag and context, and the store entries it writes. */
  datatype Config = Config(state: State, current: Option<string>, answers: Answers, statuses: Statuses)

  predicate Processing(s: State) {
    s == State.Running(ProcessingHttp) || s == State.Running(ProcessingGemini) || s == State.Running(ProcessingPuter)
  }

  predicate Terminal(s: State) {
    s == Completed || s == Stopped
  }

  /** An id JavaScript treats as false: `null` or the empty string. */
  predicate Falsy(id: Option<string>) {
    id.None? || id.value == ""
  }

  // ---------------------------------------------------------------------------------------------
  // Guards

  predicate NodeIs(nodes: seq<Node>, current: Option<string>, t: NodeType) {
    var n := FindNode(nodes, current);
    n.Some? && n.value.nodeType == t
  }

  predicate IsAutoExecutableNode(nodes: seq<Node>, current: Option<string>) {
    NodeIs(nodes, current, Input) || NodeIs(nodes, current, Output)
  }

  predicate IsQuestionNode(nodes: seq<Node>, current: Option<string>) {
    NodeIs(nodes, current, Question) || NodeIs(nodes, current, GeminiInfo)
  }

  predicate IsHttpNode(nodes: seq<Node>, current: Option<string>) { NodeIs(nodes, current, HttpRequest) }
  predicate IsGeminiNode(nodes: seq<Node>, current: Option<string>) { NodeIs(nodes, current, Gemini) }
  predicate IsPuterNode(nodes: seq<Node>, current: Option<string>) { NodeIs(nodes, current, Puter) }
  predicate NoMoreNodes(current: Option<string>) { current.None? }

  /** Where the eventless transitions of `evaluating` lead. */
  datatype Target =
    | ToExecuting
    | ToWaitingInput
    | ToHttp
    | ToGemini
    | ToPuter
    | ToCompleted
    | ToStopped
    | NoTransition

  /** The routing table by node type. */
  function TypeTarget(t: NodeType): Target {
    match t
    case Input => ToExecuting
    case Output => ToExecuting
    case Question => ToWaitingInput
    case GeminiInfo => ToWaitingInput
    case HttpRequest => ToHttp
    case Gemini => ToGemini
    case Puter => ToPuter
  }

  /** The guards of `evaluating`, tried in declared order; the first that holds decides.
      `stopEvent` tells whether the event being processed is STOP (guard `isStopped`). */
  function Route(nodes: seq<Node>, current: Option<string>, stopEvent: bool): (r: Target)
    ensures FindNode(nodes, current).Some? ==> r == TypeTarget(FindNode(nodes, current).value.nodeType)
    ensures FindNode(nodes, current).None? && current.None? ==> r == ToCompleted
    ensures FindNode(nodes, current).None? && current.Some? ==> r == (if stopEvent then ToStopped else NoTransition)
  {
    if IsAutoExecutableNode(nodes, current) then ToExecuting
    else if IsQuestionNode(nodes, current) then ToWaitingInput
    else if IsHttpNode(nodes, current) then ToHttp
    else if IsGeminiNode(nodes, current) then ToGemini
    else if IsPuterNode(nodes, current) then ToPuter
    else if NoMoreNodes(current) then ToCompleted
    else if stopEvent then ToStopped
    else NoTransition
  }

  // ---------------------------------------------------------------------------------------------
  // findNextNode

  /** `edge.data?.condition` is truthy. */
  predicate HasCondition(e: Edge) {
    e.data.Some? && e.data.value.condition.Some? && e.data.value.condition.value != ""
  }

  /** An edge is taken when it has no (or an empty) condition, or when its condition evaluates to
      true; a condition that throws is skipped. */
  predicate Eligible(e: Edge, answers: Answers, eval: Evaluator) {
    !HasCondition(e) || eval(Str(e.data.value.condition.value), answers) == Some(true)
  }

  /** `edges.filter((e) => e.source === id)`, in declared order. */
  function Outgoing(edges: seq<Edge>, id: string): seq<Edge> {
    if |edges| == 0 then []
    else (if edges[0].source == id then [edges[0]] else []) + Outgoing(edges[1..], id)
  }

  /** The connected edges are exactly the edges leaving the node. */
  lemma {:induction false} OutgoingIsFilter(edges: seq<Edge>, id: string)
    ensures forall e :: e in Outgoing(edges, id) <==> e in edges && e.source == id
  {
    if |edges| > 0 {
      OutgoingIsFilter(edges[1..], id);
      assert edges == [edges[0]] + edges[1..];
    }
  }

  /** A node no edge leaves has no connected edges. */
  lemma {:induction false} NoOutgoingEdges(edges: seq<Edge>, id: string)
    requires forall e :: e in edges ==> e.source != id
    ensures Outgoing(edges, id) == []
  {
    if |edges| > 0 {
      assert edges[0] in edges;
      NoOutgoingEdges(edges[1..], id);
    }
  }

  /** The loop over the connected edges: the target of the first eligible one. */
  function Pick(connected: seq<Edge>, answers: Answers, eval: Evaluator): Option<string> {
    if |connected| == 0 then None
    else if Eligible(connected[0], answers, eval) then Some(connected[0].target)
    else Pick(connected[1..], answers, eval)
  }

  /** The loop finds no target exactly when no connected edge is eligible. */
  lemma {:induction false} PickNoneIffNoEligible(connected: seq<Edge>, answers: Answers, eval: Evaluator)
    ensures Pick(connected, answers, eval).None? <==> forall e :: e in connected ==> !Eligible(e, answers, eval)
  {
    if |connected| > 0 {
      PickNoneIffNoEligible(connected[1..], answers, eval);
      assert connected == [connected[0]] + connected[1..];
    }
  }

  /** `startNode?.id || null`: the id of the first `input` node, unless it is empty. */
  function StartNode(nodes: seq<Node>): Option<string> {
    match FirstOfType(nodes, Input)
    case Some(n) => if n.id != "" then Some(n.id) else None
    case None => None
  }

  /** The entry action of `evaluating`: with no current node, the start node; otherwise the target
      of the first eligible edge leaving the current node, or null. */
  function NextNode(nodes: seq<Node>, edges: seq<Edge>, current: Option<string>, answers: Answers, eval: Evaluator)
    : Option<string>
  {
    if Falsy(current) then StartNode(nodes)
    else Pick(Outgoing(edges, current.value), answers, eval)
  }

  /** With no current node the next node is a non-empty id of an input node, and there is none
      exactly when the diagram has no input node or the first one has an empty id. */
  lemma NextNodeFromStart(nodes: seq<Node>, edges: seq<Edge>, current: Option<string>, answers: Answers, eval: Evaluator)
    requires Falsy(current)
    ensures var r := NextNode(nodes, edges, current, answers, eval);
      && (r.Some? ==> r.value != "" && exists n :: n in nodes && n.nodeType == Input && n.id == r.value)
      && (r.None? <==> FirstOfType(nodes, Input).None? || FirstOfType(nodes, Input).value.id == "")
  {
  }

  /** From a current node, the next node is null exactly when no edge leaving it is eligible. */
  lemma NextNodeNoneIffNoEligible(nodes: seq<Node>, edges: seq<Edge>, id: string, answers: Answers, eval: Evaluator)
    requires id != ""
    ensures NextNode(nodes, edges, Some(id), answers, eval).None? <==>
      forall k :: 0 <= k < |edges| && edges[k].source == id ==> !Eligible(edges[k], answers, eval)
  {
    var connected := Outgoing(edges, id);
    OutgoingIsFilter(edges, id);
    PickNoneIffNoEligible(connected, answers, eval);
    if NextNode(nodes, edges, Some(id), answers, eval).None? {
      forall k | 0 <= k < |edges| && edges[k].source == id
        ensures !Eligible(edges[k], answers, eval)
      {
        assert edges[k] in connected;
      }
    }
  }

  /** Edge `k` is the first eligible edge leaving `id` in declared order. */
  predicate FirstEligibleAt(edges: seq<Edge>, id: string, answers: Answers, eval: Evaluator, k: nat) {
    && k < |edges|
    && edges[k].source == id
    && Eligible(edges[k], answers, eval)
    && forall j :: 0 <= j < k && edges[j].source == id ==> !Eligible(edges[j], answers, eval)
  }

  /** One step of the edge loop: the first edge decides if it leaves `id` and is eligible. */
  lemma PickOutgoingUnfold(edges: seq<Edge>, id: string, answers: Answers, eval: Evaluator)
    requires |edges| > 0
    ensures Pick(Outgoing(edges, id), answers, eval) ==
      if edges[0].source == id && Eligible(edges[0], answers, eval) then Some(edges[0].target)
      else Pick(Outgoing(edges[1..], id), answers, eval)
  {
    if edges[0].source == id {
      var rest := Outgoing(edges[1..], id);
      assert ([edges[0]] + rest)[1..] == rest;
    } else {
      assert Outgoing(edges, id) == Outgoing(edges[1..], id);
    }
  }

  /** The first eligible edge wins, whatever the later edges say. */
  lemma {:induction false} FirstEligibleEdgeWins(nodes: seq<Node>, edges: seq<Edge>, id: string, answers: Answers, eval: Evaluator, k: nat)
    requires id != ""
    requires FirstEligibleAt(edges, id, answers, eval, k)
    ensures NextNode(nodes, edges, Some(id), answers, eval) == Some(edges[k].target)
  {
    PickOutgoingUnfold(edges, id, answers, eval);
    if k > 0 {
      assert FirstEligibleAt(edges[1..], id, answers, eval, k - 1) by {
        forall j | 0 <= j < k - 1 && edges[1..][j].source == id
          ensures !Eligible(edges[1..][j], answers, eval)
        {
          assert edges[1..][j] == edges[j + 1];
        }
      }
      FirstEligibleEdgeWins(nodes, edges[1..], id, answers, eval, k - 1);
    }
  }

  /** Conversely, whatever edge is chosen is the first eligible one. */
  lemma {:induction false} ChosenEdgeIsFirstEligible(nodes: seq<Node>, edges: seq<Edge>, id: string, answers: Answers, eval: Evaluator)
    requires id != ""
    requires NextNode(nodes, edges, Some(id), answers, eval).Some?
    ensures exists k: nat :: FirstEligibleAt(edges, id, answers, eval, k) && edges[k].target == NextNode(nodes, edges, Some(id), answers, eval).value
  {
    var k := ChosenEdgeIndex(edges, id, answers, eval);
  }

  lemma {:induction false} ChosenEdgeIndex(edges: seq<Edge>, id: string, answers: Answers, eval: Evaluator) returns (k: nat)
    requires Pick(Outgoing(edges, id), answers, eval).Some?
    ensures FirstEligibleAt(edges, id, answers, eval, k) && edges[k].target == Pick(Outgoing(edges, id), answers, eval).value
  {
    PickOutgoingUnfold(edges, id, answers, eval);
    if edges[0].source == id && Eligible(edges[0], answers, eval) {
      k := 0;
    } else {
      var j := ChosenEdgeIndex(edges[1..], id, answers, eval);
      k := j + 1;
      forall i | 0 <= i < k && edges[i].source == id
        ensures !Eligible(edges[i], answers, eval)
      {
        if i > 0 { assert edges[i] == edges[1..][i - 1]; }
      }
    }
  }

  // ---------------------------------------------------------------------------------------------
  // Actions and the eventless transitions

  /** `markNodeAsExecuted` / `markNodeAsError`: set the current node's status, unless the current
      id is falsy. */
  function Mark(c: Config, s: NodeStatus): Config {
    if !Falsy(c.current) then c.(statuses := c.statuses[c.current.value := s]) else c
  }

  /** `context.currentNodeId as string` used as a key: a null id becomes the key "null". */
  function KeyOf(current: Option<string>): string {
    if current.Some? then current.value else "null"
  }

  /** Entering `evaluating` runs `findNextNode`. */
  function Enter(env: Env, c: Config): Config {
    c.(state := State.Running(Evaluating), current := NextNode(env.nodes, env.edges, c.current, c.answers, env.eval))
  }

  /** How many passes through `executing` one event may cause. A diagram whose input and output
      nodes form a cycle makes the source loop forever; the model stops after this many passes. */
  function Fuel(env: Env): nat {
    |env.nodes| + 1
  }

  /** Taking an eventless transition of `evaluating` that does not pass through `executing`:
      only the state tag changes, and the current node id when `isStopped` clears it. */
  function Land(c: Config, t: Target): (r: Config)
    requires t != ToExecuting
    ensures r.answers == c.answers && r.statuses == c.statuses
    ensures r.current == (if t == ToStopped then None else c.current)
  {
    match t
    case ToWaitingInput => c.(state := State.Running(WaitingInput))
    case ToHttp => c.(state := State.Running(ProcessingHttp))
    case ToGemini => c.(state := State.Running(ProcessingGemini))
    case ToPuter => c.(state := State.Running(ProcessingPuter))
    case ToCompleted => c.(state := Completed)
    case ToStopped => c.(state := Stopped, current := None)
    case NoTransition => c
  }

  /** The eventless (`always`) transitions, taken until the machine rests: `evaluating` routes,
      `executing` marks its node and re-enters `evaluating`, `running.stopped` leaves for `stopped`. */
  function Settle(env: Env, c: Config, stopEvent: bool, fuel: nat): Config
    decreases fuel
  {
    if c.state == State.Running(Evaluating) then
      var t := Route(env.nodes, c.current, stopEvent);
      if t != ToExecuting then Land(c, t)
      else if fuel == 0 then c
      else Settle(env, Enter(env, Mark(c, NodeStatus.Executed)), stopEvent, fuel - 1)
    else if c.state == State.Running(Executing) then
      if fuel == 0 then c else Settle(env, Enter(env, c), stopEvent, fuel - 1)
    else if c.state == State.Running(Halting) then c.(state := Stopped)
    else c
  }

  /** The machine's reaction to one event: the transition the event selects, its actions, the
      entry action of the target, then the eventless transitions. */
  function Step(env: Env, c: Config, ev: Event): Config {
    match ev
    case Start =>
      if c.state == State.Idle then Settle(env, Enter(env, c.(current := env.seed)), false, Fuel(env))
      else Settle(env, c, false, Fuel(env))
    case Answer(id, v) =>
      if c.state == State.Running(WaitingInput) then
        var recorded := if Truthy(v) then c.(answers := c.answers[id := v]) else c;
        Settle(env, Enter(env, Mark(recorded, NodeStatus.Executed)), false, Fuel(env))
      else Settle(env, c, false, Fuel(env))
    case Stop =>
      if c.state == State.Running(WaitingInput) then c.(state := Stopped)
      else Settle(env, c, true, Fuel(env))
    case Reset =>
      if Terminal(c.state) then c.(state := State.Idle) else Settle(env, c, false, Fuel(env))
    case Complete =>
      Settle(env, c, false, Fuel(env))
    case ExecDone(v) =>
      if Processing(c.state) then
        Settle(env, Enter(env, Mark(c.(answers := c.answers[KeyOf(c.current) := v]), NodeStatus.Executed)), false, Fuel(env))
      else Settle(env, c, false, Fuel(env))
    case ExecError(m) =>
      if Processing(c.state) then
        Settle(env, Enter(env, Mark(c.(answers := c.answers[KeyOf(c.current) := ErrorPayload(m)]), NodeStatus.Error)), false, Fuel(env))
      else Settle(env, c, false, Fuel(env))
  }

  /** Turns an executor outcome into the event the machine receives. */
  function Deliver(o: Outcome): Event {
    match o
    case Done(v) => ExecDone(v)
    case Failed(m) => ExecError(m)
  }

  // ---------------------------------------------------------------------------------------------
  // Inputs of the invoked executors

  const INVALID_NODE: string := "Invalid node"

  /** What an `invoke.input` function returns: the executor's input, or the error it throws. */
  datatype Invocation<T> = Ready(input: T) | Invalid(message: string)

  function HttpInvocation(nodes: seq<Node>, current: Option<string>): (r: Invocation<HttpInput>)
    ensures r.Invalid? <==> !IsHttpNode(nodes, current)
    ensures r.Invalid? ==> r.message == INVALID_NODE
  {
    var n := FindNode(nodes, current);
    if n.None? || n.value.nodeType != HttpRequest then Invalid(INVALID_NODE)
    else Ready(HttpInput(Field(n.value.data, "endpoint"), Field(n.value.data, "method"), Field(n.value.data, "responseType")))
  }

  function GeminiInvocation(nodes: seq<Node>, current: Option<string>, answers: Answers): (r: Invocation<GeminiInput>)
    ensures r.Invalid? <==> !IsGeminiNode(nodes, current)
    ensures r.Invalid? ==> r.message == INVALID_NODE
    ensures r.Ready? ==> r.input.answers == answers
  {
    var n := FindNode(nodes, current);
    if n.None? || n.value.nodeType != Gemini then Invalid(INVALID_NODE)
    else Ready(GeminiInput(Field(n.value.data, "prompt"), Field(n.value.data, "model"), Field(n.value.data, "temperature"), answers))
  }

  function PuterInvocation(nodes: seq<Node>, current: Option<string>, answers: Answers): (r: Invocation<PuterInput>)
    ensures r.Invalid? <==> !IsPuterNode(nodes, current)
    ensures r.Invalid? ==> r.message == INVALID_NODE
    ensures r.Ready? ==> r.input.answers == answers
  {
    var n := FindNode(nodes, current);
    if n.None? || n.value.nodeType != Puter then Invalid(INVALID_NODE)
    else Ready(PuterInput(Field(n.value.data, "prompt"), Field(n.value.data, "model"), answers))
  }

  /** When the current node's payload fits its interface, the executor receives the fields the
      interface declares with their declared types. */
  lemma FittingPayloadsGiveTypedInputs(nodes: seq<Node>, current: Option<string>, answers: Answers)
    requires FindNode(nodes, current).Some?
    requires PayloadFits(FindNode(nodes, current).value.nodeType, FindNode(nodes, current).value.data)
    ensures var r := HttpInvocation(nodes, current);
      r.Ready? ==> IsString(r.input.endpoint) && IsString(r.input.httpMethod) && IsString(r.input.responseType)
    ensures var r := GeminiInvocation(nodes, current, answers);
      r.Ready? ==> IsString(r.input.prompt) && IsString(r.input.model) && OptionalNumber(r.input.temperature)
    ensures var r := PuterInvocation(nodes, current, answers);
      r.Ready? ==> IsString(r.input.prompt) && IsString(r.input.model)
  {
  }
}
