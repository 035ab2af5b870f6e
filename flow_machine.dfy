/** The flow engine as objects: the shared execution store and the machine that walks the diagram
    held in it. Every event method is proved to do what `FlowSpec.Step` says. */
module FlowEngine {
  import opened Wrappers
  import opened FlowTypes
  import opened FlowSpec
  import opened FlowProperties

  /** The shared execution store (`useFlowStore`): the loaded diagram, the answers and statuses of
      the current run, the store's own current node id, the diagram's declared results, the canvas
      viewport and the editor's selections. Its setters are plain field updates here. */
  class FlowStore {
    var nodes: seq<Node>
    var edges: seq<Edge>
    var answers: Answers
    var statuses: Statuses
    var currentNodeId: Option<string>
    var results: seq<ResultInput>
    var viewport: Viewport
    var nodeSelected: Option<string>
    var edgeSelected: Option<string>

    /** An empty store. */
    constructor ()
      ensures nodes == [] && edges == [] && answers == map[] && statuses == map[]
      ensures currentNodeId == None && results == [] && viewport == Viewport(0.0, 0.0, 1.0)
      ensures nodeSelected == None && edgeSelected == None
    {
      nodes := [];
      edges := [];
      answers := map[];
      statuses := map[];
      currentNodeId := None;
      results := [];
      viewport := Viewport(0.0, 0.0, 1.0);
      nodeSelected := None;
      edgeSelected := None;
    }

    /** `setCurrentNodeId(null)`, `clearAnswers()` and `resetNodeStatuses()`: forgets the last
        run. A node without a status entry shows as idle. */
    method ClearRun()
      modifies this
      ensures currentNodeId == None && answers == map[] && statuses == map[]
      ensures nodes == old(nodes) && edges == old(edges) && results == old(results)
      ensures viewport == old(viewport) && nodeSelected == old(nodeSelected) && edgeSelected == old(edgeSelected)
    {
      currentNodeId := None;
      answers := map[];
      statuses := map[];
    }

    /** Everything but the answers and the statuses is as it was. */
    twostate predicate DiagramUnchanged()
      reads this
    {
      && nodes == old(nodes)
      && edges == old(edges)
      && currentNodeId == old(currentNodeId)
      && results == old(results)
      && viewport == old(viewport)
      && nodeSelected == old(nodeSelected)
      && edgeSelected == old(edgeSelected)
    }
  }

  /** `findNextNode`: the start node when there is no current node, else the target of the first
      eligible edge leaving the current node, after which no edge is examined. */
  method FindNextNode(nodes: seq<Node>, edges: seq<Edge>, current: Option<string>, answers: Answers, eval: Evaluator)
    returns (next: Option<string>)
    ensures next == NextNode(nodes, edges, current, answers, eval)
  {
    if Falsy(current) {
      return StartNode(nodes);
    }
    var connected := Outgoing(edges, current.value);
    next := None;
    var i := 0;
    while i < |connected|
      invariant 0 <= i <= |connected|
      invariant Pick(connected, answers, eval) == Pick(connected[i..], answers, eval)
    {
      var e := connected[i];
      assert connected[i..][1..] == connected[i + 1..];
      if HasCondition(e) {
        if eval(Str(e.data.value.condition.value), answers) == Some(true) {
          next := Some(e.target);
          break;
        }
      } else {
        next := Some(e.target);
        break;
      }
      i := i + 1;
    }
  }

  /** The running machine (`flowMachine`): its state tag and its context's current node id. The
      store is shared with the rest of the application; `startSeed` is the value the START action
      assigns, the store's current node id when the machine was defined. */
  class FlowMachine {
    var state: State
    var currentNodeId: Option<string>
    const store: FlowStore
    const eval: Evaluator
    const startSeed: Option<string>

    /** What the machine reads and never writes. */
    function Setting(): Env
      reads store
    {
      Env(store.nodes, store.edges, eval, startSeed)
    }

    /** The machine's state and the store entries it writes. */
    function Snapshot(): Config
      reads this, store
    {
      Config(state, currentNodeId, store.answers, store.statuses)
    }

    /** The invariant every event keeps (as long as nobody else edits the diagram). */
    predicate Valid()
      reads this, store
    {
      Consistent(Setting(), Snapshot())
    }

    /** A new machine in `idle`; its context starts from the store's current node id when the actor
        is created, while `startSeed` is the id the store held when the machine was defined. */
    constructor (store: FlowStore, eval: Evaluator, startSeed: Option<string>)
      ensures this.store == store && this.eval == eval && this.startSeed == startSeed
      ensures state == State.Idle && currentNodeId == store.currentNodeId
      ensures Valid()
    {
      this.store := store;
      this.eval := eval;
      this.startSeed := startSeed;
      state := State.Idle;
      currentNodeId := store.currentNodeId;
    }

    /** Entering `evaluating` runs `findNextNode`. */
    method EnterEvaluating()
      modifies this
      ensures Snapshot() == Enter(Setting(), old(Snapshot()))
    {
      state := State.Running(Evaluating);
      currentNodeId := FindNextNode(store.nodes, store.edges, currentNodeId, store.answers, eval);
    }

    /** `markNodeAsExecuted`. */
    method MarkNodeAsExecuted()
      modifies store
      ensures Snapshot() == Mark(old(Snapshot()), NodeStatus.Executed)
      ensures store.DiagramUnchanged()
    {
      if currentNodeId.Some? && currentNodeId.value != "" {
        store.statuses := store.statuses[currentNodeId.value := NodeStatus.Executed];
      }
    }

    /** `markNodeAsError`. */
    method MarkNodeAsError()
      modifies store
      ensures Snapshot() == Mark(old(Snapshot()), NodeStatus.Error)
      ensures store.DiagramUnchanged()
    {
      if currentNodeId.Some? && currentNodeId.value != "" {
        store.statuses := store.statuses[currentNodeId.value := NodeStatus.Error];
      }
    }

    /** Leaves `evaluating` for a state other than `executing`; `isStopped` clears the current
        node id on its way to `stopped`. */
    method Land(t: Target)
      requires t != ToExecuting
      modifies this
      ensures Snapshot() == FlowSpec.Land(old(Snapshot()), t)
    {
      match t
      case ToWaitingInput => state := State.Running(WaitingInput);
      case ToHttp => state := State.Running(ProcessingHttp);
      case ToGemini => state := State.Running(ProcessingGemini);
      case ToPuter => state := State.Running(ProcessingPuter);
      case ToCompleted => state := Completed;
      case ToStopped =>
        currentNodeId := None;
        state := Stopped;
      case NoTransition =>
    }

    /** The eventless transitions; the guards are consulted in declared order through `Route`. */
    method Settle(stopEvent: bool, fuel: nat)
      modifies this, store
      ensures Snapshot() == FlowSpec.Settle(old(Setting()), old(Snapshot()), stopEvent, fuel)
      ensures store.DiagramUnchanged()
      decreases fuel, 1
    {
      if state == State.Running(Evaluating) {
        var t := Route(store.nodes, currentNodeId, stopEvent);
        if t != ToExecuting {
          Land(t);
        } else if fuel > 0 {
          PassExecuting(stopEvent, fuel);
        }
      } else if state == State.Running(Executing) {
        if fuel > 0 {
          ghost var c := Snapshot();
          EnterEvaluating();
          assert Snapshot() == Enter(Setting(), c);
          Settle(stopEvent, fuel - 1);
        }
      } else if state == State.Running(Halting) {
        state := Stopped;
      }
    }

    /** `executing`: mark the node, re-enter `evaluating`, and carry on. */
    method PassExecuting(stopEvent: bool, fuel: nat)
      requires state == State.Running(Evaluating) && Route(store.nodes, currentNodeId, stopEvent) == ToExecuting && fuel > 0
      modifies this, store
      ensures Snapshot() == FlowSpec.Settle(old(Setting()), old(Snapshot()), stopEvent, fuel)
      ensures store.DiagramUnchanged()
      decreases fuel, 0
    {
      ghost var env := Setting();
      ghost var c := Snapshot();
      state := State.Running(Executing);
      MarkNodeAsExecuted();
      EnterEvaluating();
      assert Setting() == env;
      assert Snapshot() == Enter(env, Mark(c, NodeStatus.Executed));
      Settle(stopEvent, fuel - 1);
    }

    /** START. */
    method Start()
      modifies this, store
      ensures Snapshot() == Step(old(Setting()), old(Snapshot()), Event.Start)
      ensures store.DiagramUnchanged()
      ensures old(Valid()) ==> Valid()
    {
      if state == State.Idle {
        currentNodeId := startSeed;
        EnterEvaluating();
      }
      Settle(false, Fuel(Setting()));
      StepConsistentWhenValid(old(Setting()), old(Snapshot()), Event.Start);
    }

    /** ANSWER from the question dialog. */
    method Answer(nodeId: string, answer: Value)
      modifies this, store
      ensures Snapshot() == Step(old(Setting()), old(Snapshot()), Event.Answer(nodeId, answer))
      ensures store.DiagramUnchanged()
      ensures old(Valid()) ==> Valid()
    {
      if state == State.Running(WaitingInput) {
        if Truthy(answer) {
          store.answers := store.answers[nodeId := answer];
        }
        MarkNodeAsExecuted();
        EnterEvaluating();
      }
      Settle(false, Fuel(Setting()));
      StepConsistentWhenValid(old(Setting()), old(Snapshot()), Event.Answer(nodeId, answer));
    }

    /** STOP. */
    method Stop()
      modifies this, store
      ensures Snapshot() == Step(old(Setting()), old(Snapshot()), Event.Stop)
      ensures store.DiagramUnchanged()
      ensures old(Valid()) ==> Valid()
    {
      if state == State.Running(WaitingInput) {
        state := Stopped;
      } else {
        Settle(true, Fuel(Setting()));
      }
      StepConsistentWhenValid(old(Setting()), old(Snapshot()), Event.Stop);
    }

    /** RESET. */
    method Reset()
      modifies this, store
      ensures Snapshot() == Step(old(Setting()), old(Snapshot()), Event.Reset)
      ensures store.DiagramUnchanged()
      ensures old(Valid()) ==> Valid()
    {
      if Terminal(state) {
        state := State.Idle;
      } else {
        Settle(false, Fuel(Setting()));
      }
      StepConsistentWhenValid(old(Setting()), old(Snapshot()), Event.Reset);
    }

    /** COMPLETE, which no state handles. */
    method Complete()
      modifies this, store
      ensures Snapshot() == Step(old(Setting()), old(Snapshot()), Event.Complete)
      ensures store.DiagramUnchanged()
      ensures old(Valid()) ==> Valid()
    {
      Settle(false, Fuel(Setting()));
      StepConsistentWhenValid(old(Setting()), old(Snapshot()), Event.Complete);
    }

    /** The invoked executor's `onDone`. */
    method ExecDone(output: Value)
      modifies this, store
      ensures Snapshot() == Step(old(Setting()), old(Snapshot()), Event.ExecDone(output))
      ensures store.DiagramUnchanged()
      ensures old(Valid()) ==> Valid()
    {
      if Processing(state) {
        store.answers := store.answers[KeyOf(currentNodeId) := output];
        MarkNodeAsExecuted();
        EnterEvaluating();
      }
      Settle(false, Fuel(Setting()));
      StepConsistentWhenValid(old(Setting()), old(Snapshot()), Event.ExecDone(output));
    }

    /** The invoked executor's `onError`. */
    method ExecError(message: string)
      modifies this, store
      ensures Snapshot() == Step(old(Setting()), old(Snapshot()), Event.ExecError(message))
      ensures store.DiagramUnchanged()
      ensures old(Valid()) ==> Valid()
    {
      if Processing(state) {
        store.answers := store.answers[KeyOf(currentNodeId) := ErrorPayload(message)];
        MarkNodeAsError();
        EnterEvaluating();
      }
      Settle(false, Fuel(Setting()));
      StepConsistentWhenValid(old(Setting()), old(Snapshot()), Event.ExecError(message));
    }
  }

  /** `StepConsistent` for a configuration not known to be consistent. */
  lemma StepConsistentWhenValid(env: Env, c: Config, ev: Event)
    ensures Consistent(env, c) ==> Consistent(env, Step(env, c, ev))
  {
    if Consistent(env, c) {
      StepConsistent(env, c, ev);
    }
  }
}
