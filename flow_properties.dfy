/** What the flow machine guarantees: the invariant every reaction keeps, what each event records
    in the store, that a failing node never ends a run, and which event alone can stop one. */
module FlowProperties {
  import opened Wrappers
  import opened FlowTypes
  import opened Executors
  import opened FlowSpec

  /** The machine rests in a waiting or processing sub-state only on a node of the matching type,
      a completed run has no current node, and the transient `executing` and `running.stopped`
      sub-states are never left standing. */
  predicate Consistent(env: Env, c: Config) {
    && (c.state == State.Running(WaitingInput) ==> IsQuestionNode(env.nodes, c.current))
    && (c.state == State.Running(ProcessingHttp) ==> IsHttpNode(env.nodes, c.current))
    && (c.state == State.Running(ProcessingGemini) ==> IsGeminiNode(env.nodes, c.current))
    && (c.state == State.Running(ProcessingPuter) ==> IsPuterNode(env.nodes, c.current))
    && (c.state == Completed ==> c.current.None?)
    && c.state != State.Running(Executing)
    && c.state != State.Running(Halting)
  }

  /** The machine as it is created. */
  lemma InitialConsistent(env: Env, current: Option<string>)
    ensures Consistent(env, Config(State.Idle, current, map[], map[]))
  {
  }

  /** The eventless transitions keep the invariant. */
  lemma {:induction false} SettleConsistent(env: Env, c: Config, stopEvent: bool, fuel: nat)
    requires Consistent(env, c)
    ensures Consistent(env, Settle(env, c, stopEvent, fuel))
    decreases fuel
  {
    if c.state == State.Running(Evaluating) && Route(env.nodes, c.current, stopEvent) == ToExecuting && fuel > 0 {
      SettleConsistent(env, Enter(env, Mark(c, NodeStatus.Executed)), stopEvent, fuel - 1);
    }
  }

  /** Every reaction keeps the invariant. */
  lemma StepConsistent(env: Env, c: Config, ev: Event)
    requires Consistent(env, c)
    ensures Consistent(env, Step(env, c, ev))
  {
    var f := Fuel(env);
    match ev
    case Start =>
      if c.state == State.Idle {
        SettleConsistent(env, Enter(env, c.(current := env.seed)), false, f);
      } else {
        SettleConsistent(env, c, false, f);
      }
    case Answer(id, v) =>
      if c.state == State.Running(WaitingInput) {
        var recorded := if Truthy(v) then c.(answers := c.answers[id := v]) else c;
        SettleConsistent(env, Enter(env, Mark(recorded, NodeStatus.Executed)), false, f);
      } else {
        SettleConsistent(env, c, false, f);
      }
    case Stop =>
      if c.state != State.Running(WaitingInput) {
        SettleConsistent(env, c, true, f);
      }
    case Reset =>
      if !Terminal(c.state) {
        SettleConsistent(env, c, false, f);
      }
    case Complete =>
      SettleConsistent(env, c, false, f);
    case ExecDone(v) =>
      if Processing(c.state) {
        SettleConsistent(env, Enter(env, Mark(c.(answers := c.answers[KeyOf(c.current) := v]), NodeStatus.Executed)), false, f);
      } else {
        SettleConsistent(env, c, false, f);
      }
    case ExecError(m) =>
      if Processing(c.state) {
        SettleConsistent(env, Enter(env, Mark(c.(answers := c.answers[KeyOf(c.current) := ErrorPayload(m)]), NodeStatus.Error)), false, f);
      } else {
        SettleConsistent(env, c, false, f);
      }
  }

  /** In a processing sub-state the invoked executor gets its input: the error `Invalid node` is
      never raised on a consistent machine. */
  lemma InvocationsAreReady(env: Env, c: Config)
    requires Consistent(env, c)
    ensures c.state == State.Running(ProcessingHttp) ==> HttpInvocation(env.nodes, c.current).Ready?
    ensures c.state == State.Running(ProcessingGemini) ==> GeminiInvocation(env.nodes, c.current, c.answers).Ready?
    ensures c.state == State.Running(ProcessingPuter) ==> PuterInvocation(env.nodes, c.current, c.answers).Ready?
  {
  }

  // ---------------------------------------------------------------------------------------------
  // What the eventless transitions write

  /** Passing through `executing` never touches the answers. */
  lemma {:induction false} SettleKeepsAnswers(env: Env, c: Config, stopEvent: bool, fuel: nat)
    ensures Settle(env, c, stopEvent, fuel).answers == c.answers
    decreases fuel, 1
  {
    if c.state == State.Running(Evaluating) {
      EvaluatingKeepsAnswers(env, c, stopEvent, fuel);
    } else if c.state == State.Running(Executing) && fuel > 0 {
      SettleKeepsAnswers(env, Enter(env, c), stopEvent, fuel - 1);
    }
  }

  /** The `evaluating` case of `SettleKeepsAnswers`. */
  lemma {:induction false} EvaluatingKeepsAnswers(env: Env, c: Config, stopEvent: bool, fuel: nat)
    requires c.state == State.Running(Evaluating)
    ensures Settle(env, c, stopEvent, fuel).answers == c.answers
    decreases fuel, 0
  {
    if Route(env.nodes, c.current, stopEvent) == ToExecuting && fuel > 0 {
      SettleKeepsAnswers(env, Enter(env, Mark(c, NodeStatus.Executed)), stopEvent, fuel - 1);
    }
  }

  /** `s2` agrees with `s1` except that some `input`/`output` nodes may have become `executed`. */
  predicate OnlyAutoNodesExecuted(nodes: seq<Node>, s1: Statuses, s2: Statuses) {
    && (forall k :: k in s1 ==> k in s2)
    && (forall k :: k in s2 ==> (k in s1 && s2[k] == s1[k]) || (s2[k] == NodeStatus.Executed && IsAutoExecutableNode(nodes, Some(k))))
  }

  lemma OnlyAutoNodesExecutedTransitive(nodes: seq<Node>, s1: Statuses, s2: Statuses, s3: Statuses)
    requires OnlyAutoNodesExecuted(nodes, s1, s2) && OnlyAutoNodesExecuted(nodes, s2, s3)
    ensures OnlyAutoNodesExecuted(nodes, s1, s3)
  {
  }

  /** The eventless transitions mark `executed` the input and output nodes they pass through, and
      change no other status. */
  lemma {:induction false} SettleMarksOnlyAutoNodes(env: Env, c: Config, stopEvent: bool, fuel: nat)
    ensures OnlyAutoNodesExecuted(env.nodes, c.statuses, Settle(env, c, stopEvent, fuel).statuses)
    decreases fuel, 1
  {
    if c.state == State.Running(Evaluating) {
      EvaluatingMarksOnlyAutoNodes(env, c, stopEvent, fuel);
    } else if c.state == State.Running(Executing) && fuel > 0 {
      SettleMarksOnlyAutoNodes(env, Enter(env, c), stopEvent, fuel - 1);
    }
  }

  /** The `evaluating` case of `SettleMarksOnlyAutoNodes`. */
  lemma {:induction false} EvaluatingMarksOnlyAutoNodes(env: Env, c: Config, stopEvent: bool, fuel: nat)
    requires c.state == State.Running(Evaluating)
    ensures OnlyAutoNodesExecuted(env.nodes, c.statuses, Settle(env, c, stopEvent, fuel).statuses)
    decreases fuel, 0
  {
    var t := Route(env.nodes, c.current, stopEvent);
    if t == ToExecuting && fuel > 0 {
      var m := Mark(c, NodeStatus.Executed);
      assert OnlyAutoNodesExecuted(env.nodes, c.statuses, m.statuses);
      SettleMarksOnlyAutoNodes(env, Enter(env, m), stopEvent, fuel - 1);
      OnlyAutoNodesExecutedTransitive(env.nodes, c.statuses, m.statuses, Settle(env, c, stopEvent, fuel).statuses);
    }
  }

  /** Two configurations on the same path: they differ at most in their statuses. */
  predicate SameRun(a: Config, b: Config) {
    a.state == b.state && a.current == b.current && a.answers == b.answers
  }

  /** Routing never reads the statuses: two configurations that differ only in their statuses
      follow the same path and record the same answers. */
  lemma {:induction false} SettleIgnoresStatuses(env: Env, c: Config, d: Config, stopEvent: bool, fuel: nat)
    requires SameRun(c, d)
    ensures SameRun(Settle(env, c, stopEvent, fuel), Settle(env, d, stopEvent, fuel))
    decreases fuel, 1
  {
    if c.state == State.Running(Evaluating) {
      EvaluatingIgnoresStatuses(env, c, d, stopEvent, fuel);
    } else if c.state == State.Running(Executing) && fuel > 0 {
      SettleIgnoresStatuses(env, Enter(env, c), Enter(env, d), stopEvent, fuel - 1);
    }
  }

  /** The `evaluating` case of `SettleIgnoresStatuses`. */
  lemma {:induction false} EvaluatingIgnoresStatuses(env: Env, c: Config, d: Config, stopEvent: bool, fuel: nat)
    requires SameRun(c, d) && c.state == State.Running(Evaluating)
    ensures SameRun(Settle(env, c, stopEvent, fuel), Settle(env, d, stopEvent, fuel))
    decreases fuel, 0
  {
    var t := Route(env.nodes, c.current, stopEvent);
    if t != ToExecuting {
      LandIgnoresStatuses(c, d, t);
    } else if fuel > 0 {
      var c' := Enter(env, Mark(c, NodeStatus.Executed));
      var d' := Enter(env, Mark(d, NodeStatus.Executed));
      assert SameRun(c', d');
      SettleIgnoresStatuses(env, c', d', stopEvent, fuel - 1);
    }
  }

  lemma LandIgnoresStatuses(c: Config, d: Config, t: Target)
    requires SameRun(c, d) && t != ToExecuting
    ensures SameRun(Land(c, t), Land(d, t))
  {
  }

  /** Without a STOP event the eventless transitions never stop a run that is not already over. */
  lemma {:induction false} SettleStopsOnlyOnStop(env: Env, c: Config, fuel: nat)
    requires c.state != Stopped && c.state != State.Running(Halting)
    ensures Settle(env, c, false, fuel).state != Stopped
    decreases fuel, 1
  {
    if c.state == State.Running(Evaluating) {
      EvaluatingStopsOnlyOnStop(env, c, fuel);
    } else if c.state == State.Running(Executing) && fuel > 0 {
      SettleStopsOnlyOnStop(env, Enter(env, c), fuel - 1);
    }
  }

  /** The `evaluating` case of `SettleStopsOnlyOnStop`. */
  lemma {:induction false} EvaluatingStopsOnlyOnStop(env: Env, c: Config, fuel: nat)
    requires c.state == State.Running(Evaluating)
    ensures Settle(env, c, false, fuel).state != Stopped
    decreases fuel, 0
  {
    var t := Route(env.nodes, c.current, false);
    if t == ToExecuting && fuel > 0 {
      SettleStopsOnlyOnStop(env, Enter(env, Mark(c, NodeStatus.Executed)), fuel - 1);
    }
  }

  // ---------------------------------------------------------------------------------------------
  // The reactions

  /** ANSWER while waiting: a truthy answer is stored under the event's node id (a falsy one is
      dropped), the CURRENT node is marked executed, and nothing else is answered. */
  lemma AnswerRecorded(env: Env, c: Config, id: string, v: Value)
    requires c.state == State.Running(WaitingInput)
    ensures Step(env, c, Answer(id, v)).answers == if Truthy(v) then c.answers[id := v] else c.answers
    ensures !Falsy(c.current) ==>
      c.current.value in Step(env, c, Answer(id, v)).statuses && Step(env, c, Answer(id, v)).statuses[c.current.value] == NodeStatus.Executed
  {
    var recorded := if Truthy(v) then c.(answers := c.answers[id := v]) else c;
    var m := Mark(recorded, NodeStatus.Executed);
    SettleKeepsAnswers(env, Enter(env, m), false, Fuel(env));
    SettleMarksOnlyAutoNodes(env, Enter(env, m), false, Fuel(env));
  }

  /** An executor's success: its output is the current node's answer and the node is executed. */
  lemma ExecDoneRecorded(env: Env, c: Config, v: Value)
    requires Consistent(env, c) && Processing(c.state) && !Falsy(c.current)
    ensures Step(env, c, ExecDone(v)).answers == c.answers[c.current.value := v]
    ensures c.current.value in Step(env, c, ExecDone(v)).statuses
    ensures Step(env, c, ExecDone(v)).statuses[c.current.value] == NodeStatus.Executed
  {
    var m := Mark(c.(answers := c.answers[KeyOf(c.current) := v]), NodeStatus.Executed);
    ExecDoneContinues(env, c, v);
    SettleKeepsAnswers(env, Enter(env, m), false, Fuel(env));
    SettleMarksOnlyAutoNodes(env, Enter(env, m), false, Fuel(env));
  }

  /** An executor's failure: `{error: message}` is the current node's answer and the node shows
      `error`; later passes through `executing` never overwrite that status. */
  lemma ExecErrorRecorded(env: Env, c: Config, message: string)
    requires Consistent(env, c) && Processing(c.state) && !Falsy(c.current)
    ensures Step(env, c, ExecError(message)).answers == c.answers[c.current.value := ErrorPayload(message)]
    ensures c.current.value in Step(env, c, ExecError(message)).statuses
    ensures Step(env, c, ExecError(message)).statuses[c.current.value] == NodeStatus.Error
  {
    var m := Mark(c.(answers := c.answers[KeyOf(c.current) := ErrorPayload(message)]), NodeStatus.Error);
    ExecErrorContinues(env, c, message);
    SettleKeepsAnswers(env, Enter(env, m), false, Fuel(env));
    SettleMarksOnlyAutoNodes(env, Enter(env, m), false, Fuel(env));
    assert !IsAutoExecutableNode(env.nodes, c.current);
  }

  /** ANSWER while waiting records the answer, marks the question and re-enters `evaluating`. */
  lemma AnswerContinues(env: Env, c: Config, id: string, v: Value)
    requires c.state == State.Running(WaitingInput) && Truthy(v)
    ensures Step(env, c, Answer(id, v)) ==
      Settle(env, Enter(env, Mark(c.(answers := c.answers[id := v]), NodeStatus.Executed)), false, Fuel(env))
  {
  }

  /** An executor's success records its output, marks the node and re-enters `evaluating`. */
  lemma ExecDoneContinues(env: Env, c: Config, v: Value)
    requires Processing(c.state)
    ensures Step(env, c, ExecDone(v)) ==
      Settle(env, Enter(env, Mark(c.(answers := c.answers[KeyOf(c.current) := v]), NodeStatus.Executed)), false, Fuel(env))
  {
  }

  /** An executor's failure records `{error: message}`, marks the node and re-enters `evaluating`. */
  lemma ExecErrorContinues(env: Env, c: Config, message: string)
    requires Processing(c.state)
    ensures Step(env, c, ExecError(message)) ==
      Settle(env, Enter(env, Mark(c.(answers := c.answers[KeyOf(c.current) := ErrorPayload(message)]), NodeStatus.Error)), false, Fuel(env))
  {
  }

  /** A node failure never ends the run: the machine goes on exactly as if the executor had
      returned `{error: message}`; only the node's status differs. */
  lemma ExecErrorIsNotFatal(env: Env, c: Config, message: string)
    requires Processing(c.state)
    ensures SameRun(Step(env, c, ExecError(message)), Step(env, c, ExecDone(ErrorPayload(message))))
  {
    var base := c.(answers := c.answers[KeyOf(c.current) := ErrorPayload(message)]);
    ExecErrorContinues(env, c, message);
    ExecDoneContinues(env, c, ErrorPayload(message));
    SettleIgnoresStatuses(env, Enter(env, Mark(base, NodeStatus.Error)), Enter(env, Mark(base, NodeStatus.Executed)), false, Fuel(env));
  }

  /** Only STOP ends a run in `stopped`. */
  lemma OnlyStopStops(env: Env, c: Config, ev: Event)
    requires Consistent(env, c) && c.state != Stopped
    requires Step(env, c, ev).state == Stopped
    ensures ev == Stop
  {
    var f := Fuel(env);
    match ev
    case Start =>
      if c.state == State.Idle {
        SettleStopsOnlyOnStop(env, Enter(env, c.(current := env.seed)), f);
      } else {
        SettleStopsOnlyOnStop(env, c, f);
      }
    case Answer(id, v) =>
      if c.state == State.Running(WaitingInput) {
        var recorded := if Truthy(v) then c.(answers := c.answers[id := v]) else c;
        SettleStopsOnlyOnStop(env, Enter(env, Mark(recorded, NodeStatus.Executed)), f);
      } else {
        SettleStopsOnlyOnStop(env, c, f);
      }
    case Stop =>
    case Reset =>
      SettleStopsOnlyOnStop(env, c, f);
    case Complete =>
      SettleStopsOnlyOnStop(env, c, f);
    case ExecDone(v) =>
      if Processing(c.state) {
        SettleStopsOnlyOnStop(env, Enter(env, Mark(c.(answers := c.answers[KeyOf(c.current) := v]), NodeStatus.Executed)), f);
      } else {
        SettleStopsOnlyOnStop(env, c, f);
      }
    case ExecError(m) =>
      if Processing(c.state) {
        SettleStopsOnlyOnStop(env, Enter(env, Mark(c.(answers := c.answers[KeyOf(c.current) := ErrorPayload(m)]), NodeStatus.Error)), f);
      } else {
        SettleStopsOnlyOnStop(env, c, f);
      }
  }

  /** The events each resting state reacts to. */
  predicate Handles(s: State, ev: Event) {
    match s
    case Idle => ev.Start?
    case Running(sub) =>
      (sub == WaitingInput && (ev.Answer? || ev.Stop?))
      || (Processing(s) && (ev.ExecDone? || ev.ExecError?))
    case Completed => ev.Reset?
    case Stopped => ev.Reset?
  }

  /** Nothing else has any effect on a machine at rest: in particular `completed` and `stopped`
      react only to RESET, STOP while processing is ignored, and COMPLETE is never handled. */
  lemma UnhandledEventsAreIgnored(env: Env, c: Config, ev: Event)
    requires Consistent(env, c) && c.state != State.Running(Evaluating)
    requires !Handles(c.state, ev)
    ensures Step(env, c, ev) == c
  {
  }

  /** STOP while waiting for an answer stops the run where it is. */
  lemma StopWhileWaiting(env: Env, c: Config)
    requires c.state == State.Running(WaitingInput)
    ensures Step(env, c, Stop) == c.(state := Stopped)
  {
  }

  /** RESET returns a finished run to `idle`; the machine itself keeps the answers, the statuses
      and even the current node id. */
  lemma ResetKeepsStore(env: Env, c: Config)
    requires Terminal(c.state)
    ensures Step(env, c, Reset) == c.(state := State.Idle)
  {
  }

  /** START on a diagram without a usable input node (and no node id left over) completes at
      once, recording nothing. */
  lemma StartWithoutInputCompletes(env: Env, c: Config)
    requires c.state == State.Idle && Falsy(env.seed)
    requires FirstOfType(env.nodes, Input).None? || FirstOfType(env.nodes, Input).value.id == ""
    ensures Step(env, c, Start) == c.(state := Completed, current := None)
  {
    var e := Enter(env, c.(current := env.seed));
    assert e.current == None;
  }

  /** START with no node id left over begins at the first input node. */
  lemma StartEntersFirstInput(env: Env, c: Config, k: nat)
    requires c.state == State.Idle && Falsy(env.seed)
    requires k < |env.nodes| && env.nodes[k].nodeType == Input && env.nodes[k].id != ""
    requires forall j :: 0 <= j < k ==> env.nodes[j].nodeType != Input
    ensures Enter(env, c.(current := env.seed)).current == Some(env.nodes[k].id)
  {
    FirstOfTypeIsFirst(env.nodes, Input, k);
  }

  /** START on a diagram whose first input node has no outgoing edge runs that node and completes
      at once: nothing is answered, and only that node's status changes, to executed. */
  lemma StartAloneCompletes(env: Env, c: Config, k: nat)
    requires c.state == State.Idle && Falsy(env.seed)
    requires k < |env.nodes| && env.nodes[k].nodeType == Input && env.nodes[k].id != ""
    requires forall j :: 0 <= j < k ==> env.nodes[j].nodeType != Input && env.nodes[j].id != env.nodes[k].id
    requires forall e :: e in env.edges ==> e.source != env.nodes[k].id
    ensures Step(env, c, Start) ==
      c.(state := Completed, current := None, statuses := c.statuses[env.nodes[k].id := NodeStatus.Executed])
  {
    var id := env.nodes[k].id;
    StartEntersFirstInput(env, c, k);
    FindNodeIsFirst(env.nodes, id, k);
    LastAutoNodeCompletes(env, Enter(env, c.(current := env.seed)), false, Fuel(env));
  }

  /** An input or output node that no edge leaves is the last one: `evaluating` runs it and the
      run completes with no current node, having only marked that node executed. */
  lemma LastAutoNodeCompletes(env: Env, c: Config, stopEvent: bool, fuel: nat)
    requires c.state == State.Running(Evaluating) && !Falsy(c.current) && fuel > 0
    requires IsAutoExecutableNode(env.nodes, c.current)
    requires forall e :: e in env.edges ==> e.source != c.current.value
    ensures Settle(env, c, stopEvent, fuel) ==
      c.(state := Completed, current := None, statuses := c.statuses[c.current.value := NodeStatus.Executed])
  {
    NoOutgoingEdges(env.edges, c.current.value);
    var done := Enter(env, Mark(c, NodeStatus.Executed));
    assert done.current == None;
    assert Settle(env, done, stopEvent, fuel - 1) == Land(done, ToCompleted);
  }
}
