/** Traces of small diagrams through the machine, proved step by step. */
module FlowScenarios {
  import opened Wrappers
  import opened FlowTypes
  import opened Executors
  import opened FlowSpec
  import opened FlowProperties

  const Origin: Position := Position(0.0, 0.0)

  function At(id: string, t: NodeType): Node {
    Node(id, t, Origin, map[])
  }

  function Plain(id: string, source: string, target: string): Edge {
    Edge(id, source, target, None)
  }

  function Guarded(id: string, source: string, target: string, condition: string): Edge {
    Edge(id, source, target, Some(EdgeData(Some(condition))))
  }

  /** An evaluator for which no condition holds. */
  const NeverHolds: Evaluator := (expression: Value, answers: Answers) => Some(false)

  const Fresh: Config := Config(State.Idle, None, map[], map[])

  /** input `a` -> question `b` -> output `c`. */
  function QuestionDiagram(): Env {
    Env([At("a", Input), At("b", Question), At("c", Output)], [Plain("e1", "a", "b"), Plain("e2", "b", "c")], NeverHolds, None)
  }

  /** START runs the input node and stops at the question. */
  lemma QuestionFlowWaits()
    ensures Step(QuestionDiagram(), Fresh, Start) == Config(State.Running(WaitingInput), Some("b"), map[], map["a" := NodeStatus.Executed])
  {
    var env := QuestionDiagram();
    var a := Enter(env, Fresh);
    assert a.current == Some("a");
    assert Route(env.nodes, a.current, false) == ToExecuting;
    var b := Enter(env, Mark(a, NodeStatus.Executed));
    assert b.current == Some("b");
    assert Route(env.nodes, b.current, false) == ToWaitingInput;
    assert Settle(env, a, false, 4) == Settle(env, b, false, 3);
  }

  /** Answering the question records the answer, runs the output node and completes the run. */
  lemma QuestionFlowCompletes()
    ensures var waiting := Config(State.Running(WaitingInput), Some("b"), map[], map["a" := NodeStatus.Executed]);
      Step(QuestionDiagram(), waiting, Answer("b", Str("yes"))) ==
        Config(Completed, None, map["b" := Str("yes")], map["a" := NodeStatus.Executed, "b" := NodeStatus.Executed, "c" := NodeStatus.Executed])
  {
    AnswerEntersOutput();
    OutputCompletes();
  }

  /** The answered question leads to the output node. */
  lemma AnswerEntersOutput()
    ensures var waiting := Config(State.Running(WaitingInput), Some("b"), map[], map["a" := NodeStatus.Executed]);
      Step(QuestionDiagram(), waiting, Answer("b", Str("yes"))) ==
        Settle(QuestionDiagram(), Config(State.Running(Evaluating), Some("c"), map["b" := Str("yes")], map["a" := NodeStatus.Executed, "b" := NodeStatus.Executed]), false, 4)
  {
    var env := QuestionDiagram();
    var waiting := Config(State.Running(WaitingInput), Some("b"), map[], map["a" := NodeStatus.Executed]);
    var marked := Mark(waiting.(answers := map["b" := Str("yes")]), NodeStatus.Executed);
    assert marked.statuses == map["a" := NodeStatus.Executed, "b" := NodeStatus.Executed];
    assert Outgoing(env.edges, "b") == [Plain("e2", "b", "c")];
    assert Pick([Plain("e2", "b", "c")], marked.answers, env.eval) == Some("c");
    assert Enter(env, marked) == Config(State.Running(Evaluating), Some("c"), map["b" := Str("yes")], marked.statuses);
    assert Fuel(env) == 4;
    AnswerContinues(env, waiting, "b", Str("yes"));
  }

  /** The output node runs and, having no outgoing edge, ends the run. */
  lemma OutputCompletes()
    ensures Settle(QuestionDiagram(), Config(State.Running(Evaluating), Some("c"), map["b" := Str("yes")], map["a" := NodeStatus.Executed, "b" := NodeStatus.Executed]), false, 4) ==
      Config(Completed, None, map["b" := Str("yes")], map["a" := NodeStatus.Executed, "b" := NodeStatus.Executed, "c" := NodeStatus.Executed])
  {
    var env := QuestionDiagram();
    var c := Config(State.Running(Evaluating), Some("c"), map["b" := Str("yes")], map["a" := NodeStatus.Executed, "b" := NodeStatus.Executed]);
    assert FindNode(env.nodes, c.current) == Some(At("c", Output));
    LastAutoNodeCompletes(env, c, false, 4);
  }

  /** A condition that does not hold is passed over for the next edge leaving the node. */
  lemma FalseConditionFallsThrough()
    ensures NextNode([], [Guarded("e1", "a", "b", "answers.x > 1"), Plain("e2", "a", "c")], Some("a"), map[], NeverHolds) == Some("c")
  {
    var edges := [Guarded("e1", "a", "b", "answers.x > 1"), Plain("e2", "a", "c")];
    assert FirstEligibleAt(edges, "a", map[], NeverHolds, 1);
    FirstEligibleEdgeWins([], edges, "a", map[], NeverHolds, 1);
  }

  /** A request answered with status 500 fails with `HTTP 500`. */
  lemma ServerErrorFails()
    ensures HttpOutcome(HttpInput(Undefined, Undefined, Str("json")), Response(500, "", Unparsable("unused"))) == Failed("HTTP 500")
  {
    assert Decimal(500) == "500" by {
      assert Decimal(5) == "5";
      assert Decimal(50) == "50";
    }
  }

  /** A request answered with status 500 marks its node as failed, records the error and the run
      carries on to the output node. */
  lemma FailedRequestContinues()
    ensures var env := Env([At("h", HttpRequest), At("o", Output)], [Plain("e1", "h", "o")], NeverHolds, None);
      var processing := Config(State.Running(ProcessingHttp), Some("h"), map[], map[]);
      var outcome := HttpOutcome(HttpInput(Undefined, Undefined, Str("json")), Response(500, "", Unparsable("unused")));
      && outcome == Failed("HTTP 500")
      && Step(env, processing, Deliver(outcome)) ==
         Config(Completed, None, map["h" := ErrorPayload("HTTP 500")], map["h" := NodeStatus.Error, "o" := NodeStatus.Executed])
  {
    ServerErrorFails();
    var env := Env([At("h", HttpRequest), At("o", Output)], [Plain("e1", "h", "o")], NeverHolds, None);
    var processing := Config(State.Running(ProcessingHttp), Some("h"), map[], map[]);
    var failed := Mark(processing.(answers := map["h" := ErrorPayload("HTTP 500")]), NodeStatus.Error);
    ExecErrorContinues(env, processing, "HTTP 500");
    assert Outgoing(env.edges, "h") == [Plain("e1", "h", "o")];
    var o := Enter(env, failed);
    assert o.current == Some("o");
    assert FindNode(env.nodes, o.current) == Some(At("o", Output));
    LastAutoNodeCompletes(env, o, false, Fuel(env));
  }

  /** A diagram whose only input node has no outgoing edge completes as soon as it starts. */
  lemma LoneInputCompletes()
    ensures var env := Env([At("a", Input)], [], NeverHolds, None);
      Step(env, Fresh, Start) == Config(Completed, None, map[], map["a" := NodeStatus.Executed])
  {
    var env := Env([At("a", Input)], [], NeverHolds, None);
    StartAloneCompletes(env, Fresh, 0);
  }
}
