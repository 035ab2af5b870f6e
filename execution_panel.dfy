/** The execution panel's logic: the start button, the guarded reset, and what the completion view
    shows, the declared results that hold and one classified entry per recorded answer. */
module ExecutionPanel {
  import opened Wrappers
  import opened FlowTypes
  import opened FlowSpec
  import opened FlowProperties
  import opened FlowEngine

  // ---------------------------------------------------------------------------------------------
  // Buttons

  /** The start button, shown only while the machine is idle: the first input node (if any) is
      shown as running, then START is sent. */
  method StartClick(m: FlowMachine)
    requires m.state == State.Idle
    modifies m, m.store
    ensures var start := FirstOfType(old(m.store.nodes), Input);
      var c := old(m.Snapshot());
      var marked := if start.Some? then c.(statuses := c.statuses[start.value.id := NodeStatus.Running]) else c;
      m.Snapshot() == Step(old(m.Setting()), marked, Event.Start)
    ensures m.store.DiagramUnchanged()
  {
    var start := FirstOfType(m.store.nodes, Input);
    if start.Some? {
      m.store.statuses := m.store.statuses[start.value.id := NodeStatus.Running];
    }
    m.Start();
  }

  /** The start node is shown as running only for an instant: START passes it through `executing`
      at once, so once the run rests it shows as executed (node ids being distinct and no node id
      being left over from an earlier run). */
  lemma StartNodeEndsExecuted(env: Env, c: Config, k: nat)
    requires c.state == State.Idle && Falsy(env.seed)
    requires forall i, j :: 0 <= i < j < |env.nodes| ==> env.nodes[i].id != env.nodes[j].id
    requires k < |env.nodes| && env.nodes[k].nodeType == Input && env.nodes[k].id != ""
    requires forall j :: 0 <= j < k ==> env.nodes[j].nodeType != Input
    ensures var r := Step(env, c.(statuses := c.statuses[env.nodes[k].id := NodeStatus.Running]), Event.Start);
      env.nodes[k].id in r.statuses && r.statuses[env.nodes[k].id] == NodeStatus.Executed
  {
    var id := env.nodes[k].id;
    var marked := c.(statuses := c.statuses[id := NodeStatus.Running]);
    var e := Enter(env, marked.(current := env.seed));
    StartEntersFirstInput(env, marked, k);
    FindNodeIsFirst(env.nodes, id, k);
    assert Route(env.nodes, e.current, false) == ToExecuting;
    var e' := Enter(env, Mark(e, NodeStatus.Executed));
    SettleMarksOnlyAutoNodes(env, e', false, Fuel(env) - 1);
  }

  /** The reset button: only a finished run (`completed` or `stopped`) is reset. RESET is sent,
      then the store's current node id is cleared, the answers are cleared and every node status is
      reset; the machine's own current node id is left as it was. */
  method HandleReset(m: FlowMachine)
    modifies m, m.store
    ensures Terminal(old(m.state)) ==>
      && m.state == State.Idle
      && m.currentNodeId == old(m.currentNodeId)
      && m.store.currentNodeId == None
      && m.store.answers == map[]
      && m.store.statuses == map[]
    ensures !Terminal(old(m.state)) ==>
      && m.state == old(m.state)
      && m.currentNodeId == old(m.currentNodeId)
      && m.store.currentNodeId == old(m.store.currentNodeId)
      && m.store.answers == old(m.store.answers)
      && m.store.statuses == old(m.store.statuses)
    ensures m.store.nodes == old(m.store.nodes) && m.store.edges == old(m.store.edges)
    ensures m.store.results == old(m.store.results) && m.store.viewport == old(m.store.viewport)
    ensures m.store.nodeSelected == old(m.store.nodeSelected) && m.store.edgeSelected == old(m.store.edgeSelected)
  {
    if Terminal(m.state) {
      m.Reset();
      m.store.ClearRun();
    }
  }

  // ---------------------------------------------------------------------------------------------
  // Declared results

  /** A result is considered when its label and value are non-empty. */
  predicate Considered(r: ResultInput) {
    r.value != "" && r.labelText != ""
  }

  /** A considered result is shown when its value expression holds over the answers. */
  predicate Shown(r: ResultInput, answers: Answers, eval: Evaluator) {
    Considered(r) && eval(Str(r.value), answers) == Some(true)
  }

  /** Evaluating a considered result's expression throws, and the view fails to render. */
  predicate Throws(r: ResultInput, answers: Answers, eval: Evaluator) {
    Considered(r) && eval(Str(r.value), answers).None?
  }

  /** The shown results, in declared order. */
  function ShownResults(results: seq<ResultInput>, answers: Answers, eval: Evaluator): (s: seq<ResultInput>)
    ensures forall r :: r in s <==> r in results && Shown(r, answers, eval)
    ensures |s| <= |results|
  {
    if |results| == 0 then []
    else
      var last := results[|results| - 1];
      assert results == results[..|results| - 1] + [last];
      ShownResults(results[..|results| - 1], answers, eval) + (if Shown(last, answers, eval) then [last] else [])
  }

  /** The filter keeps declared order: the shown results of two lists in a row are those of the
      first followed by those of the second. */
  lemma {:induction false} ShownResultsAppend(a: seq<ResultInput>, b: seq<ResultInput>, answers: Answers, eval: Evaluator)
    ensures ShownResults(a + b, answers, eval) == ShownResults(a, answers, eval) + ShownResults(b, answers, eval)
    decreases |b|
  {
    if |b| > 0 {
      var last := b[|b| - 1];
      assert (a + b)[..|a + b| - 1] == a + b[..|b| - 1];
      ShownResultsAppend(a, b[..|b| - 1], answers, eval);
    } else {
      assert a + b == a;
    }
  }

  /** `resultsToShow`: the considered results whose expression holds, copied with their label,
      value and reference, in declared order; `None` when an evaluation throws. */
  method ResultsToShow(results: seq<ResultInput>, answers: Answers, eval: Evaluator) returns (shown: Option<seq<ResultInput>>)
    ensures shown.None? <==> exists i :: 0 <= i < |results| && Throws(results[i], answers, eval)
    ensures shown.Some? ==> shown.value == ShownResults(results, answers, eval)
  {
    var acc: seq<ResultInput> := [];
    for i := 0 to |results|
      invariant acc == ShownResults(results[..i], answers, eval)
      invariant forall j :: 0 <= j < i ==> !Throws(results[j], answers, eval)
    {
      var res := results[i];
      assert results[..i + 1][..i] == results[..i];
      if res.value != "" && res.labelText != "" {
        var holds := eval(Str(res.value), answers);
        if holds.None? {
          return None;
        }
        if holds.value {
          acc := acc + [ResultInput(res.labelText, res.value, res.reference)];
        }
      }
    }
    assert results[..|results|] == results;
    return Some(acc);
  }

  // ---------------------------------------------------------------------------------------------
  // Recorded answers

  /** One line of the answers list: the node id, its recorded answer, and whether it is valid. */
  datatype AnswerEntry = AnswerEntry(valid: bool, id: string, answer: Value)

  /** Whether the answer recorded under `id` is valid: the node with that id exists, its `valid`
      field is not the empty string, and that expression holds. `None` when the evaluation
      throws. A missing `valid` field is evaluated as `undefined`. */
  function Classify(nodes: seq<Node>, answers: Answers, eval: Evaluator, id: string): (v: Option<bool>)
    ensures v == Some(true) <==>
      && FindNode(nodes, Some(id)).Some?
      && Field(FindNode(nodes, Some(id)).value.data, "valid") != Str("")
      && eval(Field(FindNode(nodes, Some(id)).value.data, "valid"), answers) == Some(true)
    ensures v.None? <==>
      && FindNode(nodes, Some(id)).Some?
      && Field(FindNode(nodes, Some(id)).value.data, "valid") != Str("")
      && eval(Field(FindNode(nodes, Some(id)).value.data, "valid"), answers).None?
  {
    var n := FindNode(nodes, Some(id));
    if n.Some? && Field(n.value.data, "valid") != Str("") then eval(Field(n.value.data, "valid"), answers)
    else Some(false)
  }

  /** The ids an answer list names. */
  function EntryIds(entries: seq<AnswerEntry>): set<string> {
    set e | e in entries :: e.id
  }

  /** `answersToShow`: exactly one entry per recorded answer, each carrying its node id and its
      answer unchanged and classified by `Classify`; `None` when a classification throws. The
      entries follow the key order of the answers object, which the model leaves open. */
  method AnswersToShow(nodes: seq<Node>, answers: Answers, eval: Evaluator) returns (entries: Option<seq<AnswerEntry>>)
    ensures entries.None? <==> exists id :: id in answers && Classify(nodes, answers, eval, id).None?
    ensures entries.Some? ==> EntryIds(entries.value) == answers.Keys
    ensures entries.Some? ==> forall i, j :: 0 <= i < j < |entries.value| ==> entries.value[i].id != entries.value[j].id
    ensures entries.Some? ==> forall e :: e in entries.value ==>
      e.id in answers && e.answer == answers[e.id] && Classify(nodes, answers, eval, e.id) == Some(e.valid)
  {
    var remaining := answers.Keys;
    var acc: seq<AnswerEntry> := [];
    while remaining != {}
      invariant remaining <= answers.Keys
      invariant EntryIds(acc) == answers.Keys - remaining
      invariant forall i, j :: 0 <= i < j < |acc| ==> acc[i].id != acc[j].id
      invariant forall e :: e in acc ==>
        e.id in answers && e.answer == answers[e.id] && Classify(nodes, answers, eval, e.id) == Some(e.valid)
      decreases remaining
    {
      var id :| id in remaining;
      var n := FindNode(nodes, Some(id));
      var valid: bool;
      if n.Some? && Field(n.value.data, "valid") != Str("") {
        var holds := eval(Field(n.value.data, "valid"), answers);
        if holds.None? {
          return None;
        }
        valid := holds.value;
      } else {
        valid := false;
      }
      assert id !in EntryIds(acc);
      assert EntryIds(acc + [AnswerEntry(valid, id, answers[id])]) == EntryIds(acc) + {id};
      acc := acc + [AnswerEntry(valid, id, answers[id])];
      remaining := remaining - {id};
    }
    forall id | id in answers
      ensures Classify(nodes, answers, eval, id).Some?
    {
      assert id in EntryIds(acc);
      var e :| e in acc && e.id == id;
    }
    return Some(acc);
  }
}
