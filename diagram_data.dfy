/** Loading a stored diagram into the execution store (`DiagramData`): stored nodes and edges are
    turned into the engine's typed nodes and edges, and selecting or leaving a diagram resets the
    editor and, when a run has completed, the run. */
module DiagramData {
  import opened Wrappers
  import opened FlowTypes
  import opened FlowSpec
  import opened FlowEngine

  /** A node as stored with a diagram: its type is free text and its payload an open record. */
  datatype StoredNode = StoredNode(id: string, typeTag: string, position: Position, data: Data)

  datatype StoredEdgeData = StoredEdgeData(condition: Option<string>)

  /** An edge as stored with a diagram. */
  datatype StoredEdge = StoredEdge(id: string, source: string, target: string, data: Option<StoredEdgeData>)

  /** A stored diagram as the list of diagrams hands it over. */
  datatype DiagramOutput = DiagramOutput(
    id: string,
    nodes: seq<StoredNode>,
    edges: seq<StoredEdge>,
    viewport: Viewport,
    result: Option<seq<ResultInput>>)

  /** The types the loader's `switch` knows: every node type but `puter`. */
  function LoadableType(tag: string): (t: Option<NodeType>)
    ensures t.Some? <==> tag in ["input", "question", "http-request", "output", "gemini", "gemini-info"]
    ensures t.Some? ==> NodeTypeTag(t.value) == tag && t.value != Puter
  {
    if tag == "puter" then None else ParseNodeType(tag)
  }

  /** One case of the `switch`: a known type gives a node with the same id, type, position and
      payload; any other type gives nothing. */
  function LoadNode(n: StoredNode): (r: Option<Node>)
    ensures r.Some? <==> LoadableType(n.typeTag).Some?
    ensures r.Some? ==> r.value.id == n.id && NodeTypeTag(r.value.nodeType) == n.typeTag
    ensures r.Some? ==> r.value.position == n.position && r.value.data == n.data
  {
    match LoadableType(n.typeTag)
    case Some(t) => Some(Node(n.id, t, n.position, n.data))
    case None => None
  }

  /** The nodes `buildNodes` produces, in input order. */
  function Loaded(stored: seq<StoredNode>): (r: seq<Node>)
    ensures |r| <= |stored|
    ensures forall n :: n in r ==> n.nodeType != Puter
    ensures forall sn :: sn in stored && LoadNode(sn).Some? ==> LoadNode(sn).value in r
  {
    if |stored| == 0 then []
    else
      var last := stored[|stored| - 1];
      assert stored == stored[..|stored| - 1] + [last];
      Loaded(stored[..|stored| - 1]) + (match LoadNode(last) case Some(n) => [n] case None => [])
  }

  /** Every loaded node comes from a stored node of a known type. */
  lemma {:induction false} LoadedFromStored(stored: seq<StoredNode>, n: Node)
    requires n in Loaded(stored)
    ensures exists i :: 0 <= i < |stored| && LoadNode(stored[i]) == Some(n)
    decreases |stored|
  {
    var init := stored[..|stored| - 1];
    var last := stored[|stored| - 1];
    if n in Loaded(init) {
      LoadedFromStored(init, n);
      var i :| 0 <= i < |init| && LoadNode(init[i]) == Some(n);
      assert stored[i] == init[i];
    } else {
      assert LoadNode(stored[|stored| - 1]) == Some(n);
    }
  }

  /** Loading keeps input order: loading two lists in a row loads the first, then the second. */
  lemma {:induction false} LoadedAppend(a: seq<StoredNode>, b: seq<StoredNode>)
    ensures Loaded(a + b) == Loaded(a) + Loaded(b)
    decreases |b|
  {
    if |b| > 0 {
      assert (a + b)[..|a + b| - 1] == a + b[..|b| - 1];
      LoadedAppend(a, b[..|b| - 1]);
    } else {
      assert a + b == a;
    }
  }

  /** `buildNodes`: the stored nodes of a known type, copied in order. */
  method BuildNodes(stored: seq<StoredNode>) returns (nodes: seq<Node>)
    ensures nodes == Loaded(stored)
  {
    nodes := [];
    for i := 0 to |stored|
      invariant nodes == Loaded(stored[..i])
    {
      var n := stored[i];
      assert stored[..i + 1][..i] == stored[..i];
      var t := LoadableType(n.typeTag);
      if t.Some? {
        nodes := nodes + [Node(n.id, t.value, n.position, n.data)];
      }
    }
    assert stored[..|stored|] == stored;
  }

  /** One edge of `buildEdges`: id, source and target copied; a condition only when the stored
      one is non-empty, and then no `data` at all otherwise. */
  function LoadEdge(e: StoredEdge): (r: Edge)
    ensures r.id == e.id && r.source == e.source && r.target == e.target
    ensures r.data.Some? <==> e.data.Some? && e.data.value.condition.Some? && e.data.value.condition.value != ""
    ensures r.data.Some? ==> r.data.value.condition == e.data.value.condition
  {
    var base := Edge(e.id, e.source, e.target, None);
    if e.data.Some? && e.data.value.condition.Some? && e.data.value.condition.value != "" then
      base.(data := Some(EdgeData(Some(e.data.value.condition.value))))
    else base
  }

  /** A loaded edge is guarded exactly when its stored condition is non-empty, by that condition. */
  lemma LoadEdgeKeepsGuard(e: StoredEdge)
    ensures HasCondition(LoadEdge(e)) <==> e.data.Some? && e.data.value.condition.Some? && e.data.value.condition.value != ""
    ensures HasCondition(LoadEdge(e)) ==> LoadEdge(e).data.value.condition == e.data.value.condition
  {
  }

  /** `buildEdges`: one edge per stored edge, in order. */
  method BuildEdges(stored: seq<StoredEdge>) returns (edges: seq<Edge>)
    ensures |edges| == |stored|
    ensures forall i :: 0 <= i < |stored| ==> edges[i] == LoadEdge(stored[i])
  {
    edges := [];
    for i := 0 to |stored|
      invariant |edges| == i
      invariant forall j :: 0 <= j < i ==> edges[j] == LoadEdge(stored[j])
    {
      var e := stored[i];
      var newEdge := Edge(e.id, e.source, e.target, None);
      if e.data.Some? && e.data.value.condition.Some? && e.data.value.condition.value != "" {
        newEdge := newEdge.(data := Some(EdgeData(Some(e.data.value.condition.value))));
      }
      edges := edges + [newEdge];
    }
  }

  /** One entry of the list of diagrams, with the parent's edit id it reads and sets. */
  class DiagramEntry {
    const diagram: DiagramOutput
    const machine: FlowMachine
    var editId: Option<string>

    constructor (diagram: DiagramOutput, machine: FlowMachine, editId: Option<string>)
      ensures this.diagram == diagram && this.machine == machine && this.editId == editId
    {
      this.diagram := diagram;
      this.machine := machine;
      this.editId := editId;
    }

    /** This file's `handleReset`: unlike the execution panel's, it resets only a `completed` run,
        not a `stopped` one. */
    method HandleReset()
      modifies machine, machine.store
      ensures old(machine.state) == Completed ==>
        && machine.state == State.Idle
        && machine.store.currentNodeId == None
        && machine.store.answers == map[]
        && machine.store.statuses == map[]
      ensures old(machine.state) != Completed ==>
        && machine.state == old(machine.state)
        && machine.store.currentNodeId == old(machine.store.currentNodeId)
        && machine.store.answers == old(machine.store.answers)
        && machine.store.statuses == old(machine.store.statuses)
      ensures machine.currentNodeId == old(machine.currentNodeId)
      ensures machine.store.nodes == old(machine.store.nodes) && machine.store.edges == old(machine.store.edges)
      ensures machine.store.results == old(machine.store.results) && machine.store.viewport == old(machine.store.viewport)
      ensures machine.store.nodeSelected == old(machine.store.nodeSelected)
      ensures machine.store.edgeSelected == old(machine.store.edgeSelected)
    {
      if machine.state == Completed {
        machine.Reset();
        machine.store.ClearRun();
      }
    }

    /** `selectDiagram`: clears the selections, loads the diagram's nodes, edges, viewport and
        results (none when it declares none), resets a completed run and opens the diagram. */
    method SelectDiagram()
      modifies this, machine, machine.store
      ensures machine.store.nodeSelected == None && machine.store.edgeSelected == None
      ensures machine.store.nodes == Loaded(diagram.nodes)
      ensures |machine.store.edges| == |diagram.edges|
      ensures forall i :: 0 <= i < |diagram.edges| ==> machine.store.edges[i] == LoadEdge(diagram.edges[i])
      ensures machine.store.viewport == diagram.viewport
      ensures machine.store.results == diagram.result.GetOr([])
      ensures old(machine.state) == Completed ==>
        machine.state == State.Idle && machine.store.currentNodeId == None && machine.store.answers == map[] && machine.store.statuses == map[]
      ensures old(machine.state) != Completed ==>
        && machine.state == old(machine.state)
        && machine.store.currentNodeId == old(machine.store.currentNodeId)
        && machine.store.answers == old(machine.store.answers)
        && machine.store.statuses == old(machine.store.statuses)
      ensures machine.currentNodeId == old(machine.currentNodeId)
      ensures editId == Some(diagram.id)
    {
      machine.store.nodeSelected := None;
      machine.store.edgeSelected := None;
      var nodes := BuildNodes(diagram.nodes);
      machine.store.nodes := nodes;
      var edges := BuildEdges(diagram.edges);
      machine.store.edges := edges;
      machine.store.viewport := diagram.viewport;
      machine.store.results := diagram.result.GetOr([]);
      HandleReset();
      editId := Some(diagram.id);
    }

    /** `unselectDiagram`: clears the selections, the diagram, the viewport and the results, resets
        a completed run and closes the diagram. */
    method UnselectDiagram()
      modifies this, machine, machine.store
      ensures machine.store.nodeSelected == None && machine.store.edgeSelected == None
      ensures machine.store.nodes == [] && machine.store.edges == []
      ensures machine.store.viewport == Viewport(0.0, 0.0, 1.0)
      ensures machine.store.results == []
      ensures old(machine.state) == Completed ==>
        machine.state == State.Idle && machine.store.currentNodeId == None && machine.store.answers == map[] && machine.store.statuses == map[]
      ensures old(machine.state) != Completed ==>
        && machine.state == old(machine.state)
        && machine.store.currentNodeId == old(machine.store.currentNodeId)
        && machine.store.answers == old(machine.store.answers)
        && machine.store.statuses == old(machine.store.statuses)
      ensures machine.currentNodeId == old(machine.currentNodeId)
      ensures editId == None
    {
      machine.store.nodeSelected := None;
      machine.store.edgeSelected := None;
      machine.store.nodes := [];
      machine.store.edges := [];
      machine.store.viewport := Viewport(0.0, 0.0, 1.0);
      machine.store.results := [];
      HandleReset();
      editId := None;
    }
  }
}
