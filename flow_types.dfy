/** The data model of a flow diagram: node kinds and statuses, the typed node and edge the engine
    walks, the declared results, and the dynamically typed values answers are made of. */
module FlowTypes {
  import opened Wrappers

  /** `MyNodeType`: the seven kinds of node a diagram may hold. */
  datatype NodeType = Input | Question | HttpRequest | GeminiInfo | Gemini | Puter | Output

  /** The string a node type is written as in a stored diagram. */
  function NodeTypeTag(t: NodeType): string {
    match t
    case Input => "input"
    case Question => "question"
    case HttpRequest => "http-request"
    case GeminiInfo => "gemini-info"
    case Gemini => "gemini"
    case Puter => "puter"
    case Output => "output"
  }

  /** Reads a stored type tag: exactly the seven tags name a node type, each a different one. */
  function ParseNodeType(tag: string): (t: Option<NodeType>)
    ensures forall u :: t == Some(u) <==> NodeTypeTag(u) == tag
  {
    if tag == "input" then Some(Input)
    else if tag == "question" then Some(Question)
    else if tag == "http-request" then Some(HttpRequest)
    else if tag == "gemini-info" then Some(GeminiInfo)
    else if tag == "gemini" then Some(Gemini)
    else if tag == "puter" then Some(Puter)
    else if tag == "output" then Some(Output)
    else None
  }

  /** `NodeStatus`: the badge a node shows during a run. */
  datatype NodeStatus = Idle | Running | Executed | Error

  function NodeStatusTag(s: NodeStatus): string {
    match s
    case Idle => "idle"
    case Running => "running"
    case Executed => "executed"
    case Error => "error"
  }

  /** Reads a status tag: exactly the four tags name a status, each a different one. */
  function ParseNodeStatus(tag: string): (s: Option<NodeStatus>)
    ensures forall u :: s == Some(u) <==> NodeStatusTag(u) == tag
  {
    if tag == "idle" then Some(NodeStatus.Idle)
    else if tag == "running" then Some(NodeStatus.Running)
    else if tag == "executed" then Some(Executed)
    else if tag == "error" then Some(Error)
    else None
  }

  // The option lists the node editors offer. They are plain string arrays (not `as const`), so the
  // aliases `QuestionType`, `HttpMethod` and `ResponseType` derived from them are just `string`.
  const QUESTION_TYPES: seq<string> := ["text", "select", "number"]
  const HTTP_METHODS: seq<string> := ["GET", "POST", "PUT", "DELETE"]
  const RESPONSE_TYPES: seq<string> := ["json", "text"]

  /** A JavaScript value as the engine passes it around: answers, node payload fields and executor
      outputs. Numbers are reals (no NaN or infinities). */
  datatype Value =
    | Undefined
    | Null
    | Bool(b: bool)
    | Num(n: real)
    | Str(s: string)
    | Arr(items: seq<Value>)
    | Obj(fields: map<string, Value>)

  /** JavaScript truthiness. */
  predicate Truthy(v: Value) {
    match v
    case Undefined => false
    case Null => false
    case Bool(b) => b
    case Num(n) => n != 0.0
    case Str(s) => s != ""
    case Arr(_) => true
    case Obj(_) => true
  }

  /** The answer recorded for a node whose executor failed: `{ error: message }`. */
  function ErrorPayload(message: string): Value {
    Obj(map["error" := Str(message)])
  }

  /** A node payload is an open record (`MyNodeDataRoot extends Record<string, unknown>`). */
  type Data = map<string, Value>
  /** The store's answers: node id to the value produced for that node. */
  type Answers = map<string, Value>
  /** The store's node statuses: node id to status. */
  type Statuses = map<string, NodeStatus>

  /** `data.key`: a missing field reads as `undefined`. */
  function Field(data: Data, key: string): Value {
    if key in data then data[key] else Undefined
  }

  datatype Position = Position(x: real, y: real)

  /** The canvas viewport: pan offset and zoom. */
  datatype Viewport = Viewport(x: real, y: real, zoom: real)

  /** `MyNode`: a node with its id, its type tag, its place on the canvas and its payload. */
  datatype Node = Node(id: string, nodeType: NodeType, position: Position, data: Data)

  /** `MyEdge.data`: an optional object with an optional condition. */
  datatype EdgeData = EdgeData(condition: Option<string>)

  /** `MyEdge`: a directed connection, optionally guarded by a condition expression. */
  datatype Edge = Edge(id: string, source: string, target: string, data: Option<EdgeData>)

  /** A result declared on a diagram: a label (`label` is a reserved word in Dafny), an expression
      deciding whether it is shown, and an optional reference text. */
  datatype ResultInput = ResultInput(labelText: string, value: string, reference: Option<string>)

  /** The condition evaluator: an expression evaluated with the answers in scope. `Some(b)` is the
      outcome; `None` means the evaluation threw. The expression is a value because callers pass
      whatever a payload field holds, `undefined` included. */
  type Evaluator = (Value, Answers) -> Option<bool>

  /** `nodes.find((n) => n.id === id)`: the first node carrying the id; `null` matches no node. */
  function FindNode(nodes: seq<Node>, id: Option<string>): (r: Option<Node>)
    ensures r.Some? ==> r.value in nodes && id == Some(r.value.id)
    ensures r.None? <==> id.None? || forall n :: n in nodes ==> n.id != id.value
  {
    if |nodes| == 0 || id.None? then None
    else if nodes[0].id == id.value then Some(nodes[0])
    else FindNode(nodes[1..], id)
  }

  /** `nodes.find((n) => n.type === t)`: the first node of a type. */
  function FirstOfType(nodes: seq<Node>, t: NodeType): (r: Option<Node>)
    ensures r.Some? ==> r.value in nodes && r.value.nodeType == t
    ensures r.None? <==> forall n :: n in nodes ==> n.nodeType != t
  {
    if |nodes| == 0 then None
    else if nodes[0].nodeType == t then Some(nodes[0])
    else FirstOfType(nodes[1..], t)
  }

  /** `find` returns the FIRST match: the node at the earliest index with the id. */
  lemma {:induction false} FindNodeIsFirst(nodes: seq<Node>, id: string, k: nat)
    requires k < |nodes| && nodes[k].id == id
    requires forall j :: 0 <= j < k ==> nodes[j].id != id
    ensures FindNode(nodes, Some(id)) == Some(nodes[k])
  {
    if k > 0 {
      FindNodeIsFirst(nodes[1..], id, k - 1);
    }
  }

  /** The same for the first node of a type. */
  lemma {:induction false} FirstOfTypeIsFirst(nodes: seq<Node>, t: NodeType, k: nat)
    requires k < |nodes| && nodes[k].nodeType == t
    requires forall j :: 0 <= j < k ==> nodes[j].nodeType != t
    ensures FirstOfType(nodes, t) == Some(nodes[k])
  {
    if k > 0 {
      FirstOfTypeIsFirst(nodes[1..], t, k - 1);
    }
  }

  predicate IsString(v: Value) { v.Str? }
  predicate OptionalString(v: Value) { v.Undefined? || v.Str? }
  predicate OptionalNumber(v: Value) { v.Undefined? || v.Num? }
  predicate OptionalStatus(v: Value) { v.Undefined? || (v.Str? && ParseNodeStatus(v.s).Some?) }

  /** The payload interfaces: which fields a node of each type must carry (`QuestionNodeData`,
      `HttpNodeData`, ...). Every payload has a string `label` and may carry a `status`. */
  predicate PayloadFits(t: NodeType, data: Data) {
    && IsString(Field(data, "label"))
    && OptionalStatus(Field(data, "status"))
    && match t
       case Input => true
       case Question =>
         && IsString(Field(data, "question"))
         && IsString(Field(data, "valid"))
         && IsString(Field(data, "questionType"))
         && (Field(data, "options").Undefined? || Field(data, "options").Arr?)
       case HttpRequest =>
         IsString(Field(data, "endpoint")) && IsString(Field(data, "method")) && IsString(Field(data, "responseType"))
       case GeminiInfo => OptionalString(Field(data, "apiKey"))
       case Gemini =>
         IsString(Field(data, "prompt")) && IsString(Field(data, "model")) && OptionalNumber(Field(data, "temperature"))
       case Puter => IsString(Field(data, "prompt")) && IsString(Field(data, "model"))
       case Output => true
  }
}
