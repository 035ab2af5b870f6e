/** The diagram schemas (`CreateDiagramValidationSchema`, `UpdateDiagramValidationSchema` and their
    sub-schemas) over already typed drafts: each schema is a predicate, and the issue list the check
    reports is empty exactly when the predicate holds. */
module DiagramValidation {
  import opened Wrappers
  import opened FlowTypes
  import opened SchemaIssues

  const LABEL_REQUIRED: string := "Label is required"
  const VALUE_REQUIRED: string := "Value is required"
  const NODE_ID_REQUIRED: string := "Node ID is required"
  const NODE_TYPE_REQUIRED: string := "Node type is required"
  const EDGE_ID_REQUIRED: string := "Edge ID is required"
  const EDGE_SOURCE_REQUIRED: string := "Edge source is required"
  const EDGE_TARGET_REQUIRED: string := "Edge target is required"
  const TITLE_REQUIRED: string := "Title is required"
  const TITLE_TOO_LONG: string := "Title too long (max 100 characters)"
  const DESCRIPTION_REQUIRED: string := "Description is required"
  const DESCRIPTION_TOO_LONG: string := "Description too long (max 500 characters)"
  const TITLE_MAX: nat := 100
  const DESCRIPTION_MAX: nat := 500

  datatype Measured = Measured(width: real, height: real)

  /** A node as submitted: the payload is optional. */
  datatype NodeDraft = NodeDraft(id: string, nodeType: string, position: Position, measured: Measured, data: Option<Data>)

  /** An edge as submitted: its type and payload are optional. */
  datatype EdgeDraft = EdgeDraft(id: string, source: string, target: string, edgeType: Option<string>, data: Option<Data>)

  datatype ViewportDraft = ViewportDraft(x: Option<real>, y: Option<real>, zoom: Option<real>)

  /** The body of a create request. */
  datatype CreateDraft = CreateDraft(
    title: string,
    description: string,
    isPublic: Option<bool>,
    result: Option<seq<ResultInput>>,
    nodes: Option<seq<NodeDraft>>,
    edges: Option<seq<EdgeDraft>>,
    viewport: Option<ViewportDraft>)

  /** The body of an update request: every field may be absent. */
  datatype UpdateDraft = UpdateDraft(
    title: Option<string>,
    description: Option<string>,
    isPublic: Option<bool>,
    result: Option<seq<ResultInput>>,
    nodes: Option<seq<NodeDraft>>,
    edges: Option<seq<EdgeDraft>>,
    viewport: Option<ViewportDraft>)

  // ---------------------------------------------------------------------------------------------
  // The schemas as predicates

  predicate ResultValid(r: ResultInput) { r.labelText != "" && r.value != "" }
  predicate NodeValid(n: NodeDraft) { n.id != "" && n.nodeType != "" }
  predicate EdgeValid(e: EdgeDraft) { e.id != "" && e.source != "" && e.target != "" }

  predicate TitleValid(t: string) { 1 <= |t| <= TITLE_MAX }
  predicate DescriptionValid(d: string) { 1 <= |d| <= DESCRIPTION_MAX }

  /** The optional arrays shared by both schemas: when present, every element is valid. */
  predicate PartsValid(result: Option<seq<ResultInput>>, nodes: Option<seq<NodeDraft>>, edges: Option<seq<EdgeDraft>>) {
    && (result.Some? ==> forall r :: r in result.value ==> ResultValid(r))
    && (nodes.Some? ==> forall n :: n in nodes.value ==> NodeValid(n))
    && (edges.Some? ==> forall e :: e in edges.value ==> EdgeValid(e))
  }

  predicate CreateValid(d: CreateDraft) {
    TitleValid(d.title) && DescriptionValid(d.description) && PartsValid(d.result, d.nodes, d.edges)
  }

  predicate UpdateValid(d: UpdateDraft) {
    && (d.title.Some? ==> TitleValid(d.title.value))
    && (d.description.Some? ==> DescriptionValid(d.description.value))
    && PartsValid(d.result, d.nodes, d.edges)
  }

  // ---------------------------------------------------------------------------------------------
  // The issues the schemas report

  function ResultIssues(path: Path, r: ResultInput): (issues: seq<Issue>)
    ensures issues == [] <==> ResultValid(r)
  {
    RequiredIssues(path + [Key("label")], r.labelText, LABEL_REQUIRED)
      + RequiredIssues(path + [Key("value")], r.value, VALUE_REQUIRED)
  }

  function NodeIssues(path: Path, n: NodeDraft): (issues: seq<Issue>)
    ensures issues == [] <==> NodeValid(n)
  {
    RequiredIssues(path + [Key("id")], n.id, NODE_ID_REQUIRED)
      + RequiredIssues(path + [Key("type")], n.nodeType, NODE_TYPE_REQUIRED)
  }

  function EdgeIssues(path: Path, e: EdgeDraft): (issues: seq<Issue>)
    ensures issues == [] <==> EdgeValid(e)
  {
    RequiredIssues(path + [Key("id")], e.id, EDGE_ID_REQUIRED)
      + RequiredIssues(path + [Key("source")], e.source, EDGE_SOURCE_REQUIRED)
      + RequiredIssues(path + [Key("target")], e.target, EDGE_TARGET_REQUIRED)
  }

  function TitleIssues(path: Path, t: string): (issues: seq<Issue>)
    ensures issues == [] <==> TitleValid(t)
  {
    LengthIssues(path, t, 1, TITLE_MAX, TITLE_REQUIRED, TITLE_TOO_LONG)
  }

  function DescriptionIssues(path: Path, d: string): (issues: seq<Issue>)
    ensures issues == [] <==> DescriptionValid(d)
  {
    LengthIssues(path, d, 1, DESCRIPTION_MAX, DESCRIPTION_REQUIRED, DESCRIPTION_TOO_LONG)
  }

  function ArrayIssues<T>(key: string, items: Option<seq<T>>, check: (Path, T) -> seq<Issue>): seq<Issue> {
    match items
    case None => []
    case Some(xs) => EachIssues([Key(key)], xs, check, 0)
  }

  function PartsIssues(result: Option<seq<ResultInput>>, nodes: Option<seq<NodeDraft>>, edges: Option<seq<EdgeDraft>>)
    : (issues: seq<Issue>)
    ensures issues == [] <==> PartsValid(result, nodes, edges)
  {
    ArrayIssuesEmpty("result", result, ResultIssues, ResultValid);
    ArrayIssuesEmpty("nodes", nodes, NodeIssues, NodeValid);
    ArrayIssuesEmpty("edges", edges, EdgeIssues, EdgeValid);
    ArrayIssues("result", result, ResultIssues) + ArrayIssues("nodes", nodes, NodeIssues) + ArrayIssues("edges", edges, EdgeIssues)
  }

  /** An optional array raises no issue exactly when it is absent or all its elements are valid. */
  lemma ArrayIssuesEmpty<T>(key: string, items: Option<seq<T>>, check: (Path, T) -> seq<Issue>, valid: T -> bool)
    requires forall path, x :: check(path, x) == [] <==> valid(x)
    ensures ArrayIssues(key, items, check) == [] <==> (items.Some? ==> forall x :: x in items.value ==> valid(x))
  {
    if items.Some? {
      var xs := items.value;
      if ArrayIssues(key, items, check) == [] {
        forall x | x in xs
          ensures valid(x)
        {
          var i :| 0 <= i < |xs| && xs[i] == x;
          assert check([Key(key)] + [Index(0 + i)], xs[i]) == [];
        }
      }
    }
  }

  /** `CreateDiagramValidationSchema.safeParse`: the issues of the title, the description, then the
      optional arrays; none exactly when the draft is valid. */
  function CreateIssues(d: CreateDraft): (issues: seq<Issue>)
    ensures issues == [] <==> CreateValid(d)
  {
    TitleIssues([Key("title")], d.title) + DescriptionIssues([Key("description")], d.description)
      + PartsIssues(d.result, d.nodes, d.edges)
  }

  /** `UpdateDiagramValidationSchema.safeParse`: the same constraints on whatever is present. */
  function UpdateIssues(d: UpdateDraft): (issues: seq<Issue>)
    ensures issues == [] <==> UpdateValid(d)
  {
    OptionalIssues([Key("title")], d.title, TitleIssues)
      + OptionalIssues([Key("description")], d.description, DescriptionIssues)
      + PartsIssues(d.result, d.nodes, d.edges)
  }

  /** A create body read as an update of every field. */
  function AsUpdate(d: CreateDraft): UpdateDraft {
    UpdateDraft(Some(d.title), Some(d.description), d.isPublic, d.result, d.nodes, d.edges, d.viewport)
  }

  /** The update schema applies the create schema's bounds to every field it is given: a body with
      every field present passes one schema exactly when it passes the other, and an absent title
      or description is never an issue. */
  lemma UpdateAgreesWithCreate(d: CreateDraft)
    ensures UpdateIssues(AsUpdate(d)) == CreateIssues(d)
    ensures UpdateValid(AsUpdate(d)) <==> CreateValid(d)
  {
  }

  /** Titles and descriptions of at most the bound are accepted, one character more is not. */
  lemma LengthBoundsAreTight(t: string, c: char)
    requires |t| == TITLE_MAX
    ensures TitleIssues([Key("title")], t) == []
    ensures TitleIssues([Key("title")], t + [c]) == [Issue([Key("title")], TITLE_TOO_LONG)]
    ensures TitleIssues([Key("title")], []) == [Issue([Key("title")], TITLE_REQUIRED)]
  {
  }
}
