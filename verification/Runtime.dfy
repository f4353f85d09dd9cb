/** The runtime project the executor walks: tasks (one per graph), the project-wide edge
    list, and the adjacency view `GraphBuilder` derives from it. */
module Runtime {
  import opened Common

  /** `params` entries the engine itself reads are named; `extra` stands for the others. */
  datatype Node = Node(
    nodeId: string,
    nodeName: string,
    nodeType: string,
    enabled: bool,
    functionId: string,     // params.function_id
    outcomeId: string,      // params.outcome_id
    pageId: string,         // params.page_id
    isRandomPopup: bool,    // params.is_random_popup
    extra: Value)

  datatype Edge = Edge(
    source: string,
    target: string,
    port: string,
    portId: string,
    canvas: string)

  datatype ParamDecl = ParamDecl(id: string, name: string, kind: string, default: Value, required: bool)
  datatype LocalDecl = LocalDecl(id: string, name: string, kind: string, default: Value)

  datatype Task = Task(
    taskId: string,
    role: string,
    nodes: seq<Node>,
    inputs: seq<ParamDecl>,
    locals: seq<LocalDecl>,
    entry: string)

  datatype PageMap = PageMap(nodes: seq<Node>, edges: seq<Edge>)

  datatype Project = Project(tasks: map<string, Task>, edges: seq<Edge>, pageMap: PageMap)

  function NodeIds(nodes: seq<Node>): set<string> {
    set i | 0 <= i < |nodes| :: nodes[i].nodeId
  }

  /** The node-id index: a later node overwrites an earlier one with the same id. */
  function IndexOf(nodes: seq<Node>, id: string): (r: Option<nat>)
    ensures r.Some? ==> r.value < |nodes| && nodes[r.value].nodeId == id
    ensures r.Some? ==> forall j :: r.value < j < |nodes| ==> nodes[j].nodeId != id
    ensures r.None? ==> id !in NodeIds(nodes)
  {
    if nodes == [] then None
    else if nodes[|nodes| - 1].nodeId == id then Some(|nodes| - 1)
    else
      var r := IndexOf(nodes[..|nodes| - 1], id);
      assert r.None? ==> id !in NodeIds(nodes) by {
        if id in NodeIds(nodes) {
          var i :| 0 <= i < |nodes| && nodes[i].nodeId == id;
          assert nodes[..|nodes| - 1][i].nodeId == id;
        }
      }
      r
  }

  /** Out-edges of a node.  The builder filters the project-wide list by source id alone, so a
      graph also receives the edges of any other graph that reuses one of its node ids. */
  function OutEdges(edges: seq<Edge>, id: string): (r: seq<Edge>)
    ensures forall e :: e in r <==> e in edges && e.canvas == "workflow" && e.source == id
  {
    if edges == [] then []
    else
      var rest := OutEdges(edges[1..], id);
      assert edges == [edges[0]] + edges[1..];
      if edges[0].canvas == "workflow" && edges[0].source == id then [edges[0]] + rest else rest
  }

  lemma {:induction false} OutEdgesConcat(a: seq<Edge>, b: seq<Edge>, id: string)
    ensures OutEdges(a + b, id) == OutEdges(a, id) + OutEdges(b, id)
  {
    if a == [] {
      assert a + b == b;
    } else {
      assert (a + b)[1..] == a[1..] + b;
      OutEdgesConcat(a[1..], b, id);
    }
  }

  /** The stable identity of the port an edge leaves from. */
  function PortIdentity(e: Edge): string {
    if e.portId != "" then e.portId else e.port
  }

  predicate Matches(e: Edge, port: string, stableId: string) {
    && e.target != ""
    && if stableId != "" then PortIdentity(e) == stableId else e.port == port
  }

  /** Target of the first matching edge, or "" when no edge matches. */
  function FindEdgeJump(out: seq<Edge>, port: string, stableId: string): (target: string)
    ensures target != "" ==> exists e :: e in out && Matches(e, port, stableId) && e.target == target
    ensures target == "" ==> forall e :: e in out ==> !Matches(e, port, stableId)
  {
    if out == [] then ""
    else if Matches(out[0], port, stableId) then
      assert out[0] in out;
      out[0].target
    else
      var r := FindEdgeJump(out[1..], port, stableId);
      assert forall e :: e in out ==> e == out[0] || e in out[1..];
      r
  }

  /** One entry per wired port of a call node: outcome id -> jump target. */
  function OutcomeJumps(out: seq<Edge>): (jumps: map<string, string>)
    ensures forall k :: k in jumps ==> k != "" && jumps[k] == FindEdgeJump(out, "", k)
    ensures forall k :: k in jumps <==> k != "" && exists e :: e in out && PortIdentity(e) == k
  {
    map e | e in out && PortIdentity(e) != "" :: PortIdentity(e) := FindEdgeJump(out, "", PortIdentity(e))
  }
}
