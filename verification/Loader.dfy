/** From documents to the runtime project. */
module Loader {
  import opened Common
  import opened Runtime
  import opened Schema

  function EdgesOf(edges: seq<EdgeDoc>): (r: seq<Edge>)
    ensures |r| == |edges| && forall i :: 0 <= i < |edges| ==> r[i] == edges[i].edge
  {
    seq(|edges|, i requires 0 <= i < |edges| => edges[i].edge)
  }

  function MainTask(g: GraphDoc): Task {
    Task(MAIN_GRAPH_ID, "main", DocNodes(g.nodes), [], [], g.entry)
  }

  /** `_task_from_graph` for a function.  Ids are taken as they are, not stripped. */
  function FunctionTask(f: FunctionDoc): Task {
    Task(f.functionId, "function", DocNodes(f.graph.nodes), f.parameters, f.locals, f.graph.entry)
  }

  function AddFunctions(tasks: map<string, Task>, functions: seq<FunctionDoc>): map<string, Task> {
    if functions == [] then tasks
    else AddFunctions(tasks, functions[..|functions| - 1])[functions[|functions| - 1].functionId := FunctionTask(functions[|functions| - 1])]
  }

  function FunctionEdges(functions: seq<FunctionDoc>): seq<Edge> {
    if functions == [] then []
    else FunctionEdges(functions[..|functions| - 1]) + EdgesOf(functions[|functions| - 1].graph.edges)
  }

  /** The loaded project: tasks keyed by raw id, a later one replacing an earlier; one edge list. */
  function Load(w: WorkflowDoc, pageMap: PageMap): Project {
    Project(
      AddFunctions(map[MAIN_GRAPH_ID := MainTask(w.main)], w.functions),
      EdgesOf(w.main.edges) + FunctionEdges(w.functions),
      pageMap)
  }

  /** `project_from_documents` */
  method ProjectFromDocuments(w: WorkflowDoc, pageMap: PageMap) returns (p: Project)
    ensures p == Load(w, pageMap)
  {
    var tasks: map<string, Task> := map[MAIN_GRAPH_ID := MainTask(w.main)];
    var edges: seq<Edge> := [];
    for i := 0 to |w.main.edges|
      invariant edges == EdgesOf(w.main.edges)[..i]
    {
      edges := edges + [w.main.edges[i].edge];
    }
    for i := 0 to |w.functions|
      invariant tasks == AddFunctions(map[MAIN_GRAPH_ID := MainTask(w.main)], w.functions[..i])
      invariant edges == EdgesOf(w.main.edges) + FunctionEdges(w.functions[..i])
    {
      var f := w.functions[i];
      assert w.functions[..i + 1][..i] == w.functions[..i];
      tasks := tasks[f.functionId := FunctionTask(f)];
      ghost var before := edges;
      for j := 0 to |f.graph.edges|
        invariant edges == before + EdgesOf(f.graph.edges)[..j]
      {
        edges := edges + [f.graph.edges[j].edge];
      }
      assert edges == EdgesOf(w.main.edges) + (FunctionEdges(w.functions[..i]) + EdgesOf(f.graph.edges));
    }
    assert w.functions[..|w.functions|] == w.functions;
    return Project(tasks, edges, pageMap);
  }

  /** The last function with a given raw id. */
  function LastWithId(functions: seq<FunctionDoc>, id: string): (r: Option<nat>)
    ensures r.Some? ==> r.value < |functions| && functions[r.value].functionId == id
    ensures r.None? ==> forall i :: 0 <= i < |functions| ==> functions[i].functionId != id
  {
    if functions == [] then None
    else if functions[|functions| - 1].functionId == id then Some(|functions| - 1)
    else
      var r := LastWithId(functions[..|functions| - 1], id);
      assert forall i :: 0 <= i < |functions| - 1 ==> functions[..|functions| - 1][i] == functions[i];
      r
  }

  lemma {:induction false} AddFunctionsLookup(tasks: map<string, Task>, functions: seq<FunctionDoc>, id: string)
    ensures var m := AddFunctions(tasks, functions);
      match LastWithId(functions, id)
      case Some(i) => id in m && m[id] == FunctionTask(functions[i])
      case None => (id in m <==> id in tasks) && (id in m ==> m[id] == tasks[id])
  {
    if functions != [] {
      AddFunctionsLookup(tasks, functions[..|functions| - 1], id);
    }
  }

  lemma {:induction false} FunctionEdgesMember(functions: seq<FunctionDoc>, e: Edge)
    ensures e in FunctionEdges(functions) <==> exists i :: 0 <= i < |functions| && e in EdgesOf(functions[i].graph.edges)
  {
    hide EdgesOf;
    if functions != [] {
      var n := |functions| - 1;
      FunctionEdgesMember(functions[..n], e);
      assert forall i :: 0 <= i < n ==> functions[..n][i] == functions[i];
      assert functions[n] == functions[|functions| - 1];
    }
  }
}
