/** From the validator to the scheduler: exactly when documents that pass validation load to
    projects that never get stuck. */
module Validated {
  import opened Common
  import opened Runtime
  import opened Scheduler
  import opened StackShape
  import opened Reach
  import opened Halting
  import opened Refinement
  import opened Simulation
  import opened BigStep
  import opened Schema
  import opened Loader
  import opened Parameters
  import opened Soundness
  import opened Stuck

  /** Graph 0 is main; graph `k > 0` belongs to function `k - 1`. */
  function GraphAt(w: WorkflowDoc, k: nat): GraphDoc
    requires k <= |w.functions|
  {
    if k == 0 then w.main else w.functions[k - 1].graph
  }

  function GraphIds(w: WorkflowDoc, k: nat): set<string>
    requires k <= |w.functions|
  {
    NodeIds(DocNodes(GraphAt(w, k).nodes))
  }

  ghost predicate DisjointDocs(w: WorkflowDoc) {
    forall j, k :: 0 <= j < k <= |w.functions| ==> GraphIds(w, j) !! GraphIds(w, k)
  }

  /** Graph `k` is loaded, unless it is main's and a function called main takes its place. */
  ghost predicate Loaded(w: WorkflowDoc, k: nat)
    requires k <= |w.functions|
  {
    k == 0 ==> NoFunctionIsMain(w)
  }

  ghost predicate NoFunctionIsMain(w: WorkflowDoc) {
    LastWithId(w.functions, MAIN_GRAPH_ID).None?
  }

  /** An enabled node of some loaded graph calls `f`. */
  ghost predicate CalledIn(w: WorkflowDoc, f: string) {
    exists k, i :: 0 <= k <= |w.functions| && Loaded(w, k) && 0 <= i < |GraphAt(w, k).nodes| && Calls(GraphAt(w, k).nodes[i].node, f)
  }

  /** Functions that are called have ids the loader and the scheduler read alike: nothing for `strip`
      to remove from the function id, and an entry id that is, as written, a node of the graph. */
  ghost predicate WrittenAsCalled(w: WorkflowDoc) {
    forall j :: 0 <= j < |w.functions| && CalledIn(w, Strip(w.functions[j].functionId)) ==>
      && Trimmed(w.functions[j].functionId)
      && (Suppliable(FunctionTask(w.functions[j])) ==> w.functions[j].graph.entry in GraphIds(w, j + 1))
  }

  /** Task `t` of the loaded project comes from graph `k`. */
  ghost predicate ComesFrom(w: WorkflowDoc, p: Project, t: string, k: nat)
    requires k <= |w.functions| && t in p.tasks
  {
    p.tasks[t] == if k == 0 then MainTask(w.main) else FunctionTask(w.functions[k - 1])
  }

  lemma TaskOrigin(w: WorkflowDoc, pageMap: PageMap, t: string) returns (k: nat)
    requires t in Load(w, pageMap).tasks
    ensures k <= |w.functions| && ComesFrom(w, Load(w, pageMap), t, k) && Loaded(w, k)
    ensures t == if k == 0 then MAIN_GRAPH_ID else w.functions[k - 1].functionId
  {
    AddFunctionsLookup(map[MAIN_GRAPH_ID := MainTask(w.main)], w.functions, t);
    k := match LastWithId(w.functions, t) case Some(i) => i + 1 case None => 0;
  }

  /** And every graph that is loaded is found under its task's id. */
  lemma GraphIsLoaded(w: WorkflowDoc, pageMap: PageMap, k: nat) returns (t: string)
    requires ValidWorkflow(w) && k <= |w.functions| && Loaded(w, k)
    ensures t in Load(w, pageMap).tasks && ComesFrom(w, Load(w, pageMap), t, k)
    ensures t == if k == 0 then MAIN_GRAPH_ID else w.functions[k - 1].functionId
  {
    hide ValidGraph, ValidFunction, ValidCalls, ValidFolders;
    t := if k == 0 then MAIN_GRAPH_ID else w.functions[k - 1].functionId;
    AddFunctionsLookup(map[MAIN_GRAPH_ID := MainTask(w.main)], w.functions, t);
    if k > 0 {
      var last := LastWithId(w.functions, t).value;
      SameIdSameFunction(w, last, k - 1);
    }
  }

  lemma SameIdSameFunction(w: WorkflowDoc, i: nat, j: nat)
    requires ValidWorkflow(w) && i < |w.functions| && j < |w.functions|
    requires Strip(w.functions[i].functionId) == Strip(w.functions[j].functionId)
    ensures i == j
  {
    hide ValidGraph, ValidFunction, ValidCalls, ValidFolders, Strip;
    assert FunctionIdList(w.functions)[i] == FunctionIdList(w.functions)[j];
  }

  lemma NodeListIds(nodes: seq<NodeDoc>)
    ensures Elements(NodeIdList(nodes)) == NodeIds(DocNodes(nodes))
  {
    forall x ensures x in NodeIdList(nodes) <==> x in NodeIds(DocNodes(nodes)) {
      if x in NodeIdList(nodes) {
        var i :| 0 <= i < |nodes| && NodeIdList(nodes)[i] == x;
        assert DocNodes(nodes)[i].nodeId == x;
      }
      if x in NodeIds(DocNodes(nodes)) {
        var i :| 0 <= i < |DocNodes(nodes)| && DocNodes(nodes)[i].nodeId == x;
        assert NodeIdList(nodes)[i] == x;
      }
    }
  }

  lemma GraphIsValid(w: WorkflowDoc, k: nat)
    requires ValidWorkflow(w) && k <= |w.functions|
    ensures ValidGraph(GraphAt(w, k), true)
  {
    hide ValidGraph, ValidOutcomes, ValidItems, ValidReturns, ValidEntry, ValidCalls, ValidFolders, UniqueFunctions;
    if k > 0 { assert ValidFunction(w.functions[k - 1], Elements(IdList(w.folders))); }
  }

  /** In a valid graph edges stay inside. */
  lemma EdgeEnds(w: WorkflowDoc, k: nat, e: Edge)
    requires ValidWorkflow(w) && k <= |w.functions|
    requires e in EdgesOf(GraphAt(w, k).edges)
    ensures e.source in GraphIds(w, k) && e.target in GraphIds(w, k)
  {
    hide ValidOutcomes, ValidItems, ValidReturns, ValidEntry, ValidCalls, ValidFolders, UniqueFunctions;
    var g := GraphAt(w, k);
    GraphIsValid(w, k);
    var i :| 0 <= i < |g.edges| && EdgesOf(g.edges)[i] == e;
    NodeListIds(g.nodes);
    assert ValidEdge(g.edges[i], Elements(NodeIdList(g.nodes)));
  }

  lemma EdgeOrigin(w: WorkflowDoc, pageMap: PageMap, e: Edge) returns (k: nat)
    requires e in Load(w, pageMap).edges
    ensures k <= |w.functions| && e in EdgesOf(GraphAt(w, k).edges)
  {
    if e in EdgesOf(w.main.edges) {
      k := 0;
    } else {
      FunctionEdgesMember(w.functions, e);
      var i :| 0 <= i < |w.functions| && e in EdgesOf(w.functions[i].graph.edges);
      k := i + 1;
    }
  }

  lemma ValidatedRoutesInside(w: WorkflowDoc, pageMap: PageMap)
    requires ValidWorkflow(w) && DisjointDocs(w)
    ensures RoutesInside(Load(w, pageMap))
  {
    hide ValidWorkflow, FindEdgeJump, OutEdges, Load;
    var p := Load(w, pageMap);
    forall t, i, port, id | t in p.tasks && 0 <= i < |p.tasks[t].nodes| && p.tasks[t].nodes[i].enabled
      ensures Inside(p.tasks[t], FindEdgeJump(OutEdges(p.edges, p.tasks[t].nodes[i].nodeId), port, id))
    {
      var out := OutEdges(p.edges, p.tasks[t].nodes[i].nodeId);
      var target := FindEdgeJump(out, port, id);
      if target != "" {
        var e :| e in out && e.target == target;
        var k := TaskOrigin(w, pageMap, t);
        var j := EdgeOrigin(w, pageMap, e);
        EdgeEnds(w, j, e);
        assert p.tasks[t].nodes[i].nodeId in GraphIds(w, k);
        assert j == k;
      }
    }
  }

  // ---------------------------------------------------------------- what validation does give

  lemma NothingIsBlank()
    ensures Blank("")
  {
  }

  lemma ValidIdsAreFound(g: GraphDoc, task: Task, i: nat)
    requires ValidGraph(g, true) && task.nodes == DocNodes(g.nodes) && i < |task.nodes|
    ensures FoundAt(task, i)
  {
    hide ValidEdge, Strip, IndexOf, TrimLeft, TrimRight;
    var id := task.nodes[i].nodeId;
    NothingIsBlank();
    assert ValidNode(g.nodes[i]);
    assert NodeIdList(g.nodes)[i] == id;
    assert id in NodeIds(task.nodes);
    var r := IndexOf(task.nodes, id);
    assert NodeIdList(g.nodes)[r.value] == id;
  }

  lemma ValidatedIdsAreProper(w: WorkflowDoc, pageMap: PageMap)
    requires ValidWorkflow(w)
    ensures ProperIds(Load(w, pageMap))
  {
    hide ValidWorkflow, ValidGraph, Load, FoundAt;
    var p := Load(w, pageMap);
    forall t, i | t in p.tasks && 0 <= i < |p.tasks[t].nodes| ensures FoundAt(p.tasks[t], i) {
      var k := TaskOrigin(w, pageMap, t);
      GraphIsValid(w, k);
      ValidIdsAreFound(GraphAt(w, k), p.tasks[t], i);
    }
  }

  /** A validated call names some function, once both ids are stripped. */
  lemma CallNamesFunction(w: WorkflowDoc, k: nat, i: nat) returns (m: nat)
    requires ValidWorkflow(w) && k <= |w.functions| && i < |GraphAt(w, k).nodes|
    requires GraphAt(w, k).nodes[i].node.nodeType == "call_function"
    ensures m < |w.functions| && Strip(w.functions[m].functionId) == Strip(GraphAt(w, k).nodes[i].node.functionId)
  {
    hide ValidFunction, ValidGraph, ValidFolders, UniqueFunctions, Strip;
    var f := Strip(GraphAt(w, k).nodes[i].node.functionId);
    assert f in FunctionIds(w.functions) by {
      if k > 0 { assert ValidCalls(w.functions[k - 1].graph, w.functions[k - 1].functionId, FunctionIds(w.functions)); }
    }
    m :| 0 <= m < |w.functions| && FunctionIdList(w.functions)[m] == f;
  }

  lemma CalledInTask(w: WorkflowDoc, pageMap: PageMap, t: string, i: nat, f: string)
    requires t in Load(w, pageMap).tasks && i < |Load(w, pageMap).tasks[t].nodes|
    requires Calls(Load(w, pageMap).tasks[t].nodes[i], f)
    ensures CalledIn(w, f)
  {
    hide Load, Strip;
    var k := TaskOrigin(w, pageMap, t);
    assert GraphAt(w, k).nodes[i].node == Load(w, pageMap).tasks[t].nodes[i];
  }

  lemma CalledByTask(w: WorkflowDoc, pageMap: PageMap, f: string) returns (t: string, i: nat)
    requires ValidWorkflow(w) && CalledIn(w, f)
    ensures t in Load(w, pageMap).tasks && i < |Load(w, pageMap).tasks[t].nodes| && Calls(Load(w, pageMap).tasks[t].nodes[i], f)
  {
    hide Load, ValidWorkflow, Strip, Loaded;
    var k, j :| 0 <= k <= |w.functions| && Loaded(w, k) && 0 <= j < |GraphAt(w, k).nodes| && Calls(GraphAt(w, k).nodes[j].node, f);
    t := GraphIsLoaded(w, pageMap, k);
    i := j;
  }

  lemma ValidatedCallsKnown(w: WorkflowDoc, pageMap: PageMap)
    requires ValidWorkflow(w) && WrittenAsCalled(w)
    ensures CallsKnown(Load(w, pageMap))
  {
    hide ValidWorkflow, Load, Strip, NoFunctionIsMain, Suppliable, CalledIn;
    var p := Load(w, pageMap);
    forall t, i | t in p.tasks && 0 <= i < |p.tasks[t].nodes| ensures CallKnown(p, p.tasks[t].nodes[i]) {
      var f := Strip(p.tasks[t].nodes[i].functionId);
      if Calls(p.tasks[t].nodes[i], f) {
        var k := TaskOrigin(w, pageMap, t);
        var m := CallNamesFunction(w, k, i);
        CalledInTask(w, pageMap, t, i, f);
        var t' := GraphIsLoaded(w, pageMap, m + 1);
      }
    }
  }

  lemma ValidatedEntriesKnown(w: WorkflowDoc, pageMap: PageMap)
    requires ValidWorkflow(w) && WrittenAsCalled(w)
    ensures EntriesKnown(Load(w, pageMap))
  {
    hide ValidWorkflow, Load, Strip, Loaded, Suppliable, CalledIn;
    var p := Load(w, pageMap);
    forall f | Enterable(p, f) ensures Inside(p.tasks[f], p.tasks[f].entry) {
      var k := TaskOrigin(w, pageMap, f);
      var t, i :| t in p.tasks && 0 <= i < |p.tasks[t].nodes| && Calls(p.tasks[t].nodes[i], f);
      CalledInTask(w, pageMap, t, i, f);
      StripIsTrimmed(p.tasks[t].nodes[i].functionId);
      assert p.tasks[f] == FunctionTask(w.functions[k - 1]);
    }
  }

  lemma EntryIsWritten(w: WorkflowDoc, j: nat)
    requires ValidWorkflow(w) && j < |w.functions|
    ensures w.functions[j].graph.entry != ""
  {
    hide ValidOutcomes, ValidItems, ValidReturns, ValidCalls, ValidFolders, UniqueFunctions, ValidEdge;
    assert ValidFunction(w.functions[j], Elements(IdList(w.folders)));
    var g := w.functions[j].graph;
    var i :| 0 <= i < |g.nodes| && g.nodes[i].node.nodeId == Strip(g.entry);
    NothingIsBlank();
    assert ValidNode(g.nodes[i]);
  }

  /** Where calls and entries are known, called functions are written as they are called. */
  lemma KnownIsWritten(w: WorkflowDoc, pageMap: PageMap, j: nat)
    requires ValidWorkflow(w) && CallsKnown(Load(w, pageMap)) && EntriesKnown(Load(w, pageMap))
    requires j < |w.functions| && CalledIn(w, Strip(w.functions[j].functionId))
    ensures Trimmed(w.functions[j].functionId)
    ensures Suppliable(FunctionTask(w.functions[j])) ==> w.functions[j].graph.entry in GraphIds(w, j + 1)
  {
    hide ValidWorkflow, Load, Strip, Loaded, Suppliable, CalledIn;
    var p, f := Load(w, pageMap), Strip(w.functions[j].functionId);
    var t, i := CalledByTask(w, pageMap, f);
    assert CallKnown(p, p.tasks[t].nodes[i]);
    var k := TaskOrigin(w, pageMap, f);
    StripIsTrimmed(w.functions[j].functionId);
    SameIdSameFunction(w, k - 1, j);
    EntryIsWritten(w, j);
    if Suppliable(FunctionTask(w.functions[j])) {
      assert Enterable(p, f);
    }
  }

  lemma ValidatedDisjoint(w: WorkflowDoc, pageMap: PageMap)
    requires DisjointDocs(w)
    ensures DisjointGraphs(Load(w, pageMap))
  {
    hide Load, Loaded;
    var p := Load(w, pageMap);
    forall s, t | s in p.tasks && t in p.tasks && s != t ensures NodeIds(p.tasks[s].nodes) !! NodeIds(p.tasks[t].nodes) {
      var j := TaskOrigin(w, pageMap, s);
      var k := TaskOrigin(w, pageMap, t);
      assert GraphIds(w, j) !! GraphIds(w, k);
    }
  }

  lemma MainIsLoaded(w: WorkflowDoc, pageMap: PageMap)
    requires NoFunctionIsMain(w)
    ensures var p := Load(w, pageMap); MAIN_GRAPH_ID in p.tasks && p.tasks[MAIN_GRAPH_ID] == MainTask(w.main)
  {
    AddFunctionsLookup(map[MAIN_GRAPH_ID := MainTask(w.main)], w.functions, MAIN_GRAPH_ID);
  }

  /** When validated documents never get stuck.  On no run from any loaded graph, of any length, in
      any forwarding environment, is anything ever missing -- no task, no start node, no jump target,
      no function -- exactly if enabled nodes route inside their graphs, as they do whenever graphs
      share no node id, and the functions that are called are written as they are called. */
  lemma ValidatedNeverStuck(w: WorkflowDoc, pageMap: PageMap)
    requires ValidWorkflow(w)
    ensures NeverFindsMissing(Load(w, pageMap)) <==> RoutesInside(Load(w, pageMap)) && WrittenAsCalled(w)
    ensures DisjointDocs(w) ==> RoutesInside(Load(w, pageMap))
  {
    hide ValidWorkflow, DisjointDocs, RoutesInside, CallsKnown, EntriesKnown, NeverFindsMissing, ProperIds, Load, CalledIn, Suppliable, Strip;
    var p := Load(w, pageMap);
    ValidatedIdsAreProper(w, pageMap);
    NeverStuckIff(p);
    if DisjointDocs(w) { ValidatedRoutesInside(w, pageMap); }
    if WrittenAsCalled(w) {
      ValidatedCallsKnown(w, pageMap);
      ValidatedEntriesKnown(w, pageMap);
    }
    if CallsKnown(p) && EntriesKnown(p) {
      forall j | 0 <= j < |w.functions| && CalledIn(w, Strip(w.functions[j].functionId))
        ensures Trimmed(w.functions[j].functionId)
        ensures Suppliable(FunctionTask(w.functions[j])) ==> w.functions[j].graph.entry in GraphIds(w, j + 1)
      {
        KnownIsWritten(w, pageMap, j);
      }
    }
  }

  /** And their runs are finite, with the recursive meaning. */
  lemma ValidatedRunsAreFinite(w: WorkflowDoc, pageMap: PageMap, env: Env, start: string, vars: Vars, visited: map<string, nat>)
    returns (n: nat)
    requires NoFunctionIsMain(w) && DisjointDocs(w)
    ensures var p, c := Load(w, pageMap), Initial(MAIN_GRAPH_ID, start, vars, visited);
      Shaped(p, c) && Run(p, env, n, c).Halted? && Run(p, env, n, c) == RunMain(p, env, MAIN_GRAPH_ID, start, vars)
  {
    hide NoFunctionIsMain, DisjointDocs, DisjointGraphs, Load, RunMain;
    ValidatedDisjoint(w, pageMap);
    MainIsLoaded(w, pageMap);
    n := RefinesRecursiveSemantics(Load(w, pageMap), env, MAIN_GRAPH_ID, start, vars, visited);
  }
}
