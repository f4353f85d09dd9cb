/** Documents that pass validation and get stuck all the same: each breaks one of the conditions
    the validator does not check. */
module Counterexamples {
  import opened Common
  import opened Runtime
  import opened Scheduler
  import opened StackShape
  import opened Schema
  import opened Loader
  import opened Parameters
  import opened Soundness
  import opened Stuck
  import opened Validated

  // ---------------------------------------------------------------- documents

  function ADoc(id: string, nodeType: string, functionId: string, outcomeId: string): NodeDoc {
    NodeDoc(Node(id, id, nodeType, true, functionId, outcomeId, "", false, Null), true)
  }

  const STEP := EdgeDoc("edge", Edge("e", "r", "success", "success", "workflow"), false)

  /** A minimal function: an entry "e", a return "r", and the edge between them. */
  function AFunction(functionId: string, graphId: string, entry: string): FunctionDoc {
    FunctionDoc(functionId, "name", "", [], [], [], [Item("system_exception", "x", "")],
      GraphDoc(graphId, entry, [ADoc("e", "function_entry", "", ""), ADoc("r", "function_return", "", "system_exception")], [STEP], false))
  }

  function AWorkflow(node: NodeDoc, f: FunctionDoc): WorkflowDoc {
    WorkflowDoc(GraphDoc("main", "", [node], [], false), [f], [], true)
  }

  lemma Solid(s: string)
    requires s != "" && !IsSpace(s[0]) && !IsSpace(s[|s| - 1])
    ensures Trimmed(s) && !Blank(s)
  {
  }

  const WORDS := ["e", "r", "c", "a", "f", "x", "log", "name", "edge", "main", "success", "system_exception", "function_entry", "function_return", "call_function"]

  lemma KnownWords()
    ensures forall s :: s in WORDS ==> Trimmed(s) && !Blank(s)
    ensures Strip("") == ""
  {
    forall s | s in WORDS ensures Trimmed(s) && !Blank(s) {
      Solid(s);
    }
  }

  lemma FunctionGraphIsValid(functionId: string, graphId: string, entry: string)
    requires Trimmed(graphId) && graphId != ""
    ensures ValidGraph(AFunction(functionId, graphId, entry).graph, true)
  {
    KnownWords();
    hide Strip;
    var g := AFunction(functionId, graphId, entry).graph;
    assert NodeIdList(g.nodes) == ["e", "r"];
    assert EdgeIdList(g.edges) == ["edge"];
    assert forall s :: s in WORDS ==> !Blank(s);
    assert !Blank("e") && !Blank("r") && !Blank("function_entry") && !Blank("function_return");
    assert ValidNode(g.nodes[0]) && ValidNode(g.nodes[1]);
    assert !Blank("edge") && !Blank("success");
    assert ValidEdge(STEP, Elements(["e", "r"]));
  }

  lemma FunctionBodyIsValid(functionId: string, graphId: string, entry: string)
    requires Strip(entry) == "e"
    ensures var f := AFunction(functionId, graphId, entry);
      ValidOutcomes(f.outcomes) && ValidEntry(f.graph) && ValidReturns(f.graph, Elements(IdList(f.outcomes)))
  {
    KnownWords();
    hide Strip;
    var f := AFunction(functionId, graphId, entry);
    assert Trimmed("system_exception") && !Blank("system_exception") && !Blank("x");
    assert IdList(f.outcomes) == ["system_exception"];
    assert "system_exception" in Elements(["system_exception"]);
    assert f.graph.nodes[0].node.nodeType == "function_entry" && f.graph.nodes[1].node.nodeType == "function_return";
  }

  lemma FunctionIsValid(functionId: string, graphId: string, entry: string)
    requires Strip(functionId) == graphId && graphId != "" && Strip(entry) == "e"
    requires Trimmed(graphId)
    ensures ValidFunction(AFunction(functionId, graphId, entry), {})
  {
    hide ValidGraph, ValidEntry, ValidReturns, ValidOutcomes;
    KnownWords();
    assert !Blank("name");
    FunctionGraphIsValid(functionId, graphId, entry);
    FunctionBodyIsValid(functionId, graphId, entry);
    assert IdList([]) == [] && NameList([]) == [];
    assert ParameterItems([]) == [] && LocalItems([]) == [];
  }

  lemma WorkflowIsValid(node: NodeDoc, f: FunctionDoc)
    requires ValidNode(node) && ValidFunction(f, {})
    requires node.node.nodeType == "call_function" ==> Strip(node.node.functionId) == Strip(f.functionId) != "main"
    requires f.graph == AFunction(f.functionId, f.graph.graphId, f.graph.entry).graph
    ensures ValidWorkflow(AWorkflow(node, f))
  {
    hide ValidFunction, ValidNode;
    var w := AWorkflow(node, f);
    Solid("main");
    assert NodeIdList(w.main.nodes) == [node.node.nodeId];
    assert FunctionIdList(w.functions) == [Strip(f.functionId)];
    assert FunctionNameList(w.functions) == [f.name];
    assert IdList(w.folders) == [] && NameList(w.folders) == [];
    assert Elements(IdList(w.folders)) == {};
    assert ValidGraph(w.main, true);
    assert ValidCalls(w.main, MAIN_GRAPH_ID, FunctionIds(w.functions));
    assert ValidCalls(f.graph, f.functionId, FunctionIds(w.functions));
  }

  lemma PlainNodeIsValid(id: string, nodeType: string, functionId: string)
    requires Trimmed(id) && id != "" && Trimmed(nodeType) && nodeType != "" && nodeType != "call_task" && nodeType != "page_state"
    ensures ValidNode(ADoc(id, nodeType, functionId, ""))
  {
  }

  lemma TwoGraphsDisjoint(node: NodeDoc, f: FunctionDoc)
    requires f.graph == AFunction(f.functionId, f.graph.graphId, f.graph.entry).graph
    requires node.node.nodeId != "e" && node.node.nodeId != "r"
    ensures DisjointDocs(AWorkflow(node, f))
  {
  }

  /** The loaded tasks of a one-function workflow. */
  lemma OneFunctionTasks(node: NodeDoc, f: FunctionDoc, pageMap: PageMap)
    ensures var w := AWorkflow(node, f);
      Load(w, pageMap).tasks == map["main" := MainTask(w.main)][f.functionId := FunctionTask(f)]
  {
    var w := AWorkflow(node, f);
    assert w.functions[..0] == [];
    assert AddFunctions(map["main" := MainTask(w.main)], []) == map["main" := MainTask(w.main)];
  }

  lemma CaseIsValid(node: NodeDoc, f: FunctionDoc, id: string, nodeType: string, functionId: string, graphId: string,
      entry: string)
    requires node == ADoc(id, nodeType, if nodeType == "call_function" then functionId else "", "")
    requires id in ["e", "c", "a"] && nodeType in ["log", "call_function"]
    requires f == AFunction(f.functionId, graphId, entry) && graphId in ["f", "main"]
    requires Strip(f.functionId) == graphId && Strip(entry) == "e"
    requires nodeType == "call_function" ==> functionId == graphId == "f"
    ensures ValidWorkflow(AWorkflow(node, f))
  {
    hide Strip, ValidWorkflow, ValidFunction, ValidNode;
    KnownWords();
    assert Trimmed(id) && Trimmed(nodeType) && Trimmed(graphId);
    PlainNodeIsValid(id, nodeType, if nodeType == "call_function" then functionId else "");
    FunctionIsValid(f.functionId, graphId, entry);
    WorkflowIsValid(node, f);
  }

  lemma Padded(s: string)
    requires Trimmed(s) && s != ""
    ensures Strip(" " + s) == s && " " + s != s
  {
  }

  lemma OnlyNodeIsFound(task: Task)
    requires |task.nodes| == 1 && task.nodes[0].nodeId != ""
    ensures FoundAt(task, 0)
  {
  }

  /** The validator strips function ids, the loader does not: a padded id passes validation, and a
      run that reaches the call logs an unknown function. */
  lemma PaddedFunctionIdGetsStuck(pageMap: PageMap)
    ensures var w := AWorkflow(ADoc("c", "call_function", "f", ""), AFunction(" f", "f", "e"));
      var p, env, c := Load(w, pageMap), ProbeEnv("", "", true, []), Initial("main", "c", map[], map[]);
      && ValidWorkflow(w) && DisjointDocs(w) && Forwards(env)
      && Shaped(p, c) && UnknownFunction in LogOf(Run(p, env, 1, c))
  {
    hide Strip, ValidWorkflow, Load, Run, Initial, Forwards;
    var node, f := ADoc("c", "call_function", "f", ""), AFunction(" f", "f", "e");
    KnownWords();
    assert Trimmed("f") && Trimmed("e");
    Padded("f");
    assert " f" == " " + "f";
    CaseIsValid(node, f, "c", "call_function", "f", "f", "e");
    TwoGraphsDisjoint(node, f);
    OneFunctionTasks(node, f, pageMap);
    var p := Load(AWorkflow(node, f), pageMap);
    assert |"main"| == 4 && |" f"| == 2;
    assert "f" !in p.tasks;
    assert p.tasks["main"].nodes[0] == node.node;
    OnlyNodeIsFound(p.tasks["main"]);
    OneTurnFails(p, "main", 0, "", "", true);
    ProbeForwards("", "", true, []);
  }

  /** So does a padded entry id: the function loads, but its start node is not in its graph, and the
      run that calls it logs a missing start. */
  lemma PaddedEntryGetsStuck(pageMap: PageMap)
    ensures var w := AWorkflow(ADoc("c", "call_function", "f", ""), AFunction("f", "f", " e"));
      var p, env, c := Load(w, pageMap), ProbeEnv("", "", true, []), Initial("main", "c", map[], map[]);
      && ValidWorkflow(w) && DisjointDocs(w) && Forwards(env)
      && Shaped(p, c) && MissingStart in LogOf(Run(p, env, 2, c))
  {
    hide Strip, ValidWorkflow, Load, Run, Initial, Forwards;
    var node, f := ADoc("c", "call_function", "f", ""), AFunction("f", "f", " e");
    KnownWords();
    assert Trimmed("f") && Trimmed("e");
    Padded("e");
    assert " e" == " " + "e";
    CaseIsValid(node, f, "c", "call_function", "f", "f", " e");
    TwoGraphsDisjoint(node, f);
    OneFunctionTasks(node, f, pageMap);
    var p := Load(AWorkflow(node, f), pageMap);
    assert |"main"| == 4 && |"f"| == 1;
    assert p.tasks["f"] == FunctionTask(f);
    assert |" e"| == 2 && |"e"| == 1 && |"r"| == 1;
    assert !Inside(p.tasks["f"], " e");
    assert p.tasks["main"].nodes[0] == node.node;
    OnlyNodeIsFound(p.tasks["main"]);
    MissingEntryFails(p, "main", 0, "f");
    assert EveryInput([]) == [] && Declarations([]) == [];
    ProbeForwards("", "", true, []);
  }

  /** Node ids need only be unique within a graph to pass validation.  Shared between graphs, a
      node inherits the other graph's edges, and its success port leads out of its own graph. */
  lemma SharedNodeIdGetsStuck(pageMap: PageMap)
    ensures var w := AWorkflow(ADoc("e", "log", "", ""), AFunction("f", "f", "e"));
      var p, env, c := Load(w, pageMap), ProbeEnv("success", "", false, []), Initial("main", "e", map[], map[]);
      && ValidWorkflow(w) && WrittenAsCalled(w) && NoFunctionIsMain(w) && Forwards(env)
      && Shaped(p, c) && MissingTarget in LogOf(Run(p, env, 1, c))
  {
    hide Strip, ValidWorkflow, Run, Initial, Forwards;
    var node, f := ADoc("e", "log", "", ""), AFunction("f", "f", "e");
    var w := AWorkflow(node, f);
    KnownWords();
    assert Trimmed("f") && Trimmed("e");
    CaseIsValid(node, f, "e", "log", "f", "f", "e");
    assert |"main"| == 4 && |"f"| == 1;
    OneFunctionTasks(node, f, pageMap);
    var p := Load(w, pageMap);
    var main := p.tasks["main"];
    assert main == MainTask(w.main) && main.nodes[0] == node.node;
    SharedEdges(node, f, pageMap);
    assert FindEdgeJump([STEP.edge], "success", "") == "r";
    assert |"e"| == |"r"| == 1 && "e"[0] != "r"[0];
    assert !Inside(main, "r");
    OnlyNodeIsFound(main);
    OneTurnFails(p, "main", 0, "success", "", false);
    ProbeForwards("success", "", false, []);
    NothingIsCalled(node, f);
  }

  lemma NothingIsCalled(node: NodeDoc, f: FunctionDoc)
    requires node.node.nodeType == "log" && f == AFunction("f", "f", "e")
    ensures WrittenAsCalled(AWorkflow(node, f))
  {
    hide Strip;
    var w := AWorkflow(node, f);
    forall k, i | 0 <= k <= 1 && 0 <= i < |GraphAt(w, k).nodes| ensures GraphAt(w, k).nodes[i].node.nodeType != "call_function" {
      assert "log" != "call_function" && "function_entry" != "call_function" && "function_return" != "call_function" by {
        assert |"log"| == 3 && |"function_entry"| == 14 && |"call_function"| == 13 && |"function_return"| == 15;
      }
    }
  }

  lemma SharedEdges(node: NodeDoc, f: FunctionDoc, pageMap: PageMap)
    requires f == AFunction("f", "f", "e")
    ensures OutEdges(Load(AWorkflow(node, f), pageMap).edges, "e") == [STEP.edge]
  {
    var w := AWorkflow(node, f);
    assert w.functions[..0] == [] && FunctionEdges([]) == [];
    assert EdgesOf(w.main.edges) == [] && EdgesOf([STEP]) == [STEP.edge];
    assert Load(w, pageMap).edges == [STEP.edge];
    assert [STEP.edge][1..] == [];
  }

  /** A function may carry the id "main": it passes validation and replaces the main graph. */
  lemma FunctionNamedMainReplacesMain(pageMap: PageMap)
    ensures var w := AWorkflow(ADoc("a", "log", "", ""), AFunction("main", "main", "e"));
      && ValidWorkflow(w) && DisjointDocs(w)
      && Load(w, pageMap).tasks == map["main" := FunctionTask(w.functions[0])]
  {
    hide Strip, ValidWorkflow, Load;
    var node, f := ADoc("a", "log", "", ""), AFunction("main", "main", "e");
    KnownWords();
    assert Trimmed("main") && Trimmed("e");
    CaseIsValid(node, f, "a", "log", "main", "main", "e");
    TwoGraphsDisjoint(node, f);
    OneFunctionTasks(node, f, pageMap);
  }
}
