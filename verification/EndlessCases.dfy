/** Validated projects whose runs go wrong because a call makes the scheduler forget visits, or loses
    track of its caller. */
module EndlessCases {
  import opened Common
  import opened Runtime
  import opened Scheduler
  import opened StackShape
  import opened Schema
  import opened Loader
  import opened Soundness
  import opened Simulation
  import opened PlainDocs
  import opened Validated

  // ---------------------------------------------------------------- the environment

  /** Calls call, returns return an exception, every other node succeeds; one node crashes. */
  function CaseEnv(maxVisits: int, crash: string): Env {
    Env((t, m, node, vars) => (CaseResult(crash, node), vars), (t, vars, v) => Some(v), (v, k) => Some(v), maxVisits)
  }

  function CaseResult(crash: string, node: Node): NodeResult {
    if node.nodeId == crash then Crash
    else if node.nodeType == "call_function" then Ran(true, None, Some(CallIntent(node.functionId, [], [])), None)
    else if node.nodeType == "function_return" then Ran(true, None, None, Some(NO_RESULT))
    else Ran(true, None, None, None)
  }

  lemma CaseForwards(maxVisits: int, crash: string)
    ensures Forwards(CaseEnv(maxVisits, crash))
  {
  }

  /** A function that needs no parameters, and a call that can start it. */
  ghost predicate Bare(p: Project, ctx: Context, f: string) {
    && f != "" && Trimmed(f) && f in p.tasks && p.tasks[f].role == "function" && p.tasks[f].inputs == [] && p.tasks[f].locals == []
    && f !in ctx.active && ctx.depth < MAX_CALL_DEPTH
  }

  predicate Visitable(ctx: Context, i: nat, visited: map<string, nat>, maxVisits: int) {
    i < |ctx.task.nodes| && ctx.task.nodes[i].enabled && Count(visited, ctx.task.nodes[i].nodeId) < maxVisits
  }

  function Visited(ctx: Context, i: nat, visited: map<string, nat>): map<string, nat>
    requires i < |ctx.task.nodes|
  {
    visited[ctx.task.nodes[i].nodeId := Count(visited, ctx.task.nodes[i].nodeId) + 1]
  }

  lemma CallVisit(p: Project, maxVisits: int, crash: string, ctx: Context, i: nat, visited: map<string, nat>, world: World)
    requires Visitable(ctx, i, visited, maxVisits)
    requires ctx.task.nodes[i].nodeType == "call_function" && ctx.task.nodes[i].nodeId != crash && Bare(p, ctx, ctx.task.nodes[i].functionId)
    ensures VisitNode(p, CaseEnv(maxVisits, crash), ctx, i, visited, map[], world) ==
      Visit(Leave(Calling(PendingCall(ctx.task.nodes[i].functionId, map[], OutcomeJumps(OutEdges(p.edges, ctx.task.nodes[i].nodeId)), []))),
        Visited(ctx, i, visited), map[], world.(tick := world.tick + 1))
  {
    hide Strip, OutcomeJumps, OutEdges;
    var env, f := CaseEnv(maxVisits, crash), ctx.task.nodes[i].functionId;
    assert Shared(map[]) == map[];
    assert ChildVars(env, world.tick + 1, p.tasks[f], CallIntent(f, [], []), map[]) == Ok(map[]);
    assert Strip(f) == f;
  }

  lemma ReturnVisit(p: Project, maxVisits: int, crash: string, ctx: Context, i: nat, visited: map<string, nat>, world: World)
    requires Visitable(ctx, i, visited, maxVisits) && ctx.isFunction
    requires ctx.task.nodes[i].nodeType == "function_return" && ctx.task.nodes[i].nodeId != crash
    ensures VisitNode(p, CaseEnv(maxVisits, crash), ctx, i, visited, map[], world) ==
      Visit(Leave(Returned(NO_RESULT)), Visited(ctx, i, visited), map[], world.(tick := world.tick + 1))
  {
    hide OutEdges;
  }

  lemma PlainVisit(p: Project, maxVisits: int, crash: string, ctx: Context, i: nat, visited: map<string, nat>, world: World)
    requires Visitable(ctx, i, visited, maxVisits)
    requires ctx.task.nodes[i].nodeType == "function_entry"
    ensures VisitNode(p, CaseEnv(maxVisits, crash), ctx, i, visited, map[], world) ==
      Visit(if ctx.task.nodes[i].nodeId == crash then Leave(Raised(NodeCrash))
            else Route(ctx.task, OutEdges(p.edges, ctx.task.nodes[i].nodeId), true, None),
        Visited(ctx, i, visited), map[], world.(tick := world.tick + 1))
  {
    hide OutEdges, Route;
  }

  // ---------------------------------------------------------------- a shared node id

  const SHARED_FUNCTION := FunctionOf("f", [NodeOf("e", "function_entry", "", true), NodeOf("n", "function_return", "", true)],
    [EdgeOf("x", "e", "n", "success")])

  /** Main's only node calls `f` and is wired back to itself; `f` has a node of the same id. */
  const SHARED_WORKFLOW := WorkflowOf([NodeOf("n", "call_function", "f", true)], [EdgeOf("x", "n", "n", "system_exception")], [SHARED_FUNCTION])

  const SHARED_MAIN := Task("main", "main", [NodeOf("n", "call_function", "f", true).node], [], [], "")
  const SHARED_TASK := Task("f", "function", [NodeOf("e", "function_entry", "", true).node, NodeOf("n", "function_return", "", true).node], [], [], "e")
  const BACK := EdgeOf("x", "n", "n", "system_exception").edge
  const ON := EdgeOf("x", "e", "n", "success").edge

  lemma SharedFunctionIsValid()
    ensures ValidFunction(SHARED_FUNCTION, {})
  {
    hide ValidFunction, Strip, Plain;
    var g := SHARED_FUNCTION.graph;
    PlainWords();
    assert NodeIdList(g.nodes) == ["e", "n"] && EdgeIdList(g.edges) == ["x"];
    assert "e" in Elements(["e", "n"]) && "n" in Elements(["e", "n"]);
    assert g.nodes[1].node.nodeType == "function_return";
    PlainFunctionIsValid("f", g.nodes, g.edges);
  }

  lemma PlainWords()
    ensures forall s :: s in ["e", "n", "f", "g", "c", "d", "h", "q", "r", "x", "main", "log", "success"] ==> Plain(s)
    ensures forall s :: s in ["system_exception", "function_entry", "function_return", "call_function"] ==> Plain(s)
  {
  }

  lemma SharedIsValid()
    ensures ValidWorkflow(SHARED_WORKFLOW)
  {
    hide ValidWorkflow, ValidFunction, Strip, Plain;
    var w := SHARED_WORKFLOW;
    PlainWords();
    SharedFunctionIsValid();
    assert NodeIdList(w.main.nodes) == ["n"] && EdgeIdList(w.main.edges) == ["x"];
    assert "n" in Elements(["n"]);
    assert PlainCall("f", "main", w.functions) by { assert w.functions[0].functionId == "f"; }
    PlainWorkflowIsValid(w);
  }

  lemma SharedLoads(pageMap: PageMap)
    ensures Load(SHARED_WORKFLOW, pageMap) == Project(map["main" := SHARED_MAIN, "f" := SHARED_TASK], [BACK, ON], pageMap)
  {
    hide Load;
    var w, f := SHARED_WORKFLOW, SHARED_FUNCTION;
    LoadsOne(w, pageMap, f);
    assert EdgesOf(w.main.edges) == [BACK] && EdgesOf(f.graph.edges) == [ON];
    assert DocNodes(w.main.nodes) == SHARED_MAIN.nodes && DocNodes(f.graph.nodes) == SHARED_TASK.nodes;
    LoadKeepsMap(w, pageMap);
  }

  lemma LoadKeepsMap(w: WorkflowDoc, pageMap: PageMap)
    ensures Load(w, pageMap).pageMap == pageMap
  {
  }

  function SharedProject(pageMap: PageMap): Project {
    Project(map["main" := SHARED_MAIN, "f" := SHARED_TASK], [BACK, ON], pageMap)
  }

  lemma SharedEdges(pageMap: PageMap)
    ensures OutEdges([BACK, ON], "n") == [BACK] && OutEdges([BACK, ON], "e") == [ON]
    ensures OutcomeJumps([BACK]) == map["system_exception" := "n"] && FindEdgeJump([ON], "success", "") == "n"
    ensures Strip("f") == "f"
    ensures IndexOf(SHARED_MAIN.nodes, "n") == Some(0) && IndexOf(SHARED_TASK.nodes, "e") == Some(0) && IndexOf(SHARED_TASK.nodes, "n") == Some(1)
  {
    assert [BACK, ON][1..] == [ON] && [ON][1..] == [] && [BACK][1..] == [];
    assert OutEdges([ON], "n") == [] && OutEdges([ON], "e") == [ON];
    OneJump(BACK);
    assert SHARED_TASK.nodes[..1] == [SHARED_TASK.nodes[0]];
  }

  /** The jumps of a node with one wired outcome. */
  lemma OneJump(e: Edge)
    requires PortIdentity(e) != "" && e.target != ""
    ensures OutcomeJumps([e]) == map[PortIdentity(e) := e.target]
  {
    var jumps := OutcomeJumps([e]);
    assert e in [e];
    assert FindEdgeJump([e], "", PortIdentity(e)) == e.target;
  }

  ghost predicate SharedCaller(m: Frame) {
    m.taskId == "main" && !m.isFunction && m.depth == 0 && m.pending.None? && (m.start == "" || m.start == "n") && m.vars == map[]
  }

  /** Main is about to walk, with its node visited at most once since the last call. */
  ghost predicate InMain(c: Config) {
    c.Live? && |c.st.stack| == 1 && SharedCaller(c.st.stack[0]) && (c.st.stack[0].started ==> Count(c.st.visited, "n") <= 1)
  }

  ghost predicate InFunction(c: Config) {
    && c.Live? && |c.st.stack| == 2 && SharedCaller(c.st.stack[0]) && c.st.stack[0].started
    && c.st.stack[1] == Frame("f", true, "e", false, map[], 1, map["system_exception" := "n"], [], None)
  }

  lemma MainCalls(pageMap: PageMap, maxVisits: int, c: Config)
    requires maxVisits >= 2 && InMain(c)
    ensures Grounded(c.st) && InFunction(Step(SharedProject(pageMap), CaseEnv(maxVisits, ""), c))
  {
    hide VisitNode, WalkGraph, OutcomeJumps, OutEdges, CaseEnv, IndexOf, Strip;
    SharedEdges(pageMap);
    var p, env, ctx := SharedProject(pageMap), CaseEnv(maxVisits, ""), ContextOf(SharedProject(pageMap), c.st.stack);
    assert ctx == Context(SHARED_MAIN, false, {}, 0);
    var visited := if c.st.stack[0].started then c.st.visited else Without(c.st.visited, NodeIds(SHARED_MAIN.nodes));
    assert SHARED_MAIN.nodes[0].nodeId in NodeIds(SHARED_MAIN.nodes);
    CallVisit(p, maxVisits, "", ctx, 0, visited, c.st.world);
    WalkOnce(p, env, ctx, 0, visited, map[], c.st.world);
  }

  lemma FunctionWalk(pageMap: PageMap, maxVisits: int, c: Config)
    requires maxVisits >= 2 && InFunction(c)
    ensures var w := WalkTop(SharedProject(pageMap), CaseEnv(maxVisits, ""), c.st);
      w.exit == Returned(NO_RESULT) && w.vars == map[] && Count(w.visited, "n") == 1
  {
    hide VisitNode, WalkGraph, OutcomeJumps, OutEdges, CaseEnv, IndexOf, FindEdgeJump, ActiveFunctions;
    SharedEdges(pageMap);
    var p, env, ctx := SharedProject(pageMap), CaseEnv(maxVisits, ""), ContextOf(SharedProject(pageMap), c.st.stack);
    assert ctx.task == SHARED_TASK && ctx.isFunction;
    var visited := Without(c.st.visited, NodeIds(SHARED_TASK.nodes));
    assert SHARED_TASK.nodes[0].nodeId in NodeIds(SHARED_TASK.nodes) && SHARED_TASK.nodes[1].nodeId in NodeIds(SHARED_TASK.nodes);
    assert "e" != "n" by { assert "e"[0] != "n"[0]; }
    PlainVisit(p, maxVisits, "", ctx, 0, visited, c.st.world);
    WalkOnce(p, env, ctx, 0, visited, map[], c.st.world);
    var between := Visited(ctx, 0, visited);
    ReturnVisit(p, maxVisits, "", ctx, 1, between, c.st.world.(tick := c.st.world.tick + 1));
    WalkOnce(p, env, ctx, 1, between, map[], c.st.world.(tick := c.st.world.tick + 1));
  }

  lemma FunctionReturns(pageMap: PageMap, maxVisits: int, c: Config)
    requires maxVisits >= 2 && InFunction(c)
    ensures Grounded(c.st) && InMain(Step(SharedProject(pageMap), CaseEnv(maxVisits, ""), c))
  {
    hide WalkTop, CaseEnv;
    FunctionWalk(pageMap, maxVisits, c);
    assert Shared(map[]) == map[];
  }

  lemma {:induction false} SharedGoesOn(pageMap: PageMap, maxVisits: int, c: Config, n: nat)
    requires maxVisits >= 2 && Shaped(SharedProject(pageMap), c)
    requires InMain(c) || InFunction(c)
    ensures Run(SharedProject(pageMap), CaseEnv(maxVisits, ""), n, c).Live?
    decreases n
  {
    hide Step, ShapedStack, SharedProject, CaseEnv, SharedCaller;
    if n > 0 {
      var p, env := SharedProject(pageMap), CaseEnv(maxVisits, "");
      if InMain(c) {
        MainCalls(pageMap, maxVisits, c);
      } else {
        FunctionReturns(pageMap, maxVisits, c);
      }
      StepKeepsShape(p, env, c);
      SharedGoesOn(pageMap, maxVisits, Step(p, env, c), n - 1);
    }
  }

  /** Disjoint node ids are needed for every run to be finite.  In a validated project, starting `f`
      resets the counter of main's node: for every visit limit of at least two the run is still going
      after any number of turns, although the environment makes only the calls the project asks for. */
  lemma SharedIdsLoopForever(pageMap: PageMap, maxVisits: int, n: nat)
    requires maxVisits >= 2
    ensures ValidWorkflow(SHARED_WORKFLOW) && Forwards(CaseEnv(maxVisits, ""))
    ensures var p, c := Load(SHARED_WORKFLOW, pageMap), Initial("main", "", map[], map[]);
      Shaped(p, c) && Run(p, CaseEnv(maxVisits, ""), n, c).Live?
  {
    hide ValidWorkflow, Load, Run, Forwards;
    SharedIsValid();
    SharedLoads(pageMap);
    CaseForwards(maxVisits, "");
    SharedGoesOn(pageMap, maxVisits, Initial("main", "", map[], map[]), n);
  }

  // ---------------------------------------------------------------- a run entered at a function

  const F_DOCS := CallerDocs("e", "c", "r", "g")
  const G_DOCS := CallerDocs("h", "d", "q", "f")

  /** `f` calls `g`, and tries again when that fails; `g` calls `f`. */
  const REENTRY_WORKFLOW := WorkflowOf([NodeOf("n", "log", "", true)], [],
    [FunctionOf("f", F_DOCS, [EdgeOf("x", "c", "c", "system_exception")]), FunctionOf("g", G_DOCS, [EdgeOf("x", "h", "d", "success")])])

  const F_TASK := Task("f", "function", [F_DOCS[0].node, F_DOCS[1].node, F_DOCS[2].node], [], [], "e")
  const G_TASK := Task("g", "function", [G_DOCS[0].node, G_DOCS[1].node, G_DOCS[2].node], [], [], "h")
  const LOG_TASK := Task("main", "main", [NodeOf("n", "log", "", true).node], [], [], "")
  const AGAIN := EdgeOf("x", "c", "c", "system_exception").edge
  const DOWN := EdgeOf("x", "h", "d", "success").edge

  function ReentryProject(pageMap: PageMap): Project {
    Project(map["main" := LOG_TASK, "f" := F_TASK, "g" := G_TASK], [AGAIN, DOWN], pageMap)
  }

  lemma FIsValid()
    ensures ValidFunction(FunctionOf("f", F_DOCS, [EdgeOf("x", "c", "c", "system_exception")]), {})
  {
    hide ValidFunction;
    FIds();
    CallerIsValid("f", "e", "c", "r", "g", EdgeOf("x", "c", "c", "system_exception"));
  }

  lemma GIsValid()
    ensures ValidFunction(FunctionOf("g", G_DOCS, [EdgeOf("x", "h", "d", "success")]), {})
  {
    hide ValidFunction;
    GIds();
    CallerIsValid("g", "h", "d", "q", "f", EdgeOf("x", "h", "d", "success"));
  }

  lemma FIds()
    ensures "e" != "c" && "e" != "r" && "c" != "r"
  {
    assert "e"[0] == 'e' && "c"[0] == 'c' && "r"[0] == 'r';
  }

  lemma GIds()
    ensures "h" != "d" && "h" != "q" && "d" != "q"
  {
    assert "h"[0] == 'h' && "d"[0] == 'd' && "q"[0] == 'q';
  }

  lemma ReentryIsValid()
    ensures ValidWorkflow(REENTRY_WORKFLOW)
  {
    hide ValidWorkflow, ValidFunction, Strip, Plain;
    var w := REENTRY_WORKFLOW;
    PlainWords();
    FIsValid();
    GIsValid();
    assert NodeIdList(w.main.nodes) == ["n"] && EdgeIdList(w.main.edges) == [];
    assert w.functions[0].functionId == "f" && w.functions[1].functionId == "g";
    assert PlainCall("g", "f", w.functions) && PlainCall("f", "g", w.functions);
    PlainWorkflowIsValid(w);
  }

  lemma ReentryLoads(pageMap: PageMap)
    ensures Load(REENTRY_WORKFLOW, pageMap) == ReentryProject(pageMap)
  {
    hide Load;
    var w := REENTRY_WORKFLOW;
    LoadsTwo(w, pageMap, w.functions[0], w.functions[1]);
    assert EdgesOf(w.main.edges) == [] && EdgesOf(w.functions[0].graph.edges) == [AGAIN] && EdgesOf(w.functions[1].graph.edges) == [DOWN];
    assert DocNodes(w.main.nodes) == LOG_TASK.nodes && DocNodes(F_DOCS) == F_TASK.nodes && DocNodes(G_DOCS) == G_TASK.nodes;
    LoadKeepsMap(w, pageMap);
    assert |"main"| == 4 && |"f"| == 1;
  }

  lemma ReentryIsDisjoint()
    ensures DisjointDocs(REENTRY_WORKFLOW)
  {
    hide GraphIds;
    FirstLetters(REENTRY_WORKFLOW);
  }

  /** The ids of the three graphs differ in their first letters. */
  lemma FirstLetters(w: WorkflowDoc)
    requires w == REENTRY_WORKFLOW
    ensures forall x :: x in GraphIds(w, 0) ==> x != "" && x[0] == 'n'
    ensures forall x :: x in GraphIds(w, 1) ==> x != "" && x[0] in {'e', 'c', 'r'}
    ensures forall x :: x in GraphIds(w, 2) ==> x != "" && x[0] in {'h', 'd', 'q'}
  {
    hide NodeIds;
    MainIds();
    IdsOfThree(F_DOCS);
    IdsOfThree(G_DOCS);
    assert GraphIds(w, 1) == {"e", "c", "r"} && GraphIds(w, 2) == {"h", "d", "q"};
  }

  lemma MainIds()
    ensures GraphIds(REENTRY_WORKFLOW, 0) == {"n"}
  {
    assert DocNodes(REENTRY_WORKFLOW.main.nodes)[0].nodeId == "n";
  }

  lemma ReentryEdges()
    ensures OutEdges([AGAIN, DOWN], "c") == [AGAIN] && OutEdges([AGAIN, DOWN], "h") == [DOWN] && OutEdges([AGAIN, DOWN], "d") == []
    ensures OutcomeJumps([AGAIN]) == map["system_exception" := "c"] && OutcomeJumps([]) == map[] && FindEdgeJump([DOWN], "success", "") == "d"
  {
    TwoEdges(AGAIN, DOWN, "c");
    TwoEdges(AGAIN, DOWN, "h");
    TwoEdges(AGAIN, DOWN, "d");
    assert "c"[0] == 'c' && "h"[0] == 'h' && "d"[0] == 'd';
    OneJump(AGAIN);
  }

  lemma TwoEdges(a: Edge, b: Edge, id: string)
    requires a.canvas == b.canvas == "workflow"
    ensures OutEdges([a, b], id) == (if a.source == id then [a] else []) + (if b.source == id then [b] else [])
  {
    assert [a, b][1..] == [b] && [b][1..] == [];
    assert OutEdges([b], id) == if b.source == id then [b] else [];
  }

  lemma ReentryNodes()
    ensures Strip("f") == "f" && Strip("g") == "g"
    ensures IndexOf(F_TASK.nodes, "c") == Some(1) && IndexOf(F_TASK.nodes, "e") == Some(0)
    ensures IndexOf(G_TASK.nodes, "h") == Some(0) && IndexOf(G_TASK.nodes, "d") == Some(1)
  {
    hide IndexOf, Strip;
    FIds();
    GIds();
    WordIsPlain("f");
    WordIsPlain("g");
    ThirdOfThree(F_TASK.nodes);
    ThirdOfThree(G_TASK.nodes);
  }

  lemma ThirdOfThree(nodes: seq<Node>)
    requires |nodes| == 3 && nodes[0].nodeId != nodes[1].nodeId && nodes[0].nodeId != nodes[2].nodeId && nodes[1].nodeId != nodes[2].nodeId
    ensures IndexOf(nodes, nodes[0].nodeId) == Some(0) && IndexOf(nodes, nodes[1].nodeId) == Some(1)
  {
    assert nodes[..2][..1] == [nodes[0]];
  }

  /** The main frame, which stands at the call of `g`. */
  ghost predicate Entered(m: Frame) {
    m.taskId == "f" && !m.isFunction && m.depth == 0 && m.pending.None? && m.start == "c" && m.vars == map[]
  }

  function GFrame(started: bool, pending: Option<bool>): Frame {
    Frame("g", true, "h", started, map[], 1, map["system_exception" := "c"], [], pending)
  }

  ghost predicate AtCall(c: Config) {
    c.Live? && |c.st.stack| == 1 && Entered(c.st.stack[0]) && (c.st.stack[0].started ==> Count(c.st.visited, "c") == 0)
  }

  ghost predicate InG(c: Config) {
    c.Live? && |c.st.stack| == 2 && Entered(c.st.stack[0]) && c.st.stack[0].started && c.st.stack[1] == GFrame(false, None)
  }

  ghost predicate InF(c: Config) {
    && c.Live? && |c.st.stack| == 3 && Entered(c.st.stack[0]) && c.st.stack[0].started && c.st.stack[1] == GFrame(true, None)
    && c.st.stack[2] == Frame("f", true, "e", false, map[], 2, map[], [], None)
  }

  ghost predicate GOwes(c: Config) {
    && c.Live? && |c.st.stack| == 2 && Entered(c.st.stack[0]) && c.st.stack[0].started && c.st.stack[1] == GFrame(true, Some(false))
    && Count(c.st.visited, "c") == 0
  }

  lemma CallsG(pageMap: PageMap, maxVisits: int, c: Config)
    requires maxVisits >= 1 && AtCall(c)
    ensures Grounded(c.st) && InG(Step(ReentryProject(pageMap), CaseEnv(maxVisits, "e"), c))
  {
    hide WalkTop, CaseEnv;
    WalksEntered(pageMap, maxVisits, c);
  }

  lemma WalksEntered(pageMap: PageMap, maxVisits: int, c: Config)
    requires maxVisits >= 1 && AtCall(c)
    ensures var w := WalkTop(ReentryProject(pageMap), CaseEnv(maxVisits, "e"), c.st);
      w.exit == Calling(PendingCall("g", map[], map["system_exception" := "c"], [])) && w.vars == map[]
  {
    hide VisitNode, WalkGraph, OutcomeJumps, OutEdges, CaseEnv, IndexOf, Strip;
    ReentryEdges();
    ReentryNodes();
    var p, env := ReentryProject(pageMap), CaseEnv(maxVisits, "e");
    var ctx := ContextOf(p, c.st.stack);
    assert ctx == Context(F_TASK, false, {}, 0);
    var visited := if c.st.stack[0].started then c.st.visited else Without(c.st.visited, NodeIds(F_TASK.nodes));
    assert F_TASK.nodes[1].nodeId in NodeIds(F_TASK.nodes) && F_TASK.nodes[1].nodeId == "c";
    CallVisit(p, maxVisits, "e", ctx, 1, visited, c.st.world);
    WalkOnce(p, env, ctx, 1, visited, map[], c.st.world);
  }

  lemma WalksG(pageMap: PageMap, maxVisits: int, c: Config)
    requires maxVisits >= 1 && InG(c)
    ensures WalkTop(ReentryProject(pageMap), CaseEnv(maxVisits, "e"), c.st).exit == Calling(PendingCall("f", map[], map[], []))
    ensures WalkTop(ReentryProject(pageMap), CaseEnv(maxVisits, "e"), c.st).vars == map[]
  {
    hide VisitNode, WalkGraph, OutcomeJumps, OutEdges, CaseEnv, IndexOf, FindEdgeJump, Strip;
    ReentryEdges();
    ReentryNodes();
    var p, env := ReentryProject(pageMap), CaseEnv(maxVisits, "e");
    var ctx, world := ContextOf(p, c.st.stack), c.st.world;
    assert ctx.task == G_TASK && ctx.depth == 1 && "f" !in ctx.active;
    var visited := Without(c.st.visited, NodeIds(G_TASK.nodes));
    assert G_TASK.nodes[0].nodeId in NodeIds(G_TASK.nodes) && G_TASK.nodes[1].nodeId in NodeIds(G_TASK.nodes);
    PlainVisit(p, maxVisits, "e", ctx, 0, visited, world);
    WalkOnce(p, env, ctx, 0, visited, map[], world);
    var between := Visited(ctx, 0, visited);
    CallVisit(p, maxVisits, "e", ctx, 1, between, world.(tick := world.tick + 1));
    WalkOnce(p, env, ctx, 1, between, map[], world.(tick := world.tick + 1));
  }

  lemma CallsF(pageMap: PageMap, maxVisits: int, c: Config)
    requires maxVisits >= 1 && InG(c)
    ensures Grounded(c.st) && InF(Step(ReentryProject(pageMap), CaseEnv(maxVisits, "e"), c))
  {
    hide WalkTop, CaseEnv;
    WalksG(pageMap, maxVisits, c);
  }

  lemma WalksF(pageMap: PageMap, maxVisits: int, c: Config)
    requires maxVisits >= 1 && InF(c)
    ensures var w := WalkTop(ReentryProject(pageMap), CaseEnv(maxVisits, "e"), c.st);
      w.exit == Raised(NodeCrash) && w.vars == map[] && Count(w.visited, "c") == 0
  {
    hide VisitNode, WalkGraph, OutcomeJumps, OutEdges, CaseEnv, IndexOf, FindEdgeJump, Strip, ActiveFunctions;
    ReentryEdges();
    ReentryNodes();
    var p, env := ReentryProject(pageMap), CaseEnv(maxVisits, "e");
    var ctx := ContextOf(p, c.st.stack);
    assert ctx.task == F_TASK;
    var visited := Without(c.st.visited, NodeIds(F_TASK.nodes));
    assert F_TASK.nodes[0].nodeId in NodeIds(F_TASK.nodes) && F_TASK.nodes[1].nodeId in NodeIds(F_TASK.nodes);
    PlainVisit(p, maxVisits, "e", ctx, 0, visited, c.st.world);
    WalkOnce(p, env, ctx, 0, visited, map[], c.st.world);
  }

  lemma FCrashes(pageMap: PageMap, maxVisits: int, c: Config)
    requires maxVisits >= 1 && InF(c)
    ensures Grounded(c.st) && GOwes(Step(ReentryProject(pageMap), CaseEnv(maxVisits, "e"), c))
  {
    hide WalkTop, CaseEnv;
    WalksF(pageMap, maxVisits, c);
    assert Shared(map[]) == map[];
  }

  lemma GFails(pageMap: PageMap, maxVisits: int, c: Config)
    requires GOwes(c)
    ensures Grounded(c.st) && AtCall(Step(ReentryProject(pageMap), CaseEnv(maxVisits, "e"), c))
  {
    hide WalkGraph, CaseEnv;
    assert Shared(map[]) == map[];
  }

  lemma {:induction false} ReentryGoesOn(pageMap: PageMap, maxVisits: int, c: Config, n: nat)
    requires maxVisits >= 1 && Shaped(ReentryProject(pageMap), c)
    requires AtCall(c) || InG(c) || InF(c) || GOwes(c)
    ensures Run(ReentryProject(pageMap), CaseEnv(maxVisits, "e"), n, c).Live?
    decreases n
  {
    hide Step, ShapedStack, ReentryProject, CaseEnv, Entered, GFrame;
    if n > 0 {
      var p, env := ReentryProject(pageMap), CaseEnv(maxVisits, "e");
      if AtCall(c) {
        CallsG(pageMap, maxVisits, c);
      } else if InG(c) {
        CallsF(pageMap, maxVisits, c);
      } else if InF(c) {
        FCrashes(pageMap, maxVisits, c);
      } else {
        GFails(pageMap, maxVisits, c);
      }
      StepKeepsShape(p, env, c);
      ReentryGoesOn(pageMap, maxVisits, Step(p, env, c), n - 1);
    }
  }

  /** Disjoint node ids are not enough when a run is entered at a function.  The frame it starts in does
      not count as a call of `f`, so `g` may call `f` again, which resets the counter of the node that
      called `g`: for every visit limit the run is still going after any number of turns. */
  lemma FunctionEntryLoopsForever(pageMap: PageMap, maxVisits: int, n: nat)
    requires maxVisits >= 1
    ensures ValidWorkflow(REENTRY_WORKFLOW) && DisjointDocs(REENTRY_WORKFLOW) && Forwards(CaseEnv(maxVisits, "e"))
    ensures var p, c := Load(REENTRY_WORKFLOW, pageMap), Initial("f", "c", map[], map[]);
      DisjointGraphs(p) && Shaped(p, c) && Run(p, CaseEnv(maxVisits, "e"), n, c).Live?
  {
    hide ValidWorkflow, DisjointDocs, DisjointGraphs, Load, Run, Forwards, CaseEnv;
    ReentryIsValid();
    ReentryIsDisjoint();
    ValidatedDisjoint(REENTRY_WORKFLOW, pageMap);
    ReentryLoads(pageMap);
    CaseForwards(maxVisits, "e");
    ReentryGoesOn(pageMap, maxVisits, Initial("f", "c", map[], map[]), n);
  }

  // ---------------------------------------------------------------- a call that falls off

  const FALL_DOCS := FallingDocs("e", "r", "d")

  /** Main's only node calls `f`, whose entry is wired to a disabled last node. */
  const FALL_WORKFLOW := WorkflowOf([NodeOf("c", "call_function", "f", true)], [], [FunctionOf("f", FALL_DOCS, [EdgeOf("x", "e", "d", "success")])])

  const FALL_MAIN := Task("main", "main", [NodeOf("c", "call_function", "f", true).node], [], [], "")
  const FALL_TASK := Task("f", "function", [FALL_DOCS[0].node, FALL_DOCS[1].node, FALL_DOCS[2].node], [], [], "e")
  const OFF := EdgeOf("x", "e", "d", "success").edge

  function FallProject(pageMap: PageMap): Project {
    Project(map["main" := FALL_MAIN, "f" := FALL_TASK], [OFF], pageMap)
  }

  lemma FallIds()
    ensures "e" != "r" && "e" != "d" && "r" != "d" && "e" != "c" && "r" != "c" && "d" != "c"
  {
    assert "e"[0] == 'e' && "r"[0] == 'r' && "d"[0] == 'd' && "c"[0] == 'c';
  }

  lemma FallFunctionIsValid()
    ensures ValidFunction(FunctionOf("f", FALL_DOCS, [EdgeOf("x", "e", "d", "success")]), {})
  {
    hide ValidFunction;
    FallIds();
    FallingIsValid("f", "e", "r", "d", EdgeOf("x", "e", "d", "success"));
  }

  lemma FallIsValid()
    ensures ValidWorkflow(FALL_WORKFLOW)
  {
    hide ValidWorkflow, ValidFunction, Strip, Plain;
    var w := FALL_WORKFLOW;
    PlainWords();
    FallFunctionIsValid();
    assert NodeIdList(w.main.nodes) == ["c"] && EdgeIdList(w.main.edges) == [];
    assert PlainCall("f", "main", w.functions) by { assert w.functions[0].functionId == "f"; }
    PlainWorkflowIsValid(w);
  }

  lemma FallLoads(pageMap: PageMap)
    ensures Load(FALL_WORKFLOW, pageMap) == FallProject(pageMap)
  {
    hide Load;
    var w := FALL_WORKFLOW;
    LoadsOne(w, pageMap, w.functions[0]);
    assert EdgesOf(w.main.edges) == [] && EdgesOf(w.functions[0].graph.edges) == [OFF];
    assert DocNodes(w.main.nodes) == FALL_MAIN.nodes && DocNodes(FALL_DOCS) == FALL_TASK.nodes;
    LoadKeepsMap(w, pageMap);
  }

  lemma FallEdges()
    ensures OutEdges([OFF], "e") == [OFF] && OutEdges([OFF], "c") == [] && OutcomeJumps([]) == map[]
    ensures FindEdgeJump([OFF], "success", "") == "d" && Strip("f") == "f"
    ensures IndexOf(FALL_TASK.nodes, "e") == Some(0) && IndexOf(FALL_TASK.nodes, "d") == Some(2)
  {
    hide Strip;
    FallIds();
    WordIsPlain("f");
    assert [OFF][1..] == [];
    ThirdOfThree(FALL_TASK.nodes);
    assert FALL_TASK.nodes[..2][..1] == [FALL_TASK.nodes[0]];
  }

  const CALLING_MAIN := MainFrame("main", "", map[]).(started := true)

  /** Main is about to walk from its first node, which has been visited `k` times. */
  ghost predicate AtMain(c: Config, k: nat) {
    && c.Live? && |c.st.stack| == 1
    && (if k == 0 then c.st.stack[0] == MainFrame("main", "", map[]) else c.st.stack[0] == CALLING_MAIN && Count(c.st.visited, "c") == k)
  }

  /** And here it has just called `f`. */
  ghost predicate AtCallee(c: Config, k: nat) {
    && c.Live? && |c.st.stack| == 2 && c.st.stack[0] == CALLING_MAIN && Count(c.st.visited, "c") == k
    && c.st.stack[1] == Frame("f", true, "e", false, map[], 1, map[], [], None)
  }

  /** The counters the first turn in a frame starts from. */
  function Fresh(c: Config, nodes: seq<Node>, started: bool): map<string, nat>
    requires c.Live?
  {
    if started then c.st.visited else Without(c.st.visited, NodeIds(nodes))
  }

  lemma FallMainWalks(pageMap: PageMap, maxVisits: nat, c: Config, k: nat)
    requires AtMain(c, k) && k <= maxVisits && maxVisits >= 1
    ensures var w := WalkTop(FallProject(pageMap), CaseEnv(maxVisits, ""), c.st);
      if k == maxVisits then w.exit == Raised(LoopGuard)
      else w.exit == Calling(PendingCall("f", map[], map[], [])) && w.vars == map[] && Count(w.visited, "c") == k + 1
  {
    hide VisitNode, WalkGraph, OutcomeJumps, OutEdges, CaseEnv, IndexOf, Strip;
    FallEdges();
    var p, env := FallProject(pageMap), CaseEnv(maxVisits, "");
    var ctx := ContextOf(p, c.st.stack);
    assert ctx == Context(FALL_MAIN, false, {}, 0);
    var visited := Fresh(c, FALL_MAIN.nodes, k > 0);
    assert FALL_MAIN.nodes[0].nodeId in NodeIds(FALL_MAIN.nodes) && FALL_MAIN.nodes[0].nodeId == "c";
    WalkOnce(p, env, ctx, 0, visited, map[], c.st.world);
    if k == maxVisits {
      GuardVisit(p, maxVisits, ctx, 0, visited, c.st.world);
    } else {
      CallVisit(p, maxVisits, "", ctx, 0, visited, c.st.world);
    }
  }

  lemma GuardVisit(p: Project, maxVisits: nat, ctx: Context, i: nat, visited: map<string, nat>, world: World)
    requires i < |ctx.task.nodes| && ctx.task.nodes[i].enabled && Count(visited, ctx.task.nodes[i].nodeId) >= maxVisits
    ensures VisitNode(p, CaseEnv(maxVisits, ""), ctx, i, visited, map[], world) == Visit(Leave(Raised(LoopGuard)), visited, map[], world)
  {
  }

  lemma FallMainTurns(pageMap: PageMap, maxVisits: nat, c: Config, k: nat)
    requires AtMain(c, k) && k <= maxVisits && maxVisits >= 1
    ensures Grounded(c.st)
    ensures var d := Step(FallProject(pageMap), CaseEnv(maxVisits, ""), c);
      if k == maxVisits then d.Halted? && d.verdict == Failed(LoopGuard) else AtCallee(d, k + 1)
  {
    hide WalkTop, CaseEnv;
    FallMainWalks(pageMap, maxVisits, c, k);
  }

  lemma FallWalks(pageMap: PageMap, maxVisits: nat, c: Config, k: nat)
    requires AtCallee(c, k) && maxVisits >= 1
    ensures var w := WalkTop(FallProject(pageMap), CaseEnv(maxVisits, ""), c.st);
      w.exit == FellOff && Count(w.visited, "c") == k
  {
    hide WalkGraph, CaseEnv, IndexOf, ActiveFunctions;
    FallEdges();
    FallIds();
    var visited := Fresh(c, FALL_TASK.nodes, false);
    IdsOfThree(FALL_DOCS);
    assert DocNodes(FALL_DOCS) == FALL_TASK.nodes;
    FallWalk(pageMap, maxVisits, ContextOf(FallProject(pageMap), c.st.stack), visited, c.st.world);
  }

  lemma FallWalk(pageMap: PageMap, maxVisits: nat, ctx: Context, visited: map<string, nat>, world: World)
    requires ctx.task == FALL_TASK && Count(visited, "e") < maxVisits
    ensures var w := WalkGraph(FallProject(pageMap), CaseEnv(maxVisits, ""), ctx, 0, visited, map[], world);
      w.exit == FellOff && w.visited == Visited(ctx, 0, visited)
  {
    hide VisitNode, WalkGraph, OutEdges, CaseEnv, IndexOf, FindEdgeJump;
    FallEdges();
    var p, env := FallProject(pageMap), CaseEnv(maxVisits, "");
    PlainVisit(p, maxVisits, "", ctx, 0, visited, world);
    WalkOnce(p, env, ctx, 0, visited, map[], world);
    var between, later := Visited(ctx, 0, visited), world.(tick := world.tick + 1);
    WalkOnce(p, env, ctx, 2, between, map[], later);
    PastTheEnd(p, env, ctx, 3, between, map[], later);
  }

  lemma FallTurns(pageMap: PageMap, maxVisits: nat, c: Config, k: nat)
    requires AtCallee(c, k) && k >= 1 && maxVisits >= 1
    ensures Grounded(c.st) && AtMain(Step(FallProject(pageMap), CaseEnv(maxVisits, ""), c), k)
  {
    hide WalkTop, CaseEnv;
    FallWalks(pageMap, maxVisits, c, k);
  }

  lemma {:induction false} FallRounds(pageMap: PageMap, maxVisits: nat, c: Config, k: nat, rounds: nat)
    requires AtMain(c, k) && k + rounds <= maxVisits && maxVisits >= 1 && Shaped(FallProject(pageMap), c)
    ensures AtMain(Run(FallProject(pageMap), CaseEnv(maxVisits, ""), 2 * rounds, c), k + rounds)
    decreases rounds
  {
    hide Step, ShapedStack, FallProject, CaseEnv, AtMain, AtCallee;
    if rounds > 0 {
      var p, env := FallProject(pageMap), CaseEnv(maxVisits, "");
      var d := Round(pageMap, maxVisits, c, k);
      FallRounds(pageMap, maxVisits, d, k + 1, rounds - 1);
      RunAdds(p, env, 2, 2 * (rounds - 1), c);
    }
  }

  /** One call and its fall. */
  lemma Round(pageMap: PageMap, maxVisits: nat, c: Config, k: nat) returns (d: Config)
    requires AtMain(c, k) && k < maxVisits && Shaped(FallProject(pageMap), c)
    ensures var p, env := FallProject(pageMap), CaseEnv(maxVisits, "");
      AtCallee(Run(p, env, 1, c), k + 1) && d == Run(p, env, 2, c) && Shaped(p, d) && AtMain(d, k + 1)
  {
    hide Step, ShapedStack, FallProject, CaseEnv;
    var p, env := FallProject(pageMap), CaseEnv(maxVisits, "");
    FallMainTurns(pageMap, maxVisits, c, k);
    StepKeepsShape(p, env, c);
    RunOne(p, env, c);
    var between := Step(p, env, c);
    FallTurns(pageMap, maxVisits, between, k + 1);
    StepKeepsShape(p, env, between);
    RunOne(p, env, between);
    RunAdds(p, env, 1, 1, c);
    d := Step(p, env, between);
  }

  /** A function of a validated project falls off its end on every call.  Main knows nothing of the call
      then: it starts over and calls again, and again, until the visit limit ends the run with an error. */
  lemma FallenCallIsMadeAgain(pageMap: PageMap, maxVisits: nat, k: nat)
    requires k < maxVisits
    ensures ValidWorkflow(FALL_WORKFLOW) && Forwards(CaseEnv(maxVisits, ""))
    ensures var p, env, c := Load(FALL_WORKFLOW, pageMap), CaseEnv(maxVisits, ""), Initial("main", "", map[], map[]);
      && Shaped(p, c) && AtCallee(Run(p, env, 2 * k + 1, c), k + 1) && AtMain(Run(p, env, 2 * k + 2, c), k + 1)
      && var end := Run(p, env, 2 * maxVisits + 1, c); end.Halted? && end.verdict == Failed(LoopGuard)
  {
    hide ValidWorkflow, Load, Run, Forwards, AtMain, AtCallee, Step;
    FallIsValid();
    FallLoads(pageMap);
    CaseForwards(maxVisits, "");
    var p, env, c := FallProject(pageMap), CaseEnv(maxVisits, ""), Initial("main", "", map[], map[]);
    assert AtMain(c, 0) by { Starts(); }
    FallRounds(pageMap, maxVisits, c, 0, k);
    var _ := Round(pageMap, maxVisits, Run(p, env, 2 * k, c), k);
    RunAdds(p, env, 2 * k, 1, c);
    RunAdds(p, env, 2 * k, 2, c);
    FallRounds(pageMap, maxVisits, c, 0, maxVisits);
    var end := Run(p, env, 2 * maxVisits, c);
    FallMainTurns(pageMap, maxVisits, end, maxVisits);
    RunOne(p, env, end);
    RunAdds(p, env, 2 * maxVisits, 1, c);
  }

  lemma Starts()
    ensures AtMain(Initial("main", "", map[], map[]), 0)
  {
  }
}
