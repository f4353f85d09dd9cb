/** Trimming preserves meaning: the scheduler cannot tell a trimmed blueprint from the full one. */
module TrimMeaning {
  import opened Common
  import opened Runtime
  import opened Scheduler
  import opened StackShape
  import opened Schema
  import opened Loader
  import opened Soundness
  import opened Exporter
  import Counterexamples

  function LoadBlueprint(b: Blueprint): Project {
    Load(b.workflow, b.pageMap)
  }

  predicate NoPopups(m: PageMap) {
    forall i :: 0 <= i < |m.nodes| ==> !(m.nodes[i].nodeType == "page_state" && m.nodes[i].isRandomPopup)
  }

  /** Apart from smart jumps, executing a node depends on the page map only through its popups. */
  ghost predicate ReadsMapOnlyForPopups(env: Env) {
    forall tick: nat, node: Node, vars: Vars, m: PageMap, m': PageMap :: node.nodeType != "smart_jump" && NoPopups(m) && NoPopups(m') ==>
      env.exec(tick, m, node, vars) == env.exec(tick, m', node, vars)
  }

  // ---------------------------------------------------------------- indistinguishable projects

  /** `small` is a part of `big` that nothing in it can look out of: same tasks, same out-edges,
      same calls, and a page map that makes no difference to its nodes. */
  ghost predicate Sealed(env: Env, big: Project, small: Project) {
    && (forall t :: t in small.tasks ==> t in big.tasks && big.tasks[t] == small.tasks[t])
    && (forall t, i :: t in small.tasks && 0 <= i < |small.tasks[t].nodes| ==> SealedNode(env, big, small, small.tasks[t].nodes[i]))
  }

  ghost predicate SealedNode(env: Env, big: Project, small: Project, node: Node) {
    && OutEdges(big.edges, node.nodeId) == OutEdges(small.edges, node.nodeId)
    && (forall tick, vars :: env.exec(tick, big.pageMap, node, vars) == env.exec(tick, small.pageMap, node, vars))
    && (node.nodeType == "call_function" && Strip(node.functionId) != "" ==> Strip(node.functionId) in small.tasks)
  }

  lemma SameVisit(big: Project, small: Project, env: Env, ctx: Context, t: string, index: nat, visited: map<string, nat>,
      vars: Vars, world: World)
    requires Forwards(env) && Sealed(env, big, small)
    requires t in small.tasks && ctx.task == small.tasks[t] && index < |ctx.task.nodes|
    ensures VisitNode(big, env, ctx, index, visited, vars, world) == VisitNode(small, env, ctx, index, visited, vars, world)
  {
    hide Route, OutcomeJumps, ChildVars, OutEdges, Dispatch;
    var node := ctx.task.nodes[index];
    assert SealedNode(env, big, small, node);
    var (r, vars') := env.exec(world.tick, big.pageMap, node, vars);
    assert env.exec(world.tick, big.pageMap, node, vars) == env.exec(world.tick, small.pageMap, node, vars);
    SameDispatch(big, small, env, ctx, node, r, vars', world.(tick := world.tick + 1));
  }

  lemma SameDispatch(big: Project, small: Project, env: Env, ctx: Context, node: Node, r: NodeResult, vars: Vars, world: World)
    requires forall t :: t in small.tasks ==> t in big.tasks && big.tasks[t] == small.tasks[t]
    requires SealedNode(env, big, small, node)
    requires r.Ran? && r.call.Some? ==> node.nodeType == "call_function" && Strip(r.call.value.functionId) == Strip(node.functionId)
    ensures Dispatch(big, env, ctx, node, r, vars, world) == Dispatch(small, env, ctx, node, r, vars, world)
  {
    hide Route, OutcomeJumps, Schedule, OutEdges, Strip;
    if r.Ran? && r.success && r.call.Some? {
      ScheduleReads(big, small, env, ctx, world.tick, r.call.value, vars);
    }
  }

  lemma {:induction false} SameWalk(big: Project, small: Project, env: Env, ctx: Context, t: string, index: nat,
      visited: map<string, nat>, vars: Vars, world: World)
    requires Forwards(env) && Sealed(env, big, small)
    requires t in small.tasks && ctx.task == small.tasks[t]
    ensures var w := WalkGraph(small, env, ctx, index, visited, vars, world);
      && WalkGraph(big, env, ctx, index, visited, vars, world) == w
      && (w.exit.Calling? ==> w.exit.call.functionId in small.tasks)
    decreases Budget(ctx.task.nodes, visited, env.maxVisits), |ctx.task.nodes| - index
  {
    hide Forwards, Sealed, VisitNode, WalkGraph;
    if index >= |ctx.task.nodes| {
      PastTheEnd(big, env, ctx, index, visited, vars, world);
      PastTheEnd(small, env, ctx, index, visited, vars, world);
    } else {
      SameVisit(big, small, env, ctx, t, index, visited, vars, world);
      WalkOnce(big, env, ctx, index, visited, vars, world);
      WalkOnce(small, env, ctx, index, visited, vars, world);
      VisitCallsKnownFunction(small, env, ctx, index, visited, vars, world);
      var v := VisitNode(small, env, ctx, index, visited, vars, world);
      if !ctx.task.nodes[index].enabled {
        SameWalk(big, small, env, ctx, t, index + 1, visited, vars, world);
      } else if v.move.Goto? {
        VisitShrinks(small, env, ctx, index, visited, vars, world);
        SameWalk(big, small, env, ctx, t, v.move.index, v.visited, v.vars, v.world);
      }
    }
  }

  ghost predicate Within(small: Project, c: Config) {
    c.Live? ==> forall i :: 0 <= i < |c.st.stack| ==> c.st.stack[i].taskId in small.tasks
  }

  lemma SameWalkTop(big: Project, small: Project, env: Env, st: State)
    requires Forwards(env) && Sealed(env, big, small)
    requires st.stack != [] && st.stack[|st.stack| - 1].taskId in small.tasks
    ensures st.stack[|st.stack| - 1].taskId in big.tasks
    ensures var w := WalkTop(small, env, st);
      && WalkTop(big, env, st) == w
      && (w.exit.Calling? ==> w.exit.call.functionId in small.tasks)
  {
    hide Forwards, SealedNode, WalkGraph;
    var f := st.stack[|st.stack| - 1];
    var task := small.tasks[f.taskId];
    var visited := if f.started then st.visited else Without(st.visited, NodeIds(task.nodes));
    if f.pending.None? && StartIndex(task, f.start).Some? {
      SameWalk(big, small, env, ContextOf(small, st.stack), f.taskId, StartIndex(task, f.start).value, visited, f.vars, st.world);
    }
  }

  lemma SameStep(big: Project, small: Project, env: Env, c: Config)
    requires Forwards(env) && Sealed(env, big, small)
    requires Shaped(small, c) && Within(small, c)
    ensures c.Live? ==> Grounded(c.st)
    ensures Step(big, env, c) == Step(small, env, c) && Within(small, Step(small, env, c))
  {
    hide Forwards, SealedNode, WalkTop, AfterWalk;
    StepKeepsShape(small, env, c);
    if c.Live? {
      var stack := c.st.stack;
      var below, f := stack[..|stack| - 1], stack[|stack| - 1];
      SameWalkTop(big, small, env, c.st);
      SameAfter(big, small, below, f.(pending := None, started := true), WalkTop(small, env, c.st));
    }
  }

  lemma SameAfter(big: Project, small: Project, below: seq<Frame>, f: Frame, w: Walk)
    requires f.isFunction ==> below != []
    requires f.taskId in small.tasks && forall i :: 0 <= i < |below| ==> below[i].taskId in small.tasks
    requires forall t :: t in small.tasks ==> t in big.tasks && big.tasks[t] == small.tasks[t]
    requires w.exit.Calling? ==> w.exit.call.functionId in small.tasks
    ensures AfterWalk(big, below, f, w) == AfterWalk(small, below, f, w) && Within(small, AfterWalk(small, below, f, w))
  {
    hide ReturnToCaller;
    if f.isFunction && !w.exit.FellOff? && !w.exit.Calling? {
      var r := if w.exit.Returned? then w.exit.result else NO_RESULT;
      forall world {
        ReturnStaysWithin(small, below, f, w.vars, r, w.visited, world);
      }
    }
  }

  lemma ReturnStaysWithin(small: Project, below: seq<Frame>, f: Frame, vars: Vars, r: FnResult, visited: map<string, nat>,
      world: World)
    requires below != [] && forall i :: 0 <= i < |below| ==> below[i].taskId in small.tasks
    ensures Within(small, ReturnToCaller(below, f, vars, r, visited, world))
  {
    hide MergeBack, OutcomeTarget;
  }

  lemma ShapedInBoth(big: Project, small: Project, c: Config)
    requires Shaped(small, c)
    requires forall t :: t in small.tasks ==> t in big.tasks && big.tasks[t] == small.tasks[t]
    ensures Shaped(big, c)
  {
  }

  /** Lock-step: from any shared configuration the two projects go through the same states. */
  lemma {:induction false} SameRun(big: Project, small: Project, env: Env, n: nat, c: Config)
    requires Forwards(env) && Sealed(env, big, small)
    requires Shaped(small, c) && Within(small, c)
    ensures Shaped(big, c)
    ensures Run(big, env, n, c) == Run(small, env, n, c)
  {
    ShapedInBoth(big, small, c);
    if n > 0 {
      hide Forwards, SealedNode, Step, ShapedStack, Within;
      SameStep(big, small, env, c);
      StepKeepsShape(small, env, c);
      SameRun(big, small, env, n - 1, Step(small, env, c));
    }
  }

  // ---------------------------------------------------------------- trimming seals

  /** No dropped function's edge starts at a node id that is kept. */
  ghost predicate NoSharedSources(b: Blueprint, selected: set<string>) {
    forall f, e :: f in b.workflow.functions && f.functionId !in selected && e in EdgesOf(f.graph.edges) && e.canvas == "workflow" ==>
      && e.source !in NodeIds(DocNodes(b.workflow.main.nodes))
      && forall g :: g in b.workflow.functions && g.functionId in selected ==> e.source !in NodeIds(DocNodes(g.graph.nodes))
  }

  /** Whatever is dropped, nothing dropped can be noticed: the page map has no popup pages if it
      goes, no dropped edge starts at a kept node, and no dropped function stands in for main. */
  ghost predicate CleanCut(b: Blueprint, targets: seq<string>) {
    && HarmlessMap(b, targets)
    && NoSharedSources(b, Selection(b, targets))
    && NoStandIn(b, targets)
  }

  /** No dropped function stands in for main by being called main. */
  ghost predicate NoStandIn(b: Blueprint, targets: seq<string>) {
    forall f :: f in b.workflow.functions && f.functionId == MAIN_GRAPH_ID ==> MAIN_GRAPH_ID in Selection(b, targets)
  }

  ghost predicate HarmlessMap(b: Blueprint, targets: seq<string>) {
    TrimmedBlueprint(b, targets).pageMap == b.pageMap || NoPopups(b.pageMap)
  }

  lemma KeptSnoc(functions: seq<FunctionDoc>, s: set<string>)
    requires functions != []
    ensures var n := |functions| - 1;
      forall tasks ::
        AddFunctions(tasks, KeptFunctions(functions, s)) ==
          var m := AddFunctions(tasks, KeptFunctions(functions[..n], s));
          if functions[n].functionId in s then m[functions[n].functionId := FunctionTask(functions[n])] else m
  {
  }

  lemma {:induction false} SameTasks(tasks: map<string, Task>, functions: seq<FunctionDoc>, s: set<string>, t: string)
    ensures t in s || (forall f :: f in functions ==> f.functionId != t) ==>
      SameAt(AddFunctions(tasks, functions), AddFunctions(tasks, KeptFunctions(functions, s)), t)
    ensures t !in s ==> SameAt(tasks, AddFunctions(tasks, KeptFunctions(functions, s)), t)
  {
    hide FunctionTask, KeptFunctions;
    if functions == [] {
      NoneKept(s);
    } else {
      var n := |functions| - 1;
      SameTasks(tasks, functions[..n], s, t);
      KeptSnoc(functions, s);
      assert functions == functions[..n] + [functions[n]];
    }
  }

  lemma NoneKept(s: set<string>)
    ensures KeptFunctions([], s) == []
  {
  }

  lemma {:induction false} SameOutEdges(functions: seq<FunctionDoc>, s: set<string>, id: string)
    requires forall f, e :: f in functions && f.functionId !in s && e in EdgesOf(f.graph.edges) && e.canvas == "workflow" ==> e.source != id
    ensures OutEdges(FunctionEdges(functions), id) == OutEdges(FunctionEdges(KeptFunctions(functions, s)), id)
  {
    hide EdgesOf;
    if functions != [] {
      var n := |functions| - 1;
      var f := functions[n];
      assert functions == functions[..n] + [f];
      SameOutEdges(functions[..n], s, id);
      OutEdgesConcat(FunctionEdges(functions[..n]), EdgesOf(f.graph.edges), id);
      var kept := KeptFunctions(functions[..n], s);
      if f.functionId in s {
        assert (kept + [f])[..|kept|] == kept;
        OutEdgesConcat(FunctionEdges(kept), EdgesOf(f.graph.edges), id);
      } else {
        assert f in functions;
        NoOutEdges(EdgesOf(f.graph.edges), id);
      }
    }
  }

  lemma {:induction false} NoOutEdges(edges: seq<Edge>, id: string)
    requires forall e :: e in edges && e.canvas == "workflow" ==> e.source != id
    ensures OutEdges(edges, id) == []
  {
    if edges != [] {
      NoOutEdges(edges[1..], id);
    }
  }

  lemma SelectedAreNamed(b: Blueprint, targets: seq<string>)
    requires Trimmable(b, targets)
    ensures "" !in Selection(b, targets)
  {
  }

  /** The document a task of the trimmed project was loaded from, and what it calls. */
  lemma KeptTask(b: Blueprint, targets: seq<string>, t: string) returns (g: GraphDoc)
    requires Trimmable(b, targets) && NoStandIn(b, targets)
    requires t in LoadBlueprint(TrimmedBlueprint(b, targets)).tasks
    ensures var big, small := LoadBlueprint(b), LoadBlueprint(TrimmedBlueprint(b, targets));
      && t in big.tasks && big.tasks[t] == small.tasks[t] && small.tasks[t].nodes == DocNodes(g.nodes)
    ensures Called(g) <= Selection(b, targets)
    ensures g == b.workflow.main || exists f :: f in b.workflow.functions && f.functionId in Selection(b, targets) && f.graph == g
  {
    hide Closure, Required, Called;
    var functions, s := b.workflow.functions, Selection(b, targets);
    var base := map[MAIN_GRAPH_ID := MainTask(b.workflow.main)];
    ClosureIsLeast(functions, Required(b.workflow, targets));
    SameTasks(base, functions, s, t);
    AddFunctionsLookup(base, functions, t);
    SelectedAreNamed(b, targets);
    if t in s {
      g := functions[LastWithId(functions, t).value].graph;
      assert Callees(functions, t) == Called(g);
    } else {
      g := b.workflow.main;
      assert t == MAIN_GRAPH_ID;
      assert Called(g) <= s by { CalledAreRequired(b.workflow, targets); }
    }
  }

  lemma CalledAreRequired(w: WorkflowDoc, targets: seq<string>)
    ensures Called(w.main) <= Required(w, targets)
  {
  }

  lemma KeptSources(b: Blueprint, targets: seq<string>, g: GraphDoc, id: string)
    requires CleanCut(b, targets) && id in NodeIds(DocNodes(g.nodes))
    requires g == b.workflow.main || exists f :: f in b.workflow.functions && f.functionId in Selection(b, targets) && f.graph == g
    ensures OutEdges(LoadBlueprint(b).edges, id) == OutEdges(LoadBlueprint(TrimmedBlueprint(b, targets)).edges, id)
  {
    hide Closure, Required, EdgesOf;
    var functions, s := b.workflow.functions, Selection(b, targets);
    SameOutEdges(functions, s, id);
    OutEdgesConcat(EdgesOf(b.workflow.main.edges), FunctionEdges(functions), id);
    OutEdgesConcat(EdgesOf(b.workflow.main.edges), FunctionEdges(KeptFunctions(functions, s)), id);
  }

  lemma KeptMap(b: Blueprint, targets: seq<string>, env: Env, g: GraphDoc, i: nat)
    requires HarmlessMap(b, targets) && ReadsMapOnlyForPopups(env) && i < |g.nodes|
    requires g == b.workflow.main || exists f :: f in b.workflow.functions && f.functionId in Selection(b, targets) && f.graph == g
    ensures forall tick: nat, vars: Vars ::
      env.exec(tick, b.pageMap, g.nodes[i].node, vars) == env.exec(tick, TrimmedBlueprint(b, targets).pageMap, g.nodes[i].node, vars)
  {
    hide Closure, Required;
    var w := TrimmedBlueprint(b, targets).workflow;
    if TrimmedBlueprint(b, targets).pageMap != b.pageMap {
      assert !UsesSmartJump(w.main);
      if g != b.workflow.main {
        var f :| f in b.workflow.functions && f.functionId in Selection(b, targets) && f.graph == g;
        assert f in w.functions;
        var j :| 0 <= j < |w.functions| && w.functions[j] == f;
        assert !UsesSmartJump(w.functions[j].graph);
      }
      assert g.nodes[i].node.nodeType != "smart_jump";
    }
  }

  lemma TrimmingSeals(b: Blueprint, targets: seq<string>, env: Env)
    requires Trimmable(b, targets) && CleanCut(b, targets)
    requires ReadsMapOnlyForPopups(env)
    ensures Sealed(env, LoadBlueprint(b), LoadBlueprint(TrimmedBlueprint(b, targets)))
  {
    hide Trimmable, CleanCut, NoStandIn, HarmlessMap, ReadsMapOnlyForPopups, Selection, Called, TrimmedBlueprint, LoadBlueprint;
    var big, small := LoadBlueprint(b), LoadBlueprint(TrimmedBlueprint(b, targets));
    MapsOf(b, targets);
    CleanParts(b, targets);
    forall t | t in small.tasks ensures t in big.tasks && big.tasks[t] == small.tasks[t] {
      var _ := KeptTask(b, targets, t);
    }
    forall t, i | t in small.tasks && 0 <= i < |small.tasks[t].nodes| ensures SealedNode(env, big, small, small.tasks[t].nodes[i]) {
      var g := KeptTask(b, targets, t);
      var node := small.tasks[t].nodes[i];
      assert node == g.nodes[i].node && node.nodeId in NodeIds(DocNodes(g.nodes));
      KeptSources(b, targets, g, node.nodeId);
      KeptMap(b, targets, env, g, i);
      if node.nodeType == "call_function" && Strip(node.functionId) != "" {
        CalledAt(g, i);
        SelectedAreLoaded(b, targets, Strip(node.functionId));
      }
    }
  }

  lemma CleanParts(b: Blueprint, targets: seq<string>)
    requires CleanCut(b, targets)
    ensures NoStandIn(b, targets) && HarmlessMap(b, targets)
  {
  }

  lemma MapsOf(b: Blueprint, targets: seq<string>)
    ensures LoadBlueprint(b).pageMap == b.pageMap
    ensures LoadBlueprint(TrimmedBlueprint(b, targets)).pageMap == TrimmedBlueprint(b, targets).pageMap
  {
  }

  lemma CalledAt(g: GraphDoc, i: nat)
    requires i < |g.nodes| && g.nodes[i].node.nodeType == "call_function" && Strip(g.nodes[i].node.functionId) != ""
    ensures Strip(g.nodes[i].node.functionId) in Called(g)
  {
  }

  lemma SelectedAreLoaded(b: Blueprint, targets: seq<string>, f: string)
    requires Trimmable(b, targets) && f in Selection(b, targets)
    ensures f in LoadBlueprint(TrimmedBlueprint(b, targets)).tasks
  {
    hide Closure, Required;
    var functions, s := b.workflow.functions, Selection(b, targets);
    var base := map[MAIN_GRAPH_ID := MainTask(b.workflow.main)];
    SameTasks(base, functions, s, f);
    AddFunctionsLookup(base, functions, f);
  }

  /** Trimming preserves meaning.  For every forwarding environment, start, variables and number of
      turns, the run of the trimmed blueprint is the run of the full one: the same stack, counters,
      variables, log and verdict. */
  lemma TrimmingPreservesRuns(b: Blueprint, targets: seq<string>, env: Env, start: string, vars: Vars, visited: map<string,
      nat>, n: nat)
    requires Trimmable(b, targets) && CleanCut(b, targets)
    requires Forwards(env) && ReadsMapOnlyForPopups(env)
    ensures var big, small := LoadBlueprint(b), LoadBlueprint(TrimmedBlueprint(b, targets));
      var c := Initial(MAIN_GRAPH_ID, start, vars, visited);
      && Shaped(big, c) && Shaped(small, c)
      && Run(big, env, n, c) == Run(small, env, n, c)
  {
    hide Trimmable, CleanCut, ReadsMapOnlyForPopups, Forwards, Sealed, TrimmedBlueprint;
    var big, small := LoadBlueprint(b), LoadBlueprint(TrimmedBlueprint(b, targets));
    TrimmingSeals(b, targets, env);
    MainIsKept(b, targets);
    SealedTasks(env, big, small);
    SameRun(big, small, env, n, Initial(MAIN_GRAPH_ID, start, vars, visited));
  }

  lemma SealedTasks(env: Env, big: Project, small: Project)
    requires Sealed(env, big, small)
    ensures forall t :: t in small.tasks ==> t in big.tasks && big.tasks[t] == small.tasks[t]
  {
  }

  lemma {:induction false} BaseStays(tasks: map<string, Task>, functions: seq<FunctionDoc>, t: string)
    requires t in tasks
    ensures t in AddFunctions(tasks, functions)
  {
    if functions != [] {
      BaseStays(tasks, functions[..|functions| - 1], t);
    }
  }

  lemma MainIsKept(b: Blueprint, targets: seq<string>)
    ensures MAIN_GRAPH_ID in LoadBlueprint(TrimmedBlueprint(b, targets)).tasks
  {
    BaseStays(map[MAIN_GRAPH_ID := MainTask(b.workflow.main)], TrimmedBlueprint(b, targets).workflow.functions, MAIN_GRAPH_ID);
  }

  // ---------------------------------------------------------------- cuts that show

  /** A run of a one-node main graph, up to its end. */
  lemma OneNodeRun(p: Project, env: Env, task: Task)
    requires MAIN_GRAPH_ID in p.tasks && p.tasks[MAIN_GRAPH_ID] == task
    requires |task.nodes| == 1 && task.nodes[0].enabled && env.maxVisits >= 1
    requires var r := env.exec(0, p.pageMap, task.nodes[0], map[]).0; r.Ran? && r.call.None? && r.ret.None? && r.branch.None?
    ensures var c := Initial(MAIN_GRAPH_ID, "", map[], map[]);
      var (r, vars) := env.exec(0, p.pageMap, task.nodes[0], map[]);
      var target := FindEdgeJump(OutEdges(p.edges, task.nodes[0].nodeId), if r.success then "success" else "failure", "");
      && Shaped(p, c)
      && (target == "" ==>
          Run(p, env, 1, c) == if r.success then Halted(Completed, vars, World(1, [])) else Halted(Failed(TaskFailed), vars, World(1, [TaskFailed])))
      && (target != "" && target != task.nodes[0].nodeId ==> Run(p, env, 1, c) == Halted(Failed(MissingTarget), vars, World(1, [MissingTarget])))
  {
    hide FindEdgeJump, OutEdges;
    var c := Initial(MAIN_GRAPH_ID, "", map[], map[]);
    var ctx := ContextOf(p, c.st.stack);
    var visited := Without(map[], NodeIds(task.nodes));
    WalkOnce(p, env, ctx, 0, visited, map[], World(0, []));
    RunOne(p, env, c);
  }

  const CLICK := Node("c", "c", "click", true, "", "", "", false, Null)
  const POPUP := Node("p", "p", "page_state", true, "", "", "p", true, Null)

  /** One click and nothing else, on a map with one popup page. */
  const CLICK_BLUEPRINT := Blueprint(WorkflowDoc(GraphDoc("main", "", [NodeDoc(CLICK, true)], [], false), [], [], true), PageMap([POPUP], []))

  function PopupResult(m: PageMap): NodeResult {
    if NoPopups(m) then Ran(true, None, None, None) else FAILURE
  }

  function PopupEnv(): Env {
    Env((t, m, node, vars) => (PopupResult(m), vars), (t, vars, v) => Some(v), (v, k) => Some(v), 50)
  }

  /** The premise on popups is needed: with no smart jump the map goes, popups and all, and a click
      that a popup would have blocked succeeds after packaging. */
  lemma DroppedPopupsChangeTheRun()
    ensures var b, env := CLICK_BLUEPRINT, PopupEnv();
      var c := Initial(MAIN_GRAPH_ID, "", map[], map[]);
      var big, small := LoadBlueprint(b), LoadBlueprint(TrimmedBlueprint(b, []));
      && Forwards(env) && ReadsMapOnlyForPopups(env) && Trimmable(b, [])
      && Shaped(big, c) && Shaped(small, c)
      && Run(big, env, 1, c) == Halted(Failed(TaskFailed), map[], World(1, [TaskFailed]))
      && Run(small, env, 1, c) == Halted(Completed, map[], World(1, []))
  {
    hide Run, Initial;
    var b, env := CLICK_BLUEPRINT, PopupEnv();
    NoFunctionsToTrim(b);
    var big, small := LoadBlueprint(b), LoadBlueprint(TrimmedBlueprint(b, []));
    assert DocNodes(b.workflow.main.nodes) == [CLICK];
    assert EdgesOf([]) == [] && big.edges == [] == small.edges;
    assert b.pageMap.nodes[0] == POPUP;
    assert !NoPopups(b.pageMap) && NoPopups(EMPTY_PAGE_MAP);
    OneNodeRun(big, env, MainTask(b.workflow.main));
    OneNodeRun(small, env, MainTask(b.workflow.main));
  }

  lemma NoFunctionsToTrim(b: Blueprint)
    requires b == CLICK_BLUEPRINT
    ensures Trimmable(b, [])
    ensures TrimmedBlueprint(b, []).workflow.main == b.workflow.main && TrimmedBlueprint(b, []).workflow.functions == []
    ensures TrimmedBlueprint(b, []).pageMap == EMPTY_PAGE_MAP
  {
  }

  /** Main's node "e" shares its id with the entry of a function nobody calls. */
  const SHARED_BLUEPRINT := Blueprint(
    Counterexamples.AWorkflow(Counterexamples.ADoc("e", "log", "", ""), Counterexamples.AFunction("f", "f", "e")), EMPTY_PAGE_MAP)

  /** And so is the one on edges: dropping a function whose edges leaked into main changes main. */
  lemma DroppedEdgesChangeTheRun()
    ensures var b, env := SHARED_BLUEPRINT, PopupEnv();
      var c := Initial(MAIN_GRAPH_ID, "", map[], map[]);
      var big, small := LoadBlueprint(b), LoadBlueprint(TrimmedBlueprint(b, []));
      && Trimmable(b, []) && Shaped(big, c) && Shaped(small, c)
      && Run(big, env, 1, c) == Halted(Failed(MissingTarget), map[], World(1, [MissingTarget]))
      && Run(small, env, 1, c) == Halted(Completed, map[], World(1, []))
  {
    hide Run, Initial;
    var b, env := SHARED_BLUEPRINT, PopupEnv();
    var doc, f := Counterexamples.ADoc("e", "log", "", ""), Counterexamples.AFunction("f", "f", "e");
    UncalledIsDropped(b, "e", f);
    var big, small := LoadBlueprint(b), LoadBlueprint(TrimmedBlueprint(b, []));
    assert DocNodes(b.workflow.main.nodes) == [doc.node];
    Counterexamples.OneFunctionTasks(doc, f, b.pageMap);
    Counterexamples.SharedEdges(doc, f, b.pageMap);
    assert |"main"| == 4 && |"f"| == 1;
    assert big.tasks[MAIN_GRAPH_ID] == MainTask(b.workflow.main);
    assert FindEdgeJump([Counterexamples.STEP.edge], "success", "") == "r";
    assert |"e"| == |"r"| == 1 && "e"[0] != "r"[0];
    assert EdgesOf([]) == [] && small.edges == [];
    assert NoPopups(EMPTY_PAGE_MAP);
    OneNodeRun(big, env, MainTask(b.workflow.main));
    OneNodeRun(small, env, MainTask(b.workflow.main));
  }

  /** A function nobody calls is dropped, and so is a map nobody needs. */
  lemma UncalledIsDropped(b: Blueprint, id: string, f: FunctionDoc)
    requires b == Blueprint(Counterexamples.AWorkflow(Counterexamples.ADoc(id, "log", "", ""), f), EMPTY_PAGE_MAP)
    ensures Trimmable(b, [])
    ensures TrimmedBlueprint(b, []).workflow.main == b.workflow.main && TrimmedBlueprint(b, []).workflow.functions == []
    ensures TrimmedBlueprint(b, []).pageMap == EMPTY_PAGE_MAP
  {
    assert ExposedNodes([]) == {};
    assert b.workflow.main.nodes[0].node.nodeType == "log";
    assert Called(b.workflow.main) == {};
    assert ExposedIds(b.workflow.functions, {}) == {};
    ClosureIsLeast(b.workflow.functions, {});
    assert Closed(b.workflow.functions, {});
    assert Selection(b, []) == {};
    assert b.workflow.functions[..0] == [];
    assert KeptFunctions(b.workflow.functions, {}) == [];
  }
}
