/** Projects that never get stuck: no missing target, unknown function or missing start node on any
    run. */
module Soundness {
  import opened Common
  import opened Runtime
  import opened Scheduler
  import opened StackShape
  import opened Parameters

  /** Node executors ask for calls only from call nodes, and for the function configured there. */
  ghost predicate Forwards(env: Env) {
    forall tick, pageMap, node, vars ::
      var r := env.exec(tick, pageMap, node, vars).0;
      r.Ran? && r.call.Some? ==> node.nodeType == "call_function" && Strip(r.call.value.functionId) == Strip(node.functionId)
  }

  // ---------------------------------------------------------------- conditions on a project

  ghost predicate Inside(task: Task, target: string) {
    target == "" || target in NodeIds(task.nodes)
  }

  /** Wherever an enabled node's port leads, it leads to a node of the same graph. */
  ghost predicate RoutesInside(p: Project) {
    forall t, i, port, id :: t in p.tasks && 0 <= i < |p.tasks[t].nodes| && p.tasks[t].nodes[i].enabled ==>
      Inside(p.tasks[t], FindEdgeJump(OutEdges(p.edges, p.tasks[t].nodes[i].nodeId), port, id))
  }

  ghost predicate IsFunction(p: Project, f: string) {
    f in p.tasks && p.tasks[f].role == "function"
  }

  ghost predicate CallKnown(p: Project, node: Node) {
    node.enabled && node.nodeType == "call_function" && Strip(node.functionId) != "" ==> IsFunction(p, Strip(node.functionId))
  }

  /** Every enabled call node names a loaded function, or none at all. */
  ghost predicate CallsKnown(p: Project) {
    forall t, i :: t in p.tasks && 0 <= i < |p.tasks[t].nodes| ==> CallKnown(p, p.tasks[t].nodes[i])
  }

  predicate Calls(node: Node, f: string) {
    node.enabled && node.nodeType == "call_function" && f != "" && Strip(node.functionId) == f
  }

  /** Some run can enter `f`: an enabled node calls it, and its required parameters can be supplied. */
  ghost predicate Enterable(p: Project, f: string) {
    && IsFunction(p, f) && Suppliable(p.tasks[f])
    && exists t, i :: t in p.tasks && 0 <= i < |p.tasks[t].nodes| && Calls(p.tasks[t].nodes[i], f)
  }

  ghost predicate EntriesKnown(p: Project) {
    forall f :: Enterable(p, f) ==> Inside(p.tasks[f], p.tasks[f].entry)
  }

  // ---------------------------------------------------------------- runs stay clean

  /** `later` extends `earlier`, and nothing added means that the project dangles. */
  ghost predicate Benign(earlier: World, later: World) {
    earlier.log <= later.log && forall i :: |earlier.log| <= i < |later.log| ==> !Dangling(later.log[i])
  }

  lemma BenignRefl(w: World)
    ensures Benign(w, w)
  {
  }

  lemma BenignTransitive(a: World, b: World, c: World)
    requires Benign(a, b) && Benign(b, c)
    ensures Benign(a, c)
  {
  }

  ghost predicate JumpsInside(task: Task, jumps: map<string, string>) {
    forall k :: k in jumps ==> Inside(task, jumps[k])
  }

  ghost predicate CleanCall(p: Project, task: Task, call: PendingCall) {
    JumpsInside(task, call.jumps) && Enterable(p, call.functionId)
  }

  lemma VisitIsClean(p: Project, env: Env, ctx: Context, t: string, index: nat, visited: map<string, nat>, vars: Vars,
      world: World)
    requires Forwards(env) && RoutesInside(p) && CallsKnown(p)
    requires t in p.tasks && ctx.task == p.tasks[t] && index < |ctx.task.nodes|
    ensures var v := VisitNode(p, env, ctx, index, visited, vars, world);
      && Benign(world, v.world)
      && (v.move.Leave? && v.move.exit.Raised? ==> !Dangling(v.move.exit.error))
      && (v.move.Leave? && v.move.exit.Calling? ==> CleanCall(p, ctx.task, v.move.exit.call))
  {
    hide Dispatch, RoutesInside, CallsKnown, CleanCall;
    var node := ctx.task.nodes[index];
    if node.enabled && Count(visited, node.nodeId) < env.maxVisits {
      var (r, vars') := env.exec(world.tick, p.pageMap, node, vars);
      DispatchIsClean(p, env, ctx, t, index, r, vars', world.(tick := world.tick + 1));
    }
  }

  lemma DispatchIsClean(p: Project, env: Env, ctx: Context, t: string, index: nat, r: NodeResult, vars: Vars, world: World)
    requires RoutesInside(p) && CallsKnown(p)
    requires t in p.tasks && ctx.task == p.tasks[t] && index < |ctx.task.nodes| && ctx.task.nodes[index].enabled
    requires r.Ran? && r.call.Some? ==>
      ctx.task.nodes[index].nodeType == "call_function" && Strip(r.call.value.functionId) == Strip(ctx.task.nodes[index].functionId)
    ensures var (m, w) := Dispatch(p, env, ctx, ctx.task.nodes[index], r, vars, world);
      && Benign(world, w)
      && (m.Leave? && m.exit.Raised? ==> m.exit.error == NodeCrash)
      && (m.Leave? && m.exit.Calling? ==> CleanCall(p, ctx.task, m.exit.call))
  {
    hide FindEdgeJump, OutEdges, IndexOf, Inside, Route, Schedule, Suppliable;
    var node := ctx.task.nodes[index];
    var out := OutEdges(p.edges, node.nodeId);
    forall success, branch: Option<Branch> ensures
      var m := Route(ctx.task, out, success, branch);
      !(m.Leave? && m.exit.Raised?) && !(m.Leave? && m.exit.Calling?)
    {
      RouteIsClean(p, t, index, success, branch);
    }
    JumpsAreInside(p, t, index);
    if r.Ran? && r.success && r.call.Some? {
      assert CallKnown(p, node);
      ScheduleIsClean(p, env, ctx, world.tick, r.call.value, vars);
      if Schedule(p, env, ctx, world.tick, r.call.value, vars).Ok? {
        assert Calls(node, Strip(r.call.value.functionId));
      }
    }
  }

  lemma RouteIsClean(p: Project, t: string, index: nat, success: bool, branch: Option<Branch>)
    requires RoutesInside(p) && t in p.tasks && index < |p.tasks[t].nodes| && p.tasks[t].nodes[index].enabled
    ensures var m := Route(p.tasks[t], OutEdges(p.edges, p.tasks[t].nodes[index].nodeId), success, branch);
      !(m.Leave? && m.exit.Raised?) && !(m.Leave? && m.exit.Calling?)
  {
  }

  lemma JumpsAreInside(p: Project, t: string, index: nat)
    requires RoutesInside(p) && t in p.tasks && index < |p.tasks[t].nodes| && p.tasks[t].nodes[index].enabled
    ensures JumpsInside(p.tasks[t], OutcomeJumps(OutEdges(p.edges, p.tasks[t].nodes[index].nodeId)))
  {
    hide FindEdgeJump, OutEdges, Inside;
  }

  lemma ScheduleIsClean(p: Project, env: Env, ctx: Context, tick: nat, call: CallIntent, caller: Vars)
    requires Strip(call.functionId) != "" ==> IsFunction(p, Strip(call.functionId))
    ensures var s := Schedule(p, env, ctx, tick, call, caller);
      && (s.Err? ==> !Dangling(s.error))
      && (s.Ok? ==> var f := Strip(call.functionId); f != "" && IsFunction(p, f) && Suppliable(p.tasks[f]))
  {
    hide ChildVars, Suppliable;
    var f := Strip(call.functionId);
    if f != "" {
      MissingIffNotSupplied(env, tick, p.tasks[f], call, caller);
      if ChildVars(env, tick, p.tasks[f], call, caller).Ok? {
        EnteredIsSuppliable(env, tick, p.tasks[f], call, caller);
      }
    }
  }

  lemma {:induction false} WalkIsClean(p: Project, env: Env, ctx: Context, t: string, index: nat, visited: map<string,
      nat>, vars: Vars, world: World)
    requires Forwards(env) && RoutesInside(p) && CallsKnown(p)
    requires t in p.tasks && ctx.task == p.tasks[t]
    ensures var w := WalkGraph(p, env, ctx, index, visited, vars, world);
      && Benign(world, w.world)
      && (w.exit.Raised? ==> !Dangling(w.exit.error))
      && (w.exit.Calling? ==> CleanCall(p, ctx.task, w.exit.call))
    decreases Budget(ctx.task.nodes, visited, env.maxVisits), |ctx.task.nodes| - index
  {
    hide VisitNode, WalkGraph, Forwards, RoutesInside, CallsKnown, Benign, CleanCall;
    if index >= |ctx.task.nodes| {
      PastTheEnd(p, env, ctx, index, visited, vars, world);
      BenignRefl(world);
    } else {
      WalkOnce(p, env, ctx, index, visited, vars, world);
      VisitIsClean(p, env, ctx, t, index, visited, vars, world);
      var v := VisitNode(p, env, ctx, index, visited, vars, world);
      if !ctx.task.nodes[index].enabled {
        WalkIsClean(p, env, ctx, t, index + 1, visited, vars, world);
      } else if v.move.Goto? {
        VisitShrinks(p, env, ctx, index, visited, vars, world);
        WalkIsClean(p, env, ctx, t, v.move.index, v.visited, v.vars, v.world);
        BenignTransitive(world, v.world, WalkGraph(p, env, ctx, v.move.index, v.visited, v.vars, v.world).world);
      }
    }
  }

  // ---------------------------------------------------------------- no run gets stuck

  function LogOf(c: Config): seq<Error> {
    match c
    case Live(st) => st.world.log
    case Halted(_, _, w) => w.log
  }

  /** An error a turn from `c` may add: never a missing target or unknown function, and a missing
      start or task only if the top frame's own start or task is missing. */
  ghost predicate Explained(p: Project, c: Config, e: Error) {
    Dangling(e) ==>
      && c.Live? && c.st.stack != []
      && var f := c.st.stack[|c.st.stack| - 1];
         if f.taskId in p.tasks then e == MissingStart && !Inside(p.tasks[f.taskId], f.start) else e == MissingTask
  }

  ghost predicate AddsExplained(p: Project, c: Config, log: seq<Error>) {
    LogOf(c) <= log && forall i :: |LogOf(c)| <= i < |log| ==> Explained(p, c, log[i])
  }

  lemma {:induction false} WriteBackErrors(vars: Vars, outs: seq<OutBinding>, outputs: Vars)
    ensures var r := ApplyOutputs(vars, outs, outputs); r.Err? ==> r.error == ReadOnlyTarget || r.error == EmptyTarget
    decreases |outs|
  {
    if outs != [] {
      WriteBackErrors(vars, outs[1..], outputs);
      var w := WriteScoped(vars, Strip(outs[0].target), if Strip(outs[0].outputId) in outputs then outputs[Strip(outs[0].outputId)] else Null);
      if w.Ok? { WriteBackErrors(w.value, outs[1..], outputs); }
    }
  }

  lemma WalkTopExplained(p: Project, env: Env, st: State)
    requires Forwards(env) && RoutesInside(p) && CallsKnown(p)
    requires st.stack != [] && st.stack[|st.stack| - 1].taskId in p.tasks
    ensures var w := WalkTop(p, env, st);
      && AddsExplained(p, Live(st), w.world.log)
      && (w.exit.Raised? ==> Explained(p, Live(st), w.exit.error))
      && (w.exit.Calling? ==> CleanCall(p, p.tasks[st.stack[|st.stack| - 1].taskId], w.exit.call))
  {
    hide Forwards, RoutesInside, CallsKnown, WalkGraph, CleanCall;
    var f := st.stack[|st.stack| - 1];
    var task := p.tasks[f.taskId];
    var visited := if f.started then st.visited else Without(st.visited, NodeIds(task.nodes));
    if f.pending.None? && StartIndex(task, f.start).Some? {
      WalkIsClean(p, env, ContextOf(p, st.stack), f.taskId, StartIndex(task, f.start).value, visited, f.vars, st.world);
    } else {
      StartInside(task, f.start);
    }
  }

  lemma StartInside(task: Task, start: string)
    ensures StartIndex(task, start).Some? <==> Inside(task, start)
  {
  }

  lemma MergeBackErrors(caller: Vars, child: Vars, outs: seq<OutBinding>, r: FnResult)
    ensures var m := MergeBack(caller, child, outs, r); m.Err? ==> !Dangling(m.error)
  {
    WriteBackErrors(caller + Shared(child), outs, r.outputs);
  }

  lemma AfterWalkExplained(p: Project, below: seq<Frame>, f: Frame, w: Walk)
    requires f.isFunction ==> below != []
    requires w.exit.Calling? ==> w.exit.call.functionId in p.tasks
    ensures var d := AfterWalk(p, below, f, w);
      && w.world.log <= LogOf(d)
      && (forall i :: |w.world.log| <= i < |LogOf(d)| ==> !Dangling(LogOf(d)[i]) || w.exit == Raised(LogOf(d)[i]))
  {
    hide MergeBack, CalleeFrame, Shared, OutcomeTarget, OutcomeOf;
    if f.isFunction && !w.exit.FellOff? && !w.exit.Calling? {
      var r := if w.exit.Returned? then w.exit.result else NO_RESULT;
      MergeBackErrors(below[|below| - 1].vars, w.vars, f.outs, r);
    }
  }

  lemma StepExplained(p: Project, env: Env, c: Config)
    requires Shaped(p, c) && Forwards(env) && RoutesInside(p) && CallsKnown(p)
    ensures c.Live? ==> Grounded(c.st)
    ensures AddsExplained(p, c, LogOf(Step(p, env, c)))
  {
    hide Forwards, RoutesInside, CallsKnown, WalkTop, AfterWalk;
    StepKeepsShape(p, env, c);
    if c.Live? {
      var below, f := c.st.stack[..|c.st.stack| - 1], c.st.stack[|c.st.stack| - 1];
      if f.taskId in p.tasks {
        WalkTopCallsKnownFunction(p, env, c.st);
        WalkTopExplained(p, env, c.st);
        AfterWalkExplained(p, below, f.(pending := None, started := true), WalkTop(p, env, c.st));
      }
    }
  }

  predicate Misrouted(e: Error) {
    e == MissingTarget || e == UnknownFunction
  }

  ghost predicate NeverMisrouted(log: seq<Error>) {
    forall i :: 0 <= i < |log| ==> !Misrouted(log[i])
  }

  lemma {:induction false} WellRoutedRuns(p: Project, env: Env, n: nat, c: Config)
    requires Shaped(p, c) && Forwards(env) && RoutesInside(p) && CallsKnown(p)
    requires NeverMisrouted(LogOf(c))
    ensures NeverMisrouted(LogOf(Run(p, env, n, c)))
  {
    hide Forwards, RoutesInside, CallsKnown, Step, ShapedStack;
    if n > 0 {
      StepExplained(p, env, c);
      StepKeepsShape(p, env, c);
      WellRoutedRuns(p, env, n - 1, Step(p, env, c));
    }
  }

  /** No dangling error so far; start nodes and outcome jumps of all frames are in their graphs. */
  ghost predicate Unstuck(p: Project, c: Config) {
    && (forall i :: 0 <= i < |LogOf(c)| ==> !Dangling(LogOf(c)[i]))
    && (c.Live? ==> AnchoredStack(p, c.st.stack))
  }

  ghost predicate Anchored(p: Project, f: Frame) {
    f.taskId in p.tasks && Inside(p.tasks[f.taskId], f.start)
  }

  ghost predicate AnchoredStack(p: Project, stack: seq<Frame>) {
    && (forall i :: 0 <= i < |stack| ==> Anchored(p, stack[i]))
    && (forall i :: 1 <= i < |stack| ==> JumpsInside(p.tasks[stack[i - 1].taskId], stack[i].jumps))
  }

  lemma AnchoredPop(p: Project, stack: seq<Frame>)
    requires stack != [] && AnchoredStack(p, stack)
    ensures AnchoredStack(p, stack[..|stack| - 1])
  {
  }

  lemma AnchoredReplaceTop(p: Project, stack: seq<Frame>, f: Frame)
    requires stack != [] && AnchoredStack(p, stack)
    requires Anchored(p, f) && f.jumps == stack[|stack| - 1].jumps
    ensures AnchoredStack(p, stack[..|stack| - 1] + [f])
  {
  }

  lemma AnchoredPush(p: Project, stack: seq<Frame>, callee: Frame)
    requires stack != [] && AnchoredStack(p, stack) && Anchored(p, callee)
    requires Anchored(p, stack[|stack| - 1]) && JumpsInside(p.tasks[stack[|stack| - 1].taskId], callee.jumps)
    ensures AnchoredStack(p, stack + [callee])
  {
  }

  lemma AfterWalkAnchored(p: Project, stack: seq<Frame>, f: Frame, w: Walk)
    requires EntriesKnown(p) && stack != [] && AnchoredStack(p, stack)
    requires var top := stack[|stack| - 1];
      f.taskId == top.taskId && f.start == top.start && f.jumps == top.jumps && (f.isFunction ==> |stack| > 1)
    requires w.exit.Calling? ==> CleanCall(p, p.tasks[f.taskId], w.exit.call)
    ensures var d := AfterWalk(p, stack[..|stack| - 1], f, w); d.Live? ==> AnchoredStack(p, d.st.stack)
  {
    hide MergeBack, Inside, AnchoredStack, JumpsInside, Suppliable;
    var below := stack[..|stack| - 1];
    AnchoredPop(p, stack);
    TopAnchored(p, stack);
    if w.exit.Calling? {
      var f', callee := f.(vars := w.vars, pending := None, started := true), CalleeFrame(p, w.exit.call, f.depth + 1);
      assert Anchored(p, f') && Anchored(p, callee);
      AnchoredReplaceTop(p, stack, f');
      AnchoredPush(p, below + [f'], callee);
      assert below + [f', callee] == below + [f'] + [callee];
    } else if f.isFunction && !w.exit.FellOff? {
      var r := if w.exit.Returned? then w.exit.result else NO_RESULT;
      ResumedAnchored(p, below[|below| - 1], f, w.vars, r);
      var caller := Resume(below[|below| - 1], f, w.vars, r);
      if caller.Ok? {
        AnchoredReplaceTop(p, below, caller.value);
      }
    }
  }

  lemma TopAnchored(p: Project, stack: seq<Frame>)
    requires stack != [] && AnchoredStack(p, stack)
    ensures Anchored(p, stack[|stack| - 1])
    ensures |stack| > 1 ==> Anchored(p, stack[|stack| - 2]) && JumpsInside(p.tasks[stack[|stack| - 2].taskId], stack[|stack| - 1].jumps)
  {
  }

  lemma ResumedAnchored(p: Project, caller: Frame, child: Frame, vars: Vars, r: FnResult)
    requires Anchored(p, caller) && JumpsInside(p.tasks[caller.taskId], child.jumps)
    ensures var f := Resume(caller, child, vars, r); f.Ok? ==> Anchored(p, f.value) && f.value.taskId == caller.taskId && f.value.jumps == caller.jumps
  {
    hide MergeBack;
  }

  lemma StepUnstuck(p: Project, env: Env, c: Config)
    requires Shaped(p, c) && Forwards(env) && RoutesInside(p) && CallsKnown(p) && EntriesKnown(p)
    requires Unstuck(p, c)
    ensures c.Live? ==> Grounded(c.st)
    ensures Unstuck(p, Step(p, env, c))
  {
    hide Forwards, RoutesInside, CallsKnown, EntriesKnown, WalkTop, AfterWalk, CleanCall;
    StepExplained(p, env, c);
    if c.Live? {
      var f := c.st.stack[|c.st.stack| - 1];
      assert Anchored(p, f);
      WalkTopCallsKnownFunction(p, env, c.st);
      WalkTopExplained(p, env, c.st);
      AfterWalkAnchored(p, c.st.stack, f.(pending := None, started := true), WalkTop(p, env, c.st));
    }
  }

  /** Whatever the (forwarding) environment does, a run that starts at a node of its entry graph
      never meets a missing task, start node or target, nor an unknown function. */
  lemma {:induction false} NeverStuck(p: Project, env: Env, n: nat, c: Config)
    requires Shaped(p, c) && Forwards(env) && RoutesInside(p) && CallsKnown(p) && EntriesKnown(p)
    requires Unstuck(p, c)
    ensures Unstuck(p, Run(p, env, n, c))
  {
    hide Forwards, RoutesInside, CallsKnown, EntriesKnown, Step, ShapedStack, Unstuck;
    if n > 0 {
      StepUnstuck(p, env, c);
      StepKeepsShape(p, env, c);
      NeverStuck(p, env, n - 1, Step(p, env, c));
    }
  }
}
