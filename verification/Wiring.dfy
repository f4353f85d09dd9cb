/** Where control goes, told from the project's edges: after a node, into a function, and back from it. */
module Wiring {
  import opened Common
  import opened Runtime
  import opened Scheduler
  import opened StackShape

  // ---------------------------------------------------------------- edges

  /** `e` leaves node `id` by the port with the stable identity `stable`, or if that is empty by the port
      called `port`, and goes somewhere. */
  predicate Wire(e: Edge, id: string, port: string, stable: string) {
    && e.canvas == "workflow" && e.source == id && e.target != ""
    && (if stable == "" then e.port == port else if e.portId == "" then e.port == stable else e.portId == stable)
  }

  predicate FirstWire(edges: seq<Edge>, k: nat, id: string, port: string, stable: string) {
    k < |edges| && Wire(edges[k], id, port, stable) && forall j :: 0 <= j < k ==> !Wire(edges[j], id, port, stable)
  }

  predicate NoWire(edges: seq<Edge>, id: string, port: string, stable: string) {
    forall j :: 0 <= j < |edges| ==> !Wire(edges[j], id, port, stable)
  }

  /** The first edge from that port goes to `target`; there is none if `target` is empty. */
  ghost predicate WiredTo(edges: seq<Edge>, id: string, port: string, stable: string, target: string) {
    if target == "" then NoWire(edges, id, port, stable)
    else exists k: nat :: FirstWire(edges, k, id, port, stable) && edges[k].target == target
  }

  lemma WiredLater(edges: seq<Edge>, id: string, port: string, stable: string, target: string)
    requires edges != [] && !Wire(edges[0], id, port, stable) && WiredTo(edges[1..], id, port, stable, target)
    ensures WiredTo(edges, id, port, stable, target)
  {
    hide Wire;
    assert forall j :: 0 < j < |edges| ==> edges[j] == edges[1..][j - 1];
    if target != "" {
      var k: nat :| FirstWire(edges[1..], k, id, port, stable) && edges[1..][k].target == target;
      assert FirstWire(edges, k + 1, id, port, stable);
    }
  }

  lemma WiredFirst(edges: seq<Edge>, id: string, port: string, stable: string)
    requires edges != [] && Wire(edges[0], id, port, stable)
    ensures WiredTo(edges, id, port, stable, edges[0].target)
  {
    assert FirstWire(edges, 0, id, port, stable);
  }

  /** The jump the engine looks up is the wire. */
  lemma {:induction false} JumpIsWire(edges: seq<Edge>, id: string, port: string, stable: string)
    ensures WiredTo(edges, id, port, stable, FindEdgeJump(OutEdges(edges, id), port, stable))
  {
    hide WiredTo, FindEdgeJump, OutEdges, Wire;
    if edges == [] {
      NothingWired(id, port, stable);
    } else if Wire(edges[0], id, port, stable) {
      FirstOut(edges, id, port, stable);
      WiredFirst(edges, id, port, stable);
    } else {
      JumpIsWire(edges[1..], id, port, stable);
      NotFirstOut(edges, id, port, stable);
      WiredLater(edges, id, port, stable, FindEdgeJump(OutEdges(edges, id), port, stable));
    }
  }

  lemma NothingWired(id: string, port: string, stable: string)
    ensures WiredTo([], id, port, stable, FindEdgeJump(OutEdges([], id), port, stable))
  {
  }

  lemma FirstOut(edges: seq<Edge>, id: string, port: string, stable: string)
    requires edges != [] && Wire(edges[0], id, port, stable)
    ensures FindEdgeJump(OutEdges(edges, id), port, stable) == edges[0].target
  {
    assert OutEdges(edges, id) == [edges[0]] + OutEdges(edges[1..], id);
  }

  lemma NotFirstOut(edges: seq<Edge>, id: string, port: string, stable: string)
    requires edges != [] && !Wire(edges[0], id, port, stable)
    ensures FindEdgeJump(OutEdges(edges, id), port, stable) == FindEdgeJump(OutEdges(edges[1..], id), port, stable)
  {
    var rest := OutEdges(edges[1..], id);
    assert ([edges[0]] + rest)[1..] == rest;
  }

  lemma WireIsUnique(edges: seq<Edge>, id: string, port: string, stable: string, a: string, b: string)
    requires WiredTo(edges, id, port, stable, a) && WiredTo(edges, id, port, stable, b)
    ensures a == b
  {
  }

  // ---------------------------------------------------------------- nodes

  /** The last node with the id is the one a jump means. */
  predicate MeansNode(nodes: seq<Node>, k: nat, id: string) {
    k < |nodes| && nodes[k].nodeId == id && forall j :: k < j < |nodes| ==> nodes[j].nodeId != id
  }

  /** Where a visit leads when its node's port is wired to `target`: nowhere if it is empty, and then the walk
      ends; else to that node of the graph, if it has it. */
  ghost predicate GoesTo(nodes: seq<Node>, target: string, success: bool, move: Move) {
    if target == "" then move == Leave(Ended(success))
    else if exists n :: n in nodes && n.nodeId == target then exists k: nat :: MeansNode(nodes, k, target) && move == Goto(k)
    else move == Leave(Raised(MissingTarget))
  }

  /** The port a node leaves by: its branch if it chose one, else by success or failure. */
  function PortOf(success: bool, branch: Option<Branch>): string {
    if branch.Some? then branch.value.port else if success then "success" else "failure"
  }

  function StablePortOf(branch: Option<Branch>): string {
    if branch.Some? then branch.value.id else ""
  }

  lemma RouteIsWired(edges: seq<Edge>, task: Task, id: string, success: bool, branch: Option<Branch>, target: string)
    requires WiredTo(edges, id, PortOf(success, branch), StablePortOf(branch), target)
    ensures GoesTo(task.nodes, target, success, Route(task, OutEdges(edges, id), success, branch))
  {
    hide WiredTo, OutEdges, FindEdgeJump, IndexOf;
    JumpIsWire(edges, id, PortOf(success, branch), StablePortOf(branch));
    WireIsUnique(edges, id, PortOf(success, branch), StablePortOf(branch), target,
      FindEdgeJump(OutEdges(edges, id), PortOf(success, branch), StablePortOf(branch)));
    if target != "" { IndexMeans(task.nodes, target); }
  }

  lemma IndexMeans(nodes: seq<Node>, id: string)
    ensures IndexOf(nodes, id).Some? <==> exists n :: n in nodes && n.nodeId == id
    ensures IndexOf(nodes, id).Some? ==> MeansNode(nodes, IndexOf(nodes, id).value, id)
  {
    var r := IndexOf(nodes, id);
    if r.Some? { assert nodes[r.value] in nodes; }
    if n :| n in nodes && n.nodeId == id {
      var i :| 0 <= i < |nodes| && nodes[i] == n;
      assert id in NodeIds(nodes);
    }
  }

  predicate Visited(ctx: Context, i: nat, visited: map<string, nat>, maxVisits: int) {
    i < |ctx.task.nodes| && ctx.task.nodes[i].enabled && Count(visited, ctx.task.nodes[i].nodeId) < maxVisits
  }

  /** A node that neither calls nor returns goes where the port it left by is wired to.  Its visit is
      counted, and the variables are as it left them. */
  lemma VisitFollowsWire(p: Project, env: Env, ctx: Context, i: nat, visited: map<string, nat>, vars: Vars, world: World, target: string)
    requires Visited(ctx, i, visited, env.maxVisits)
    requires var r := env.exec(world.tick, p.pageMap, ctx.task.nodes[i], vars).0;
      && r.Ran? && !(r.success && (r.call.Some? || r.ret.Some?))
      && WiredTo(p.edges, ctx.task.nodes[i].nodeId, PortOf(r.success, r.branch), StablePortOf(r.branch), target)
    ensures var (r, vars') := env.exec(world.tick, p.pageMap, ctx.task.nodes[i], vars);
      var v, id := VisitNode(p, env, ctx, i, visited, vars, world), ctx.task.nodes[i].nodeId;
      && GoesTo(ctx.task.nodes, target, r.success, v.move)
      && v.visited == visited[id := (if id in visited then visited[id] else 0) + 1] && v.vars == vars' && v.world == World(world.tick + 1, world.log)
  {
    hide WiredTo, OutEdges, Route, GoesTo;
    var r := env.exec(world.tick, p.pageMap, ctx.task.nodes[i], vars).0;
    RouteIsWired(p.edges, ctx.task, ctx.task.nodes[i].nodeId, r.success, r.branch, target);
  }

  /** The visits that do not get that far: a disabled node is passed over, one visited as often as allowed
      raises the loop guard without being executed, and one that crashes raises that. */
  lemma OtherVisits(p: Project, env: Env, ctx: Context, i: nat, visited: map<string, nat>, vars: Vars, world: World)
    requires i < |ctx.task.nodes|
    ensures var v, n := VisitNode(p, env, ctx, i, visited, vars, world), ctx.task.nodes[i];
      var count, (r, vars') := if n.nodeId in visited then visited[n.nodeId] else 0, env.exec(world.tick, p.pageMap, n, vars);
      && (!n.enabled ==> v == Visit(Goto(i + 1), visited, vars, world))
      && (n.enabled && count >= env.maxVisits ==> v == Visit(Leave(Raised(LoopGuard)), visited, vars, world))
      && (n.enabled && count < env.maxVisits && r.Crash? ==>
            v == Visit(Leave(Raised(NodeCrash)), visited[n.nodeId := count + 1], vars', World(world.tick + 1, world.log)))
  {
    hide OutEdges, Route, Schedule, OutcomeJumps;
  }

  /** A node that returns ends the walk of a function with its result; elsewhere it is a failure. */
  lemma ReturnVisit(p: Project, env: Env, ctx: Context, i: nat, visited: map<string, nat>, vars: Vars, world: World, target: string)
    requires Visited(ctx, i, visited, env.maxVisits)
    requires var r := env.exec(world.tick, p.pageMap, ctx.task.nodes[i], vars).0;
      r.Ran? && r.success && r.call.None? && r.ret.Some?
    requires WiredTo(p.edges, ctx.task.nodes[i].nodeId, "failure", "", target)
    ensures var (r, vars') := env.exec(world.tick, p.pageMap, ctx.task.nodes[i], vars);
      var v := VisitNode(p, env, ctx, i, visited, vars, world);
      && (ctx.isFunction ==> v.move == Leave(Returned(r.ret.value)))
      && (!ctx.isFunction ==> GoesTo(ctx.task.nodes, target, false, v.move))
      && v.vars == vars' && v.world == World(world.tick + 1, world.log)
  {
    hide WiredTo, OutEdges, Route, GoesTo;
    RouteIsWired(p.edges, ctx.task, ctx.task.nodes[i].nodeId, false, None, target);
  }

  // ---------------------------------------------------------------- calls

  /** For every outcome, `jumps` has the target of the first edge of node `id` from the port with that
      identity, and nothing useful if there is none. */
  ghost predicate WiredAs(edges: seq<Edge>, id: string, jumps: map<string, string>) {
    forall outcome, target :: outcome != "" && WiredTo(edges, id, "", outcome, target) ==>
      target == if outcome in jumps then jumps[outcome] else ""
  }

  lemma OutcomesAreWired(edges: seq<Edge>, id: string)
    ensures WiredAs(edges, id, OutcomeJumps(OutEdges(edges, id)))
  {
    hide WiredTo, OutEdges, FindEdgeJump;
    var out := OutEdges(edges, id);
    forall outcome, target | outcome != "" && WiredTo(edges, id, "", outcome, target)
      ensures target == if outcome in OutcomeJumps(out) then OutcomeJumps(out)[outcome] else ""
    {
      JumpIsWire(edges, id, "", outcome);
      WireIsUnique(edges, id, "", outcome, target, FindEdgeJump(out, "", outcome));
      NoIdentityNoJump(out, outcome);
    }
  }

  lemma NoIdentityNoJump(out: seq<Edge>, outcome: string)
    requires outcome != ""
    ensures outcome in OutcomeJumps(out) ==> OutcomeJumps(out)[outcome] == FindEdgeJump(out, "", outcome)
    ensures outcome !in OutcomeJumps(out) ==> FindEdgeJump(out, "", outcome) == ""
  {
  }

  /** Why a call of `f` from there is refused before its arguments are looked at. */
  function Refused(p: Project, ctx: Context, f: string): Option<Error> {
    if f == "" then Some(NoFunctionSelected)
    else if !(f in p.tasks && p.tasks[f].role == "function") then Some(UnknownFunction)
    else if f in ctx.active then Some(Recursion)
    else if ctx.depth >= 32 then Some(DepthExceeded)
    else None
  }

  /** A node that asks for a call leaves the walk for the function it names -- if that is a loaded function,
      not open already, at most 32 calls deep, and its parameters can be bound.  The call carries the bound
      variables, the node's output bindings, and where the node's outcome ports are wired to. */
  lemma CallVisit(p: Project, env: Env, ctx: Context, i: nat, visited: map<string, nat>, vars: Vars, world: World)
    requires Visited(ctx, i, visited, env.maxVisits)
    requires var r := env.exec(world.tick, p.pageMap, ctx.task.nodes[i], vars).0; r.Ran? && r.success && r.call.Some?
    ensures var (r, vars') := env.exec(world.tick, p.pageMap, ctx.task.nodes[i], vars);
      var f := Strip(r.call.value.functionId);
      var m := VisitNode(p, env, ctx, i, visited, vars, world).move;
      && (m.Leave? && m.exit.Calling? <==> Refused(p, ctx, f).None? && ChildVars(env, world.tick + 1, p.tasks[f], r.call.value, vars').Ok?)
      && (m.Leave? && m.exit.Calling? ==>
            && m.exit.call.functionId == f && m.exit.call.outs == r.call.value.outputs
            && Ok(m.exit.call.vars) == ChildVars(env, world.tick + 1, p.tasks[f], r.call.value, vars')
            && WiredAs(p.edges, ctx.task.nodes[i].nodeId, m.exit.call.jumps)
            && VisitNode(p, env, ctx, i, visited, vars, world).world == World(world.tick + 1, world.log))
    ensures var v, id := VisitNode(p, env, ctx, i, visited, vars, world), ctx.task.nodes[i].nodeId;
      && v.vars == env.exec(world.tick, p.pageMap, ctx.task.nodes[i], vars).1
      && v.visited == visited[id := (if id in visited then visited[id] else 0) + 1]
  {
    hide OutcomeJumps, OutEdges, Route, ChildVars, Strip, WiredAs;
    OutcomesAreWired(p.edges, ctx.task.nodes[i].nodeId);
    NeverCalling(ctx.task, OutEdges(p.edges, ctx.task.nodes[i].nodeId));
  }

  lemma NeverCalling(task: Task, out: seq<Edge>)
    ensures forall success, branch :: var m := Route(task, out, success, branch); m.Leave? ==> !m.exit.Calling?
  {
    hide FindEdgeJump, IndexOf;
  }

  /** A refused call is a failure of its node, with the reason in the log. */
  lemma RefusedVisit(p: Project, env: Env, ctx: Context, i: nat, visited: map<string, nat>, vars: Vars, world: World, target: string)
    requires Visited(ctx, i, visited, env.maxVisits)
    requires var r := env.exec(world.tick, p.pageMap, ctx.task.nodes[i], vars).0; r.Ran? && r.success && r.call.Some?
    requires WiredTo(p.edges, ctx.task.nodes[i].nodeId, "failure", "", target)
    ensures var (r, vars') := env.exec(world.tick, p.pageMap, ctx.task.nodes[i], vars);
      var f := Strip(r.call.value.functionId);
      var v := VisitNode(p, env, ctx, i, visited, vars, world);
      Refused(p, ctx, f).Some? || ChildVars(env, world.tick + 1, p.tasks[f], r.call.value, vars').Err? ==>
        && GoesTo(ctx.task.nodes, target, false, v.move) && v.vars == vars' && v.world.tick == world.tick + 1
        && v.world.log == world.log + [if Refused(p, ctx, f).Some? then Refused(p, ctx, f).value
             else ChildVars(env, world.tick + 1, p.tasks[f], r.call.value, vars').error]
  {
    hide OutcomeJumps, OutEdges, Route, ChildVars, Strip, GoesTo, WiredTo;
    RouteIsWired(p.edges, ctx.task, ctx.task.nodes[i].nodeId, false, None, target);
  }

  // ---------------------------------------------------------------- who called

  /** The frame `f` was pushed for a call that node `i` of the graph asked for. */
  ghost predicate CalledFrom(p: Project, env: Env, task: Task, f: Frame, i: nat, tick: nat, vars: Vars) {
    && i < |task.nodes| && task.nodes[i].enabled && WiredAs(p.edges, task.nodes[i].nodeId, f.jumps)
    && var r := env.exec(tick, p.pageMap, task.nodes[i], vars).0;
       r.Ran? && r.success && r.call.Some? && Strip(r.call.value.functionId) == f.taskId && r.call.value.outputs == f.outs
  }

  ghost predicate HasCaller(p: Project, env: Env, task: Task, f: Frame) {
    exists i, tick, vars :: CalledFrom(p, env, task, f, i, tick, vars)
  }

  ghost predicate CalledAt(p: Project, env: Env, stack: seq<Frame>, h: nat)
    requires 0 < h < |stack|
  {
    stack[h - 1].taskId in p.tasks && HasCaller(p, env, p.tasks[stack[h - 1].taskId], stack[h])
  }

  /** Every function on the stack was called by a node of the graph below it, and knows that node's wires. */
  ghost predicate AllCalled(p: Project, env: Env, stack: seq<Frame>) {
    forall h :: 0 < h < |stack| ==> CalledAt(p, env, stack, h)
  }

  lemma {:induction false} WalkCalls(p: Project, env: Env, ctx: Context, i: nat, visited: map<string, nat>, vars: Vars, world: World, depth: nat)
    requires WalkGraph(p, env, ctx, i, visited, vars, world).exit.Calling?
    ensures var call := WalkGraph(p, env, ctx, i, visited, vars, world).exit.call;
      call.functionId in p.tasks && HasCaller(p, env, ctx.task, CalleeFrame(p, call, depth))
    decreases Budget(ctx.task.nodes, visited, env.maxVisits), |ctx.task.nodes| - i
  {
    hide WalkGraph, VisitNode, HasCaller;
    WalkCallsKnownFunction(p, env, ctx, i, visited, vars, world);
    if i >= |ctx.task.nodes| {
      PastTheEnd(p, env, ctx, i, visited, vars, world);
    } else {
      WalkOnce(p, env, ctx, i, visited, vars, world);
      if !ctx.task.nodes[i].enabled {
        WalkCalls(p, env, ctx, i + 1, visited, vars, world, depth);
      } else {
        var v := VisitNode(p, env, ctx, i, visited, vars, world);
        VisitShrinks(p, env, ctx, i, visited, vars, world);
        if v.move.Goto? {
          WalkCalls(p, env, ctx, v.move.index, v.visited, v.vars, v.world, depth);
        } else {
          VisitCalls(p, env, ctx, i, visited, vars, world, depth);
        }
      }
    }
  }

  lemma VisitCalls(p: Project, env: Env, ctx: Context, i: nat, visited: map<string, nat>, vars: Vars, world: World, depth: nat)
    requires i < |ctx.task.nodes| && ctx.task.nodes[i].enabled
    requires var m := VisitNode(p, env, ctx, i, visited, vars, world).move; m.Leave? && m.exit.Calling? && m.exit.call.functionId in p.tasks
    ensures HasCaller(p, env, ctx.task, CalleeFrame(p, VisitNode(p, env, ctx, i, visited, vars, world).move.exit.call, depth))
  {
    hide VisitNode, Strip, WiredAs;
    CallingAsksForIt(p, env, ctx, i, visited, vars, world);
    CallVisit(p, env, ctx, i, visited, vars, world);
    var f := CalleeFrame(p, VisitNode(p, env, ctx, i, visited, vars, world).move.exit.call, depth);
    assert CalledFrom(p, env, ctx.task, f, i, world.tick, vars);
  }

  lemma CallingAsksForIt(p: Project, env: Env, ctx: Context, i: nat, visited: map<string, nat>, vars: Vars, world: World)
    requires i < |ctx.task.nodes| && ctx.task.nodes[i].enabled
    requires var m := VisitNode(p, env, ctx, i, visited, vars, world).move; m.Leave? && m.exit.Calling?
    ensures Visited(ctx, i, visited, env.maxVisits)
    ensures var r := env.exec(world.tick, p.pageMap, ctx.task.nodes[i], vars).0; r.Ran? && r.success && r.call.Some?
  {
    hide OutcomeJumps, OutEdges, Route, Schedule, Strip;
    NeverCalling(ctx.task, OutEdges(p.edges, ctx.task.nodes[i].nodeId));
  }

  lemma CallerReads(p: Project, env: Env, task: Task, f: Frame, g: Frame)
    requires HasCaller(p, env, task, f) && f.taskId == g.taskId && f.jumps == g.jumps && f.outs == g.outs
    ensures HasCaller(p, env, task, g)
  {
    hide WiredAs;
    var i, tick, vars :| CalledFrom(p, env, task, f, i, tick, vars);
    assert CalledFrom(p, env, task, g, i, tick, vars);
  }

  predicate SameCall(f: Frame, g: Frame) {
    f.taskId == g.taskId && f.jumps == g.jumps && f.outs == g.outs
  }

  /** Frames further down that stand for the same calls were called by the same nodes. */
  lemma CallersCarry(p: Project, env: Env, a: seq<Frame>, b: seq<Frame>)
    requires AllCalled(p, env, a) && |b| <= |a| && forall i :: 0 <= i < |b| ==> SameCall(a[i], b[i])
    ensures AllCalled(p, env, b)
  {
    hide HasCaller;
    forall h | 0 < h < |b| ensures CalledAt(p, env, b, h) {
      assert SameCall(a[h - 1], b[h - 1]) && SameCall(a[h], b[h]) && CalledAt(p, env, a, h);
      CallerReads(p, env, p.tasks[a[h - 1].taskId], a[h], b[h]);
    }
  }

  lemma CallerOnTop(p: Project, env: Env, stack: seq<Frame>, f: Frame)
    requires AllCalled(p, env, stack) && stack != [] && stack[|stack| - 1].taskId in p.tasks
    requires HasCaller(p, env, p.tasks[stack[|stack| - 1].taskId], f)
    ensures AllCalled(p, env, stack + [f])
  {
    hide HasCaller;
    var all := stack + [f];
    forall h | 0 < h < |all| ensures CalledAt(p, env, all, h) {
      if h < |stack| { assert CalledAt(p, env, stack, h); }
    }
  }

  lemma ResumeKeepsCall(caller: Frame, child: Frame, vars: Vars, r: FnResult)
    ensures var m := Resume(caller, child, vars, r); m.Ok? ==> SameCall(caller, m.value)
  {
    hide MergeBack;
  }

  lemma AfterWalkKeepsCallers(p: Project, env: Env, below: seq<Frame>, f: Frame, w: Walk)
    requires AllCalled(p, env, below + [f]) && (f.isFunction ==> below != [])
    requires f.taskId in p.tasks
    requires w.exit.Calling? ==> w.exit.call.functionId in p.tasks
    requires w.exit.Calling? ==> HasCaller(p, env, p.tasks[f.taskId], CalleeFrame(p, w.exit.call, f.depth + 1))
    ensures var d := AfterWalk(p, below, f, w); d.Live? ==> AllCalled(p, env, d.st.stack)
  {
    hide AllCalled, HasCaller, Resume;
    var d := AfterWalk(p, below, f, w);
    if d.Live? {
      if w.exit.Calling? {
        var f' := f.(vars := w.vars, pending := None, started := true);
        CallersCarry(p, env, below + [f], below + [f']);
        CallerOnTop(p, env, below + [f'], CalleeFrame(p, w.exit.call, f.depth + 1));
        assert below + [f'] + [CalleeFrame(p, w.exit.call, f.depth + 1)] == d.st.stack;
      } else {
        if below != [] {
          ResumeKeepsCall(below[|below| - 1], f, w.vars, if w.exit.Returned? then w.exit.result else NO_RESULT);
        }
        CallersCarry(p, env, below + [f], d.st.stack);
      }
    }
  }

  lemma StepKeepsCallers(p: Project, env: Env, c: Config)
    requires Shaped(p, c) && (c.Live? ==> AllCalled(p, env, c.st.stack))
    ensures c.Live? ==> Grounded(c.st)
    ensures var d := Step(p, env, c); d.Live? ==> AllCalled(p, env, d.st.stack)
  {
    hide WalkTop, HasCaller, AfterWalk, AllCalled;
    StepKeepsShape(p, env, c);
    if c.Live? {
      var stack := c.st.stack;
      var below, top := stack[..|stack| - 1], stack[|stack| - 1];
      if top.taskId in p.tasks {
        var w := WalkTop(p, env, c.st);
        var f := top.(pending := None, started := true);
        if w.exit.Calling? { TopCalls(p, env, c.st, top.depth + 1); }
        CallersCarry(p, env, stack, below + [f]);
        AfterWalkKeepsCallers(p, env, below, f, w);
      }
    }
  }

  lemma TopCalls(p: Project, env: Env, st: State, depth: nat)
    requires st.stack != [] && st.stack[|st.stack| - 1].taskId in p.tasks && WalkTop(p, env, st).exit.Calling?
    ensures var call := WalkTop(p, env, st).exit.call;
      call.functionId in p.tasks && HasCaller(p, env, p.tasks[st.stack[|st.stack| - 1].taskId], CalleeFrame(p, call, depth))
  {
    hide WalkGraph, HasCaller;
    var f := st.stack[|st.stack| - 1];
    var task := p.tasks[f.taskId];
    var visited := if f.started then st.visited else Without(st.visited, NodeIds(task.nodes));
    WalkCalls(p, env, ContextOf(p, st.stack), StartIndex(task, f.start).value, visited, f.vars, st.world, depth);
  }

  /** In every run, however it began, each function on the stack was called by an enabled node of the graph
      below it, for that function and with those bindings, and goes back by that node's wires. */
  lemma {:induction false} CallersAlways(p: Project, env: Env, n: nat, taskId: string, start: string, vars: Vars, visited: map<string, nat>)
    ensures Shaped(p, Initial(taskId, start, vars, visited))
    ensures var d := Run(p, env, n, Initial(taskId, start, vars, visited)); d.Live? ==> AllCalled(p, env, d.st.stack)
    decreases n
  {
    hide Run, Step, AllCalled;
    var c := Initial(taskId, start, vars, visited);
    if n == 0 {
      FirstCalled(p, env, c);
    } else {
      CallersAlways(p, env, n - 1, taskId, start, vars, visited);
      var d := Run(p, env, n - 1, c);
      StepKeepsCallers(p, env, d);
      RunAdds(p, env, n - 1, 1, c);
      RunOne(p, env, d);
    }
  }

  lemma FirstCalled(p: Project, env: Env, c: Config)
    requires Shaped(p, c) && c.Live? && |c.st.stack| == 1
    ensures Run(p, env, 0, c) == c && AllCalled(p, env, c.st.stack)
  {
  }

  // ---------------------------------------------------------------- back to the caller

  /** The outcome a function's last walk hands back: the one it returned, or the exception. */
  function OutcomeIs(exit: Exit): string {
    if exit.Returned? && exit.result.outcomeId != "" then exit.result.outcomeId else "system_exception"
  }

  /** A function ended, and its outputs could be written back.  If its outcome's port is wired at the node
      that called it, the caller goes on at the wired node; no other port will do.  If it is not, the
      caller stays where it is, and its next turn ends: well, exactly if the outcome is not the exception. */
  lemma ReturnGoesOn(p: Project, env: Env, c: Config, node: string, target: string)
    requires Shaped(p, c) && c.Live? && |c.st.stack| >= 2
    requires forall i :: |c.st.stack| - 2 <= i < |c.st.stack| ==> c.st.stack[i].taskId in p.tasks
    requires WiredAs(p.edges, node, c.st.stack[|c.st.stack| - 1].jumps)
    requires Grounded(c.st)
    requires var exit := WalkTop(p, env, c.st).exit;
      (exit.Returned? || exit.Ended? || exit.Raised?) && WiredTo(p.edges, node, "", OutcomeIs(exit), target)
    requires Step(p, env, c).Live?
    ensures var d, stack := Step(p, env, c), c.st.stack;
      var h, outcome := |stack| - 1, OutcomeIs(WalkTop(p, env, c.st).exit);
      && |d.st.stack| == h && d.st.stack[..h - 1] == stack[..h - 1]
      && var caller, after := stack[h - 1], d.st.stack[h - 1];
         && (target != "" ==> after == caller.(vars := after.vars, start := target, started := true))
         && (target == "" ==>
               && after == caller.(vars := after.vars, pending := after.pending)
               && WalkTop(p, env, d.st).exit == Ended(outcome != "system_exception")
               && (h == 1 ==> var e := Step(p, env, d); e.Halted? && e.verdict == if outcome == "system_exception" then Failed(TaskFailed) else Completed))
  {
    hide WalkTop, Resume, WiredTo, WiredAs, OutcomeIs, ShapedStack;
    var stack, w := c.st.stack, WalkTop(p, env, c.st);
    var h := |stack| - 1;
    TopIsFunction(p, stack);
    var r := if w.exit.Returned? then w.exit.result else NO_RESULT;
    HandsBack(w.exit, r);
    var f := stack[h].(pending := None, started := true);
    StepReturns(p, env, c, r);
    ResumeFollows(p.edges, node, stack[h - 1], f, w.vars, r, target);
    var d := Step(p, env, c);
    if target == "" { PendingEnds(p, env, d, OutcomeIs(w.exit) != "system_exception"); }
  }

  lemma TopIsFunction(p: Project, stack: seq<Frame>)
    requires ShapedStack(p, stack) && |stack| >= 2
    ensures stack[|stack| - 1].isFunction && !stack[0].isFunction
  {
    assert WellPlaced(p, stack[|stack| - 1], |stack| - 1) && WellPlaced(p, stack[0], 0);
  }

  lemma HandsBack(exit: Exit, r: FnResult)
    requires r == if exit.Returned? then exit.result else NO_RESULT
    ensures OutcomeIs(exit) == if r.outcomeId == "" then "system_exception" else r.outcomeId
  {
  }

  lemma StepReturns(p: Project, env: Env, c: Config, r: FnResult)
    requires c.Live? && Grounded(c.st) && |c.st.stack| >= 2 && c.st.stack[|c.st.stack| - 1].taskId in p.tasks
    requires c.st.stack[|c.st.stack| - 1].isFunction
    requires var exit := WalkTop(p, env, c.st).exit;
      (exit.Returned? || exit.Ended? || exit.Raised?) && r == if exit.Returned? then exit.result else NO_RESULT
    requires Step(p, env, c).Live?
    ensures var d, h, w := Step(p, env, c), |c.st.stack| - 1, WalkTop(p, env, c.st);
      var m := Resume(c.st.stack[h - 1], c.st.stack[h].(pending := None, started := true), w.vars, r);
      m.Ok? && d.st.stack == c.st.stack[..h - 1] + [m.value]
  {
    hide WalkTop, Resume;
    var h := |c.st.stack| - 1;
    assert c.st.stack[..h][..h - 1] == c.st.stack[..h - 1] && c.st.stack[..h][h - 1] == c.st.stack[h - 1];
  }

  /** Resuming, told from the edges of the node that called. */
  lemma ResumeFollows(edges: seq<Edge>, node: string, caller: Frame, child: Frame, vars: Vars, r: FnResult, target: string)
    requires WiredAs(edges, node, child.jumps) && Resume(caller, child, vars, r).Ok?
    requires WiredTo(edges, node, "", if r.outcomeId == "" then "system_exception" else r.outcomeId, target)
    ensures var m := Resume(caller, child, vars, r).value;
      if target != "" then m == caller.(vars := m.vars, start := target, started := true)
      else m == caller.(vars := m.vars, pending := Some(r.outcomeId != "" && r.outcomeId != "system_exception"))
  {
    hide MergeBack, WiredTo;
  }

  lemma PendingEnds(p: Project, env: Env, d: Config, success: bool)
    requires d.Live? && d.st.stack != [] && Grounded(d.st) && d.st.stack[|d.st.stack| - 1].taskId in p.tasks
    requires d.st.stack[|d.st.stack| - 1].pending == Some(success)
    ensures WalkTop(p, env, d.st).exit == Ended(success)
    ensures |d.st.stack| == 1 ==> var e := Step(p, env, d); e.Halted? && e.verdict == if success then Completed else Failed(TaskFailed)
  {
    hide WalkGraph, StartIndex;
  }
}
