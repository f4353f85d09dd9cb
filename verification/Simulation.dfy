/** The explicit-stack loop simulates the recursive semantics, graph by graph and call by call, where
    graphs share no node id and no call opens the graph at the bottom of the stack a second time. */
module Simulation {
  import opened Common
  import opened Runtime
  import opened Scheduler
  import opened StackShape
  import opened BigStep
  import opened Halting

  /** Node ids are unique across graphs, not just within one. */
  ghost predicate DisjointGraphs(p: Project) {
    forall s, t :: s in p.tasks && t in p.tasks && s != t ==> NodeIds(p.tasks[s].nodes) !! NodeIds(p.tasks[t].nodes)
  }

  ghost predicate AgreeOn(ids: set<string>, a: map<string, nat>, b: map<string, nat>) {
    forall id :: id in ids ==> Count(a, id) == Count(b, id)
  }

  ghost predicate AgreeBelow(p: Project, below: seq<Frame>, a: map<string, nat>, b: map<string, nat>)
    requires forall i :: 0 <= i < |below| ==> below[i].taskId in p.tasks
  {
    forall i :: 0 <= i < |below| ==> AgreeOn(NodeIds(p.tasks[below[i].taskId].nodes), a, b)
  }

  /** The graph at the bottom of the stack. */
  function Bottom(below: seq<Frame>, f: Frame): string {
    (below + [f])[0].taskId
  }

  /** The stack `below + [f]` is shaped, its graphs exist, and the one at the bottom is open only once. */
  ghost predicate Ready(p: Project, below: seq<Frame>, f: Frame) {
    && DisjointGraphs(p)
    && ShapedStack(p, below + [f])
    && (forall i :: 0 <= i < |below| ==> below[i].taskId in p.tasks)
    && f.taskId in p.tasks
    && forall i :: 1 <= i <= |below| ==> (below + [f])[i].taskId != Bottom(below, f)
  }

  lemma ReadyFacts(p: Project, below: seq<Frame>, f: Frame)
    requires Ready(p, below, f)
    ensures f.depth == |below| && (f.isFunction <==> below != [])
    ensures forall i :: 0 <= i < |below| ==> below[i].taskId != f.taskId
    ensures forall i :: 0 <= i < |below| ==> NodeIds(p.tasks[below[i].taskId].nodes) !! NodeIds(p.tasks[f.taskId].nodes)
  {
    var stack := below + [f];
    assert stack[|below|] == f && WellPlaced(p, stack[|below|], |below|);
    forall i | 0 <= i < |below| ensures below[i].taskId != f.taskId {
      assert stack[i] == below[i] && WellPlaced(p, stack[0], 0);
    }
  }

  function TopContext(p: Project, below: seq<Frame>, f: Frame): Context
    requires f.taskId in p.tasks
  {
    Context(p.tasks[f.taskId], f.isFunction, ActiveFunctions(below + [f]), f.depth)
  }

  lemma ReplaceTopReady(p: Project, below: seq<Frame>, f: Frame, g: Frame)
    requires Ready(p, below, f)
    requires g.taskId == f.taskId && g.isFunction == f.isFunction && g.depth == f.depth
    ensures Ready(p, below, g) && TopContext(p, below, g) == TopContext(p, below, f)
  {
    assert (below + [f])[..|below|] == below;
    ReplaceTopKeepsShape(p, below + [f], g);
    SameActive(below + [f], g);
  }

  lemma PushReady(p: Project, below: seq<Frame>, f: Frame, call: PendingCall)
    requires Ready(p, below, f) && Waiting(f)
    requires Callable(p, TopContext(p, below, f), call.functionId) && call.functionId != Bottom(below, f)
    ensures var g := CalleeFrame(p, call, f.depth + 1);
      && Bottom(below + [f], g) == Bottom(below, f)
      && Ready(p, below + [f], g)
      && TopContext(p, below + [f], g) == CalleeContext(p, TopContext(p, below, f), call.functionId)
  {
    var stack := below + [f];
    var g := CalleeFrame(p, call, f.depth + 1);
    ReadyFacts(p, below, f);
    assert stack[|stack| - 1] == f;
    PushKeepsShape(p, stack, g);
    assert (stack + [g])[0] == stack[0];
    forall x | x in ActiveFunctions(stack) ensures x in ActiveFunctions(stack + [g]) {
      var i :| 0 <= i < |stack| && stack[i].isFunction && stack[i].taskId == x;
      assert (stack + [g])[i] == stack[i];
    }
    assert (stack + [g])[|stack|] == g;
    assert ActiveFunctions(stack + [g]) == ActiveFunctions(stack) + {call.functionId};
  }

  /** The configuration once the activation `a` of the top frame `f` is over. */
  function Concluded(p: Project, below: seq<Frame>, f: Frame, a: Activation, visited: map<string, nat>): Config
    requires f.isFunction ==> below != []
  {
    match a.ending
    case Fell => AfterWalk(p, below, f, Walk(FellOff, visited, a.vars, a.world))
    case Done(success) => AfterWalk(p, below, f, Walk(Ended(success), visited, a.vars, a.world))
    case Threw(e) => AfterWalk(p, below, f, Walk(Raised(e), visited, a.vars, a.world))
    case Gave(r) => AfterWalk(p, below, f, Walk(Returned(r), visited, a.vars, a.world))
    case Aborted(e) => Halted(Failed(e), a.vars, a.world)
  }

  lemma ConcludedSame(p: Project, below: seq<Frame>, f: Frame, g: Frame, a: Activation, visited: map<string, nat>)
    requires f.isFunction ==> below != []
    requires g.isFunction == f.isFunction && g.jumps == f.jumps && g.outs == f.outs
    ensures Concluded(p, below, g, a, visited) == Concluded(p, below, f, a, visited)
  {
  }

  /** Visiting a node depends on its own counter only, and changes no other. */
  lemma VisitAgrees(p: Project, env: Env, ctx: Context, index: nat, a: map<string, nat>, b: map<string, nat>, vars: Vars,
      world: World)
    requires index < |ctx.task.nodes|
    requires AgreeOn(NodeIds(ctx.task.nodes), a, b)
    ensures var v, w := VisitNode(p, env, ctx, index, a, vars, world), VisitNode(p, env, ctx, index, b, vars, world);
      && v.move == w.move && v.vars == w.vars && v.world == w.world
      && AgreeOn(NodeIds(ctx.task.nodes), v.visited, w.visited)
      && (forall id :: id !in NodeIds(ctx.task.nodes) ==> Count(v.visited, id) == Count(a, id))
  {
    assert ctx.task.nodes[index].nodeId in NodeIds(ctx.task.nodes);
  }

  lemma GraphOnce(p: Project, env: Env, ctx: Context, start: string, index: nat, local: map<string, nat>, vars: Vars,
      world: World)
    requires index < |ctx.task.nodes| && ctx.task.nodes[index].enabled
    ensures var v := VisitNode(p, env, ctx, index, local, vars, world);
      && (v.move.Leave? && v.move.exit.Calling? ==> Callable(p, ctx, v.move.exit.call.functionId))
      && RunGraph(p, env, ctx, start, index, local, vars, world) ==
        (if v.move.Goto? then RunGraph(p, env, ctx, start, v.move.index, v.visited, v.vars, v.world)
         else Conclude(p, env, ctx, start, v.move.exit, v.visited, v.vars, v.world))
  {
    VisitCallsKnownFunction(p, env, ctx, index, local, vars, world);
    hide VisitNode;
  }

  lemma PastLast(p: Project, env: Env, ctx: Context, start: string, index: nat, visited: map<string, nat>,
      local: map<string, nat>, vars: Vars, world: World)
    requires index >= |ctx.task.nodes|
    ensures WalkGraph(p, env, ctx, index, visited, vars, world) == Walk(FellOff, visited, vars, world)
    ensures RunGraph(p, env, ctx, start, index, local, vars, world) == Activation(Fell, vars, world)
  {
  }

  lemma WalkKeepsShape(p: Project, below: seq<Frame>, f: Frame, w: Walk)
    requires Ready(p, below, f) && Waiting(f)
    requires w.exit.Calling? ==> Callable(p, TopContext(p, below, f), w.exit.call.functionId)
    ensures f.isFunction ==> below != []
    ensures Shaped(p, AfterWalk(p, below, f, w))
  {
    ReadyFacts(p, below, f);
    assert (below + [f])[..|below|] == below;
    AfterWalkKeepsShape(p, below + [f], f, w);
  }

  /** When the walk stops for good, both sides conclude alike without a further turn. */
  lemma StopsAlike(p: Project, env: Env, below: seq<Frame>, f: Frame, exit: Exit, visited: map<string, nat>,
      local: map<string, nat>, vars: Vars, world: World)
    requires Ready(p, below, f) && Waiting(f) && !exit.Calling?
    ensures f.isFunction ==> below != []
    ensures var c := AfterWalk(p, below, f, Walk(exit, visited, vars, world));
      && Shaped(p, c)
      && Run(p, env, 0, c) == Concluded(p, below, f, Conclude(p, env, TopContext(p, below, f), f.start, exit, local, vars, world), visited)
  {
    hide AfterCall, RunCallee, ReturnToCaller, ShapedStack, DisjointGraphs, NeverCalls;
    WalkKeepsShape(p, below, f, Walk(exit, visited, vars, world));
  }

  /** `n` turns after the walk from `index` stops, the machine is where the recursive semantics
      of that activation says, and the callers' counters are untouched. */
  ghost predicate SimulatesWalk(p: Project, env: Env, below: seq<Frame>, f: Frame, index: nat, visited: map<string, nat>,
      local: map<string, nat>, vars: Vars, world: World, n: nat, visited': map<string, nat>)
    requires f.taskId in p.tasks && forall i :: 0 <= i < |below| ==> below[i].taskId in p.tasks
  {
    var ctx := TopContext(p, below, f);
    var w := WalkGraph(p, env, ctx, index, visited, vars, world);
    && (f.isFunction ==> below != [])
    && (w.exit.Calling? ==> w.exit.call.functionId in p.tasks)
    && Shaped(p, AfterWalk(p, below, f, w))
    && Run(p, env, n, AfterWalk(p, below, f, w)) == Concluded(p, below, f, RunGraph(p, env, ctx, f.start, index, local, vars, world), visited')
    && AgreeBelow(p, below, visited, visited')
  }

  /** Simulation, from the middle of a walk at node `index`. */
  lemma {:induction false} SimulateGraph(p: Project, env: Env, below: seq<Frame>, f: Frame, index: nat,
      visited: map<string, nat>, local: map<string, nat>, vars: Vars, world: World)
    returns (n: nat, visited': map<string, nat>)
    requires NeverCalls(p, env, Bottom(below, f))
    requires Ready(p, below, f) && Waiting(f)
    requires AgreeOn(NodeIds(p.tasks[f.taskId].nodes), visited, local)
    ensures SimulatesWalk(p, env, below, f, index, visited, local, vars, world, n, visited')
    decreases MAX_CALL_DEPTH + 1 - f.depth, Budget(p.tasks[f.taskId].nodes, local, env.maxVisits), |p.tasks[f.taskId].nodes| - index, 1
  {
    hide Step, ShapedStack, DisjointGraphs, NeverCalls, VisitNode, WalkGraph, RunGraph, AfterWalk, Run, Concluded, RunCallee, AfterCall;
    var ctx := TopContext(p, below, f);
    ReadyFacts(p, below, f);
    if index >= |ctx.task.nodes| {
      n, visited' := 0, visited;
      PastLast(p, env, ctx, f.start, index, visited, local, vars, world);
      StopsAlike(p, env, below, f, FellOff, visited, local, vars, world);
    } else if !ctx.task.nodes[index].enabled {
      WalkOnce(p, env, ctx, index, visited, vars, world);
      SkipDisabled(p, env, ctx, f.start, index, local, vars, world);
      n, visited' := SimulateGraph(p, env, below, f, index + 1, visited, local, vars, world);
    } else {
      n, visited' := SimulateNode(p, env, below, f, index, visited, local, vars, world);
    }
  }

  lemma {:induction false} SimulateNode(p: Project, env: Env, below: seq<Frame>, f: Frame, index: nat, visited: map<string,
      nat>, local: map<string, nat>, vars: Vars, world: World)
    returns (n: nat, visited': map<string, nat>)
    requires NeverCalls(p, env, Bottom(below, f))
    requires Ready(p, below, f) && Waiting(f)
    requires AgreeOn(NodeIds(p.tasks[f.taskId].nodes), visited, local)
    requires index < |p.tasks[f.taskId].nodes| && p.tasks[f.taskId].nodes[index].enabled
    ensures SimulatesWalk(p, env, below, f, index, visited, local, vars, world, n, visited')
    decreases MAX_CALL_DEPTH + 1 - f.depth, Budget(p.tasks[f.taskId].nodes, local, env.maxVisits), |p.tasks[f.taskId].nodes| - index, 0
  {
    hide Step, ShapedStack, DisjointGraphs, NeverCalls, VisitNode, WalkGraph, RunGraph, AfterWalk, Run, Concluded, Conclude;
    var ctx := TopContext(p, below, f);
    ReadyFacts(p, below, f);
    var v := VisitNode(p, env, ctx, index, local, vars, world);
    var m := VisitNode(p, env, ctx, index, visited, vars, world);
    WalkOnce(p, env, ctx, index, visited, vars, world);
    GraphOnce(p, env, ctx, f.start, index, local, vars, world);
    VisitAgrees(p, env, ctx, index, visited, local, vars, world);
    VisitShrinks(p, env, ctx, index, local, vars, world);
    VisitNeverCalls(p, env, Bottom(below, f), f.taskId, ctx, index, local, vars, world);
    if v.move.Goto? {
      n, visited' := SimulateGraph(p, env, below, f, v.move.index, m.visited, v.visited, v.vars, v.world);
    } else if v.move.exit.Calling? {
      n, visited' := SimulateConclude(p, env, below, f, v.move.exit, m.visited, v.visited, v.vars, v.world);
    } else {
      n, visited' := 0, m.visited;
      StopsAlike(p, env, below, f, v.move.exit, m.visited, v.visited, v.vars, v.world);
    }
  }

  lemma AsFunctionConcluded(p: Project, stack: seq<Frame>, g: Frame, a: Activation, visited: map<string, nat>)
    requires g.isFunction && stack != []
    ensures Concluded(p, stack, g, AsFunction(a), visited) == Concluded(p, stack, g, a, visited)
  {
  }

  /** Simulation, once the walk has stopped with `exit`. */
  lemma {:induction false} SimulateConclude(p: Project, env: Env, below: seq<Frame>, f: Frame, exit: Exit,
      visited: map<string, nat>, local: map<string, nat>, vars: Vars, world: World)
    returns (n: nat, visited': map<string, nat>)
    requires NeverCalls(p, env, Bottom(below, f))
    requires Ready(p, below, f) && Waiting(f)
    requires AgreeOn(NodeIds(p.tasks[f.taskId].nodes), visited, local)
    requires exit.Calling? ==> Callable(p, TopContext(p, below, f), exit.call.functionId) && exit.call.functionId != Bottom(below, f)
    ensures f.isFunction ==> below != []
    ensures var c := AfterWalk(p, below, f, Walk(exit, visited, vars, world));
      && Shaped(p, c)
      && Run(p, env, n, c) == Concluded(p, below, f, Conclude(p, env, TopContext(p, below, f), f.start, exit, local, vars, world), visited')
      && AgreeBelow(p, below, visited, visited')
    decreases MAX_CALL_DEPTH + 1 - f.depth, Budget(p.tasks[f.taskId].nodes, local, env.maxVisits), |p.tasks[f.taskId].nodes|, 6
  {
    hide WalkGraph, RunGraph, Step, ShapedStack, DisjointGraphs, NeverCalls, RunCallee, AfterCall, VisitNode, ReturnToCaller, Callable;
    WalkKeepsShape(p, below, f, Walk(exit, visited, vars, world));
    if exit.Calling? {
      var f' := f.(vars := vars);
      ReplaceTopReady(p, below, f, f');
      n, visited' := SimulateCall(p, env, below, f', exit.call, visited, local, vars, world);
      ConcludedSame(p, below, f, f', AfterCall(p, env, TopContext(p, below, f), f.start, exit.call, RunCallee(p, env, TopContext(p, below, f), exit.call, world), local, vars), visited');
    } else {
      n, visited' := 0, visited;
    }
  }

  lemma {:induction false} SimulateCall(p: Project, env: Env, below: seq<Frame>, f: Frame, call: PendingCall,
      visited: map<string, nat>, local: map<string, nat>, stVars: Vars, world: World)
    returns (n: nat, visited': map<string, nat>)
    requires NeverCalls(p, env, Bottom(below, f))
    requires Ready(p, below, f) && Waiting(f)
    requires AgreeOn(NodeIds(p.tasks[f.taskId].nodes), visited, local)
    requires Callable(p, TopContext(p, below, f), call.functionId) && call.functionId != Bottom(below, f)
    ensures f.isFunction ==> below != []
    ensures var ctx := TopContext(p, below, f);
      var c := Live(State(below + [f, CalleeFrame(p, call, f.depth + 1)], visited, stVars, world));
      && Shaped(p, c)
      && Run(p, env, n, c) == Concluded(p, below, f, AfterCall(p, env, ctx, f.start, call, RunCallee(p, env, ctx, call, world), local, f.vars), visited')
      && AgreeBelow(p, below, visited, visited')
    decreases MAX_CALL_DEPTH + 1 - f.depth, Budget(p.tasks[f.taskId].nodes, local, env.maxVisits), |p.tasks[f.taskId].nodes|, 5
  {
    hide Step, ShapedStack, DisjointGraphs, NeverCalls, Concluded, AfterCall, Run;
    ReadyFacts(p, below, f);
    var ctx := TopContext(p, below, f);
    var g := CalleeFrame(p, call, f.depth + 1);
    PushReady(p, below, f, call);
    assert below + [f, g] == below + [f] + [g];
    var c := Live(State(below + [f] + [g], visited, stVars, world));
    var n1, v1 := SimulateEnter(p, env, below + [f], g, visited, map[], c);
    var a := Enter(p, env, CalleeContext(p, ctx, call.functionId), g.start, map[], call.vars, world);
    AsFunctionConcluded(p, below + [f], g, a, v1);
    assert AsFunction(a) == RunCallee(p, env, ctx, call, world);
    AgreeOnPushed(p, below, f, visited, v1);
    var n2;
    n2, visited' := SimulateResume(p, env, below, f, call, AsFunction(a), v1, local);
    RunAdds(p, env, n1, n2, c);
    n := n1 + n2;
  }

  lemma AgreeOnPushed(p: Project, below: seq<Frame>, f: Frame, a: map<string, nat>, b: map<string, nat>)
    requires forall i :: 0 <= i < |below| ==> below[i].taskId in p.tasks
    requires f.taskId in p.tasks
    requires AgreeBelow(p, below + [f], a, b)
    ensures AgreeOn(NodeIds(p.tasks[f.taskId].nodes), a, b) && AgreeBelow(p, below, a, b)
  {
    assert (below + [f])[|below|] == f;
    forall i | 0 <= i < |below| ensures AgreeOn(NodeIds(p.tasks[below[i].taskId].nodes), a, b) {
      assert (below + [f])[i] == below[i];
    }
  }

  /** The caller's frame once a call has given result `r` and merged its variables. */
  function ResumedFrame(f: Frame, call: PendingCall, vars: Vars, r: FnResult): Frame {
    var target := OutcomeTarget(call.jumps, r);
    if target == "" then f.(vars := vars, pending := Some(OutcomeOf(r) != SYSTEM_EXCEPTION))
    else f.(vars := vars, start := target, started := true)
  }

  lemma ConcludedGave(p: Project, below: seq<Frame>, f: Frame, call: PendingCall, callee: Activation, visited: map<string, nat>)
    requires call.functionId in p.tasks && callee.ending.Gave?
    ensures Concluded(p, below + [f], CalleeFrame(p, call, f.depth + 1), callee, visited) ==
      match MergeBack(f.vars, callee.vars, call.outs, callee.ending.result)
      case Err(e) => Halted(Failed(e), callee.vars, Logged(callee.world, e))
      case Ok(vars) => Live(State(below + [ResumedFrame(f, call, vars, callee.ending.result)], visited, callee.vars, callee.world))
  {
    assert (below + [f])[..|below|] == below && (below + [f])[|below|] == f;
  }

  /** Simulation, from the moment the callee's activation is over. */
  lemma {:induction false} SimulateResume(p: Project, env: Env, below: seq<Frame>, f: Frame, call: PendingCall,
      callee: Activation, visited: map<string, nat>, local: map<string, nat>)
    returns (n: nat, visited': map<string, nat>)
    requires NeverCalls(p, env, Bottom(below, f))
    requires Ready(p, below, f) && Waiting(f)
    requires AgreeOn(NodeIds(p.tasks[f.taskId].nodes), visited, local)
    requires Callable(p, TopContext(p, below, f), call.functionId)
    requires callee.ending.Gave? || callee.ending.Fell? || callee.ending.Aborted?
    ensures f.isFunction ==> below != []
    ensures var c := Concluded(p, below + [f], CalleeFrame(p, call, f.depth + 1), callee, visited);
      && Shaped(p, c)
      && Run(p, env, n, c) == Concluded(p, below, f, AfterCall(p, env, TopContext(p, below, f), f.start, call, callee, local, f.vars), visited')
      && AgreeBelow(p, below, visited, visited')
    decreases MAX_CALL_DEPTH + 1 - f.depth, Budget(p.tasks[f.taskId].nodes, local, env.maxVisits), |p.tasks[f.taskId].nodes|, 4
  {
    hide WalkGraph, RunGraph, Step, ShapedStack, DisjointGraphs, NeverCalls, RunCallee, VisitNode, Enter, MergeBack, OutcomeTarget;
    ReadyFacts(p, below, f);
    if callee.ending.Fell? {
      n, visited' := SimulateEnter(p, env, below, f, visited, local, Live(State(below + [f], visited, callee.vars, callee.world)));
    } else if callee.ending.Aborted? {
      n, visited' := 0, visited;
    } else {
      ConcludedGave(p, below, f, call, callee, visited);
      var back := MergeBack(f.vars, callee.vars, call.outs, callee.ending.result);
      if back.Err? {
        n, visited' := 0, visited;
      } else {
        n, visited' := SimulateGave(p, env, below, f, call, callee, back.value, visited, local);
      }
    }
  }

  lemma {:induction false} SimulateGave(p: Project, env: Env, below: seq<Frame>, f: Frame, call: PendingCall,
      callee: Activation, vars: Vars, visited: map<string, nat>, local: map<string, nat>)
    returns (n: nat, visited': map<string, nat>)
    requires NeverCalls(p, env, Bottom(below, f))
    requires Ready(p, below, f) && Waiting(f)
    requires AgreeOn(NodeIds(p.tasks[f.taskId].nodes), visited, local)
    requires callee.ending.Gave? && MergeBack(f.vars, callee.vars, call.outs, callee.ending.result) == Ok(vars)
    ensures f.isFunction ==> below != []
    ensures var c := Live(State(below + [ResumedFrame(f, call, vars, callee.ending.result)], visited, callee.vars, callee.world));
      && Shaped(p, c)
      && Run(p, env, n, c) == Concluded(p, below, f, AfterCall(p, env, TopContext(p, below, f), f.start, call, callee, local, f.vars), visited')
      && AgreeBelow(p, below, visited, visited')
    decreases MAX_CALL_DEPTH + 1 - f.depth, Budget(p.tasks[f.taskId].nodes, local, env.maxVisits), |p.tasks[f.taskId].nodes|, 3
  {
    hide WalkGraph, RunGraph, Step, ShapedStack, DisjointGraphs, NeverCalls, RunCallee, VisitNode, Enter, MergeBack, AfterWalk;
    ReadyFacts(p, below, f);
    var r := callee.ending.result;
    var f2 := ResumedFrame(f, call, vars, r);
    ReplaceTopReady(p, below, f, f2);
    if OutcomeTarget(call.jumps, r) == "" {
      n, visited' := 1, visited;
      StepPending(p, env, below, f2, visited, callee.vars, callee.world);
      ConcludedSame(p, below, f, f2, Activation(Done(f2.pending.value), vars, callee.world), visited);
    } else {
      n, visited' := SimulateEnter(p, env, below, f2, visited, local, Live(State(below + [f2], visited, callee.vars, callee.world)));
      ConcludedSame(p, below, f, f2, Enter(p, env, TopContext(p, below, f), f2.start, local, vars, callee.world), visited');
    }
  }

  /** A frame that owes a completion ends on its next turn. */
  lemma StepPending(p: Project, env: Env, below: seq<Frame>, f: Frame, visited: map<string, nat>, stVars: Vars, world: World)
    requires Ready(p, below, f) && f.started && f.pending.Some?
    ensures f.isFunction ==> below != []
    ensures var c := Live(State(below + [f], visited, stVars, world));
      Shaped(p, c) && Run(p, env, 1, c) == Concluded(p, below, f, Activation(Done(f.pending.value), f.vars, world), visited)
  {
    hide WalkGraph, ShapedStack, DisjointGraphs, NeverCalls, StartIndex;
    ReadyFacts(p, below, f);
    var c := Live(State(below + [f], visited, stVars, world));
    assert c.st.stack[..|below|] == below;
    StepKeepsShape(p, env, c);
    assert Run(p, env, 1, c) == Run(p, env, 0, Step(p, env, c));
  }

  function EnteredVisits(p: Project, f: Frame, visited: map<string, nat>): map<string, nat>
    requires f.taskId in p.tasks
  {
    if f.started then visited else Without(visited, NodeIds(p.tasks[f.taskId].nodes))
  }

  /** One turn for a frame that owes nothing: reset its counters if it is new, then walk. */
  lemma StepEnters(p: Project, env: Env, below: seq<Frame>, f: Frame, c: Config)
    requires Ready(p, below, f) && f.pending.None?
    requires c.Live? && c.st.stack == below + [f]
    ensures f.isFunction ==> below != []
    ensures Grounded(c.st)
    ensures var w := match StartIndex(p.tasks[f.taskId], f.start)
        case None => Walk(Raised(MissingStart), EnteredVisits(p, f, c.st.visited), f.vars, c.st.world)
        case Some(i) => WalkGraph(p, env, TopContext(p, below, f), i, EnteredVisits(p, f, c.st.visited), f.vars, c.st.world);
      && (w.exit.Calling? ==> w.exit.call.functionId in p.tasks)
      && Step(p, env, c) == AfterWalk(p, below, f.(pending := None, started := true), w)
  {
    hide WalkGraph, AfterWalk, ShapedStack, DisjointGraphs, NeverCalls;
    ReadyFacts(p, below, f);
    assert c.st.stack[..|below|] == below && c.st.stack[|below|] == f;
    WalkTopCallsKnownFunction(p, env, c.st);
  }

  /** Simulation, from a loop head at which the top frame (re)enters its graph. */
  lemma {:induction false} SimulateEnter(p: Project, env: Env, below: seq<Frame>, f: Frame, visited: map<string, nat>,
      local: map<string, nat>, c: Config)
    returns (n: nat, visited': map<string, nat>)
    requires NeverCalls(p, env, Bottom(below, f))
    requires Ready(p, below, f) && f.pending.None?
    requires if f.started then AgreeOn(NodeIds(p.tasks[f.taskId].nodes), visited, local) else local == map[]
    requires c.Live? && c.st.stack == below + [f] && c.st.visited == visited
    ensures f.isFunction ==> below != []
    ensures Shaped(p, c)
    ensures Run(p, env, n, c) == Concluded(p, below, f, Enter(p, env, TopContext(p, below, f), f.start, local, f.vars, c.st.world), visited')
    ensures AgreeBelow(p, below, visited, visited')
    decreases MAX_CALL_DEPTH + 1 - f.depth, Budget(p.tasks[f.taskId].nodes, local, env.maxVisits), |p.tasks[f.taskId].nodes|, 2
  {
    hide WalkGraph, RunGraph, Step, AfterWalk, ShapedStack, DisjointGraphs, NeverCalls;
    ReadyFacts(p, below, f);
    var f' := f.(pending := None, started := true);
    var entered := EnteredVisits(p, f, visited);
    ReplaceTopReady(p, below, f, f');
    StepKeepsShape(p, env, c);
    StepEnters(p, env, below, f, c);
    assert AgreeBelow(p, below, visited, entered);
    if StartIndex(p.tasks[f.taskId], f.start).None? {
      n, visited' := 1, entered;
      assert Run(p, env, 1, c) == Run(p, env, 0, Step(p, env, c));
      ConcludedSame(p, below, f, f', Activation(Threw(MissingStart), f.vars, c.st.world), entered);
    } else {
      var n1;
      n1, visited' := SimulateGraph(p, env, below, f', StartIndex(p.tasks[f.taskId], f.start).value, entered, local, f.vars, c.st.world);
      n := n1 + 1;
      ConcludedSame(p, below, f, f', Enter(p, env, TopContext(p, below, f), f.start, local, f.vars, c.st.world), visited');
    }
  }
}
