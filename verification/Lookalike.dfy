/** When two projects cannot be told apart by running them.  The ids on edges do not matter, only
    the places they lead to: node ids may differ where both lead to the same enabled node. */
module Lookalike {
  import opened Common
  import opened Runtime
  import opened Scheduler
  import opened StackShape
  import opened Soundness

  // ---------------------------------------------------------------- places

  /** Where following a target ends up: nowhere, at a node that is not there, past the last enabled
      node, or at a node that runs. */
  datatype Place = Ends | Missing | PastEnd | At(index: nat)

  function FirstEnabled(nodes: seq<Node>, i: nat): (r: Option<nat>)
    ensures r.Some? ==> i <= r.value < |nodes| && nodes[r.value].enabled
    decreases |nodes| - i
  {
    if i >= |nodes| then None else if nodes[i].enabled then Some(i) else FirstEnabled(nodes, i + 1)
  }

  function Landing(nodes: seq<Node>, i: nat): Place {
    match FirstEnabled(nodes, i)
    case None => PastEnd
    case Some(j) => At(j)
  }

  function PlaceOf(task: Task, target: string): Place {
    if target == "" then Ends
    else
      match IndexOf(task.nodes, target)
      case None => Missing
      case Some(i) => Landing(task.nodes, i)
  }

  function StartPlace(task: Task, start: string): Place {
    if start == "" then Landing(task.nodes, 0) else PlaceOf(task, start)
  }

  /** Port `(port, id)` of a node leads to the same place over both edge lists. */
  predicate SamePlace(task: Task, out: seq<Edge>, out': seq<Edge>, port: string, id: string) {
    PlaceOf(task, FindEdgeJump(out, port, id)) == PlaceOf(task, FindEdgeJump(out', port, id))
  }

  ghost predicate SamePlaces(task: Task, out: seq<Edge>, out': seq<Edge>) {
    forall port, id :: SamePlace(task, out, out', port, id)
  }

  function JumpAt(jumps: map<string, string>, k: string): string {
    if k in jumps then jumps[k] else ""
  }

  ghost predicate JumpsAlike(task: Task, jumps: map<string, string>, jumps': map<string, string>) {
    forall k :: PlaceOf(task, JumpAt(jumps, k)) == PlaceOf(task, JumpAt(jumps', k))
  }

  lemma OutcomeJumpAt(out: seq<Edge>, k: string)
    requires k != ""
    ensures JumpAt(OutcomeJumps(out), k) == FindEdgeJump(out, "", k)
  {
    hide OutcomeJumps, FindEdgeJump;
  }

  lemma OutcomeJumpsAlike(task: Task, out: seq<Edge>, out': seq<Edge>)
    requires SamePlaces(task, out, out')
    ensures JumpsAlike(task, OutcomeJumps(out), OutcomeJumps(out'))
  {
    hide OutcomeJumps, FindEdgeJump, PlaceOf;
    forall k ensures PlaceOf(task, JumpAt(OutcomeJumps(out), k)) == PlaceOf(task, JumpAt(OutcomeJumps(out'), k)) {
      if k != "" {
        OutcomeJumpAt(out, k);
        OutcomeJumpAt(out', k);
        assert SamePlace(task, out, out', "", k);
      }
    }
  }

  // ---------------------------------------------------------------- parts and what they share

  /** The enabled node behaves in both projects alike: its ports lead to the same places, the page
      maps make no difference to it, and what it calls is in the part. */
  ghost predicate NodeAlike(env: Env, big: Project, small: Project, task: Task, node: Node) {
    && SamePlaces(task, OutEdges(big.edges, node.nodeId), OutEdges(small.edges, node.nodeId))
    && (forall tick: nat, vars: Vars :: env.exec(tick, big.pageMap, node, vars) == env.exec(tick, small.pageMap, node, vars))
    && (node.nodeType == "call_function" && Strip(node.functionId) != "" ==> Strip(node.functionId) in small.tasks)
  }

  ghost predicate Contained(big: Project, small: Project) {
    forall t :: t in small.tasks ==> t in big.tasks && big.tasks[t] == small.tasks[t]
  }

  ghost predicate Part(env: Env, big: Project, small: Project) {
    && Contained(big, small)
    && forall t, i :: t in small.tasks && 0 <= i < |small.tasks[t].nodes| && small.tasks[t].nodes[i].enabled ==>
         NodeAlike(env, big, small, small.tasks[t], small.tasks[t].nodes[i])
  }

  // ---------------------------------------------------------------- one visit

  predicate SameCall(a: PendingCall, b: PendingCall) {
    a.(jumps := map[]) == b.(jumps := map[])
  }

  ghost predicate ExitsAlike(small: Project, task: Task, a: Exit, b: Exit) {
    if a.Calling? && b.Calling? then
      SameCall(a.call, b.call) && JumpsAlike(task, a.call.jumps, b.call.jumps) && a.call.functionId in small.tasks
    else a == b
  }

  ghost predicate MovesAlike(small: Project, task: Task, a: Move, b: Move) {
    match (a, b)
    case (Goto(i), Goto(j)) => Landing(task.nodes, i) == Landing(task.nodes, j)
    case (Leave(e), Leave(f)) => ExitsAlike(small, task, e, f)
    case _ => false
  }

  lemma RouteAlike(small: Project, task: Task, out: seq<Edge>, out': seq<Edge>, success: bool, branch: Option<Branch>)
    requires SamePlaces(task, out, out')
    ensures MovesAlike(small, task, Route(task, out, success, branch), Route(task, out', success, branch))
  {
    hide FindEdgeJump, IndexOf, Landing, JumpsAlike;
    var (port, id) := if branch.Some? then (branch.value.port, branch.value.id) else if success then ("success", "") else ("failure", "");
    assert SamePlace(task, out, out', port, id);
    var a, b := FindEdgeJump(out, port, id), FindEdgeJump(out', port, id);
    PlacesTell(task, a);
    PlacesTell(task, b);
  }

  /** A target's place tells whether there is one and whether its node is there. */
  lemma PlacesTell(task: Task, target: string)
    ensures PlaceOf(task, target) == Ends <==> target == ""
    ensures PlaceOf(task, target) == Missing <==> target != "" && IndexOf(task.nodes, target).None?
    ensures target != "" && IndexOf(task.nodes, target).Some? ==>
      PlaceOf(task, target) == Landing(task.nodes, IndexOf(task.nodes, target).value)
  {
  }

  lemma ScheduledIsLoaded(p: Project, env: Env, ctx: Context, tick: nat, call: CallIntent, caller: Vars)
    ensures Schedule(p, env, ctx, tick, call, caller).Ok? ==> Strip(call.functionId) in p.tasks
  {
    hide ChildVars, Strip;
  }

  lemma DispatchAlike(big: Project, small: Project, env: Env, ctx: Context, node: Node, r: NodeResult, vars: Vars, world: World)
    requires Contained(big, small) && NodeAlike(env, big, small, ctx.task, node)
    requires r.Ran? && r.call.Some? ==> node.nodeType == "call_function" && Strip(r.call.value.functionId) == Strip(node.functionId)
    ensures var (m, w), (m', w') := Dispatch(big, env, ctx, node, r, vars, world), Dispatch(small, env, ctx, node, r, vars, world);
      MovesAlike(small, ctx.task, m, m') && w == w'
  {
    hide Route, OutcomeJumps, Schedule, OutEdges, Landing, JumpsAlike, SamePlaces, Strip;
    var out, out' := OutEdges(big.edges, node.nodeId), OutEdges(small.edges, node.nodeId);
    if r.Ran? && r.success && r.call.Some? {
      ScheduleReads(big, small, env, ctx, world.tick, r.call.value, vars);
      ScheduledIsLoaded(small, env, ctx, world.tick, r.call.value, vars);
    }
    OutcomeJumpsAlike(ctx.task, out, out');
    RouteAlike(small, ctx.task, out, out', false, None);
    if r.Ran? {
      RouteAlike(small, ctx.task, out, out', r.success, r.branch);
    }
  }

  ghost predicate VisitsAlike(small: Project, task: Task, v: Visit, v': Visit) {
    MovesAlike(small, task, v.move, v'.move) && v.visited == v'.visited && v.vars == v'.vars && v.world == v'.world
  }

  lemma VisitAlike(big: Project, small: Project, env: Env, ctx: Context, t: string, index: nat, visited: map<string, nat>,
      vars: Vars, world: World)
    requires Forwards(env) && Part(env, big, small)
    requires t in small.tasks && ctx.task == small.tasks[t] && index < |ctx.task.nodes| && ctx.task.nodes[index].enabled
    ensures VisitsAlike(small, ctx.task, VisitNode(big, env, ctx, index, visited, vars, world),
      VisitNode(small, env, ctx, index, visited, vars, world))
  {
    hide Dispatch, JumpsAlike, Landing, SamePlaces;
    var node := ctx.task.nodes[index];
    assert NodeAlike(env, big, small, ctx.task, node);
    var (r, vars') := env.exec(world.tick, big.pageMap, node, vars);
    assert env.exec(world.tick, big.pageMap, node, vars) == env.exec(world.tick, small.pageMap, node, vars);
    DispatchAlike(big, small, env, ctx, node, r, vars', world.(tick := world.tick + 1));
  }

  // ---------------------------------------------------------------- one walk

  /** Walking from a disabled node is walking from the next enabled one. */
  lemma {:induction false} WalkFromLanding(p: Project, env: Env, ctx: Context, i: nat, visited: map<string, nat>, vars: Vars, world: World)
    ensures var place := Landing(ctx.task.nodes, i);
      WalkGraph(p, env, ctx, i, visited, vars, world) ==
        if place.At? then WalkGraph(p, env, ctx, place.index, visited, vars, world) else Walk(FellOff, visited, vars, world)
    decreases |ctx.task.nodes| - i
  {
    hide WalkGraph, VisitNode;
    if i >= |ctx.task.nodes| {
      PastTheEnd(p, env, ctx, i, visited, vars, world);
    } else if !ctx.task.nodes[i].enabled {
      WalkOnce(p, env, ctx, i, visited, vars, world);
      WalkFromLanding(p, env, ctx, i + 1, visited, vars, world);
    }
  }

  ghost predicate WalksAlike(small: Project, task: Task, w: Walk, w': Walk) {
    ExitsAlike(small, task, w.exit, w'.exit) && w.visited == w'.visited && w.vars == w'.vars && w.world == w'.world
  }

  lemma {:induction false} WalkAlike(big: Project, small: Project, env: Env, ctx: Context, t: string, i: nat, i': nat,
      visited: map<string, nat>, vars: Vars, world: World)
    requires Forwards(env) && Part(env, big, small)
    requires t in small.tasks && ctx.task == small.tasks[t] && Landing(ctx.task.nodes, i) == Landing(ctx.task.nodes, i')
    ensures WalksAlike(small, ctx.task, WalkGraph(big, env, ctx, i, visited, vars, world),
      WalkGraph(small, env, ctx, i', visited, vars, world))
    decreases Budget(ctx.task.nodes, visited, env.maxVisits)
  {
    hide Forwards, Part, VisitNode, WalkGraph, JumpsAlike;
    WalkFromLanding(big, env, ctx, i, visited, vars, world);
    WalkFromLanding(small, env, ctx, i', visited, vars, world);
    if Landing(ctx.task.nodes, i).At? {
      var j := Landing(ctx.task.nodes, i).index;
      VisitAlike(big, small, env, ctx, t, j, visited, vars, world);
      WalkOnce(big, env, ctx, j, visited, vars, world);
      WalkOnce(small, env, ctx, j, visited, vars, world);
      var v, v' := VisitNode(big, env, ctx, j, visited, vars, world), VisitNode(small, env, ctx, j, visited, vars, world);
      if v.move.Goto? {
        VisitShrinks(big, env, ctx, j, visited, vars, world);
        WalkAlike(big, small, env, ctx, t, v.move.index, v'.move.index, v.visited, v.vars, v.world);
      }
    }
  }

  // ---------------------------------------------------------------- stacks

  /** A frame without the two fields that hold node ids read off edges. */
  function Erase(f: Frame): Frame {
    f.(start := "", jumps := map[])
  }

  ghost predicate FramesAlike(task: Task, f: Frame, f': Frame) {
    Erase(f) == Erase(f') && StartPlace(task, f.start) == StartPlace(task, f'.start)
  }

  ghost predicate StacksAlike(small: Project, s: seq<Frame>, s': seq<Frame>) {
    && |s| == |s'|
    && (forall i :: 0 <= i < |s| ==> s[i].taskId in small.tasks && FramesAlike(small.tasks[s[i].taskId], s[i], s'[i]))
    && (forall i :: 1 <= i < |s| ==> JumpsAlike(small.tasks[s[i - 1].taskId], s[i].jumps, s'[i].jumps))
  }

  ghost predicate ConfigsAlike(small: Project, c: Config, c': Config) {
    match (c, c')
    case (Live(st), Live(st')) =>
      StacksAlike(small, st.stack, st'.stack) && st.visited == st'.visited && st.vars == st'.vars && st.world == st'.world
    case _ => c == c'
  }

  lemma PopAlike(small: Project, s: seq<Frame>, s': seq<Frame>)
    requires StacksAlike(small, s, s') && s != []
    ensures StacksAlike(small, s[..|s| - 1], s'[..|s'| - 1])
  {
  }

  lemma ReplaceTopAlike(small: Project, s: seq<Frame>, s': seq<Frame>, f: Frame, f': Frame)
    requires StacksAlike(small, s, s') && s != []
    requires f.taskId in small.tasks && f.taskId == s[|s| - 1].taskId && FramesAlike(small.tasks[f.taskId], f, f')
    requires f.jumps == s[|s| - 1].jumps && f'.jumps == s'[|s'| - 1].jumps
    ensures StacksAlike(small, s[..|s| - 1] + [f], s'[..|s'| - 1] + [f'])
  {
    hide FramesAlike, JumpsAlike;
  }

  lemma PushAlike(small: Project, s: seq<Frame>, s': seq<Frame>, f: Frame, f': Frame)
    requires StacksAlike(small, s, s') && s != []
    requires f.taskId in small.tasks && FramesAlike(small.tasks[f.taskId], f, f')
    requires s[|s| - 1].taskId in small.tasks && JumpsAlike(small.tasks[s[|s| - 1].taskId], f.jumps, f'.jumps)
    ensures StacksAlike(small, s + [f], s' + [f'])
  {
    hide FramesAlike, JumpsAlike;
  }

  lemma TopAlike(small: Project, s: seq<Frame>, s': seq<Frame>)
    requires StacksAlike(small, s, s') && s != []
    ensures var f, f' := s[|s| - 1], s'[|s'| - 1];
      f.taskId in small.tasks && FramesAlike(small.tasks[f.taskId], f, f')
    ensures |s| > 1 ==>
      && s[|s| - 2].taskId in small.tasks
      && FramesAlike(small.tasks[s[|s| - 2].taskId], s[|s| - 2], s'[|s'| - 2])
      && JumpsAlike(small.tasks[s[|s| - 2].taskId], s[|s| - 1].jumps, s'[|s'| - 1].jumps)
  {
    hide FramesAlike, JumpsAlike;
  }

  lemma ActiveAlike(small: Project, s: seq<Frame>, s': seq<Frame>)
    requires StacksAlike(small, s, s')
    ensures ActiveFunctions(s) == ActiveFunctions(s')
  {
    hide JumpsAlike, StartPlace;
    assert forall i :: 0 <= i < |s| ==> Erase(s[i]) == Erase(s'[i]);
    assert forall i :: 0 <= i < |s| ==> s[i].taskId == s'[i].taskId && s[i].isFunction == s'[i].isFunction;
  }

  // ---------------------------------------------------------------- one turn

  lemma StartsAlike(task: Task, start: string, start': string)
    requires StartPlace(task, start) == StartPlace(task, start')
    ensures StartIndex(task, start).Some? <==> StartIndex(task, start').Some?
    ensures StartIndex(task, start).Some? ==>
      Landing(task.nodes, StartIndex(task, start).value) == Landing(task.nodes, StartIndex(task, start').value)
  {
    hide Landing;
    PlacesTell(task, start);
    PlacesTell(task, start');
    assert Landing(task.nodes, 0) == PastEnd || Landing(task.nodes, 0).At? by { LandingIsInside(task.nodes, 0); }
  }

  lemma LandingIsInside(nodes: seq<Node>, i: nat)
    ensures Landing(nodes, i) == PastEnd || Landing(nodes, i).At?
  {
  }

  lemma WalkTopAlike(big: Project, small: Project, env: Env, st: State, st': State)
    requires Forwards(env) && Part(env, big, small) && st.stack != []
    requires StacksAlike(small, st.stack, st'.stack) && st.visited == st'.visited && st.world == st'.world
    ensures var t := st.stack[|st.stack| - 1].taskId;
      && t in small.tasks && t in big.tasks && st'.stack[|st'.stack| - 1].taskId == t
      && WalksAlike(small, small.tasks[t], WalkTop(big, env, st), WalkTop(small, env, st'))
  {
    hide Forwards, NodeAlike, WalkGraph, JumpsAlike, StartPlace, Landing, StartIndex, StacksAlike;
    TopAlike(small, st.stack, st'.stack);
    ActiveAlike(small, st.stack, st'.stack);
    SizesAlike(small, st.stack, st'.stack);
    var f, f' := st.stack[|st.stack| - 1], st'.stack[|st'.stack| - 1];
    assert f'.taskId == Erase(f').taskId == Erase(f).taskId == f.taskId;
    var task := small.tasks[f.taskId];
    StartsAlike(task, f.start, f'.start);
    var visited := if f.started then st.visited else Without(st.visited, NodeIds(task.nodes));
    var ctx := ContextOf(small, st'.stack);
    SameFields(f, f');
    assert ContextOf(big, st.stack) == ctx;
    if f.pending.None? && StartIndex(task, f.start).Some? {
      WalkAlike(big, small, env, ctx, f.taskId, StartIndex(task, f.start).value, StartIndex(task, f'.start).value, visited, f.vars, st.world);
    }
  }

  lemma SizesAlike(small: Project, s: seq<Frame>, s': seq<Frame>)
    requires StacksAlike(small, s, s')
    ensures |s| == |s'|
  {
  }

  lemma SameFields(f: Frame, f': Frame)
    requires Erase(f) == Erase(f')
    ensures f.taskId == f'.taskId && f.isFunction == f'.isFunction && f.started == f'.started && f.vars == f'.vars
    ensures f.depth == f'.depth && f.outs == f'.outs && f.pending == f'.pending
  {
  }

  lemma ResumeAlike(task: Task, caller: Frame, caller': Frame, child: Frame, child': Frame, vars: Vars, r: FnResult)
    requires FramesAlike(task, caller, caller') && Erase(child) == Erase(child') && JumpsAlike(task, child.jumps, child'.jumps)
    ensures var a, b := Resume(caller, child, vars, r), Resume(caller', child', vars, r);
      if a.Ok? then
        && b.Ok? && FramesAlike(task, a.value, b.value) && a.value.taskId == caller.taskId
        && a.value.jumps == caller.jumps && b.value.jumps == caller'.jumps
      else b == Err(a.error)
  {
    hide MergeBack, PlaceOf, OutcomeOf;
    SameFields(caller, caller');
    SameFields(child, child');
    var a, b := OutcomeTarget(child.jumps, r), OutcomeTarget(child'.jumps, r);
    assert a == JumpAt(child.jumps, OutcomeOf(r)) && b == JumpAt(child'.jumps, OutcomeOf(r));
    PlacesTell(task, a);
    PlacesTell(task, b);
  }

  lemma ReturnAlike(small: Project, s: seq<Frame>, s': seq<Frame>, f: Frame, f': Frame, vars: Vars, r: FnResult,
      visited: map<string, nat>, world: World)
    requires StacksAlike(small, s, s') && |s| > 1
    requires Erase(f) == Erase(f') && f.jumps == s[|s| - 1].jumps && f'.jumps == s'[|s'| - 1].jumps
    ensures |s'| == |s|
    ensures ConfigsAlike(small, ReturnToCaller(s[..|s| - 1], f, vars, r, visited, world),
      ReturnToCaller(s'[..|s'| - 1], f', vars, r, visited, world))
  {
    hide Resume, StacksAlike, FramesAlike, JumpsAlike;
    SizesAlike(small, s, s');
    TopAlike(small, s, s');
    PopAlike(small, s, s');
    var below, below' := s[..|s| - 1], s'[..|s'| - 1];
    var caller, caller' := below[|below| - 1], below'[|below'| - 1];
    ResumeAlike(small.tasks[caller.taskId], caller, caller', f, f', vars, r);
    var a, b := Resume(caller, f, vars, r), Resume(caller', f', vars, r);
    if a.Ok? {
      ReplaceTopAlike(small, below, below', a.value, b.value);
    }
  }

  lemma CallAlike(big: Project, small: Project, s: seq<Frame>, s': seq<Frame>, f: Frame, f': Frame, call: PendingCall, call': PendingCall, vars: Vars)
    requires Contained(big, small) && StacksAlike(small, s, s') && s != []
    requires f.taskId in small.tasks && f.taskId == s[|s| - 1].taskId && FramesAlike(small.tasks[f.taskId], f, f')
    requires f.jumps == s[|s| - 1].jumps && f'.jumps == s'[|s'| - 1].jumps
    requires SameCall(call, call') && JumpsAlike(small.tasks[f.taskId], call.jumps, call'.jumps)
    requires call.functionId in small.tasks
    ensures |s'| == |s| && call'.functionId in small.tasks
    ensures StacksAlike(small,
      s[..|s| - 1] + [f.(vars := vars, pending := None, started := true), CalleeFrame(big, call, f.depth + 1)],
      s'[..|s'| - 1] + [f'.(vars := vars, pending := None, started := true), CalleeFrame(small, call', f'.depth + 1)])
  {
    hide StacksAlike, JumpsAlike, StartPlace;
    SizesAlike(small, s, s');
    var g, g' := f.(vars := vars, pending := None, started := true), f'.(vars := vars, pending := None, started := true);
    SameFields(f, f');
    assert Erase(g) == Erase(f).(vars := vars, pending := None, started := true);
    ReplaceTopAlike(small, s, s', g, g');
    assert call.functionId == call.(jumps := map[]).functionId == call'.(jumps := map[]).functionId == call'.functionId;
    var callee, callee' := CalleeFrame(big, call, f.depth + 1), CalleeFrame(small, call', f'.depth + 1);
    assert Erase(callee) == Erase(callee') && callee.start == callee'.start;
    var t, t' := s[..|s| - 1] + [g], s'[..|s'| - 1] + [g'];
    PushAlike(small, t, t', callee, callee');
    assert t + [callee] == s[..|s| - 1] + [g, callee];
    assert t' + [callee'] == s'[..|s'| - 1] + [g', callee'];
  }

  lemma AfterWalkAlike(big: Project, small: Project, s: seq<Frame>, s': seq<Frame>, f: Frame, f': Frame, w: Walk, w': Walk)
    requires Contained(big, small) && StacksAlike(small, s, s') && s != [] && (f.isFunction ==> |s| > 1)
    requires f.taskId in small.tasks && f.taskId == s[|s| - 1].taskId && FramesAlike(small.tasks[f.taskId], f, f')
    requires f.jumps == s[|s| - 1].jumps && f'.jumps == s'[|s'| - 1].jumps
    requires WalksAlike(small, small.tasks[f.taskId], w, w')
    ensures |s| == |s'| && f'.isFunction == f.isFunction
    ensures w.exit.Calling? ==> w.exit.call.functionId in big.tasks
    ensures w'.exit.Calling? ==> w'.exit.call.functionId in small.tasks
    ensures ConfigsAlike(small, AfterWalk(big, s[..|s| - 1], f, w), AfterWalk(small, s'[..|s'| - 1], f', w'))
  {
    hide StacksAlike, JumpsAlike, StartPlace, ReturnToCaller, CalleeFrame, Erase;
    SizesAlike(small, s, s');
    SameFields(f, f');
    PopAlike(small, s, s');
    if w.exit.Calling? {
      CallAlike(big, small, s, s', f, f', w.exit.call, w'.exit.call, w.vars);
    } else if f.isFunction && !w.exit.FellOff? {
      var r := if w.exit.Returned? then w.exit.result else NO_RESULT;
      var world := if w.exit.Returned? then w.world else if w.exit.Raised? then Logged(w.world, w.exit.error) else Logged(w.world, NoReturnPath);
      ReturnAlike(small, s, s', f, f', w.vars, r, w.visited, world);
    }
  }

  lemma StepAlike(big: Project, small: Project, env: Env, c: Config, c': Config)
    requires Forwards(env) && Part(env, big, small)
    requires Shaped(big, c) && Shaped(small, c') && ConfigsAlike(small, c, c')
    ensures (c.Live? ==> Grounded(c.st)) && (c'.Live? ==> Grounded(c'.st))
    ensures ConfigsAlike(small, Step(big, env, c), Step(small, env, c'))
  {
    hide Forwards, WalkTop, AfterWalk, StacksAlike, NodeAlike, JumpsAlike, StartPlace;
    StepKeepsShape(big, env, c);
    StepKeepsShape(small, env, c');
    if c.Live? {
      var s, s' := c.st.stack, c'.st.stack;
      var f, f' := s[|s| - 1], s'[|s'| - 1];
      TopAlike(small, s, s');
      SameFields(f, f');
      WalkTopAlike(big, small, env, c.st, c'.st);
      var g, g' := f.(pending := None, started := true), f'.(pending := None, started := true);
      assert Erase(g) == Erase(f).(pending := None, started := true);
      AfterWalkAlike(big, small, s, s', g, g', WalkTop(big, env, c.st), WalkTop(small, env, c'.st));
    }
  }

  /** From configurations that look alike, the project and its part go on looking alike: at every
      turn the same stack but for the spelling of jump targets, the same counters, variables and log,
      and in the end the same verdict. */
  lemma {:induction false} RunAlike(big: Project, small: Project, env: Env, n: nat, c: Config, c': Config)
    requires Forwards(env) && Part(env, big, small)
    requires Shaped(big, c) && Shaped(small, c') && ConfigsAlike(small, c, c')
    ensures ConfigsAlike(small, Run(big, env, n, c), Run(small, env, n, c'))
  {
    hide Forwards, Part, Step, ShapedStack, ConfigsAlike;
    if n > 0 {
      StepAlike(big, small, env, c, c');
      StepKeepsShape(big, env, c);
      StepKeepsShape(small, env, c');
      RunAlike(big, small, env, n - 1, Step(big, env, c), Step(small, env, c'));
    }
  }
}
