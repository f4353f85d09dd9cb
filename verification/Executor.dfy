/** The scheduler in its own form: frame objects mutated in place on an explicit stack, proved
    against the value machine of `Scheduler`. */
module Executor {
  import opened Common
  import opened Runtime
  import opened Scheduler
  import opened StackShape
  import opened Scopes
  import opened BigStep
  import opened Refinement
  import opened Simulation
  import opened Reach
  import opened Halting

  /** A frame dictionary.  `returnTo` is the frame that made the call, as an object. */
  class FrameRecord {
    const taskId: string
    const isFunction: bool
    const depth: nat
    const jumps: map<string, string>
    const outs: seq<OutBinding>
    const returnTo: FrameRecord?
    var startNode: string
    var started: bool
    var variables: Vars
    var pending: Option<bool>

    constructor (taskId: string, isFunction: bool, startNode: string, variables: Vars, depth: nat,
                 jumps: map<string, string>, outs: seq<OutBinding>, returnTo: FrameRecord?)
      ensures View() == Frame(taskId, isFunction, startNode, false, variables, depth, jumps, outs, None)
      ensures this.returnTo == returnTo
    {
      this.taskId, this.isFunction, this.depth := taskId, isFunction, depth;
      this.jumps, this.outs, this.returnTo := jumps, outs, returnTo;
      this.startNode, this.started, this.variables, this.pending := startNode, false, variables, None;
    }

    function View(): Frame
      reads this
    {
      Frame(taskId, isFunction, startNode, started, variables, depth, jumps, outs, pending)
    }
  }

  function Views(frames: seq<FrameRecord>): (r: seq<Frame>)
    reads frames
    ensures |r| == |frames| && forall i :: 0 <= i < |frames| ==> r[i] == frames[i].View()
  {
    if frames == [] then [] else Views(frames[..|frames| - 1]) + [frames[|frames| - 1].View()]
  }

  function FindInFrames(frames: seq<FrameRecord>, f: FrameRecord): (i: nat)
    requires f in frames
    ensures i < |frames| && frames[i] == f
  {
    if frames[0] == f then 0 else 1 + FindInFrames(frames[1..], f)
  }

  // ---------------------------------------------------------------- edge lookup

  /** `_find_edge_jump` */
  method FindJump(out: seq<Edge>, port: string, stableId: string) returns (target: string)
    ensures target == FindEdgeJump(out, port, stableId)
  {
    for i := 0 to |out|
      invariant FindEdgeJump(out, port, stableId) == FindEdgeJump(out[i..], port, stableId)
    {
      if Matches(out[i], port, stableId) {
        return out[i].target;
      }
    }
    return "";
  }

  /** One jump per stable port of a call node. */
  method CollectOutcomeJumps(out: seq<Edge>) returns (jumps: map<string, string>)
    ensures jumps == OutcomeJumps(out)
  {
    hide FindEdgeJump, Matches, PortIdentity;
    jumps := map[];
    for i := 0 to |out|
      invariant jumps == OutcomeJumpsUpTo(out, i)
    {
      var stable := PortIdentity(out[i]);
      if stable != "" {
        var target := FindJump(out, out[i].port, stable);
        StableLookupIgnoresPort(out, out[i].port, stable);
        jumps := jumps[stable := target];
      }
    }
    AllOutcomeJumps(out);
  }

  ghost function OutcomeJumpsUpTo(out: seq<Edge>, n: nat): map<string, string>
    requires n <= |out|
  {
    if n == 0 then map[]
    else
      var k := PortIdentity(out[n - 1]);
      if k == "" then OutcomeJumpsUpTo(out, n - 1) else OutcomeJumpsUpTo(out, n - 1)[k := FindEdgeJump(out, "", k)]
  }

  lemma {:induction false} OutcomeJumpsUpToKeys(out: seq<Edge>, n: nat)
    requires n <= |out|
    ensures var m := OutcomeJumpsUpTo(out, n);
      forall k :: (k in m <==> k != "" && exists e :: e in out[..n] && PortIdentity(e) == k) && (k in m ==> m[k] == FindEdgeJump(out, "", k))
  {
    hide FindEdgeJump, PortIdentity;
    if n > 0 {
      OutcomeJumpsUpToKeys(out, n - 1);
      assert out[..n] == out[..n - 1] + [out[n - 1]];
    }
  }

  lemma AllOutcomeJumps(out: seq<Edge>)
    ensures OutcomeJumpsUpTo(out, |out|) == OutcomeJumps(out)
  {
    hide FindEdgeJump, PortIdentity;
    OutcomeJumpsUpToKeys(out, |out|);
    assert out[..|out|] == out;
  }

  lemma {:induction false} StableLookupIgnoresPort(out: seq<Edge>, port: string, stableId: string)
    requires stableId != ""
    ensures FindEdgeJump(out, port, stableId) == FindEdgeJump(out, "", stableId)
  {
    if out != [] {
      StableLookupIgnoresPort(out[1..], port, stableId);
    }
  }

  // ---------------------------------------------------------------- preparing a call

  method BindDefaultsLoop(env: Env, decls: seq<ParamDecl>, start: Vars) returns (r: Result<Vars, Error>)
    ensures r == BindDefaults(env, decls, start)
  {
    var child := start;
    for i := 0 to |decls|
      invariant BindDefaults(env, decls, start) == BindDefaults(env, decls[i..], child)
    {
      if decls[i].default != Null {
        var v := env.coerce(decls[i].default, decls[i].kind);
        if v.None? { return Err(BadArgument); }
        child := child[PARAM_PREFIX + decls[i].name := v.value];
      }
    }
    return Ok(child);
  }

  method BindInputsLoop(env: Env, tick: nat, decls: seq<ParamDecl>, inputs: seq<InBinding>, caller: Vars,
      start: Vars) returns (r: Result<Vars, Error>)
    ensures r == BindInputs(env, tick, decls, inputs, caller, start)
  {
    var child := start;
    for i := 0 to |inputs|
      invariant BindInputs(env, tick, decls, inputs, caller, start) == BindInputs(env, tick, decls, inputs[i..], caller, child)
    {
      var d := Declared(decls, inputs[i].ref);
      if d.Some? {
        var raw := env.resolve(tick, caller, inputs[i].value);
        if raw.None? { return Err(BadArgument); }
        var v := env.coerce(raw.value, d.value.kind);
        if v.None? { return Err(BadArgument); }
        child := child[PARAM_PREFIX + d.value.name := v.value];
      }
    }
    return Ok(child);
  }

  method BindLocalsLoop(env: Env, locals: seq<LocalDecl>, start: Vars) returns (r: Result<Vars, Error>)
    ensures r == BindLocals(env, locals, start)
  {
    var child := start;
    for i := 0 to |locals|
      invariant BindLocals(env, locals, start) == BindLocals(env, locals[i..], child)
    {
      if locals[i].name != "" {
        var v := env.coerce(locals[i].default, locals[i].kind);
        if v.None? { return Err(BadArgument); }
        child := child[LOCAL_PREFIX + locals[i].name := v.value];
      }
    }
    return Ok(child);
  }

  method PrepareChild(env: Env, tick: nat, target: Task, call: CallIntent, caller: Vars) returns (r: Result<Vars, Error>)
    ensures r == ChildVars(env, tick, target, call, caller)
  {
    var decls := Declarations(target.inputs);
    r := BindDefaultsLoop(env, decls, Shared(caller));
    if r.Ok? {
      r := BindInputsLoop(env, tick, decls, call.inputs, caller, r.value);
      if r.Ok? {
        if AllSupplied(decls, r.value) {
          r := BindLocalsLoop(env, target.locals, r.value);
        } else {
          r := Err(MissingParameter);
        }
      }
    }
  }

  method ApplyOutputsLoop(start: Vars, outs: seq<OutBinding>, outputs: Vars) returns (r: Result<Vars, Error>)
    ensures r == ApplyOutputs(start, outs, outputs)
  {
    var vars := start;
    for i := 0 to |outs|
      invariant ApplyOutputs(start, outs, outputs) == ApplyOutputs(vars, outs[i..], outputs)
    {
      if Applies(outs[i], outputs) {
        var w := WriteScoped(vars, Strip(outs[i].target), outputs[Strip(outs[i].outputId)]);
        if w.Err? { return w; }
        vars := w.value;
      }
    }
    return Ok(vars);
  }

  // ---------------------------------------------------------------- the executor

  class GraphExecutor {
    const project: Project
    const env: Env
    var callStack: seq<FrameRecord>
    var visited: map<string, nat>
    var variables: Vars
    var world: World

    constructor (project: Project, env: Env, variables: Vars)
      ensures Valid() && callStack == [] && this.project == project && this.env == env
      ensures this.variables == variables && visited == map[] && world == World(0, [])
    {
      this.project, this.env, this.variables := project, env, variables;
      callStack, visited, world := [], map[], World(0, []);
    }

    /** Frames are distinct objects, and each returns to the one below it. */
    ghost predicate Valid()
      reads this, callStack
    {
      && (forall i, j :: 0 <= i < j < |callStack| ==> callStack[i] != callStack[j])
      && (forall i :: 1 <= i < |callStack| ==> callStack[i].returnTo == callStack[i - 1])
      && (callStack != [] ==> callStack[0].returnTo == null)
    }

    ghost function Snapshot(): State
      reads this, callStack
    {
      State(Views(callStack), visited, variables, world)
    }

    /** `_remove_frame` */
    method RemoveFrame(frame: FrameRecord)
      modifies this`callStack
      ensures callStack ==
        if frame !in old(callStack) then old(callStack)
        else if old(callStack)[|old(callStack)| - 1] == frame then old(callStack)[..|old(callStack)| - 1]
        else var i := FindInFrames(old(callStack), frame); old(callStack)[..i] + old(callStack)[i + 1..]
    {
      if callStack != [] && callStack[|callStack| - 1] == frame {
        callStack := callStack[..|callStack| - 1];
      } else if frame in callStack {
        var i := FindInFrames(callStack, frame);
        callStack := callStack[..i] + callStack[i + 1..];
      }
    }

    /** What a call from the top frame comes to. */
    ghost function Scheduled(call: CallIntent, jumps: map<string, string>): Result<PendingCall, Error>
      requires callStack != [] && callStack[|callStack| - 1].taskId in project.tasks
      reads this, callStack
    {
      match Schedule(project, env, TopContext(), world.tick, call, callStack[|callStack| - 1].variables)
      case Err(e) => Err(e)
      case Ok(vars) => Ok(PendingCall(Strip(call.functionId), vars, jumps, call.outputs))
    }

    /** `_schedule_function_call`: refuse, or push the callee's frame. */
    method ScheduleFunctionCall(call: CallIntent, jumps: map<string, string>) returns (r: Result<PendingCall, Error>)
      requires Valid() && callStack != []
      requires callStack[|callStack| - 1].taskId in project.tasks
      modifies this`callStack
      ensures Valid() && old(callStack) <= callStack
      ensures r == old(Scheduled(call, jumps))
      ensures r.Err? ==> callStack == old(callStack)
      ensures r.Ok? ==>
        && |callStack| == |old(callStack)| + 1
        && fresh(callStack[|callStack| - 1])
        && r.value.functionId in project.tasks
        && callStack[|callStack| - 1].View() == CalleeFrame(project, r.value, old(callStack[|callStack| - 1].depth) + 1)
    {
      hide Schedule;
      var caller := callStack[|callStack| - 1];
      var child := CheckCall(call);
      if child.Err? { return Err(child.error); }
      ghost var ctx := TopContext();
      var functionId := Strip(call.functionId);
      var frame := new FrameRecord(functionId, true, project.tasks[functionId].entry, child.value, caller.depth + 1, jumps, call.outputs, caller);
      callStack := callStack + [frame];
      return Ok(PendingCall(functionId, child.value, jumps, call.outputs));
    }

    /** The refusals, in order, then the callee's variables. */
    method CheckCall(call: CallIntent) returns (r: Result<Vars, Error>)
      requires Valid() && callStack != []
      requires callStack[|callStack| - 1].taskId in project.tasks
      ensures r == Schedule(project, env, TopContext(), world.tick, call, callStack[|callStack| - 1].variables)
      ensures r.Ok? ==> Strip(call.functionId) in project.tasks
    {
      hide ChildVars;
      var caller := callStack[|callStack| - 1];
      var functionId := Strip(call.functionId);
      if functionId == "" { return Err(NoFunctionSelected); }
      if functionId !in project.tasks || project.tasks[functionId].role != "function" { return Err(UnknownFunction); }
      var active := set i | 0 <= i < |callStack| && callStack[i].isFunction :: callStack[i].taskId;
      SameActiveSet(active);
      if functionId in active { return Err(Recursion); }
      if caller.depth + 1 > MAX_CALL_DEPTH { return Err(DepthExceeded); }
      r := PrepareChild(env, world.tick, project.tasks[functionId], call, caller.variables);
    }

    lemma SameActiveSet(active: set<string>)
      requires active == set i | 0 <= i < |callStack| && callStack[i].isFunction :: callStack[i].taskId
      ensures active == ActiveFunctions(Views(callStack))
    {
    }

    ghost function TopContext(): (ctx: Context)
      requires callStack != [] && callStack[|callStack| - 1].taskId in project.tasks
      reads this, callStack
      ensures ctx.task == project.tasks[callStack[|callStack| - 1].taskId]
    {
      ContextOf(project, Views(callStack))
    }

    /** Acts on an executed node's result: call, return, or route. */
    method DispatchResult(node: Node, result: NodeResult) returns (move: Move)
      requires Valid() && callStack != []
      requires callStack[|callStack| - 1].taskId in project.tasks
      modifies this`callStack, this`world
      ensures Valid() && old(callStack) <= callStack
      ensures (move, world) == old(Dispatch(project, env, TopContext(), node, result, callStack[|callStack| - 1].variables, world))
      ensures if move.Leave? && move.exit.Calling? then
          && |callStack| == |old(callStack)| + 1
          && fresh(callStack[|callStack| - 1])
          && move.exit.call.functionId in project.tasks
          && callStack[|callStack| - 1].View() == CalleeFrame(project, move.exit.call, old(callStack[|callStack| - 1].depth) + 1)
        else callStack == old(callStack)
    {
      hide Schedule, Route, CalleeFrame, OutcomeJumps;
      var frame := callStack[|callStack| - 1];
      var task := project.tasks[frame.taskId];
      var out := OutEdges(project.edges, node.nodeId);
      if result.Crash? {
        return Leave(Raised(NodeCrash));
      }
      var success, branch := result.success, result.branch;
      if success && result.call.Some? {
        var jumps := CollectOutcomeJumps(out);
        var started := ScheduleFunctionCall(result.call.value, jumps);
        if started.Ok? {
          return Leave(Calling(started.value));
        }
        world := Logged(world, started.error);
        success, branch := false, None;
      } else if success && result.ret.Some? {
        if frame.isFunction {
          return Leave(Returned(result.ret.value));
        }
        success, branch := false, None;
      }
      move := ChooseRoute(task, out, success, branch);
    }

    /** `_execute_node_safely`: the node's executor, on the top frame's variables. */
    method ExecuteNode(node: Node) returns (result: NodeResult)
      requires Valid() && callStack != []
      requires callStack[|callStack| - 1].taskId in project.tasks
      requires variables == callStack[|callStack| - 1].variables
      modifies this`world, this`variables, callStack[|callStack| - 1]
      ensures Valid() && TopContext() == old(TopContext())
      ensures (result, variables) == env.exec(old(world.tick), project.pageMap, node, old(variables))
      ensures world == old(world).(tick := old(world.tick) + 1)
      ensures callStack[|callStack| - 1].View() == old(callStack[|callStack| - 1].View()).(vars := variables)
    {
      hide ContextOf;
      var frame := callStack[|callStack| - 1];
      var (r, vars) := env.exec(world.tick, project.pageMap, node, variables);
      result, variables, frame.variables, world := r, vars, vars, world.(tick := world.tick + 1);
      ContextIgnoresVariables(old(Views(callStack)), Views(callStack));
    }

    /** Runs one enabled node whose visit has been counted. */
    method RunNode(node: Node) returns (move: Move)
      requires Valid() && callStack != []
      requires callStack[|callStack| - 1].taskId in project.tasks
      requires variables == callStack[|callStack| - 1].variables
      modifies this`callStack, this`world, this`variables, callStack[|callStack| - 1]
      ensures Valid() && old(callStack) <= callStack
      ensures var (r, vars) := env.exec(old(world.tick), project.pageMap, node, old(variables));
        && variables == vars
        && (move, world) == Dispatch(project, env, old(TopContext()), node, r, vars, old(world).(tick := old(world.tick) + 1))
      ensures callStack[|old(callStack)| - 1].View() == old(callStack[|callStack| - 1].View()).(vars := variables)
      ensures if move.Leave? && move.exit.Calling? then
          && |callStack| == |old(callStack)| + 1
          && fresh(callStack[|callStack| - 1])
          && move.exit.call.functionId in project.tasks
          && callStack[|callStack| - 1].View() == CalleeFrame(project, move.exit.call, old(callStack[|callStack| - 1].depth) + 1)
        else callStack == old(callStack)
      ensures Refusal(project, env, old(TopContext()), node, old(variables), old(world.tick)).Some? ==>
        && callStack == old(callStack)
        && (move, world) == FailedMove(project, env, old(TopContext()), node, old(variables), old(world))
    {
      hide Dispatch, CalleeFrame, Refusal, FailedMove, ContextOf;
      RefusedDispatch(project, env, TopContext(), node, variables, world);
      var result := ExecuteNode(node);
      move := DispatchResult(node, result);
    }

    lemma ContextIgnoresVariables(a: seq<Frame>, b: seq<Frame>)
      requires a != [] && |a| == |b| && a[|a| - 1].taskId in project.tasks
      requires forall i :: 0 <= i < |a| ==> a[i].taskId == b[i].taskId && a[i].isFunction == b[i].isFunction && a[i].depth == b[i].depth
      ensures ContextOf(project, a) == ContextOf(project, b)
    {
    }

    /** The walk of the top frame, as the value machine describes it from here. */
    ghost function ExpectedWalk(index: nat): Walk
      requires callStack != [] && callStack[|callStack| - 1].taskId in project.tasks
      reads this, callStack
    {
      WalkGraph(project, env, TopContext(), index, visited, variables, world)
    }

    /** `_execute_single_task`: consume a pending completion, or walk from the start node until a
        call (whose frame is then on the stack), a return or the end. */
    method ExecuteSingleTask() returns (exit: Exit)
      requires Valid() && callStack != []
      requires callStack[|callStack| - 1].taskId in project.tasks
      requires callStack[|callStack| - 1].started && variables == callStack[|callStack| - 1].variables
      modifies this, callStack[|callStack| - 1]
      ensures Valid() && old(callStack) <= callStack
      ensures Walk(exit, visited, variables, world) == old(WalkTop(project, env, Snapshot()))
      ensures callStack[|old(callStack)| - 1].View() == old(callStack[|callStack| - 1].View()).(vars := variables, pending := None)
      ensures exit.Calling? ==>
          && |callStack| == |old(callStack)| + 1
          && fresh(callStack[|callStack| - 1])
          && exit.call.functionId in project.tasks
          && callStack[|callStack| - 1].View() == CalleeFrame(project, exit.call, old(callStack[|callStack| - 1].depth) + 1)
      ensures !exit.Calling? ==> callStack == old(callStack)
    {
      hide Dispatch, WalkGraph, CalleeFrame;
      var frame := callStack[|callStack| - 1];
      if frame.pending.Some? {
        var success := frame.pending.value;
        frame.pending := None;
        return Ended(success);
      }
      var task := project.tasks[frame.taskId];
      var start := StartIndex(task, frame.startNode);
      if start.None? {
        return Raised(MissingStart);
      }
      exit := WalkFrom(start.value);
    }

    /** One turn of the node loop: skip, guard, or count and run. */
    method VisitTop(index: nat) returns (move: Move)
      requires Valid() && callStack != []
      requires callStack[|callStack| - 1].taskId in project.tasks
      requires index < |project.tasks[callStack[|callStack| - 1].taskId].nodes|
      requires variables == callStack[|callStack| - 1].variables
      modifies this, callStack[|callStack| - 1]
      ensures Valid() && old(callStack) <= callStack
      ensures Visit(move, visited, variables, world) == old(VisitNode(project, env, TopContext(), index, visited, variables, world))
      ensures callStack[|old(callStack)| - 1].View() == old(callStack[|callStack| - 1].View()).(vars := variables)
      ensures if move.Leave? && move.exit.Calling? then
          && |callStack| == |old(callStack)| + 1
          && fresh(callStack[|callStack| - 1])
          && move.exit.call.functionId in project.tasks
          && callStack[|callStack| - 1].View() == CalleeFrame(project, move.exit.call, old(callStack[|callStack| - 1].depth) + 1)
        else callStack == old(callStack)
    {
      hide Dispatch, CalleeFrame;
      var node := project.tasks[callStack[|callStack| - 1].taskId].nodes[index];
      if !node.enabled {
        return Goto(index + 1);
      }
      var count := Count(visited, node.nodeId);
      if count >= env.maxVisits {
        return Leave(Raised(LoopGuard));
      }
      visited := visited[node.nodeId := count + 1];
      move := RunNode(node);
    }

    method WalkFrom(start: nat) returns (exit: Exit)
      requires Valid() && callStack != []
      requires callStack[|callStack| - 1].taskId in project.tasks
      requires variables == callStack[|callStack| - 1].variables
      modifies this, callStack[|callStack| - 1]
      ensures Valid() && old(callStack) <= callStack
      ensures Walk(exit, visited, variables, world) == old(ExpectedWalk(start))
      ensures callStack[|old(callStack)| - 1].View() == old(callStack[|callStack| - 1].View()).(vars := variables)
      ensures exit.Calling? ==>
          && |callStack| == |old(callStack)| + 1
          && fresh(callStack[|callStack| - 1])
          && exit.call.functionId in project.tasks
          && callStack[|callStack| - 1].View() == CalleeFrame(project, exit.call, old(callStack[|callStack| - 1].depth) + 1)
      ensures !exit.Calling? ==> callStack == old(callStack)
    {
      hide VisitNode, WalkGraph, CalleeFrame, ContextOf;
      ghost var ctx := TopContext();
      var task := project.tasks[callStack[|callStack| - 1].taskId];
      ghost var expected := ExpectedWalk(start);
      var index: nat := start;
      while index < |task.nodes|
        invariant Valid() && callStack == old(callStack)
        invariant callStack[|callStack| - 1].View() == old(callStack[|callStack| - 1].View()).(vars := variables)
        invariant WalkGraph(project, env, ctx, index, visited, variables, world) == expected
        decreases Budget(task.nodes, visited, env.maxVisits), |task.nodes| - index
      {
        ContextIgnoresVariables(old(Views(callStack)), Views(callStack));
        WalkOnce(project, env, ctx, index, visited, variables, world);
        VisitProgress(ctx, index);
        var move := VisitTop(index);
        if move.Leave? {
          return move.exit;
        }
        index := move.index;
      }
      PastTheEnd(project, env, ctx, index, visited, variables, world);
      return FellOff;
    }

    lemma VisitProgress(ctx: Context, index: nat)
      requires index < |ctx.task.nodes|
      ensures var v := VisitNode(project, env, ctx, index, visited, variables, world);
        v.move.Goto? ==>
          || Budget(ctx.task.nodes, v.visited, env.maxVisits) < Budget(ctx.task.nodes, visited, env.maxVisits)
          || (v.visited == visited && v.move.index == index + 1)
    {
      hide Dispatch;
      if ctx.task.nodes[index].enabled {
        VisitShrinks(project, env, ctx, index, visited, variables, world);
      }
    }

    /** `_resume_function_caller`; the caller is found through the frame's own link, and passed over if
        it is no longer on the stack. */
    method ResumeFunctionCaller(child: FrameRecord, result: FnResult) returns (error: Option<Error>)
      modifies child.returnTo
      ensures child.returnTo != null && child.returnTo in callStack ==>
        match old(Resume(child.returnTo.View(), child.View(), child.variables, result))
        case Err(e) => error == Some(e)
        case Ok(f) => error == None && child.returnTo.View() == f
      ensures child.returnTo == null || child.returnTo !in callStack ==> error == None
      ensures child.returnTo != null && (child.returnTo !in callStack || error.Some?) ==> unchanged(child.returnTo)
    {
      hide Shared, ApplyOutputs;
      var caller := child.returnTo;
      if caller == null || caller !in callStack {
        return None;
      }
      var merged := ApplyOutputsLoop(caller.variables + Shared(child.variables), child.outs, result.outputs);
      if merged.Err? {
        return Some(merged.error);
      }
      var outcome := OutcomeOf(result);
      var target := if outcome in child.jumps then child.jumps[outcome] else "";
      if target == "" {
        caller.pending := Some(outcome != SYSTEM_EXCEPTION);
      } else {
        caller.startNode := target;
        caller.started := true;
      }
      caller.variables := merged.value;
      return None;
    }

    /** `c` is what the executor has come to: `verdict` if it stopped, else its own state (an
        empty stack being a completed run). */
    ghost predicate Reached(c: Config, verdict: Option<Verdict>)
      reads this, callStack
    {
      match verdict
      case Some(v) => c == Halted(v, variables, world)
      case None => c == if callStack == [] then Halted(Completed, variables, world) else Live(Snapshot())
    }

    /** Pops the top frame and resumes its caller; frames further down are left alone. */
    method PopAndResume(result: FnResult) returns (error: Option<Error>)
      requires Valid() && |callStack| >= 2
      modifies this`callStack, callStack
      ensures Valid() && callStack == old(callStack)[..|old(callStack)| - 1]
      ensures forall i :: 0 <= i < |callStack| - 1 ==> callStack[i].View() == old(Views(callStack))[i]
      ensures match old(Resume(callStack[|callStack| - 2].View(), callStack[|callStack| - 1].View(), callStack[|callStack| - 1].variables, result))
        case Err(e) => error == Some(e)
        case Ok(f) => error == None && callStack[|callStack| - 1].View() == f
    {
      hide Resume, Views;
      var frame := callStack[|callStack| - 1];
      assert callStack[|callStack| - 2] == frame.returnTo;
      RemoveFrame(frame);
      assert callStack[|callStack| - 1] == frame.returnTo;
      error := ResumeFunctionCaller(frame, result);
    }

    /** Hands a function's result to its caller and pops its frame. */
    method ReturnFromFunction(result: FnResult) returns (verdict: Option<Verdict>)
      requires Valid() && |callStack| >= 2
      requires variables == callStack[|callStack| - 1].variables
      modifies this`callStack, this`world, callStack
      ensures Valid() && callStack == old(callStack)[..|old(callStack)| - 1]
      ensures Reached(old(ReturnToCaller(Views(callStack[..|callStack| - 1]), callStack[|callStack| - 1].View(), variables, result, visited, world)), verdict)
    {
      hide Resume, Views;
      ghost var stack := callStack;
      ghost var below := Views(callStack[..|callStack| - 1]);
      assert below[|below| - 1] == callStack[|callStack| - 2].View();
      var error := PopAndResume(result);
      if error.Some? {
        world := Logged(world, error.value);
        return Some(Failed(error.value));
      }
      assert forall i :: 0 <= i < |below| ==> below[i] == old(stack[i].View());
      assert Views(callStack) == below[..|below| - 1] + [callStack[|callStack| - 1].View()];
      return None;
    }

    /** What the outer loop does with a walk that did not end in a call. */
    method FinishWalk(exit: Exit) returns (verdict: Option<Verdict>)
      requires Valid() && callStack != [] && !exit.Calling?
      requires callStack[|callStack| - 1].isFunction ==> |callStack| >= 2
      requires variables == callStack[|callStack| - 1].variables
      modifies this`callStack, this`world, callStack
      ensures Valid() && callStack <= old(callStack)
      ensures Reached(old(AfterWalk(project, Views(callStack[..|callStack| - 1]), callStack[|callStack| - 1].View(), Walk(exit, visited, variables, world))), verdict)
    {
      hide Views, ReturnToCaller;
      var frame := callStack[|callStack| - 1];
      assert Views([]) == [];
      if frame.isFunction && !exit.FellOff? {
        var result := NO_RESULT;
        match exit {
          case Ended(_) => world := Logged(world, NoReturnPath);
          case Raised(e) => world := Logged(world, e);
          case Returned(r) => result := r;
        }
        verdict := ReturnFromFunction(result);
        return;
      }
      if exit.Raised? {
        world := Logged(world, exit.error);
        return Some(Failed(exit.error));
      }
      RemoveFrame(frame);
      if exit.Ended? && !exit.success {
        world := Logged(world, TaskFailed);
        return Some(Failed(TaskFailed));
      }
      return None;
    }

    /** Start of a turn: adopt the frame's variables and reset the counters of a new frame. */
    method BeginTurn()
      requires Valid() && callStack != []
      requires callStack[|callStack| - 1].taskId in project.tasks
      modifies this, callStack[|callStack| - 1]
      ensures Valid() && callStack == old(callStack) && world == old(world)
      ensures variables == callStack[|callStack| - 1].variables
      ensures callStack[|callStack| - 1].View() == old(callStack[|callStack| - 1].View()).(started := true)
      ensures WalkTop(project, env, Snapshot()) == old(WalkTop(project, env, Snapshot()))
    {
      hide Views, WalkTop, NodeIds, StartIndex, Without, WellPlaced;
      var frame := callStack[|callStack| - 1];
      ghost var before := Snapshot();
      variables := frame.variables;
      if !frame.started {
        visited := Without(visited, NodeIds(project.tasks[frame.taskId].nodes));
        frame.started := true;
      }
      assert Views(callStack) == before.stack[..|callStack| - 1] + [frame.View()];
      StartingEarly(before, Snapshot());
    }

    /** First half of a turn: begin it and walk the top frame. */
    method WalkTopFrame() returns (exit: Exit)
      requires Valid() && callStack != []
      requires callStack[|callStack| - 1].taskId in project.tasks
      modifies this, callStack[|callStack| - 1]
      ensures Valid() && old(callStack) <= callStack
      ensures Walk(exit, visited, variables, world) == old(WalkTop(project, env, Snapshot()))
      ensures Views(callStack[..|old(callStack)| - 1]) == old(Views(callStack[..|callStack| - 1]))
      ensures callStack[|old(callStack)| - 1].View() == old(callStack[|callStack| - 1].View()).(started := true, pending := None, vars := variables)
      ensures exit.Calling? ==>
          && |callStack| == |old(callStack)| + 1
          && fresh(callStack[|callStack| - 1])
          && exit.call.functionId in project.tasks
          && callStack[|callStack| - 1].View() == CalleeFrame(project, exit.call, old(callStack[|callStack| - 1].depth) + 1)
      ensures !exit.Calling? ==> callStack == old(callStack)
    {
      hide Views, WalkTop, CalleeFrame;
      BeginTurn();
      exit := ExecuteSingleTask();
      assert Views(callStack[..|old(callStack)| - 1]) == old(Views(callStack[..|callStack| - 1]));
    }

    /** One turn of the outer loop. */
    method Turn() returns (verdict: Option<Verdict>)
      requires Valid() && callStack != [] && Shaped(project, Live(Snapshot()))
      modifies this, callStack
      ensures Valid() && forall i :: 0 <= i < |callStack| ==> callStack[i] in old(callStack) || fresh(callStack[i])
      ensures Grounded(old(Snapshot()))
      ensures Reached(Step(project, env, Live(old(Snapshot()))), verdict)
    {
      hide Views, AfterWalk, WalkTop, CalleeFrame, ShapedStack, Step;
      var frame := callStack[|callStack| - 1];
      ghost var below := Views(callStack[..|callStack| - 1]);
      SplitStack(Snapshot(), below);
      if frame.taskId !in project.tasks {
        variables := frame.variables;
        world := Logged(world, MissingTask);
        return Some(Failed(MissingTask));
      }
      ghost var top := frame.View().(started := true, pending := None);
      ghost var walk := WalkTop(project, env, Snapshot());
      var exit := WalkTopFrame();
      if exit.Calling? {
        assert Views(callStack) == below + [top.(vars := variables)] + [CalleeFrame(project, exit.call, top.depth + 1)];
        CallReached(below, top, walk);
        return None;
      }
      verdict := FinishWalk(exit);
      SameAfterWalk(below, top, walk);
    }

    lemma SplitStack(st: State, below: seq<Frame>)
      requires ShapedStack(project, st.stack) && below == st.stack[..|st.stack| - 1]
      ensures var f := st.stack[|st.stack| - 1];
        && (f.isFunction ==> below != [])
        && Grounded(st)
        && if f.taskId !in project.tasks then
             Step(project, env, Live(st)) == Halted(Failed(MissingTask), f.vars, Logged(st.world, MissingTask))
           else
             var w := WalkTop(project, env, st);
             && (w.exit.Calling? ==> w.exit.call.functionId in project.tasks)
             && Step(project, env, Live(st)) == AfterWalk(project, below, f.(pending := None, started := true), w)
    {
      hide WalkTop, AfterWalk;
      if st.stack[|st.stack| - 1].taskId in project.tasks {
        WalkTopCallsKnownFunction(project, env, st);
      }
      assert WellPlaced(project, st.stack[|st.stack| - 1], |st.stack| - 1);
    }

    /** Resetting the counters before the walk, or as part of it, is the same. */
    lemma StartingEarly(a: State, b: State)
      requires a.stack != [] && a.stack[|a.stack| - 1].taskId in project.tasks
      requires var f := a.stack[|a.stack| - 1];
        && b.stack == a.stack[..|a.stack| - 1] + [f.(started := true)]
        && b.visited == (if f.started then a.visited else Without(a.visited, NodeIds(project.tasks[f.taskId].nodes)))
        && b.world == a.world
      ensures WalkTop(project, env, a) == WalkTop(project, env, b)
    {
      hide WalkGraph;
      ContextIgnoresVariables(a.stack, b.stack);
    }

    lemma SameAfterWalk(below: seq<Frame>, f: Frame, w: Walk)
      requires f.isFunction ==> below != []
      requires !w.exit.Calling?
      ensures AfterWalk(project, below, f.(vars := w.vars), w) == AfterWalk(project, below, f, w)
    {
    }

    lemma CallReached(below: seq<Frame>, f: Frame, w: Walk)
      requires w.exit.Calling? && w.exit.call.functionId in project.tasks
      requires f.isFunction ==> below != []
      requires f.started && f.pending == None
      requires |callStack| == |below| + 2
      requires Views(callStack) == below + [f.(vars := w.vars)] + [CalleeFrame(project, w.exit.call, f.depth + 1)]
      requires visited == w.visited && variables == w.vars && world == w.world
      ensures Reached(AfterWalk(project, below, f, w), None)
    {
    }

    /** `_execute_task_iterative`.  `bound` witnesses that the run is finite; the verdict, final variables,
        log and execution count are those of the value machine. */
    method ExecuteTaskIterative(taskId: string, startNode: string, ghost bound: nat) returns (verdict: Verdict)
      requires Valid() && callStack == [] && world == World(0, [])
      requires Shaped(project, Initial(taskId, startNode, variables, visited))
      requires Run(project, env, bound, Initial(taskId, startNode, variables, visited)).Halted?
      modifies this
      ensures Run(project, env, bound, old(Initial(taskId, startNode, variables, visited))) == Halted(verdict, variables, world)
    {
      hide Step, ShapedStack, Run, Views;
      ghost var initial := Initial(taskId, startNode, variables, visited);
      var main := new FrameRecord(taskId, false, startNode, variables, 0, map[], [], null);
      callStack := callStack + [main];
      assert Views(callStack) == [MainFrame(taskId, startNode, variables)];
      ghost var k: nat := 0;
      RunZero(project, env, initial);
      while callStack != []
        invariant Valid() && forall i :: 0 <= i < |callStack| ==> fresh(callStack[i])
        invariant k <= bound
        invariant Reached(Run(project, env, k, initial), None)
        decreases bound - k
      {
        NextTurn(project, env, initial, k, bound);
        var outcome := Turn();
        k := k + 1;
        if outcome.Some? {
          StaysHalted(project, env, initial, k, bound);
          return outcome.value;
        }
      }
      StaysHalted(project, env, initial, k, bound);
      return Completed;
    }

    /** A run that needs no bound: no loop can be reached from its entry graph, or graphs share no node
        id and the entry graph is never called.  In the second case what it leaves is the recursive
        meaning of the graph. */
    method Start(taskId: string, startNode: string) returns (verdict: Verdict)
      requires Valid() && callStack == [] && world == World(0, [])
      requires Stops(taskId)
      modifies this
      ensures exists n: nat :: EndsAt(n, old(Initial(taskId, startNode, variables, visited)), Halted(verdict, variables, world))
      ensures DisjointGraphs(project) && NeverCalls(project, env, taskId) ==>
        Halted(verdict, variables, world) == old(RunMain(project, env, taskId, startNode, variables))
    {
      hide Run, ShapedStack, Step, CanLoop, NeverCalls, DisjointGraphs, RunMain;
      ghost var initial := Initial(taskId, startNode, variables, visited);
      ghost var bound: nat;
      if DisjointGraphs(project) && NeverCalls(project, env, taskId) {
        bound := RefinesRecursiveSemantics(project, env, taskId, startNode, variables, visited);
      } else {
        bound := EndsWithoutLoops(project, env, taskId, startNode, variables, visited);
      }
      verdict := ExecuteTaskIterative(taskId, startNode, bound);
      assert EndsAt(bound, initial, Halted(verdict, variables, world));
    }

    /** What is known to make every run from the graph end in this environment. */
    ghost predicate Stops(taskId: string)
      reads this
    {
      (DisjointGraphs(project) && NeverCalls(project, env, taskId)) || (taskId in project.tasks && !CanLoop(project, taskId))
    }

    ghost predicate EndsAt(n: nat, c: Config, d: Config)
      reads this
    {
      Shaped(project, c) && Run(project, env, n, c) == d
    }
  }

  /** Port selection and `_handle_jump`. */
  method ChooseRoute(task: Task, out: seq<Edge>, success: bool, branch: Option<Branch>) returns (move: Move)
    ensures move == Route(task, out, success, branch)
    ensures move.Leave? ==> !move.exit.Calling?
  {
    var target;
    if branch.Some? {
      target := FindJump(out, branch.value.port, branch.value.id);
    } else if !success {
      target := FindJump(out, "failure", "");
    } else {
      target := FindJump(out, "success", "");
    }
    if target == "" {
      return Leave(Ended(success));
    }
    var index := IndexOf(task.nodes, target);
    if index.None? {
      return Leave(Raised(MissingTarget));
    }
    return Goto(index.value);
  }
}
