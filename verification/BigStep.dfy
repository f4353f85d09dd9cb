/** The meaning of a graph as a recursive program: a call node runs its function to the end,
    with visit counters of its own, and only then is the caller's next node chosen. */
module BigStep {
  import opened Common
  import opened Runtime
  import opened Scheduler

  /** How an activation of a graph ends.  `Fell`: past the last node.  `Aborted`: an output
      binding could not be written back, which ends the whole run. */
  datatype Ending =
    | Fell
    | Done(success: bool)
    | Threw(error: Error)
    | Gave(result: FnResult)
    | Aborted(error: Error)

  datatype Activation = Activation(ending: Ending, vars: Vars, world: World)

  /** A function activation has only three endings: no explicit return path and a raised error
      both become the system exception. */
  function AsFunction(a: Activation): Activation {
    match a.ending
    case Done(_) => Activation(Gave(NO_RESULT), a.vars, Logged(a.world, NoReturnPath))
    case Threw(e) => Activation(Gave(NO_RESULT), a.vars, Logged(a.world, e))
    case _ => a
  }

  /** Runs `ctx.task` from node `index`.  `start` is where a callee that falls off its end sends
      the caller back to; `local` counts this activation's visits. */
  ghost function RunGraph(p: Project, env: Env, ctx: Context, start: string, index: nat, local: map<string, nat>,
      vars: Vars, world: World): Activation
    decreases MAX_CALL_DEPTH + 1 - ctx.depth, Budget(ctx.task.nodes, local, env.maxVisits), |ctx.task.nodes| - index, 0
  {
    if index >= |ctx.task.nodes| then Activation(Fell, vars, world)
    else if !ctx.task.nodes[index].enabled then RunGraph(p, env, ctx, start, index + 1, local, vars, world)
    else
      var v := VisitNode(p, env, ctx, index, local, vars, world);
      VisitShrinks(p, env, ctx, index, local, vars, world);
      VisitCallsKnownFunction(p, env, ctx, index, local, vars, world);
      if v.move == Leave(Raised(LoopGuard)) then Activation(Threw(LoopGuard), v.vars, v.world)
      else if v.move.Goto? then RunGraph(p, env, ctx, start, v.move.index, v.visited, v.vars, v.world)
      else Conclude(p, env, ctx, start, v.move.exit, v.visited, v.vars, v.world)
  }

  /** The graph has stopped at a node: finish, or run the called function and carry on. */
  ghost function Conclude(p: Project, env: Env, ctx: Context, start: string, exit: Exit, local: map<string, nat>,
      vars: Vars, world: World): Activation
    requires exit.Calling? ==> Callable(p, ctx, exit.call.functionId)
    decreases MAX_CALL_DEPTH + 1 - ctx.depth, Budget(ctx.task.nodes, local, env.maxVisits), |ctx.task.nodes|, 3
  {
    match exit
    case FellOff => Activation(Fell, vars, world)
    case Ended(success) => Activation(Done(success), vars, world)
    case Raised(e) => Activation(Threw(e), vars, world)
    case Returned(r) => Activation(Gave(r), vars, world)
    case Calling(call) =>
      AfterCall(p, env, ctx, start, call, RunCallee(p, env, ctx, call, world), local, vars)
  }

  /** The called function's activation is over: write back and follow the outcome port. */
  ghost function AfterCall(p: Project, env: Env, ctx: Context, start: string, call: PendingCall, callee: Activation,
      local: map<string, nat>, vars: Vars): Activation
    decreases MAX_CALL_DEPTH + 1 - ctx.depth, Budget(ctx.task.nodes, local, env.maxVisits), |ctx.task.nodes|, 2
  {
    match callee.ending
    case Gave(r) =>
      (match MergeBack(vars, callee.vars, call.outs, r)
       case Err(e) => Activation(Aborted(e), callee.vars, Logged(callee.world, e))
       case Ok(vars') =>
         var target := OutcomeTarget(call.jumps, r);
         if target == "" then Activation(Done(OutcomeOf(r) != SYSTEM_EXCEPTION), vars', callee.world)
         else Enter(p, env, ctx, target, local, vars', callee.world))
    case Fell => Enter(p, env, ctx, start, local, vars, callee.world)
    case _ => callee
  }

  /** (Re)enters the graph at node `start`. */
  ghost function Enter(p: Project, env: Env, ctx: Context, start: string, local: map<string, nat>, vars: Vars,
      world: World): Activation
    decreases MAX_CALL_DEPTH + 1 - ctx.depth, Budget(ctx.task.nodes, local, env.maxVisits), |ctx.task.nodes|, 1
  {
    match StartIndex(ctx.task, start)
    case None => Activation(Threw(MissingStart), vars, world)
    case Some(i) => RunGraph(p, env, ctx, start, i, local, vars, world)
  }

  function CalleeContext(p: Project, ctx: Context, f: string): Context
    requires f in p.tasks
  {
    Context(p.tasks[f], true, ctx.active + {f}, ctx.depth + 1)
  }

  ghost function RunCallee(p: Project, env: Env, ctx: Context, call: PendingCall, world: World): Activation
    requires Callable(p, ctx, call.functionId)
    decreases MAX_CALL_DEPTH + 1 - ctx.depth, 0, 0, 0
  {
    AsFunction(Enter(p, env, CalleeContext(p, ctx, call.functionId), p.tasks[call.functionId].entry, map[], call.vars, world))
  }

  /** A disabled node is passed over. */
  lemma SkipDisabled(p: Project, env: Env, ctx: Context, start: string, index: nat, local: map<string, nat>, vars: Vars,
      world: World)
    requires index < |ctx.task.nodes| && !ctx.task.nodes[index].enabled
    ensures RunGraph(p, env, ctx, start, index, local, vars, world) == RunGraph(p, env, ctx, start, index + 1, local, vars, world)
  {
  }

  /** The whole run from a main graph: its verdict, final variables and world. */
  ghost function RunMain(p: Project, env: Env, taskId: string, start: string, vars: Vars): Config {
    if taskId !in p.tasks then Halted(Failed(MissingTask), vars, Logged(World(0, []), MissingTask))
    else Verdicted(Enter(p, env, Context(p.tasks[taskId], false, {}, 0), start, map[], vars, World(0, [])))
  }

  function Verdicted(a: Activation): Config {
    match a.ending
    case Fell => Halted(Completed, a.vars, a.world)
    case Done(success) =>
      if success then Halted(Completed, a.vars, a.world) else Halted(Failed(TaskFailed), a.vars, Logged(a.world, TaskFailed))
    case Threw(e) => Halted(Failed(e), a.vars, Logged(a.world, e))
    case Gave(_) => Halted(Completed, a.vars, a.world)
    case Aborted(e) => Halted(Failed(e), a.vars, a.world)
  }
}
