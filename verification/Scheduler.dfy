/** The graph scheduler as a machine on values: one `Step` is one turn of the outer loop of
    `_execute_task_iterative`, which runs the top frame until it calls, returns or ends. */
module Scheduler {
  import opened Common
  import opened Runtime

  const MAX_CALL_DEPTH: nat := 32
  const SYSTEM_EXCEPTION := "system_exception"
  const PARAM_PREFIX := "__param__:"
  const LOCAL_PREFIX := "__local__:"

  datatype Error =
    | MissingTask | MissingStart | LoopGuard | MissingTarget | NodeCrash
    | NoFunctionSelected | UnknownFunction | Recursion | DepthExceeded | BadArgument | MissingParameter
    | ReadOnlyTarget | EmptyTarget | NoReturnPath | TaskFailed

  /** Errors that mean the project itself is broken, not the environment. */
  predicate Dangling(e: Error) {
    e == MissingTask || e == MissingStart || e == MissingTarget || e == UnknownFunction
  }

  datatype InBinding = InBinding(ref: string, value: Value)
  datatype OutBinding = OutBinding(outputId: string, target: string)
  datatype CallIntent = CallIntent(functionId: string, inputs: seq<InBinding>, outputs: seq<OutBinding>)
  datatype FnResult = FnResult(outcomeId: string, outputs: Vars)

  /** `port` is the positional port name `branch_N`, `id` the stable one ("" when absent). */
  datatype Branch = Branch(port: string, id: string)

  /** What executing one node yields: an exception, or a result dictionary. */
  datatype NodeResult =
    | Crash
    | Ran(success: bool, branch: Option<Branch>, call: Option<CallIntent>, ret: Option<FnResult>)

  const FAILURE := Ran(false, None, None, None)

  /** Everything the scheduler does not decide itself.  `exec` is a node executor together with
      the popup check and smart-jump path run around it; `tick` counts executions, so a single
      function stands for any behaviour of the outside world over time. */
  datatype Env = Env(
    exec: (nat, PageMap, Node, Vars) -> (NodeResult, Vars),
    resolve: (nat, Vars, Value) -> Option<Value>,
    coerce: (Value, string) -> Option<Value>,
    maxVisits: int)

  datatype World = World(tick: nat, log: seq<Error>)

  function Logged(w: World, e: Error): World {
    w.(log := w.log + [e])
  }

  // ---------------------------------------------------------------- scopes

  predicate IsScoped(key: string) {
    StartsWith(key, PARAM_PREFIX) || StartsWith(key, LOCAL_PREFIX)
  }

  function Shared(vars: Vars): Vars {
    map k | k in vars && !IsScoped(k) :: vars[k]
  }

  /** The name inside `$kind{name}`, if `text` has that shape with a non-empty, brace-free name. */
  function Braced(text: string, opening: string): (r: Option<string>)
    ensures r.Some? ==> text == opening + r.value + "}" && r.value != ""
  {
    if StartsWith(text, opening) && |text| > |opening| + 1 && text[|text| - 1] == '}' then
      var name := text[|opening|..|text| - 1];
      if '{' in name || '}' in name then None else Some(name)
    else None
  }

  /** `_scope_name`: the variable key an output target or scoped source denotes. */
  function ScopeName(name: string): string {
    var text := Strip(name);
    if StartsWith(text, "$var.") then text[5..]
    else if StartsWith(text, "$ctx.") then text[5..]
    else if StartsWith(text, "$local.") then LOCAL_PREFIX + text[7..]
    else if Braced(text, "$local{").Some? then LOCAL_PREFIX + Strip(Braced(text, "$local{").value)
    else if Braced(text, "$var{").Some? then Strip(Braced(text, "$var{").value)
    else if Braced(text, "$ctx{").Some? then Strip(Braced(text, "$ctx{").value)
    else text
  }

  /** `_write_scoped_value` */
  function WriteScoped(vars: Vars, target: string, value: Value): Result<Vars, Error> {
    if StartsWith(Strip(target), "$param.") || StartsWith(Strip(target), "$param{") then Err(ReadOnlyTarget)
    else if ScopeName(target) == "" then Err(EmptyTarget)
    else Ok(vars[ScopeName(target) := value])
  }

  predicate Applies(b: OutBinding, outputs: Vars) {
    Strip(b.outputId) != "" && Strip(b.target) != "" && Strip(b.outputId) in outputs
  }

  function ApplyOutputs(vars: Vars, outs: seq<OutBinding>, outputs: Vars): Result<Vars, Error>
    decreases |outs|
  {
    if outs == [] then Ok(vars)
    else if Applies(outs[0], outputs) then
      match WriteScoped(vars, Strip(outs[0].target), outputs[Strip(outs[0].outputId)])
      case Err(e) => Err(e)
      case Ok(vars') => ApplyOutputs(vars', outs[1..], outputs)
    else ApplyOutputs(vars, outs[1..], outputs)
  }

  // ---------------------------------------------------------------- starting a call

  /** The insertion-ordered dictionary of declarations keyed by id: the position of the first
      occurrence, the contents of the last. */
  function Declarations(inputs: seq<ParamDecl>): seq<ParamDecl> {
    if inputs == [] then []
    else
      var d := inputs[|inputs| - 1];
      var before := Declarations(inputs[..|inputs| - 1]);
      if d.id == "" then before
      else if exists i :: 0 <= i < |before| && before[i].id == d.id then Overwrite(before, d)
      else before + [d]
  }

  function Overwrite(decls: seq<ParamDecl>, d: ParamDecl): seq<ParamDecl> {
    if decls == [] then []
    else (if decls[0].id == d.id then [d] else [decls[0]]) + Overwrite(decls[1..], d)
  }

  function ById(decls: seq<ParamDecl>, id: string): Option<ParamDecl> {
    if decls == [] then None
    else if decls[0].id == id then Some(decls[0])
    else ById(decls[1..], id)
  }

  /** Among declarations sharing a name the last one is kept. */
  function ByName(decls: seq<ParamDecl>, name: string): Option<ParamDecl> {
    if decls == [] || name == "" then None
    else if decls[|decls| - 1].name == name then Some(decls[|decls| - 1])
    else ByName(decls[..|decls| - 1], name)
  }

  function BindDefaults(env: Env, decls: seq<ParamDecl>, child: Vars): Result<Vars, Error> {
    if decls == [] then Ok(child)
    else if decls[0].default == Null then BindDefaults(env, decls[1..], child)
    else
      match env.coerce(decls[0].default, decls[0].kind)
      case None => Err(BadArgument)
      case Some(v) => BindDefaults(env, decls[1..], child[PARAM_PREFIX + decls[0].name := v])
  }

  function Declared(decls: seq<ParamDecl>, ref: string): Option<ParamDecl> {
    var byId := ById(decls, Strip(ref));
    if byId.Some? then byId else ByName(decls, Strip(ref))
  }

  function BindInputs(env: Env, tick: nat, decls: seq<ParamDecl>, inputs: seq<InBinding>, caller: Vars,
      child: Vars): Result<Vars, Error> {
    if inputs == [] then Ok(child)
    else
      match Declared(decls, inputs[0].ref)
      case None => BindInputs(env, tick, decls, inputs[1..], caller, child)
      case Some(d) =>
        match env.resolve(tick, caller, inputs[0].value)
        case None => Err(BadArgument)
        case Some(raw) =>
          match env.coerce(raw, d.kind)
          case None => Err(BadArgument)
          case Some(v) => BindInputs(env, tick, decls, inputs[1..], caller, child[PARAM_PREFIX + d.name := v])
  }

  predicate AllSupplied(decls: seq<ParamDecl>, child: Vars) {
    forall i :: 0 <= i < |decls| && decls[i].required ==> PARAM_PREFIX + decls[i].name in child
  }

  function BindLocals(env: Env, locals: seq<LocalDecl>, child: Vars): Result<Vars, Error> {
    if locals == [] then Ok(child)
    else if locals[0].name == "" then BindLocals(env, locals[1..], child)
    else
      match env.coerce(locals[0].default, locals[0].kind)
      case None => Err(BadArgument)
      case Some(v) => BindLocals(env, locals[1..], child[LOCAL_PREFIX + locals[0].name := v])
  }

  /** The variables a callee starts with. */
  function ChildVars(env: Env, tick: nat, target: Task, call: CallIntent, caller: Vars): Result<Vars, Error> {
    var decls := Declarations(target.inputs);
    match BindDefaults(env, decls, Shared(caller))
    case Err(e) => Err(e)
    case Ok(withDefaults) =>
      match BindInputs(env, tick, decls, call.inputs, caller, withDefaults)
      case Err(e) => Err(e)
      case Ok(bound) =>
        if AllSupplied(decls, bound) then BindLocals(env, target.locals, bound) else Err(MissingParameter)
  }

  /** Where in the project a frame stands: its task, whether it is a function frame, the function
      frames open below and including it, and its call depth. */
  datatype Context = Context(task: Task, isFunction: bool, active: set<string>, depth: nat)

  /** The checks of `_schedule_function_call`, in order; `Ok` carries the callee's variables. */
  function Schedule(p: Project, env: Env, ctx: Context, tick: nat, call: CallIntent, caller: Vars): Result<Vars, Error> {
    var f := Strip(call.functionId);
    if f == "" then Err(NoFunctionSelected)
    else if f !in p.tasks || p.tasks[f].role != "function" then Err(UnknownFunction)
    else if f in ctx.active then Err(Recursion)
    else if ctx.depth + 1 > MAX_CALL_DEPTH then Err(DepthExceeded)
    else ChildVars(env, tick, p.tasks[f], call, caller)
  }

  /** Of the project, scheduling a call reads only the task called. */
  lemma ScheduleReads(p: Project, q: Project, env: Env, ctx: Context, tick: nat, call: CallIntent, caller: Vars)
    requires var f := Strip(call.functionId); f != "" ==> f in p.tasks && f in q.tasks && p.tasks[f] == q.tasks[f]
    ensures Schedule(p, env, ctx, tick, call, caller) == Schedule(q, env, ctx, tick, call, caller)
  {
    hide ChildVars, Strip;
  }

  // ---------------------------------------------------------------- one node

  datatype PendingCall = PendingCall(functionId: string, vars: Vars, jumps: map<string, string>, outs: seq<OutBinding>)

  datatype Exit =
    | FellOff                        // the node list ran out
    | Ended(success: bool)           // an unwired port was reached
    | Raised(error: Error)
    | Returned(result: FnResult)
    | Calling(call: PendingCall)

  datatype Move = Goto(index: nat) | Leave(exit: Exit)

  datatype Visit = Visit(move: Move, visited: map<string, nat>, vars: Vars, world: World)

  function Count(visited: map<string, nat>, id: string): nat {
    if id in visited then visited[id] else 0
  }

  /** Route a node that neither calls nor returns. */
  function Route(task: Task, out: seq<Edge>, success: bool, branch: Option<Branch>): Move {
    var target :=
      if branch.Some? then FindEdgeJump(out, branch.value.port, branch.value.id)
      else if success then FindEdgeJump(out, "success", "")
      else FindEdgeJump(out, "failure", "");
    if target == "" then Leave(Ended(success))
    else
      match IndexOf(task.nodes, target)
      case Some(i) => Goto(i)
      case None => Leave(Raised(MissingTarget))
  }

  /** Handle an executed node's result: call, return, or route (possibly after a refused call). */
  function Dispatch(p: Project, env: Env, ctx: Context, node: Node, r: NodeResult, vars: Vars, world: World): (Move, World) {
    var out := OutEdges(p.edges, node.nodeId);
    if r.Crash? then (Leave(Raised(NodeCrash)), world)
    else if r.success && r.call.Some? then
      match Schedule(p, env, ctx, world.tick, r.call.value, vars)
      case Ok(child) =>
        (Leave(Calling(PendingCall(Strip(r.call.value.functionId), child, OutcomeJumps(out), r.call.value.outputs))), world)
      case Err(e) => (Route(ctx.task, out, false, None), Logged(world, e))
    else if r.success && r.ret.Some? then
      if ctx.isFunction then (Leave(Returned(r.ret.value)), world)
      else (Route(ctx.task, out, false, None), world)
    else (Route(ctx.task, out, r.success, r.branch), world)
  }

  function VisitNode(p: Project, env: Env, ctx: Context, index: nat, visited: map<string, nat>, vars: Vars, world: World): Visit
    requires index < |ctx.task.nodes|
  {
    var node := ctx.task.nodes[index];
    if !node.enabled then Visit(Goto(index + 1), visited, vars, world)
    else if Count(visited, node.nodeId) >= env.maxVisits then Visit(Leave(Raised(LoopGuard)), visited, vars, world)
    else
      var (r, vars') := env.exec(world.tick, p.pageMap, node, vars);
      var (move, world') := Dispatch(p, env, ctx, node, r, vars', world.(tick := world.tick + 1));
      Visit(move, visited[node.nodeId := Count(visited, node.nodeId) + 1], vars', world')
  }

  // ---------------------------------------------------------------- one graph

  /** Visits the nodes of a graph may still take before the loop guard fires. */
  function Budget(nodes: seq<Node>, visited: map<string, nat>, maxVisits: int): nat {
    if nodes == [] then 0
    else
      var used := Count(visited, nodes[0].nodeId);
      (if used < maxVisits then maxVisits - used else 0) + Budget(nodes[1..], visited, maxVisits)
  }

  lemma {:induction false} BudgetShrinks(nodes: seq<Node>, visited: map<string, nat>, maxVisits: int, i: nat)
    requires i < |nodes| && Count(visited, nodes[i].nodeId) < maxVisits
    ensures Budget(nodes, visited[nodes[i].nodeId := Count(visited, nodes[i].nodeId) + 1], maxVisits) < Budget(nodes, visited, maxVisits)
  {
    if i == 0 {
      BudgetMonotone(nodes[1..], visited, maxVisits, nodes[0].nodeId);
    } else {
      assert nodes[1..][i - 1] == nodes[i];
      BudgetShrinks(nodes[1..], visited, maxVisits, i - 1);
    }
  }

  lemma {:induction false} BudgetMonotone(nodes: seq<Node>, visited: map<string, nat>, maxVisits: int, id: string)
    ensures Budget(nodes, visited[id := Count(visited, id) + 1], maxVisits) <= Budget(nodes, visited, maxVisits)
  {
    if nodes != [] {
      BudgetMonotone(nodes[1..], visited, maxVisits, id);
    }
  }

  lemma VisitShrinks(p: Project, env: Env, ctx: Context, index: nat, visited: map<string, nat>, vars: Vars, world: World)
    requires index < |ctx.task.nodes| && ctx.task.nodes[index].enabled
    ensures var v := VisitNode(p, env, ctx, index, visited, vars, world);
      v.move == Leave(Raised(LoopGuard)) || Budget(ctx.task.nodes, v.visited, env.maxVisits) < Budget(ctx.task.nodes, visited, env.maxVisits)
  {
    hide Dispatch;
    if Count(visited, ctx.task.nodes[index].nodeId) < env.maxVisits {
      BudgetShrinks(ctx.task.nodes, visited, env.maxVisits, index);
    }
  }

  datatype Walk = Walk(exit: Exit, visited: map<string, nat>, vars: Vars, world: World)

  /** `_execute_single_task` from a given node on, up to the next call, return or end. */
  function WalkGraph(p: Project, env: Env, ctx: Context, index: nat, visited: map<string, nat>, vars: Vars, world: World): Walk
    decreases Budget(ctx.task.nodes, visited, env.maxVisits), |ctx.task.nodes| - index
  {
    if index >= |ctx.task.nodes| then Walk(FellOff, visited, vars, world)
    else
      var v := VisitNode(p, env, ctx, index, visited, vars, world);
      match v.move
      case Leave(exit) => Walk(exit, v.visited, v.vars, v.world)
      case Goto(next) =>
        if ctx.task.nodes[index].enabled then
          VisitShrinks(p, env, ctx, index, visited, vars, world);
          WalkGraph(p, env, ctx, next, v.visited, v.vars, v.world)
        else WalkGraph(p, env, ctx, index + 1, v.visited, v.vars, v.world)
  }

  /** Index of the node a frame starts or restarts from; "" means the first node. */
  function StartIndex(task: Task, start: string): Option<nat> {
    if start == "" then Some(0) else IndexOf(task.nodes, start)
  }

  // ---------------------------------------------------------------- frames and the outer loop

  /** `pending` is the completion a returned call left behind when its outcome port is unwired. */
  datatype Frame = Frame(
    taskId: string,
    isFunction: bool,
    start: string,
    started: bool,
    vars: Vars,
    depth: nat,
    jumps: map<string, string>,
    outs: seq<OutBinding>,
    pending: Option<bool>)

  datatype State = State(stack: seq<Frame>, visited: map<string, nat>, vars: Vars, world: World)

  datatype Verdict = Completed | Failed(error: Error)

  datatype Config =
    | Live(st: State)
    | Halted(verdict: Verdict, vars: Vars, world: World)

  function MainFrame(taskId: string, start: string, vars: Vars): Frame {
    Frame(taskId, false, start, false, vars, 0, map[], [], None)
  }

  function Initial(taskId: string, start: string, vars: Vars, visited: map<string, nat>): Config {
    Live(State([MainFrame(taskId, start, vars)], visited, vars, World(0, [])))
  }

  function ActiveFunctions(stack: seq<Frame>): set<string> {
    set i | 0 <= i < |stack| && stack[i].isFunction :: stack[i].taskId
  }

  function ContextOf(p: Project, stack: seq<Frame>): Context
    requires stack != [] && stack[|stack| - 1].taskId in p.tasks
  {
    var top := stack[|stack| - 1];
    Context(p.tasks[top.taskId], top.isFunction, ActiveFunctions(stack), top.depth)
  }

  function Without(visited: map<string, nat>, ids: set<string>): map<string, nat> {
    visited - ids
  }

  function CalleeFrame(p: Project, call: PendingCall, depth: nat): Frame
    requires call.functionId in p.tasks
  {
    Frame(call.functionId, true, p.tasks[call.functionId].entry, false, call.vars, depth, call.jumps, call.outs, None)
  }

  function OutcomeOf(r: FnResult): string {
    if r.outcomeId == "" then SYSTEM_EXCEPTION else r.outcomeId
  }

  /** The caller's variables after a call: shared values copied back, then output bindings. */
  function MergeBack(caller: Vars, child: Vars, outs: seq<OutBinding>, r: FnResult): Result<Vars, Error> {
    ApplyOutputs(caller + Shared(child), outs, r.outputs)
  }

  /** The node the call's outcome port is wired to, or "". */
  function OutcomeTarget(jumps: map<string, string>, r: FnResult): string {
    if OutcomeOf(r) in jumps then jumps[OutcomeOf(r)] else ""
  }

  /** `_resume_function_caller` */
  function Resume(caller: Frame, child: Frame, childVars: Vars, r: FnResult): Result<Frame, Error> {
    match MergeBack(caller.vars, childVars, child.outs, r)
    case Err(e) => Err(e)
    case Ok(vars) =>
      var target := OutcomeTarget(child.jumps, r);
      if target == "" then Ok(caller.(vars := vars, pending := Some(OutcomeOf(r) != SYSTEM_EXCEPTION)))
      else Ok(caller.(vars := vars, start := target, started := true))
  }

  const NO_RESULT := FnResult(SYSTEM_EXCEPTION, map[])

  /** A function frame has produced a result: pop it and resume the frame below. */
  function ReturnToCaller(below: seq<Frame>, child: Frame, vars: Vars, r: FnResult, visited: map<string, nat>,
      world: World): Config
    requires below != []
  {
    match Resume(below[|below| - 1], child, vars, r)
    case Err(e) => Halted(Failed(e), vars, Logged(world, e))
    case Ok(caller) => Live(State(below[..|below| - 1] + [caller], visited, vars, world))
  }

  /** What the outer loop does once the top frame `f` (above `below`) has stopped walking. */
  function AfterWalk(p: Project, below: seq<Frame>, f: Frame, w: Walk): Config
    requires f.isFunction ==> below != []
    requires w.exit.Calling? ==> w.exit.call.functionId in p.tasks
  {
    match w.exit
    case Calling(call) =>
      Live(State(below + [f.(vars := w.vars, pending := None, started := true), CalleeFrame(p, call, f.depth + 1)], w.visited, w.vars, w.world))
    case Returned(r) =>
      if f.isFunction then ReturnToCaller(below, f, w.vars, r, w.visited, w.world)
      else Popped(below, w)
    case Ended(success) =>
      if f.isFunction then ReturnToCaller(below, f, w.vars, NO_RESULT, w.visited, Logged(w.world, NoReturnPath))
      else if success then Popped(below, w)
      else Halted(Failed(TaskFailed), w.vars, Logged(w.world, TaskFailed))
    case Raised(e) =>
      if f.isFunction then ReturnToCaller(below, f, w.vars, NO_RESULT, w.visited, Logged(w.world, e))
      else Halted(Failed(e), w.vars, Logged(w.world, e))
    case FellOff => Popped(below, w)
  }

  function Popped(below: seq<Frame>, w: Walk): Config {
    if below == [] then Halted(Completed, w.vars, w.world)
    else Live(State(below, w.visited, w.vars, w.world))
  }

  /** Walk the top frame: consume a pending completion, or enter the graph at the start node. */
  function WalkTop(p: Project, env: Env, st: State): Walk
    requires st.stack != [] && st.stack[|st.stack| - 1].taskId in p.tasks
  {
    var f := st.stack[|st.stack| - 1];
    var task := p.tasks[f.taskId];
    var visited := if f.started then st.visited else Without(st.visited, NodeIds(task.nodes));
    if f.pending.Some? then Walk(Ended(f.pending.value), visited, f.vars, st.world)
    else
      match StartIndex(task, f.start)
      case None => Walk(Raised(MissingStart), visited, f.vars, st.world)
      case Some(i) => WalkGraph(p, env, ContextOf(p, st.stack), i, visited, f.vars, st.world)
  }

  /** Every non-main frame sits above the frame that called it. */
  predicate Grounded(st: State) {
    st.stack != [] && (st.stack[|st.stack| - 1].isFunction ==> |st.stack| >= 2)
  }

  /** A call leaves the walk only towards a function that exists and is not already active. */
  ghost predicate Callable(p: Project, ctx: Context, f: string) {
    f in p.tasks && p.tasks[f].role == "function" && f !in ctx.active && ctx.depth < MAX_CALL_DEPTH
  }

  lemma VisitCallsKnownFunction(p: Project, env: Env, ctx: Context, index: nat, visited: map<string, nat>, vars: Vars,
      world: World)
    requires index < |ctx.task.nodes|
    ensures var m := VisitNode(p, env, ctx, index, visited, vars, world).move;
      m.Leave? ==> (m.exit.Calling? ==> Callable(p, ctx, m.exit.call.functionId)) && (m.exit.Returned? ==> ctx.isFunction)
  {
    hide ChildVars, OutcomeJumps, FindEdgeJump, IndexOf;
  }

  lemma WalkOnce(p: Project, env: Env, ctx: Context, index: nat, visited: map<string, nat>, vars: Vars, world: World)
    requires index < |ctx.task.nodes|
    ensures var v := VisitNode(p, env, ctx, index, visited, vars, world);
      WalkGraph(p, env, ctx, index, visited, vars, world) ==
        (if v.move.Goto? then WalkGraph(p, env, ctx, v.move.index, v.visited, v.vars, v.world)
         else Walk(v.move.exit, v.visited, v.vars, v.world))
    ensures !ctx.task.nodes[index].enabled ==>
      WalkGraph(p, env, ctx, index, visited, vars, world) == WalkGraph(p, env, ctx, index + 1, visited, vars, world)
  {
    hide Dispatch;
  }

  lemma PastTheEnd(p: Project, env: Env, ctx: Context, index: nat, visited: map<string, nat>, vars: Vars, world: World)
    requires index >= |ctx.task.nodes|
    ensures WalkGraph(p, env, ctx, index, visited, vars, world) == Walk(FellOff, visited, vars, world)
  {
  }

  lemma {:induction false} WalkCallsKnownFunction(p: Project, env: Env, ctx: Context, index: nat, visited: map<string,
      nat>, vars: Vars, world: World)
    ensures var w := WalkGraph(p, env, ctx, index, visited, vars, world);
      && (w.exit.Calling? ==> Callable(p, ctx, w.exit.call.functionId))
      && (w.exit.Returned? ==> ctx.isFunction)
    decreases Budget(ctx.task.nodes, visited, env.maxVisits), |ctx.task.nodes| - index
  {
    if index < |ctx.task.nodes| {
      hide VisitNode;
      WalkOnce(p, env, ctx, index, visited, vars, world);
      VisitCallsKnownFunction(p, env, ctx, index, visited, vars, world);
      hide WalkGraph;
      var v := VisitNode(p, env, ctx, index, visited, vars, world);
      if !ctx.task.nodes[index].enabled {
        WalkCallsKnownFunction(p, env, ctx, index + 1, visited, vars, world);
      } else if v.move.Goto? {
        VisitShrinks(p, env, ctx, index, visited, vars, world);
        WalkCallsKnownFunction(p, env, ctx, v.move.index, v.visited, v.vars, v.world);
      }
    }
  }

  lemma WalkTopCallsKnownFunction(p: Project, env: Env, st: State)
    requires st.stack != [] && st.stack[|st.stack| - 1].taskId in p.tasks
    ensures var w := WalkTop(p, env, st);
      && (w.exit.Calling? ==> Callable(p, ContextOf(p, st.stack), w.exit.call.functionId))
      && (w.exit.Returned? ==> st.stack[|st.stack| - 1].isFunction)
  {
    var f := st.stack[|st.stack| - 1];
    var task := p.tasks[f.taskId];
    var visited := if f.started then st.visited else Without(st.visited, NodeIds(task.nodes));
    if f.pending.None? && StartIndex(task, f.start).Some? {
      WalkCallsKnownFunction(p, env, ContextOf(p, st.stack), StartIndex(task, f.start).value, visited, f.vars, st.world);
    }
  }

  function Step(p: Project, env: Env, c: Config): Config
    requires c.Live? ==> Grounded(c.st)
  {
    if c.Halted? then c
    else
      var st := c.st;
      var below, f := st.stack[..|st.stack| - 1], st.stack[|st.stack| - 1];
      if f.taskId !in p.tasks then Halted(Failed(MissingTask), f.vars, Logged(st.world, MissingTask))
      else
        var w := WalkTop(p, env, st);
        WalkTopCallsKnownFunction(p, env, st);
        AfterWalk(p, below, f.(pending := None, started := true), w)
  }
}
