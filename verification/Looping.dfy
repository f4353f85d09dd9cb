/** Runs that need never end: wherever a loop can be reached, a scripted environment goes round it
    forever. */
module Looping {
  import opened Common
  import opened Runtime
  import opened Scheduler
  import opened StackShape
  import opened Parameters
  import opened Soundness
  import opened Lookalike
  import opened Reach
  import opened Halting

  // ---------------------------------------------------------------- scripted environments

  /** Execution number `tick` gives `script(tick)` and leaves the variables alone. */
  function ScriptEnv(script: nat -> NodeResult, maxVisits: int): Env {
    Env((tick: nat, m: PageMap, node: Node, vars: Vars) => (script(tick), vars), (t, vars, v) => Some(v), (v, k) => Some(v), maxVisits)
  }

  lemma ScriptObliges(script: nat -> NodeResult, maxVisits: int)
    ensures Obliging(ScriptEnv(script, maxVisits))
  {
  }

  function Steer(b: Branch): NodeResult {
    Ran(false, Some(b), None, None)
  }

  function CallOf(p: Project, g: string): NodeResult
    requires g in p.tasks
  {
    Ran(true, None, Some(CallIntent(g, EveryInput(Declarations(p.tasks[g].inputs)), [])), None)
  }

  function ReturnOf(k: string): NodeResult {
    Ran(true, None, None, Some(FnResult(k, map[])))
  }

  /** From tick `t` on the script reads `rs`. */
  ghost predicate Reads(script: nat -> NodeResult, t: nat, rs: seq<NodeResult>) {
    forall x: nat :: x < |rs| ==> script(t + x) == rs[x]
  }

  // ---------------------------------------------------------------- following a path

  ghost predicate Turns(p: Project, task: Task, path: seq<nat>, turns: seq<Branch>) {
    && Path(p, task, AllIds(task), path) && |turns| == |path| - 1
    && forall x :: 0 <= x < |turns| ==> PortPlace(p, task, path[x], turns[x].port, turns[x].id) == At(path[x + 1])
  }

  lemma {:induction false} TurnsOf(p: Project, task: Task, path: seq<nat>) returns (turns: seq<Branch>)
    requires Path(p, task, AllIds(task), path)
    ensures Turns(p, task, path, turns)
  {
    hide PortPlace;
    if |path| == 1 {
      turns := [];
    } else {
      var rest := path[1..];
      assert forall x :: 0 <= x < |rest| ==> rest[x] == path[x + 1];
      var more := TurnsOf(p, task, rest);
      assert Leads(p, task, path[0], At(path[1]));
      var port, id :| PortPlace(p, task, path[0], port, id) == At(path[1]);
      turns := [Branch(port, id)] + more;
      forall x | 0 <= x < |turns| ensures PortPlace(p, task, path[x], turns[x].port, turns[x].id) == At(path[x + 1]) {
        if x > 0 { assert turns[x] == more[x - 1] && path[x] == rest[x - 1] && path[x + 1] == rest[x]; }
      }
    }
  }

  function Steered(turns: seq<Branch>): (r: seq<NodeResult>)
    ensures |r| == |turns| && forall x :: 0 <= x < |turns| ==> r[x] == Steer(turns[x])
  {
    seq(|turns|, x requires 0 <= x < |turns| => Steer(turns[x]))
  }

  /** Every counter is at most `n` higher, and those of nodes off the path are no higher. */
  ghost predicate Grown(task: Task, path: seq<nat>, a: map<string, nat>, b: map<string, nat>, n: nat) {
    && (forall id :: Count(b, id) <= Count(a, id) + n)
    && (forall id :: id !in PathIds(task, path) ==> Count(b, id) <= Count(a, id))
  }

  function PathIds(task: Task, path: seq<nat>): set<string> {
    set x | 0 <= x < |path| && path[x] < |task.nodes| :: task.nodes[path[x]].nodeId
  }

  /** Along the path there are visits to spare. */
  ghost predicate Spare(task: Task, path: seq<nat>, visited: map<string, nat>, maxVisits: int) {
    forall id :: id in PathIds(task, path) ==> Count(visited, id) + |path| <= maxVisits
  }

  lemma SteeredVisit(p: Project, script: nat -> NodeResult, maxVisits: int, ctx: Context, i: nat, visited: map<string, nat>,
      vars: Vars, world: World, b: Branch)
    requires Runs(ctx.task, i) && Count(visited, ctx.task.nodes[i].nodeId) < maxVisits && script(world.tick) == Steer(b)
    ensures var v := VisitNode(p, ScriptEnv(script, maxVisits), ctx, i, visited, vars, world);
      var place := PortPlace(p, ctx.task, i, b.port, b.id);
      && v.visited == visited[ctx.task.nodes[i].nodeId := Count(visited, ctx.task.nodes[i].nodeId) + 1]
      && v.vars == vars && v.world == world.(tick := world.tick + 1)
      && (place.At? || place == PastEnd ==> v.move.Goto? && Landing(ctx.task.nodes, v.move.index) == place)
  {
    hide FindEdgeJump, OutEdges, IndexOf, Landing;
    PlacesTell(ctx.task, FindEdgeJump(OutEdges(p.edges, ctx.task.nodes[i].nodeId), b.port, b.id));
  }

  lemma SpareAt(p: Project, task: Task, path: seq<nat>, visited: map<string, nat>, maxVisits: int)
    requires Path(p, task, AllIds(task), path) && Spare(task, path, visited, maxVisits)
    ensures Runs(task, path[0]) && Count(visited, task.nodes[path[0]].nodeId) + |path| <= maxVisits
  {
    hide Leads;
    assert task.nodes[path[0]].nodeId in PathIds(task, path);
  }

  lemma GrownNot(task: Task, path: seq<nat>, a: map<string, nat>)
    ensures Grown(task, path, a, a, 0)
  {
  }

  lemma {:induction false} FollowPath(p: Project, script: nat -> NodeResult, maxVisits: int, ctx: Context, path: seq<nat>,
      turns: seq<Branch>, visited: map<string, nat>, vars: Vars, world: World) returns (after: map<string, nat>)
    requires Turns(p, ctx.task, path, turns) && Spare(ctx.task, path, visited, maxVisits)
    requires Reads(script, world.tick, Steered(turns))
    ensures Grown(ctx.task, path, visited, after, |path| - 1)
    ensures Runs(ctx.task, path[|path| - 1]) && Count(after, ctx.task.nodes[path[|path| - 1]].nodeId) < maxVisits
    ensures WalkGraph(p, ScriptEnv(script, maxVisits), ctx, path[0], visited, vars, world) ==
      WalkGraph(p, ScriptEnv(script, maxVisits), ctx, path[|path| - 1], after, vars, world.(tick := world.tick + |path| - 1))
    decreases |path|
  {
    hide WalkGraph, VisitNode, PortPlace, Path, Grown, Spare, Runs, Landing, ScriptEnv, Reads;
    var env, task := ScriptEnv(script, maxVisits), ctx.task;
    SpareAt(p, task, path, visited, maxVisits);
    RunsUnfolds(task, path[0]);
    TurnsNonEmpty(p, task, path, turns);
    if |path| == 1 {
      after := visited;
      GrownNot(task, path, visited);
    } else {
      FirstTurnOf(p, script, task, path, turns, world.tick);
      SteeredVisit(p, script, maxVisits, ctx, path[0], visited, vars, world, turns[0]);
      WalkOnce(p, env, ctx, path[0], visited, vars, world);
      var v := VisitNode(p, env, ctx, path[0], visited, vars, world);
      WalkFromLanding(p, env, ctx, v.move.index, v.visited, v.vars, v.world);
      RestOfPath(p, script, task, path, turns, world.tick);
      SpareAfterOne(task, path, visited, maxVisits);
      after := FollowPath(p, script, maxVisits, ctx, path[1..], turns[1..], v.visited, vars, world.(tick := world.tick + 1));
      GrownFromOne(task, path, visited, after);
    }
  }

  lemma TurnsNonEmpty(p: Project, task: Task, path: seq<nat>, turns: seq<Branch>)
    requires Turns(p, task, path, turns)
    ensures path != [] && |turns| == |path| - 1 && Path(p, task, AllIds(task), path)
  {
  }

  lemma FirstTurnOf(p: Project, script: nat -> NodeResult, task: Task, path: seq<nat>, turns: seq<Branch>, t: nat)
    requires Turns(p, task, path, turns) && |path| > 1 && Reads(script, t, Steered(turns)) && path[0] < |task.nodes|
    ensures script(t) == Steer(turns[0]) && PortPlace(p, task, path[0], turns[0].port, turns[0].id) == At(path[1])
  {
    assert script(t + 0) == Steered(turns)[0];
  }

  lemma RestOfPath(p: Project, script: nat -> NodeResult, task: Task, path: seq<nat>, turns: seq<Branch>, t: nat)
    requires Turns(p, task, path, turns) && |path| > 1 && Reads(script, t, Steered(turns))
    ensures Turns(p, task, path[1..], turns[1..]) && Reads(script, t + 1, Steered(turns[1..]))
  {
    hide PortPlace, Leads;
    var rest, more := path[1..], turns[1..];
    assert forall x :: 0 <= x < |rest| ==> rest[x] == path[x + 1];
    assert forall x :: 0 <= x < |more| ==> more[x] == turns[x + 1];
    forall x: nat | x < |more| ensures script(t + 1 + x) == Steered(more)[x] {
      assert script(t + (x + 1)) == Steered(turns)[x + 1];
    }
  }

  lemma SpareAfterOne(task: Task, path: seq<nat>, visited: map<string, nat>, maxVisits: int)
    requires |path| > 1 && path[0] < |task.nodes| && Spare(task, path, visited, maxVisits)
    ensures var id := task.nodes[path[0]].nodeId; Spare(task, path[1..], visited[id := Count(visited, id) + 1], maxVisits)
  {
    RestIds(task, path);
  }

  lemma RestIds(task: Task, path: seq<nat>)
    requires path != []
    ensures PathIds(task, path[1..]) <= PathIds(task, path)
  {
    forall id | id in PathIds(task, path[1..]) ensures id in PathIds(task, path) {
      var x :| 0 <= x < |path[1..]| && path[1..][x] < |task.nodes| && task.nodes[path[1..][x]].nodeId == id;
      assert path[x + 1] == path[1..][x];
    }
  }

  lemma GrownFromOne(task: Task, path: seq<nat>, visited: map<string, nat>, after: map<string, nat>)
    requires |path| > 1 && path[0] < |task.nodes|
    requires var id := task.nodes[path[0]].nodeId; Grown(task, path[1..], visited[id := Count(visited, id) + 1], after, |path| - 2)
    ensures Grown(task, path, visited, after, |path| - 1)
  {
    var id0 := task.nodes[path[0]].nodeId;
    assert id0 in PathIds(task, path);
    RestIds(task, path);
  }

  // ---------------------------------------------------------------- turns of a scripted run

  /** The top frame runs graph `t` and is about to walk from node `s`. */
  ghost predicate Standing(p: Project, c: Config, t: string, active: set<string>, s: nat) {
    && c.Live? && c.st.stack != [] && Shaped(p, c)
    && TopFrame(c).taskId == t && t in p.tasks && TopFrame(c).pending.None?
    && StartPlace(p.tasks[t], TopFrame(c).start) == At(s)
    && ActiveFunctions(c.st.stack) == active
  }

  /** The counters the top frame's walk begins with. */
  function Fresh(p: Project, c: Config): map<string, nat>
    requires c.Live? && c.st.stack != [] && TopFrame(c).taskId in p.tasks
  {
    if TopFrame(c).started then c.st.visited else Without(c.st.visited, AllIds(p.tasks[TopFrame(c).taskId]))
  }

  lemma TopWalks(p: Project, env: Env, c: Config, t: string, active: set<string>, s: nat)
    requires Standing(p, c, t, active, s)
    ensures Grounded(c.st)
    ensures WalkTop(p, env, c.st) == WalkGraph(p, env, ContextOf(p, c.st.stack), s, Fresh(p, c), TopFrame(c).vars, c.st.world)
    ensures ContextOf(p, c.st.stack) == Context(p.tasks[t], TopFrame(c).isFunction, active, |c.st.stack| - 1)
  {
    hide WalkGraph, Landing, IndexOf;
    var f, task := TopFrame(c), p.tasks[t];
    assert WellPlaced(p, f, |c.st.stack| - 1);
    PlacesTell(task, f.start);
    var i := StartIndex(task, f.start).value;
    WalkFromLanding(p, env, ContextOf(p, c.st.stack), i, Fresh(p, c), f.vars, c.st.world);
  }

  lemma CallVisit(p: Project, script: nat -> NodeResult, maxVisits: int, ctx: Context, y: nat, g: string, visited: map<string, nat>,
      vars: Vars, world: World)
    requires Runs(ctx.task, y) && Count(visited, ctx.task.nodes[y].nodeId) < maxVisits
    requires CanEnter(p, g) && g in p.tasks && g !in ctx.active && ctx.depth < MAX_CALL_DEPTH
    requires script(world.tick) == CallOf(p, g)
    ensures var v := VisitNode(p, ScriptEnv(script, maxVisits), ctx, y, visited, vars, world);
      && v.move.Leave? && v.move.exit.Calling?
      && v.move.exit.call.functionId == g && v.move.exit.call.outs == []
      && v.move.exit.call.jumps == OutcomeJumps(OutEdges(p.edges, ctx.task.nodes[y].nodeId))
      && v.visited == visited[ctx.task.nodes[y].nodeId := Count(visited, ctx.task.nodes[y].nodeId) + 1]
      && v.world == world.(tick := world.tick + 1)
  {
    hide ChildVars, Suppliable, Strip, OutcomeJumps, OutEdges, EveryInput, Declarations, Obliging;
    ScriptObliges(script, maxVisits);
    SuppliableIsEntered(ScriptEnv(script, maxVisits), world.tick + 1, p.tasks[g], CallOf(p, g).call.value, vars);
  }

  ghost predicate PushedAt(p: Project, c: Config, d: Config, g: string, y: nat)
    requires c.Live? && c.st.stack != [] && TopFrame(c).taskId in p.tasks
  {
    var f, h := TopFrame(c), |c.st.stack| - 1;
    && d.Live? && |d.st.stack| == h + 2 && d.st.stack[..h] == c.st.stack[..h]
    && d.st.stack[h] == f.(vars := d.st.stack[h].vars, pending := None, started := true)
    && y < |p.tasks[f.taskId].nodes| && g in p.tasks
    && TopFrame(d) == Frame(g, true, p.tasks[g].entry, false, TopFrame(d).vars, h + 1,
         OutcomeJumps(OutEdges(p.edges, p.tasks[f.taskId].nodes[y].nodeId)), [], None)
    && ActiveFunctions(d.st.stack) == ActiveFunctions(c.st.stack) + {g}
  }

  /** A turn that follows a path and calls `g` at its end. */
  lemma CallTurn(p: Project, script: nat -> NodeResult, maxVisits: int, c: Config, t: string, active: set<string>, path: seq<nat>,
      turns: seq<Branch>, g: string)
    requires path != [] && Standing(p, c, t, active, path[0]) && Turns(p, p.tasks[t], path, turns)
    requires Spare(p.tasks[t], path, Fresh(p, c), maxVisits)
    requires CanEnter(p, g) && g in p.tasks && g !in active && |c.st.stack| <= MAX_CALL_DEPTH
    requires Reads(script, c.st.world.tick, Steered(turns) + [CallOf(p, g)])
    ensures Grounded(c.st)
    ensures var d := Step(p, ScriptEnv(script, maxVisits), c);
      && Shaped(p, d) && PushedAt(p, c, d, g, path[|path| - 1])
      && d.st.world.tick == c.st.world.tick + |path|
      && Grown(p.tasks[t], path, Fresh(p, c), d.st.visited, |path|)
  {
    hide WalkTop, AfterWalk, CanEnter, ShapedStack, ScriptEnv, Turns, Spare, Reads, Grown, PushedAt, StartPlace;
    var env := ScriptEnv(script, maxVisits);
    StepKeepsShape(p, env, c);
    CallWalk(p, script, maxVisits, c, t, active, path, turns, g);
    TurnsNonEmpty(p, p.tasks[t], path, turns);
    TopIsPlaced(p, c);
    PushAfter(p, c, WalkTop(p, env, c.st), g, path[|path| - 1]);
  }

  lemma CallWalk(p: Project, script: nat -> NodeResult, maxVisits: int, c: Config, t: string, active: set<string>, path: seq<nat>,
      turns: seq<Branch>, g: string)
    requires path != [] && Standing(p, c, t, active, path[0]) && Turns(p, p.tasks[t], path, turns)
    requires Spare(p.tasks[t], path, Fresh(p, c), maxVisits)
    requires CanEnter(p, g) && g in p.tasks && g !in active && |c.st.stack| <= MAX_CALL_DEPTH
    requires Reads(script, c.st.world.tick, Steered(turns) + [CallOf(p, g)])
    ensures Runs(p.tasks[t], path[|path| - 1])
    ensures var w, y := WalkTop(p, ScriptEnv(script, maxVisits), c.st), path[|path| - 1];
      && w.exit.Calling? && w.exit.call.functionId == g && w.exit.call.outs == []
      && w.exit.call.jumps == OutcomeJumps(OutEdges(p.edges, p.tasks[t].nodes[y].nodeId))
      && w.world.tick == c.st.world.tick + |path|
      && Grown(p.tasks[t], path, Fresh(p, c), w.visited, |path|)
  {
    hide WalkGraph, WalkTop, VisitNode, CanEnter, OutcomeJumps, OutEdges, ScriptEnv, Turns, Spare, Reads, Grown, Fresh, Steered, CallOf, StartPlace, ShapedStack, ActiveFunctions;
    var env, task := ScriptEnv(script, maxVisits), p.tasks[t];
    TopWalks(p, env, c, t, active, path[0]);
    TurnsNonEmpty(p, task, path, turns);
    ReadsFront(script, c.st.world.tick, Steered(turns), CallOf(p, g));
    var ctx := ContextOf(p, c.st.stack);
    var after := FollowPath(p, script, maxVisits, ctx, path, turns, Fresh(p, c), TopFrame(c).vars, c.st.world);
    var y, world := path[|path| - 1], c.st.world.(tick := c.st.world.tick + |path| - 1);
    RunsUnfolds(task, y);
    SteeredLength(turns);
    CallVisit(p, script, maxVisits, ctx, y, g, after, TopFrame(c).vars, world);
    WalkOnce(p, env, ctx, y, after, TopFrame(c).vars, world);
    GrownByOne(task, path, Fresh(p, c), after, |path| - 1);
  }

  lemma SteeredLength(turns: seq<Branch>)
    ensures |Steered(turns)| == |turns|
  {
  }

  lemma PushAfter(p: Project, c: Config, w: Walk, g: string, y: nat)
    requires c.Live? && c.st.stack != [] && TopFrame(c).taskId in p.tasks && y < |p.tasks[TopFrame(c).taskId].nodes|
    requires TopFrame(c).depth == |c.st.stack| - 1 && (TopFrame(c).isFunction ==> |c.st.stack| > 1)
    requires w.exit.Calling? && w.exit.call.functionId == g && g in p.tasks && w.exit.call.outs == []
    requires w.exit.call.jumps == OutcomeJumps(OutEdges(p.edges, p.tasks[TopFrame(c).taskId].nodes[y].nodeId))
    ensures var d := AfterWalk(p, c.st.stack[..|c.st.stack| - 1], TopFrame(c).(pending := None, started := true), w);
      PushedAt(p, c, d, g, y) && d.st.world == w.world && d.st.visited == w.visited
  {
    hide OutcomeJumps, OutEdges, ActiveFunctions;
    var f' := TopFrame(c).(vars := w.vars, pending := None, started := true);
    PushedActive(c.st.stack, f', CalleeFrame(p, w.exit.call, f'.depth + 1));
  }

  lemma MaxVisitsOf(script: nat -> NodeResult, maxVisits: int)
    ensures ScriptEnv(script, maxVisits).maxVisits == maxVisits
  {
  }

  lemma TopIsPlaced(p: Project, c: Config)
    requires Shaped(p, c) && c.Live? && c.st.stack != []
    ensures TopFrame(c).depth == |c.st.stack| - 1 && (TopFrame(c).isFunction <==> |c.st.stack| > 1)
  {
    assert WellPlaced(p, TopFrame(c), |c.st.stack| - 1);
  }

  lemma ReadsFront(script: nat -> NodeResult, t: nat, rs: seq<NodeResult>, r: NodeResult)
    requires Reads(script, t, rs + [r])
    ensures Reads(script, t, rs) && script(t + |rs|) == r
  {
    forall x: nat | x < |rs| ensures script(t + x) == rs[x] {
      assert (rs + [r])[x] == rs[x];
    }
    assert (rs + [r])[|rs|] == r;
  }

  lemma GrownByOne(task: Task, path: seq<nat>, a: map<string, nat>, b: map<string, nat>, n: nat)
    requires path != [] && path[|path| - 1] < |task.nodes| && Grown(task, path, a, b, n)
    ensures var id := task.nodes[path[|path| - 1]].nodeId; Grown(task, path, a, b[id := Count(b, id) + 1], n + 1)
  {
    assert task.nodes[path[|path| - 1]].nodeId in PathIds(task, path);
  }

  lemma ReturnVisit(p: Project, script: nat -> NodeResult, maxVisits: int, ctx: Context, j: nat, k: string, visited: map<string, nat>,
      vars: Vars, world: World)
    requires Runs(ctx.task, j) && Count(visited, ctx.task.nodes[j].nodeId) < maxVisits && ctx.isFunction
    requires script(world.tick) == ReturnOf(k)
    ensures VisitNode(p, ScriptEnv(script, maxVisits), ctx, j, visited, vars, world) ==
      Visit(Leave(Returned(FnResult(k, map[]))),
        visited[ctx.task.nodes[j].nodeId := Count(visited, ctx.task.nodes[j].nodeId) + 1], vars, world.(tick := world.tick + 1))
  {
    hide OutEdges;
  }

  /** `d` is `c` with the top frame gone and its caller resumed at the outcome `k`. */
  ghost predicate ResumedAt(c: Config, d: Config, k: string) {
    && c.Live? && d.Live? && |c.st.stack| > 1
    && var h := |c.st.stack| - 1;
       && |d.st.stack| == h && d.st.stack[..h - 1] == c.st.stack[..h - 1]
       && d.st.stack[h - 1] == c.st.stack[h - 1].(vars := d.st.stack[h - 1].vars, start := JumpAt(TopFrame(c).jumps, k), started := true)
  }

  /** A turn in which a function that was just called returns at its first node. */
  lemma ReturnTurn(p: Project, script: nat -> NodeResult, maxVisits: int, c: Config, g: string, active: set<string>, j: nat, k: string)
    requires Standing(p, c, g, active, j) && Runs(p.tasks[g], j) && |c.st.stack| > 1 && !TopFrame(c).started && TopFrame(c).outs == []
    requires script(c.st.world.tick) == ReturnOf(k) && k != "" && JumpAt(TopFrame(c).jumps, k) != "" && maxVisits > 0
    ensures Grounded(c.st)
    ensures var d := Step(p, ScriptEnv(script, maxVisits), c);
      && Shaped(p, d) && ResumedAt(c, d, k)
      && d.st.world.tick == c.st.world.tick + 1
      && forall id :: Count(d.st.visited, id) <= if id in AllIds(p.tasks[g]) then 1 else Count(c.st.visited, id)
  {
    hide WalkGraph, WalkTop, VisitNode, ShapedStack, ScriptEnv, StartPlace, ActiveFunctions;
    var env, task := ScriptEnv(script, maxVisits), p.tasks[g];
    StepKeepsShape(p, env, c);
    TopWalks(p, env, c, g, active, j);
    TopIsPlaced(p, c);
    IdOf(task, j);
    var ctx, visited := ContextOf(p, c.st.stack), Fresh(p, c);
    assert Count(visited, task.nodes[j].nodeId) == 0;
    ReturnVisit(p, script, maxVisits, ctx, j, k, visited, TopFrame(c).vars, c.st.world);
    WalkOnce(p, env, ctx, j, visited, TopFrame(c).vars, c.st.world);
    var h := |c.st.stack| - 1;
    NoBindings(c.st.stack[h - 1].vars + Shared(TopFrame(c).vars));
  }

  lemma NoBindings(vars: Vars)
    ensures ApplyOutputs(vars, [], map[]) == Ok(vars)
  {
  }

  ghost predicate DroppedTo(c: Config, d: Config) {
    c.Live? && d.Live? && |c.st.stack| > 1 && d.st.stack == c.st.stack[..|c.st.stack| - 1]
  }

  /** A turn in which a function follows a path and runs off its end. */
  lemma FallTurn(p: Project, script: nat -> NodeResult, maxVisits: int, c: Config, g: string, active: set<string>, path: seq<nat>,
      turns: seq<Branch>, b: Branch)
    requires path != [] && Standing(p, c, g, active, path[0]) && Turns(p, p.tasks[g], path, turns) && |c.st.stack| > 1
    requires Spare(p.tasks[g], path, Fresh(p, c), maxVisits)
    requires path[|path| - 1] < |p.tasks[g].nodes| && PortPlace(p, p.tasks[g], path[|path| - 1], b.port, b.id) == PastEnd
    requires Reads(script, c.st.world.tick, Steered(turns) + [Steer(b)])
    ensures Grounded(c.st)
    ensures var d := Step(p, ScriptEnv(script, maxVisits), c);
      && Shaped(p, d) && DroppedTo(c, d)
      && d.st.world.tick == c.st.world.tick + |path|
      && Grown(p.tasks[g], path, Fresh(p, c), d.st.visited, |path|)
  {
    hide WalkGraph, WalkTop, VisitNode, ScriptEnv, Turns, Spare, Reads, Grown, Fresh, Steered, PortPlace, StartPlace, ShapedStack, ActiveFunctions;
    var env, task := ScriptEnv(script, maxVisits), p.tasks[g];
    StepKeepsShape(p, env, c);
    TopWalks(p, env, c, g, active, path[0]);
    TopIsPlaced(p, c);
    TurnsNonEmpty(p, task, path, turns);
    ReadsFront(script, c.st.world.tick, Steered(turns), Steer(b));
    var ctx := ContextOf(p, c.st.stack);
    var after := FollowPath(p, script, maxVisits, ctx, path, turns, Fresh(p, c), TopFrame(c).vars, c.st.world);
    var y, world := path[|path| - 1], c.st.world.(tick := c.st.world.tick + |path| - 1);
    RunsUnfolds(task, y);
    SteeredLength(turns);
    SteeredVisit(p, script, maxVisits, ctx, y, after, TopFrame(c).vars, world, b);
    WalkOnce(p, env, ctx, y, after, TopFrame(c).vars, world);
    var v := VisitNode(p, env, ctx, y, after, TopFrame(c).vars, world);
    WalkFromLanding(p, env, ctx, v.move.index, v.visited, v.vars, v.world);
    GrownByOne(task, path, Fresh(p, c), after, |path| - 1);
  }

  /** A turn in which a function that stands past its last enabled node runs off its end. */
  lemma FallNow(p: Project, env: Env, c: Config)
    requires Shaped(p, c) && c.Live? && |c.st.stack| > 1 && TopFrame(c).taskId in p.tasks && TopFrame(c).pending.None?
    requires TopFrame(c).started && StartPlace(p.tasks[TopFrame(c).taskId], TopFrame(c).start) == PastEnd
    ensures Grounded(c.st)
    ensures var d := Step(p, env, c);
      Shaped(p, d) && DroppedTo(c, d) && d.st.world == c.st.world && d.st.visited == c.st.visited
  {
    hide WalkGraph, Landing, IndexOf, ShapedStack;
    StepKeepsShape(p, env, c);
    TopIsPlaced(p, c);
    var f, task := TopFrame(c), p.tasks[TopFrame(c).taskId];
    PlacesTell(task, f.start);
    WalkFromLanding(p, env, ContextOf(p, c.st.stack), StartIndex(task, f.start).value, c.st.visited, f.vars, c.st.world);
  }

  // ---------------------------------------------------------------- a call and back

  /** The same frame of graph `t` as in `c` is on top again, `n` ticks later. */
  ghost predicate BackOn(p: Project, c: Config, d: Config, n: nat) {
    && c.Live? && d.Live? && c.st.stack != [] && |d.st.stack| == |c.st.stack|
    && d.st.stack[..|c.st.stack| - 1] == c.st.stack[..|c.st.stack| - 1]
    && d.st.world.tick == c.st.world.tick + n
  }

  /** Counters of `reset` are at most `low`, the others at most `more` above what they were. */
  ghost predicate Bounded(reset: set<string>, low: nat, more: nat, a: map<string, nat>, b: map<string, nat>) {
    forall id :: Count(b, id) <= if id in reset then low else Count(a, id) + more
  }

  lemma CalleeStands(p: Project, c: Config, d: Config, t: string, active: set<string>, s: nat, g: string, y: nat, j: nat)
    requires Standing(p, c, t, active, s) && Shaped(p, d) && PushedAt(p, c, d, g, y)
    requires EntryPlace(p, g) == At(j)
    ensures Standing(p, d, g, active + {g}, j) && |d.st.stack| == |c.st.stack| + 1 && !TopFrame(d).started && TopFrame(d).outs == []
  {
    hide StartPlace, ShapedStack, OutcomeJumps, ActiveFunctions;
  }

  lemma OutcomeLeads(p: Project, task: Task, y: nat, k: string, q: Place)
    requires y < |task.nodes| && k != "" && PortPlace(p, task, y, "", k) == q && q != Ends
    ensures var target := JumpAt(OutcomeJumps(OutEdges(p.edges, task.nodes[y].nodeId)), k);
      target != "" && StartPlace(task, target) == q
  {
    hide OutcomeJumps, OutEdges, FindEdgeJump;
    OutcomeJumpAt(OutEdges(p.edges, task.nodes[y].nodeId), k);
  }

  /** The caller stands where the outcome leads. */
  lemma CallerStands(p: Project, c: Config, d1: Config, d2: Config, t: string, active: set<string>, s: nat, g: string, y: nat, k: string, q: Place)
    requires Standing(p, c, t, active, s) && PushedAt(p, c, d1, g, y) && Shaped(p, d2) && ResumedAt(d1, d2, k)
    requires k != "" && PortPlace(p, p.tasks[t], y, "", k) == q && q != Ends
    ensures d2.Live? && |d2.st.stack| == |c.st.stack| && d2.st.stack[..|c.st.stack| - 1] == c.st.stack[..|c.st.stack| - 1]
    ensures TopFrame(d2).taskId == t && TopFrame(d2).pending.None? && TopFrame(d2).started && TopFrame(d2).isFunction == TopFrame(c).isFunction
    ensures TopFrame(d2).jumps == TopFrame(c).jumps && TopFrame(d2).outs == TopFrame(c).outs
    ensures ActiveFunctions(d2.st.stack) == active && StartPlace(p.tasks[t], TopFrame(d2).start) == q
  {
    hide StartPlace, ShapedStack, OutcomeJumps, OutEdges, PortPlace, ActiveFunctions;
    var h := |c.st.stack| - 1;
    OutcomeLeads(p, p.tasks[t], y, k, q);
    assert d2.st.stack[..h] == d1.st.stack[..h] == c.st.stack[..h];
    assert d2.st.stack == c.st.stack[..h] + [TopFrame(d2)];
    SameActive(c.st.stack, TopFrame(d2));
  }

  /** The first turn: the callee stands at its entry. */
  lemma CallAndStand(p: Project, script: nat -> NodeResult, maxVisits: int, c: Config, t: string, active: set<string>, path: seq<nat>,
      turns: seq<Branch>, g: string)
    requires path != [] && Standing(p, c, t, active, path[0]) && Turns(p, p.tasks[t], path, turns)
    requires Spare(p.tasks[t], path, Fresh(p, c), maxVisits)
    requires CanEnter(p, g) && g in p.tasks && g !in active && |c.st.stack| <= MAX_CALL_DEPTH && EntryPlace(p, g).At?
    requires Reads(script, c.st.world.tick, Steered(turns) + [CallOf(p, g)])
    ensures Grounded(c.st)
    ensures var d := Step(p, ScriptEnv(script, maxVisits), c);
      && d.Live? && PushedAt(p, c, d, g, path[|path| - 1])
      && Standing(p, d, g, active + {g}, EntryPlace(p, g).index)
      && |d.st.stack| == |c.st.stack| + 1 && !TopFrame(d).started && TopFrame(d).outs == []
      && d.st.world.tick == c.st.world.tick + |path|
      && Grown(p.tasks[t], path, Fresh(p, c), d.st.visited, |path|)
  {
    hide Step, ScriptEnv, Turns, Spare, Reads, Standing, StartPlace, CanEnter, ShapedStack, PushedAt, CallOf, Grown;
    StandingFacts(p, c, t, active, path[0]);
    CallTurn(p, script, maxVisits, c, t, active, path, turns, g);
    PushedJumps(p, c, Step(p, ScriptEnv(script, maxVisits), c), g, path[|path| - 1]);
    CalleeStands(p, c, Step(p, ScriptEnv(script, maxVisits), c), t, active, path[0], g, path[|path| - 1], EntryPlace(p, g).index);
  }

  /** The second: it returns, and its caller goes on where the outcome leads. */
  lemma ReturnHere(p: Project, script: nat -> NodeResult, maxVisits: int, c: Config, d: Config, t: string, active: set<string>, s0: nat,
      g: string, y: nat, k: string, q: Place)
    requires Standing(p, c, t, active, s0) && PushedAt(p, c, d, g, y) && EntryPlace(p, g).At?
    requires Standing(p, d, g, active + {g}, EntryPlace(p, g).index) && !TopFrame(d).started && TopFrame(d).outs == []
    requires script(d.st.world.tick) == ReturnOf(k) && maxVisits > 0
    requires k != "" && PortPlace(p, p.tasks[t], y, "", k) == q && q != Ends
    ensures Grounded(d.st)
    ensures var z := Step(p, ScriptEnv(script, maxVisits), d);
      && Shaped(p, z) && z.Live? && |z.st.stack| == |c.st.stack| && z.st.stack[..|c.st.stack| - 1] == c.st.stack[..|c.st.stack| - 1]
      && TopFrame(z).taskId == t && TopFrame(z).pending.None? && TopFrame(z).started && TopFrame(z).isFunction == TopFrame(c).isFunction
      && TopFrame(z).jumps == TopFrame(c).jumps && TopFrame(z).outs == TopFrame(c).outs
      && ActiveFunctions(z.st.stack) == active && StartPlace(p.tasks[t], TopFrame(z).start) == q
      && z.st.world.tick == d.st.world.tick + 1
      && forall id :: Count(z.st.visited, id) <= if id in AllIds(p.tasks[g]) then 1 else Count(d.st.visited, id)
  {
    hide Step, ScriptEnv, Standing, PortPlace, StartPlace, ShapedStack, PushedAt, ResumedAt, OutcomeJumps, AllIds;
    StandingFacts(p, c, t, active, s0);
    PushedJumps(p, c, d, g, y);
    StandingFacts(p, d, g, active + {g}, EntryPlace(p, g).index);
    PlacesRun(p.tasks[g], p.tasks[g].entry);
    OutcomeLeads(p, p.tasks[t], y, k, q);
    ReturnTurn(p, script, maxVisits, d, g, active + {g}, EntryPlace(p, g).index, k);
    CallerStands(p, c, d, Step(p, ScriptEnv(script, maxVisits), d), t, active, s0, g, y, k, q);
  }

  /** One call that returns to node `s`. */
  lemma Hop(p: Project, script: nat -> NodeResult, maxVisits: int, c: Config, t: string, active: set<string>, path: seq<nat>,
      turns: seq<Branch>, g: string, k: string, s: nat)
    requires path != [] && Standing(p, c, t, active, path[0]) && Turns(p, p.tasks[t], path, turns)
    requires Spare(p.tasks[t], path, Fresh(p, c), maxVisits) && maxVisits > 0
    requires CanEnter(p, g) && g in p.tasks && g !in active && |c.st.stack| <= MAX_CALL_DEPTH && EntryPlace(p, g).At?
    requires path[|path| - 1] < |p.tasks[t].nodes| && k != "" && PortPlace(p, p.tasks[t], path[|path| - 1], "", k) == At(s)
    requires Reads(script, c.st.world.tick, Steered(turns) + [CallOf(p, g), ReturnOf(k)])
    ensures var d := Run(p, ScriptEnv(script, maxVisits), 2, c);
      && Standing(p, d, t, active, s) && BackOn(p, c, d, |path| + 1) && TopFrame(d).started
      && Bounded(AllIds(p.tasks[g]), 1, |path|, c.st.visited, d.st.visited)
  {
    hide Step, Run, ScriptEnv, Turns, Spare, Reads, Standing, Steered, PortPlace, StartPlace, CanEnter, ShapedStack, PushedAt, CallOf, ReturnOf, Grown, AllIds, Fresh, Bounded, ActiveFunctions, EntryPlace;
    var env, y := ScriptEnv(script, maxVisits), path[|path| - 1];
    StandingFacts(p, c, t, active, path[0]);
    ReadsCallThenReturn(script, c.st.world.tick, Steered(turns), CallOf(p, g), ReturnOf(k));
    TurnsNonEmpty(p, p.tasks[t], path, turns);
    SteeredLength(turns);
    CallAndStand(p, script, maxVisits, c, t, active, path, turns, g);
    var d1 := Step(p, env, c);
    ReturnHere(p, script, maxVisits, c, d1, t, active, path[0], g, y, k, At(s));
    var d2 := Step(p, env, d1);
    RunTwice(p, env, c);
    StandsAgain(p, d2, t, active, s);
    FreshIsLower(p, c);
    HopBound(p.tasks[t], path, Fresh(p, c), c.st.visited, d1.st.visited, d2.st.visited, AllIds(p.tasks[g]));
  }

  lemma StandingFacts(p: Project, c: Config, t: string, active: set<string>, s: nat)
    requires Standing(p, c, t, active, s)
    ensures Shaped(p, c) && c.Live? && c.st.stack != [] && TopFrame(c).taskId == t && t in p.tasks
  {
  }

  lemma StandsAgain(p: Project, c: Config, t: string, active: set<string>, s: nat)
    requires Shaped(p, c) && c.Live? && c.st.stack != [] && TopFrame(c).taskId == t && t in p.tasks && TopFrame(c).pending.None?
    requires ActiveFunctions(c.st.stack) == active && StartPlace(p.tasks[t], TopFrame(c).start) == At(s)
    ensures Standing(p, c, t, active, s)
  {
  }

  lemma PushedJumps(p: Project, c: Config, d: Config, g: string, y: nat)
    requires c.Live? && c.st.stack != [] && TopFrame(c).taskId in p.tasks && PushedAt(p, c, d, g, y)
    ensures d.Live? && d.st.stack != [] && y < |p.tasks[TopFrame(c).taskId].nodes|
    ensures TopFrame(d).jumps == OutcomeJumps(OutEdges(p.edges, p.tasks[TopFrame(c).taskId].nodes[y].nodeId))
    ensures |d.st.stack| == |c.st.stack| + 1 && TopFrame(d).isFunction && g in p.tasks
  {
  }

  lemma ReadsCallThenReturn(script: nat -> NodeResult, t: nat, rs: seq<NodeResult>, a: NodeResult, b: NodeResult)
    requires Reads(script, t, rs + [a, b])
    ensures Reads(script, t, rs + [a]) && script(t + |rs| + 1) == b
  {
    assert rs + [a, b] == rs + [a] + [b];
    ReadsFront(script, t, rs + [a], b);
  }

  lemma RunTwice(p: Project, env: Env, c: Config)
    requires Shaped(p, c)
    ensures c.Live? ==> Grounded(c.st)
    ensures Shaped(p, Step(p, env, c)) && (Step(p, env, c).Live? ==> Grounded(Step(p, env, c).st))
    ensures Run(p, env, 2, c) == Step(p, env, Step(p, env, c))
  {
    hide Step, ShapedStack;
    RunFirst(p, env, 2, c);
    RunOne(p, env, Step(p, env, c));
  }

  lemma FreshIsLower(p: Project, c: Config)
    requires c.Live? && c.st.stack != [] && TopFrame(c).taskId in p.tasks
    ensures forall id :: Count(Fresh(p, c), id) <= Count(c.st.visited, id)
  {
  }

  lemma HopBound(task: Task, path: seq<nat>, begun: map<string, nat>, a: map<string, nat>, b: map<string, nat>, c: map<string, nat>, reset: set<string>)
    requires forall id :: Count(begun, id) <= Count(a, id)
    requires Grown(task, path, begun, b, |path|)
    requires forall id :: Count(c, id) <= if id in reset then 1 else Count(b, id)
    ensures Bounded(reset, 1, |path|, a, c)
  {
    forall id ensures Count(c, id) <= if id in reset then 1 else Count(a, id) + |path| {
      assert Count(b, id) <= Count(begun, id) + |path|;
    }
  }

  /** The callee is gone without a result: its caller stands where it stood. */
  lemma DroppedStands(p: Project, c: Config, d: Config, z: Config, t: string, active: set<string>, s: nat, g: string, y: nat)
    requires Standing(p, c, t, active, s) && PushedAt(p, c, d, g, y)
    requires z.Live? && Shaped(p, z) && z.st.stack == d.st.stack[..|d.st.stack| - 1]
    ensures Standing(p, z, t, active, s) && |z.st.stack| == |c.st.stack|
    ensures z.st.stack[..|c.st.stack| - 1] == c.st.stack[..|c.st.stack| - 1] && TopFrame(z).started
  {
    hide StartPlace, ShapedStack, OutcomeJumps, ActiveFunctions;
    var h := |c.st.stack| - 1;
    assert z.st.stack == c.st.stack[..h] + [TopFrame(z)];
    SameActive(c.st.stack, TopFrame(z));
  }

  /** One call that falls off. */
  lemma FallHop(p: Project, script: nat -> NodeResult, maxVisits: int, c: Config, t: string, active: set<string>, path: seq<nat>,
      turns: seq<Branch>, g: string, path2: seq<nat>, turns2: seq<Branch>, b: Branch)
    requires path != [] && Standing(p, c, t, active, path[0]) && Turns(p, p.tasks[t], path, turns)
    requires Spare(p.tasks[t], path, Fresh(p, c), maxVisits)
    requires CanEnter(p, g) && g in p.tasks && g !in active && |c.st.stack| <= MAX_CALL_DEPTH
    requires path2 != [] && EntryPlace(p, g) == At(path2[0]) && Turns(p, p.tasks[g], path2, turns2) && |path2| <= maxVisits
    requires path2[|path2| - 1] < |p.tasks[g].nodes| && PortPlace(p, p.tasks[g], path2[|path2| - 1], b.port, b.id) == PastEnd
    requires Reads(script, c.st.world.tick, Steered(turns) + [CallOf(p, g)])
    requires Reads(script, c.st.world.tick + |path|, Steered(turns2) + [Steer(b)])
    ensures var z := Run(p, ScriptEnv(script, maxVisits), 2, c);
      && Standing(p, z, t, active, path[0]) && BackOn(p, c, z, |path| + |path2|) && TopFrame(z).started
      && Bounded(AllIds(p.tasks[g]), |path2|, |path|, c.st.visited, z.st.visited)
  {
    hide Step, Run, ScriptEnv, Turns, Reads, Standing, Steered, PortPlace, StartPlace, CanEnter, ShapedStack, PushedAt, CallOf, Steer, Grown, AllIds, Fresh, Bounded, ActiveFunctions, Spare;
    var env := ScriptEnv(script, maxVisits);
    StandingFacts(p, c, t, active, path[0]);
    CallAndStand(p, script, maxVisits, c, t, active, path, turns, g);
    var d := Step(p, env, c);
    StandingFacts(p, d, g, active + {g}, path2[0]);
    PushedJumps(p, c, d, g, path[|path| - 1]);
    SpareWhenNew(p, d, path2, maxVisits);
    FallTurn(p, script, maxVisits, d, g, active + {g}, path2, turns2, b);
    var z := Step(p, env, d);
    RunTwice(p, env, c);
    DroppedStands(p, c, d, z, t, active, path[0], g, path[|path| - 1]);
    FreshIsLower(p, c);
    FallBound(p, p.tasks[t], path, Fresh(p, c), c.st.visited, d, path2, z.st.visited, g);
  }

  lemma SpareWhenNew(p: Project, c: Config, path: seq<nat>, maxVisits: int)
    requires c.Live? && c.st.stack != [] && TopFrame(c).taskId in p.tasks && !TopFrame(c).started && |path| <= maxVisits
    ensures Spare(p.tasks[TopFrame(c).taskId], path, Fresh(p, c), maxVisits)
  {
    PathIdsInside(p.tasks[TopFrame(c).taskId], path);
  }

  lemma PathIdsInside(task: Task, path: seq<nat>)
    ensures PathIds(task, path) <= AllIds(task)
  {
    forall id | id in PathIds(task, path) ensures id in AllIds(task) {
      var x :| 0 <= x < |path| && path[x] < |task.nodes| && task.nodes[path[x]].nodeId == id;
      IdOf(task, path[x]);
    }
  }

  lemma FallBound(p: Project, task: Task, path: seq<nat>, begun: map<string, nat>, a: map<string, nat>, d: Config, path2: seq<nat>,
      c: map<string, nat>, g: string)
    requires d.Live? && d.st.stack != [] && TopFrame(d).taskId == g && g in p.tasks && !TopFrame(d).started
    requires forall id :: Count(begun, id) <= Count(a, id)
    requires Grown(task, path, begun, d.st.visited, |path|) && Grown(p.tasks[g], path2, Fresh(p, d), c, |path2|)
    ensures Bounded(AllIds(p.tasks[g]), |path2|, |path|, a, c)
  {
    PathIdsInside(p.tasks[g], path2);
    forall id ensures Count(c, id) <= if id in AllIds(p.tasks[g]) then |path2| else Count(a, id) + |path| {
      assert Count(d.st.visited, id) <= Count(begun, id) + |path|;
      if id !in AllIds(p.tasks[g]) { assert id !in PathIds(p.tasks[g], path2); }
    }
  }

  /** How a function goes on after its own call has returned: along a path, or at once off its end. */
  ghost predicate Tail(p: Project, task: Task, q: Place, tail: seq<nat>, turns: seq<Branch>, b: Branch) {
    if tail == [] then q == PastEnd
    else
      && q == At(tail[0]) && Turns(p, task, tail, turns)
      && tail[|tail| - 1] < |task.nodes| && PortPlace(p, task, tail[|tail| - 1], b.port, b.id) == PastEnd
  }

  function TailScript(tail: seq<nat>, turns: seq<Branch>, b: Branch): seq<NodeResult> {
    if tail == [] then [] else Steered(turns) + [Steer(b)]
  }

  lemma TailFalls(p: Project, script: nat -> NodeResult, maxVisits: int, c: Config, g: string, active: set<string>, q: Place,
      tail: seq<nat>, turns: seq<Branch>, b: Branch)
    requires Shaped(p, c) && c.Live? && |c.st.stack| > 1 && TopFrame(c).taskId == g && g in p.tasks
    requires TopFrame(c).pending.None? && TopFrame(c).started && StartPlace(p.tasks[g], TopFrame(c).start) == q
    requires ActiveFunctions(c.st.stack) == active && Tail(p, p.tasks[g], q, tail, turns, b)
    requires Spare(p.tasks[g], tail, c.st.visited, maxVisits)
    requires Reads(script, c.st.world.tick, TailScript(tail, turns, b))
    ensures Grounded(c.st)
    ensures var d := Step(p, ScriptEnv(script, maxVisits), c);
      && Shaped(p, d) && DroppedTo(c, d)
      && d.st.world.tick == c.st.world.tick + |tail|
      && Bounded({}, 0, |tail|, c.st.visited, d.st.visited)
      && forall id :: id !in AllIds(p.tasks[g]) ==> Count(d.st.visited, id) <= Count(c.st.visited, id)
  {
    hide Step, ScriptEnv, Turns, Spare, Reads, Standing, Steered, PortPlace, StartPlace, ShapedStack, Steer, AllIds, ActiveFunctions;
    if tail == [] {
      FallNow(p, ScriptEnv(script, maxVisits), c);
    } else {
      StandsAgain(p, c, g, active, tail[0]);
      PathIdsInside(p.tasks[g], tail);
      FallTurn(p, script, maxVisits, c, g, active, tail, turns, b);
    }
  }

  /** One call that makes a call of its own and falls off after it. */
  lemma FallHopAfterCall(p: Project, script: nat -> NodeResult, maxVisits: int, c: Config, t: string, active: set<string>,
      path: seq<nat>, turns: seq<Branch>, g: string, path2: seq<nat>, turns2: seq<Branch>, g2: string, k: string, q: Place,
      tail: seq<nat>, turns3: seq<Branch>, b: Branch)
    requires path != [] && Standing(p, c, t, active, path[0]) && Turns(p, p.tasks[t], path, turns)
    requires Spare(p.tasks[t], path, Fresh(p, c), maxVisits)
    requires CanEnter(p, g) && g in p.tasks && g !in active && |c.st.stack| < MAX_CALL_DEPTH
    requires path2 != [] && EntryPlace(p, g) == At(path2[0]) && Turns(p, p.tasks[g], path2, turns2)
    requires path2[|path2| - 1] < |p.tasks[g].nodes| && k != "" && PortPlace(p, p.tasks[g], path2[|path2| - 1], "", k) == q && q != Ends
    requires CanEnter(p, g2) && g2 in p.tasks && g2 !in active + {g} && EntryPlace(p, g2).At?
    requires Tail(p, p.tasks[g], q, tail, turns3, b) && |path2| + 1 + |tail| <= maxVisits
    requires Reads(script, c.st.world.tick, Steered(turns) + [CallOf(p, g)])
    requires Reads(script, c.st.world.tick + |path|, Steered(turns2) + [CallOf(p, g2), ReturnOf(k)])
    requires Reads(script, c.st.world.tick + |path| + |path2| + 1, TailScript(tail, turns3, b))
    ensures var z := Run(p, ScriptEnv(script, maxVisits), 4, c);
      && Standing(p, z, t, active, path[0]) && BackOn(p, c, z, |path| + |path2| + 1 + |tail|) && TopFrame(z).started
      && Bounded(AllIds(p.tasks[g]) + AllIds(p.tasks[g2]), |path2| + 1 + |tail|, |path|, c.st.visited, z.st.visited)
  {
    hide Step, Run, ScriptEnv, Turns, Reads, Standing, Steered, PortPlace, StartPlace, CanEnter, ShapedStack, PushedAt, CallOf, Steer, ReturnOf, Grown, AllIds, Fresh, Bounded, ActiveFunctions, Spare, Tail, TailScript, EntryPlace;
    var env := ScriptEnv(script, maxVisits);
    StandingFacts(p, c, t, active, path[0]);
    CallAndStand(p, script, maxVisits, c, t, active, path, turns, g);
    var d1 := Step(p, env, c);
    StandingFacts(p, d1, g, active + {g}, path2[0]);
    PushedJumps(p, c, d1, g, path[|path| - 1]);
    SpareWhenNew(p, d1, path2, maxVisits);
    var z := FallAfterCall(p, script, maxVisits, d1, g, active + {g}, path2, turns2, g2, k, q, tail, turns3, b);
    RunFirst(p, env, 4, c);
    DroppedStands(p, c, d1, z, t, active, path[0], g, path[|path| - 1]);
    FreshIsLower(p, c);
    GrownBound(p.tasks[t], path, Fresh(p, c), c.st.visited, d1.st.visited);
    BoundThrough(AllIds(p.tasks[g]) + AllIds(p.tasks[g2]), |path2| + 1 + |tail|, |path|, c.st.visited, d1.st.visited, z.st.visited);
  }

  lemma GrownBound(task: Task, path: seq<nat>, begun: map<string, nat>, a: map<string, nat>, b: map<string, nat>)
    requires forall id :: Count(begun, id) <= Count(a, id)
    requires Grown(task, path, begun, b, |path|)
    ensures forall id :: Count(b, id) <= Count(a, id) + |path|
  {
    forall id ensures Count(b, id) <= Count(a, id) + |path| {
      assert Count(b, id) <= Count(begun, id) + |path|;
    }
  }

  lemma BoundThrough(reset: set<string>, low: nat, more: nat, a: map<string, nat>, b: map<string, nat>, c: map<string, nat>)
    requires forall id :: Count(b, id) <= Count(a, id) + more
    requires Bounded(reset, low, 0, b, c)
    ensures Bounded(reset, low, more, a, c)
  {
    forall id ensures Count(c, id) <= if id in reset then low else Count(a, id) + more {
      assert Count(b, id) <= Count(a, id) + more;
    }
  }

  /** From the entry of a function: a call, its return, and off the end, in three turns. */
  lemma FallAfterCall(p: Project, script: nat -> NodeResult, maxVisits: int, c: Config, g: string, active: set<string>, path: seq<nat>,
      turns: seq<Branch>, g2: string, k: string, q: Place, tail: seq<nat>, turns3: seq<Branch>, b: Branch) returns (z: Config)
    requires path != [] && Standing(p, c, g, active, path[0]) && Turns(p, p.tasks[g], path, turns)
    requires !TopFrame(c).started && TopFrame(c).isFunction
    requires Spare(p.tasks[g], path, Fresh(p, c), maxVisits)
    requires CanEnter(p, g2) && g2 in p.tasks && g2 !in active && 1 < |c.st.stack| <= MAX_CALL_DEPTH && EntryPlace(p, g2).At?
    requires path[|path| - 1] < |p.tasks[g].nodes| && k != "" && PortPlace(p, p.tasks[g], path[|path| - 1], "", k) == q && q != Ends
    requires Tail(p, p.tasks[g], q, tail, turns3, b) && |path| + 1 + |tail| <= maxVisits
    requires Reads(script, c.st.world.tick, Steered(turns) + [CallOf(p, g2), ReturnOf(k)])
    requires Reads(script, c.st.world.tick + |path| + 1, TailScript(tail, turns3, b))
    ensures Shaped(p, c) && z == Run(p, ScriptEnv(script, maxVisits), 3, c)
    ensures z.Live? && Shaped(p, z) && z.st.stack == c.st.stack[..|c.st.stack| - 1] && z.st.world.tick == c.st.world.tick + |path| + 1 + |tail|
    ensures Bounded(AllIds(p.tasks[g]) + AllIds(p.tasks[g2]), |path| + 1 + |tail|, 0, c.st.visited, z.st.visited)
  {
    hide Step, Run, ScriptEnv, Turns, Reads, Standing, Steered, PortPlace, StartPlace, CanEnter, ShapedStack, PushedAt, CallOf, Steer, ReturnOf, Grown, AllIds, Fresh, Bounded, ActiveFunctions, Spare, Tail, TailScript, EntryPlace;
    var env, y := ScriptEnv(script, maxVisits), path[|path| - 1];
    StandingFacts(p, c, g, active, path[0]);
    ReadsCallThenReturn(script, c.st.world.tick, Steered(turns), CallOf(p, g2), ReturnOf(k));
    TurnsNonEmpty(p, p.tasks[g], path, turns);
    SteeredLength(turns);
    CallAndStand(p, script, maxVisits, c, g, active, path, turns, g2);
    var d := Step(p, env, c);
    ReturnHere(p, script, maxVisits, c, d, g, active, path[0], g2, y, k, q);
    var e := Step(p, env, d);
    SpareTail(p, c, path, d.st.visited, e.st.visited, g2, tail, maxVisits);
    TailFalls(p, script, maxVisits, e, g, active, q, tail, turns3, b);
    z := Step(p, env, e);
    RunFirst(p, env, 3, c);
    RunTwice(p, env, d);
    FallAfterCallBound(p, c, path, d.st.visited, e.st.visited, z.st.visited, g2, |tail|);
  }

  lemma SpareTail(p: Project, c: Config, path: seq<nat>, b: map<string, nat>, d: map<string, nat>, g2: string, tail: seq<nat>, maxVisits: int)
    requires c.Live? && c.st.stack != [] && TopFrame(c).taskId in p.tasks && !TopFrame(c).started && g2 in p.tasks
    requires Grown(p.tasks[TopFrame(c).taskId], path, Fresh(p, c), b, |path|) && |path| + 1 + |tail| <= maxVisits
    requires forall id :: Count(d, id) <= if id in AllIds(p.tasks[g2]) then 1 else Count(b, id)
    ensures Spare(p.tasks[TopFrame(c).taskId], tail, d, maxVisits)
  {
    hide AllIds;
    var task := p.tasks[TopFrame(c).taskId];
    PathIdsInside(task, tail);
    forall id | id in PathIds(task, tail) ensures Count(d, id) + |tail| <= maxVisits {
      assert id in AllIds(task) && Count(Fresh(p, c), id) == 0;
      assert Count(b, id) <= Count(Fresh(p, c), id) + |path|;
    }
  }

  lemma FallAfterCallBound(p: Project, c: Config, path: seq<nat>, b: map<string, nat>, d: map<string, nat>, e: map<string, nat>,
      g2: string, n: nat)
    requires c.Live? && c.st.stack != [] && TopFrame(c).taskId in p.tasks && !TopFrame(c).started && g2 in p.tasks
    requires Grown(p.tasks[TopFrame(c).taskId], path, Fresh(p, c), b, |path|)
    requires forall id :: Count(d, id) <= if id in AllIds(p.tasks[g2]) then 1 else Count(b, id)
    requires Bounded({}, 0, n, d, e)
    requires forall id :: id !in AllIds(p.tasks[TopFrame(c).taskId]) ==> Count(e, id) <= Count(d, id)
    ensures Bounded(AllIds(p.tasks[TopFrame(c).taskId]) + AllIds(p.tasks[g2]), |path| + 1 + n, 0, c.st.visited, e)
  {
    hide AllIds;
    var task := p.tasks[TopFrame(c).taskId];
    PathIdsInside(task, path);
    forall id ensures Count(e, id) <= if id in AllIds(task) + AllIds(p.tasks[g2]) then |path| + 1 + n else Count(c.st.visited, id) {
      assert Count(e, id) <= Count(d, id) + n;
      assert Count(b, id) <= Count(Fresh(p, c), id) + |path|;
      if id in AllIds(task) {
        assert Count(Fresh(p, c), id) == 0;
      } else {
        assert id !in PathIds(task, path) && Count(Fresh(p, c), id) == Count(c.st.visited, id);
      }
    }
  }
}
