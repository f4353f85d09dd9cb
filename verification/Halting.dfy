/** Runs that can only end: every call of a frame uses up something that no call can give back. */
module Halting {
  import opened Common
  import opened Runtime
  import opened Scheduler
  import opened StackShape
  import opened Parameters
  import opened Soundness
  import opened Lookalike
  import opened Reach

  // ---------------------------------------------------------------- visits that are never forgotten

  /** Visits left on the nodes of a graph whose ids are not in `ids`. */
  function Left(nodes: seq<Node>, ids: set<string>, visited: map<string, nat>, maxVisits: int): nat {
    if nodes == [] then 0
    else
      var used := Count(visited, nodes[0].nodeId);
      (if nodes[0].nodeId !in ids && used < maxVisits then maxVisits - used else 0) + Left(nodes[1..], ids, visited, maxVisits)
  }

  /** Outside `ids` no counter has gone down. */
  ghost predicate Kept(ids: set<string>, a: map<string, nat>, b: map<string, nat>) {
    forall id :: id !in ids ==> Count(a, id) <= Count(b, id)
  }

  lemma KeptThrough(ids: set<string>, a: map<string, nat>, b: map<string, nat>, c: map<string, nat>)
    requires Kept(ids, a, b) && Kept(ids, b, c)
    ensures Kept(ids, a, c)
  {
    forall id | id !in ids ensures Count(a, id) <= Count(c, id) {
      assert Count(a, id) <= Count(b, id) && Count(b, id) <= Count(c, id);
    }
  }

  lemma KeptWidely(ids: set<string>, more: set<string>, a: map<string, nat>, b: map<string, nat>)
    requires ids <= more && Kept(ids, a, b)
    ensures Kept(more, a, b)
  {
  }

  lemma {:induction false} LeftMonotone(nodes: seq<Node>, ids: set<string>, a: map<string, nat>, b: map<string, nat>, maxVisits: int)
    requires Kept(ids, a, b)
    ensures Left(nodes, ids, b, maxVisits) <= Left(nodes, ids, a, maxVisits)
  {
    hide Kept;
    if nodes != [] {
      LeftMonotone(nodes[1..], ids, a, b, maxVisits);
      KeptAt(ids, a, b, nodes[0].nodeId);
    }
  }

  lemma KeptAt(ids: set<string>, a: map<string, nat>, b: map<string, nat>, id: string)
    requires Kept(ids, a, b)
    ensures id !in ids ==> Count(a, id) <= Count(b, id)
  {
  }

  lemma {:induction false} LeftShrinks(nodes: seq<Node>, ids: set<string>, a: map<string, nat>, b: map<string, nat>,
      maxVisits: int, i: nat)
    requires Kept(ids, a, b) && i < |nodes| && nodes[i].nodeId !in ids
    requires Count(a, nodes[i].nodeId) < maxVisits && Count(a, nodes[i].nodeId) < Count(b, nodes[i].nodeId)
    ensures Left(nodes, ids, b, maxVisits) < Left(nodes, ids, a, maxVisits)
  {
    hide Kept;
    if i == 0 {
      LeftMonotone(nodes[1..], ids, a, b, maxVisits);
    } else {
      assert nodes[1..][i - 1] == nodes[i];
      LeftShrinks(nodes[1..], ids, a, b, maxVisits, i - 1);
      KeptAt(ids, a, b, nodes[0].nodeId);
    }
  }

  // ---------------------------------------------------------------- one visit

  lemma ScheduleEnters(p: Project, env: Env, ctx: Context, tick: nat, call: CallIntent, caller: Vars)
    ensures Schedule(p, env, ctx, tick, call, caller).Ok? ==>
      CanEnter(p, Strip(call.functionId)) && Strip(call.functionId) !in ctx.active
  {
    hide ChildVars, Suppliable, Strip;
    var f := Strip(call.functionId);
    if Schedule(p, env, ctx, tick, call, caller).Ok? {
      StripIsTrimmed(call.functionId);
      EnteredIsSuppliable(env, tick, p.tasks[f], call, caller);
    }
  }

  lemma RouteLeads(p: Project, task: Task, i: nat, success: bool, branch: Option<Branch>)
    requires Runs(task, i)
    ensures var m := Route(task, OutEdges(p.edges, task.nodes[i].nodeId), success, branch);
      if m.Goto? then Leads(p, task, i, Landing(task.nodes, m.index)) else m.exit.Ended? || m.exit.Raised?
  {
    hide FindEdgeJump, OutEdges, IndexOf, Landing;
    var out := OutEdges(p.edges, task.nodes[i].nodeId);
    var (port, id) := if branch.Some? then (branch.value.port, branch.value.id) else if success then ("success", "") else ("failure", "");
    PlacesTell(task, FindEdgeJump(out, port, id));
    assert PortPlace(p, task, i, port, id) == PlaceOf(task, FindEdgeJump(out, port, id));
  }

  /** What a visit of an enabled node does to the counters, and where it leads. */
  lemma VisitTrace(p: Project, env: Env, ctx: Context, i: nat, visited: map<string, nat>, vars: Vars, world: World)
    requires Runs(ctx.task, i)
    ensures var v := VisitNode(p, env, ctx, i, visited, vars, world);
      var id := ctx.task.nodes[i].nodeId;
      && Kept({}, visited, v.visited)
      && (v.move.Goto? || v.move.exit.Calling? ==> Count(visited, id) < env.maxVisits && Count(visited, id) < Count(v.visited, id))
      && (v.move.Goto? ==> Leads(p, ctx.task, i, Landing(ctx.task.nodes, v.move.index)))
      && (v.move.Leave? && v.move.exit.Calling? ==>
            && CanEnter(p, v.move.exit.call.functionId) && v.move.exit.call.functionId !in ctx.active
            && v.move.exit.call.jumps == OutcomeJumps(OutEdges(p.edges, id)))
      && !(v.move.Leave? && v.move.exit.FellOff?)
  {
    hide Route, OutEdges, OutcomeJumps, Schedule, Landing, Leads, CanEnter, Strip;
    var (r, vars') := env.exec(world.tick, p.pageMap, ctx.task.nodes[i], vars);
    RouteLeads(p, ctx.task, i, false, None);
    if r.Ran? {
      RouteLeads(p, ctx.task, i, r.success, r.branch);
      if r.call.Some? {
        ScheduleEnters(p, env, ctx, world.tick + 1, r.call.value, vars');
      }
    }
  }

  // ---------------------------------------------------------------- graphs that are never called

  /** No call ever starts `t`: none could, or the environment forwards calls and no node makes that one. */
  ghost predicate NeverCalls(p: Project, env: Env, t: string) {
    !CanEnter(p, t) || (Forwards(env) && !Enterable(p, t))
  }

  lemma VisitNeverCalls(p: Project, env: Env, t: string, s: string, ctx: Context, i: nat, visited: map<string, nat>, vars: Vars, world: World)
    requires NeverCalls(p, env, t) && s in p.tasks && ctx.task == p.tasks[s] && i < |ctx.task.nodes|
    ensures var m := VisitNode(p, env, ctx, i, visited, vars, world).move;
      m.Leave? && m.exit.Calling? ==> m.exit.call.functionId != t
  {
    hide FindEdgeJump, IndexOf, OutEdges, OutcomeJumps, Schedule, Strip, Suppliable;
    var node := ctx.task.nodes[i];
    var (r, vars') := env.exec(world.tick, p.pageMap, node, vars);
    assert env.exec(world.tick, p.pageMap, node, vars).0 == r;
    if r.Ran? && r.call.Some? {
      ScheduleEnters(p, env, ctx, world.tick + 1, r.call.value, vars');
      if Forwards(env) && node.enabled {
        CalledIsEnterable(p, s, i, Strip(r.call.value.functionId));
      }
    }
  }

  lemma CalledIsEnterable(p: Project, s: string, i: nat, f: string)
    requires s in p.tasks && i < |p.tasks[s].nodes|
    ensures CanEnter(p, f) && Calls(p.tasks[s].nodes[i], f) ==> Enterable(p, f)
  {
    hide Suppliable, Strip;
  }

  // ---------------------------------------------------------------- one walk

  /** The walk from node `s` ended at a call made by `y`, and met only nodes in `ids` unless it used up
      a visit that is never forgotten. */
  ghost predicate CalledFrom(p: Project, task: Task, ids: set<string>, s: nat, visited: map<string, nat>, w: Walk, maxVisits: int,
      y: nat)
  {
    && w.exit.Calling?
    && Reaches(p, task, AllIds(task), s, y) && y < |task.nodes|
    && w.exit.call.jumps == OutcomeJumps(OutEdges(p.edges, task.nodes[y].nodeId))
    && (Reaches(p, task, ids, s, y) || Left(task.nodes, ids, w.visited, maxVisits) < Left(task.nodes, ids, visited, maxVisits))
  }

  ghost predicate WalkTrace(p: Project, env: Env, ctx: Context, ids: set<string>, s: nat, visited: map<string, nat>, w: Walk)
    requires s < |ctx.task.nodes|
  {
    var id := ctx.task.nodes[s].nodeId;
    && Kept({}, visited, w.visited)
    && (w.exit.Calling? ==>
          && Count(visited, id) < env.maxVisits && Count(visited, id) < Count(w.visited, id)
          && CanEnter(p, w.exit.call.functionId) && w.exit.call.functionId !in ctx.active
          && exists y: nat :: CalledFrom(p, ctx.task, ids, s, visited, w, env.maxVisits, y))
    && (w.exit.FellOff? ==> FallsFrom(p, ctx.task, At(s)))
  }

  lemma CallAtOnce(p: Project, env: Env, ctx: Context, ids: set<string>, s: nat, visited: map<string, nat>, w: Walk)
    requires Runs(ctx.task, s) && w.exit.Calling? && Kept({}, visited, w.visited)
    requires var id := ctx.task.nodes[s].nodeId;
      && Count(visited, id) < env.maxVisits && Count(visited, id) < Count(w.visited, id)
      && w.exit.call.jumps == OutcomeJumps(OutEdges(p.edges, id))
    ensures CalledFrom(p, ctx.task, ids, s, visited, w, env.maxVisits, s)
  {
    hide Left, OutcomeJumps, OutEdges, Reaches;
    IdOf(ctx.task, s);
    ReachesItself(p, ctx.task, AllIds(ctx.task), s);
    if ctx.task.nodes[s].nodeId in ids {
      ReachesItself(p, ctx.task, ids, s);
    } else {
      KeptWidely({}, ids, visited, w.visited);
      LeftShrinks(ctx.task.nodes, ids, visited, w.visited, env.maxVisits, s);
    }
  }

  lemma CallLater(p: Project, env: Env, ctx: Context, ids: set<string>, s: nat, j: nat, before: map<string, nat>,
      between: map<string, nat>, w: Walk, y: nat)
    requires Runs(ctx.task, s) && Leads(p, ctx.task, s, At(j)) && Kept({}, before, between) && Kept({}, between, w.visited)
    requires var id := ctx.task.nodes[s].nodeId; Count(before, id) < env.maxVisits && Count(before, id) < Count(between, id)
    requires CalledFrom(p, ctx.task, ids, j, between, w, env.maxVisits, y)
    ensures CalledFrom(p, ctx.task, ids, s, before, w, env.maxVisits, y)
  {
    hide Left, OutcomeJumps, OutEdges, Reaches, Leads;
    var nodes := ctx.task.nodes;
    IdOf(ctx.task, s);
    ReachesFirst(p, ctx.task, AllIds(ctx.task), s, j, y);
    KeptWidely({}, ids, before, between);
    KeptWidely({}, ids, between, w.visited);
    LeftMonotone(nodes, ids, before, between, env.maxVisits);
    LeftMonotone(nodes, ids, between, w.visited, env.maxVisits);
    if nodes[s].nodeId !in ids {
      LeftShrinks(nodes, ids, before, between, env.maxVisits, s);
    } else if Reaches(p, ctx.task, ids, j, y) {
      ReachesFirst(p, ctx.task, ids, s, j, y);
    }
  }

  lemma {:induction false} WalkIsTraced(p: Project, env: Env, ctx: Context, ids: set<string>, s: nat, visited: map<string, nat>,
      vars: Vars, world: World)
    requires Runs(ctx.task, s)
    ensures WalkTrace(p, env, ctx, ids, s, visited, WalkGraph(p, env, ctx, s, visited, vars, world))
    decreases Budget(ctx.task.nodes, visited, env.maxVisits)
  {
    hide VisitNode, WalkGraph, CalledFrom, CanEnter, Leads, Landing, FallsFrom, OutcomeJumps, OutEdges, Kept, Budget;
    var w := WalkGraph(p, env, ctx, s, visited, vars, world);
    var v := VisitNode(p, env, ctx, s, visited, vars, world);
    WalkOnce(p, env, ctx, s, visited, vars, world);
    VisitTrace(p, env, ctx, s, visited, vars, world);
    if v.move.Goto? {
      VisitShrinks(p, env, ctx, s, visited, vars, world);
      WalkGoesOn(p, env, ctx, ids, s, visited, vars, world, v, w);
    } else if v.move.exit.Calling? {
      CallAtOnce(p, env, ctx, ids, s, visited, w);
    }
  }

  lemma {:induction false} WalkGoesOn(p: Project, env: Env, ctx: Context, ids: set<string>, s: nat, visited: map<string, nat>,
      vars: Vars, world: World, v: Visit, w: Walk)
    requires Runs(ctx.task, s) && v.move.Goto? && Kept({}, visited, v.visited)
    requires var id := ctx.task.nodes[s].nodeId; Count(visited, id) < env.maxVisits && Count(visited, id) < Count(v.visited, id)
    requires Leads(p, ctx.task, s, Landing(ctx.task.nodes, v.move.index))
    requires w == WalkGraph(p, env, ctx, v.move.index, v.visited, v.vars, v.world)
    requires Budget(ctx.task.nodes, v.visited, env.maxVisits) < Budget(ctx.task.nodes, visited, env.maxVisits)
    ensures WalkTrace(p, env, ctx, ids, s, visited, w)
    decreases Budget(ctx.task.nodes, visited, env.maxVisits), 0
  {
    hide VisitNode, WalkGraph, CalledFrom, CanEnter, Leads, Landing, OutcomeJumps, OutEdges, Kept, Budget, Reaches;
    var place := Landing(ctx.task.nodes, v.move.index);
    WalkFromLanding(p, env, ctx, v.move.index, v.visited, v.vars, v.world);
    LeadsRun(p, ctx.task, s, place);
    IdOf(ctx.task, s);
    ReachesItself(p, ctx.task, AllIds(ctx.task), s);
    if place.At? {
      var j := place.index;
      WalkIsTraced(p, env, ctx, ids, j, v.visited, v.vars, v.world);
      KeptThrough({}, visited, v.visited, w.visited);
      KeptAt({}, v.visited, w.visited, ctx.task.nodes[s].nodeId);
      if w.exit.Calling? {
        var y: nat :| CalledFrom(p, ctx.task, ids, j, v.visited, w, env.maxVisits, y);
        CallLater(p, env, ctx, ids, s, j, visited, v.visited, w, y);
      } else if w.exit.FellOff? {
        FallsFromEarlier(p, ctx.task, s, s, At(j));
      }
    } else {
      LandingIsInside(ctx.task.nodes, v.move.index);
    }
  }

  // ---------------------------------------------------------------- frames

  function TopFrame(c: Config): Frame
    requires c.Live? && c.st.stack != []
  {
    c.st.stack[|c.st.stack| - 1]
  }

  /** Wherever `start` leads, a frame that entered at `e` may be started there. */
  ghost predicate Anchor(p: Project, task: Task, e: Place, start: string) {
    StartPlace(task, start).At? ==> e.At? && Restart(p, task, e.index, StartPlace(task, start).index)
  }

  /** The top frame entered its graph at `e`, where with what is open no loop can be reached. */
  ghost predicate Tame(p: Project, c: Config, e: Place) {
    && Shaped(p, c) && c.Live? && c.st.stack != []
    && TopFrame(c).taskId in p.tasks
    && !Loops(p, p.tasks[TopFrame(c).taskId], ActiveFunctions(c.st.stack), e)
    && Anchor(p, p.tasks[TopFrame(c).taskId], e, TopFrame(c).start)
  }

  ghost predicate CalleesTame(p: Project) {
    forall g :: !LoopingCallee(p, g)
  }

  /** The ids the frame's own first turn resets. */
  function Own(p: Project, f: Frame): set<string>
    requires f.taskId in p.tasks
  {
    if f.started then {} else AllIds(p.tasks[f.taskId])
  }

  /** `after` is the caller `g` once the call that `f` answered has come back with some outcome. */
  ghost predicate Continues(f: Frame, g: Frame, after: Frame, k: string) {
    && k != ""
    && after.taskId == g.taskId && after.isFunction == g.isFunction && after.depth == g.depth
    && after.jumps == g.jumps && after.outs == g.outs && after.started
    && var target := JumpAt(f.jumps, k);
       if target == "" then after.pending.Some? && after.start == g.start else after.start == target && after.pending == g.pending
  }

  ghost predicate ComesBack(f: Frame, g: Frame, after: Frame) {
    exists k :: Continues(f, g, after, k)
  }

  /** No counter has gone down but those that calls which fall off, or `own`, can reset. */
  ghost predicate KeptFalling(p: Project, active: set<string>, own: set<string>, a: map<string, nat>, b: map<string, nat>) {
    forall id :: id !in own && !FallResets(p, active, id) ==> Count(a, id) <= Count(b, id)
  }

  /** The top frame has fallen off its end. */
  ghost predicate FellFrom(p: Project, c: Config, e: Place, d: Config)
    requires c.Live? && c.st.stack != [] && TopFrame(c).taskId in p.tasks && d.Live?
  {
    var f, task := TopFrame(c), p.tasks[TopFrame(c).taskId];
    && f.pending.None? && FallsFrom(p, task, StartPlace(task, f.start))
    && (FallsAfterCall(p, task, e) || KeptFalling(p, ActiveFunctions(c.st.stack), Own(p, f), c.st.visited, d.st.visited))
  }

  /** The top frame is gone: its caller goes on after the call, or starts over because it fell off. */
  ghost predicate Gone(p: Project, c: Config, e: Place, d: Config) {
    && c.Live? && d.Live? && |c.st.stack| > 1 && TopFrame(c).taskId in p.tasks
    && var h := |c.st.stack| - 1;
       && |d.st.stack| == h && d.st.stack[..h - 1] == c.st.stack[..h - 1]
       && Kept(ResetIds(p, ActiveFunctions(c.st.stack)) + Own(p, TopFrame(c)), c.st.visited, d.st.visited)
       && (ComesBack(TopFrame(c), c.st.stack[h - 1], d.st.stack[h - 1])
           || (d.st.stack[h - 1] == c.st.stack[h - 1] && FellFrom(p, c, e, d)))
  }

  ghost predicate Over(p: Project, c: Config, e: Place, d: Config) {
    d.Halted? || Gone(p, c, e, d)
  }

  // ---------------------------------------------------------------- a turn that does not call

  /** What the walk of a frame that has started shows. */
  lemma TopTrace(p: Project, env: Env, c: Config, ids: set<string>)
    requires Shaped(p, c) && c.Live? && TopFrame(c).taskId in p.tasks && TopFrame(c).started
    ensures var f, task, w := TopFrame(c), p.tasks[TopFrame(c).taskId], WalkTop(p, env, c.st);
      && Kept({}, c.st.visited, w.visited)
      && (w.exit.Calling? ==>
            && f.pending.None? && StartPlace(task, f.start).At? && StartPlace(task, f.start).index < |task.nodes|
            && WalkTrace(p, env, ContextOf(p, c.st.stack), ids, StartPlace(task, f.start).index, c.st.visited, w))
      && (w.exit.FellOff? ==> f.pending.None? && FallsFrom(p, task, StartPlace(task, f.start)))
  {
    hide WalkGraph, CalledFrom, CanEnter, FallsFrom, IndexOf, Landing, Reaches, Kept;
    var f, task := TopFrame(c), p.tasks[TopFrame(c).taskId];
    NothingLost(c.st.visited);
    FallsPastEnd(p, task);
    if f.pending.None? && StartIndex(task, f.start).Some? {
      var i, ctx := StartIndex(task, f.start).value, ContextOf(p, c.st.stack);
      PlacesTell(task, f.start);
      LandingIsInside(task.nodes, i);
      assert StartPlace(task, f.start) == Landing(task.nodes, i);
      WalkFromLanding(p, env, ctx, i, c.st.visited, f.vars, c.st.world);
      PlacesRun(task, f.start);
      if StartPlace(task, f.start).At? {
        WalkIsTraced(p, env, ctx, ids, StartPlace(task, f.start).index, c.st.visited, f.vars, c.st.world);
      }
    }
  }

  lemma NothingLost(visited: map<string, nat>)
    ensures Kept({}, visited, visited)
  {
  }

  lemma FallsPastEnd(p: Project, task: Task)
    ensures FallsFrom(p, task, PastEnd)
  {
  }

  lemma Stops(p: Project, env: Env, c: Config, e: Place)
    requires Tame(p, c, e) && TopFrame(c).started && !WalkTop(p, env, c.st).exit.Calling?
    ensures Grounded(c.st)
    ensures Over(p, c, e, Step(p, env, c))
  {
    hide WalkTop, AfterWalk, FallsFrom, Loops, Anchor, Kept, StartPlace, ShapedStack, Gone;
    StepKeepsShape(p, env, c);
    WalkTopCallsKnownFunction(p, env, c.st);
    TopTrace(p, env, c, {});
    StopsAfter(p, c, e, WalkTop(p, env, c.st));
  }

  lemma StopsAfter(p: Project, c: Config, e: Place, w: Walk)
    requires Tame(p, c, e) && TopFrame(c).started && !w.exit.Calling? && Kept({}, c.st.visited, w.visited)
    requires w.exit.FellOff? ==> TopFrame(c).pending.None? && FallsFrom(p, p.tasks[TopFrame(c).taskId], StartPlace(p.tasks[TopFrame(c).taskId], TopFrame(c).start))
    requires w.exit.Returned? ==> TopFrame(c).isFunction
    ensures TopFrame(c).isFunction ==> c.st.stack[..|c.st.stack| - 1] != []
    ensures Over(p, c, e, AfterWalk(p, c.st.stack[..|c.st.stack| - 1], TopFrame(c).(pending := None, started := true), w))
  {
    hide FallsFrom, FallsAfterCall, ResetIds, FallResets, Loops, Anchor, Kept, KeptFalling, ReturnToCaller, StartPlace, Continues, ActiveFunctions;
    var stack, h := c.st.stack, |c.st.stack| - 1;
    var below, f := stack[..h], stack[h].(pending := None, started := true);
    assert WellPlaced(p, stack[h], h);
    KeptWidely({}, ResetIds(p, ActiveFunctions(stack)) + Own(p, TopFrame(c)), c.st.visited, w.visited);
    KeptAnyway(p, ActiveFunctions(stack), Own(p, TopFrame(c)), c.st.visited, w.visited);
    if h > 0 {
      assert below[..h - 1] == stack[..h - 1] && below[h - 1] == stack[h - 1];
      if !w.exit.FellOff? {
        var r := if w.exit.Returned? then w.exit.result else NO_RESULT;
        var world := if w.exit.Returned? then w.world else if w.exit.Raised? then Logged(w.world, w.exit.error) else Logged(w.world, NoReturnPath);
        assert Waiting(stack[h - 1]);
        ReturnComesBack(below, f, TopFrame(c), w.vars, r, w.visited, world);
      }
    }
  }

  lemma KeptAnyway(p: Project, active: set<string>, own: set<string>, a: map<string, nat>, b: map<string, nat>)
    requires Kept({}, a, b)
    ensures KeptFalling(p, active, own, a, b)
  {
    hide FallResets;
  }

  lemma ReturnComesBack(below: seq<Frame>, f: Frame, g: Frame, vars: Vars, r: FnResult, visited: map<string, nat>, world: World)
    requires below != [] && Waiting(below[|below| - 1]) && f.jumps == g.jumps
    ensures var d := ReturnToCaller(below, f, vars, r, visited, world);
      d.Live? ==>
        && |d.st.stack| == |below| && d.st.stack[..|below| - 1] == below[..|below| - 1] && d.st.visited == visited
        && ComesBack(g, below[|below| - 1], d.st.stack[|below| - 1])
  {
    hide MergeBack;
    var d := ReturnToCaller(below, f, vars, r, visited, world);
    if d.Live? {
      assert Continues(g, below[|below| - 1], d.st.stack[|below| - 1], OutcomeOf(r));
    }
  }

  // ---------------------------------------------------------------- a turn that calls

  /** `d` is `c` one turn later: its top frame has called `g` from node `y`. */
  ghost predicate Called(p: Project, env: Env, c: Config, d: Config, g: string, y: nat)
    requires c.Live? && c.st.stack != [] && TopFrame(c).taskId in p.tasks
  {
    var f, task, h := TopFrame(c), p.tasks[TopFrame(c).taskId], |c.st.stack| - 1;
    var ids := ResetIds(p, ActiveFunctions(c.st.stack));
    && d.Live? && |d.st.stack| == h + 2 && d.st.stack[..h] == c.st.stack[..h]
    && d.st.stack[h] == f.(vars := d.st.stack[h].vars, pending := None, started := true)
    && CanEnter(p, g) && g in p.tasks && g !in ActiveFunctions(c.st.stack)
    && TopFrame(d).taskId == g && !TopFrame(d).started && TopFrame(d).start == p.tasks[g].entry
    && ActiveFunctions(d.st.stack) == ActiveFunctions(c.st.stack) + {g}
    && Kept({}, c.st.visited, d.st.visited)
    && y < |task.nodes| && TopFrame(d).jumps == OutcomeJumps(OutEdges(p.edges, task.nodes[y].nodeId))
    && f.pending.None? && StartPlace(task, f.start).At?
    && var s := StartPlace(task, f.start).index;
       && s < |task.nodes| && Reaches(p, task, AllIds(task), s, y)
       && (Reaches(p, task, ids, s, y) || Left(task.nodes, ids, d.st.visited, env.maxVisits) < Left(task.nodes, ids, c.st.visited, env.maxVisits))
       && Count(c.st.visited, task.nodes[s].nodeId) < env.maxVisits
       && Count(c.st.visited, task.nodes[s].nodeId) < Count(d.st.visited, task.nodes[s].nodeId)
  }

  lemma PushedActive(stack: seq<Frame>, f: Frame, callee: Frame)
    requires stack != [] && callee.isFunction
    requires f.taskId == stack[|stack| - 1].taskId && f.isFunction == stack[|stack| - 1].isFunction
    ensures ActiveFunctions(stack[..|stack| - 1] + [f, callee]) == ActiveFunctions(stack) + {callee.taskId}
  {
    SameActive(stack, f);
    var below := stack[..|stack| - 1] + [f];
    var all := stack[..|stack| - 1] + [f, callee];
    assert all == below + [callee];
    forall x | x in ActiveFunctions(below) ensures x in ActiveFunctions(all) {
      var i :| 0 <= i < |below| && below[i].isFunction && below[i].taskId == x;
      assert all[i] == below[i];
    }
    assert all[|below|] == callee;
  }

  lemma MakesCall(p: Project, env: Env, c: Config, e: Place) returns (g: string, y: nat)
    requires Tame(p, c, e) && TopFrame(c).started && WalkTop(p, env, c.st).exit.Calling?
    ensures Grounded(c.st)
    ensures Called(p, env, c, Step(p, env, c), g, y)
  {
    hide WalkTop, AfterWalk, Loops, Anchor, Kept, CanEnter, Reaches, StartPlace, ResetIds, CalledFrom, ShapedStack, Called;
    StepKeepsShape(p, env, c);
    WalkTopCallsKnownFunction(p, env, c.st);
    var w, f, task := WalkTop(p, env, c.st), TopFrame(c), p.tasks[TopFrame(c).taskId];
    var ids := ResetIds(p, ActiveFunctions(c.st.stack));
    TopTrace(p, env, c, ids);
    g := w.exit.call.functionId;
    y :| CalledFrom(p, task, ids, StartPlace(task, f.start).index, c.st.visited, w, env.maxVisits, y);
    CallPushes(p, env, c, w, y);
  }

  lemma CallPushes(p: Project, env: Env, c: Config, w: Walk, y: nat)
    requires c.Live? && c.st.stack != [] && TopFrame(c).taskId in p.tasks && w.exit.Calling?
    requires TopFrame(c).isFunction ==> |c.st.stack| > 1
    requires var f, task := TopFrame(c), p.tasks[TopFrame(c).taskId];
      && f.pending.None? && StartPlace(task, f.start).At? && StartPlace(task, f.start).index < |task.nodes|
      && w.exit.call.functionId in p.tasks
      && var s := StartPlace(task, f.start).index;
         && WalkTrace(p, env, ContextOf(p, c.st.stack), ResetIds(p, ActiveFunctions(c.st.stack)), s, c.st.visited, w)
         && CalledFrom(p, task, ResetIds(p, ActiveFunctions(c.st.stack)), s, c.st.visited, w, env.maxVisits, y)
    ensures Called(p, env, c, AfterWalk(p, c.st.stack[..|c.st.stack| - 1], TopFrame(c).(pending := None, started := true), w), w.exit.call.functionId, y)
  {
    hide Kept, CanEnter, Left, Reaches, OutcomeJumps, OutEdges, StartPlace, ResetIds, ActiveFunctions;
    var f' := TopFrame(c).(vars := w.vars, pending := None, started := true);
    PushedActive(c.st.stack, f', CalleeFrame(p, w.exit.call, f'.depth + 1));
  }

  /** A function that is called starts in a tame frame. */
  lemma CalleeIsTame(p: Project, env: Env, c: Config, d: Config, g: string, y: nat)
    requires c.Live? && c.st.stack != [] && TopFrame(c).taskId in p.tasks && Called(p, env, c, d, g, y)
    requires Shaped(p, d) && CalleesTame(p)
    ensures Tame(p, d, EntryPlace(p, g))
  {
    hide Loops, Kept, CanEnter, Left, Reaches, OutcomeJumps, OutEdges, ResetIds, StartPlace;
    assert !LoopingCallee(p, g);
    var active := ActiveFunctions(d.st.stack);
    if Loops(p, p.tasks[g], active, EntryPlace(p, g)) {
      FewerLoops(p, p.tasks[g], {g}, active, EntryPlace(p, g));
    }
    PlacesRun(p.tasks[g], p.tasks[g].entry);
  }

  // ---------------------------------------------------------------- what a round uses up

  ghost function ReachSet(p: Project, task: Task, ids: set<string>, i: nat): set<nat> {
    set j: nat | 0 <= j < |task.nodes| && Reaches(p, task, ids, i, j)
  }

  /** How much of the resettable part of the graph a frame can still get to. */
  ghost function Rank(p: Project, task: Task, ids: set<string>, f: Frame): nat {
    var place := StartPlace(task, f.start);
    if f.pending.Some? || !place.At? || place.index >= |task.nodes| || task.nodes[place.index].nodeId !in ids then 0
    else |ReachSet(p, task, ids, place.index)|
  }

  /** Visits left on the node the frame started from. */
  function Due(task: Task, visited: map<string, nat>, maxVisits: int, f: Frame): nat {
    var place := StartPlace(task, f.start);
    if !place.At? || place.index >= |task.nodes| then 0
    else
      var used := Count(visited, task.nodes[place.index].nodeId);
      if used < maxVisits then maxVisits - used else 0
  }

  lemma {:induction false} SmallerSet(a: set<nat>, b: set<nat>)
    requires a < b
    ensures |a| < |b|
  {
    assert b == a + (b - a);
    assert |b - a| > 0;
  }

  lemma ClosesCycle(p: Project, task: Task, active: set<string>, e: Place, s: nat, y: nat, j: nat)
    requires e.At? && Restart(p, task, e.index, s)
    requires Reaches(p, task, ResetIds(p, active), s, y) && LeadsBack(p, task, y, At(j))
    requires Reaches(p, task, ResetIds(p, active), s, j) && Reaches(p, task, ResetIds(p, active), j, s)
    ensures Loops(p, task, active, e)
  {
    hide Reaches, LeadsBack, ResetIds, Restart;
    ReachesThrough(p, task, ResetIds(p, active), j, s, y);
    RestartIsReached(p, task, e.index, s);
    ReachesAtAll(p, task, ResetIds(p, active), s, j);
    ReachesThrough(p, task, AllIds(task), e.index, s, j);
    assert CycleAt(p, task, active, e.index, j, y);
  }

  /** Going round without a cycle, the part within reach shrinks. */
  lemma RankShrinks(p: Project, task: Task, active: set<string>, e: Place, s: nat, y: nat, j: nat)
    requires !Loops(p, task, active, e) && e.At? && Restart(p, task, e.index, s)
    requires Reaches(p, task, ResetIds(p, active), s, y) && LeadsBack(p, task, y, At(j))
    requires Runs(task, j) && task.nodes[j].nodeId in ResetIds(p, active)
    ensures |ReachSet(p, task, ResetIds(p, active), j)| < |ReachSet(p, task, ResetIds(p, active), s)|
  {
    hide Reaches, LeadsBack, Leads, ResetIds, FallResets, Restart;
    var ids := ResetIds(p, active);
    BackIsALead(p, task, y, At(j));
    ReachesLast(p, task, ids, s, y, j);
    var a, b := ReachSet(p, task, ids, j), ReachSet(p, task, ids, s);
    forall k | k in a ensures k in b {
      ReachesThrough(p, task, ids, s, j, k);
    }
    ReachEnds(p, task, ids, s, y);
    ReachesItself(p, task, ids, s);
    if Reaches(p, task, ids, j, s) { ClosesCycle(p, task, active, e, s, y, j); }
    assert s in b && s !in a;
    SmallerSet(a, b);
  }

  lemma RestartIsReached(p: Project, task: Task, e: nat, s: nat)
    requires Restart(p, task, e, s)
    ensures Reaches(p, task, AllIds(task), e, s)
  {
    hide Reaches, Leads;
    IdOf(task, s);
    if s == e {
      ReachesItself(p, task, AllIds(task), s);
    } else {
      var y: nat :| Reaches(p, task, AllIds(task), e, y) && LeadsBack(p, task, y, At(s));
      BackIsALead(p, task, y, At(s));
      ReachesLast(p, task, AllIds(task), e, y, s);
    }
  }

  lemma RankOfResettable(p: Project, task: Task, ids: set<string>, s: nat, y: nat)
    requires Reaches(p, task, ids, s, y) && s < |task.nodes|
    ensures |ReachSet(p, task, ids, s)| > 0 && task.nodes[s].nodeId in ids
  {
    hide Reaches;
    ReachEnds(p, task, ids, s, y);
    ReachesItself(p, task, ids, s);
    assert s in ReachSet(p, task, ids, s);
  }

  // ---------------------------------------------------------------- a call and its return

  /** From `c` to `d` the same frame is on top: in between it has made one call. */
  ghost predicate Round(p: Project, c: Config, e: Place, d: Config)
    requires c.Live? && c.st.stack != [] && TopFrame(c).taskId in p.tasks
  {
    var f, task, h := TopFrame(c), p.tasks[TopFrame(c).taskId], |c.st.stack| - 1;
    && d.Live? && |d.st.stack| == h + 1 && d.st.stack[..h] == c.st.stack[..h]
    && var f' := TopFrame(d);
       && f'.taskId == f.taskId && f'.isFunction == f.isFunction && f'.depth == f.depth && f'.jumps == f.jumps && f'.outs == f.outs
       && f'.started
       && Kept(ResetIds(p, ActiveFunctions(c.st.stack)), c.st.visited, d.st.visited)
       && ((f'.start == f.start && f'.pending.None? && KeptFalling(p, ActiveFunctions(c.st.stack), {}, c.st.visited, d.st.visited))
           || f'.pending.Some?
           || FollowsOutcome(p, task, StartPlace(task, f.start), StartPlace(task, f'.start)))
  }

  /** From `s` a walk gets to a call one of whose outcomes leads to `q`. */
  ghost predicate FollowsOutcome(p: Project, task: Task, s: Place, q: Place) {
    s.At? && exists y: nat :: Reaches(p, task, AllIds(task), s.index, y) && LeadsBack(p, task, y, q)
  }

  /** While a callee that fell off was open, only what such callees can reset was reset. */
  lemma FallKeeps(p: Project, active: set<string>, g: string, c: Config, d: Config)
    requires c.Live? && d.Live? && c.st.stack != [] && TopFrame(c).taskId == g && !TopFrame(c).started
    requires CanEnter(p, g) && g in p.tasks && g !in active && TopFrame(c).start == p.tasks[g].entry
    requires ActiveFunctions(c.st.stack) == active + {g}
    requires FellFrom(p, c, EntryPlace(p, g), d) && Kept(ResetIds(p, active + {g}) + AllIds(p.tasks[g]), c.st.visited, d.st.visited)
    ensures KeptFalling(p, active, {}, c.st.visited, d.st.visited)
  {
    hide CanEnter, ResetIds, FallsAfterCall, FallsFrom, StartPlace, NodeIds;
    FewerResets(p, active, active + {g});
    forall id | !FallResets(p, active, id) ensures Count(c.st.visited, id) <= Count(d.st.visited, id) {
      assert !FallResetsBy(p, active, id, g);
      assert !FallResets(p, active + {g}, id);
    }
  }

  lemma OutcomeIsFollowed(p: Project, task: Task, s: nat, y: nat, f: Frame, g: Frame, after: Frame)
    requires Reaches(p, task, AllIds(task), s, y) && y < |task.nodes|
    requires f.jumps == OutcomeJumps(OutEdges(p.edges, task.nodes[y].nodeId)) && ComesBack(f, g, after) && g.pending.None?
    ensures (after.pending.Some? && after.start == g.start) ||
      (LeadsBack(p, task, y, StartPlace(task, after.start)) && FollowsOutcome(p, task, At(s), StartPlace(task, after.start)))
  {
    hide Reaches, OutcomeJumps, OutEdges, FindEdgeJump;
    ReachEnds(p, task, AllIds(task), s, y);
    var k :| Continues(f, g, after, k);
    var out := OutEdges(p.edges, task.nodes[y].nodeId);
    OutcomeJumpAt(out, k);
    if JumpAt(f.jumps, k) != "" {
      assert PortPlace(p, task, y, "", k) == StartPlace(task, after.start);
    }
  }

  /** The callee fell off, or left its caller with a completion, or with a place to go on at. */
  ghost predicate CameBack(p: Project, c: Config, y: nat, d1: Config, d2: Config)
    requires c.Live? && c.st.stack != [] && TopFrame(c).taskId in p.tasks && d1.Live? && d2.Live? && d2.st.stack != []
  {
    var f, f', task := TopFrame(c), TopFrame(d2), p.tasks[TopFrame(c).taskId];
    || (f'.start == f.start && f'.pending.None? && KeptFalling(p, ActiveFunctions(c.st.stack), {}, d1.st.visited, d2.st.visited))
    || (f'.start == f.start && f'.pending.Some?)
    || LeadsBack(p, task, y, StartPlace(task, f'.start))
  }

  lemma CalleeReturns(p: Project, env: Env, c: Config, e: Place, d1: Config, g: string, y: nat, d2: Config)
    requires Tame(p, c, e) && TopFrame(c).started && Called(p, env, c, d1, g, y)
    requires Gone(p, d1, EntryPlace(p, g), d2)
    ensures Round(p, c, e, d2)
    ensures CameBack(p, c, y, d1, d2)
    ensures Kept(ResetIds(p, ActiveFunctions(c.st.stack)), d1.st.visited, d2.st.visited)
  {
    hide Shaped, Loops, Anchor, CanEnter, Left, Reaches, OutcomeJumps, OutEdges, ResetIds, StartPlace, Kept, KeptFalling, LeadsBack, FellFrom, ComesBack, NodeIds;
    var active, task, h := ActiveFunctions(c.st.stack), p.tasks[TopFrame(c).taskId], |c.st.stack| - 1;
    CalleeResets(p, active, g);
    KeptWidely(ResetIds(p, active + {g}) + AllIds(p.tasks[g]), ResetIds(p, active), d1.st.visited, d2.st.visited);
    KeptWidely({}, ResetIds(p, active), c.st.visited, d1.st.visited);
    KeptThrough(ResetIds(p, active), c.st.visited, d1.st.visited, d2.st.visited);
    assert d2.st.stack[..h] == d1.st.stack[..h] == c.st.stack[..h];
    if ComesBack(TopFrame(d1), d1.st.stack[h], d2.st.stack[h]) {
      OutcomeIsFollowed(p, task, StartPlace(task, TopFrame(c).start).index, y, TopFrame(d1), d1.st.stack[h], d2.st.stack[h]);
      SameAfterCall(TopFrame(d1), d1.st.stack[h], d2.st.stack[h]);
    } else {
      FallKeeps(p, active, g, d1, d2);
      KeptAnyway(p, active, {}, c.st.visited, d1.st.visited);
      KeptFallingThrough(p, active, c.st.visited, d1.st.visited, d2.st.visited);
    }
  }

  lemma KeptFallingThrough(p: Project, active: set<string>, a: map<string, nat>, b: map<string, nat>, c: map<string, nat>)
    requires KeptFalling(p, active, {}, a, b) && KeptFalling(p, active, {}, b, c)
    ensures KeptFalling(p, active, {}, a, c)
  {
    hide FallResets;
    forall id | !FallResets(p, active, id) ensures Count(a, id) <= Count(c, id) {
      assert Count(a, id) <= Count(b, id) && Count(b, id) <= Count(c, id);
    }
  }

  lemma SameAfterCall(f: Frame, g: Frame, after: Frame)
    requires ComesBack(f, g, after)
    ensures after.taskId == g.taskId && after.isFunction == g.isFunction && after.depth == g.depth && after.started
    ensures after.jumps == g.jumps && after.outs == g.outs
  {
  }

  lemma StaysTame(p: Project, env: Env, c: Config, e: Place, d1: Config, g: string, y: nat, d2: Config)
    requires Tame(p, c, e) && TopFrame(c).started && Called(p, env, c, d1, g, y)
    requires Round(p, c, e, d2) && CameBack(p, c, y, d1, d2) && Shaped(p, d2)
    ensures Tame(p, d2, e) && ActiveFunctions(d2.st.stack) == ActiveFunctions(c.st.stack)
  {
    hide Loops, CanEnter, Left, Reaches, OutcomeJumps, OutEdges, ResetIds, StartPlace, Kept, KeptFalling, LeadsBack, NodeIds, ShapedStack;
    var task, h := p.tasks[TopFrame(c).taskId], |c.st.stack| - 1;
    SameActive(c.st.stack, TopFrame(d2));
    assert d2.st.stack == c.st.stack[..h] + [TopFrame(d2)];
    var q, s := StartPlace(task, TopFrame(d2).start), StartPlace(task, TopFrame(c).start);
    if LeadsBack(p, task, y, q) {
      RestartIsReached(p, task, e.index, s.index);
      ReachesThrough(p, task, AllIds(task), e.index, s.index, y);
      PlacesRun(task, TopFrame(d2).start);
    }
  }

  /** A call and its return use something up: a visit for good, or part of what is within reach, or a
      visit of the node the frame starts over from. */
  ghost predicate UsedUp(p: Project, env: Env, c: Config, d: Config)
    requires c.Live? && c.st.stack != [] && TopFrame(c).taskId in p.tasks && d.Live? && d.st.stack != []
  {
    var task, ids, m := p.tasks[TopFrame(c).taskId], ResetIds(p, ActiveFunctions(c.st.stack)), env.maxVisits;
    var before, after := Left(task.nodes, ids, c.st.visited, m), Left(task.nodes, ids, d.st.visited, m);
    || after < before
    || (after == before && Rank(p, task, ids, TopFrame(d)) < Rank(p, task, ids, TopFrame(c)))
    || (after == before && Rank(p, task, ids, TopFrame(d)) == Rank(p, task, ids, TopFrame(c))
        && Due(task, d.st.visited, m, TopFrame(d)) < Due(task, c.st.visited, m, TopFrame(c)))
  }

  lemma RoundUsesUp(p: Project, env: Env, c: Config, e: Place, d1: Config, g: string, y: nat, d2: Config)
    requires Tame(p, c, e) && TopFrame(c).started && Called(p, env, c, d1, g, y)
    requires d2.Live? && d2.st.stack != [] && CameBack(p, c, y, d1, d2)
    requires Kept(ResetIds(p, ActiveFunctions(c.st.stack)), d1.st.visited, d2.st.visited)
    ensures UsedUp(p, env, c, d2)
  {
    hide Loops, CanEnter, Left, Reaches, OutcomeJumps, OutEdges, StartPlace, Kept, KeptFalling, LeadsBack, NodeIds, ShapedStack, ReachSet, Rank, Due;
    var task, active := p.tasks[TopFrame(c).taskId], ActiveFunctions(c.st.stack);
    var ids, m := ResetIds(p, active), env.maxVisits;
    KeptWidely({}, ids, c.st.visited, d1.st.visited);
    LeftMonotone(task.nodes, ids, c.st.visited, d1.st.visited, m);
    LeftMonotone(task.nodes, ids, d1.st.visited, d2.st.visited, m);
    if Left(task.nodes, ids, d1.st.visited, m) == Left(task.nodes, ids, c.st.visited, m) {
      var s := StartPlace(task, TopFrame(c).start).index;
      assert Reaches(p, task, ids, s, y);
      RoundRanks(p, task, active, e, TopFrame(c), TopFrame(d2), s, y);
      if TopFrame(d2).start == TopFrame(c).start && TopFrame(d2).pending.None? {
        if !LeadsBack(p, task, y, StartPlace(task, TopFrame(d2).start)) {
          DueShrinks(p, task, active, e, c.st.visited, d1.st.visited, d2.st.visited, m, TopFrame(c), TopFrame(d2));
        }
      }
    }
  }

  lemma RoundRanks(p: Project, task: Task, active: set<string>, e: Place, f: Frame, f': Frame, s: nat, y: nat)
    requires !Loops(p, task, active, e) && Anchor(p, task, e, f.start)
    requires f.pending.None? && StartPlace(task, f.start) == At(s) && s < |task.nodes| && Reaches(p, task, ResetIds(p, active), s, y)
    ensures var ids := ResetIds(p, active);
      if f'.pending.Some? || LeadsBack(p, task, y, StartPlace(task, f'.start)) then Rank(p, task, ids, f') < Rank(p, task, ids, f)
      else f'.start == f.start ==> Rank(p, task, ids, f') == Rank(p, task, ids, f)
  {
    hide Loops, Reaches, StartPlace, LeadsBack, ReachSet, ResetIds, Restart;
    var ids, q := ResetIds(p, active), StartPlace(task, f'.start);
    RankOfResettable(p, task, ids, s, y);
    if f'.pending.None? && LeadsBack(p, task, y, q) && q.At? && q.index < |task.nodes| && task.nodes[q.index].nodeId in ids {
      PlacesRun(task, f'.start);
      RankShrinks(p, task, active, e, s, y, q.index);
    }
  }

  lemma DueShrinks(p: Project, task: Task, active: set<string>, e: Place, a: map<string, nat>, b: map<string, nat>, c: map<string, nat>,
      maxVisits: int, f: Frame, f': Frame)
    requires !Loops(p, task, active, e) && Anchor(p, task, e, f.start) && f'.start == f.start
    requires StartPlace(task, f.start).At? && StartPlace(task, f.start).index < |task.nodes|
    requires var id := task.nodes[StartPlace(task, f.start).index].nodeId; Count(a, id) < maxVisits && Count(a, id) < Count(b, id)
    requires KeptFalling(p, active, {}, b, c)
    ensures Due(task, c, maxVisits, f') < Due(task, a, maxVisits, f)
  {
    hide FallResets, Restart, StartPlace;
    var s := StartPlace(task, f.start).index;
    assert !FallBackAt(p, task, active, e.index, s);
  }

  /** What is true of the rest of the activation is true of all of it. */
  lemma RoundThenGone(p: Project, c: Config, e: Place, d: Config, z: Config)
    requires Tame(p, c, e) && TopFrame(c).started && TopFrame(c).pending.None? && Round(p, c, e, d)
    requires ActiveFunctions(d.st.stack) == ActiveFunctions(c.st.stack) && TopFrame(d).taskId in p.tasks
    requires Gone(p, d, e, z)
    ensures Gone(p, c, e, z)
  {
    hide Shaped, Loops, Reaches, ResetIds, StartPlace, Kept, KeptFalling, LeadsBack, NodeIds, FallsFrom, FallsAfterCall, Restart, FollowsOutcome;
    var h, active := |c.st.stack| - 1, ActiveFunctions(c.st.stack);
    var f, f', task := TopFrame(c), TopFrame(d), p.tasks[TopFrame(c).taskId];
    NoMore(ResetIds(p, active));
    KeptThrough(ResetIds(p, active), c.st.visited, d.st.visited, z.st.visited);
    assert z.st.stack[..h - 1] == d.st.stack[..h - 1] == d.st.stack[..h][..h - 1] == c.st.stack[..h][..h - 1] == c.st.stack[..h - 1];
    assert d.st.stack[h - 1] == d.st.stack[..h][h - 1] == c.st.stack[h - 1];
    if ComesBack(f', d.st.stack[h - 1], z.st.stack[h - 1]) {
      SameJumps(f, f', c.st.stack[h - 1], z.st.stack[h - 1]);
    } else {
      FallsThrough(p, c, e, d, z);
    }
  }

  lemma NoMore(ids: set<string>)
    ensures ids + {} == ids
  {
  }

  lemma SameJumps(f: Frame, f': Frame, g: Frame, after: Frame)
    requires f.jumps == f'.jumps && ComesBack(f', g, after)
    ensures ComesBack(f, g, after)
  {
    var k :| Continues(f', g, after, k);
    assert Continues(f, g, after, k);
  }

  lemma FallsThrough(p: Project, c: Config, e: Place, d: Config, z: Config)
    requires Tame(p, c, e) && TopFrame(c).started && TopFrame(c).pending.None? && Round(p, c, e, d)
    requires ActiveFunctions(d.st.stack) == ActiveFunctions(c.st.stack) && TopFrame(d).taskId in p.tasks && z.Live?
    requires FellFrom(p, d, e, z)
    ensures FellFrom(p, c, e, z)
  {
    hide Shaped, Loops, Reaches, ResetIds, StartPlace, Kept, KeptFalling, LeadsBack, NodeIds, FallsFrom, Restart;
    var task, active := p.tasks[TopFrame(c).taskId], ActiveFunctions(c.st.stack);
    var s, q := StartPlace(task, TopFrame(c).start), StartPlace(task, TopFrame(d).start);
    if TopFrame(d).start == TopFrame(c).start && KeptFalling(p, active, {}, c.st.visited, d.st.visited) {
      if KeptFalling(p, active, {}, d.st.visited, z.st.visited) {
        KeptFallingThrough(p, active, c.st.visited, d.st.visited, z.st.visited);
      }
    } else {
      var y: nat :| Reaches(p, task, AllIds(task), s.index, y) && LeadsBack(p, task, y, q);
      FallsAfterFollowing(p, task, e, s.index, y, q);
    }
  }

  lemma FallsAfterFollowing(p: Project, task: Task, e: Place, s: nat, y: nat, q: Place)
    requires e.At? && Restart(p, task, e.index, s)
    requires Reaches(p, task, AllIds(task), s, y) && LeadsBack(p, task, y, q) && FallsFrom(p, task, q)
    ensures FallsFrom(p, task, At(s)) && FallsAfterCall(p, task, e)
  {
    hide Reaches, FallsFrom, Leads;
    BackIsALead(p, task, y, q);
    LeadsRun(p, task, y, q);
    FallsFromEarlier(p, task, s, y, q);
    RestartIsReached(p, task, e.index, s);
    ReachesThrough(p, task, AllIds(task), e.index, s, y);
  }

  // ---------------------------------------------------------------- every activation ends

  /** The configuration a frame's first turn sees: started, and its own counters reset. */
  function Begun(p: Project, c: Config): Config
    requires c.Live? && c.st.stack != [] && TopFrame(c).taskId in p.tasks
  {
    var f := TopFrame(c);
    if f.started then c
    else Live(c.st.(stack := c.st.stack[..|c.st.stack| - 1] + [f.(started := true)], visited := Without(c.st.visited, AllIds(p.tasks[f.taskId]))))
  }

  lemma BeginsAlike(p: Project, env: Env, c: Config, e: Place)
    requires Tame(p, c, e)
    ensures Tame(p, Begun(p, c), e) && TopFrame(Begun(p, c)).started
    ensures Grounded(c.st) && Grounded(Begun(p, c).st)
    ensures Step(p, env, Begun(p, c)) == Step(p, env, c)
    ensures ActiveFunctions(Begun(p, c).st.stack) == ActiveFunctions(c.st.stack)
  {
    hide Loops, WalkGraph, AfterWalk, ShapedStack, Restart, StartPlace, StartIndex;
    var f, d := TopFrame(c), Begun(p, c);
    if !f.started {
      ReplaceTopKeepsShape(p, c.st.stack, f.(started := true));
      SameActive(c.st.stack, f.(started := true));
    }
    StepKeepsShape(p, env, c);
    StepKeepsShape(p, env, d);
    assert d.st.stack[..|d.st.stack| - 1] == c.st.stack[..|c.st.stack| - 1];
  }

  lemma GoneFromBegun(p: Project, c: Config, e: Place, z: Config)
    requires c.Live? && c.st.stack != [] && TopFrame(c).taskId in p.tasks
    requires Gone(p, Begun(p, c), e, z) && ActiveFunctions(Begun(p, c).st.stack) == ActiveFunctions(c.st.stack)
    ensures Gone(p, c, e, z)
  {
    hide ResetIds, FallResets, FallsFrom, FallsAfterCall, StartPlace, ActiveFunctions, NodeIds;
    var d, h := Begun(p, c), |c.st.stack| - 1;
    if !TopFrame(c).started {
      assert d.st.stack[..h - 1] == c.st.stack[..h - 1] && d.st.stack[h - 1] == c.st.stack[h - 1];
      if ComesBack(TopFrame(d), d.st.stack[h - 1], z.st.stack[h - 1]) {
        SameJumps(TopFrame(c), TopFrame(d), c.st.stack[h - 1], z.st.stack[h - 1]);
      }
    }
  }

  /** With nothing to loop through, the top frame's activation ends: the run stops, or the frame is gone
      and what its caller may rely on is kept. */
  lemma {:induction false} Concludes(p: Project, env: Env, c: Config, e: Place) returns (n: nat)
    requires Tame(p, c, e) && CalleesTame(p)
    ensures n > 0 && Over(p, c, e, Run(p, env, n, c))
    decreases MAX_CALL_DEPTH + 1 - |c.st.stack|, 1, 0, 0, 0
  {
    hide Tame, CalleesTame, Gone, Step, Run, Begun;
    TameFacts(p, c, e);
    BeginsAlike(p, env, c, e);
    var d := Begun(p, c);
    BegunHeight(p, c);
    TameFacts(p, d, e);
    n := ConcludesBegun(p, env, d, e);
    RunFirst(p, env, n, c);
    RunFirst(p, env, n, d);
    if Gone(p, d, e, Run(p, env, n, d)) { GoneFromBegun(p, c, e, Run(p, env, n, d)); }
  }

  lemma BegunHeight(p: Project, c: Config)
    requires c.Live? && c.st.stack != [] && TopFrame(c).taskId in p.tasks
    ensures Begun(p, c).Live? && |Begun(p, c).st.stack| == |c.st.stack|
  {
  }

  lemma TameFacts(p: Project, c: Config, e: Place)
    requires Tame(p, c, e)
    ensures Shaped(p, c) && c.Live? && 0 < |c.st.stack| <= MAX_CALL_DEPTH + 1 && TopFrame(c).taskId in p.tasks
  {
  }

  lemma RunFirst(p: Project, env: Env, n: nat, c: Config)
    requires Shaped(p, c) && n > 0
    ensures c.Live? ==> Grounded(c.st)
    ensures Shaped(p, Step(p, env, c)) && Run(p, env, n, c) == Run(p, env, n - 1, Step(p, env, c))
  {
    StepKeepsShape(p, env, c);
  }

  lemma {:induction false} ConcludesBegun(p: Project, env: Env, c: Config, e: Place) returns (n: nat)
    requires Tame(p, c, e) && CalleesTame(p) && c.Live? && c.st.stack != [] && TopFrame(c).started && TopFrame(c).taskId in p.tasks
    ensures Shaped(p, c)
    ensures n > 0 && Over(p, c, e, Run(p, env, n, c))
    decreases MAX_CALL_DEPTH + 1 - |c.st.stack|, 0,
      Left(p.tasks[TopFrame(c).taskId].nodes, ResetIds(p, ActiveFunctions(c.st.stack)), c.st.visited, env.maxVisits),
      Rank(p, p.tasks[TopFrame(c).taskId], ResetIds(p, ActiveFunctions(c.st.stack)), TopFrame(c)),
      Due(p.tasks[TopFrame(c).taskId], c.st.visited, env.maxVisits, TopFrame(c))
  {
    hide Tame, CalleesTame, Gone, Step, Run, WalkTop, Called, Round, CameBack, Left, Rank, Due, ResetIds, EntryPlace;
    TameFacts(p, c, e);
    RunOne(p, env, c);
    var d1 := Step(p, env, c);
    if !WalkTop(p, env, c.st).exit.Calling? {
      n := 1;
      Stops(p, env, c, e);
    } else {
      var g, y := MakesCall(p, env, c, e);
      StepKeepsShape(p, env, c);
      CalleeIsTame(p, env, c, d1, g, y);
      CalledHeight(p, env, c, d1, g, y);
      var n1 := Concludes(p, env, d1, EntryPlace(p, g));
      var d2 := Run(p, env, n1, d1);
      RunFirst(p, env, n1 + 1, c);
      if d2.Halted? {
        n := n1 + 1;
      } else {
        CalleeReturns(p, env, c, e, d1, g, y, d2);
        StaysTame(p, env, c, e, d1, g, y, d2);
        RoundHeight(p, c, e, d2);
        RoundUsesUp(p, env, c, e, d1, g, y, d2);
        var n2 := ConcludesBegun(p, env, d2, e);
        RunAdds(p, env, n1 + 1, n2, c);
        n := n1 + 1 + n2;
        if Gone(p, d2, e, Run(p, env, n2, d2)) {
          RoundThenGone(p, c, e, d2, Run(p, env, n2, d2));
        }
      }
    }
  }

  lemma CalledHeight(p: Project, env: Env, c: Config, d: Config, g: string, y: nat)
    requires c.Live? && c.st.stack != [] && TopFrame(c).taskId in p.tasks && Called(p, env, c, d, g, y)
    ensures d.Live? && |d.st.stack| == |c.st.stack| + 1 && g in p.tasks && TopFrame(c).pending.None?
  {
  }

  lemma RoundHeight(p: Project, c: Config, e: Place, d: Config)
    requires c.Live? && c.st.stack != [] && TopFrame(c).taskId in p.tasks && Round(p, c, e, d)
    ensures d.Live? && |d.st.stack| == |c.st.stack| && TopFrame(d).started && TopFrame(d).taskId == TopFrame(c).taskId
  {
  }

  /** Without a loop to reach, every run from graph `t` comes to an end: in any environment, from any
      start, with any variables and counters. */
  lemma EndsWithoutLoops(p: Project, env: Env, t: string, start: string, vars: Vars, visited: map<string, nat>) returns (n: nat)
    requires t in p.tasks && !CanLoop(p, t)
    ensures Shaped(p, Initial(t, start, vars, visited))
    ensures Run(p, env, n, Initial(t, start, vars, visited)).Halted?
  {
    hide Loops, Run, Step, StartPlace, LoopingCallee;
    var c, task := Initial(t, start, vars, visited), p.tasks[t];
    var e := StartPlace(task, start);
    assert ActiveFunctions(c.st.stack) == {};
    assert !Loops(p, task, {}, e);
    PlacesRun(task, start);
    if CalleesTame(p) {
      n := Concludes(p, env, c, e);
    } else {
      n := EndsAtOnce(p, env, c);
    }
  }

  /** A graph no node of which runs. */
  lemma EndsAtOnce(p: Project, env: Env, c: Config) returns (n: nat)
    requires Shaped(p, c) && c.Live? && |c.st.stack| == 1 && TopFrame(c).taskId in p.tasks
    requires forall i: nat :: !Runs(p.tasks[TopFrame(c).taskId], i)
    ensures Run(p, env, n, c).Halted?
  {
    hide WalkGraph, Step, IndexOf;
    n := 1;
    RunOne(p, env, c);
    var f, task := TopFrame(c), p.tasks[TopFrame(c).taskId];
    var visited := if f.started then c.st.visited else Without(c.st.visited, NodeIds(task.nodes));
    if f.pending.None? && StartIndex(task, f.start).Some? {
      NothingRuns(task, StartIndex(task, f.start).value);
      WalkFromLanding(p, env, ContextOf(p, c.st.stack), StartIndex(task, f.start).value, visited, f.vars, c.st.world);
    }
    EmptyHalts(p, env, c);
  }

  lemma NothingRuns(task: Task, i: nat)
    requires forall i: nat :: !Runs(task, i)
    ensures Landing(task.nodes, i) == PastEnd
  {
    assert FirstEnabled(task.nodes, i).Some? ==> Runs(task, FirstEnabled(task.nodes, i).value);
  }

  lemma EmptyHalts(p: Project, env: Env, c: Config)
    requires Shaped(p, c) && c.Live? && |c.st.stack| == 1 && TopFrame(c).taskId in p.tasks
    requires !WalkTop(p, env, c.st).exit.Calling? && !WalkTop(p, env, c.st).exit.Returned?
    ensures Grounded(c.st) && Step(p, env, c).Halted?
  {
    hide WalkTop;
  }
}
