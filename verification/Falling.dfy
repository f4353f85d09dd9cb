/** Which functions can fall off their end when they are called. */
module Falling {
  import opened Common
  import opened Runtime
  import opened Scheduler
  import opened StackShape
  import opened BigStep
  import opened Soundness
  import opened Lookalike
  import opened Reach
  import opened Halting
  import opened Looping
  import Endless

  // ---------------------------------------------------------------- falling off follows wired ports

  lemma VisitGoes(p: Project, env: Env, ctx: Context, i: nat, visited: map<string, nat>, vars: Vars, world: World)
    requires Runs(ctx.task, i)
    ensures var m := VisitNode(p, env, ctx, i, visited, vars, world).move;
      && (m.Goto? ==> Leads(p, ctx.task, i, Landing(ctx.task.nodes, m.index)))
      && (m.Leave? && m.exit.Calling? ==> m.exit.call.jumps == OutcomeJumps(OutEdges(p.edges, ctx.task.nodes[i].nodeId)))
      && !(m.Leave? && m.exit.FellOff?)
  {
    hide VisitNode, Leads, Landing, OutcomeJumps, OutEdges, CanEnter;
    VisitTrace(p, env, ctx, i, visited, vars, world);
  }

  /** If node `i` falls after what it leads to, it falls. */
  lemma FallsNext(p: Project, task: Task, i: nat, q: Place)
    requires Leads(p, task, i, q) && FallsFrom(p, task, q)
    ensures FallsFrom(p, task, At(i))
  {
    hide Leads, FallsFrom, Reaches;
    LeadsRuns(p, task, i, q);
    LeadsRun(p, task, i, q);
    IdOf(task, i);
    ReachesItself(p, task, AllIds(task), i);
    FallsFromEarlier(p, task, i, i, q);
  }

  lemma LeadsRuns(p: Project, task: Task, i: nat, q: Place)
    requires Leads(p, task, i, q)
    ensures Runs(task, i)
  {
  }

  lemma OutcomeLeads(p: Project, task: Task, i: nat, jumps: map<string, string>, r: FnResult)
    requires Runs(task, i) && jumps == OutcomeJumps(OutEdges(p.edges, task.nodes[i].nodeId)) && OutcomeTarget(jumps, r) != ""
    ensures Leads(p, task, i, StartPlace(task, OutcomeTarget(jumps, r)))
  {
    hide OutcomeJumps, OutEdges, FindEdgeJump;
    OutcomeJumpAt(OutEdges(p.edges, task.nodes[i].nodeId), OutcomeOf(r));
    assert PortPlace(p, task, i, "", OutcomeOf(r)) == StartPlace(task, OutcomeTarget(jumps, r));
  }

  lemma {:induction false} FellIsWired(p: Project, env: Env, ctx: Context, start: string, index: nat, local: map<string, nat>,
      vars: Vars, world: World)
    requires RunGraph(p, env, ctx, start, index, local, vars, world).ending.Fell?
    ensures FallsFrom(p, ctx.task, Landing(ctx.task.nodes, index)) || FallsFrom(p, ctx.task, StartPlace(ctx.task, start))
    decreases MAX_CALL_DEPTH + 1 - ctx.depth, Budget(ctx.task.nodes, local, env.maxVisits), |ctx.task.nodes| - index, 0
  {
    hide VisitNode, RunCallee, AfterCall, Leads, FallsFrom, OutcomeJumps, OutEdges, StartPlace;
    var task := ctx.task;
    if index >= |task.nodes| {
      FallsPastEnd(p, task);
    } else if !task.nodes[index].enabled {
      SkipDisabled(p, env, ctx, start, index, local, vars, world);
      FellIsWired(p, env, ctx, start, index + 1, local, vars, world);
    } else {
      var v := VisitNode(p, env, ctx, index, local, vars, world);
      VisitShrinks(p, env, ctx, index, local, vars, world);
      VisitCallsKnownFunction(p, env, ctx, index, local, vars, world);
      VisitGoes(p, env, ctx, index, local, vars, world);
      if v.move.Goto? {
        FellIsWired(p, env, ctx, start, v.move.index, v.visited, v.vars, v.world);
        if FallsFrom(p, task, Landing(task.nodes, v.move.index)) { FallsNext(p, task, index, Landing(task.nodes, v.move.index)); }
      } else if v.move.exit.Calling? {
        var call := v.move.exit.call;
        CalleeHasThreeEndings(p, env, ctx, call, v.world);
        CallFellIsWired(p, env, ctx, start, index, call, RunCallee(p, env, ctx, call, v.world), v.visited, v.vars);
      }
    }
  }

  lemma CalleeHasThreeEndings(p: Project, env: Env, ctx: Context, call: PendingCall, world: World)
    requires Callable(p, ctx, call.functionId)
    ensures var e := RunCallee(p, env, ctx, call, world).ending; e.Gave? || e.Fell? || e.Aborted?
  {
    hide Enter;
  }

  lemma {:induction false} CallFellIsWired(p: Project, env: Env, ctx: Context, start: string, i: nat, call: PendingCall,
      callee: Activation, local: map<string, nat>, vars: Vars)
    requires Runs(ctx.task, i) && call.jumps == OutcomeJumps(OutEdges(p.edges, ctx.task.nodes[i].nodeId))
    requires callee.ending.Gave? || callee.ending.Fell? || callee.ending.Aborted?
    requires AfterCall(p, env, ctx, start, call, callee, local, vars).ending.Fell?
    ensures FallsFrom(p, ctx.task, At(i)) || FallsFrom(p, ctx.task, StartPlace(ctx.task, start))
    decreases MAX_CALL_DEPTH + 1 - ctx.depth, Budget(ctx.task.nodes, local, env.maxVisits), |ctx.task.nodes|, 2
  {
    hide RunGraph, Enter, MergeBack, Leads, FallsFrom, OutcomeJumps, OutEdges, StartPlace, OutcomeTarget;
    if callee.ending.Fell? {
      EnterFellIsWired(p, env, ctx, start, local, vars, callee.world);
    } else if callee.ending.Gave? {
      var back, target := MergeBack(vars, callee.vars, call.outs, callee.ending.result), OutcomeTarget(call.jumps, callee.ending.result);
      if back.Ok? && target != "" {
        EnterFellIsWired(p, env, ctx, target, local, back.value, callee.world);
        OutcomeLeads(p, ctx.task, i, call.jumps, callee.ending.result);
        FallsNext(p, ctx.task, i, StartPlace(ctx.task, target));
      }
    }
  }

  lemma {:induction false} EnterFellIsWired(p: Project, env: Env, ctx: Context, start: string, local: map<string, nat>, vars: Vars,
      world: World)
    requires Enter(p, env, ctx, start, local, vars, world).ending.Fell?
    ensures FallsFrom(p, ctx.task, StartPlace(ctx.task, start))
    decreases MAX_CALL_DEPTH + 1 - ctx.depth, Budget(ctx.task.nodes, local, env.maxVisits), |ctx.task.nodes|, 1
  {
    hide RunGraph, FallsFrom, IndexOf, Landing;
    var i := StartIndex(ctx.task, start);
    PlacesTell(ctx.task, start);
    if i.Some? {
      assert StartPlace(ctx.task, start) == Landing(ctx.task.nodes, i.value);
      FellIsWired(p, env, ctx, start, i.value, local, vars, world);
    }
  }

  // ---------------------------------------------------------------- and wired ports can be followed

  /** A walk that runs off the end makes no call: the activation is the walk. */
  lemma {:induction false} FellWalk(p: Project, env: Env, ctx: Context, start: string, index: nat, local: map<string, nat>,
      vars: Vars, world: World)
    requires WalkGraph(p, env, ctx, index, local, vars, world).exit.FellOff?
    ensures RunGraph(p, env, ctx, start, index, local, vars, world).ending.Fell?
    decreases Budget(ctx.task.nodes, local, env.maxVisits), |ctx.task.nodes| - index
  {
    hide VisitNode, RunCallee, AfterCall, WalkGraph;
    if index >= |ctx.task.nodes| {
    } else if !ctx.task.nodes[index].enabled {
      WalkOnce(p, env, ctx, index, local, vars, world);
      SkipDisabled(p, env, ctx, start, index, local, vars, world);
      FellWalk(p, env, ctx, start, index + 1, local, vars, world);
    } else {
      var v := VisitNode(p, env, ctx, index, local, vars, world);
      WalkOnce(p, env, ctx, index, local, vars, world);
      VisitShrinks(p, env, ctx, index, local, vars, world);
      VisitCallsKnownFunction(p, env, ctx, index, local, vars, world);
      VisitGoes(p, env, ctx, index, local, vars, world);
      if v.move.Goto? {
        FellWalk(p, env, ctx, start, v.move.index, v.visited, v.vars, v.world);
      }
    }
  }

  /** The scripted walk along a path that leads past the end. */
  lemma ScriptedWalkFalls(p: Project, script: nat -> NodeResult, maxVisits: int, ctx: Context, path: seq<nat>, turns: seq<Branch>,
      b: Branch, vars: Vars, world: World)
    requires path != [] && Turns(p, ctx.task, path, turns) && |path| <= maxVisits
    requires path[|path| - 1] < |ctx.task.nodes| && PortPlace(p, ctx.task, path[|path| - 1], b.port, b.id) == PastEnd
    requires Reads(script, world.tick, Steered(turns) + [Steer(b)])
    ensures WalkGraph(p, ScriptEnv(script, maxVisits), ctx, path[0], map[], vars, world).exit.FellOff?
  {
    hide WalkGraph, VisitNode, ScriptEnv, Turns, Reads, Grown, Steered, PortPlace, Landing;
    var env, y, there := ScriptEnv(script, maxVisits), path[|path| - 1], world.(tick := world.tick + (|path| - 1));
    assert Spare(ctx.task, path, map[], maxVisits);
    ReadsFront(script, world.tick, Steered(turns), Steer(b));
    var after := FollowPath(p, script, maxVisits, ctx, path, turns, map[], vars, world);
    TurnsNonEmpty(p, ctx.task, path, turns);
    RunsUnfolds(ctx.task, y);
    SteeredLength(turns);
    SteeredVisit(p, script, maxVisits, ctx, y, after, vars, there, b);
    WalkOnce(p, env, ctx, y, after, vars, there);
    var v := VisitNode(p, env, ctx, y, after, vars, there);
    WalkFromLanding(p, env, ctx, v.move.index, v.visited, v.vars, v.world);
  }

  // ---------------------------------------------------------------- exactly

  /** Called with that, in that environment, the function falls off its end. */
  ghost predicate CallFallsOff(p: Project, env: Env, ctx: Context, call: PendingCall, world: World)
    requires Callable(p, ctx, call.functionId)
  {
    RunCallee(p, env, ctx, call, world).ending.Fell?
  }

  ghost predicate FallsFromEntry(p: Project, f: string)
    requires f in p.tasks
  {
    FallsFrom(p, p.tasks[f], EntryPlace(p, f))
  }

  lemma FallenCallIsWired(p: Project, env: Env, ctx: Context, call: PendingCall, world: World)
    requires Callable(p, ctx, call.functionId) && CallFallsOff(p, env, ctx, call, world)
    ensures FallsFromEntry(p, call.functionId)
  {
    hide Enter, FallsFrom, StartPlace;
    var f := call.functionId;
    EnterFellIsWired(p, env, CalleeContext(p, ctx, f), p.tasks[f].entry, map[], call.vars, world);
  }

  /** What a call runs, and its walk from the entry. */
  lemma WalkedCallFalls(p: Project, env: Env, ctx: Context, call: PendingCall, world: World, i: nat)
    requires Callable(p, ctx, call.functionId)
    requires StartIndex(p.tasks[call.functionId], p.tasks[call.functionId].entry) == Some(i)
    requires WalkGraph(p, env, CalleeContext(p, ctx, call.functionId), i, map[], call.vars, world).exit.FellOff?
    ensures CallFallsOff(p, env, ctx, call, world)
  {
    hide RunGraph, IndexOf, WalkGraph;
    var inner, entry := CalleeContext(p, ctx, call.functionId), p.tasks[call.functionId].entry;
    FellWalk(p, env, inner, entry, i, map[], call.vars, world);
    assert Enter(p, env, inner, entry, map[], call.vars, world).ending.Fell?;
  }

  /** An environment in which the walk from place `q` runs off the end. */
  lemma FallingEnv(p: Project, ctx: Context, q: Place, vars: Vars, world: World) returns (env: Env)
    requires FallsFrom(p, ctx.task, q)
    ensures q.At? ==> WalkGraph(p, env, ctx, q.index, map[], vars, world).exit.FellOff?
  {
    hide FallsFrom, Turns, Reads, WalkGraph, PortPlace;
    env := ScriptEnv(tick => FAILURE, 1);
    if q.At? {
      var path, turns, b := Endless.PastEndPath(p, ctx.task, q.index);
      var rs := Steered(turns) + [Steer(b)];
      env := ScriptEnv(From(rs, world.tick), |path|);
      FromReads(rs, world.tick);
      ScriptedWalkFalls(p, From(rs, world.tick), |path|, ctx, path, turns, b, vars, world);
    }
  }

  /** The results `rs` from tick `t` on. */
  function From(rs: seq<NodeResult>, t: nat): nat -> NodeResult {
    tick => if t <= tick < t + |rs| then rs[tick - t] else FAILURE
  }

  lemma FromReads(rs: seq<NodeResult>, t: nat)
    ensures Reads(From(rs, t), t, rs)
  {
  }

  lemma EntryLands(p: Project, f: string) returns (i: nat)
    requires f in p.tasks && FallsFromEntry(p, f)
    ensures StartIndex(p.tasks[f], p.tasks[f].entry) == Some(i)
    ensures Landing(p.tasks[f].nodes, i) == EntryPlace(p, f)
  {
    hide IndexOf, Landing;
    PlacesTell(p.tasks[f], p.tasks[f].entry);
    i := StartIndex(p.tasks[f], p.tasks[f].entry).value;
  }

  lemma WiredCallFalls(p: Project, ctx: Context, call: PendingCall, world: World) returns (env: Env)
    requires Callable(p, ctx, call.functionId) && FallsFromEntry(p, call.functionId)
    ensures CallFallsOff(p, env, ctx, call, world)
  {
    hide FallsFrom, WalkGraph, EntryPlace, StartIndex, CallFallsOff, Landing;
    var f := call.functionId;
    var inner := CalleeContext(p, ctx, f);
    var i := EntryLands(p, f);
    env := FallingEnv(p, inner, EntryPlace(p, f), call.vars, world);
    WalkFromLanding(p, env, inner, i, map[], call.vars, world);
    WalkedCallFalls(p, env, ctx, call, world, i);
  }

  /** A call that can start, from anywhere and with any arguments, falls off the function's end in some
      environment exactly if wired ports of enabled nodes lead from the function's entry past its last
      enabled node. */
  lemma FallsOffIff(p: Project, ctx: Context, call: PendingCall, world: World)
    requires Callable(p, ctx, call.functionId)
    ensures (exists env :: CallFallsOff(p, env, ctx, call, world)) <==> FallsFromEntry(p, call.functionId)
  {
    hide CallFallsOff, FallsFromEntry;
    if env :| CallFallsOff(p, env, ctx, call, world) {
      FallenCallIsWired(p, env, ctx, call, world);
    }
    if FallsFromEntry(p, call.functionId) {
      var env := WiredCallFalls(p, ctx, call, world);
    }
  }

  // ---------------------------------------------------------------- from any node

  /** The list order lets control run past the last node. */
  predicate OpenEnded(task: Task) {
    task.nodes == [] || !task.nodes[|task.nodes| - 1].enabled
  }

  lemma {:induction false} ClosedLands(nodes: seq<Node>, i: nat)
    requires i < |nodes| && nodes[|nodes| - 1].enabled
    ensures Landing(nodes, i).At?
    decreases |nodes| - i
  {
    if !nodes[i].enabled {
      ClosedLands(nodes, i + 1);
    }
  }

  lemma ClosedPlace(task: Task, target: string)
    requires !OpenEnded(task)
    ensures PlaceOf(task, target) != PastEnd && StartPlace(task, target) != PastEnd
  {
    hide Landing, IndexOf;
    ClosedLands(task.nodes, 0);
    if IndexOf(task.nodes, target).Some? {
      ClosedLands(task.nodes, IndexOf(task.nodes, target).value);
    }
  }

  lemma ClosedNeverFalls(p: Project, task: Task, q: Place)
    requires !OpenEnded(task) && FallsFrom(p, task, q)
    ensures q == PastEnd
  {
    hide Reaches, PlaceOf, OutEdges, FindEdgeJump;
    if q.At? {
      var y: nat :| Reaches(p, task, AllIds(task), q.index, y) && Leads(p, task, y, PastEnd);
      var port, id :| PortPlace(p, task, y, port, id) == PastEnd;
      ClosedPlace(task, FindEdgeJump(OutEdges(p.edges, task.nodes[y].nodeId), port, id));
    }
  }

  /** Exactly the graphs whose last node is disabled (or that are empty) can be run off the end from some
      node: from the last one in every environment; in the other graphs from no node in any. */
  lemma FallsOffIffOpenEnded(p: Project, env: Env, ctx: Context, start: string, local: map<string, nat>, vars: Vars, world: World)
    ensures OpenEnded(ctx.task) <==>
      exists i: nat :: (i < |ctx.task.nodes| || i == 0) && RunGraph(p, env, ctx, start, i, local, vars, world).ending.Fell?
  {
    var n := |ctx.task.nodes|;
    if OpenEnded(ctx.task) {
      var i: nat := if n == 0 then 0 else n - 1;
      if n > 0 {
        SkipDisabled(p, env, ctx, start, i, local, vars, world);
      }
      assert RunGraph(p, env, ctx, start, i, local, vars, world).ending.Fell?;
    } else {
      forall i: nat | i < n ensures !RunGraph(p, env, ctx, start, i, local, vars, world).ending.Fell? {
        hide RunGraph, FallsFrom, Landing, StartPlace;
        if RunGraph(p, env, ctx, start, i, local, vars, world).ending.Fell? {
          FellIsWired(p, env, ctx, start, i, local, vars, world);
          ClosedLands(ctx.task.nodes, i);
          ClosedPlace(ctx.task, start);
          if FallsFrom(p, ctx.task, Landing(ctx.task.nodes, i)) { ClosedNeverFalls(p, ctx.task, Landing(ctx.task.nodes, i)); }
          else { ClosedNeverFalls(p, ctx.task, StartPlace(ctx.task, start)); }
        }
      }
    }
  }
}
