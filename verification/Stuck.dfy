/** The conditions of `Soundness` are exact: wherever one is broken, some run meets the error. */
module Stuck {
  import opened Common
  import opened Runtime
  import opened Scheduler
  import opened StackShape
  import opened Parameters
  import opened Soundness

  /** Node ids are non-empty and unique within each graph, as validation ensures. */
  ghost predicate ProperIds(p: Project) {
    forall t, i :: t in p.tasks && 0 <= i < |p.tasks[t].nodes| ==> FoundAt(p.tasks[t], i)
  }

  predicate FoundAt(task: Task, i: nat)
    requires i < |task.nodes|
  {
    task.nodes[i].nodeId != "" && IndexOf(task.nodes, task.nodes[i].nodeId) == Some(i)
  }

  // ---------------------------------------------------------------- the first turn of a run

  /** The first turn of a run started at a node walks from that node with everything still empty. */
  lemma FirstTurn(p: Project, env: Env, t: string, i: nat)
    requires t in p.tasks && i < |p.tasks[t].nodes| && FoundAt(p.tasks[t], i)
    ensures var c := Initial(t, p.tasks[t].nodes[i].nodeId, map[], map[]);
      var w := WalkGraph(p, env, Context(p.tasks[t], false, {}, 0), i, map[], map[], World(0, []));
      && Shaped(p, c)
      && (w.exit.Calling? ==> w.exit.call.functionId in p.tasks)
      && Run(p, env, 1, c) == AfterWalk(p, [], c.st.stack[0].(started := true), w)
  {
    hide VisitNode, WalkGraph, AfterWalk;
    var c := Initial(t, p.tasks[t].nodes[i].nodeId, map[], map[]);
    assert ContextOf(p, c.st.stack) == Context(p.tasks[t], false, {}, 0);
    assert Without(map[], NodeIds(p.tasks[t].nodes)) == map[];
    WalkTopCallsKnownFunction(p, env, c.st);
    RunOne(p, env, c);
  }

  lemma {:induction false} LogGrows(p: Project, env: Env, ctx: Context, index: nat, visited: map<string, nat>, vars: Vars,
      world: World)
    ensures world.log <= WalkGraph(p, env, ctx, index, visited, vars, world).world.log
    decreases Budget(ctx.task.nodes, visited, env.maxVisits), |ctx.task.nodes| - index
  {
    hide VisitNode;
    if index < |ctx.task.nodes| {
      WalkOnce(p, env, ctx, index, visited, vars, world);
      VisitLogGrows(p, env, ctx, index, visited, vars, world);
      var v := VisitNode(p, env, ctx, index, visited, vars, world);
      if !ctx.task.nodes[index].enabled {
        LogGrows(p, env, ctx, index + 1, visited, vars, world);
      } else if v.move.Goto? {
        VisitShrinks(p, env, ctx, index, visited, vars, world);
        LogGrows(p, env, ctx, v.move.index, v.visited, v.vars, v.world);
      }
    }
  }

  lemma VisitLogGrows(p: Project, env: Env, ctx: Context, index: nat, visited: map<string, nat>, vars: Vars, world: World)
    requires index < |ctx.task.nodes|
    ensures world.log <= VisitNode(p, env, ctx, index, visited, vars, world).world.log
  {
    hide Schedule, Route, OutcomeJumps;
  }

  lemma RaisedIsLogged(p: Project, f: Frame, w: Walk)
    requires !f.isFunction
    requires w.exit.Calling? ==> w.exit.call.functionId in p.tasks
    ensures w.exit.Raised? ==> LogOf(AfterWalk(p, [], f, w)) == w.world.log + [w.exit.error]
  {
  }

  // ---------------------------------------------------------------- targets and functions

  /** Calls what call nodes configure, with given inputs; every other node takes the port
      `(port, id)`. */
  function ProbeEnv(port: string, id: string, calls: bool, inputs: seq<InBinding>): Env {
    Env((t, m, node, vars) => (ProbeResult(port, id, calls, inputs, node), vars), (t, vars, v) => Some(v), (v, k) => Some(v), 1)
  }

  function ProbeResult(port: string, id: string, calls: bool, inputs: seq<InBinding>, node: Node): NodeResult {
    if calls && node.nodeType == "call_function" then Ran(true, None, Some(CallIntent(node.functionId, inputs, [])), None)
    else Ran(true, Some(Branch(port, id)), None, None)
  }

  lemma ProbeForwards(port: string, id: string, calls: bool, inputs: seq<InBinding>)
    ensures Forwards(ProbeEnv(port, id, calls, inputs)) && Obliging(ProbeEnv(port, id, calls, inputs))
  {
  }

  /** A walk started at node `i` in the probing environment logs the misrouting at its first visit. */
  lemma FirstVisitMisroutes(p: Project, t: string, i: nat, port: string, id: string, calls: bool)
    requires t in p.tasks && i < |p.tasks[t].nodes| && p.tasks[t].nodes[i].enabled
    requires if calls then !CallKnown(p, p.tasks[t].nodes[i])
      else !Inside(p.tasks[t], FindEdgeJump(OutEdges(p.edges, p.tasks[t].nodes[i].nodeId), port, id))
    ensures var ctx := Context(p.tasks[t], false, {}, 0);
      var v := VisitNode(p, ProbeEnv(port, id, calls, []), ctx, i, map[], map[], World(0, []));
      if calls then v.world.log == [UnknownFunction] else v.move == Leave(Raised(MissingTarget)) && v.world.log == []
  {
    hide FindEdgeJump, OutEdges, OutcomeJumps, ChildVars;
  }

  lemma OneTurnFails(p: Project, t: string, i: nat, port: string, id: string, calls: bool)
    requires t in p.tasks && i < |p.tasks[t].nodes| && FoundAt(p.tasks[t], i) && p.tasks[t].nodes[i].enabled
    requires if calls then !CallKnown(p, p.tasks[t].nodes[i])
      else !Inside(p.tasks[t], FindEdgeJump(OutEdges(p.edges, p.tasks[t].nodes[i].nodeId), port, id))
    ensures var c := Initial(t, p.tasks[t].nodes[i].nodeId, map[], map[]);
      && Shaped(p, c)
      && (if calls then UnknownFunction else MissingTarget) in LogOf(Run(p, ProbeEnv(port, id, calls, []), 1, c))
  {
    hide VisitNode, WalkGraph, FindEdgeJump, OutEdges, CallKnown, Inside, AfterWalk, Run;
    var env := ProbeEnv(port, id, calls, []);
    var c := Initial(t, p.tasks[t].nodes[i].nodeId, map[], map[]);
    var ctx, world := Context(p.tasks[t], false, {}, 0), World(0, []);
    FirstVisitMisroutes(p, t, i, port, id, calls);
    WalkOnce(p, env, ctx, i, map[], map[], world);
    var v := VisitNode(p, env, ctx, i, map[], map[], world);
    var w := WalkGraph(p, env, ctx, i, map[], map[], world);
    if v.move.Goto? {
      LogGrows(p, env, ctx, v.move.index, v.visited, v.vars, v.world);
    }
    FirstTurn(p, env, t, i);
    var f := c.st.stack[0].(started := true);
    AfterWalkExplained(p, [], f, w);
    RaisedIsLogged(p, f, w);
    var log := LogOf(Run(p, env, 1, c));
    if calls {
      assert [UnknownFunction] <= v.world.log <= w.world.log <= log;
      assert log[0] == UnknownFunction;
    } else {
      assert w == Walk(Raised(MissingTarget), v.visited, v.vars, v.world);
      assert log[0] == MissingTarget;
    }
  }

  /** If some enabled node routes outside its graph, or calls a function that was not loaded, a
      one-turn run from that node meets the error: the conditions of `WellRoutedRuns` are exact. */
  lemma MisroutedProjectFails(p: Project) returns (env: Env, t: string, start: string)
    requires ProperIds(p)
    requires !RoutesInside(p) || !CallsKnown(p)
    ensures Forwards(env) && t in p.tasks && start in NodeIds(p.tasks[t].nodes)
    ensures var c := Initial(t, start, map[], map[]);
      Shaped(p, c) && !NeverMisrouted(LogOf(Run(p, env, 1, c)))
  {
    hide VisitNode, WalkGraph, FindEdgeJump, OutEdges;
    var i, port, id, calls;
    if !RoutesInside(p) {
      t, i, port, id :| t in p.tasks && 0 <= i < |p.tasks[t].nodes| && p.tasks[t].nodes[i].enabled &&
        !Inside(p.tasks[t], FindEdgeJump(OutEdges(p.edges, p.tasks[t].nodes[i].nodeId), port, id));
      calls := false;
    } else {
      t, i :| t in p.tasks && 0 <= i < |p.tasks[t].nodes| && !CallKnown(p, p.tasks[t].nodes[i]);
      port, id, calls := "", "", true;
    }
    env, start := ProbeEnv(port, id, calls, []), p.tasks[t].nodes[i].nodeId;
    ProbeForwards(port, id, calls, []);
    assert FoundAt(p.tasks[t], i);
    OneTurnFails(p, t, i, port, id, calls);
    var log := LogOf(Run(p, env, 1, Initial(t, start, map[], map[])));
    var k :| 0 <= k < |log| && log[k] == if calls then UnknownFunction else MissingTarget;
    assert Misrouted(log[k]);
  }

  // ---------------------------------------------------------------- entries

  /** The environment that calls `f` with every input there is. */
  function CallingEnv(p: Project, f: string): Env
    requires f in p.tasks
  {
    ProbeEnv("", "", true, EveryInput(Declarations(p.tasks[f].inputs)))
  }

  lemma FirstVisitCalls(p: Project, t: string, i: nat, f: string)
    requires t in p.tasks && i < |p.tasks[t].nodes| && Calls(p.tasks[t].nodes[i], f)
    requires IsFunction(p, f) && Suppliable(p.tasks[f])
    ensures var ctx := Context(p.tasks[t], false, {}, 0);
      var v := VisitNode(p, CallingEnv(p, f), ctx, i, map[], map[], World(0, []));
      v.move.Leave? && v.move.exit.Calling? && v.move.exit.call.functionId == f
  {
    hide OutEdges, OutcomeJumps, ChildVars, Suppliable, EveryInput, Declarations, Obliging;
    var env := CallingEnv(p, f);
    var call := CallIntent(p.tasks[t].nodes[i].functionId, EveryInput(Declarations(p.tasks[f].inputs)), []);
    ProbeForwards("", "", true, call.inputs);
    SuppliableIsEntered(env, 1, p.tasks[f], call, map[]);
  }

  lemma EntryNotFound(p: Project, env: Env, st: State, f: string)
    requires f in p.tasks && !Inside(p.tasks[f], p.tasks[f].entry)
    requires |st.stack| > 1 && st.stack[|st.stack| - 1].taskId == f && st.stack[|st.stack| - 1].isFunction
    requires st.stack[|st.stack| - 1].start == p.tasks[f].entry && st.stack[|st.stack| - 1].pending.None?
    ensures Grounded(st) && MissingStart in LogOf(Step(p, env, Live(st)))
  {
    hide MergeBack, OutcomeTarget, WalkGraph;
    StartInside(p.tasks[f], p.tasks[f].entry);
    var below, top := st.stack[..|st.stack| - 1], st.stack[|st.stack| - 1];
    var w := WalkTop(p, env, st);
    assert w.exit == Raised(MissingStart) && w.world == st.world;
    var log := LogOf(Step(p, env, Live(st)));
    assert log[|st.world.log|] == MissingStart;
  }

  /** A called function whose entry is not in its graph: two turns from the call node, the run has
      logged a missing start node. */
  lemma MissingEntryFails(p: Project, t: string, i: nat, f: string)
    requires t in p.tasks && i < |p.tasks[t].nodes| && FoundAt(p.tasks[t], i) && Calls(p.tasks[t].nodes[i], f)
    requires IsFunction(p, f) && Suppliable(p.tasks[f]) && !Inside(p.tasks[f], p.tasks[f].entry)
    ensures var c := Initial(t, p.tasks[t].nodes[i].nodeId, map[], map[]);
      Shaped(p, c) && MissingStart in LogOf(Run(p, CallingEnv(p, f), 2, c))
  {
    hide VisitNode, WalkGraph, Step, Inside, Suppliable, CallingEnv, Run, ShapedStack;
    var env := CallingEnv(p, f);
    var c := Initial(t, p.tasks[t].nodes[i].nodeId, map[], map[]);
    var ctx, world := Context(p.tasks[t], false, {}, 0), World(0, []);
    FirstVisitCalls(p, t, i, f);
    WalkOnce(p, env, ctx, i, map[], map[], world);
    FirstTurn(p, env, t, i);
    RunAdds(p, env, 1, 1, c);
    var d := Run(p, env, 1, c);
    RunOne(p, env, d);
    EntryNotFound(p, env, d.st, f);
  }

  // ---------------------------------------------------------------- exactly

  /** No run of `n` turns from `start` in task `t` ever found a task, a start node, a target or a
      function missing. */
  ghost predicate NothingMissing(p: Project, env: Env, t: string, start: string, vars: Vars, visited: map<string, nat>, n: nat) {
    var c := Initial(t, start, vars, visited);
    Shaped(p, c) && forall i :: 0 <= i < |LogOf(Run(p, env, n, c))| ==> !Dangling(LogOf(Run(p, env, n, c))[i])
  }

  /** Runs from a node of any loaded task, or from its first one, in any forwarding environment. */
  ghost predicate NeverFindsMissing(p: Project) {
    forall env, t, start, vars, visited, n: nat :: Forwards(env) && t in p.tasks && Inside(p.tasks[t], start) ==>
      NothingMissing(p, env, t, start, vars, visited, n)
  }

  lemma RunsFindAll(p: Project, env: Env, t: string, start: string, vars: Vars, visited: map<string, nat>, n: nat)
    requires RoutesInside(p) && CallsKnown(p) && EntriesKnown(p)
    requires Forwards(env) && t in p.tasks && Inside(p.tasks[t], start)
    ensures NothingMissing(p, env, t, start, vars, visited, n)
  {
    hide Forwards, RoutesInside, CallsKnown, EntriesKnown, Run;
    var c := Initial(t, start, vars, visited);
    assert Anchored(p, c.st.stack[0]);
    NeverStuck(p, env, n, c);
  }

  lemma LoggedIsMissing(p: Project, env: Env, t: string, start: string, n: nat, e: Error)
    requires Forwards(env) && t in p.tasks && Inside(p.tasks[t], start) && Dangling(e)
    requires Shaped(p, Initial(t, start, map[], map[])) && e in LogOf(Run(p, env, n, Initial(t, start, map[], map[])))
    ensures !NeverFindsMissing(p)
  {
    hide Forwards, Inside, Run;
    var log := LogOf(Run(p, env, n, Initial(t, start, map[], map[])));
    var k :| 0 <= k < |log| && log[k] == e;
    assert !NothingMissing(p, env, t, start, map[], map[], n);
  }

  /** A project whose node ids are proper never gets stuck -- on any run, from any node, of any
      length, in any forwarding environment -- exactly if every enabled node routes inside its graph,
      every call names a loaded function, and every function that can be entered has its entry. */
  lemma NeverStuckIff(p: Project)
    requires ProperIds(p)
    ensures NeverFindsMissing(p) <==> RoutesInside(p) && CallsKnown(p) && EntriesKnown(p)
  {
    hide RoutesInside, CallsKnown, Forwards, Inside, Run, NothingMissing, Suppliable;
    if RoutesInside(p) && CallsKnown(p) && EntriesKnown(p) {
      forall env, t, start, vars, visited, n: nat | Forwards(env) && t in p.tasks && Inside(p.tasks[t], start)
        ensures NothingMissing(p, env, t, start, vars, visited, n)
      {
        RunsFindAll(p, env, t, start, vars, visited, n);
      }
    } else if !RoutesInside(p) || !CallsKnown(p) {
      var env, t, start := MisroutedProjectFails(p);
      MisroutedIsMissing(p, env, t, start);
    } else {
      var f :| Enterable(p, f) && !Inside(p.tasks[f], p.tasks[f].entry);
      var t, i :| t in p.tasks && 0 <= i < |p.tasks[t].nodes| && Calls(p.tasks[t].nodes[i], f);
      assert FoundAt(p.tasks[t], i);
      MissingEntryFails(p, t, i, f);
      NodeIsInside(p.tasks[t], i);
      ProbeForwards("", "", true, EveryInput(Declarations(p.tasks[f].inputs)));
      LoggedIsMissing(p, CallingEnv(p, f), t, p.tasks[t].nodes[i].nodeId, 2, MissingStart);
    }
  }

  lemma NodeIsInside(task: Task, i: nat)
    requires i < |task.nodes|
    ensures Inside(task, task.nodes[i].nodeId)
  {
  }

  lemma MisroutedIsMissing(p: Project, env: Env, t: string, start: string)
    requires Forwards(env) && t in p.tasks && start in NodeIds(p.tasks[t].nodes)
    requires Shaped(p, Initial(t, start, map[], map[]))
    requires !NeverMisrouted(LogOf(Run(p, env, 1, Initial(t, start, map[], map[]))))
    ensures !NeverFindsMissing(p)
  {
    hide Forwards, Run, NeverFindsMissing;
    var log := LogOf(Run(p, env, 1, Initial(t, start, map[], map[])));
    var k :| 0 <= k < |log| && Misrouted(log[k]);
    LoggedIsMissing(p, env, t, start, 1, log[k]);
  }
}
