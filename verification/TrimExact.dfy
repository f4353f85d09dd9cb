/** Exactly which cuts no run can notice. */
module TrimExact {
  import opened Common
  import opened Runtime
  import opened Scheduler
  import opened StackShape
  import opened Schema
  import opened Loader
  import opened Soundness
  import opened Stuck
  import opened Exporter
  import opened TrimMeaning
  import opened Lookalike
  import Counterexamples

  ghost function Full(b: Blueprint): Project {
    LoadBlueprint(b)
  }

  ghost function Kept(b: Blueprint, targets: seq<string>): Project {
    LoadBlueprint(TrimmedBlueprint(b, targets))
  }

  // ---------------------------------------------------------------- the condition

  /** Every port of the kept, enabled node `i` of task `t` leads to the same place after the cut. */
  ghost predicate PortsKept(b: Blueprint, targets: seq<string>, t: string, i: nat)
    requires t in Kept(b, targets).tasks && i < |Kept(b, targets).tasks[t].nodes|
  {
    var task := Kept(b, targets).tasks[t];
    SamePlaces(task, OutEdges(Full(b).edges, task.nodes[i].nodeId), OutEdges(Kept(b, targets).edges, task.nodes[i].nodeId))
  }

  ghost predicate EnabledAt(p: Project, t: string, i: nat) {
    t in p.tasks && i < |p.tasks[t].nodes| && p.tasks[t].nodes[i].enabled
  }

  ghost predicate EdgesUnnoticed(b: Blueprint, targets: seq<string>) {
    forall t, i: nat :: EnabledAt(Kept(b, targets), t, i) ==> PortsKept(b, targets, t, i)
  }

  /** The page map is kept, or holds no popup page, or nothing that is kept can run. */
  ghost predicate MapUnnoticed(b: Blueprint, targets: seq<string>) {
    HarmlessMap(b, targets) || forall t, i: nat :: !EnabledAt(Kept(b, targets), t, i)
  }

  ghost predicate Unnoticed(b: Blueprint, targets: seq<string>) {
    EdgesUnnoticed(b, targets) && MapUnnoticed(b, targets)
  }

  // ---------------------------------------------------------------- what a run shows

  /** A configuration without the spelling of where its frames go on. */
  function Appearance(c: Config): Config {
    match c
    case Live(st) => Live(st.(stack := seq(|st.stack|, i requires 0 <= i < |st.stack| => Erase(st.stack[i]))))
    case Halted(_, _, _) => c
  }

  /** After `n` turns the two runs show the same. */
  ghost predicate LookTheSame(big: Project, small: Project, env: Env, t: string, start: string, vars: Vars,
      visited: map<string, nat>, n: nat)
  {
    var c := Initial(t, start, vars, visited);
    Shaped(big, c) && Shaped(small, c) && Appearance(Run(big, env, n, c)) == Appearance(Run(small, env, n, c))
  }

  /** No run from a kept graph shows a difference: whatever the start, the length and the forwarding
      environment, stack, counters, variables, log and verdict are those of the full blueprint. */
  ghost predicate NoRunShows(b: Blueprint, targets: seq<string>) {
    forall env, t, start, vars, visited, n: nat :: Forwards(env) && ReadsMapOnlyForPopups(env) && t in Kept(b, targets).tasks ==>
      LookTheSame(Full(b), Kept(b, targets), env, t, start, vars, visited, n)
  }

  // ---------------------------------------------------------------- unnoticed cuts

  lemma AlikeAppear(small: Project, c: Config, c': Config)
    requires ConfigsAlike(small, c, c')
    ensures Appearance(c) == Appearance(c')
  {
    hide JumpsAlike, StartPlace, Erase;
  }

  lemma KeptNode(b: Blueprint, targets: seq<string>, env: Env, t: string, i: nat)
    requires Trimmable(b, targets) && NoStandIn(b, targets) && Unnoticed(b, targets) && ReadsMapOnlyForPopups(env)
    requires EnabledAt(Kept(b, targets), t, i)
    ensures NodeAlike(env, Full(b), Kept(b, targets), Kept(b, targets).tasks[t], Kept(b, targets).tasks[t].nodes[i])
  {
    hide Trimmable, NoStandIn, HarmlessMap, ReadsMapOnlyForPopups, Selection, Called, TrimmedBlueprint, LoadBlueprint, SamePlaces;
    MapsOf(b, targets);
    var g := KeptTask(b, targets, t);
    var node := Kept(b, targets).tasks[t].nodes[i];
    assert node == g.nodes[i].node;
    assert PortsKept(b, targets, t, i);
    KeptMap(b, targets, env, g, i);
    if node.nodeType == "call_function" && Strip(node.functionId) != "" {
      CalledAt(g, i);
      SelectedAreLoaded(b, targets, Strip(node.functionId));
    }
  }

  lemma UnnoticedIsPart(b: Blueprint, targets: seq<string>, env: Env)
    requires Trimmable(b, targets) && NoStandIn(b, targets) && Unnoticed(b, targets) && ReadsMapOnlyForPopups(env)
    ensures Part(env, Full(b), Kept(b, targets))
  {
    hide Trimmable, NoStandIn, Unnoticed, ReadsMapOnlyForPopups, Selection, Called, Full, Kept, NodeAlike;
    var big, small := Full(b), Kept(b, targets);
    forall t | t in small.tasks ensures t in big.tasks && big.tasks[t] == small.tasks[t] {
      SameTaskInBoth(b, targets, t);
    }
    forall t, i | t in small.tasks && 0 <= i < |small.tasks[t].nodes| && small.tasks[t].nodes[i].enabled
      ensures NodeAlike(env, big, small, small.tasks[t], small.tasks[t].nodes[i])
    {
      KeptNode(b, targets, env, t, i);
    }
  }

  lemma SameTaskInBoth(b: Blueprint, targets: seq<string>, t: string)
    requires Trimmable(b, targets) && NoStandIn(b, targets) && t in Kept(b, targets).tasks
    ensures t in Full(b).tasks && Full(b).tasks[t] == Kept(b, targets).tasks[t]
  {
    hide Trimmable, NoStandIn, Selection, Called, LoadBlueprint, TrimmedBlueprint;
    var _ := KeptTask(b, targets, t);
  }

  lemma UnnoticedRuns(b: Blueprint, targets: seq<string>, env: Env, t: string, start: string, vars: Vars,
      visited: map<string, nat>, n: nat)
    requires Trimmable(b, targets) && NoStandIn(b, targets) && Unnoticed(b, targets)
    requires Forwards(env) && ReadsMapOnlyForPopups(env) && t in Kept(b, targets).tasks
    ensures LookTheSame(Full(b), Kept(b, targets), env, t, start, vars, visited, n)
  {
    hide Trimmable, NoStandIn, Unnoticed, Forwards, ReadsMapOnlyForPopups, Full, Kept, Part, Run, Appearance, JumpsAlike, StartPlace;
    var big, small, c := Full(b), Kept(b, targets), Initial(t, start, vars, visited);
    UnnoticedIsPart(b, targets, env);
    assert ConfigsAlike(small, c, c);
    RunAlike(big, small, env, n, c, c);
    AlikeAppear(small, Run(big, env, n, c), Run(small, env, n, c));
  }

  // ---------------------------------------------------------------- noticed cuts: edges

  /** First a failure on the port in question, then a crash at whatever node comes next. */
  function DetourEnv(port: string, id: string): Env {
    Env((tick: nat, m: PageMap, node: Node, vars: Vars) => Detour(port, id, tick, node, vars), (t, vars, v) => Some(v), (v, k) => Some(v), 2)
  }

  function Detour(port: string, id: string, tick: nat, node: Node, vars: Vars): (NodeResult, Vars) {
    if tick == 0 then (Ran(false, Some(Branch(port, id)), None, None), vars)
    else (Crash, vars["at" := Text(node.nodeId)])
  }

  lemma DetourIsAllowed(port: string, id: string)
    ensures Forwards(DetourEnv(port, id)) && ReadsMapOnlyForPopups(DetourEnv(port, id))
  {
  }

  /** How such a run ends tells the place the port leads to. */
  function DetourEnds(task: Task, place: Place): Config
    requires place.At? ==> place.index < |task.nodes|
  {
    match place
    case Ends => Halted(Failed(TaskFailed), map[], World(1, [TaskFailed]))
    case Missing => Halted(Failed(MissingTarget), map[], World(1, [MissingTarget]))
    case PastEnd => Halted(Completed, map[], World(1, []))
    case At(j) => Halted(Failed(NodeCrash), map["at" := Text(task.nodes[j].nodeId)], World(2, [NodeCrash]))
  }

  function DetourExit(place: Place): Exit {
    match place
    case Ends => Ended(false)
    case Missing => Raised(MissingTarget)
    case PastEnd => FellOff
    case At(_) => Raised(NodeCrash)
  }

  lemma SecondVisit(p: Project, port: string, id: string, task: Task, j: nat, visited: map<string, nat>)
    requires j < |task.nodes| && task.nodes[j].enabled && Count(visited, task.nodes[j].nodeId) < 2
    ensures var v := VisitNode(p, DetourEnv(port, id), Context(task, false, {}, 0), j, visited, map[], World(1, []));
      v.move == Leave(Raised(NodeCrash)) && v.vars == map["at" := Text(task.nodes[j].nodeId)] && v.world == World(2, [])
  {
    hide OutEdges;
  }

  lemma FirstVisit(p: Project, port: string, id: string, task: Task, i: nat)
    requires i < |task.nodes| && task.nodes[i].enabled
    ensures var v := VisitNode(p, DetourEnv(port, id), Context(task, false, {}, 0), i, map[], map[], World(0, []));
      && v.move == Route(task, OutEdges(p.edges, task.nodes[i].nodeId), false, Some(Branch(port, id)))
      && v.visited == map[task.nodes[i].nodeId := 1] && v.vars == map[] && v.world == World(1, [])
  {
    hide OutEdges, Route;
  }

  lemma DetourWalk(p: Project, port: string, id: string, task: Task, i: nat)
    requires i < |task.nodes| && task.nodes[i].enabled
    ensures var w := WalkGraph(p, DetourEnv(port, id), Context(task, false, {}, 0), i, map[], map[], World(0, []));
      var place := PlaceOf(task, FindEdgeJump(OutEdges(p.edges, task.nodes[i].nodeId), port, id));
      && (place.At? ==> place.index < |task.nodes|)
      && w.exit == DetourExit(place)
      && w.vars == DetourEnds(task, place).vars && w.world == World(if place.At? then 2 else 1, [])
  {
    hide VisitNode, WalkGraph, FindEdgeJump, OutEdges, Landing;
    var env, ctx := DetourEnv(port, id), Context(task, false, {}, 0);
    var target := FindEdgeJump(OutEdges(p.edges, task.nodes[i].nodeId), port, id);
    FirstVisit(p, port, id, task, i);
    WalkOnce(p, env, ctx, i, map[], map[], World(0, []));
    PlacesTell(task, target);
    var v := VisitNode(p, env, ctx, i, map[], map[], World(0, []));
    if v.move.Goto? {
      LandingRuns(task.nodes, v.move.index);
      WalkFromLanding(p, env, ctx, v.move.index, v.visited, v.vars, v.world);
      var place := PlaceOf(task, target);
      if place.At? {
        SecondVisit(p, port, id, task, place.index, v.visited);
        WalkOnce(p, env, ctx, place.index, v.visited, v.vars, v.world);
      }
    }
  }

  lemma LandingRuns(nodes: seq<Node>, i: nat)
    ensures var place := Landing(nodes, i);
      if place.At? then place.index < |nodes| && nodes[place.index].enabled else place == PastEnd
  {
  }

  lemma DetourRun(p: Project, t: string, i: nat, port: string, id: string)
    requires EnabledAt(p, t, i) && FoundAt(p.tasks[t], i)
    ensures var c := Initial(t, p.tasks[t].nodes[i].nodeId, map[], map[]);
      var place := PlaceOf(p.tasks[t], FindEdgeJump(OutEdges(p.edges, p.tasks[t].nodes[i].nodeId), port, id));
      && (place.At? ==> place.index < |p.tasks[t].nodes|)
      && Shaped(p, c) && Run(p, DetourEnv(port, id), 1, c) == DetourEnds(p.tasks[t], place)
  {
    hide WalkGraph, PlaceOf, FindEdgeJump, OutEdges, DetourEnv, Run;
    DetourWalk(p, port, id, p.tasks[t], i);
    FirstTurn(p, DetourEnv(port, id), t, i);
  }

  lemma DetourTells(task: Task, a: Place, b: Place)
    requires forall i: nat :: i < |task.nodes| ==> FoundAt(task, i)
    requires (a.At? ==> a.index < |task.nodes|) && (b.At? ==> b.index < |task.nodes|)
    requires DetourEnds(task, a) == DetourEnds(task, b)
    ensures a == b
  {
    if a.At? && b.At? {
      assert DetourEnds(task, a).vars["at"] == DetourEnds(task, b).vars["at"];
      assert FoundAt(task, a.index) && FoundAt(task, b.index);
    }
  }

  /** A port that leads elsewhere after the cut: a run started at its node ends differently. */
  lemma MovedPortShows(b: Blueprint, targets: seq<string>, t: string, i: nat)
    requires Trimmable(b, targets) && NoStandIn(b, targets) && ProperIds(Kept(b, targets))
    requires EnabledAt(Kept(b, targets), t, i) && !PortsKept(b, targets, t, i)
    ensures !NoRunShows(b, targets)
  {
    hide Trimmable, NoStandIn, Full, Kept, Run, Forwards, ReadsMapOnlyForPopups, DetourEnv, DetourEnds, PlaceOf, FoundAt;
    var big, small := Full(b), Kept(b, targets);
    SameTaskInBoth(b, targets, t);
    var task := small.tasks[t];
    var port, id :| !SamePlace(task, OutEdges(big.edges, task.nodes[i].nodeId), OutEdges(small.edges, task.nodes[i].nodeId), port, id);
    assert forall j: nat :: j < |task.nodes| ==> FoundAt(task, j);
    DetourIsAllowed(port, id);
    DetourRun(big, t, i, port, id);
    DetourRun(small, t, i, port, id);
    var env, start := DetourEnv(port, id), task.nodes[i].nodeId;
    if LookTheSame(big, small, env, t, start, map[], map[], 1) {
      DetourHalts(big, small, env, t, start, task, i, port, id);
      assert false;
    }
  }

  lemma DetourHalts(big: Project, small: Project, env: Env, t: string, start: string, task: Task, i: nat, port: string, id: string)
    requires forall j: nat :: j < |task.nodes| ==> FoundAt(task, j)
    requires t in big.tasks && t in small.tasks && task == big.tasks[t] == small.tasks[t]
    requires i < |task.nodes| && task.nodes[i].enabled && start == task.nodes[i].nodeId && env == DetourEnv(port, id)
    requires LookTheSame(big, small, env, t, start, map[], map[], 1)
    ensures SamePlace(task, OutEdges(big.edges, start), OutEdges(small.edges, start), port, id)
  {
    hide Run, DetourEnv, PlaceOf, FoundAt, FindEdgeJump, OutEdges;
    DetourRun(big, t, i, port, id);
    DetourRun(small, t, i, port, id);
    var a, b := PlaceOf(task, FindEdgeJump(OutEdges(big.edges, start), port, id)), PlaceOf(task, FindEdgeJump(OutEdges(small.edges, start), port, id));
    DetourTells(task, a, b);
  }

  // ---------------------------------------------------------------- noticed cuts: the page map

  /** Every node crashes, leaving behind whether a popup page was to be seen. */
  function WitnessEnv(): Env {
    Env((t, m, node, vars) => (Crash, map["popups" := Flag(!NoPopups(m))]), (t, vars, v) => Some(v), (v, k) => Some(v), 1)
  }

  lemma WitnessIsAllowed()
    ensures Forwards(WitnessEnv()) && ReadsMapOnlyForPopups(WitnessEnv())
  {
  }

  lemma WitnessVisit(p: Project, t: string, i: nat)
    requires EnabledAt(p, t, i)
    ensures var v := VisitNode(p, WitnessEnv(), Context(p.tasks[t], false, {}, 0), i, map[], map[], World(0, []));
      v.move == Leave(Raised(NodeCrash)) && v.vars == map["popups" := Flag(!NoPopups(p.pageMap))] && v.world == World(1, [])
  {
    hide OutEdges;
  }

  lemma WitnessRun(p: Project, t: string, i: nat)
    requires EnabledAt(p, t, i) && FoundAt(p.tasks[t], i)
    ensures var c := Initial(t, p.tasks[t].nodes[i].nodeId, map[], map[]);
      Shaped(p, c) && Run(p, WitnessEnv(), 1, c) ==
        Halted(Failed(NodeCrash), map["popups" := Flag(!NoPopups(p.pageMap))], World(1, [NodeCrash]))
  {
    hide WalkGraph, VisitNode, WitnessEnv, NoPopups, Run;
    WitnessVisit(p, t, i);
    WalkOnce(p, WitnessEnv(), Context(p.tasks[t], false, {}, 0), i, map[], map[], World(0, []));
    FirstTurn(p, WitnessEnv(), t, i);
  }

  lemma NoMapNoPopups(b: Blueprint, targets: seq<string>)
    requires TrimmedBlueprint(b, targets).pageMap != b.pageMap
    ensures NoPopups(TrimmedBlueprint(b, targets).pageMap)
  {
    hide Closure, Required, NeedsPageMap, KeptFunctions, KeptFolders;
  }

  /** A dropped map with a popup page, and a kept node that runs: a run from that node shows it. */
  lemma DroppedMapShows(b: Blueprint, targets: seq<string>, t: string, i: nat)
    requires Trimmable(b, targets) && NoStandIn(b, targets) && ProperIds(Kept(b, targets))
    requires EnabledAt(Kept(b, targets), t, i) && !HarmlessMap(b, targets)
    ensures !NoRunShows(b, targets)
  {
    hide Trimmable, NoStandIn, LoadBlueprint, TrimmedBlueprint, Run, Forwards, ReadsMapOnlyForPopups, WitnessEnv, NoPopups, FoundAt;
    var big, small := Full(b), Kept(b, targets);
    SameTaskInBoth(b, targets, t);
    MapsOf(b, targets);
    NoMapNoPopups(b, targets);
    WitnessIsAllowed();
    assert FoundAt(small.tasks[t], i);
    WitnessRun(big, t, i);
    WitnessRun(small, t, i);
    WitnessesDiffer();
    assert !LookTheSame(big, small, WitnessEnv(), t, small.tasks[t].nodes[i].nodeId, map[], map[], 1);
  }

  lemma WitnessesDiffer()
    ensures var a: Vars, b: Vars := map["popups" := Flag(true)], map["popups" := Flag(false)]; a != b
  {
    var a: Vars, b: Vars := map["popups" := Flag(true)], map["popups" := Flag(false)];
    assert a["popups"] != b["popups"];
  }

  // ---------------------------------------------------------------- exactly

  /** Trimming preserves meaning exactly when the cut leaves every port of every kept, enabled node
      leading where it led, and takes away a map with popup pages only if nothing kept can run. */
  lemma TrimmingPreservesRunsIff(b: Blueprint, targets: seq<string>)
    requires Trimmable(b, targets) && NoStandIn(b, targets) && ProperIds(Kept(b, targets))
    ensures NoRunShows(b, targets) <==> Unnoticed(b, targets)
  {
    hide Trimmable, NoStandIn, ProperIds, Forwards, ReadsMapOnlyForPopups, Full, Kept, LookTheSame, PortsKept, HarmlessMap;
    if Unnoticed(b, targets) {
      forall env, t, start, vars, visited, n: nat | Forwards(env) && ReadsMapOnlyForPopups(env) && t in Kept(b, targets).tasks
        ensures LookTheSame(Full(b), Kept(b, targets), env, t, start, vars, visited, n)
      {
        UnnoticedRuns(b, targets, env, t, start, vars, visited, n);
      }
    } else if !EdgesUnnoticed(b, targets) {
      var t, i: nat :| EnabledAt(Kept(b, targets), t, i) && !PortsKept(b, targets, t, i);
      MovedPortShows(b, targets, t, i);
    } else {
      var t, i: nat :| EnabledAt(Kept(b, targets), t, i);
      DroppedMapShows(b, targets, t, i);
    }
  }

  /** Clean cuts are unnoticed. */
  lemma CleanIsUnnoticed(b: Blueprint, targets: seq<string>)
    requires Trimmable(b, targets) && CleanCut(b, targets)
    ensures Unnoticed(b, targets)
  {
    hide Trimmable, CleanCut, NoStandIn, HarmlessMap, Selection, Called, TrimmedBlueprint, LoadBlueprint;
    CleanParts(b, targets);
    var small := Kept(b, targets);
    forall t, i: nat | EnabledAt(small, t, i) ensures PortsKept(b, targets, t, i) {
      var g := KeptTask(b, targets, t);
      assert small.tasks[t].nodes[i].nodeId in NodeIds(DocNodes(g.nodes));
      KeptSources(b, targets, g, small.tasks[t].nodes[i].nodeId);
    }
  }

  // ---------------------------------------------------------------- the premise on main

  /** A function called main that nobody calls: it stands in for the main graph until it is dropped. */
  const STAND_IN_BLUEPRINT := Blueprint(
    Counterexamples.AWorkflow(Counterexamples.ADoc("a", "log", "", ""), Counterexamples.AFunction("main", "main", "e")), EMPTY_PAGE_MAP)

  /** Without the premise on main the cut changes runs: before it node "a" of the main graph is missing,
      after it the node runs. */
  lemma DroppedStandInChangesTheRun()
    ensures var b, env, c := STAND_IN_BLUEPRINT, WitnessEnv(), Initial(MAIN_GRAPH_ID, "a", map[], map[]);
      && ValidWorkflow(b.workflow) && Trimmable(b, []) && !NoStandIn(b, []) && Forwards(env) && ReadsMapOnlyForPopups(env)
      && Shaped(Full(b), c) && Shaped(Kept(b, []), c)
      && Run(Full(b), env, 1, c) == Halted(Failed(MissingStart), map[], World(0, [MissingStart]))
      && Run(Kept(b, []), env, 1, c) == Halted(Failed(NodeCrash), map["popups" := Flag(false)], World(1, [NodeCrash]))
  {
    hide Run, Initial, ValidWorkflow, WitnessEnv, Selection, TrimmedBlueprint, Load;
    var b, env := STAND_IN_BLUEPRINT, WitnessEnv();
    var doc, f := Counterexamples.ADoc("a", "log", "", ""), Counterexamples.AFunction("main", "main", "e");
    WitnessIsAllowed();
    Counterexamples.FunctionNamedMainReplacesMain(b.pageMap);
    UncalledIsDropped(b, "a", f);
    StandInIsDropped(b);
    assert Full(b).tasks["main"] == FunctionTask(f);
    assert |"a"| == |"e"| == |"r"| == 1;
    MissingFirstTurn(Full(b), env, "main", "a");
    var small := Kept(b, []);
    OnlyMainIsLeft(b);
    Counterexamples.OnlyNodeIsFound(small.tasks["main"]);
    WitnessRun(small, "main", 0);
  }

  lemma StandInIsDropped(b: Blueprint)
    requires b == STAND_IN_BLUEPRINT && TrimmedBlueprint(b, []).workflow.functions == []
    ensures !NoStandIn(b, [])
  {
    hide Closure, Required;
    var f := b.workflow.functions[0];
    assert f.functionId == MAIN_GRAPH_ID;
    assert f !in TrimmedBlueprint(b, []).workflow.functions;
  }

  lemma OnlyMainIsLeft(b: Blueprint)
    requires b == STAND_IN_BLUEPRINT
    requires TrimmedBlueprint(b, []).workflow.main == b.workflow.main && TrimmedBlueprint(b, []).workflow.functions == []
    requires TrimmedBlueprint(b, []).pageMap == EMPTY_PAGE_MAP
    ensures var small := Kept(b, []);
      && "main" in small.tasks && small.tasks["main"].nodes == [b.workflow.main.nodes[0].node] && NoPopups(small.pageMap)
  {
  }

  lemma MissingFirstTurn(p: Project, env: Env, t: string, start: string)
    requires t in p.tasks && !Inside(p.tasks[t], start)
    ensures var c := Initial(t, start, map[], map[]);
      Shaped(p, c) && Run(p, env, 1, c) == Halted(Failed(MissingStart), map[], World(0, [MissingStart]))
  {
    hide WalkGraph, Inside;
    StartInside(p.tasks[t], start);
    RunOne(p, env, Initial(t, start, map[], map[]));
  }
}
