/** Graphs that share no node id: only a run that was entered at a function graph can be made to go on
    forever, by calling that function again. */
module Reentry {
  import opened Common
  import opened Runtime
  import opened Scheduler
  import opened StackShape
  import opened Soundness
  import opened Lookalike
  import opened Reach
  import opened Simulation
  import opened Endless

  /** A cycle of wired ports, closed by an outcome of a call. */
  ghost predicate WiredCycle(p: Project, task: Task) {
    exists s: nat, c: nat :: ClosesAt(p, task, s, c)
  }

  ghost predicate ClosesAt(p: Project, task: Task, s: nat, c: nat) {
    Reaches(p, task, AllIds(task), s, c) && LeadsBack(p, task, c, At(s))
  }

  /** `t` can fall off its end when it is called, or another function can after a call of its own. */
  ghost predicate FallsWithReset(p: Project, t: string)
    requires t in p.tasks
  {
    FallsFrom(p, p.tasks[t], EntryPlace(p, t)) || exists g :: FallsAround(p, t, g)
  }

  ghost predicate FallsAround(p: Project, t: string, g: string) {
    g != t && CanEnter(p, g) && g in p.tasks && FallsAfterCall(p, p.tasks[g], EntryPlace(p, g))
  }

  ghost predicate RunsSomething(task: Task) {
    exists i: nat :: Runs(task, i)
  }

  /** With disjoint graphs a node is reset only by starting its own graph. */
  lemma ResetByItself(p: Project, active: set<string>, t: string, id: string)
    requires DisjointGraphs(p) && t in p.tasks && id in AllIds(p.tasks[t]) && id in ResetIds(p, active)
    ensures CanEnter(p, t) && t !in active
  {
    hide CanEnter, NodeIds;
    var g :| g in p.tasks && CanEnter(p, g) && g !in active && id in AllIds(p.tasks[g]);
    assert id in NodeIds(p.tasks[g].nodes) && id in NodeIds(p.tasks[t].nodes);
  }

  lemma LoopIsReset(p: Project, t: string, active: set<string>, e: Place)
    requires DisjointGraphs(p) && t in p.tasks && Loops(p, p.tasks[t], active, e)
    ensures CanEnter(p, t) && t !in active
  {
    hide DisjointGraphs, CanEnter, Reaches, LeadsBack, ResetIds, FallResets, NodeIds;
    var task := p.tasks[t];
    if s: nat, c: nat :| CycleAt(p, task, active, e.index, s, c) {
      ReachEnds(p, task, ResetIds(p, active), s, c);
      IdOf(task, s);
      ResetByItself(p, active, t, task.nodes[s].nodeId);
    } else {
      var s: nat :| FallBackAt(p, task, active, e.index, s);
      FallResetsAreResets(p, active, task.nodes[s].nodeId);
      IdOf(task, s);
      ResetByItself(p, active, t, task.nodes[s].nodeId);
    }
  }

  lemma LoopIsWired(p: Project, t: string, e: Place)
    requires DisjointGraphs(p) && t in p.tasks && Loops(p, p.tasks[t], {}, e)
    ensures WiredCycle(p, p.tasks[t]) || (RunsSomething(p.tasks[t]) && FallsWithReset(p, t))
  {
    hide DisjointGraphs, CanEnter, Reaches, LeadsBack, ResetIds, FallResets, NodeIds, FallsFrom, FallsAfterCall;
    var task := p.tasks[t];
    if s: nat, c: nat :| CycleAt(p, task, {}, e.index, s, c) {
      ReachesAtAll(p, task, ResetIds(p, {}), s, c);
      assert ClosesAt(p, task, s, c);
    } else {
      var s: nat :| FallBackAt(p, task, {}, e.index, s);
      IdOf(task, s);
      FallResetIsWired(p, t, task.nodes[s].nodeId);
    }
  }

  lemma FallResetIsWired(p: Project, t: string, id: string)
    requires DisjointGraphs(p) && t in p.tasks && id in AllIds(p.tasks[t]) && FallResets(p, {}, id)
    ensures FallsWithReset(p, t)
  {
    hide CanEnter, ResetIds, NodeIds, FallsFrom, FallsAfterCall;
    var g :| FallResetsBy(p, {}, id, g);
    EnterIsLoaded(p, g);
    if id in AllIds(p.tasks[g]) {
      assert id in NodeIds(p.tasks[g].nodes) && id in NodeIds(p.tasks[t].nodes);
    } else {
      ResetByItself(p, {} + {g}, t, id);
      assert FallsAround(p, t, g);
    }
  }

  lemma OwnIdsAreReset(p: Project, t: string)
    requires CanEnter(p, t)
    ensures t in p.tasks && AllIds(p.tasks[t]) <= ResetIds(p, {})
  {
    hide CanEnter;
    EnterIsLoaded(p, t);
  }

  lemma WiredCycleLoops(p: Project, t: string)
    requires CanEnter(p, t) && t in p.tasks && WiredCycle(p, p.tasks[t])
    ensures CanLoop(p, t)
  {
    hide CanEnter, Reaches, FindEdgeJump, OutEdges, ResetIds, FallBackAt;
    var task := p.tasks[t];
    var s: nat, c: nat :| ClosesAt(p, task, s, c);
    OwnIdsAreReset(p, t);
    ReachesInMore(p, task, AllIds(task), ResetIds(p, {}), s, c);
    ReachEnds(p, task, AllIds(task), s, c);
    ReachesItself(p, task, AllIds(task), s);
    var k :| k != "" && PortPlace(p, task, c, "", k) == At(s);
    var start := FindEdgeJump(OutEdges(p.edges, task.nodes[c].nodeId), "", k);
    assert StartPlace(task, start) == At(s);
    assert CycleAt(p, task, {}, s, s, c);
  }

  lemma FallingLoops(p: Project, t: string)
    requires CanEnter(p, t) && t in p.tasks && RunsSomething(p.tasks[t]) && FallsWithReset(p, t)
    ensures CanLoop(p, t)
  {
    hide CanEnter, Reaches, ResetIds, CycleAt, FallsFrom, FallsAfterCall;
    var task := p.tasks[t];
    var i: nat :| Runs(task, i);
    FirstRuns(task, i);
    PlacesRun(task, "");
    var s := StartPlace(task, "").index;
    var id := task.nodes[s].nodeId;
    IdOf(task, s);
    if FallsFrom(p, task, EntryPlace(p, t)) {
      assert FallResetsBy(p, {}, id, t);
    } else {
      var g :| FallsAround(p, t, g);
      FallsAfterCallFalls(p, p.tasks[g], EntryPlace(p, g));
      ResetByOther(p, t, g, id);
      assert FallResetsBy(p, {}, id, g);
    }
    assert FallBackAt(p, task, {}, s, s);
  }

  lemma ResetByOther(p: Project, t: string, g: string, id: string)
    requires CanEnter(p, t) && t in p.tasks && t != g && id in AllIds(p.tasks[t])
    ensures id in ResetIds(p, {} + {g})
  {
    hide CanEnter;
  }

  /** When no two graphs share a node id, a loop can be reached exactly if the entry graph is itself a
      function some call can start, and it has a wired cycle or something falls off around it. */
  lemma DisjointLoopsIff(p: Project, t: string)
    requires DisjointGraphs(p) && t in p.tasks
    ensures CanLoop(p, t) <==>
      CanEnter(p, t) && (WiredCycle(p, p.tasks[t]) || (RunsSomething(p.tasks[t]) && FallsWithReset(p, t)))
  {
    hide DisjointGraphs, CanEnter, WiredCycle, RunsSomething, FallsWithReset, Loops, StartPlace;
    if CanLoop(p, t) {
      if f :| LoopingCallee(p, f) {
        EnterIsLoaded(p, f);
        LoopIsReset(p, f, {f}, EntryPlace(p, f));
        assert false;
      } else {
        var start :| Loops(p, p.tasks[t], {}, StartPlace(p.tasks[t], start));
        LoopIsReset(p, t, {}, StartPlace(p.tasks[t], start));
        LoopIsWired(p, t, StartPlace(p.tasks[t], start));
      }
    } else if CanEnter(p, t) {
      if WiredCycle(p, p.tasks[t]) { WiredCycleLoops(p, t); }
      if RunsSomething(p.tasks[t]) && FallsWithReset(p, t) { FallingLoops(p, t); }
    }
  }

  /** So their runs end, in every environment, exactly if the entry graph cannot be called, or a call of
      it can bring no visit back: no wired cycle, and nothing that falls off around it. */
  lemma DisjointRunsEndIff(p: Project, t: string)
    requires DisjointGraphs(p) && EntriesRun(p) && t in p.tasks
    ensures EveryRunEnds(p, t) <==>
      !CanEnter(p, t) || (!WiredCycle(p, p.tasks[t]) && !(RunsSomething(p.tasks[t]) && FallsWithReset(p, t)))
  {
    hide DisjointGraphs, EntriesRun, CanEnter, WiredCycle, RunsSomething, FallsWithReset, EveryRunEnds, CanLoop;
    RunsEndIff(p, t);
    DisjointLoopsIff(p, t);
  }
}
