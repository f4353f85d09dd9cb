/** Where control can go inside one graph, which node ids a call can make the scheduler forget, and
    the two ways in which the two together let a run go on forever. */
module Reach {
  import opened Common
  import opened Runtime
  import opened Scheduler
  import opened Parameters
  import opened Soundness
  import opened Lookalike

  // ---------------------------------------------------------------- inside one graph

  predicate Runs(task: Task, i: nat) {
    i < |task.nodes| && task.nodes[i].enabled
  }

  function PortPlace(p: Project, task: Task, i: nat, port: string, id: string): Place
    requires i < |task.nodes|
  {
    PlaceOf(task, FindEdgeJump(OutEdges(p.edges, task.nodes[i].nodeId), port, id))
  }

  /** Some port of the enabled node `i` leads to `q`. */
  ghost predicate Leads(p: Project, task: Task, i: nat, q: Place) {
    Runs(task, i) && exists port, id :: PortPlace(p, task, i, port, id) == q
  }

  /** Some outcome of a call made at the enabled node `i` leads on to `q`. */
  ghost predicate LeadsBack(p: Project, task: Task, i: nat, q: Place) {
    Runs(task, i) && exists k :: k != "" && PortPlace(p, task, i, "", k) == q
  }

  /** A walk along wired ports that meets only nodes whose ids are in `ids`. */
  ghost predicate Path(p: Project, task: Task, ids: set<string>, path: seq<nat>) {
    && path != []
    && (forall x :: 0 <= x < |path| ==> Runs(task, path[x]) && task.nodes[path[x]].nodeId in ids)
    && (forall x :: 0 <= x < |path| - 1 ==> Leads(p, task, path[x], At(path[x + 1])))
  }

  ghost predicate Joins(p: Project, task: Task, ids: set<string>, i: nat, j: nat, path: seq<nat>) {
    Path(p, task, ids, path) && path[0] == i && path[|path| - 1] == j
  }

  ghost predicate Reaches(p: Project, task: Task, ids: set<string>, i: nat, j: nat) {
    exists path :: Joins(p, task, ids, i, j, path)
  }

  function AllIds(task: Task): set<string> {
    NodeIds(task.nodes)
  }

  lemma IdOf(task: Task, i: nat)
    requires i < |task.nodes|
    ensures task.nodes[i].nodeId in AllIds(task)
  {
  }

  lemma ReachesItself(p: Project, task: Task, ids: set<string>, i: nat)
    requires Runs(task, i) && task.nodes[i].nodeId in ids
    ensures Reaches(p, task, ids, i, i)
  {
    assert Joins(p, task, ids, i, i, [i]);
  }

  lemma ReachesFirst(p: Project, task: Task, ids: set<string>, i: nat, j: nat, k: nat)
    requires Runs(task, i) && task.nodes[i].nodeId in ids && Leads(p, task, i, At(j)) && Reaches(p, task, ids, j, k)
    ensures Reaches(p, task, ids, i, k)
  {
    hide Leads;
    var path :| Joins(p, task, ids, j, k, path);
    var longer := [i] + path;
    forall x | 0 <= x < |longer| - 1 ensures Leads(p, task, longer[x], At(longer[x + 1])) {
      if x > 0 { assert longer[x] == path[x - 1] && longer[x + 1] == path[x]; }
    }
    forall x | 0 <= x < |longer| ensures Runs(task, longer[x]) && task.nodes[longer[x]].nodeId in ids {
      if x > 0 { assert longer[x] == path[x - 1]; }
    }
    assert Joins(p, task, ids, i, k, longer);
  }

  lemma ReachesThrough(p: Project, task: Task, ids: set<string>, i: nat, j: nat, k: nat)
    requires Reaches(p, task, ids, i, j) && Reaches(p, task, ids, j, k)
    ensures Reaches(p, task, ids, i, k)
  {
    var path :| Joins(p, task, ids, i, j, path);
    PathThrough(p, task, ids, j, k, path);
  }

  lemma {:induction false} PathThrough(p: Project, task: Task, ids: set<string>, j: nat, k: nat, path: seq<nat>)
    requires Path(p, task, ids, path) && path[|path| - 1] == j && Reaches(p, task, ids, j, k)
    ensures Reaches(p, task, ids, path[0], k)
    decreases |path|
  {
    hide Leads, Runs;
    if |path| > 1 {
      var rest := path[1..];
      assert forall x :: 0 <= x < |rest| ==> rest[x] == path[x + 1];
      PathThrough(p, task, ids, j, k, rest);
      RunsUnfolds(task, path[0]);
      ReachesFirst(p, task, ids, path[0], path[1], k);
    }
  }

  lemma RunsUnfolds(task: Task, i: nat)
    ensures Runs(task, i) <==> i < |task.nodes| && task.nodes[i].enabled
  {
  }

  lemma ReachesLast(p: Project, task: Task, ids: set<string>, i: nat, j: nat, k: nat)
    requires Reaches(p, task, ids, i, j) && Leads(p, task, j, At(k)) && Runs(task, k) && task.nodes[k].nodeId in ids
    ensures Reaches(p, task, ids, i, k)
  {
    hide Leads;
    ReachesItself(p, task, ids, k);
    ReachEnds(p, task, ids, i, j);
    ReachesFirst(p, task, ids, j, k, k);
    ReachesThrough(p, task, ids, i, j, k);
  }

  lemma ReachEnds(p: Project, task: Task, ids: set<string>, i: nat, j: nat)
    requires Reaches(p, task, ids, i, j)
    ensures Runs(task, i) && Runs(task, j) && task.nodes[i].nodeId in ids && task.nodes[j].nodeId in ids
  {
    hide Leads;
    var path :| Joins(p, task, ids, i, j, path);
  }

  lemma ReachesInMore(p: Project, task: Task, ids: set<string>, more: set<string>, i: nat, j: nat)
    requires ids <= more && Reaches(p, task, ids, i, j)
    ensures Reaches(p, task, more, i, j)
  {
    hide Leads;
    var path :| Joins(p, task, ids, i, j, path);
    assert Joins(p, task, more, i, j, path);
  }

  /** Reachability of some kind is reachability. */
  lemma ReachesAtAll(p: Project, task: Task, ids: set<string>, i: nat, j: nat)
    requires Reaches(p, task, ids, i, j)
    ensures Reaches(p, task, AllIds(task), i, j)
  {
    hide Leads;
    var path :| Joins(p, task, ids, i, j, path);
    forall x | 0 <= x < |path| ensures task.nodes[path[x]].nodeId in AllIds(task) {
      IdOf(task, path[x]);
    }
    assert Joins(p, task, AllIds(task), i, j, path);
  }

  lemma BackIsALead(p: Project, task: Task, i: nat, q: Place)
    requires LeadsBack(p, task, i, q)
    ensures Leads(p, task, i, q)
  {
  }

  lemma PlacesRun(task: Task, start: string)
    ensures StartPlace(task, start).At? ==> Runs(task, StartPlace(task, start).index)
    ensures PlaceOf(task, start).At? ==> Runs(task, PlaceOf(task, start).index)
  {
    hide IndexOf;
  }

  // ---------------------------------------------------------------- running off the end

  /** From `q` control can get past the last enabled node. */
  ghost predicate FallsFrom(p: Project, task: Task, q: Place) {
    || q == PastEnd
    || (q.At? && exists y: nat :: Reaches(p, task, AllIds(task), q.index, y) && Leads(p, task, y, PastEnd))
  }

  /** And it can do so after a call has returned to some outcome's node. */
  ghost predicate FallsAfterCall(p: Project, task: Task, q: Place) {
    q.At? && exists y: nat, r: Place :: Reaches(p, task, AllIds(task), q.index, y) && LeadsBack(p, task, y, r) && FallsFrom(p, task, r)
  }

  lemma FallsFromEarlier(p: Project, task: Task, i: nat, y: nat, r: Place)
    requires Reaches(p, task, AllIds(task), i, y) && Leads(p, task, y, r) && FallsFrom(p, task, r)
    requires r.At? ==> Runs(task, r.index)
    ensures FallsFrom(p, task, At(i))
  {
    hide Leads, Reaches;
    if r.At? {
      var z: nat :| Reaches(p, task, AllIds(task), r.index, z) && Leads(p, task, z, PastEnd);
      IdOf(task, r.index);
      ReachesLast(p, task, AllIds(task), i, y, r.index);
      ReachesThrough(p, task, AllIds(task), i, r.index, z);
    }
  }

  lemma FallsAfterCallFalls(p: Project, task: Task, q: Place)
    requires FallsAfterCall(p, task, q)
    ensures FallsFrom(p, task, q)
  {
    hide Reaches, FallsFrom, Leads;
    var y: nat, r: Place :| Reaches(p, task, AllIds(task), q.index, y) && LeadsBack(p, task, y, r) && FallsFrom(p, task, r);
    BackIsALead(p, task, y, r);
    LeadsRun(p, task, y, r);
    FallsFromEarlier(p, task, q.index, y, r);
  }

  lemma LeadsRun(p: Project, task: Task, i: nat, q: Place)
    requires Leads(p, task, i, q)
    ensures q.At? ==> Runs(task, q.index)
  {
    hide FindEdgeJump, OutEdges;
    var port, id :| PortPlace(p, task, i, port, id) == q;
    PlacesRun(task, FindEdgeJump(OutEdges(p.edges, task.nodes[i].nodeId), port, id));
  }

  // ---------------------------------------------------------------- what a call can reset

  /** Some call in some environment starts `g`: calls name it stripped, and can supply what it needs. */
  ghost predicate CanEnter(p: Project, g: string) {
    g != "" && Trimmed(g) && IsFunction(p, g) && Suppliable(p.tasks[g])
  }

  function EntryPlace(p: Project, g: string): Place
    requires g in p.tasks
  {
    StartPlace(p.tasks[g], p.tasks[g].entry)
  }

  /** The node ids whose counters are forgotten by starting some function, the open ones in `active`
      aside. */
  ghost function ResetIds(p: Project, active: set<string>): set<string> {
    set g, id | g in p.tasks && CanEnter(p, g) && g !in active && id in AllIds(p.tasks[g]) :: id
  }

  /** The same, for calls that end by falling off and send their caller back to where it started. */
  ghost predicate FallResets(p: Project, active: set<string>, id: string) {
    exists g :: FallResetsBy(p, active, id, g)
  }

  ghost predicate FallResetsBy(p: Project, active: set<string>, id: string, g: string) {
    && CanEnter(p, g) && g !in active && FallsFrom(p, p.tasks[g], EntryPlace(p, g))
    && (id in AllIds(p.tasks[g]) || (FallsAfterCall(p, p.tasks[g], EntryPlace(p, g)) && id in ResetIds(p, active + {g})))
  }

  lemma FewerResets(p: Project, active: set<string>, more: set<string>)
    requires active <= more
    ensures ResetIds(p, more) <= ResetIds(p, active)
    ensures forall id :: FallResets(p, more, id) ==> FallResets(p, active, id)
  {
    hide CanEnter, FallsFrom, FallsAfterCall;
    forall id | FallResets(p, more, id) ensures FallResets(p, active, id) {
      var g :| FallResetsBy(p, more, id, g);
      assert ResetIds(p, more + {g}) <= ResetIds(p, active + {g});
      assert FallResetsBy(p, active, id, g);
    }
  }

  /** Starting `g` and whatever it calls resets nothing else. */
  lemma CalleeResets(p: Project, active: set<string>, g: string)
    requires CanEnter(p, g) && g !in active
    ensures AllIds(p.tasks[g]) + ResetIds(p, active + {g}) <= ResetIds(p, active)
  {
    hide CanEnter;
    FewerResets(p, active, active + {g});
    EnterIsLoaded(p, g);
    forall id | id in AllIds(p.tasks[g]) ensures id in ResetIds(p, active) {
    }
  }

  lemma EnterIsLoaded(p: Project, g: string)
    requires CanEnter(p, g)
    ensures g in p.tasks && p.tasks[g].role == "function"
  {
  }

  lemma FallResetsAreResets(p: Project, active: set<string>, id: string)
    requires FallResets(p, active, id)
    ensures id in ResetIds(p, active)
  {
    hide CanEnter, FallsFrom, FallsAfterCall, ResetIds;
    var g :| FallResetsBy(p, active, id, g);
    CalleeResets(p, active, g);
  }

  // ---------------------------------------------------------------- going on forever

  /** A frame that entered at node `e` may be started or resumed at `s`. */
  ghost predicate Restart(p: Project, task: Task, e: nat, s: nat) {
    Runs(task, s) && (s == e || exists y: nat :: Reaches(p, task, AllIds(task), e, y) && LeadsBack(p, task, y, At(s)))
  }

  /** A cycle of wired ports, closed by an outcome of a call, on which every node can be reset. */
  ghost predicate CycleAt(p: Project, task: Task, active: set<string>, e: nat, s: nat, c: nat) {
    Reaches(p, task, AllIds(task), e, s) && Reaches(p, task, ResetIds(p, active), s, c) && LeadsBack(p, task, c, At(s))
  }

  /** A place to start from that calls which fall off can reset. */
  ghost predicate FallBackAt(p: Project, task: Task, active: set<string>, e: nat, s: nat) {
    Restart(p, task, e, s) && FallResets(p, active, task.nodes[s].nodeId)
  }

  /** A frame of this graph, entered at `e` with the functions `active` open, need never end. */
  ghost predicate Loops(p: Project, task: Task, active: set<string>, e: Place) {
    e.At? && ((exists s: nat, c: nat :: CycleAt(p, task, active, e.index, s, c)) || (exists s: nat :: FallBackAt(p, task, active, e.index, s)))
  }

  lemma FewerLoops(p: Project, task: Task, active: set<string>, more: set<string>, e: Place)
    requires active <= more && Loops(p, task, more, e)
    ensures Loops(p, task, active, e)
  {
    hide Reaches, LeadsBack, FallResets, ResetIds;
    FewerResets(p, active, more);
    if s: nat, c: nat :| CycleAt(p, task, more, e.index, s, c) {
      ReachesInMore(p, task, ResetIds(p, more), ResetIds(p, active), s, c);
      assert CycleAt(p, task, active, e.index, s, c);
    } else {
      var s: nat :| FallBackAt(p, task, more, e.index, s);
      assert FallResets(p, more, task.nodes[s].nodeId);
      assert FallBackAt(p, task, active, e.index, s);
    }
  }

  /** Some run entered at graph `t` need never end: in `t` itself, or in a function called from it. */
  ghost predicate CanLoop(p: Project, t: string)
    requires t in p.tasks
  {
    || (exists start :: Loops(p, p.tasks[t], {}, StartPlace(p.tasks[t], start)))
    || ((exists i: nat :: Runs(p.tasks[t], i)) && exists f :: LoopingCallee(p, f))
  }

  ghost predicate LoopingCallee(p: Project, f: string) {
    CanEnter(p, f) && Loops(p, p.tasks[f], {f}, EntryPlace(p, f))
  }
}
