/** When runs end: exactly if no loop can be reached. */
module Endless {
  import opened Common
  import opened Runtime
  import opened Scheduler
  import opened StackShape
  import opened Parameters
  import opened Soundness
  import opened Lookalike
  import opened Reach
  import opened Halting
  import opened Looping

  // ---------------------------------------------------------------- going on

  ghost predicate Forever(p: Project, env: Env, c: Config) {
    Shaped(p, c) && forall n: nat :: Run(p, env, n, c).Live?
  }

  lemma LiveEarlier(p: Project, env: Env, c: Config, n: nat, m: nat)
    requires Shaped(p, c) && n <= m && Run(p, env, m, c).Live?
    ensures Run(p, env, n, c).Live?
  {
    hide Run, Shaped;
    if Run(p, env, n, c).Halted? { StaysHalted(p, env, c, n, m); }
  }

  lemma ForeverFrom(p: Project, env: Env, c: Config, k: nat)
    requires Shaped(p, c) && Forever(p, env, Run(p, env, k, c))
    ensures Forever(p, env, c)
  {
    hide Run, Shaped;
    forall n: nat ensures Run(p, env, n, c).Live? {
      RunAdds(p, env, k, n, c);
      LiveEarlier(p, env, c, n, k + n);
    }
  }

  // ---------------------------------------------------------------- scripts

  predicate Laps(laps: seq<seq<NodeResult>>, size: nat) {
    size > 0 && laps != [] && forall i :: 0 <= i < |laps| ==> |laps[i]| == size
  }

  /** `pre`, and then the laps in turn, over and over. */
  function Script(pre: seq<NodeResult>, laps: seq<seq<NodeResult>>, size: nat): nat -> NodeResult
    requires Laps(laps, size)
  {
    (tick: nat) => ScriptAt(pre, laps, size, tick)
  }

  function ScriptAt(pre: seq<NodeResult>, laps: seq<seq<NodeResult>>, size: nat, tick: nat): NodeResult
    requires Laps(laps, size)
  {
    if tick < |pre| then pre[tick]
    else
      var lap := laps[((tick - |pre|) / size) % |laps|];
      lap[(tick - |pre|) % size]
  }

  ghost predicate ReadsLaps(script: nat -> NodeResult, t: nat, laps: seq<seq<NodeResult>>, size: nat)
    requires laps != []
  {
    forall l: nat :: Reads(script, LapStart(t, l, size), laps[l % |laps|])
  }

  function LapStart(t: nat, l: nat, size: nat): nat {
    if l == 0 then t else LapStart(t, l - 1, size) + size
  }

  lemma {:induction false} LapStartIs(t: nat, l: nat, size: nat)
    ensures LapStart(t, l, size) == t + l * size
  {
    if l > 0 { LapStartIs(t, l - 1, size); }
  }

  lemma NoMultiple(a: int, size: nat)
    ensures a >= 1 ==> a * size >= size
    ensures a <= -1 ==> a * size <= -(size as int)
  {
  }

  lemma Divide(l: nat, size: nat, x: nat)
    requires x < size
    ensures (l * size + x) / size == l && (l * size + x) % size == x
  {
    var n := l * size + x;
    assert n == (n / size) * size + n % size;
    var q, r := n / size, n % size;
    assert (l - q) * size == r - x;
    NoMultiple(l - q, size);
  }

  lemma ScriptReads(pre: seq<NodeResult>, laps: seq<seq<NodeResult>>, size: nat)
    requires Laps(laps, size)
    ensures Reads(Script(pre, laps, size), 0, pre) && ReadsLaps(Script(pre, laps, size), |pre|, laps, size)
  {
    var script := Script(pre, laps, size);
    forall l: nat ensures Reads(script, LapStart(|pre|, l, size), laps[l % |laps|]) {
      LapStartIs(|pre|, l, size);
      forall x: nat | x < |laps[l % |laps|]| ensures script(LapStart(|pre|, l, size) + x) == laps[l % |laps|][x] {
        Divide(l, size, x);
      }
    }
  }

  lemma ReadsParts(script: nat -> NodeResult, t: nat, a: seq<NodeResult>, b: seq<NodeResult>)
    requires Reads(script, t, a + b)
    ensures Reads(script, t, a) && Reads(script, t + |a|, b)
  {
    forall x: nat | x < |a| ensures script(t + x) == a[x] {
      assert (a + b)[x] == a[x];
    }
    forall x: nat | x < |b| ensures script(t + |a| + x) == b[x] {
      assert (a + b)[|a| + x] == b[x];
    }
  }

  // ---------------------------------------------------------------- round a cycle

  /** Laps since the counter of path node `i` was last reset, at the start of a lap at position `r`. */
  function Age(i: nat, r: nat, m: nat): nat
    requires i < m && r < m
  {
    if i < r then r - i else m + r - i
  }

  function Times(n: nat, size: nat): nat {
    if n == 0 then 0 else Times(n - 1, size) + size
  }

  lemma {:induction false} TimesGrows(a: nat, b: nat, size: nat)
    requires a <= b
    ensures Times(a, size) <= Times(b, size)
  {
    if a < b { TimesGrows(a, b - 1, size); }
  }

  /** A cycle in graph `t`: a path whose last node leads back to the first by outcome `k`; function
      `resets[i]` resets the counter of node `i` of the path. */
  ghost predicate Cycle(p: Project, t: string, active: set<string>, path: seq<nat>, turns: seq<Branch>, resets: seq<string>, k: string) {
    && t in p.tasks && path != [] && Turns(p, p.tasks[t], path, turns) && |resets| == |path|
    && path[|path| - 1] < |p.tasks[t].nodes| && k != "" && PortPlace(p, p.tasks[t], path[|path| - 1], "", k) == At(path[0])
    && forall i :: 0 <= i < |path| ==> ResetBy(p, p.tasks[t], active, path[i], resets[i])
  }

  ghost predicate ResetBy(p: Project, task: Task, active: set<string>, i: nat, g: string) {
    && CanEnter(p, g) && g in p.tasks && g !in active && EntryPlace(p, g).At?
    && i < |task.nodes| && task.nodes[i].nodeId in AllIds(p.tasks[g])
  }

  function CycleLaps(p: Project, turns: seq<Branch>, resets: seq<string>, k: string): (laps: seq<seq<NodeResult>>)
    requires forall i :: 0 <= i < |resets| ==> resets[i] in p.tasks
    ensures |laps| == |resets| && forall i :: 0 <= i < |laps| ==> laps[i] == Steered(turns) + [CallOf(p, resets[i]), ReturnOf(k)]
  {
    seq(|resets|, i requires 0 <= i < |resets| => Steered(turns) + [CallOf(p, resets[i]), ReturnOf(k)])
  }

  ghost predicate Ages(task: Task, path: seq<nat>, visited: map<string, nat>, n0: nat, r: nat)
    requires r < |path|
  {
    forall i :: 0 <= i < |path| && path[i] < |task.nodes| ==>
      Count(visited, task.nodes[path[i]].nodeId) <= n0 + Times(Age(i, r, |path|), |path| + 1)
  }

  ghost predicate AtLap(p: Project, c: Config, t: string, active: set<string>, path: seq<nat>, n0: nat, t0: nat, l: nat)
    requires path != [] && t in p.tasks
  {
    && Standing(p, c, t, active, path[0]) && |c.st.stack| <= MAX_CALL_DEPTH
    && c.st.world.tick == LapStart(t0, l, |path| + 1)
    && Ages(p.tasks[t], path, c.st.visited, n0, l % |path|)
  }

  lemma AgesSpare(p: Project, c: Config, task: Task, path: seq<nat>, n0: nat, r: nat, maxVisits: int)
    requires c.Live? && c.st.stack != [] && TopFrame(c).taskId in p.tasks && p.tasks[TopFrame(c).taskId] == task
    requires r < |path| && Ages(task, path, c.st.visited, n0, r) && maxVisits >= n0 + Times(|path|, |path| + 1) + |path|
    ensures Spare(task, path, Fresh(p, c), maxVisits)
  {
    FreshIsLower(p, c);
    forall id | id in PathIds(task, path) ensures Count(Fresh(p, c), id) + |path| <= maxVisits {
      var i :| 0 <= i < |path| && path[i] < |task.nodes| && task.nodes[path[i]].nodeId == id;
      TimesGrows(Age(i, r, |path|), |path|, |path| + 1);
      assert Count(Fresh(p, c), id) <= Count(c.st.visited, id);
    }
  }

  lemma NextPosition(l: nat, m: nat)
    requires m > 0
    ensures (l + 1) % m == if l % m + 1 == m then 0 else l % m + 1
  {
    var q, r := l / m, l % m;
    assert l == q * m + r;
    if r + 1 == m {
      assert l + 1 == (q + 1) * m + 0;
      Divide(q + 1, m, 0);
    } else {
      Divide(q, m, r + 1);
    }
  }

  lemma AgesGrow(task: Task, path: seq<nat>, a: map<string, nat>, b: map<string, nat>, n0: nat, l: nat, reset: set<string>)
    requires path != [] && Ages(task, path, a, n0, l % |path|)
    requires Bounded(reset, 1, |path|, a, b)
    requires path[l % |path|] < |task.nodes| && task.nodes[path[l % |path|]].nodeId in reset
    ensures Ages(task, path, b, n0, (l + 1) % |path|)
  {
    var m, r := |path|, l % |path|;
    NextPosition(l, m);
    var r' := (l + 1) % m;
    forall i | 0 <= i < m && path[i] < |task.nodes|
      ensures Count(b, task.nodes[path[i]].nodeId) <= n0 + Times(Age(i, r', m), m + 1)
    {
      var id := task.nodes[path[i]].nodeId;
      if id in reset {
        TimesGrows(1, Age(i, r', m), m + 1);
        assert Times(1, m + 1) == m + 1;
      } else {
        assert i != r;
        assert Age(i, r', m) == Age(i, r, m) + 1;
      }
    }
  }

  lemma NextLap(p: Project, script: nat -> NodeResult, maxVisits: int, c: Config, t: string, active: set<string>, path: seq<nat>,
      turns: seq<Branch>, resets: seq<string>, k: string, n0: nat, t0: nat, l: nat)
    requires Cycle(p, t, active, path, turns, resets, k) && AtLap(p, c, t, active, path, n0, t0, l)
    requires ReadsLaps(script, t0, CycleLaps(p, turns, resets, k), |path| + 1)
    requires maxVisits >= n0 + Times(|path|, |path| + 1) + |path|
    ensures Shaped(p, c) && AtLap(p, Run(p, ScriptEnv(script, maxVisits), 2, c), t, active, path, n0, t0, l + 1)
  {
    hide Run, ScriptEnv, Turns, Reads, Standing, Steered, PortPlace, CanEnter, CallOf, ReturnOf, Fresh, Bounded, Spare, Ages, EntryPlace, AllIds;
    var task, r, laps := p.tasks[t], l % |path|, CycleLaps(p, turns, resets, k);
    StandingFacts(p, c, t, active, path[0]);
    assert ResetBy(p, task, active, path[r], resets[r]);
    AgesSpare(p, c, task, path, n0, r, maxVisits);
    assert Reads(script, LapStart(t0, l, |path| + 1), laps[l % |laps|]);
    Hop(p, script, maxVisits, c, t, active, path, turns, resets[r], k, path[0]);
    var d := Run(p, ScriptEnv(script, maxVisits), 2, c);
    StandingFacts(p, d, t, active, path[0]);
    AgesGrow(task, path, c.st.visited, d.st.visited, n0, l, AllIds(p.tasks[resets[r]]));
  }

  lemma {:induction false} LapsOn(p: Project, script: nat -> NodeResult, maxVisits: int, c: Config, t: string, active: set<string>,
      path: seq<nat>, turns: seq<Branch>, resets: seq<string>, k: string, n0: nat, t0: nat, l: nat)
    requires Cycle(p, t, active, path, turns, resets, k) && AtLap(p, c, t, active, path, n0, t0, 0)
    requires ReadsLaps(script, t0, CycleLaps(p, turns, resets, k), |path| + 1)
    requires maxVisits >= n0 + Times(|path|, |path| + 1) + |path|
    ensures Shaped(p, c) && AtLap(p, Run(p, ScriptEnv(script, maxVisits), 2 * l, c), t, active, path, n0, t0, l)
    decreases l
  {
    hide Run, ScriptEnv, Standing, Cycle, AtLap, ReadsLaps, CycleLaps;
    CycleFacts(p, t, active, path, turns, resets, k);
    AtLapFacts(p, c, t, active, path, n0, t0, 0);
    var env := ScriptEnv(script, maxVisits);
    if l == 0 {
      RunZero(p, env, c);
    } else {
      LapsOn(p, script, maxVisits, c, t, active, path, turns, resets, k, n0, t0, l - 1);
      var d := Run(p, env, 2 * (l - 1), c);
      NextLap(p, script, maxVisits, d, t, active, path, turns, resets, k, n0, t0, l - 1);
      RunAdds(p, env, 2 * (l - 1), 2, c);
    }
  }

  lemma CycleFacts(p: Project, t: string, active: set<string>, path: seq<nat>, turns: seq<Branch>, resets: seq<string>, k: string)
    requires Cycle(p, t, active, path, turns, resets, k)
    ensures t in p.tasks && path != [] && |resets| == |path| && forall i :: 0 <= i < |resets| ==> resets[i] in p.tasks
  {
    assert forall i :: 0 <= i < |path| ==> ResetBy(p, p.tasks[t], active, path[i], resets[i]);
  }

  lemma AtLapFacts(p: Project, c: Config, t: string, active: set<string>, path: seq<nat>, n0: nat, t0: nat, l: nat)
    requires path != [] && t in p.tasks && AtLap(p, c, t, active, path, n0, t0, l)
    ensures Shaped(p, c) && c.Live?
  {
  }

  lemma CycleForever(p: Project, script: nat -> NodeResult, maxVisits: int, c: Config, t: string, active: set<string>, path: seq<nat>,
      turns: seq<Branch>, resets: seq<string>, k: string, n0: nat)
    requires Cycle(p, t, active, path, turns, resets, k) && Standing(p, c, t, active, path[0]) && |c.st.stack| <= MAX_CALL_DEPTH
    requires forall id :: Count(c.st.visited, id) <= n0
    requires ReadsLaps(script, c.st.world.tick, CycleLaps(p, turns, resets, k), |path| + 1)
    requires maxVisits >= n0 + Times(|path|, |path| + 1) + |path|
    ensures Forever(p, ScriptEnv(script, maxVisits), c)
  {
    hide Run, ScriptEnv, Standing, Cycle, ReadsLaps, CycleLaps, Shaped;
    CycleFacts(p, t, active, path, turns, resets, k);
    StandingFacts(p, c, t, active, path[0]);
    var env, t0 := ScriptEnv(script, maxVisits), c.st.world.tick;
    assert AtLap(p, c, t, active, path, n0, t0, 0);
    forall n: nat ensures Run(p, env, n, c).Live? {
      LapsOn(p, script, maxVisits, c, t, active, path, turns, resets, k, n0, t0, n);
      AtLapFacts(p, Run(p, env, 2 * n, c), t, active, path, n0, t0, n);
      LiveEarlier(p, env, c, n, 2 * n);
    }
  }

  // ---------------------------------------------------------------- starting over

  /** A call from `s` of graph `t` that falls off and has reset the counter of `s`.  `again` is empty, or
      the function it calls itself on the way. */
  datatype FallPlan = FallPlan(g: string, path: seq<nat>, turns: seq<Branch>, b: Branch, calls: bool, g2: string, k: string,
    q: Place, tail: seq<nat>, turns3: seq<Branch>)

  ghost predicate Falls(p: Project, t: string, active: set<string>, s: nat, f: FallPlan) {
    && t in p.tasks && Runs(p.tasks[t], s)
    && CanEnter(p, f.g) && f.g in p.tasks && f.g !in active
    && f.path != [] && EntryPlace(p, f.g) == At(f.path[0]) && Turns(p, p.tasks[f.g], f.path, f.turns)
    && f.path[|f.path| - 1] < |p.tasks[f.g].nodes|
    && if f.calls then
         && f.k != "" && PortPlace(p, p.tasks[f.g], f.path[|f.path| - 1], "", f.k) == f.q && f.q != Ends
         && CanEnter(p, f.g2) && f.g2 in p.tasks && f.g2 !in active + {f.g} && EntryPlace(p, f.g2).At?
         && Tail(p, p.tasks[f.g], f.q, f.tail, f.turns3, f.b)
         && p.tasks[t].nodes[s].nodeId in AllIds(p.tasks[f.g]) + AllIds(p.tasks[f.g2])
       else
         && f.tail == [] && PortPlace(p, p.tasks[f.g], f.path[|f.path| - 1], f.b.port, f.b.id) == PastEnd
         && p.tasks[t].nodes[s].nodeId in AllIds(p.tasks[f.g])
  }

  function FallLap(p: Project, f: FallPlan): seq<NodeResult>
    requires f.g in p.tasks && (f.calls ==> f.g2 in p.tasks)
  {
    if f.calls then [CallOf(p, f.g)] + (Steered(f.turns) + [CallOf(p, f.g2), ReturnOf(f.k)]) + TailScript(f.tail, f.turns3, f.b)
    else [CallOf(p, f.g)] + (Steered(f.turns) + [Steer(f.b)])
  }

  function FallSize(f: FallPlan): nat {
    if f.calls then |f.path| + 2 + |f.tail| else |f.path| + 1
  }

  lemma FallLapSize(p: Project, t: string, active: set<string>, s: nat, f: FallPlan)
    requires Falls(p, t, active, s, f)
    ensures f.g in p.tasks && (f.calls ==> f.g2 in p.tasks)
    ensures |FallLap(p, f)| == FallSize(f) && Laps([FallLap(p, f)], FallSize(f))
  {
    hide PortPlace, CanEnter, EntryPlace, AllIds;
    SteeredLength(f.turns);
    if f.calls && f.tail != [] { SteeredLength(f.turns3); }
  }

  lemma OneNodeTurns(p: Project, task: Task, s: nat)
    requires Runs(task, s)
    ensures Turns(p, task, [s], []) && Steered([]) == []
  {
    IdOf(task, s);
  }

  ghost predicate AtFall(p: Project, c: Config, t: string, active: set<string>, s: nat, bound: nat, t0: nat, size: nat, l: nat) {
    && Standing(p, c, t, active, s) && |c.st.stack| < MAX_CALL_DEPTH
    && c.st.world.tick == LapStart(t0, l, size)
    && t in p.tasks && s < |p.tasks[t].nodes| && Count(c.st.visited, p.tasks[t].nodes[s].nodeId) <= bound
  }

  lemma SpareOne(p: Project, c: Config, task: Task, s: nat, bound: nat, maxVisits: int)
    requires c.Live? && c.st.stack != [] && TopFrame(c).taskId in p.tasks && s < |task.nodes|
    requires Count(c.st.visited, task.nodes[s].nodeId) <= bound && bound + 1 <= maxVisits
    ensures Spare(task, [s], Fresh(p, c), maxVisits)
  {
    FreshIsLower(p, c);
  }

  lemma NextFall(p: Project, script: nat -> NodeResult, maxVisits: int, c: Config, t: string, active: set<string>, s: nat, f: FallPlan,
      bound: nat, t0: nat, l: nat) returns (n: nat)
    requires Falls(p, t, active, s, f) && AtFall(p, c, t, active, s, bound, t0, FallSize(f), l)
    requires Reads(script, LapStart(t0, l, FallSize(f)), FallLap(p, f))
    requires FallSize(f) <= bound && bound + 1 <= maxVisits
    ensures Shaped(p, c) && n > 0 && AtFall(p, Run(p, ScriptEnv(script, maxVisits), n, c), t, active, s, bound, t0, FallSize(f), l + 1)
  {
    hide Run, ScriptEnv, Turns, Reads, Standing, Steered, PortPlace, CanEnter, CallOf, ReturnOf, Steer, Fresh, Spare, EntryPlace, AllIds, Tail, TailScript, Shaped;
    StandingFacts(p, c, t, active, s);
    var task, t1 := p.tasks[t], c.st.world.tick;
    SpareOne(p, c, task, s, bound, maxVisits);
    OneNodeTurns(p, task, s);
    SteeredLength(f.turns);
    assert [] + [CallOf(p, f.g)] == [CallOf(p, f.g)];
    if f.calls {
      n := 4;
      ReadsParts(script, t1, [CallOf(p, f.g)] + (Steered(f.turns) + [CallOf(p, f.g2), ReturnOf(f.k)]), TailScript(f.tail, f.turns3, f.b));
      ReadsParts(script, t1, [CallOf(p, f.g)], Steered(f.turns) + [CallOf(p, f.g2), ReturnOf(f.k)]);
      TurnsNonEmpty(p, p.tasks[f.g], f.path, f.turns);
      FallHopAfterCall(p, script, maxVisits, c, t, active, [s], [], f.g, f.path, f.turns, f.g2, f.k, f.q, f.tail, f.turns3, f.b);
    } else {
      n := 2;
      ReadsParts(script, t1, [CallOf(p, f.g)], Steered(f.turns) + [Steer(f.b)]);
      FallHop(p, script, maxVisits, c, t, active, [s], [], f.g, f.path, f.turns, f.b);
    }
  }

  lemma {:induction false} FallsOn(p: Project, script: nat -> NodeResult, maxVisits: int, c: Config, t: string, active: set<string>, s: nat,
      f: FallPlan, bound: nat, t0: nat, l: nat) returns (n: nat)
    requires Falls(p, t, active, s, f) && AtFall(p, c, t, active, s, bound, t0, FallSize(f), 0)
    requires f.g in p.tasks && (f.calls ==> f.g2 in p.tasks) && ReadsLaps(script, t0, [FallLap(p, f)], FallSize(f))
    requires FallSize(f) <= bound && bound + 1 <= maxVisits
    ensures Shaped(p, c) && n >= l && AtFall(p, Run(p, ScriptEnv(script, maxVisits), n, c), t, active, s, bound, t0, FallSize(f), l)
    decreases l
  {
    hide Run, ScriptEnv, Standing, Falls, AtFall, FallSize, FallLap, Reads, Shaped;
    AtFallFacts(p, c, t, active, s, bound, t0, FallSize(f), 0);
    var env := ScriptEnv(script, maxVisits);
    if l == 0 {
      n := 0;
      RunZero(p, env, c);
    } else {
      var m := FallsOn(p, script, maxVisits, c, t, active, s, f, bound, t0, l - 1);
      assert [FallLap(p, f)][(l - 1) % 1] == FallLap(p, f);
      var m2 := NextFall(p, script, maxVisits, Run(p, env, m, c), t, active, s, f, bound, t0, l - 1);
      RunAdds(p, env, m, m2, c);
      n := m + m2;
    }
  }

  lemma AtFallFacts(p: Project, c: Config, t: string, active: set<string>, s: nat, bound: nat, t0: nat, size: nat, l: nat)
    requires AtFall(p, c, t, active, s, bound, t0, size, l)
    ensures Shaped(p, c) && c.Live?
  {
  }

  lemma FallForever(p: Project, script: nat -> NodeResult, maxVisits: int, c: Config, t: string, active: set<string>, s: nat, f: FallPlan,
      n0: nat)
    requires Falls(p, t, active, s, f) && Standing(p, c, t, active, s) && |c.st.stack| < MAX_CALL_DEPTH
    requires forall id :: Count(c.st.visited, id) <= n0
    requires f.g in p.tasks && (f.calls ==> f.g2 in p.tasks) && ReadsLaps(script, c.st.world.tick, [FallLap(p, f)], FallSize(f))
    requires maxVisits >= n0 + FallSize(f) + 1
    ensures Forever(p, ScriptEnv(script, maxVisits), c)
  {
    hide Run, ScriptEnv, Standing, FallSize, FallLap, ReadsLaps, Shaped, Turns, PortPlace, CanEnter, EntryPlace, AllIds, Tail;
    StandingFacts(p, c, t, active, s);
    var env, t0, bound := ScriptEnv(script, maxVisits), c.st.world.tick, n0 + FallSize(f);
    assert AtFall(p, c, t, active, s, bound, t0, FallSize(f), 0);
    forall n: nat ensures Run(p, env, n, c).Live? {
      var m := FallsOn(p, script, maxVisits, c, t, active, s, f, bound, t0, n);
      AtFallFacts(p, Run(p, env, m, c), t, active, s, bound, t0, FallSize(f), n);
      LiveEarlier(p, env, c, n, m);
    }
  }

  // ---------------------------------------------------------------- plans

  /** Every function that can be called starts at a node that runs. */
  ghost predicate EntriesRun(p: Project) {
    forall g :: CanEnter(p, g) ==> EntersAtNode(p, g)
  }

  ghost predicate EntersAtNode(p: Project, g: string) {
    g in p.tasks && EntryPlace(p, g).At?
  }

  /** From `e`, with counters of at most `n0`: the script `arrive`, then `laps` forever. */
  datatype Plan = Plan(arrive: seq<NodeResult>, laps: seq<seq<NodeResult>>, size: nat, maxVisits: int)

  ghost predicate Follows(p: Project, script: nat -> NodeResult, c: Config, t: string, active: set<string>, e: nat, n0: nat, plan: Plan)
    requires plan.laps != []
  {
    && Standing(p, c, t, active, e) && |c.st.stack| <= 2
    && (forall id :: Count(c.st.visited, id) <= n0)
    && Reads(script, c.st.world.tick, plan.arrive)
    && ReadsLaps(script, c.st.world.tick + |plan.arrive|, plan.laps, plan.size)
  }

  ghost predicate Works(p: Project, t: string, active: set<string>, e: nat, n0: nat, plan: Plan) {
    && Laps(plan.laps, plan.size) && plan.maxVisits > 1
    && forall script, c :: Follows(p, script, c, t, active, e, n0, plan) ==> Forever(p, ScriptEnv(script, plan.maxVisits), c)
  }

  lemma {:induction false} ResetsOf(p: Project, task: Task, active: set<string>, path: seq<nat>) returns (resets: seq<string>)
    requires EntriesRun(p)
    requires forall x :: 0 <= x < |path| ==> path[x] < |task.nodes| && task.nodes[path[x]].nodeId in ResetIds(p, active)
    ensures |resets| == |path| && forall i :: 0 <= i < |path| ==> ResetBy(p, task, active, path[i], resets[i])
  {
    hide CanEnter, EntryPlace, AllIds;
    if path == [] {
      resets := [];
    } else {
      var rest := path[1..];
      assert forall x :: 0 <= x < |rest| ==> rest[x] == path[x + 1];
      var more := ResetsOf(p, task, active, rest);
      var id := task.nodes[path[0]].nodeId;
      var g :| g in p.tasks && CanEnter(p, g) && g !in active && id in AllIds(p.tasks[g]);
      assert EntersAtNode(p, g);
      resets := [g] + more;
      forall i | 0 <= i < |path| ensures ResetBy(p, task, active, path[i], resets[i]) {
        if i > 0 { assert resets[i] == more[i - 1] && path[i] == rest[i - 1]; }
      }
    }
  }

  lemma PathOf(p: Project, task: Task, ids: set<string>, i: nat, j: nat) returns (path: seq<nat>, turns: seq<Branch>)
    requires Reaches(p, task, ids, i, j)
    ensures path != [] && Turns(p, task, path, turns) && path[0] == i && path[|path| - 1] == j && j < |task.nodes|
    ensures forall x :: 0 <= x < |path| ==> path[x] < |task.nodes| && task.nodes[path[x]].nodeId in ids
  {
    hide Leads;
    path :| Joins(p, task, ids, i, j, path);
    forall x | 0 <= x < |path| ensures task.nodes[path[x]].nodeId in AllIds(task) {
      IdOf(task, path[x]);
    }
    turns := TurnsOf(p, task, path);
  }

  lemma SpareAll(p: Project, c: Config, task: Task, path: seq<nat>, n0: nat, maxVisits: int)
    requires c.Live? && c.st.stack != [] && TopFrame(c).taskId in p.tasks && forall id :: Count(c.st.visited, id) <= n0
    requires n0 + |path| <= maxVisits
    ensures Spare(task, path, Fresh(p, c), maxVisits)
  {
    FreshIsLower(p, c);
    forall id | id in PathIds(task, path) ensures Count(Fresh(p, c), id) + |path| <= maxVisits {
      assert Count(Fresh(p, c), id) <= Count(c.st.visited, id) <= n0;
    }
  }

  /** How to get from `e` to a node some outcome leads to: the path to the call, and what is called. */
  ghost predicate Arrival(p: Project, t: string, active: set<string>, path: seq<nat>, turns: seq<Branch>, g: string, k: string, s: nat) {
    && t in p.tasks && path != [] && Turns(p, p.tasks[t], path, turns)
    && CanEnter(p, g) && g in p.tasks && g !in active && EntryPlace(p, g).At?
    && path[|path| - 1] < |p.tasks[t].nodes| && k != "" && PortPlace(p, p.tasks[t], path[|path| - 1], "", k) == At(s)
  }

  function ArrivalScript(p: Project, turns: seq<Branch>, g: string, k: string): seq<NodeResult>
    requires g in p.tasks
  {
    Steered(turns) + [CallOf(p, g), ReturnOf(k)]
  }

  lemma Arrive(p: Project, script: nat -> NodeResult, maxVisits: int, c: Config, t: string, active: set<string>, path: seq<nat>,
      turns: seq<Branch>, g: string, k: string, s: nat, n0: nat)
    requires Arrival(p, t, active, path, turns, g, k, s) && Standing(p, c, t, active, path[0]) && |c.st.stack| <= 2
    requires forall id :: Count(c.st.visited, id) <= n0
    requires n0 + |path| <= maxVisits && g in p.tasks && Reads(script, c.st.world.tick, ArrivalScript(p, turns, g, k))
    ensures Shaped(p, c)
    ensures var d := Run(p, ScriptEnv(script, maxVisits), 2, c);
      && Standing(p, d, t, active, s) && |d.st.stack| <= 2
      && d.st.world.tick == c.st.world.tick + |ArrivalScript(p, turns, g, k)|
      && forall id :: Count(d.st.visited, id) <= n0 + |path|
  {
    hide Run, ScriptEnv, Turns, Reads, Standing, Steered, PortPlace, CanEnter, CallOf, ReturnOf, Fresh, Spare, EntryPlace, AllIds, Shaped;
    StandingFacts(p, c, t, active, path[0]);
    SpareAll(p, c, p.tasks[t], path, n0, maxVisits);
    TurnsNonEmpty(p, p.tasks[t], path, turns);
    SteeredLength(turns);
    Hop(p, script, maxVisits, c, t, active, path, turns, g, k, s);
    var d := Run(p, ScriptEnv(script, maxVisits), 2, c);
    forall id ensures Count(d.st.visited, id) <= n0 + |path| {
      assert Count(c.st.visited, id) <= n0;
    }
  }

  lemma CyclePlan(p: Project, t: string, active: set<string>, e: nat, s: nat, y: nat, n0: nat) returns (plan: Plan)
    requires EntriesRun(p) && t in p.tasks && CycleAt(p, p.tasks[t], active, e, s, y)
    ensures Works(p, t, active, e, n0, plan)
  {
    hide Turns, Standing, Reaches, LeadsBack, EntriesRun, PortPlace, ResetIds, Follows, ReadsLaps, CanEnter, EntryPlace, AllIds, Steered, CallOf, ReturnOf;
    var task := p.tasks[t];
    var path, turns := PathOf(p, task, ResetIds(p, active), s, y);
    var resets := ResetsOf(p, task, active, path);
    ReachesAtAll(p, task, ResetIds(p, active), s, y);
    ReachesThrough(p, task, AllIds(task), e, s, y);
    var path0, turns0 := PathOf(p, task, AllIds(task), e, y);
    var k := OutcomeOfLead(p, task, y, At(s));
    assert ResetBy(p, task, active, path[0], resets[0]);
    assert Cycle(p, t, active, path, turns, resets, k);
    assert Arrival(p, t, active, path0, turns0, resets[0], k, s);
    CycleFacts(p, t, active, path, turns, resets, k);
    var n1 := n0 + |path0|;
    plan := Plan(ArrivalScript(p, turns0, resets[0], k), CycleLaps(p, turns, resets, k), |path| + 1, n1 + Times(|path|, |path| + 1) + |path| + 1);
    CycleLapSizes(p, t, active, path, turns, resets, k);
    forall script, c | Follows(p, script, c, t, active, e, n0, plan) ensures Forever(p, ScriptEnv(script, plan.maxVisits), c) {
      CyclePlanWorks(p, script, c, t, active, path0, turns0, path, turns, resets, k, n0, plan);
    }
  }

  lemma OutcomeOfLead(p: Project, task: Task, y: nat, q: Place) returns (k: string)
    requires LeadsBack(p, task, y, q)
    ensures y < |task.nodes| && k != "" && PortPlace(p, task, y, "", k) == q
  {
    hide PortPlace;
    k :| k != "" && PortPlace(p, task, y, "", k) == q;
  }

  lemma CycleLapSizes(p: Project, t: string, active: set<string>, path: seq<nat>, turns: seq<Branch>, resets: seq<string>, k: string)
    requires Cycle(p, t, active, path, turns, resets, k) && forall i :: 0 <= i < |resets| ==> resets[i] in p.tasks
    ensures Laps(CycleLaps(p, turns, resets, k), |path| + 1)
  {
    hide PortPlace, ResetBy;
    SteeredLength(turns);
  }

  lemma CyclePlanWorks(p: Project, script: nat -> NodeResult, c: Config, t: string, active: set<string>, path0: seq<nat>,
      turns0: seq<Branch>, path: seq<nat>, turns: seq<Branch>, resets: seq<string>, k: string, n0: nat, plan: Plan)
    requires Cycle(p, t, active, path, turns, resets, k) && Arrival(p, t, active, path0, turns0, resets[0], k, path[0])
    requires forall i :: 0 <= i < |resets| ==> resets[i] in p.tasks
    requires plan.arrive == ArrivalScript(p, turns0, resets[0], k)
    requires plan.laps == CycleLaps(p, turns, resets, k) && plan.size == |path| + 1
    requires plan.maxVisits == n0 + |path0| + Times(|path|, |path| + 1) + |path| + 1
    requires Follows(p, script, c, t, active, path0[0], n0, plan)
    ensures Forever(p, ScriptEnv(script, plan.maxVisits), c)
  {
    hide Run, ScriptEnv, Standing, Cycle, Arrival, ReadsLaps, Reads, Times, Forever, ArrivalScript, CycleLaps;
    CycleFacts(p, t, active, path, turns, resets, k);
    Arrive(p, script, plan.maxVisits, c, t, active, path0, turns0, resets[0], k, path[0], n0);
    var d := Run(p, ScriptEnv(script, plan.maxVisits), 2, c);
    StandingFacts(p, d, t, active, path[0]);
    CycleForever(p, script, plan.maxVisits, d, t, active, path, turns, resets, k, n0 + |path0|);
    ForeverFrom(p, ScriptEnv(script, plan.maxVisits), c, 2);
  }

  lemma PastEndPath(p: Project, task: Task, i: nat) returns (path: seq<nat>, turns: seq<Branch>, b: Branch)
    requires FallsFrom(p, task, At(i))
    ensures path != [] && Turns(p, task, path, turns) && path[0] == i && path[|path| - 1] < |task.nodes|
    ensures PortPlace(p, task, path[|path| - 1], b.port, b.id) == PastEnd
  {
    hide Turns, Reaches, PortPlace;
    var y: nat :| Reaches(p, task, AllIds(task), i, y) && Leads(p, task, y, PastEnd);
    path, turns := PathOf(p, task, AllIds(task), i, y);
    var port, id :| PortPlace(p, task, y, port, id) == PastEnd;
    b := Branch(port, id);
  }

  lemma TailOf(p: Project, task: Task, q: Place) returns (tail: seq<nat>, turns: seq<Branch>, b: Branch)
    requires FallsFrom(p, task, q)
    ensures Tail(p, task, q, tail, turns, b)
  {
    hide Turns, PortPlace;
    if q == PastEnd {
      tail, turns, b := [], [], Branch("", "");
    } else {
      tail, turns, b := PastEndPath(p, task, q.index);
    }
  }

  lemma FallWitness(p: Project, t: string, active: set<string>, s: nat) returns (f: FallPlan)
    requires t in p.tasks && Runs(p.tasks[t], s) && FallResets(p, active, p.tasks[t].nodes[s].nodeId) && EntriesRun(p)
    ensures Falls(p, t, active, s, f) && EntersAtNode(p, f.g)
  {
    hide Turns, PortPlace, Tail, EntriesRun, FallsFrom, Reaches, LeadsBack, CanEnter, EntryPlace, AllIds;
    var id := p.tasks[t].nodes[s].nodeId;
    var g :| FallResetsBy(p, active, id, g);
    EnterIsLoaded(p, g);
    EntersFact(p, g);
    var task, e := p.tasks[g], EntryPlace(p, g).index;
    if id in AllIds(task) {
      var path, turns, b := PastEndPath(p, task, e);
      f := FallPlan(g, path, turns, b, false, "", "", Ends, [], []);
    } else {
      var y: nat, r: Place :| Reaches(p, task, AllIds(task), e, y) && LeadsBack(p, task, y, r) && FallsFrom(p, task, r);
      var path, turns := PathOf(p, task, AllIds(task), e, y);
      var k := OutcomeOfLead(p, task, y, r);
      var g2 :| g2 in p.tasks && CanEnter(p, g2) && g2 !in active + {g} && id in AllIds(p.tasks[g2]);
      EntersFact(p, g2);
      var tail, turns3, b := TailOf(p, task, r);
      FallsSomewhere(p, task, r);
      f := FallPlan(g, path, turns, b, true, g2, k, r, tail, turns3);
    }
  }

  lemma EntersFact(p: Project, g: string)
    requires EntriesRun(p) && CanEnter(p, g)
    ensures EntersAtNode(p, g)
  {
  }

  lemma FallsSomewhere(p: Project, task: Task, q: Place)
    requires FallsFrom(p, task, q)
    ensures q != Ends
  {
  }

  lemma FallBackPlan(p: Project, t: string, active: set<string>, e: nat, s: nat, n0: nat) returns (plan: Plan)
    requires EntriesRun(p) && t in p.tasks && FallBackAt(p, p.tasks[t], active, e, s)
    ensures Works(p, t, active, e, n0, plan)
  {
    hide Turns, Standing, Reaches, LeadsBack, EntriesRun, PortPlace, Follows, FallResets, Falls, FallLap, FallSize, AllIds, Steered, CallOf, ReturnOf;
    var task := p.tasks[t];
    var f := FallWitness(p, t, active, s);
    FallLapSize(p, t, active, s, f);
    if s == e {
      plan := Plan([], [FallLap(p, f)], FallSize(f), n0 + FallSize(f) + 1);
      forall script, c | Follows(p, script, c, t, active, e, n0, plan) ensures Forever(p, ScriptEnv(script, plan.maxVisits), c) {
        FallAtOnce(p, script, c, t, active, e, f, n0, plan);
      }
    } else {
      var y: nat :| Reaches(p, task, AllIds(task), e, y) && LeadsBack(p, task, y, At(s));
      var path0, turns0 := PathOf(p, task, AllIds(task), e, y);
      var k := OutcomeOfLead(p, task, y, At(s));
      FallsFacts(p, t, active, s, f);
      assert Arrival(p, t, active, path0, turns0, f.g, k, s);
      plan := Plan(ArrivalScript(p, turns0, f.g, k), [FallLap(p, f)], FallSize(f), n0 + |path0| + FallSize(f) + 1);
      forall script, c | Follows(p, script, c, t, active, e, n0, plan) ensures Forever(p, ScriptEnv(script, plan.maxVisits), c) {
        FallAfterArrival(p, script, c, t, active, path0, turns0, k, s, f, n0, plan);
      }
    }
  }

  lemma FallsFacts(p: Project, t: string, active: set<string>, s: nat, f: FallPlan)
    requires Falls(p, t, active, s, f)
    ensures CanEnter(p, f.g) && f.g in p.tasks && f.g !in active && EntryPlace(p, f.g).At?
  {
  }

  lemma FallAtOnce(p: Project, script: nat -> NodeResult, c: Config, t: string, active: set<string>, e: nat, f: FallPlan, n0: nat, plan: Plan)
    requires Falls(p, t, active, e, f) && f.g in p.tasks && (f.calls ==> f.g2 in p.tasks)
    requires plan == Plan([], [FallLap(p, f)], FallSize(f), n0 + FallSize(f) + 1)
    requires Follows(p, script, c, t, active, e, n0, plan)
    ensures Forever(p, ScriptEnv(script, plan.maxVisits), c)
  {
    hide Run, ScriptEnv, Standing, Falls, ReadsLaps, Reads, Forever, FallLap, FallSize;
    StandingFacts(p, c, t, active, e);
    FallForever(p, script, plan.maxVisits, c, t, active, e, f, n0);
  }

  lemma FallAfterArrival(p: Project, script: nat -> NodeResult, c: Config, t: string, active: set<string>, path0: seq<nat>,
      turns0: seq<Branch>, k: string, s: nat, f: FallPlan, n0: nat, plan: Plan)
    requires Falls(p, t, active, s, f) && f.g in p.tasks && (f.calls ==> f.g2 in p.tasks)
    requires path0 != [] && Arrival(p, t, active, path0, turns0, f.g, k, s)
    requires plan == Plan(ArrivalScript(p, turns0, f.g, k), [FallLap(p, f)], FallSize(f), n0 + |path0| + FallSize(f) + 1)
    requires Follows(p, script, c, t, active, path0[0], n0, plan)
    ensures Forever(p, ScriptEnv(script, plan.maxVisits), c)
  {
    hide Run, ScriptEnv, Standing, Falls, Arrival, ReadsLaps, Reads, Forever, ArrivalScript, FallLap, FallSize;
    StandingFacts(p, c, t, active, path0[0]);
    Arrive(p, script, plan.maxVisits, c, t, active, path0, turns0, f.g, k, s, n0);
    var d := Run(p, ScriptEnv(script, plan.maxVisits), 2, c);
    StandingFacts(p, d, t, active, s);
    FallForever(p, script, plan.maxVisits, d, t, active, s, f, n0 + |path0|);
    ForeverFrom(p, ScriptEnv(script, plan.maxVisits), c, 2);
  }

  lemma LoopPlan(p: Project, t: string, active: set<string>, e: nat, n0: nat) returns (plan: Plan)
    requires EntriesRun(p) && t in p.tasks && Loops(p, p.tasks[t], active, At(e))
    ensures Works(p, t, active, e, n0, plan)
  {
    hide CycleAt, FallBackAt, EntriesRun, Works;
    if s: nat, c: nat :| CycleAt(p, p.tasks[t], active, e, s, c) {
      plan := CyclePlan(p, t, active, e, s, c, n0);
    } else {
      var s: nat :| FallBackAt(p, p.tasks[t], active, e, s);
      plan := FallBackPlan(p, t, active, e, s, n0);
    }
  }

  // ---------------------------------------------------------------- runs from the start

  lemma StartStands(p: Project, t: string, start: string)
    requires t in p.tasks && StartPlace(p.tasks[t], start).At?
    ensures Standing(p, Initial(t, start, map[], map[]), t, {}, StartPlace(p.tasks[t], start).index)
  {
    hide StartPlace;
  }

  lemma LoopsInMain(p: Project, t: string, start: string) returns (env: Env)
    requires EntriesRun(p) && t in p.tasks && Loops(p, p.tasks[t], {}, StartPlace(p.tasks[t], start))
    ensures Forever(p, env, Initial(t, start, map[], map[]))
  {
    hide EntriesRun, StartPlace, Standing, Reads, ReadsLaps, Script, Forever, Run, ScriptEnv;
    var e := StartPlace(p.tasks[t], start).index;
    var plan := LoopPlan(p, t, {}, e, 0);
    var script := Script(plan.arrive, plan.laps, plan.size);
    ScriptReads(plan.arrive, plan.laps, plan.size);
    env := ScriptEnv(script, plan.maxVisits);
    var c := Initial(t, start, map[], map[]);
    StartStands(p, t, start);
    assert Follows(p, script, c, t, {}, e, 0, plan);
  }

  lemma LoopsInCallee(p: Project, t: string, i: nat, f: string) returns (env: Env)
    requires EntriesRun(p) && t in p.tasks && Runs(p.tasks[t], i) && LoopingCallee(p, f)
    ensures Forever(p, env, Initial(t, "", map[], map[]))
  {
    hide EntriesRun, StartPlace, Standing, Reads, ReadsLaps, Script, Forever, Run, ScriptEnv, Loops, CanEnter, Follows, PushedAt, Turns, EntryPlace, CallOf, Spare;
    LoopingIsLoaded(p, f);
    var e := EntryPlace(p, f).index;
    var plan := LoopPlan(p, f, {f}, e, 1);
    var pre := [CallOf(p, f)] + plan.arrive;
    var script := Script(pre, plan.laps, plan.size);
    ScriptReads(pre, plan.laps, plan.size);
    ReadsParts(script, 0, [CallOf(p, f)], plan.arrive);
    env := ScriptEnv(script, plan.maxVisits);
    var c := Initial(t, "", map[], map[]);
    FirstRuns(p.tasks[t], i);
    var i0 := StartPlace(p.tasks[t], "").index;
    StartStands(p, t, "");
    PlacesRun(p.tasks[t], "");
    OneNodeTurns(p, p.tasks[t], i0);
    SpareOne(p, c, p.tasks[t], i0, 0, plan.maxVisits);
    assert [] + [CallOf(p, f)] == [CallOf(p, f)];
    CallAndStand(p, script, plan.maxVisits, c, t, {}, [i0], [], f);
    RunOne(p, env, c);
    CalleeFollows(p, script, plan, c, t, i0, f, Run(p, env, 1, c));
    ForeverFrom(p, env, c, 1);
  }

  lemma LoopingIsLoaded(p: Project, f: string)
    requires LoopingCallee(p, f)
    ensures f in p.tasks && EntryPlace(p, f).At? && Loops(p, p.tasks[f], {f}, At(EntryPlace(p, f).index)) && CanEnter(p, f)
  {
  }

  lemma FirstRuns(task: Task, i: nat)
    requires Runs(task, i)
    ensures StartPlace(task, "").At?
  {
    FirstFound(task.nodes, 0, i);
  }

  lemma {:induction false} FirstFound(nodes: seq<Node>, k: nat, i: nat)
    requires k <= i < |nodes| && nodes[i].enabled
    ensures FirstEnabled(nodes, k).Some?
    decreases |nodes| - k
  {
    if !nodes[k].enabled { FirstFound(nodes, k + 1, i); }
  }

  lemma CalleeFollows(p: Project, script: nat -> NodeResult, plan: Plan, c: Config, t: string, i0: nat, f: string, d: Config)
    requires t in p.tasks && f in p.tasks && plan.laps != [] && EntryPlace(p, f).At? && i0 < |p.tasks[t].nodes|
    requires c == Initial(t, "", map[], map[]) && d.Live? && Standing(p, d, f, {} + {f}, EntryPlace(p, f).index) && |d.st.stack| == 2
    requires d.st.world.tick == 1 && Grown(p.tasks[t], [i0], Fresh(p, c), d.st.visited, 1)
    requires Works(p, f, {f}, EntryPlace(p, f).index, 1, plan)
    requires Reads(script, 1, plan.arrive) && ReadsLaps(script, 1 + |plan.arrive|, plan.laps, plan.size)
    ensures Forever(p, ScriptEnv(script, plan.maxVisits), d)
  {
    hide Standing, Reads, ReadsLaps, Forever, EntryPlace, ScriptEnv;
    assert {} + {f} == {f};
    forall id ensures Count(d.st.visited, id) <= 1 {
      assert Count(Fresh(p, c), id) == 0;
    }
    assert Follows(p, script, d, f, {f}, EntryPlace(p, f).index, 1, plan);
  }

  /** Where a loop can be reached, some environment never lets the run end. */
  lemma GoesOnForever(p: Project, t: string) returns (env: Env, start: string)
    requires EntriesRun(p) && t in p.tasks && CanLoop(p, t)
    ensures Forever(p, env, Initial(t, start, map[], map[]))
  {
    hide EntriesRun, StartPlace, Forever, Loops, LoopingCallee;
    if s: string :| Loops(p, p.tasks[t], {}, StartPlace(p.tasks[t], s)) {
      start := s;
      env := LoopsInMain(p, t, start);
    } else {
      var i: nat :| Runs(p.tasks[t], i);
      var f :| LoopingCallee(p, f);
      start := "";
      env := LoopsInCallee(p, t, i, f);
    }
  }

  // ---------------------------------------------------------------- exactly

  ghost predicate Finishes(p: Project, env: Env, t: string, start: string, vars: Vars, visited: map<string, nat>) {
    var c := Initial(t, start, vars, visited);
    Shaped(p, c) && exists n: nat :: Run(p, env, n, c).Halted?
  }

  ghost predicate EveryRunEnds(p: Project, t: string) {
    forall env, start, vars, visited :: Finishes(p, env, t, start, vars, visited)
  }

  /** Every run entered at graph `t` ends -- in any environment, with any visit limit, from any node --
      exactly if no loop can be reached from it: no cycle of wired ports, closed by an outcome of a call,
      each of whose nodes some call can reset; and no node to start from that a call which falls off can
      reset.  It matters in `t` itself and in every function, as it stands when called from `t`. */
  lemma RunsEndIff(p: Project, t: string)
    requires EntriesRun(p) && t in p.tasks
    ensures EveryRunEnds(p, t) <==> !CanLoop(p, t)
  {
    hide EntriesRun, CanLoop, Run, Shaped;
    if CanLoop(p, t) {
      var env, start := GoesOnForever(p, t);
      assert !Finishes(p, env, t, start, map[], map[]);
    } else {
      forall env, start, vars, visited ensures Finishes(p, env, t, start, vars, visited) {
        var n := EndsWithoutLoops(p, env, t, start, vars, visited);
      }
    }
  }
}
