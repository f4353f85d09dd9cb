/** The explicit-stack loop refines the recursive semantics: where graphs share no node
    id and the entry graph is never called, it stops, with exactly the verdict, variables and log
    `RunMain` describes. */
module Refinement {
  import opened Runtime
  import opened Scheduler
  import opened StackShape
  import opened BigStep
  import opened Common
  import opened Halting
  import opened Simulation

  /** For every start, the scheduler's run stops, and it stops with the verdict, variables, error log and
      execution count of the recursive semantics.  The premises are those under which a frame's counters
      are its own: no other graph has its node ids, and no call opens the entry graph a second time. */
  lemma RefinesRecursiveSemantics(p: Project, env: Env, taskId: string, start: string, vars: Vars, visited: map<string, nat>)
    returns (n: nat)
    requires DisjointGraphs(p)
    requires NeverCalls(p, env, taskId)
    ensures Shaped(p, Initial(taskId, start, vars, visited))
    ensures Run(p, env, n, Initial(taskId, start, vars, visited)) == RunMain(p, env, taskId, start, vars)
    ensures RunMain(p, env, taskId, start, vars).Halted?
  {
    hide Step, Enter, Run, NeverCalls, DisjointGraphs, RunMain;
    var c := Initial(taskId, start, vars, visited);
    if taskId !in p.tasks {
      n := 1;
      MissingAlike(p, env, taskId, start, vars, visited);
    } else {
      var f := MainFrame(taskId, start, vars);
      var v;
      assert [] + [f] == [f];
      assert Ready(p, [], f);
      n, v := SimulateEnter(p, env, [], f, visited, map[], c);
      MainConcludes(p, env, taskId, start, vars, v);
    }
  }

  lemma MissingAlike(p: Project, env: Env, taskId: string, start: string, vars: Vars, visited: map<string, nat>)
    requires taskId !in p.tasks
    ensures Shaped(p, Initial(taskId, start, vars, visited))
    ensures Run(p, env, 1, Initial(taskId, start, vars, visited)) == RunMain(p, env, taskId, start, vars)
    ensures RunMain(p, env, taskId, start, vars).Halted?
  {
    RunOne(p, env, Initial(taskId, start, vars, visited));
  }

  /** What concluding main's activation comes to is the recursive meaning of the whole run. */
  lemma MainConcludes(p: Project, env: Env, taskId: string, start: string, vars: Vars, visited: map<string, nat>)
    requires taskId in p.tasks
    ensures var f := MainFrame(taskId, start, vars);
      Concluded(p, [], f, Enter(p, env, TopContext(p, [], f), start, map[], vars, World(0, [])), visited) == RunMain(p, env, taskId, start, vars)
    ensures RunMain(p, env, taskId, start, vars).Halted?
  {
    hide Enter;
    assert ActiveFunctions([] + [MainFrame(taskId, start, vars)]) == {};
  }
}
