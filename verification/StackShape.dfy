/** The invariant of the explicit call stack, kept by every turn of the outer loop, and runs of
    any length. */
module StackShape {
  import opened Common
  import opened Runtime
  import opened Scheduler

  /** Frame `i` may stand at height `i`: the main frame at the bottom, functions above it. */
  ghost predicate WellPlaced(p: Project, f: Frame, i: nat) {
    && f.depth == i
    && (f.isFunction <==> i > 0)
    && (i > 0 ==> f.taskId in p.tasks && p.tasks[f.taskId].role == "function")
  }

  /** A frame that waits for a call has entered its graph and owes no completion. */
  ghost predicate Waiting(f: Frame) {
    f.started && f.pending.None?
  }

  ghost predicate ShapedStack(p: Project, stack: seq<Frame>) {
    && 1 <= |stack| <= MAX_CALL_DEPTH + 1
    && (forall i :: 0 <= i < |stack| ==> WellPlaced(p, stack[i], i))
    && (forall i, j :: 1 <= i < j < |stack| ==> stack[i].taskId != stack[j].taskId)
    && (forall i :: 0 <= i < |stack| - 1 ==> Waiting(stack[i]))
  }

  ghost predicate Shaped(p: Project, c: Config) {
    c.Live? ==> ShapedStack(p, c.st.stack)
  }

  lemma PopKeepsShape(p: Project, stack: seq<Frame>)
    requires ShapedStack(p, stack) && |stack| > 1
    ensures ShapedStack(p, stack[..|stack| - 1])
  {
  }

  lemma ReplaceTopKeepsShape(p: Project, stack: seq<Frame>, f: Frame)
    requires ShapedStack(p, stack)
    requires var top := stack[|stack| - 1];
      f.taskId == top.taskId && f.isFunction == top.isFunction && f.depth == top.depth
    ensures ShapedStack(p, stack[..|stack| - 1] + [f])
  {
  }

  lemma PushKeepsShape(p: Project, stack: seq<Frame>, callee: Frame)
    requires ShapedStack(p, stack) && Waiting(stack[|stack| - 1])
    requires callee.taskId in p.tasks && p.tasks[callee.taskId].role == "function"
    requires callee.taskId !in ActiveFunctions(stack)
    requires callee.isFunction && callee.depth == |stack| <= MAX_CALL_DEPTH
    ensures ShapedStack(p, stack + [callee])
  {
  }

  lemma SameActive(stack: seq<Frame>, f: Frame)
    requires stack != []
    requires f.taskId == stack[|stack| - 1].taskId && f.isFunction == stack[|stack| - 1].isFunction
    ensures ActiveFunctions(stack[..|stack| - 1] + [f]) == ActiveFunctions(stack)
  {
    var stack' := stack[..|stack| - 1] + [f];
    forall x | x in ActiveFunctions(stack) ensures x in ActiveFunctions(stack') {
      var i :| 0 <= i < |stack| && stack[i].isFunction && stack[i].taskId == x;
      assert stack'[i].isFunction && stack'[i].taskId == x;
    }
    forall x | x in ActiveFunctions(stack') ensures x in ActiveFunctions(stack) {
      var i :| 0 <= i < |stack'| && stack'[i].isFunction && stack'[i].taskId == x;
      assert stack[i].isFunction && stack[i].taskId == x;
    }
  }

  /** One turn pops one frame, replaces the one below the top, or pushes one callee. */
  lemma AfterWalkKeepsShape(p: Project, stack: seq<Frame>, f: Frame, w: Walk)
    requires ShapedStack(p, stack) && Waiting(f)
    requires var top := stack[|stack| - 1];
      f.taskId == top.taskId && f.isFunction == top.isFunction && f.depth == top.depth
    requires w.exit.Calling? ==>
      var g := w.exit.call.functionId;
      g in p.tasks && p.tasks[g].role == "function" && g !in ActiveFunctions(stack) && f.depth < MAX_CALL_DEPTH
    ensures Shaped(p, AfterWalk(p, stack[..|stack| - 1], f, w))
  {
    var below := stack[..|stack| - 1];
    if |stack| > 1 {
      PopKeepsShape(p, stack);
    }
    if w.exit.Calling? {
      var f' := f.(vars := w.vars, pending := None, started := true);
      var callee := CalleeFrame(p, w.exit.call, f.depth + 1);
      ReplaceTopKeepsShape(p, stack, f');
      SameActive(stack, f');
      PushKeepsShape(p, below + [f'], callee);
      assert below + [f', callee] == below + [f'] + [callee];
    } else if f.isFunction && !w.exit.FellOff? {
      var r := if w.exit.Returned? then w.exit.result else NO_RESULT;
      var caller := Resume(below[|below| - 1], f, w.vars, r);
      if caller.Ok? {
        ReplaceTopKeepsShape(p, below, caller.value);
      }
    }
  }

  lemma StepKeepsShape(p: Project, env: Env, c: Config)
    requires Shaped(p, c)
    ensures c.Live? ==> Grounded(c.st)
    ensures Shaped(p, Step(p, env, c))
  {
    if c.Live? {
      var stack := c.st.stack;
      var top := stack[|stack| - 1];
      if top.taskId in p.tasks {
        WalkTopCallsKnownFunction(p, env, c.st);
        AfterWalkKeepsShape(p, stack, top.(pending := None, started := true), WalkTop(p, env, c.st));
      }
    }
  }

  /** The configuration after `n` turns. */
  ghost function Run(p: Project, env: Env, n: nat, c: Config): (c': Config)
    requires Shaped(p, c)
    ensures Shaped(p, c')
  {
    if n == 0 then c
    else
      StepKeepsShape(p, env, c);
      Run(p, env, n - 1, Step(p, env, c))
  }

  lemma {:induction false} RunAdds(p: Project, env: Env, m: nat, n: nat, c: Config)
    requires Shaped(p, c)
    ensures Run(p, env, m + n, c) == Run(p, env, n, Run(p, env, m, c))
  {
    if m > 0 {
      StepKeepsShape(p, env, c);
      RunAdds(p, env, m - 1, n, Step(p, env, c));
    }
  }

  lemma {:induction false} HaltedStays(p: Project, env: Env, n: nat, c: Config)
    requires c.Halted?
    ensures Run(p, env, n, c) == c
  {
    if n > 0 {
      HaltedStays(p, env, n - 1, c);
    }
  }

  lemma RunZero(p: Project, env: Env, c: Config)
    requires Shaped(p, c)
    ensures Run(p, env, 0, c) == c
  {
  }

  lemma RunOne(p: Project, env: Env, c: Config)
    requires Shaped(p, c)
    ensures c.Live? ==> Grounded(c.st)
    ensures Run(p, env, 1, c) == Step(p, env, c)
  {
  }

  lemma HaltsLater(p: Project, env: Env, c: Config, k: nat, n: nat)
    requires Shaped(p, c) && k <= n
    requires Run(p, env, k, c).Live? && Run(p, env, n, c).Halted?
    ensures k < n
  {
  }

  /** A run that is still going, and will have stopped by turn `n`, takes one more turn. */
  lemma NextTurn(p: Project, env: Env, c: Config, k: nat, n: nat)
    requires Shaped(p, c) && k <= n
    requires Run(p, env, k, c).Live? && Run(p, env, n, c).Halted?
    ensures k < n
    ensures Grounded(Run(p, env, k, c).st)
    ensures Run(p, env, k + 1, c) == Step(p, env, Run(p, env, k, c))
  {
    hide Step, ShapedStack;
    HaltsLater(p, env, c, k, n);
    RunAdds(p, env, k, 1, c);
    RunOne(p, env, Run(p, env, k, c));
  }

  lemma StaysHalted(p: Project, env: Env, c: Config, k: nat, n: nat)
    requires Shaped(p, c) && k <= n && Run(p, env, k, c).Halted?
    ensures Run(p, env, n, c) == Run(p, env, k, c)
  {
    hide Step, ShapedStack;
    RunAdds(p, env, k, n - k, c);
    HaltedStays(p, env, n - k, Run(p, env, k, c));
  }

  /** At every loop head of every run the stack is shaped: main at the bottom, depth equals
      height, function ids pairwise distinct, at most `MAX_CALL_DEPTH + 1` frames. */
  lemma StackShapeAlways(p: Project, env: Env, taskId: string, start: string, vars: Vars, visited: map<string, nat>, n: nat)
    ensures Shaped(p, Initial(taskId, start, vars, visited))
    ensures Shaped(p, Run(p, env, n, Initial(taskId, start, vars, visited)))
  {
  }
}
