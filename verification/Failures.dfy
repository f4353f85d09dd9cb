/** How a failure travels up the call stack. */
module Failures {
  import opened Common
  import opened Runtime
  import opened Scheduler
  import opened StackShape
  import opened Scopes

  // ---------------------------------------------------------------- propagation

  /** The call that opened `f` has no edge wired to the system exception. */
  ghost predicate Unwired(f: Frame) {
    OutcomeTarget(f.jumps, NO_RESULT) == ""
  }

  /** The top frame owes a failed completion; main's graph exists. */
  ghost predicate OwesFailure(p: Project, c: Config) {
    && Shaped(p, c) && c.Live?
    && c.st.stack[0].taskId in p.tasks
    && c.st.stack[|c.st.stack| - 1].pending == Some(false)
  }

  lemma {:induction false} NoOutputs(vars: Vars, outs: seq<OutBinding>)
    ensures ApplyOutputs(vars, outs, map[]) == Ok(vars)
  {
    if outs != [] {
      NoOutputs(vars, outs[1..]);
    }
  }

  lemma ExceptionResumes(caller: Frame, child: Frame, vars: Vars)
    ensures var r := Resume(caller, child, vars, NO_RESULT);
      && r.Ok?
      && (if Unwired(child) then r.value == caller.(vars := r.value.vars, pending := Some(false))
          else r.value == caller.(vars := r.value.vars, start := OutcomeTarget(child.jumps, NO_RESULT), started := true))
  {
    NoOutputs(caller.vars + Shared(vars), child.outs);
  }

  lemma TaskKnown(p: Project, c: Config)
    requires OwesFailure(p, c)
    ensures c.st.stack[|c.st.stack| - 1].taskId in p.tasks
  {
  }

  /** A function frame that owes a failure hands the system exception to its caller. */
  lemma FailureClimbsOnce(p: Project, env: Env, c: Config)
    requires OwesFailure(p, c) && |c.st.stack| > 1
    ensures Grounded(c.st)
    ensures var stack, d := c.st.stack, Step(p, env, c);
      var h := |stack| - 1;
      && d.Live? && |d.st.stack| == h && d.st.stack[..h - 1] == stack[..h - 1]
      && (if Unwired(stack[h]) then OwesFailure(p, d)
          else d.st.stack[h - 1] == stack[h - 1].(vars := d.st.stack[h - 1].vars, start := OutcomeTarget(stack[h].jumps, NO_RESULT), started := true))
  {
    hide WalkGraph, MergeBack;
    TaskKnown(p, c);
    StepKeepsShape(p, env, c);
    var stack := c.st.stack;
    var h := |stack| - 1;
    var below, f := stack[..h], stack[h];
    assert below[h - 1] == stack[h - 1];
    ExceptionResumes(below[h - 1], f.(pending := None, started := true), f.vars);
  }

  /** Without a wired exception edge above height `i`, the failure arrives at frame `i`. */
  lemma {:induction false} FailureClimbs(p: Project, env: Env, c: Config, i: nat)
    requires OwesFailure(p, c) && i < |c.st.stack|
    requires forall j :: i < j < |c.st.stack| ==> Unwired(c.st.stack[j])
    ensures var d := Run(p, env, |c.st.stack| - 1 - i, c);
      OwesFailure(p, d) && |d.st.stack| == i + 1 && d.st.stack[..i] == c.st.stack[..i] && d.st.stack[i].jumps == c.st.stack[i].jumps
    decreases |c.st.stack|
  {
    hide Step, ShapedStack, Unwired;
    var stack := c.st.stack;
    var h := |stack| - 1;
    if h > i {
      FailureClimbsOnce(p, env, c);
      StepDisturbsOnlyTop(p, env, h - 1, c);
      var d := Step(p, env, c);
      forall j | i < j < |d.st.stack| ensures Unwired(d.st.stack[j]) {
        assert d.st.stack[j].jumps == stack[j].jumps by {
          if j < h - 1 { assert d.st.stack[..h - 1][j] == stack[..h - 1][j]; }
        }
        UnwiredDependsOnJumps(d.st.stack[j], stack[j]);
      }
      FailureClimbs(p, env, d, i);
      RunSplit(p, env, h - 1 - i, c);
      assert d.st.stack[..i] == d.st.stack[..h - 1][..i] == stack[..h - 1][..i] == stack[..i];
      if i < h - 1 { assert d.st.stack[..h - 1][i] == stack[..h - 1][i]; }
    }
  }

  lemma UnwiredDependsOnJumps(a: Frame, b: Frame)
    requires a.jumps == b.jumps
    ensures Unwired(a) == Unwired(b)
  {
  }

  lemma RunSplit(p: Project, env: Env, n: nat, c: Config)
    requires Shaped(p, c)
    ensures c.Live? ==> Grounded(c.st)
    ensures Shaped(p, Step(p, env, c)) && Run(p, env, n + 1, c) == Run(p, env, n, Step(p, env, c))
  {
    StepKeepsShape(p, env, c);
  }

  /** The top frame's next turn ends in the system exception: an unwired port, a raised error, or
      an explicit return of that outcome whose outputs can be written back. */
  ghost predicate FailsNext(p: Project, env: Env, c: Config) {
    && Shaped(p, c) && c.Live? && |c.st.stack| > 1
    && c.st.stack[0].taskId in p.tasks
    && var stack := c.st.stack;
       var f := stack[|stack| - 1];
       f.taskId in p.tasks &&
       var w := WalkTop(p, env, c.st);
       || w.exit.Ended? || w.exit.Raised?
       || (&& w.exit.Returned? && OutcomeOf(w.exit.result) == SYSTEM_EXCEPTION
           && MergeBack(stack[|stack| - 2].vars, w.vars, f.outs, w.exit.result).Ok?)
  }

  lemma FailureSurfaces(p: Project, env: Env, c: Config)
    requires FailsNext(p, env, c) && Unwired(c.st.stack[|c.st.stack| - 1])
    ensures Grounded(c.st)
    ensures var d, h := Step(p, env, c), |c.st.stack| - 1;
      OwesFailure(p, d) && |d.st.stack| == h && d.st.stack[..h - 1] == c.st.stack[..h - 1] && d.st.stack[h - 1].jumps == c.st.stack[h - 1].jumps
  {
    hide WalkTop, MergeBack;
    StepKeepsShape(p, env, c);
    var stack := c.st.stack;
    var h := |stack| - 1;
    var below, f := stack[..h], stack[h];
    assert WellPlaced(p, f, h);
    assert below[h - 1] == stack[h - 1];
    var w := WalkTop(p, env, c.st);
    ExceptionResumes(below[h - 1], f.(pending := None, started := true), w.vars);
  }

  /** Failure propagation.  A callee that ends in the system exception, on a stack where no call
      has that outcome wired, fails every caller in turn: after one turn per frame the run has
      raised the task failure, and so it never completes. */
  lemma UnhandledFailureFailsTheRun(p: Project, env: Env, c: Config)
    requires FailsNext(p, env, c)
    requires forall j :: 1 <= j < |c.st.stack| ==> Unwired(c.st.stack[j])
    ensures var d := Run(p, env, |c.st.stack|, c); d.Halted? && d.verdict == Failed(TaskFailed)
    ensures forall n :: n >= |c.st.stack| ==> Run(p, env, n, c) == Run(p, env, |c.st.stack|, c)
  {
    hide Step, Unwired, Run, WalkTop, MergeBack, OutcomeOf;
    var h := |c.st.stack| - 1;
    FailureSurfaces(p, env, c);
    RunSplit(p, env, h, c);
    var d := Step(p, env, c);
    forall j | 0 < j < |d.st.stack| ensures Unwired(d.st.stack[j]) {
      assert d.st.stack[j].jumps == c.st.stack[j].jumps by {
        if j < h - 1 { assert d.st.stack[..h - 1][j] == c.st.stack[..h - 1][j]; }
      }
      UnwiredDependsOnJumps(d.st.stack[j], c.st.stack[j]);
    }
    FailureClimbs(p, env, d, 0);
    var e := Run(p, env, h - 1, d);
    RunAdds(p, env, h - 1, 1, d);
    MainFails(p, env, e);
    forall n | n >= h + 1 ensures Run(p, env, n, c) == Run(p, env, h + 1, c) {
      RunAdds(p, env, h + 1, n - (h + 1), c);
      HaltedStays(p, env, n - (h + 1), Run(p, env, h + 1, c));
    }
  }

  lemma MainFails(p: Project, env: Env, c: Config)
    requires OwesFailure(p, c) && |c.st.stack| == 1
    ensures var d := Run(p, env, 1, c); d.Halted? && d.verdict == Failed(TaskFailed)
  {
  }

  /** And the other way: the nearest frame whose call wires the exception resumes at that node. */
  lemma HandledFailureResumes(p: Project, env: Env, c: Config, i: nat)
    requires OwesFailure(p, c) && 1 <= i < |c.st.stack|
    requires !Unwired(c.st.stack[i])
    requires forall j :: i < j < |c.st.stack| ==> Unwired(c.st.stack[j])
    ensures var d := Run(p, env, |c.st.stack| - i, c);
      && d.Live? && |d.st.stack| == i && d.st.stack[..i - 1] == c.st.stack[..i - 1]
      && d.st.stack[i - 1] == c.st.stack[i - 1].(vars := d.st.stack[i - 1].vars, start := OutcomeTarget(c.st.stack[i].jumps, NO_RESULT), started := true)
  {
    hide Step, ShapedStack;
    FailureClimbs(p, env, c, i);
    var m := |c.st.stack| - 1 - i;
    var d := Run(p, env, m, c);
    RunAdds(p, env, m, 1, c);
    RunOne(p, env, d);
    FailureClimbsOnce(p, env, d);
    assert d.st.stack[i - 1] == d.st.stack[..i][i - 1] == c.st.stack[..i][i - 1] == c.st.stack[i - 1];
    assert d.st.stack[..i - 1] == d.st.stack[..i][..i - 1] == c.st.stack[..i][..i - 1] == c.st.stack[..i - 1];
  }
}
