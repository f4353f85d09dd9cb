/** Variable scopes across calls: what a callee sees, and what it may change in its caller. */
module Scopes {
  import opened Common
  import opened Runtime
  import opened Scheduler
  import opened StackShape

  // ---------------------------------------------------------------- into the callee

  ghost predicate SameShared(a: Vars, b: Vars) {
    forall k :: !IsScoped(k) ==> SameAt(a, b, k)
  }

  /** A scoped key a callee may start with: one of its own parameters or locals. */
  ghost predicate OwnName(target: Task, k: string) {
    || (exists d :: d in target.inputs && k == PARAM_PREFIX + d.name)
    || (exists l :: l in target.locals && k == LOCAL_PREFIX + l.name)
  }

  ghost predicate OwnScope(target: Task, vars: Vars) {
    forall k :: k in vars && IsScoped(k) ==> OwnName(target, k)
  }

  lemma PrefixedIsScoped(prefix: string, name: string)
    requires prefix == PARAM_PREFIX || prefix == LOCAL_PREFIX
    ensures IsScoped(prefix + name)
  {
  }

  lemma {:induction false} OverwriteMembers(decls: seq<ParamDecl>, d: ParamDecl)
    ensures forall x :: x in Overwrite(decls, d) ==> x == d || x in decls
  {
    if decls != [] {
      OverwriteMembers(decls[1..], d);
    }
  }

  lemma {:induction false} DeclarationsMembers(inputs: seq<ParamDecl>)
    ensures forall d :: d in Declarations(inputs) ==> d in inputs
  {
    if inputs != [] {
      var n := |inputs| - 1;
      DeclarationsMembers(inputs[..n]);
      OverwriteMembers(Declarations(inputs[..n]), inputs[n]);
    }
  }

  lemma {:induction false} ByIdMember(decls: seq<ParamDecl>, id: string)
    ensures ById(decls, id).Some? ==> ById(decls, id).value in decls
  {
    if decls != [] {
      ByIdMember(decls[1..], id);
    }
  }

  lemma {:induction false} ByNameMember(decls: seq<ParamDecl>, name: string)
    ensures ByName(decls, name).Some? ==> ByName(decls, name).value in decls
  {
    if decls != [] {
      ByNameMember(decls[..|decls| - 1], name);
    }
  }

  lemma {:induction false} DefaultsKeepScope(env: Env, target: Task, decls: seq<ParamDecl>, child: Vars)
    requires forall d :: d in decls ==> d in target.inputs
    requires OwnScope(target, child)
    ensures var r := BindDefaults(env, decls, child);
      r.Ok? ==> OwnScope(target, r.value) && SameShared(child, r.value)
    decreases |decls|
  {
    if decls != [] {
      PrefixedIsScoped(PARAM_PREFIX, decls[0].name);
      assert decls[0] in target.inputs;
      var v := env.coerce(decls[0].default, decls[0].kind);
      if decls[0].default == Null {
        DefaultsKeepScope(env, target, decls[1..], child);
      } else if v.Some? {
        DefaultsKeepScope(env, target, decls[1..], child[PARAM_PREFIX + decls[0].name := v.value]);
      }
    }
  }

  lemma {:induction false} InputsKeepScope(env: Env, tick: nat, target: Task, decls: seq<ParamDecl>,
      inputs: seq<InBinding>, caller: Vars, child: Vars)
    requires forall d :: d in decls ==> d in target.inputs
    requires OwnScope(target, child)
    ensures var r := BindInputs(env, tick, decls, inputs, caller, child);
      r.Ok? ==> OwnScope(target, r.value) && SameShared(child, r.value)
    decreases |inputs|
  {
    if inputs != [] {
      var d := Declared(decls, inputs[0].ref);
      if d.None? {
        InputsKeepScope(env, tick, target, decls, inputs[1..], caller, child);
      } else {
        ByIdMember(decls, Strip(inputs[0].ref));
        ByNameMember(decls, Strip(inputs[0].ref));
        PrefixedIsScoped(PARAM_PREFIX, d.value.name);
        var raw := env.resolve(tick, caller, inputs[0].value);
        if raw.Some? {
          var v := env.coerce(raw.value, d.value.kind);
          if v.Some? {
            InputsKeepScope(env, tick, target, decls, inputs[1..], caller, child[PARAM_PREFIX + d.value.name := v.value]);
          }
        }
      }
    }
  }

  lemma {:induction false} LocalsKeepScope(env: Env, target: Task, locals: seq<LocalDecl>, child: Vars)
    requires forall l :: l in locals ==> l in target.locals
    requires OwnScope(target, child)
    ensures var r := BindLocals(env, locals, child);
      r.Ok? ==> OwnScope(target, r.value) && SameShared(child, r.value)
    decreases |locals|
  {
    if locals != [] {
      PrefixedIsScoped(LOCAL_PREFIX, locals[0].name);
      assert locals[0] in target.locals;
      var v := env.coerce(locals[0].default, locals[0].kind);
      if locals[0].name == "" {
        LocalsKeepScope(env, target, locals[1..], child);
      } else if v.Some? {
        LocalsKeepScope(env, target, locals[1..], child[LOCAL_PREFIX + locals[0].name := v.value]);
      }
    }
  }

  /** A callee starts with exactly its caller's shared variables, its own declared parameters and
      locals, and nothing else: no parameter or local of any caller is visible to it. */
  lemma CalleeSeesOnlyItsOwnScope(env: Env, tick: nat, target: Task, call: CallIntent, caller: Vars)
    ensures var r := ChildVars(env, tick, target, call, caller);
      r.Ok? ==> OwnScope(target, r.value) && SameShared(caller, r.value)
  {
    var decls := Declarations(target.inputs);
    DeclarationsMembers(target.inputs);
    DefaultsKeepScope(env, target, decls, Shared(caller));
    var d := BindDefaults(env, decls, Shared(caller));
    if d.Ok? {
      InputsKeepScope(env, tick, target, decls, call.inputs, caller, d.value);
      var b := BindInputs(env, tick, decls, call.inputs, caller, d.value);
      if b.Ok? {
        LocalsKeepScope(env, target, target.locals, b.value);
      }
    }
  }

  /** Why the call that executing `node` asks for cannot start, if it asks for one and it cannot. */
  function Refusal(p: Project, env: Env, ctx: Context, node: Node, vars: Vars, tick: nat): Option<Error> {
    var (r, vars') := env.exec(tick, p.pageMap, node, vars);
    if r.Ran? && r.success && r.call.Some? then
      match Schedule(p, env, ctx, tick + 1, r.call.value, vars')
      case Err(e) => Some(e)
      case Ok(_) => None
    else None
  }

  /** The same environment, but every node fails; what it does to the variables stays. */
  function FailingInstead(env: Env): Env {
    env.(exec := (tick: nat, m: PageMap, node: Node, vars: Vars) => (FAILURE, env.exec(tick, m, node, vars).1))
  }

  /** Where a failing node leads, with the refusal in the log. */
  function FailedMove(p: Project, env: Env, ctx: Context, node: Node, vars: Vars, world: World): (Move, World)
    requires Refusal(p, env, ctx, node, vars, world.tick).Some?
  {
    var vars' := env.exec(world.tick, p.pageMap, node, vars).1;
    var (move, w) := Dispatch(p, FailingInstead(env), ctx, node, FAILURE, vars', world.(tick := world.tick + 1));
    (move, Logged(w, Refusal(p, env, ctx, node, vars, world.tick).value))
  }

  lemma RefusedDispatch(p: Project, env: Env, ctx: Context, node: Node, vars: Vars, world: World)
    ensures var (r, vars') := env.exec(world.tick, p.pageMap, node, vars);
      var d := Dispatch(p, env, ctx, node, r, vars', world.(tick := world.tick + 1));
      Refusal(p, env, ctx, node, vars, world.tick).Some? ==>
      && d == FailedMove(p, env, ctx, node, vars, world)
      && !(d.0.Leave? && d.0.exit.Calling?)
  {
    hide Schedule, OutcomeJumps, FindEdgeJump, IndexOf;
  }

  /** A call that cannot start is a plain failure of its node.  The visit goes where it would have
      gone had the node failed, with the same counters and variables, and no frame is pushed; the one
      difference is the refusal in the log. */
  lemma RefusedCallIsPlainFailure(p: Project, env: Env, ctx: Context, index: nat, visited: map<string, nat>, vars: Vars,
      world: World)
    requires index < |ctx.task.nodes| && ctx.task.nodes[index].enabled
    requires Count(visited, ctx.task.nodes[index].nodeId) < env.maxVisits
    requires Refusal(p, env, ctx, ctx.task.nodes[index], vars, world.tick).Some?
    ensures var v := VisitNode(p, env, ctx, index, visited, vars, world);
      var plain := VisitNode(p, FailingInstead(env), ctx, index, visited, vars, world);
      && v == plain.(world := Logged(plain.world, Refusal(p, env, ctx, ctx.task.nodes[index], vars, world.tick).value))
      && !(v.move.Leave? && v.move.exit.Calling?)
  {
    hide Dispatch, Refusal;
    RefusedDispatch(p, env, ctx, ctx.task.nodes[index], vars, world);
  }

  // ---------------------------------------------------------------- back to the caller

  /** Some binding that applies writes key `k`. */
  ghost predicate Targeted(outs: seq<OutBinding>, outputs: Vars, k: string) {
    exists b :: b in outs && Applies(b, outputs) && ScopeName(Strip(b.target)) == k
  }

  lemma {:induction false} ApplyOutputsFrame(vars: Vars, outs: seq<OutBinding>, outputs: Vars, k: string)
    requires ApplyOutputs(vars, outs, outputs).Ok?
    requires !Targeted(outs, outputs, k)
    ensures SameAt(ApplyOutputs(vars, outs, outputs).value, vars, k)
    decreases |outs|
  {
    if outs != [] {
      assert outs[0] in outs;
      assert !Targeted(outs[1..], outputs, k);
      if Applies(outs[0], outputs) {
        var w := WriteScoped(vars, Strip(outs[0].target), outputs[Strip(outs[0].outputId)]);
        ApplyOutputsFrame(w.value, outs[1..], outputs, k);
      } else {
        ApplyOutputsFrame(vars, outs[1..], outputs, k);
      }
    }
  }

  /** Write-back, key by key: an untargeted scoped key of the caller keeps its value; an
      untargeted shared key takes the callee's value if the callee has one. */
  lemma MergeBackFrame(caller: Vars, child: Vars, outs: seq<OutBinding>, r: FnResult, k: string)
    requires MergeBack(caller, child, outs, r).Ok?
    requires !Targeted(outs, r.outputs, k)
    ensures var after := MergeBack(caller, child, outs, r).value;
      if !IsScoped(k) && k in child then k in after && after[k] == child[k]
      else SameAt(after, caller, k)
  {
    ApplyOutputsFrame(caller + Shared(child), outs, r.outputs, k);
  }

  /** The last applicable binding for a key decides its value. */
  lemma {:induction false} ApplyOutputsWrites(vars: Vars, outs: seq<OutBinding>, outputs: Vars, i: nat)
    requires ApplyOutputs(vars, outs, outputs).Ok?
    requires i < |outs| && Applies(outs[i], outputs)
    requires forall j :: i < j < |outs| && Applies(outs[j], outputs) ==> ScopeName(Strip(outs[j].target)) != ScopeName(Strip(outs[i].target))
    ensures var k := ScopeName(Strip(outs[i].target));
      k in ApplyOutputs(vars, outs, outputs).value && ApplyOutputs(vars, outs, outputs).value[k] == outputs[Strip(outs[i].outputId)]
    decreases |outs|
  {
    var vars' := if Applies(outs[0], outputs)
      then WriteScoped(vars, Strip(outs[0].target), outputs[Strip(outs[0].outputId)]).value else vars;
    if i == 0 {
      var k := ScopeName(Strip(outs[0].target));
      forall b | b in outs[1..] && Applies(b, outputs) ensures ScopeName(Strip(b.target)) != k {
        var j :| 0 <= j < |outs[1..]| && outs[1..][j] == b;
        assert outs[j + 1] == b;
      }
      ApplyOutputsFrame(vars', outs[1..], outputs, k);
    } else {
      ApplyOutputsWrites(vars', outs[1..], outputs, i - 1);
    }
  }

  // ---------------------------------------------------------------- which targets are safe

  /** Both ids of a binding are filled in: it applies whenever the callee returns that output. */
  predicate Filled(b: OutBinding) {
    Strip(b.outputId) != "" && Strip(b.target) != ""
  }

  /** A target that makes the write-back fail. */
  predicate Refused(target: string) {
    WriteScoped(map[], target, Null).Err?
  }

  predicate Blocks(b: OutBinding, outputId: string) {
    Filled(b) && Strip(b.outputId) == outputId && Refused(Strip(b.target))
  }

  /** A binding whose target is spelled with the parameters' own prefix, raw or inside `$var` or
      `$ctx`, reaches a caller's parameter, unless another binding of the same output fails. */
  predicate Smuggles(outs: seq<OutBinding>, i: nat)
    requires i < |outs|
  {
    && Filled(outs[i]) && StartsWith(ScopeName(Strip(outs[i].target)), PARAM_PREFIX)
    && forall j :: 0 <= j < |outs| ==> !Blocks(outs[j], Strip(outs[i].outputId))
  }

  predicate NoneSmuggles(outs: seq<OutBinding>) {
    forall i :: 0 <= i < |outs| ==> !Smuggles(outs, i)
  }

  ghost predicate KeepsParameter(caller: Vars, child: Vars, outs: seq<OutBinding>, r: FnResult, k: string) {
    MergeBack(caller, child, outs, r).Ok? ==> SameAt(caller, MergeBack(caller, child, outs, r).value, k)
  }

  /** Whatever the callee returns, a write-back that succeeds changes no parameter of the caller. */
  ghost predicate KeepsParameters(outs: seq<OutBinding>) {
    forall caller, child, r, k :: StartsWith(k, PARAM_PREFIX) ==> KeepsParameter(caller, child, outs, r, k)
  }

  lemma {:induction false} BlockedFails(vars: Vars, outs: seq<OutBinding>, outputs: Vars, j: nat, id: string)
    requires j < |outs| && Blocks(outs[j], id) && id in outputs
    ensures ApplyOutputs(vars, outs, outputs).Err?
    decreases |outs|
  {
    hide ScopeName, Strip;
    if j > 0 {
      var vars' := if Applies(outs[0], outputs)
        then WriteScoped(vars, Strip(outs[0].target), outputs[Strip(outs[0].outputId)]) else Ok(vars);
      if vars'.Ok? {
        BlockedFails(vars'.value, outs[1..], outputs, j - 1, id);
      }
    }
  }

  /** With one output only, a write-back none of whose bindings is refused succeeds, and every key
      it names holds that output. */
  lemma {:induction false} OneOutputIsWritten(vars: Vars, outs: seq<OutBinding>, id: string, v: Value)
    requires forall j :: 0 <= j < |outs| ==> !Blocks(outs[j], id)
    ensures var r := ApplyOutputs(vars, outs, map[id := v]);
      && r.Ok?
      && (forall k :: k in vars && vars[k] == v ==> k in r.value && r.value[k] == v)
      && (forall i :: 0 <= i < |outs| && Filled(outs[i]) && Strip(outs[i].outputId) == id ==>
            ScopeName(Strip(outs[i].target)) in r.value && r.value[ScopeName(Strip(outs[i].target))] == v)
    decreases |outs|
  {
    hide ScopeName, Strip;
    if outs != [] {
      assert forall j :: 0 <= j < |outs[1..]| ==> outs[1..][j] == outs[j + 1];
      if Applies(outs[0], map[id := v]) {
        assert !Blocks(outs[0], id);
        OneOutputIsWritten(vars[ScopeName(Strip(outs[0].target)) := v], outs[1..], id, v);
      } else {
        OneOutputIsWritten(vars, outs[1..], id, v);
      }
    }
  }

  lemma UntouchedParameter(caller: Vars, child: Vars, outs: seq<OutBinding>, r: FnResult, k: string)
    requires NoneSmuggles(outs) && StartsWith(k, PARAM_PREFIX) && MergeBack(caller, child, outs, r).Ok?
    ensures SameAt(caller, MergeBack(caller, child, outs, r).value, k)
  {
    hide ScopeName, Strip, Refused;
    if Targeted(outs, r.outputs, k) {
      var b :| b in outs && Applies(b, r.outputs) && ScopeName(Strip(b.target)) == k;
      var i :| 0 <= i < |outs| && outs[i] == b;
      assert !Smuggles(outs, i);
      var j :| 0 <= j < |outs| && Blocks(outs[j], Strip(outs[i].outputId));
      BlockedFails(caller + Shared(child), outs, r.outputs, j, Strip(b.outputId));
      assert false;
    } else {
      MergeBackFrame(caller, child, outs, r, k);
    }
  }

  /** Parameters are read-only for exactly those call nodes none of whose bindings smuggles a
      parameter's name in -- something the call node shows before any call is made. */
  lemma ParametersAreReadOnlyIff(outs: seq<OutBinding>)
    ensures KeepsParameters(outs) <==> NoneSmuggles(outs)
  {
    hide ScopeName, Strip, Blocks, MergeBack;
    if NoneSmuggles(outs) {
      forall caller, child, r, k | StartsWith(k, PARAM_PREFIX) ensures KeepsParameter(caller, child, outs, r, k) {
        if MergeBack(caller, child, outs, r).Ok? {
          UntouchedParameter(caller, child, outs, r, k);
        }
      }
    } else {
      var i :| 0 <= i < |outs| && Smuggles(outs, i);
      SmuggledIn(outs, i);
    }
  }

  lemma SmuggledIn(outs: seq<OutBinding>, i: nat)
    requires i < |outs| && Smuggles(outs, i)
    ensures !KeepsParameters(outs)
  {
    hide ScopeName, Strip, Blocks, ApplyOutputs;
    var id, k := Strip(outs[i].outputId), ScopeName(Strip(outs[i].target));
    var caller: Vars, child: Vars, r := map[k := Number(1)], map[], FnResult("done", map[id := Number(2)]);
    assert caller + Shared(child) == caller;
    OneOutputIsWritten(caller, outs, id, Number(2));
    assert !KeepsParameter(caller, child, outs, r, k);
  }

  lemma Unpadded(s: string)
    requires s != "" && !IsSpace(s[0]) && !IsSpace(s[|s| - 1])
    ensures Strip(s) == s
  {
  }

  lemma RawName(target: string)
    requires Strip(target) == target && target != "" && target[0] != '$'
    ensures ScopeName(target) == target && !Refused(target)
  {
  }

  /** The plainest case: a raw target overwrites a parameter. */
  lemma RawTargetOverwritesParameter()
    ensures var caller := map["__param__:x" := Number(1)];
      var outs := [OutBinding("y", "__param__:x")];
      MergeBack(caller, map[], outs, FnResult("done", map["y" := Number(2)])) == Ok(map["__param__:x" := Number(2)])
  {
    hide ScopeName, Strip;
    var caller: Vars := map["__param__:x" := Number(1)];
    var target := "__param__:x";
    Unpadded("y");
    Unpadded(target);
    RawName(target);
    assert Shared(map[]) == map[];
    assert caller + Shared(map[]) == caller;
    var outs := [OutBinding("y", target)];
    assert outs[1..] == [];
    var outputs: Vars := map["y" := Number(2)];
    assert ApplyOutputs(caller, outs, outputs) == ApplyOutputs(caller[target := Number(2)], outs[1..], outputs);
    assert caller[target := Number(2)] == map["__param__:x" := Number(2)];
  }

  // ---------------------------------------------------------------- over a whole run

  /** Through `n` turns no frame below height `h` is touched, and frame `h` keeps its bindings. */
  ghost predicate Undisturbed(h: nat, before: seq<Frame>, after: seq<Frame>) {
    && |before| > h && |after| > h
    && before[..h] == after[..h]
    && before[h].outs == after[h].outs && before[h].jumps == after[h].jumps
  }

  /** The run stays above height `h` for its first `n` turns. */
  ghost predicate StaysAbove(p: Project, env: Env, h: nat, n: nat, c: Config)
    requires Shaped(p, c)
  {
    forall k :: 0 <= k < n ==> var d := Run(p, env, k, c); d.Live? && |d.st.stack| > h
  }

  lemma ReplacedTopUndisturbed(h: nat, below: seq<Frame>, g: Frame, f: Frame)
    requires |below| >= h && g.outs == f.outs && g.jumps == f.jumps
    ensures Undisturbed(h, below + [g], below + [f])
  {
  }

  lemma UndisturbedPush(h: nat, before: seq<Frame>, after: seq<Frame>, callee: Frame)
    requires Undisturbed(h, before, after)
    ensures Undisturbed(h, before, after + [callee])
  {
  }

  lemma UndisturbedPop(h: nat, below: seq<Frame>, g: Frame, caller: Frame)
    requires |below| > h && caller.outs == below[|below| - 1].outs && caller.jumps == below[|below| - 1].jumps
    ensures Undisturbed(h, below + [g], below[..|below| - 1] + [caller])
  {
  }

  lemma AfterWalkDisturbsOnlyTop(p: Project, h: nat, below: seq<Frame>, f: Frame, g: Frame, w: Walk)
    requires f.isFunction ==> below != []
    requires w.exit.Calling? ==> w.exit.call.functionId in p.tasks
    requires |below| >= h && g.outs == f.outs && g.jumps == f.jumps
    ensures var d := AfterWalk(p, below, f, w);
      d.Live? && |d.st.stack| > h ==> Undisturbed(h, below + [g], d.st.stack)
  {
    hide MergeBack, Undisturbed;
    if w.exit.Calling? {
      var f', callee := f.(vars := w.vars, pending := None, started := true), CalleeFrame(p, w.exit.call, f.depth + 1);
      ReplacedTopUndisturbed(h, below, g, f');
      UndisturbedPush(h, below + [g], below + [f'], callee);
      assert below + [f'] + [callee] == below + [f', callee];
    } else if |below| > h {
      var last := below[|below| - 1];
      UndisturbedPop(h, below, g, last);
      assert below[..|below| - 1] + [last] == below;
      var r := if w.exit.Returned? then w.exit.result else NO_RESULT;
      var caller := Resume(last, f, w.vars, r);
      if caller.Ok? {
        UndisturbedPop(h, below, g, caller.value);
      }
    }
  }

  lemma StepDisturbsOnlyTop(p: Project, env: Env, h: nat, c: Config)
    requires Shaped(p, c) && c.Live? && |c.st.stack| > h
    ensures Grounded(c.st)
    ensures var d := Step(p, env, c);
      d.Live? && |d.st.stack| > h ==> Undisturbed(h, c.st.stack, d.st.stack)
  {
    hide WalkTop, AfterWalk, Undisturbed;
    var below, f := c.st.stack[..|c.st.stack| - 1], c.st.stack[|c.st.stack| - 1];
    assert below + [f] == c.st.stack;
    if f.taskId in p.tasks {
      WalkTopCallsKnownFunction(p, env, c.st);
      AfterWalkDisturbsOnlyTop(p, h, below, f.(pending := None, started := true), f, WalkTop(p, env, c.st));
    }
  }

  lemma {:induction false} RunDisturbsOnlyAbove(p: Project, env: Env, h: nat, n: nat, c: Config)
    requires Shaped(p, c) && c.Live? && |c.st.stack| > h
    requires StaysAbove(p, env, h, n + 1, c)
    ensures var d := Run(p, env, n, c); d.Live? && Undisturbed(h, c.st.stack, d.st.stack)
  {
    if n > 0 {
      StepKeepsShape(p, env, c);
      StepDisturbsOnlyTop(p, env, h, c);
      var c1 := Step(p, env, c);
      assert Run(p, env, 1, c) == Run(p, env, 0, c1) == c1;
      forall k | 0 <= k < n ensures var d := Run(p, env, k, c1); d.Live? && |d.st.stack| > h {
        assert Run(p, env, k + 1, c) == Run(p, env, k, c1);
      }
      RunDisturbsOnlyAbove(p, env, h, n - 1, c1);
    }
  }

  /** `after` is `before` with the result `r` of a call written back: scoped keys no applicable
      binding names keep their value, shared keys take the callee's, named keys the bindings'. */
  ghost predicate WrittenBack(before: Vars, child: Vars, outs: seq<OutBinding>, r: FnResult, after: Vars) {
    && MergeBack(before, child, outs, r) == Ok(after)
    && forall k :: !Targeted(outs, r.outputs, k) ==>
        if !IsScoped(k) && k in child then k in after && after[k] == child[k]
        else SameAt(after, before, k)
  }

  lemma MergeBackIsWrittenBack(before: Vars, child: Vars, outs: seq<OutBinding>, r: FnResult)
    requires MergeBack(before, child, outs, r).Ok?
    ensures WrittenBack(before, child, outs, r, MergeBack(before, child, outs, r).value)
  {
    forall k | !Targeted(outs, r.outputs, k) ensures
      var after := MergeBack(before, child, outs, r).value;
      if !IsScoped(k) && k in child then k in after && after[k] == child[k]
      else SameAt(after, before, k)
    {
      MergeBackFrame(before, child, outs, r, k);
    }
  }

  /** The result a function's last walk hands to its caller: the one it returned, or the failure
      that stands for an exception or a missing return. */
  function ResultOf(w: Walk): FnResult {
    if w.exit.Returned? then w.exit.result else NO_RESULT
  }

  /** `after` is the frame `caller`, resumed after `callee` ended with `vars` and `r`: the result is
      written back, and where it goes on follows from the outcome. */
  ghost predicate Resumed(caller: Frame, callee: Frame, vars: Vars, r: FnResult, after: Frame) {
    Resume(caller, callee, vars, r) == Ok(after) && WrittenBack(caller.vars, vars, callee.outs, r, after.vars)
  }

  /** The turn on which the stack drops to height `h` resumes frame `h - 1` with what the callee's last
      walk ended in, or (when the callee falls off its end) leaves that frame alone. */
  ghost predicate PopsOnce(p: Project, env: Env, h: nat, before: seq<Frame>, last: Config, d: Config) {
    && h > 0 && |before| > h
    && last.Live? && last.st.stack != [] && last.st.stack[|last.st.stack| - 1].taskId in p.tasks
    && d.Live? && |d.st.stack| == h && d.st.stack[..h - 1] == before[..h - 1]
    && var w := WalkTop(p, env, last.st);
       && d.st.vars == w.vars
       && if w.exit.FellOff? then d.st.stack[h - 1] == before[h - 1]
          else Resumed(before[h - 1], before[h], w.vars, ResultOf(w), d.st.stack[h - 1])
  }

  lemma AfterWalkPopsOnce(p: Project, h: nat, below: seq<Frame>, f: Frame, w: Walk)
    requires f.isFunction && |below| >= h > 0
    requires w.exit.Calling? ==> w.exit.call.functionId in p.tasks
    requires var d := AfterWalk(p, below, f, w); d.Live? && |d.st.stack| <= h
    ensures var d := AfterWalk(p, below, f, w);
      && |below| == h == |d.st.stack|
      && d.st.stack[..h - 1] == below[..h - 1] && d.st.vars == w.vars
      && if w.exit.FellOff? then d.st.stack == below
         else Resumed(below[h - 1], f, w.vars, ResultOf(w), d.st.stack[h - 1])
  {
    hide ReturnToCaller, Resumed;
    if w.exit.Returned? {
      ReturnResumes(below, f, w.vars, w.exit.result, w.visited, w.world);
    } else if w.exit.Ended? {
      ReturnResumes(below, f, w.vars, NO_RESULT, w.visited, Logged(w.world, NoReturnPath));
    } else if w.exit.Raised? {
      ReturnResumes(below, f, w.vars, NO_RESULT, w.visited, Logged(w.world, w.exit.error));
    }
  }

  lemma ReturnResumes(below: seq<Frame>, f: Frame, vars: Vars, r: FnResult, visited: map<string, nat>, world: World)
    requires below != []
    ensures var d := ReturnToCaller(below, f, vars, r, visited, world);
      var h := |below|;
      d.Live? ==>
        && |d.st.stack| == h && d.st.stack[..h - 1] == below[..h - 1] && d.st.vars == vars
        && Resumed(below[h - 1], f, vars, r, d.st.stack[h - 1])
  {
    hide MergeBack, WrittenBack;
    var caller := below[|below| - 1];
    if MergeBack(caller.vars, vars, f.outs, r).Ok? {
      MergeBackIsWrittenBack(caller.vars, vars, f.outs, r);
    }
  }

  /** Of the callee's frame, resuming reads only the call's bindings and wiring. */
  lemma ResumedReads(caller: Frame, f: Frame, g: Frame, vars: Vars, r: FnResult, after: Frame)
    requires Resumed(caller, f, vars, r, after) && f.outs == g.outs && f.jumps == g.jumps
    ensures Resumed(caller, g, vars, r, after)
  {
    hide MergeBack, WrittenBack;
  }

  lemma StepPopsOnce(p: Project, env: Env, h: nat, c: Config)
    requires h > 0 && Shaped(p, c) && c.Live? && |c.st.stack| > h
    requires Grounded(c.st)
    requires var d := Step(p, env, c); d.Live? && |d.st.stack| <= h
    ensures PopsOnce(p, env, h, c.st.stack, c, Step(p, env, c))
  {
    hide WalkTop, AfterWalk, Resumed;
    var below, f := c.st.stack[..|c.st.stack| - 1], c.st.stack[|c.st.stack| - 1];
    var f', w := f.(pending := None, started := true), WalkTop(p, env, c.st);
    WalkTopCallsKnownFunction(p, env, c.st);
    AfterWalkPopsOnce(p, h, below, f', w);
    if !w.exit.FellOff? {
      ResumedReads(below[h - 1], f', f, w.vars, ResultOf(w), Step(p, env, c).st.stack[h - 1]);
    }
  }

  /** Scope isolation over nested calls.  From any moment inside a call to the turn it returns --
      however many calls it makes in between -- its caller's frame changes once, by resuming with what
      the callee itself ended in, and every deeper caller is untouched. */
  lemma ScopeIsolation(p: Project, env: Env, h: nat, n: nat, c: Config)
    requires h > 0 && n > 0 && Shaped(p, c) && c.Live? && |c.st.stack| > h
    requires StaysAbove(p, env, h, n, c)
    requires var d := Run(p, env, n, c); d.Live? && |d.st.stack| <= h
    ensures PopsOnce(p, env, h, c.st.stack, Run(p, env, n - 1, c), Run(p, env, n, c))
  {
    hide Step, Run, ShapedStack, Resumed, WalkTop;
    RunDisturbsOnlyAbove(p, env, h, n - 1, c);
    var m := Run(p, env, n - 1, c);
    RunAdds(p, env, n - 1, 1, c);
    RunOne(p, env, m);
    StepPopsOnce(p, env, h, m);
    assert m.st.stack[h - 1] == m.st.stack[..h][h - 1] == c.st.stack[..h][h - 1] == c.st.stack[h - 1];
    assert m.st.stack[..h - 1] == m.st.stack[..h][..h - 1] == c.st.stack[..h][..h - 1] == c.st.stack[..h - 1];
    var w, d := WalkTop(p, env, m.st), Run(p, env, n, c);
    if !w.exit.FellOff? {
      ResumedReads(c.st.stack[h - 1], m.st.stack[h], c.st.stack[h], w.vars, ResultOf(w), d.st.stack[h - 1]);
    }
  }
}
