/** The value every parameter and local of a callee starts with, and which functions can be
    supplied with their required parameters at all. */
module Parameters {
  import opened Common
  import opened Runtime
  import opened Scheduler

  // ---------------------------------------------------------------- who supplies a name

  /** Declaration `d` supplies `name` with a default. */
  predicate Defaults(d: ParamDecl, name: string) {
    d.default != Null && d.name == name
  }

  /** The call's reference `ref` is understood as the parameter called `name`. */
  predicate Means(decls: seq<ParamDecl>, ref: string, name: string) {
    Declared(decls, ref).Some? && Declared(decls, ref).value.name == name
  }

  function LastDefault(decls: seq<ParamDecl>, name: string): (r: Option<nat>)
    ensures r.Some? ==> r.value < |decls| && Defaults(decls[r.value], name)
    ensures forall j :: (if r.Some? then r.value < j else 0 <= j) && j < |decls| ==> !Defaults(decls[j], name)
  {
    if decls == [] then None
    else
      var r := LastDefault(decls[1..], name);
      assert forall j :: 0 < j < |decls| ==> decls[j] == decls[1..][j - 1];
      if r.Some? then Some(r.value + 1) else if Defaults(decls[0], name) then Some(0) else None
  }

  function LastInput(decls: seq<ParamDecl>, inputs: seq<InBinding>, name: string): (r: Option<nat>)
    ensures r.Some? ==> r.value < |inputs| && Means(decls, inputs[r.value].ref, name)
    ensures forall j :: (if r.Some? then r.value < j else 0 <= j) && j < |inputs| ==> !Means(decls, inputs[j].ref, name)
  {
    if inputs == [] then None
    else
      var r := LastInput(decls, inputs[1..], name);
      assert forall j :: 0 < j < |inputs| ==> inputs[j] == inputs[1..][j - 1];
      if r.Some? then Some(r.value + 1) else if Means(decls, inputs[0].ref, name) then Some(0) else None
  }

  function LastLocal(locals: seq<LocalDecl>, name: string): (r: Option<nat>)
    ensures r.Some? ==> r.value < |locals| && locals[r.value].name == name
    ensures forall j :: (if r.Some? then r.value < j else 0 <= j) && j < |locals| ==> locals[j].name != name
  {
    if locals == [] then None
    else
      var r := LastLocal(locals[1..], name);
      assert forall j :: 0 < j < |locals| ==> locals[j] == locals[1..][j - 1];
      if r.Some? then Some(r.value + 1) else if locals[0].name == name then Some(0) else None
  }

  predicate Supplied(decls: seq<ParamDecl>, inputs: seq<InBinding>, name: string) {
    LastInput(decls, inputs, name).Some? || LastDefault(decls, name).Some?
  }

  // ---------------------------------------------------------------- keys

  lemma PrefixCancels(prefix: string, a: string, b: string)
    requires prefix + a == prefix + b
    ensures a == b
  {
    assert (prefix + a)[|prefix|..] == a;
  }

  lemma PrefixesDiffer(a: string, b: string)
    ensures PARAM_PREFIX + a != LOCAL_PREFIX + b
  {
    assert (PARAM_PREFIX + a)[2] == 'p' && (LOCAL_PREFIX + b)[2] == 'l';
  }

  lemma ParamIsScoped(name: string)
    ensures IsScoped(PARAM_PREFIX + name) && IsScoped(LOCAL_PREFIX + name)
  {
  }

  /** Writing one parameter leaves every other one alone. */
  lemma OtherParameters(prefix: string, vars: Vars, a: string, v: Value, b: string)
    ensures var after := vars[prefix + a := v];
      if a == b then after[prefix + b] == v else SameAt(after, vars, prefix + b)
  {
    if prefix + a == prefix + b { PrefixCancels(prefix, a, b); }
  }

  predicate HoldsAt(vars: Vars, k: string, v: Option<Value>) {
    k in vars && Some(vars[k]) == v
  }

  // ---------------------------------------------------------------- the three binding passes

  lemma {:induction false} DefaultValue(env: Env, decls: seq<ParamDecl>, child: Vars, name: string)
    requires BindDefaults(env, decls, child).Ok?
    ensures var r := BindDefaults(env, decls, child).value;
      match LastDefault(decls, name)
      case Some(j) => HoldsAt(r, PARAM_PREFIX + name, env.coerce(decls[j].default, decls[j].kind))
      case None => SameAt(r, child, PARAM_PREFIX + name)
    decreases |decls|
  {
    if decls != [] {
      if decls[0].default == Null {
        DefaultValue(env, decls[1..], child, name);
      } else {
        var v := env.coerce(decls[0].default, decls[0].kind).value;
        OtherParameters(PARAM_PREFIX, child, decls[0].name, v, name);
        DefaultValue(env, decls[1..], child[PARAM_PREFIX + decls[0].name := v], name);
      }
    }
  }

  /** The value a call's input binding passes, coerced to the kind of the parameter it means. */
  function InputValue(env: Env, tick: nat, decls: seq<ParamDecl>, input: InBinding, caller: Vars): Option<Value> {
    if Declared(decls, input.ref).None? || env.resolve(tick, caller, input.value).None? then None
    else env.coerce(env.resolve(tick, caller, input.value).value, Declared(decls, input.ref).value.kind)
  }

  lemma {:induction false} InputValues(env: Env, tick: nat, decls: seq<ParamDecl>, inputs: seq<InBinding>, caller: Vars,
      child: Vars, name: string)
    requires BindInputs(env, tick, decls, inputs, caller, child).Ok?
    ensures var r := BindInputs(env, tick, decls, inputs, caller, child).value;
      match LastInput(decls, inputs, name)
      case Some(i) => HoldsAt(r, PARAM_PREFIX + name, InputValue(env, tick, decls, inputs[i], caller))
      case None => SameAt(r, child, PARAM_PREFIX + name)
    decreases |inputs|
  {
    hide Declared;
    if inputs != [] {
      var d := Declared(decls, inputs[0].ref);
      if d.None? {
        InputValues(env, tick, decls, inputs[1..], caller, child, name);
      } else {
        var v := InputValue(env, tick, decls, inputs[0], caller).value;
        OtherParameters(PARAM_PREFIX, child, d.value.name, v, name);
        InputValues(env, tick, decls, inputs[1..], caller, child[PARAM_PREFIX + d.value.name := v], name);
      }
    }
  }

  lemma {:induction false} LocalValue(env: Env, locals: seq<LocalDecl>, child: Vars, name: string)
    requires BindLocals(env, locals, child).Ok?
    ensures var r := BindLocals(env, locals, child).value;
      && SameAt(r, child, PARAM_PREFIX + name)
      && match (if name == "" then None else LastLocal(locals, name))
         case Some(j) => HoldsAt(r, LOCAL_PREFIX + name, env.coerce(locals[j].default, locals[j].kind))
         case None => SameAt(r, child, LOCAL_PREFIX + name)
    decreases |locals|
  {
    if locals != [] {
      if locals[0].name == "" {
        LocalValue(env, locals[1..], child, name);
      } else {
        var v := env.coerce(locals[0].default, locals[0].kind).value;
        PrefixesDiffer(name, locals[0].name);
        OtherParameters(LOCAL_PREFIX, child, locals[0].name, v, name);
        LocalValue(env, locals[1..], child[LOCAL_PREFIX + locals[0].name := v], name);
      }
    }
  }

  // ---------------------------------------------------------------- what a callee starts with

  /** What parameter `name` holds: the last input that means it, else the last default, else nothing. */
  function ParameterOf(env: Env, tick: nat, target: Task, call: CallIntent, caller: Vars, name: string): Option<Value> {
    var decls := Declarations(target.inputs);
    if LastInput(decls, call.inputs, name).Some? then
      InputValue(env, tick, decls, call.inputs[LastInput(decls, call.inputs, name).value], caller)
    else if LastDefault(decls, name).Some? then
      var d := decls[LastDefault(decls, name).value];
      env.coerce(d.default, d.kind)
    else None
  }

  /** What local `name` holds: the coerced default of its last declaration. */
  function LocalOf(env: Env, target: Task, name: string): Option<Value> {
    if name == "" || LastLocal(target.locals, name).None? then None
    else
      var l := target.locals[LastLocal(target.locals, name).value];
      env.coerce(l.default, l.kind)
  }

  function ValueAt(vars: Vars, k: string): Option<Value> {
    if k in vars then Some(vars[k]) else None
  }

  /** A callee's own scope, key by key. */
  lemma CalleeStartsWith(env: Env, tick: nat, target: Task, call: CallIntent, caller: Vars, name: string)
    requires ChildVars(env, tick, target, call, caller).Ok?
    ensures var child := ChildVars(env, tick, target, call, caller).value;
      && ValueAt(child, PARAM_PREFIX + name) == ParameterOf(env, tick, target, call, caller, name)
      && ValueAt(child, LOCAL_PREFIX + name) == LocalOf(env, target, name)
  {
    hide Declarations, Declared, BindDefaults, BindInputs, BindLocals, LastInput, LastDefault, LastLocal, IsScoped;
    var decls := Declarations(target.inputs);
    ParamIsScoped(name);
    var d := BindDefaults(env, decls, Shared(caller)).value;
    var b := BindInputs(env, tick, decls, call.inputs, caller, d).value;
    DefaultValue(env, decls, Shared(caller), name);
    InputValues(env, tick, decls, call.inputs, caller, d, name);
    LocalValue(env, target.locals, b, name);
    ParametersAddNoLocals(env, tick, decls, call.inputs, caller, name);
  }

  lemma {:induction false} DefaultsAddNoLocals(env: Env, decls: seq<ParamDecl>, child: Vars, name: string)
    requires BindDefaults(env, decls, child).Ok?
    ensures SameAt(BindDefaults(env, decls, child).value, child, LOCAL_PREFIX + name)
    decreases |decls|
  {
    if decls != [] {
      if decls[0].default == Null {
        DefaultsAddNoLocals(env, decls[1..], child, name);
      } else {
        PrefixesDiffer(decls[0].name, name);
        DefaultsAddNoLocals(env, decls[1..], child[PARAM_PREFIX + decls[0].name := env.coerce(decls[0].default, decls[0].kind).value], name);
      }
    }
  }

  lemma {:induction false} InputsAddNoLocals(env: Env, tick: nat, decls: seq<ParamDecl>, inputs: seq<InBinding>,
      caller: Vars, child: Vars, name: string)
    requires BindInputs(env, tick, decls, inputs, caller, child).Ok?
    ensures SameAt(BindInputs(env, tick, decls, inputs, caller, child).value, child, LOCAL_PREFIX + name)
    decreases |inputs|
  {
    hide Declared;
    if inputs != [] {
      var d := Declared(decls, inputs[0].ref);
      if d.None? {
        InputsAddNoLocals(env, tick, decls, inputs[1..], caller, child, name);
      } else {
        PrefixesDiffer(d.value.name, name);
        var v := InputValue(env, tick, decls, inputs[0], caller).value;
        InputsAddNoLocals(env, tick, decls, inputs[1..], caller, child[PARAM_PREFIX + d.value.name := v], name);
      }
    }
  }

  lemma ParametersAddNoLocals(env: Env, tick: nat, decls: seq<ParamDecl>, inputs: seq<InBinding>, caller: Vars, name: string)
    requires BindDefaults(env, decls, Shared(caller)).Ok?
    requires BindInputs(env, tick, decls, inputs, caller, BindDefaults(env, decls, Shared(caller)).value).Ok?
    ensures LOCAL_PREFIX + name !in BindInputs(env, tick, decls, inputs, caller, BindDefaults(env, decls, Shared(caller)).value).value
  {
    hide BindDefaults, BindInputs, IsScoped;
    ParamIsScoped(name);
    DefaultsAddNoLocals(env, decls, Shared(caller), name);
    InputsAddNoLocals(env, tick, decls, inputs, caller, BindDefaults(env, decls, Shared(caller)).value, name);
  }

  // ---------------------------------------------------------------- refusals while binding

  lemma {:induction false} DefaultsError(env: Env, decls: seq<ParamDecl>, child: Vars)
    ensures var r := BindDefaults(env, decls, child); r.Err? ==> r.error == BadArgument
    decreases |decls|
  {
    if decls != [] {
      DefaultsError(env, decls[1..], child);
      var v := env.coerce(decls[0].default, decls[0].kind);
      if v.Some? { DefaultsError(env, decls[1..], child[PARAM_PREFIX + decls[0].name := v.value]); }
    }
  }

  lemma {:induction false} InputsError(env: Env, tick: nat, decls: seq<ParamDecl>, inputs: seq<InBinding>, caller: Vars,
      child: Vars)
    ensures var r := BindInputs(env, tick, decls, inputs, caller, child); r.Err? ==> r.error == BadArgument
    decreases |inputs|
  {
    if inputs != [] {
      InputsError(env, tick, decls, inputs[1..], caller, child);
      var d := Declared(decls, inputs[0].ref);
      if d.Some? {
        var raw := env.resolve(tick, caller, inputs[0].value);
        if raw.Some? && env.coerce(raw.value, d.value.kind).Some? {
          InputsError(env, tick, decls, inputs[1..], caller, child[PARAM_PREFIX + d.value.name := env.coerce(raw.value, d.value.kind).value]);
        }
      }
    }
  }

  lemma {:induction false} LocalsError(env: Env, locals: seq<LocalDecl>, child: Vars)
    ensures var r := BindLocals(env, locals, child); r.Err? ==> r.error == BadArgument
    decreases |locals|
  {
    if locals != [] {
      LocalsError(env, locals[1..], child);
      var v := env.coerce(locals[0].default, locals[0].kind);
      if v.Some? { LocalsError(env, locals[1..], child[LOCAL_PREFIX + locals[0].name := v.value]); }
    }
  }

  predicate AllRequiredSupplied(decls: seq<ParamDecl>, inputs: seq<InBinding>) {
    forall i :: 0 <= i < |decls| && decls[i].required ==> Supplied(decls, inputs, decls[i].name)
  }

  /** A parameter is reported missing exactly when a required one has neither an input that means it
      nor a default; the only other refusal is a value that cannot be resolved or coerced. */
  lemma MissingIffNotSupplied(env: Env, tick: nat, target: Task, call: CallIntent, caller: Vars)
    ensures var r := ChildVars(env, tick, target, call, caller);
      && (r.Err? && r.error != BadArgument ==> r.error == MissingParameter)
      && (r != Err(BadArgument) ==> (r == Err(MissingParameter) <==> !AllRequiredSupplied(Declarations(target.inputs), call.inputs)))
  {
    hide Declarations, Declared, BindDefaults, BindInputs, BindLocals, LastInput, LastDefault, IsScoped;
    var decls := Declarations(target.inputs);
    DefaultsError(env, decls, Shared(caller));
    if BindDefaults(env, decls, Shared(caller)).Ok? {
      var d := BindDefaults(env, decls, Shared(caller)).value;
      InputsError(env, tick, decls, call.inputs, caller, d);
      if BindInputs(env, tick, decls, call.inputs, caller, d).Ok? {
        var b := BindInputs(env, tick, decls, call.inputs, caller, d).value;
        SuppliedIffBound(env, tick, decls, call.inputs, caller);
        LocalsError(env, target.locals, b);
      }
    }
  }

  lemma SuppliedIffBound(env: Env, tick: nat, decls: seq<ParamDecl>, inputs: seq<InBinding>, caller: Vars)
    requires BindDefaults(env, decls, Shared(caller)).Ok?
    requires BindInputs(env, tick, decls, inputs, caller, BindDefaults(env, decls, Shared(caller)).value).Ok?
    ensures AllSupplied(decls, BindInputs(env, tick, decls, inputs, caller, BindDefaults(env, decls, Shared(caller)).value).value)
      <==> AllRequiredSupplied(decls, inputs)
  {
    hide BindDefaults, BindInputs, IsScoped, LastInput, LastDefault;
    var d := BindDefaults(env, decls, Shared(caller)).value;
    var b := BindInputs(env, tick, decls, inputs, caller, d).value;
    forall i | 0 <= i < |decls| ensures PARAM_PREFIX + decls[i].name in b <==> Supplied(decls, inputs, decls[i].name) {
      ParamIsScoped(decls[i].name);
      DefaultValue(env, decls, Shared(caller), decls[i].name);
      InputValues(env, tick, decls, inputs, caller, d, decls[i].name);
    }
  }

  // ---------------------------------------------------------------- functions that can be entered

  /** Some reference a call could use means the parameter called `name`. */
  predicate Nameable(decls: seq<ParamDecl>, name: string) {
    exists i :: 0 <= i < |decls| && (Means(decls, decls[i].id, name) || Means(decls, decls[i].name, name))
  }

  /** Every required parameter has a default or can be named by a call: some call can enter. */
  predicate Suppliable(target: Task) {
    var decls := Declarations(target.inputs);
    forall i :: 0 <= i < |decls| && decls[i].required ==>
      LastDefault(decls, decls[i].name).Some? || Nameable(decls, decls[i].name)
  }

  lemma {:induction false} ByIdNames(decls: seq<ParamDecl>, id: string)
    ensures ById(decls, id).Some? ==> exists i :: 0 <= i < |decls| && decls[i].id == id
  {
    if decls != [] && decls[0].id != id {
      ByIdNames(decls[1..], id);
      assert forall i :: 0 <= i < |decls[1..]| ==> decls[1..][i] == decls[i + 1];
    }
  }

  lemma {:induction false} ByNameNames(decls: seq<ParamDecl>, name: string)
    ensures ByName(decls, name).Some? ==> exists i :: 0 <= i < |decls| && decls[i].name == name
  {
    if decls != [] && decls[|decls| - 1].name != name {
      ByNameNames(decls[..|decls| - 1], name);
      assert forall i :: 0 <= i < |decls| - 1 ==> decls[..|decls| - 1][i] == decls[i];
    }
  }

  /** A reference means the same with or without the space around it, and then it is some id or name. */
  lemma MeaningIsNamed(decls: seq<ParamDecl>, ref: string, name: string)
    requires Means(decls, ref, name)
    ensures Nameable(decls, name)
  {
    hide Strip, ById, ByName;
    StripIsTrimmed(ref);
    ByIdNames(decls, Strip(ref));
    ByNameNames(decls, Strip(ref));
    if ById(decls, Strip(ref)).Some? {
      var i :| 0 <= i < |decls| && decls[i].id == Strip(ref);
      assert Means(decls, decls[i].id, name);
    } else {
      var i :| 0 <= i < |decls| && decls[i].name == Strip(ref);
      assert Means(decls, decls[i].name, name);
    }
  }

  /** Only suppliable functions are ever entered. */
  lemma EnteredIsSuppliable(env: Env, tick: nat, target: Task, call: CallIntent, caller: Vars)
    requires ChildVars(env, tick, target, call, caller).Ok?
    ensures Suppliable(target)
  {
    hide ChildVars, Declarations, Means, LastDefault, LastInput, Nameable;
    MissingIffNotSupplied(env, tick, target, call, caller);
    var decls := Declarations(target.inputs);
    forall i | 0 <= i < |decls| && decls[i].required
      ensures LastDefault(decls, decls[i].name).Some? || Nameable(decls, decls[i].name)
    {
      assert Supplied(decls, call.inputs, decls[i].name);
      var j := LastInput(decls, call.inputs, decls[i].name);
      if j.Some? { MeaningIsNamed(decls, call.inputs[j.value].ref, decls[i].name); }
    }
  }

  /** Inputs that use every reference there is. */
  function EveryInput(decls: seq<ParamDecl>): (r: seq<InBinding>)
    ensures forall i :: 0 <= i < |decls| ==> InBinding(decls[i].id, Null) in r && InBinding(decls[i].name, Null) in r
  {
    if decls == [] then []
    else
      var r := EveryInput(decls[..|decls| - 1]);
      assert forall i :: 0 <= i < |decls| - 1 ==> decls[i] == decls[..|decls| - 1][i];
      r + [InBinding(decls[|decls| - 1].id, Null), InBinding(decls[|decls| - 1].name, Null)]
  }

  /** An environment that refuses no value. */
  ghost predicate Obliging(env: Env) {
    && (forall tick: nat, vars, v :: env.resolve(tick, vars, v).Some?)
    && (forall v, kind :: env.coerce(v, kind).Some?)
  }

  lemma {:induction false} ObligingDefaults(env: Env, decls: seq<ParamDecl>, child: Vars)
    requires Obliging(env)
    ensures BindDefaults(env, decls, child).Ok?
    decreases |decls|
  {
    if decls != [] {
      ObligingDefaults(env, decls[1..], child);
      var v := env.coerce(decls[0].default, decls[0].kind);
      ObligingDefaults(env, decls[1..], child[PARAM_PREFIX + decls[0].name := v.value]);
    }
  }

  lemma {:induction false} ObligingInputs(env: Env, tick: nat, decls: seq<ParamDecl>, inputs: seq<InBinding>, caller: Vars, child: Vars)
    requires Obliging(env)
    ensures BindInputs(env, tick, decls, inputs, caller, child).Ok?
    decreases |inputs|
  {
    hide Declared;
    if inputs != [] {
      ObligingInputs(env, tick, decls, inputs[1..], caller, child);
      var d := Declared(decls, inputs[0].ref);
      if d.Some? {
        var v := env.coerce(env.resolve(tick, caller, inputs[0].value).value, d.value.kind);
        ObligingInputs(env, tick, decls, inputs[1..], caller, child[PARAM_PREFIX + d.value.name := v.value]);
      }
    }
  }

  lemma {:induction false} ObligingLocals(env: Env, locals: seq<LocalDecl>, child: Vars)
    requires Obliging(env)
    ensures BindLocals(env, locals, child).Ok?
    decreases |locals|
  {
    if locals != [] {
      ObligingLocals(env, locals[1..], child);
      var v := env.coerce(locals[0].default, locals[0].kind);
      ObligingLocals(env, locals[1..], child[LOCAL_PREFIX + locals[0].name := v.value]);
    }
  }

  /** And each of them can be, by a call that uses every reference. */
  lemma SuppliableIsEntered(env: Env, tick: nat, target: Task, call: CallIntent, caller: Vars)
    requires Suppliable(target) && Obliging(env)
    requires call.inputs == EveryInput(Declarations(target.inputs))
    ensures ChildVars(env, tick, target, call, caller).Ok?
  {
    hide Declarations, Means, LastDefault, LastInput, Obliging, BindDefaults, BindInputs, BindLocals, EveryInput;
    var decls := Declarations(target.inputs);
    ObligingDefaults(env, decls, Shared(caller));
    var d := BindDefaults(env, decls, Shared(caller)).value;
    ObligingInputs(env, tick, decls, call.inputs, caller, d);
    var b := BindInputs(env, tick, decls, call.inputs, caller, d).value;
    ObligingLocals(env, target.locals, b);
    SuppliedIffBound(env, tick, decls, call.inputs, caller);
    forall i | 0 <= i < |decls| && decls[i].required ensures Supplied(decls, call.inputs, decls[i].name) {
      if LastDefault(decls, decls[i].name).None? {
        NameableIsInput(decls, decls[i].name);
      }
    }
  }

  lemma NameableIsInput(decls: seq<ParamDecl>, name: string)
    requires Nameable(decls, name)
    ensures LastInput(decls, EveryInput(decls), name).Some?
  {
    hide Means, EveryInput;
    var inputs := EveryInput(decls);
    var i :| 0 <= i < |decls| && (Means(decls, decls[i].id, name) || Means(decls, decls[i].name, name));
    var ref := if Means(decls, decls[i].id, name) then decls[i].id else decls[i].name;
    assert InBinding(ref, Null) in inputs;
    var j :| 0 <= j < |inputs| && inputs[j] == InBinding(ref, Null);
    assert Means(decls, inputs[j].ref, name);
  }

  ghost predicate Enters(env: Env, tick: nat, target: Task, call: CallIntent, caller: Vars) {
    ChildVars(env, tick, target, call, caller).Ok?
  }

  /** The test is exact: a function can be entered by some call in some environment exactly if it is
      suppliable. */
  lemma SuppliableIff(target: Task)
    ensures Suppliable(target) <==> exists env, tick, call, caller :: Enters(env, tick, target, call, caller)
  {
    hide Suppliable, ChildVars;
    forall env, tick, call, caller | Enters(env, tick, target, call, caller) ensures Suppliable(target) {
      EnteredIsSuppliable(env, tick, target, call, caller);
    }
    if Suppliable(target) {
      var env := Env((t, m, node, vars) => (Crash, vars), (t, vars, v) => Some(v), (v, k) => Some(v), 1);
      var call := CallIntent("", EveryInput(Declarations(target.inputs)), []);
      SuppliableIsEntered(env, 0, target, call, map[]);
      assert Enters(env, 0, target, call, map[]);
    }
  }
}
