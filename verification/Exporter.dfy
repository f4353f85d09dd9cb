/** Release trimming: keep main, the functions it can reach or the player form exposes, and the
    page map only if something included can use it. */
module Exporter {
  import opened Common
  import opened Runtime
  import opened Schema
  import opened Loader

  datatype Blueprint = Blueprint(workflow: WorkflowDoc, pageMap: PageMap)

  const EMPTY_PAGE_MAP := PageMap([], [])

  // ---------------------------------------------------------------- what is called, what is exposed

  /** `_called_functions` */
  function Called(g: GraphDoc): set<string> {
    set i | 0 <= i < |g.nodes| && g.nodes[i].node.nodeType == "call_function" && Strip(g.nodes[i].node.functionId) != ""
      :: Strip(g.nodes[i].node.functionId)
  }

  function FirstDot(s: string): (r: Option<nat>)
    ensures r.Some? ==> r.value < |s| && s[r.value] == '.' && '.' !in s[..r.value]
    ensures r.None? ==> '.' !in s
  {
    if s == "" then None
    else if s[0] == '.' then Some(0)
    else
      match FirstDot(s[1..])
      case None => None
      case Some(i) =>
        assert s[..i + 1] == [s[0]] + s[1..][..i];
        Some(i + 1)
  }

  /** The node id in a form target `$node.<id>.<field>`. */
  function ExposedNode(target: string): Option<string> {
    if !StartsWith(target, "$node.") then None
    else
      match FirstDot(target[6..])
      case None => None
      case Some(i) => if i == 0 then None else Some(target[6..][..i])
  }

  function ExposedNodes(targets: seq<string>): set<string> {
    set i | 0 <= i < |targets| && ExposedNode(targets[i]).Some? :: ExposedNode(targets[i]).value
  }

  /** The function dictionary: among functions sharing an id the last one counts. */
  function Lookup(functions: seq<FunctionDoc>, id: string): (r: Option<FunctionDoc>)
    ensures r.Some? ==> r.value in functions && r.value.functionId == id != ""
    ensures r.None? && id != "" ==> forall f :: f in functions ==> f.functionId != id
  {
    if id == "" || LastWithId(functions, id).None? then None
    else Some(functions[LastWithId(functions, id).value])
  }

  predicate IsExposed(functions: seq<FunctionDoc>, id: string, exposed: set<string>) {
    Lookup(functions, id).Some? && NodeIds(DocNodes(Lookup(functions, id).value.graph.nodes)) * exposed != {}
  }

  function Required(w: WorkflowDoc, targets: seq<string>): set<string> {
    Called(w.main) + ExposedIds(w.functions, ExposedNodes(targets))
  }

  function ExposedIds(functions: seq<FunctionDoc>, exposed: set<string>): set<string> {
    set i | 0 <= i < |functions| && IsExposed(functions, functions[i].functionId, exposed) :: functions[i].functionId
  }

  // ---------------------------------------------------------------- the least closed set

  function Callees(functions: seq<FunctionDoc>, id: string): set<string> {
    match Lookup(functions, id)
    case Some(f) => Called(f.graph)
    case None => {}
  }

  ghost predicate Closed(functions: seq<FunctionDoc>, s: set<string>) {
    forall id :: id in s ==> Callees(functions, id) <= s
  }

  /** Every name mentioned anywhere. */
  function Mentioned(functions: seq<FunctionDoc>): set<string> {
    set i, f | 0 <= i < |functions| && f in Called(functions[i].graph) :: f
  }

  ghost predicate InEveryClosed(functions: seq<FunctionDoc>, required: set<string>, id: string) {
    forall s: set<string> :: required <= s && Closed(functions, s) ==> id in s
  }

  /** The intersection of all closed sets containing `required`. */
  ghost function Closure(functions: seq<FunctionDoc>, required: set<string>): set<string> {
    set id | id in required + Mentioned(functions) && InEveryClosed(functions, required, id)
  }

  lemma CalleesMentioned(functions: seq<FunctionDoc>, id: string)
    ensures Callees(functions, id) <= Mentioned(functions)
  {
  }

  /** It contains `required`, is closed under calls, and is inside every such set. */
  lemma ClosureIsLeast(functions: seq<FunctionDoc>, required: set<string>)
    ensures required <= Closure(functions, required)
    ensures Closed(functions, Closure(functions, required))
    ensures forall s: set<string> :: required <= s && Closed(functions, s) ==> Closure(functions, required) <= s
  {
    var c := Closure(functions, required);
    forall id, g | id in c && g in Callees(functions, id) ensures g in c {
      CalleesMentioned(functions, id);
      forall s: set<string> | required <= s && Closed(functions, s) ensures g in s {
        assert id in s;
      }
    }
  }

  ghost predicate AllDefined(functions: seq<FunctionDoc>, s: set<string>) {
    forall id :: id in s ==> Lookup(functions, id).Some?
  }

  /** Some enumeration of a set, as iterating over it gives. */
  method Enumerate(s: set<string>) returns (r: seq<string>)
    ensures Elements(r) == s
  {
    r := [];
    var rest := s;
    while rest != {}
      invariant rest <= s
      invariant Elements(r) == s - rest
      decreases |rest|
    {
      var x :| x in rest;
      ElementsAppend(r, [x]);
      rest := rest - {x};
      r := r + [x];
    }
  }

  function DefinedIds(functions: seq<FunctionDoc>): set<string> {
    set i | 0 <= i < |functions| :: functions[i].functionId
  }

  /** The worklist invariant: everything seen is needed, and everything needed is selected, still
      pending, or only reachable through what is pending. */
  ghost predicate Progress(functions: seq<FunctionDoc>, required: set<string>, selected: set<string>, pending: set<string>) {
    && selected + pending <= Closure(functions, required)
    && selected <= DefinedIds(functions) && AllDefined(functions, selected)
    && required <= selected + pending
    && forall id :: id in selected ==> Callees(functions, id) <= selected + pending
  }

  lemma SelectProgress(functions: seq<FunctionDoc>, required: set<string>, selected: set<string>, pending: set<string>,
      rest: set<string>, id: string)
    requires Progress(functions, required, selected, pending) && pending == rest + {id}
    requires Lookup(functions, id).Some?
    ensures Progress(functions, required, selected + {id}, rest + (Callees(functions, id) - (selected + {id})))
  {
    hide Closure, Callees, Lookup, DefinedIds;
    ClosureIsLeast(functions, required);
    LookupDefined(functions, id);
    var known := selected + {id} + (rest + (Callees(functions, id) - (selected + {id})));
    assert known == selected + pending + Callees(functions, id);
    assert id in selected + pending && selected + pending <= Closure(functions, required);
    forall g | g in selected + {id} ensures Callees(functions, g) <= known {
      assert g in selected ==> Callees(functions, g) <= selected + pending;
    }
  }

  lemma SelectShrinks(functions: seq<FunctionDoc>, selected: set<string>, id: string)
    requires Lookup(functions, id).Some? && id !in selected
    ensures |DefinedIds(functions) - (selected + {id})| < |DefinedIds(functions) - selected|
  {
    hide DefinedIds;
    LookupDefined(functions, id);
    assert DefinedIds(functions) - selected == (DefinedIds(functions) - (selected + {id})) + {id};
  }

  lemma DoneSelecting(functions: seq<FunctionDoc>, required: set<string>, selected: set<string>)
    requires Progress(functions, required, selected, {})
    ensures selected == Closure(functions, required) && AllDefined(functions, selected)
  {
  }

  /** The worklist of `_trim_blueprint`: it selects the least closed set, or fails on an undefined
      member of that set -- so it fails exactly when there is one. */
  method SelectFunctions(functions: seq<FunctionDoc>, required: set<string>) returns (r: Result<set<string>, string>)
    ensures r.Ok? <==> AllDefined(functions, Closure(functions, required))
    ensures r.Ok? ==> r.value == Closure(functions, required)
    ensures r.Err? ==> r.error in Closure(functions, required) && Lookup(functions, r.error).None?
  {
    hide Lookup, Called, Closure, Elements, DefinedIds;
    ClosureIsLeast(functions, required);
    var selected: set<string> := {};
    var pending := Enumerate(required);
    while pending != []
      invariant Progress(functions, required, selected, Elements(pending))
      decreases |DefinedIds(functions) - selected|, |pending|
    {
      hide Progress;
      var id := pending[|pending| - 1];
      ElementsPop(pending);
      ghost var before := Elements(pending);
      pending := pending[..|pending| - 1];
      InProgress(functions, required, selected, before, id);
      if id in selected {
        SkipProgress(functions, required, selected, before, Elements(pending), id);
        continue;
      }
      var f := Lookup(functions, id);
      if f.None? {
        return Err(id);
      }
      SelectProgress(functions, required, selected, before, Elements(pending), id);
      SelectShrinks(functions, selected, id);
      selected := selected + {id};
      var more := Enumerate(Called(f.value.graph) - selected);
      ElementsAppend(pending, more);
      pending := pending + more;
    }
    ElementsAppend([], []);
    DoneSelecting(functions, required, selected);
    return Ok(selected);
  }

  lemma InProgress(functions: seq<FunctionDoc>, required: set<string>, selected: set<string>, pending: set<string>, id: string)
    requires Progress(functions, required, selected, pending) && id in pending
    ensures id in Closure(functions, required)
    ensures id in selected ==> Lookup(functions, id).Some?
  {
  }

  lemma SkipProgress(functions: seq<FunctionDoc>, required: set<string>, selected: set<string>, pending: set<string>,
      rest: set<string>, id: string)
    requires Progress(functions, required, selected, pending) && pending == rest + {id} && id in selected
    ensures Progress(functions, required, selected, rest)
  {
  }

  lemma ElementsAppend(a: seq<string>, b: seq<string>)
    ensures Elements(a + b) == Elements(a) + Elements(b)
    ensures Elements([]) == {}
    ensures |b| == 1 ==> Elements(b) == {b[0]}
  {
  }

  lemma ElementsPop(a: seq<string>)
    requires a != []
    ensures Elements(a) == Elements(a[..|a| - 1]) + {a[|a| - 1]}
  {
  }

  lemma LookupDefined(functions: seq<FunctionDoc>, id: string)
    ensures Lookup(functions, id).Some? ==> id in DefinedIds(functions)
  {
  }

  // ---------------------------------------------------------------- the trimmed blueprint

  function KeptFunctions(functions: seq<FunctionDoc>, selected: set<string>): (r: seq<FunctionDoc>)
    ensures forall f :: f in r <==> f in functions && f.functionId in selected
  {
    if functions == [] then []
    else
      var last := functions[|functions| - 1];
      var r := KeptFunctions(functions[..|functions| - 1], selected);
      assert functions == functions[..|functions| - 1] + [last];
      if last.functionId in selected then r + [last] else r
  }

  function KeptFolders(folders: seq<Item>, ids: set<string>): (r: seq<Item>)
    ensures forall f :: f in r <==> f in folders && f.id in ids
  {
    if folders == [] then []
    else
      var last := folders[|folders| - 1];
      var r := KeptFolders(folders[..|folders| - 1], ids);
      assert folders == folders[..|folders| - 1] + [last];
      if last.id in ids then r + [last] else r
  }

  function FolderIds(functions: seq<FunctionDoc>): set<string> {
    set i | 0 <= i < |functions| && functions[i].folderId != "" :: functions[i].folderId
  }

  predicate UsesSmartJump(g: GraphDoc) {
    exists i :: 0 <= i < |g.nodes| && g.nodes[i].node.nodeType == "smart_jump"
  }

  predicate NeedsPageMap(w: WorkflowDoc, pageMap: PageMap, exposed: set<string>) {
    || NodeIds(pageMap.nodes) * exposed != {}
    || UsesSmartJump(w.main)
    || exists i :: 0 <= i < |w.functions| && UsesSmartJump(w.functions[i].graph)
  }

  /** The blueprint cut down to main and the functions in `selected`. */
  function Cut(b: Blueprint, targets: seq<string>, selected: set<string>): Blueprint {
    var functions := KeptFunctions(b.workflow.functions, selected);
    var w := b.workflow.(functions := functions, folders := KeptFolders(b.workflow.folders, FolderIds(functions)));
    Blueprint(w, if NeedsPageMap(w, b.pageMap, ExposedNodes(targets)) then b.pageMap else EMPTY_PAGE_MAP)
  }

  ghost function Selection(b: Blueprint, targets: seq<string>): set<string> {
    Closure(b.workflow.functions, Required(b.workflow, targets))
  }

  ghost predicate Trimmable(b: Blueprint, targets: seq<string>) {
    AllDefined(b.workflow.functions, Selection(b, targets))
  }

  ghost function TrimmedBlueprint(b: Blueprint, targets: seq<string>): Blueprint {
    Cut(b, targets, Selection(b, targets))
  }

  /** `_trim_blueprint` */
  method TrimBlueprint(b: Blueprint, targets: seq<string>) returns (r: Result<Blueprint, string>)
    ensures r.Ok? <==> Trimmable(b, targets)
    ensures r.Ok? ==> r.value == TrimmedBlueprint(b, targets)
    ensures r.Err? ==> r.error in Selection(b, targets) && Lookup(b.workflow.functions, r.error).None?
  {
    hide AllDefined, Closure, Required, Lookup;
    var selected := SelectFunctions(b.workflow.functions, Required(b.workflow, targets));
    match selected {
      case Err(e) => return Err(e);
      case Ok(ids) => return Ok(Cut(b, targets, ids));
    }
  }

  // ---------------------------------------------------------------- properties of the cut

  lemma {:induction false} LookupKept(functions: seq<FunctionDoc>, selected: set<string>, id: string)
    ensures Lookup(KeptFunctions(functions, selected), id) == if id in selected then Lookup(functions, id) else None
  {
    if functions != [] {
      var n := |functions| - 1;
      LookupKept(functions[..n], selected, id);
      var r := KeptFunctions(functions[..n], selected);
      assert (r + [functions[n]])[..|r|] == r;
    }
  }

  /** Every call left in a trimmed blueprint names a function left in it. */
  lemma TrimmedHasNoDanglingCall(b: Blueprint, targets: seq<string>)
    requires Trimmable(b, targets)
    ensures var w := TrimmedBlueprint(b, targets).workflow;
      && (forall id :: id in Called(w.main) ==> Lookup(w.functions, id).Some?)
      && (forall f, id :: f in w.functions && id in Callees(w.functions, f.functionId) ==> Lookup(w.functions, id).Some?)
  {
    var functions, s := b.workflow.functions, Selection(b, targets);
    ClosureIsLeast(functions, Required(b.workflow, targets));
    forall id ensures Lookup(KeptFunctions(functions, s), id) == if id in s then Lookup(functions, id) else None {
      LookupKept(functions, s, id);
    }
  }

  /** `at` lists, in increasing order, exactly the positions of the selected functions, and `kept`
      holds what stands there. */
  ghost predicate InOrder(functions: seq<FunctionDoc>, selected: set<string>, kept: seq<FunctionDoc>, at: seq<nat>) {
    && |at| == |kept|
    && (forall i :: 0 <= i < |at| ==> at[i] < |functions| && functions[at[i]] == kept[i] && kept[i].functionId in selected)
    && (forall i, j :: 0 <= i < j < |at| ==> at[i] < at[j])
    && (forall k :: 0 <= k < |functions| && functions[k].functionId in selected ==> k in at)
  }

  lemma InOrderSnoc(functions: seq<FunctionDoc>, selected: set<string>, kept: seq<FunctionDoc>, at: seq<nat>, f: FunctionDoc)
    requires InOrder(functions, selected, kept, at)
    ensures f.functionId !in selected ==> InOrder(functions + [f], selected, kept, at)
    ensures f.functionId in selected ==> InOrder(functions + [f], selected, kept + [f], at + [|functions|])
  {
  }

  /** The kept functions are the selected ones, in their original order. */
  lemma {:induction false} TrimmedKeepsOrder(functions: seq<FunctionDoc>, selected: set<string>) returns (at: seq<nat>)
    ensures InOrder(functions, selected, KeptFunctions(functions, selected), at)
  {
    hide InOrder;
    if functions == [] {
      at := [];
      NoneInOrder(selected);
    } else {
      var n := |functions| - 1;
      var before := TrimmedKeepsOrder(functions[..n], selected);
      InOrderSnoc(functions[..n], selected, KeptFunctions(functions[..n], selected), before, functions[n]);
      assert functions == functions[..n] + [functions[n]];
      at := if functions[n].functionId in selected then before + [n] else before;
    }
  }

  lemma NoneInOrder(selected: set<string>)
    ensures InOrder([], selected, [], [])
  {
  }

  // ---------------------------------------------------------------- trimming twice

  lemma {:induction false} KeptAgain(functions: seq<FunctionDoc>, s: set<string>)
    ensures KeptFunctions(KeptFunctions(functions, s), s) == KeptFunctions(functions, s)
  {
    if functions != [] {
      KeptAgain(functions[..|functions| - 1], s);
      var r := KeptFunctions(functions[..|functions| - 1], s);
      assert (r + [functions[|functions| - 1]])[..|r|] == r;
    }
  }

  lemma {:induction false} FoldersAgain(folders: seq<Item>, s: set<string>)
    ensures KeptFolders(KeptFolders(folders, s), s) == KeptFolders(folders, s)
  {
    if folders != [] {
      FoldersAgain(folders[..|folders| - 1], s);
      var r := KeptFolders(folders[..|folders| - 1], s);
      assert (r + [folders[|folders| - 1]])[..|r|] == r;
    }
  }

  /** After the cut the same functions are required and the same set is least closed. */
  lemma SelectionAgain(b: Blueprint, targets: seq<string>)
    requires Trimmable(b, targets)
    ensures Selection(TrimmedBlueprint(b, targets), targets) == Selection(b, targets)
  {
    hide Closure, Mentioned, KeptFolders, NeedsPageMap, Called;
    var functions, s, required := b.workflow.functions, Selection(b, targets), Required(b.workflow, targets);
    var w' := TrimmedBlueprint(b, targets).workflow;
    var functions', required' := w'.functions, Required(w', targets);
    ClosureIsLeast(functions, required);
    ClosureIsLeast(functions', required');
    forall id ensures Lookup(functions', id) == if id in s then Lookup(functions, id) else None {
      LookupKept(functions, s, id);
    }
    RequiredAgain(b, targets);
    var s' := Closure(functions', required');
    assert Closed(functions', s) by {
      forall id | id in s ensures Callees(functions', id) <= s {
        assert Callees(functions', id) == Callees(functions, id);
      }
    }
    assert s' <= s;
    assert Closed(functions, s') by {
      forall id | id in s' ensures Callees(functions, id) <= s' {
        assert Callees(functions', id) == Callees(functions, id);
      }
    }
  }

  lemma RequiredAgain(b: Blueprint, targets: seq<string>)
    requires Trimmable(b, targets)
    ensures Required(TrimmedBlueprint(b, targets).workflow, targets) == Required(b.workflow, targets)
  {
    hide Closure, KeptFolders, NeedsPageMap, Called, ExposedNodes, IsExposed;
    var functions, s, required := b.workflow.functions, Selection(b, targets), Required(b.workflow, targets);
    var kept := KeptFunctions(functions, s);
    var exposed := ExposedNodes(targets);
    ClosureIsLeast(functions, required);
    forall id ensures id in ExposedIds(kept, exposed) <==> id in ExposedIds(functions, exposed) {
      ExposedIdsIff(kept, exposed, id);
      ExposedIdsIff(functions, exposed, id);
      ExposedAgain(functions, s, id, exposed);
    }
  }

  lemma ExposedIdsIff(functions: seq<FunctionDoc>, exposed: set<string>, id: string)
    ensures id in ExposedIds(functions, exposed) <==> IsExposed(functions, id, exposed)
  {
  }

  lemma ExposedAgain(functions: seq<FunctionDoc>, s: set<string>, id: string, exposed: set<string>)
    ensures IsExposed(KeptFunctions(functions, s), id, exposed) <==> id in s && IsExposed(functions, id, exposed)
  {
    hide Lookup, KeptFunctions;
    LookupKept(functions, s, id);
  }

  /** Trimming is idempotent. */
  lemma TrimTwice(b: Blueprint, targets: seq<string>)
    requires Trimmable(b, targets)
    ensures Trimmable(TrimmedBlueprint(b, targets), targets)
    ensures TrimmedBlueprint(TrimmedBlueprint(b, targets), targets) == TrimmedBlueprint(b, targets)
  {
    hide Closure, Required, Called, ExposedNodes, UsesSmartJump;
    var functions, s := b.workflow.functions, Selection(b, targets);
    SelectionAgain(b, targets);
    forall id ensures Lookup(KeptFunctions(functions, s), id) == if id in s then Lookup(functions, id) else None {
      LookupKept(functions, s, id);
    }
    KeptAgain(functions, s);
    FoldersAgain(b.workflow.folders, FolderIds(KeptFunctions(functions, s)));
    assert NodeIds([]) == {};
  }
}
