/** What release trimming keeps, told from the documents: the functions that calls reach from main, or
    from a function with a node the player's form shows. */
module Selecting {
  import opened Common
  import opened Runtime
  import opened Schema
  import opened Loader
  import opened Exporter

  // ---------------------------------------------------------------- from the documents

  /** Some node of the graph calls `f`. */
  predicate CallsIn(g: GraphDoc, f: string) {
    f != "" && exists i :: 0 <= i < |g.nodes| && g.nodes[i].node.nodeType == "call_function" && Strip(g.nodes[i].node.functionId) == f
  }

  /** Among functions sharing an id the last one counts; one without an id never does. */
  predicate Counts(functions: seq<FunctionDoc>, i: nat)
    requires i < |functions|
  {
    functions[i].functionId != "" && forall j :: i < j < |functions| ==> functions[j].functionId != functions[i].functionId
  }

  predicate CountsAs(functions: seq<FunctionDoc>, i: nat, f: string) {
    i < |functions| && Counts(functions, i) && functions[i].functionId == f
  }

  ghost predicate FunctionCalls(functions: seq<FunctionDoc>, f: string, g: string) {
    exists i: nat :: CountsAs(functions, i, f) && CallsIn(functions[i].graph, g)
  }

  /** The form shows something of the node `id`. */
  ghost predicate Shows(targets: seq<string>, id: string) {
    id != "" && '.' !in id && exists field :: "$node." + id + "." + field in targets
  }

  predicate HasNode(g: GraphDoc, id: string) {
    exists k :: 0 <= k < |g.nodes| && g.nodes[k].node.nodeId == id
  }

  /** Main calls `f`, or `f` has a node the form shows. */
  ghost predicate Wanted(b: Blueprint, targets: seq<string>, f: string) {
    || CallsIn(b.workflow.main, f)
    || exists i: nat, id :: CountsAs(b.workflow.functions, i, f) && HasNode(b.workflow.functions[i].graph, id) && Shows(targets, id)
  }

  /** Calls lead from a wanted function along `path` to `f`. */
  ghost predicate Leads(b: Blueprint, targets: seq<string>, path: seq<string>, f: string) {
    && path != [] && Wanted(b, targets, path[0]) && path[|path| - 1] == f
    && forall i :: 0 <= i < |path| - 1 ==> FunctionCalls(b.workflow.functions, path[i], path[i + 1])
  }

  ghost predicate Needed(b: Blueprint, targets: seq<string>, f: string) {
    exists path :: Leads(b, targets, path, f)
  }

  ghost predicate IsDefined(functions: seq<FunctionDoc>, f: string) {
    exists i: nat :: CountsAs(functions, i, f)
  }

  // ---------------------------------------------------------------- the exporter's own notions

  lemma CalledIff(g: GraphDoc, f: string)
    ensures f in Called(g) <==> CallsIn(g, f)
  {
  }

  lemma {:induction false} LastCounts(functions: seq<FunctionDoc>, id: string, i: nat)
    requires id != ""
    ensures LastWithId(functions, id) == Some(i) <==> CountsAs(functions, i, id)
  {
    if functions != [] && functions[|functions| - 1].functionId != id {
      var front := functions[..|functions| - 1];
      LastCounts(front, id, i);
      assert forall j :: 0 <= j < |front| ==> front[j] == functions[j];
    }
  }

  lemma LookupIff(functions: seq<FunctionDoc>, id: string, i: nat)
    ensures CountsAs(functions, i, id) ==> Lookup(functions, id) == Some(functions[i])
    ensures Lookup(functions, id).Some? <==> IsDefined(functions, id)
  {
    hide LastWithId;
    if id != "" {
      LastCounts(functions, id, i);
      forall j: nat ensures LastWithId(functions, id) == Some(j) <==> CountsAs(functions, j, id) {
        LastCounts(functions, id, j);
      }
      if LastWithId(functions, id).Some? { assert CountsAs(functions, LastWithId(functions, id).value, id); }
    }
  }

  lemma CalleesIff(functions: seq<FunctionDoc>, f: string, g: string)
    ensures g in Callees(functions, f) <==> FunctionCalls(functions, f, g)
  {
    hide Called, CallsIn, Counts, Lookup;
    LookupIff(functions, f, 0);
    if Lookup(functions, f).Some? {
      var i: nat :| CountsAs(functions, i, f);
      LookupIff(functions, f, i);
      CalledIff(functions[i].graph, g);
      forall j: nat | CountsAs(functions, j, f) ensures functions[j] == functions[i] {
        LookupIff(functions, f, j);
      }
    }
  }

  /** The text of a form target, against the scan for its dots. */
  lemma TargetIff(target: string, id: string)
    ensures ExposedNode(target) == Some(id) <==> id != "" && '.' !in id && exists field :: target == "$node." + id + "." + field
  {
    hide ExposedNode;
    if field :| id != "" && '.' !in id && target == "$node." + id + "." + field { TargetShows(id, field); }
    if ExposedNode(target) == Some(id) { var field := FieldOf(target, id); }
  }

  lemma TargetShows(id: string, field: string)
    requires id != "" && '.' !in id
    ensures ExposedNode("$node." + id + "." + field) == Some(id)
  {
    var s := id + "." + field;
    Opened("$node.", id, field);
    DotAt(s, |id|);
  }

  lemma Opened(opening: string, id: string, field: string)
    ensures var s, target := id + "." + field, opening + id + "." + field;
      StartsWith(target, opening) && target[|opening|..] == s && s[..|id|] == id && s[|id|] == '.'
  {
  }

  lemma FieldOf(target: string, id: string) returns (field: string)
    requires ExposedNode(target) == Some(id)
    ensures id != "" && '.' !in id && target == "$node." + id + "." + field
  {
    var s := target[6..];
    var i := FirstDot(s).value;
    field := s[i + 1..];
    Parts("$node.", target, i);
  }

  lemma Parts(opening: string, target: string, i: nat)
    requires opening <= target && i < |target| - |opening| && target[|opening|..][i] == '.'
    ensures var s := target[|opening|..]; target == opening + s[..i] + "." + s[i + 1..]
  {
  }

  lemma DotAt(s: string, i: nat)
    requires i < |s| && s[i] == '.' && '.' !in s[..i]
    ensures FirstDot(s) == Some(i)
  {
    assert s[i] in s;
  }

  lemma ShownIff(targets: seq<string>, id: string)
    ensures id in ExposedNodes(targets) <==> Shows(targets, id)
  {
    hide ExposedNode;
    forall i | 0 <= i < |targets|
      ensures ExposedNode(targets[i]) == Some(id) <==> id != "" && '.' !in id && exists field :: targets[i] == "$node." + id + "." + field
    {
      TargetIff(targets[i], id);
    }
  }

  lemma ExposedIff(functions: seq<FunctionDoc>, targets: seq<string>, f: string)
    ensures f in ExposedIds(functions, ExposedNodes(targets)) <==>
      exists i: nat, id :: CountsAs(functions, i, f) && HasNode(functions[i].graph, id) && Shows(targets, id)
  {
    hide ExposedNodes, Lookup, Counts, Shows;
    ExposedIdsIff(functions, ExposedNodes(targets), f);
    LookupIff(functions, f, 0);
    if Lookup(functions, f).Some? {
      var i: nat :| CountsAs(functions, i, f);
      LookupIff(functions, f, i);
      forall j: nat | CountsAs(functions, j, f) ensures functions[j] == functions[i] {
        LookupIff(functions, f, j);
      }
      HasNodeIff(functions[i].graph, targets);
    }
  }

  lemma HasNodeIff(g: GraphDoc, targets: seq<string>)
    ensures NodeIds(DocNodes(g.nodes)) * ExposedNodes(targets) != {} <==> exists id :: HasNode(g, id) && Shows(targets, id)
  {
    hide ExposedNodes, Shows;
    var ids := NodeIds(DocNodes(g.nodes));
    forall id
      ensures id in ExposedNodes(targets) <==> Shows(targets, id)
      ensures id in ids <==> HasNode(g, id)
    {
      ShownIff(targets, id);
      NodeIdIff(g, id);
    }
    if ids * ExposedNodes(targets) != {} {
      var id :| id in ids * ExposedNodes(targets);
      assert HasNode(g, id);
    }
    if id :| HasNode(g, id) && Shows(targets, id) { assert id in ids * ExposedNodes(targets); }
  }

  lemma NodeIdIff(g: GraphDoc, id: string)
    ensures id in NodeIds(DocNodes(g.nodes)) <==> HasNode(g, id)
  {
    var nodes := DocNodes(g.nodes);
    if k :| 0 <= k < |g.nodes| && g.nodes[k].node.nodeId == id { assert nodes[k].nodeId == id; }
  }

  lemma WantedIff(b: Blueprint, targets: seq<string>, f: string)
    ensures f in Required(b.workflow, targets) <==> Wanted(b, targets, f)
  {
    hide Called, CallsIn, ExposedIds, CountsAs, HasNode, Shows;
    CalledIff(b.workflow.main, f);
    ExposedIff(b.workflow.functions, targets, f);
  }

  // ---------------------------------------------------------------- what is selected

  lemma {:induction false} PathInside(b: Blueprint, targets: seq<string>, path: seq<string>, f: string, s: set<string>)
    requires Leads(b, targets, path, f)
    requires forall g :: Wanted(b, targets, g) ==> g in s
    requires forall g, h :: g in s && FunctionCalls(b.workflow.functions, g, h) ==> h in s
    ensures f in s
    decreases |path|
  {
    hide Wanted, FunctionCalls;
    if |path| > 1 {
      var front := path[..|path| - 1];
      assert Leads(b, targets, front, front[|front| - 1]);
      PathInside(b, targets, front, front[|front| - 1], s);
      assert FunctionCalls(b.workflow.functions, path[|path| - 2], path[|path| - 1]);
    }
  }

  lemma NeededNext(b: Blueprint, targets: seq<string>, f: string, g: string)
    requires Needed(b, targets, f) && FunctionCalls(b.workflow.functions, f, g)
    ensures Needed(b, targets, g)
  {
    hide Wanted, FunctionCalls;
    var path :| Leads(b, targets, path, f);
    assert Leads(b, targets, path + [g], g);
  }

  /** The selected functions are exactly the needed ones. */
  lemma SelectedIff(b: Blueprint, targets: seq<string>, f: string)
    ensures f in Selection(b, targets) <==> Needed(b, targets, f)
  {
    hide Closure, Required, Callees, Wanted, FunctionCalls, Mentioned, Needed;
    var functions, required := b.workflow.functions, Required(b.workflow, targets);
    var s := Selection(b, targets);
    ClosureIsLeast(functions, required);
    forall g ensures g in required <==> Wanted(b, targets, g) { WantedIff(b, targets, g); }
    forall g, h ensures h in Callees(functions, g) <==> FunctionCalls(functions, g, h) { CalleesIff(functions, g, h); }
    if Needed(b, targets, f) {
      NeededIsInside(b, targets, f, s);
    }
    SelectionInside(b, targets);
    var reached := set g | g in s && Needed(b, targets, g);
    forall g | g in required ensures Needed(b, targets, g) { WantedIsNeeded(b, targets, g); }
    assert required <= reached;
    assert Closed(functions, reached) by {
      forall g, h | g in reached && h in Callees(functions, g) ensures h in reached {
        NeededNext(b, targets, g, h);
      }
    }
  }

  lemma SelectionInside(b: Blueprint, targets: seq<string>)
    ensures var s := Selection(b, targets);
      Required(b.workflow, targets) <= s && forall g, h :: g in s && h in Callees(b.workflow.functions, g) ==> h in s
  {
    hide Closure, Required, Callees;
    ClosureIsLeast(b.workflow.functions, Required(b.workflow, targets));
  }

  lemma WantedIsNeeded(b: Blueprint, targets: seq<string>, f: string)
    requires Wanted(b, targets, f)
    ensures Needed(b, targets, f)
  {
    hide Wanted, FunctionCalls;
    assert Leads(b, targets, [f], f);
  }

  lemma NeededIsInside(b: Blueprint, targets: seq<string>, f: string, s: set<string>)
    requires Needed(b, targets, f)
    requires forall g :: Wanted(b, targets, g) ==> g in s
    requires forall g, h :: g in s && FunctionCalls(b.workflow.functions, g, h) ==> h in s
    ensures f in s
  {
    hide Wanted, FunctionCalls, Leads;
    var path :| Leads(b, targets, path, f);
    PathInside(b, targets, path, f, s);
  }

  // ---------------------------------------------------------------- the trimmed blueprint

  /** Trimming succeeds exactly if every needed function is defined, and then keeps exactly the needed
      ones. */
  lemma TrimmedKeepsNeeded(b: Blueprint, targets: seq<string>, g: FunctionDoc)
    ensures Trimmable(b, targets) <==> forall f :: Needed(b, targets, f) ==> IsDefined(b.workflow.functions, f)
    ensures g in TrimmedBlueprint(b, targets).workflow.functions <==> g in b.workflow.functions && Needed(b, targets, g.functionId)
  {
    hide Closure, Required, Needed, Lookup, IsDefined, KeptFolders, NeedsPageMap;
    forall f
      ensures f in Selection(b, targets) <==> Needed(b, targets, f)
      ensures Lookup(b.workflow.functions, f).Some? <==> IsDefined(b.workflow.functions, f)
    {
      SelectedIff(b, targets, f);
      LookupIff(b.workflow.functions, f, 0);
    }
  }

  /** So a function with a node that the form shows is kept. */
  lemma ShownFunctionIsKept(b: Blueprint, targets: seq<string>, i: nat, id: string, field: string)
    requires i < |b.workflow.functions| && Counts(b.workflow.functions, i) && HasNode(b.workflow.functions[i].graph, id)
    requires id != "" && '.' !in id && "$node." + id + "." + field in targets
    ensures b.workflow.functions[i] in TrimmedBlueprint(b, targets).workflow.functions
  {
    hide TrimmedBlueprint, Needed, Wanted, Counts, HasNode;
    var f := b.workflow.functions[i].functionId;
    assert Shows(targets, id);
    assert Wanted(b, targets, f) by { ShownIsWanted(b, targets, i, id); }
    WantedIsNeeded(b, targets, f);
    TrimmedKeepsNeeded(b, targets, b.workflow.functions[i]);
  }

  lemma ShownIsWanted(b: Blueprint, targets: seq<string>, i: nat, id: string)
    requires i < |b.workflow.functions| && Counts(b.workflow.functions, i) && HasNode(b.workflow.functions[i].graph, id) && Shows(targets, id)
    ensures Wanted(b, targets, b.workflow.functions[i].functionId)
  {
    hide Shows;
    assert CountsAs(b.workflow.functions, i, b.workflow.functions[i].functionId);
  }

  predicate HasSmartJump(g: GraphDoc) {
    exists k :: 0 <= k < |g.nodes| && g.nodes[k].node.nodeType == "smart_jump"
  }

  /** The page map is kept exactly if the form shows one of its nodes, or main or a kept function has a
      smart jump; else it is emptied.  Of the folders those of kept functions stay, and everything else is
      as it was. */
  lemma TrimmedKeepsTheRest(b: Blueprint, targets: seq<string>, folder: Item)
    ensures var t := TrimmedBlueprint(b, targets);
      && t.pageMap == (if (exists i :: 0 <= i < |b.pageMap.nodes| && Shows(targets, b.pageMap.nodes[i].nodeId))
            || HasSmartJump(b.workflow.main) || (exists g :: g in t.workflow.functions && HasSmartJump(g.graph))
          then b.pageMap else PageMap([], []))
      && (folder in t.workflow.folders <==>
            folder in b.workflow.folders && exists g :: g in t.workflow.functions && g.folderId == folder.id != "")
      && t.workflow.main == b.workflow.main && t.workflow.versionOk == b.workflow.versionOk
  {
    hide Selection, ExposedNodes, Shows, KeptFunctions;
    forall id ensures id in ExposedNodes(targets) <==> Shows(targets, id) { ShownIff(targets, id); }
    var t := TrimmedBlueprint(b, targets);
    MapShown(b.pageMap, targets);
    assert (exists i :: 0 <= i < |t.workflow.functions| && UsesSmartJump(t.workflow.functions[i].graph))
      <==> exists g :: g in t.workflow.functions && HasSmartJump(g.graph);
  }

  lemma MapShown(m: PageMap, targets: seq<string>)
    ensures NodeIds(m.nodes) * ExposedNodes(targets) != {} <==> exists i :: 0 <= i < |m.nodes| && Shows(targets, m.nodes[i].nodeId)
  {
    hide ExposedNodes, Shows;
    forall id ensures id in ExposedNodes(targets) <==> Shows(targets, id) { ShownIff(targets, id); }
    var ids := NodeIds(m.nodes);
    if i :| 0 <= i < |m.nodes| && Shows(targets, m.nodes[i].nodeId) { assert m.nodes[i].nodeId in ids * ExposedNodes(targets); }
    if ids * ExposedNodes(targets) != {} {
      var id :| id in ids * ExposedNodes(targets);
    }
  }
}
