/** What names mean to the scheduler, told from their text: the targets of output bindings, the keys of
    scopes, and the references of call inputs. */
module Names {
  import opened Common
  import opened Runtime
  import opened Scheduler

  // ---------------------------------------------------------------- text

  /** `r` is `s` without the white space at its ends. */
  predicate StrippedAt(s: string, r: string, i: nat, j: nat) {
    && i <= j <= |s| && r == s[i..j]
    && (forall k :: 0 <= k < i ==> IsSpace(s[k])) && (forall k :: j <= k < |s| ==> IsSpace(s[k]))
    && (r != "" ==> !IsSpace(r[0]) && !IsSpace(r[|r| - 1]))
  }

  lemma {:induction false} LeftEnd(s: string) returns (i: nat)
    ensures i <= |s| && TrimLeft(s) == s[i..] && forall k :: 0 <= k < i ==> IsSpace(s[k])
  {
    if s == "" || !IsSpace(s[0]) {
      i := 0;
    } else {
      var k := LeftEnd(s[1..]);
      i := k + 1;
      assert forall m :: 0 < m < i ==> s[m] == s[1..][m - 1];
    }
  }

  lemma {:induction false} RightEnd(s: string) returns (j: nat)
    ensures j <= |s| && TrimRight(s) == s[..j] && forall k :: j <= k < |s| ==> IsSpace(s[k])
  {
    if s == "" || !IsSpace(s[|s| - 1]) {
      j := |s|;
    } else {
      j := RightEnd(s[..|s| - 1]);
    }
  }

  /** Stripping takes off the white space at both ends, all of it, and nothing else. */
  lemma StripTakesSpace(s: string)
    ensures exists i: nat, j: nat :: StrippedAt(s, Strip(s), i, j)
    ensures forall r, i: nat, j: nat :: StrippedAt(s, r, i, j) ==> r == Strip(s)
  {
    hide IsSpace;
    var i := LeftEnd(s);
    var j := RightEnd(s[i..]);
    assert Strip(s) == s[i..i + j];
    LeftFirst(s);
    assert StrippedAt(s, Strip(s), i, i + j);
    forall r, a: nat, b: nat | StrippedAt(s, r, a, b) ensures r == Strip(s) {
      SameEnds(s, r, a, b, Strip(s), i, i + j);
    }
  }

  lemma LeftFirst(s: string)
    ensures Strip(s) != "" ==> !IsSpace(Strip(s)[0]) && !IsSpace(Strip(s)[|Strip(s)| - 1])
  {
    hide IsSpace;
  }

  lemma EndsWithin(s: string, r: string, a: nat, b: nat, q: string, c: nat, d: nat)
    requires StrippedAt(s, r, a, b) && StrippedAt(s, q, c, d) && r != ""
    ensures c <= a && b <= d
  {
    hide IsSpace;
    assert r[0] == s[a] && r[|r| - 1] == s[b - 1];
  }

  lemma SameEnds(s: string, r: string, a: nat, b: nat, q: string, c: nat, d: nat)
    requires StrippedAt(s, r, a, b) && StrippedAt(s, q, c, d)
    ensures r == q
  {
    hide IsSpace;
    if r != "" { EndsWithin(s, r, a, b, q, c, d); }
    if q != "" { EndsWithin(s, q, c, d, r, a, b); }
  }

  /** The white space of Python's strings. */
  lemma SpaceCharacters(c: char)
    ensures IsSpace(c) <==>
      || c as int in {9, 10, 11, 12, 13, 28, 29, 30, 31, 32, 133, 160, 0x1680, 0x2028, 0x2029, 0x202f, 0x205f, 0x3000}
      || 0x2000 <= c as int <= 0x200a
  {
  }

  // ---------------------------------------------------------------- scopes

  /** Parameters and locals are the keys with these prefixes, and only they. */
  lemma ScopedKeys(key: string)
    ensures IsScoped(key) <==> "__param__:" <= key || "__local__:" <= key
    ensures PARAM_PREFIX == "__param__:" && LOCAL_PREFIX == "__local__:"
  {
  }

  predicate NoBraces(s: string) {
    '{' !in s && '}' !in s
  }

  /** `text` is `opening`, a name without braces, and a closing brace. */
  predicate InBraces(text: string, opening: string, name: string) {
    name != "" && NoBraces(name) && text == opening + name + "}"
  }

  lemma BracedIff(text: string, opening: string, name: string)
    ensures Braced(text, opening) == Some(name) <==> InBraces(text, opening, name)
  {
    if InBraces(text, opening, name) {
      assert text[|opening|..|text| - 1] == name;
    }
  }

  predicate InSomeBraces(text: string, opening: string) {
    Braced(text, opening).Some?
  }

  /** The key a target or source means, by the forms it may be written in. */
  lemma DottedKeys(x: string)
    ensures Trimmed("$var." + x) ==> ScopeName("$var." + x) == x
    ensures Trimmed("$ctx." + x) ==> ScopeName("$ctx." + x) == x
    ensures Trimmed("$local." + x) ==> ScopeName("$local." + x) == "__local__:" + x
  {
    hide Strip, Braced;
    var a, b, c := "$var." + x, "$ctx." + x, "$local." + x;
    Opens("$var.", x);
    Opens("$ctx.", x);
    Opens("$local.", x);
    assert a[1] == 'v' && b[1] == 'c' && c[1] == 'l';
    Differ(b, "$var.");
    Differ(c, "$var.");
    Differ(c, "$ctx.");
  }

  lemma Opens(opening: string, x: string)
    ensures opening <= opening + x && (opening + x)[|opening|..] == x
  {
  }

  lemma Differ(text: string, opening: string)
    requires |text| > 1 && |opening| > 1 && text[1] != opening[1]
    ensures !(opening <= text)
  {
  }

  lemma DifferAt(text: string, opening: string, i: nat)
    requires i < |text| && i < |opening| && text[i] != opening[i]
    ensures !(opening <= text)
  {
  }

  lemma BracedKeys(x: string)
    requires x != "" && NoBraces(x)
    ensures ScopeName("$var{" + x + "}") == Strip(x)
    ensures ScopeName("$ctx{" + x + "}") == Strip(x)
    ensures ScopeName("$local{" + x + "}") == "__local__:" + Strip(x)
  {
    hide Strip, Braced;
    BraceKey('v', "$var{", x);
    BraceKey('c', "$ctx{", x);
    BraceKey('l', "$local{", x);
  }

  lemma BraceKey(letter: char, opening: string, x: string)
    requires x != "" && NoBraces(x) && (opening == "$var{" || opening == "$ctx{" || opening == "$local{") && opening[1] == letter
    ensures ScopeName(opening + x + "}") == if letter == 'l' then "__local__:" + Strip(x) else Strip(x)
  {
    hide Strip, Braced;
    var text := opening + x + "}";
    Ends(opening, x);
    KeepsBraces(text);
    assert text[1] == letter && text[|opening| - 1] == '{';
    assert !("$var." <= text) && !("$ctx." <= text) && !("$local." <= text) by {
      if letter == 'v' { DifferAt(text, "$var.", 4); Differ(text, "$ctx."); Differ(text, "$local."); }
      if letter == 'c' { DifferAt(text, "$ctx.", 4); Differ(text, "$var."); Differ(text, "$local."); }
      if letter == 'l' { DifferAt(text, "$local.", 6); Differ(text, "$ctx."); Differ(text, "$var."); }
    }
    BracedIff(text, opening, x);
    NotInOther(text, "$var{");
    NotInOther(text, "$ctx{");
    NotInOther(text, "$local{");
  }

  lemma NotInOther(text: string, opening: string)
    requires |text| > 1 && |opening| > 1
    ensures text[1] != opening[1] ==> Braced(text, opening) == None
  {
  }

  lemma Ends(opening: string, x: string)
    requires opening != "" && opening[0] == '$'
    ensures var text := opening + x + "}";
      && text != "" && text[0] == '$' && text[|text| - 1] == '}' && opening <= text && |text| > |opening|
      && forall i :: 0 <= i < |opening| ==> text[i] == opening[i]
  {
  }

  lemma KeepsBraces(text: string)
    requires text != "" && text[0] == '$' && text[|text| - 1] == '}'
    ensures Strip(text) == text
  {
  }

  /** A text in none of those forms means the key it spells; white space around it does not count. */
  lemma PlainKey(text: string)
    requires !("$var." <= text) && !("$ctx." <= text) && !("$local." <= text)
    requires forall name :: !InBraces(text, "$var{", name) && !InBraces(text, "$ctx{", name) && !InBraces(text, "$local{", name)
    ensures Trimmed(text) ==> ScopeName(text) == text
  {
    hide Strip, Braced;
    NotBraced(text, "$var{");
    NotBraced(text, "$ctx{");
    NotBraced(text, "$local{");
  }

  lemma NotBraced(text: string, opening: string)
    requires forall name :: !InBraces(text, opening, name)
    ensures Braced(text, opening) == None
  {
    if Braced(text, opening).Some? { BracedIff(text, opening, Braced(text, opening).value); }
  }

  lemma SpaceAround(text: string)
    ensures ScopeName(text) == ScopeName(Strip(text))
  {
    hide Strip, Braced;
    StripIsTrimmed(text);
  }

  /** An output is written to the key its target means and to no other.  It is refused exactly if the target
      is written as a parameter, or means nothing. */
  lemma WritesItsKey(vars: Vars, target: string, v: Value)
    ensures var r, text := WriteScoped(vars, target, v), Strip(target);
      && (r == Err(ReadOnlyTarget) <==> "$param." <= text || "$param{" <= text)
      && (r == Err(EmptyTarget) <==> !("$param." <= text) && !("$param{" <= text) && ScopeName(target) == "")
      && (r.Err? ==> r.error in {ReadOnlyTarget, EmptyTarget})
      && (r.Ok? ==> r.value == vars[ScopeName(target) := v])
  {
    hide Strip, ScopeName;
  }

  // ---------------------------------------------------------------- what a return writes

  /** A binding whose ids are filled in, for an output the function returned. */
  lemma BindingApplies(b: OutBinding, outputs: Vars)
    ensures Applies(b, outputs) <==> Strip(b.outputId) != "" && Strip(b.target) != "" && Strip(b.outputId) in outputs
  {
  }

  /** `j` is the first binding that applies and is refused. */
  predicate FirstRefused(outs: seq<OutBinding>, outputs: Vars, j: nat) {
    && j < |outs| && Applies(outs[j], outputs) && WriteScoped(map[], Strip(outs[j].target), Null).Err?
    && forall i :: 0 <= i < j && Applies(outs[i], outputs) ==> WriteScoped(map[], Strip(outs[i].target), Null).Ok?
  }

  /** Whether a target is refused does not depend on what is written. */
  lemma RefusalIsOfTheTarget(vars: Vars, target: string, v: Value)
    ensures var a, b := WriteScoped(vars, target, v), WriteScoped(map[], target, Null); (a.Err? <==> b.Err?) && (a.Err? ==> a.error == b.error)
  {
    hide Strip, ScopeName;
  }

  /** A write-back fails exactly if some binding that applies is refused, and then for the first such. */
  lemma {:induction false} WriteBackFailsIff(vars: Vars, outs: seq<OutBinding>, outputs: Vars)
    ensures ApplyOutputs(vars, outs, outputs).Err? <==> exists j: nat :: FirstRefused(outs, outputs, j)
    ensures forall j: nat :: FirstRefused(outs, outputs, j) ==>
      ApplyOutputs(vars, outs, outputs) == Err(WriteScoped(map[], Strip(outs[j].target), Null).error)
    decreases |outs|
  {
    hide Strip, WriteScoped;
    if outs != [] {
      var rest := outs[1..];
      var id := Strip(outs[0].outputId);
      if Applies(outs[0], outputs) { RefusalIsOfTheTarget(vars, Strip(outs[0].target), outputs[id]); }
      if Applies(outs[0], outputs) && WriteScoped(vars, Strip(outs[0].target), outputs[id]).Err? {
        assert FirstRefused(outs, outputs, 0);
      } else {
        var vars' := if Applies(outs[0], outputs) then WriteScoped(vars, Strip(outs[0].target), outputs[id]).value else vars;
        WriteBackFailsIff(vars', rest, outputs);
        RefusedLater(outs, outputs);
      }
    }
  }

  lemma RefusedLater(outs: seq<OutBinding>, outputs: Vars)
    requires outs != [] && (Applies(outs[0], outputs) ==> WriteScoped(map[], Strip(outs[0].target), Null).Ok?)
    ensures forall j: nat :: FirstRefused(outs, outputs, j) <==> j > 0 && FirstRefused(outs[1..], outputs, j - 1)
    ensures (exists j: nat :: FirstRefused(outs, outputs, j)) <==> exists j: nat :: FirstRefused(outs[1..], outputs, j)
  {
    hide Strip, WriteScoped, Applies;
    var rest := outs[1..];
    assert forall i :: 0 <= i < |rest| ==> rest[i] == outs[i + 1];
    forall j: nat ensures FirstRefused(outs, outputs, j) <==> j > 0 && FirstRefused(rest, outputs, j - 1) {
      if j > 0 && FirstRefused(rest, outputs, j - 1) {
        forall i | 0 <= i < j && Applies(outs[i], outputs) ensures WriteScoped(map[], Strip(outs[i].target), Null).Ok? {
          if i > 0 { assert outs[i] == rest[i - 1]; }
        }
      }
      if FirstRefused(outs, outputs, j) && j > 0 {
        forall i | 0 <= i < j - 1 && Applies(rest[i], outputs) ensures WriteScoped(map[], Strip(rest[i].target), Null).Ok? {
          assert rest[i] == outs[i + 1];
        }
      }
    }
    if j: nat :| FirstRefused(rest, outputs, j) { assert FirstRefused(outs, outputs, j + 1); }
    if j: nat :| FirstRefused(outs, outputs, j) { assert FirstRefused(rest, outputs, j - 1); }
  }

  // ---------------------------------------------------------------- references

  /** Declarations count by id: the last with an id, and none without one. */
  predicate CountsAt(inputs: seq<ParamDecl>, i: nat) {
    i < |inputs| && inputs[i].id != "" && forall j :: i < j < |inputs| ==> inputs[j].id != inputs[i].id
  }

  ghost predicate Counts(inputs: seq<ParamDecl>, d: ParamDecl) {
    exists i: nat :: CountsAt(inputs, i) && inputs[i] == d
  }

  predicate UniqueIds(decls: seq<ParamDecl>) {
    forall i, j :: 0 <= i < j < |decls| ==> decls[i].id != decls[j].id
  }

  lemma {:induction false} OverwriteIs(decls: seq<ParamDecl>, d: ParamDecl)
    ensures |Overwrite(decls, d)| == |decls|
    ensures forall i :: 0 <= i < |decls| ==> Overwrite(decls, d)[i] == if decls[i].id == d.id then d else decls[i]
  {
    if decls != [] {
      OverwriteIs(decls[1..], d);
      assert forall i :: 0 < i < |decls| ==> decls[i] == decls[1..][i - 1];
    }
  }

  lemma CountsAtSnoc(inputs: seq<ParamDecl>, d: ParamDecl, i: nat)
    requires i < |inputs|
    ensures CountsAt(inputs + [d], i) <==> CountsAt(inputs, i) && inputs[i].id != d.id
  {
    var all := inputs + [d];
    assert all[|inputs|] == d && forall j :: 0 <= j < |inputs| ==> all[j] == inputs[j];
  }

  lemma CountsSnoc(inputs: seq<ParamDecl>, d: ParamDecl, x: ParamDecl)
    ensures Counts(inputs + [d], x) <==> (d.id != "" && x == d) || (Counts(inputs, x) && x.id != d.id)
  {
    var all := inputs + [d];
    assert all[|inputs|] == d;
    assert CountsAt(all, |inputs|) <==> d.id != "";
    if i: nat :| CountsAt(inputs, i) && inputs[i] == x && x.id != d.id {
      CountsAtSnoc(inputs, d, i);
      assert all[i] == x;
    }
    if i: nat :| CountsAt(all, i) && all[i] == x && i < |inputs| {
      CountsAtSnoc(inputs, d, i);
      assert inputs[i] == x;
    }
  }

  lemma {:induction false} DeclarationsIff(inputs: seq<ParamDecl>, x: ParamDecl)
    ensures x in Declarations(inputs) <==> Counts(inputs, x)
    ensures UniqueIds(Declarations(inputs)) && forall d :: d in Declarations(inputs) ==> d.id != ""
  {
    hide Counts;
    if inputs == [] {
      NoneCounts(x);
    } else {
      var front, d := inputs[..|inputs| - 1], inputs[|inputs| - 1];
      assert front + [d] == inputs;
      DeclarationsIff(front, x);
      CountsSnoc(front, d, x);
      var before := Declarations(front);
      OverwriteIs(before, d);
      if d.id != "" {
        if i :| 0 <= i < |before| && before[i].id == d.id {
          Overwritten(before, d, x, i);
        }
      }
    }
  }

  lemma NoneCounts(x: ParamDecl)
    ensures !Counts([], x)
  {
  }

  lemma Overwritten(before: seq<ParamDecl>, d: ParamDecl, x: ParamDecl, i: nat)
    requires i < |before| && before[i].id == d.id && UniqueIds(before) && d.id != "" && forall e :: e in before ==> e.id != ""
    ensures var after := Overwrite(before, d);
      && (x in after <==> x == d || (x in before && x.id != d.id))
      && UniqueIds(after) && forall e :: e in after ==> e.id != ""
  {
    OverwriteIs(before, d);
    var after := Overwrite(before, d);
    assert after[i] == d;
    if k :| 0 <= k < |before| && before[k] == x && x.id != d.id { assert after[k] == x; }
  }

  lemma {:induction false} ByIdIs(decls: seq<ParamDecl>, id: string, d: ParamDecl)
    requires UniqueIds(decls)
    ensures ById(decls, id) == Some(d) <==> d in decls && d.id == id
  {
    if decls != [] {
      assert forall i :: 0 <= i < |decls[1..]| ==> decls[1..][i] == decls[i + 1];
      ByIdIs(decls[1..], id, d);
      assert d in decls <==> d == decls[0] || d in decls[1..];
      if d in decls[1..] {
        var k :| 0 <= k < |decls[1..]| && decls[1..][k] == d;
        assert decls[k + 1] == d && decls[0].id != decls[k + 1].id;
      }
    }
  }

  lemma {:induction false} ByNameIs(decls: seq<ParamDecl>, name: string)
    ensures ByName(decls, name).Some? ==> name != "" && ByName(decls, name).value in decls && ByName(decls, name).value.name == name
    ensures ByName(decls, name).None? && name != "" ==> forall d :: d in decls ==> d.name != name
  {
    if decls != [] && name != "" { ByNameIs(decls[..|decls| - 1], name); }
  }

  /** What the reference of a call input means: the parameter with that id, the last of several; else one
      with that name; else nothing.  White space around it does not count. */
  lemma ReferenceMeans(inputs: seq<ParamDecl>, ref: string)
    ensures var r, text := Declared(Declarations(inputs), ref), Strip(ref);
      && (forall d :: Counts(inputs, d) && d.id == text ==> r == Some(d))
      && (r.Some? ==> Counts(inputs, r.value) && (r.value.id == text || (text != "" && r.value.name == text)))
      && (r.None? && text != "" ==> forall d :: Counts(inputs, d) ==> d.id != text && d.name != text)
  {
    hide Declarations, Strip, ById, ByName, Counts, UniqueIds;
    var decls, text := Declarations(inputs), Strip(ref);
    ByNameIs(decls, text);
    forall d
      ensures d in decls <==> Counts(inputs, d)
      ensures ById(decls, text) == Some(d) <==> d in decls && d.id == text
      ensures UniqueIds(decls)
    {
      DeclarationsIff(inputs, d);
      ByIdIs(decls, text, d);
    }
    if Declared(decls, ref).Some? { assert Declared(decls, ref).value in decls; }
  }
  lemma {:induction false} DistinctDeclarations(inputs: seq<ParamDecl>)
    requires UniqueIds(inputs) && forall d :: d in inputs ==> d.id != ""
    ensures Declarations(inputs) == inputs
  {
    if inputs != [] {
      var n := |inputs| - 1;
      assert forall i :: 0 <= i < n ==> inputs[..n][i] == inputs[i];
      assert inputs[n] in inputs;
      DistinctDeclarations(inputs[..n]);
      assert inputs == inputs[..n] + [inputs[n]];
    }
  }

  lemma {:induction false} LastByName(decls: seq<ParamDecl>, i: nat)
    requires i < |decls| && decls[i].name != "" && forall j :: i < j < |decls| ==> decls[j].name != decls[i].name
    ensures ByName(decls, decls[i].name) == Some(decls[i])
  {
    if i < |decls| - 1 {
      assert decls[|decls| - 1].name != decls[i].name;
      LastByName(decls[..|decls| - 1], i);
    }
  }

  /** With ids as validation ensures them, a name that is no id means the last parameter called so. */
  lemma NameMeansLast(inputs: seq<ParamDecl>, ref: string, i: nat)
    requires UniqueIds(inputs) && forall d :: d in inputs ==> d.id != "" && d.id != Strip(ref)
    requires i < |inputs| && inputs[i].name == Strip(ref) != "" && forall j :: i < j < |inputs| ==> inputs[j].name != inputs[i].name
    ensures Declared(Declarations(inputs), ref) == Some(inputs[i])
  {
    hide Strip, ById, ByName, Declarations;
    DistinctDeclarations(inputs);
    LastByName(inputs, i);
    forall d ensures ById(inputs, Strip(ref)) == Some(d) <==> d in inputs && d.id == Strip(ref) { ByIdIs(inputs, Strip(ref), d); }
  }
}
