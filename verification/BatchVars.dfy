/** What `vars` does to an operation: when it resolves, and what then stands under each key. */
module BatchVars {
  import opened CBytes
  import opened ErrorCodes
  import opened Json
  import opened Substitution
  import opened Responses
  import opened BuildFailure
  import opened Batch
  import opened BatchFacts
  import opened BatchTrace

  // -------------------- which references resolve --------------------

  predicate ShortKey(value: Json) {
    value.JString? && match ParseVarRef(value.s) case None => false case Some((_, key)) => |key| <= 511
  }

  /** An entry of vars: a token, and a reference to a string or number of an earlier, successful result. */
  ghost predicate Resolves(entry: Nodes, done: seq<Response>) {
    entry.Cons? && entry.key != [] && ShortKey(entry.value) && exists text :: Refers(entry.value, done, text)
  }

  lemma BoundWhen(entry: Nodes, done: seq<Response>)
    requires entry.Cons? && NoErrors(done)
    ensures ResolveVar(entry.key, entry.value, done).Bound? <==> Resolves(entry, done)
  {
    hide ParseVarRef, BadVars, Ascii;
    if ResolveVar(entry.key, entry.value, done).Bound? { BoundRefers(entry.key, entry.value, done); }
  }

  /** Every entry from here on does. */
  ghost predicate AllResolve(vars: Nodes, done: seq<Response>) {
    vars.Cons? ==> Resolves(vars, done) && AllResolve(vars.next, done)
  }

  lemma {:induction false} CollectsWhen(vars: Nodes, done: seq<Response>, sofar: seq<Binding>)
    requires NoErrors(done)
    ensures CollectBindings(vars, done, sofar).Bindings? <==> AllResolve(vars, done)
    decreases vars
  {
    hide ResolveVar, Resolves, NoErrors;
    if vars.Cons? {
      BoundWhen(vars, done);
      var r := ResolveVar(vars.key, vars.value, done);
      if r.Bound? { CollectsWhen(vars.next, done, sofar + [r.binding]); }
    }
  }

  // -------------------- what replacing means --------------------

  /** The text is what the string's longest-match cut expands to; there is one cut, so one such text. */
  ghost predicate ExpandsTo(s: Bytes, bindings: seq<Binding>, out: Bytes) {
    exists pieces :: IsSegmentation(s, bindings, 0, pieces) && out == Expand(bindings, pieces)
  }

  lemma SubstituteExpands(s: Bytes, bindings: seq<Binding>)
    ensures ExpandsTo(s, bindings, Substitute(s, bindings, 0))
  {
    var pieces := SegmentationExists(s, bindings, 0);
    SubstituteExpandsSegmentation(s, bindings, 0, pieces);
  }

  /** The same tree, but for its string values, each of which is expanded. */
  ghost predicate ExpandsTree(j: Json, r: Json, bindings: seq<Binding>)
    decreases j
  {
    match j
    case JString(s) => r.JString? && ExpandsTo(s, bindings, r.s)
    case JObject(child) => r.JObject? && ExpandsNodes(child, r.child, bindings)
    case JArray(child) => r.JArray? && ExpandsNodes(child, r.child, bindings)
    case _ => r == j
  }

  ghost predicate ExpandsNodes(a: Nodes, b: Nodes, bindings: seq<Binding>)
    decreases a
  {
    if a.Nil? then b.Nil?
    else b.Cons? && a.key == b.key && ExpandsTree(a.value, b.value, bindings) && ExpandsNodes(a.next, b.next, bindings)
  }

  lemma {:induction false} TreeExpands(j: Json, bindings: seq<Binding>)
    ensures ExpandsTree(j, SubstituteTree(j, bindings), bindings)
    decreases j
  {
    hide ExpandsTo, Substitute;
    if j.JString? { SubstituteExpands(j.s, bindings); }
    if IsContainer(j) { NodesExpand(j.child, bindings); }
  }

  lemma {:induction false} NodesExpand(nodes: Nodes, bindings: seq<Binding>)
    ensures ExpandsNodes(nodes, SubstituteAll(nodes, bindings), bindings)
    decreases nodes
  {
    if nodes.Cons? {
      TreeExpands(nodes.value, bindings);
      NodesExpand(nodes.next, bindings);
    }
  }

  /** What stands under a key once tokens are replaced. */
  ghost predicate ExpandsField(fields: Nodes, result: Nodes, bindings: seq<Binding>, key: Bytes) {
    match GetItem(fields, key)
    case None => GetItem(result, key).None?
    case Some(j) =>
      GetItem(result, key).Some? &&
      var r := GetItem(result, key).value;
      if key == Ascii("path") && j.JString? then r.JString? && ExpandsTo(j.s, bindings, r.s)
      else if key == Ascii("body") then ExpandsTree(j, r, bindings)
      else r == j
  }

  lemma FieldsExpand(fields: Nodes, bindings: seq<Binding>, key: Bytes)
    ensures ExpandsField(fields, SubstituteFields(fields, bindings), bindings, key)
  {
    hide Substitute, SubstituteTree, SubstituteFields, ExpandsTree, ExpandsTo;
    WordsDiffer();
    assert Ascii("path")[0] != Ascii("body")[0];
    SubstitutedFields(fields, bindings, key);
    if GetItem(fields, key).Some? {
      var j := GetItem(fields, key).value;
      TreeExpands(j, bindings);
      if j.JString? { SubstituteExpands(j.s, bindings); }
    }
  }

  // -------------------- an operation --------------------

  /** The bindings an operation's vars stand for. */
  ghost predicate BindsAll(vars: Nodes, bindings: seq<Binding>, done: seq<Response>) {
    |bindings| == Length(vars) && forall i :: 0 <= i < |bindings| ==> BindsEntry(Nth(vars, i), bindings[i], done)
  }

  /**
   An operation resolves iff each entry of its vars does, and then its path and the strings
   of its body are expanded by the bindings those entries stand for, and nothing else changes.
   */
  lemma {:induction false} ResolvedOperation(fields: Nodes, done: seq<Response>)
    requires NoErrors(done)
    ensures match GetItem(fields, Ascii("vars"))
            case None => ResolveVars(fields, done) == Fields(fields)
            case Some(JObject(vars)) =>
              && (ResolveVars(fields, done).Fields? <==> AllResolve(vars, done))
              && (ResolveVars(fields, done).Fields? ==>
                    exists bindings :: BindsAll(vars, bindings, done) &&
                      forall key :: ExpandsField(fields, ResolveVars(fields, done).fields, bindings, key))
            case Some(_) => ResolveVars(fields, done).NoFields?
  {
    hide CollectBindings, SubstituteFields, Resolves, BindsEntry, ExpandsField, NoErrors;
    var found := GetItem(fields, Ascii("vars"));
    if found.Some? && found.value.JObject? {
      var vars := found.value.child;
      CollectsWhen(vars, done, []);
      if vars.Nil? {
        assert BindsAll(vars, [], done);
        forall key ensures ExpandsField(fields, fields, [], key) { NothingExpands(fields, key); }
      } else if CollectBindings(vars, done, []).Bindings? {
        var bindings := CollectBindings(vars, done, []).bindings;
        var none: seq<Binding> := [];
        BindingsReadEarlierResults(vars, done, none);
        forall i | 0 <= i < |bindings| ensures BindsEntry(Nth(vars, i), bindings[i], done) {
          assert bindings[|none| + i] == bindings[i];
        }
        assert BindsAll(vars, bindings, done);
        forall key ensures ExpandsField(fields, SubstituteFields(fields, bindings), bindings, key) {
          FieldsExpand(fields, bindings, key);
        }
      }
    }
  }

  lemma {:induction false} ExpandsNothing(s: Bytes, pos: nat) returns (pieces: seq<Piece>)
    requires pos <= |s|
    ensures IsSegmentation(s, [], pos, pieces) && Expand([], pieces) == s[pos..]
    decreases |s| - pos
  {
    pieces := [];
    if pos < |s| {
      var rest := ExpandsNothing(s, pos + 1);
      pieces := [Char(s[pos])] + rest;
      assert pieces[1..] == rest && s[pos..] == [s[pos]] + s[pos + 1..];
    }
  }

  lemma {:induction false} NothingExpandsTree(j: Json)
    ensures ExpandsTree(j, j, [])
    decreases j
  {
    if j.JString? {
      var pieces := ExpandsNothing(j.s, 0);
      assert j.s[0..] == j.s;
    }
    if IsContainer(j) { NothingExpandsNodes(j.child); }
  }

  lemma {:induction false} NothingExpandsNodes(nodes: Nodes)
    ensures ExpandsNodes(nodes, nodes, [])
    decreases nodes
  {
    if nodes.Cons? {
      NothingExpandsTree(nodes.value);
      NothingExpandsNodes(nodes.next);
    }
  }

  /** Without bindings nothing is replaced. */
  lemma NothingExpands(fields: Nodes, key: Bytes)
    ensures ExpandsField(fields, fields, [], key)
  {
    hide ExpandsTree, ExpandsTo;
    if GetItem(fields, key).Some? {
      var j := GetItem(fields, key).value;
      NothingExpandsTree(j);
      if j.JString? { TextOfExpanded(j, j); }
    }
  }

  lemma TextOfExpanded(j: Json, r: Json)
    requires j.JString? && ExpandsTree(j, r, [])
    ensures r.JString? && ExpandsTo(j.s, [], r.s)
  {
  }
}
