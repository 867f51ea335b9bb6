/**
 * What evaluation makes of each kind of node, in terms of the node's own fields: which reference a node asks for,
 * what an encoding decodes, how a call is made, and where a depth limit stops (pkg/expr/evaluate/evaluate.go).
 */
module References {
  import opened Trees
  import opened Semantics
  import opened Staging

  function TextAt(m: map<string, Tree>, k: string): Option<string> {
    if k in m && m[k].Str? then Some(m[k].s) else None
  }

  predicate Names(m: map<string, Tree>, k: string, s: string) { k in m && m[k] == Str(s) }

  /** The node stands for what the resolvers know of `ref`: its value, itself if they know nothing, or an error. */
  predicate AsksFor(env: Env, m: map<string, Tree>, ref: Ref) {
    var l := env.resolve(ref);
    Full(env, Obj(m)) ==
      if l.Missing? then Ok(Obj(m), {ref})
      else if l.Broken? || l.value.Unsupported? then Err
      else Ok(l.value, {})
  }

  lemma DataNode(env: Env, m: map<string, Tree>)
    requires Names(m, "$type", "Data")
    ensures if TextAt(m, "query").None? then Full(env, Obj(m)).Err? else AsksFor(env, m, DataRef(TextAt(m, "query").value))
  {
  }

  lemma SecretNode(env: Env, m: map<string, Tree>)
    requires Names(m, "$type", "Secret")
    ensures if TextAt(m, "name").None? then Full(env, Obj(m)).Err? else AsksFor(env, m, SecretRef(TextAt(m, "name").value))
  {
  }

  lemma ParameterNode(env: Env, m: map<string, Tree>)
    requires Names(m, "$type", "Parameter")
    ensures if TextAt(m, "name").None? then Full(env, Obj(m)).Err? else AsksFor(env, m, ParameterRef(TextAt(m, "name").value))
  {
  }

  lemma ConnectionNode(env: Env, m: map<string, Tree>)
    requires Names(m, "$type", "Connection")
    ensures
      if TextAt(m, "type").None? || TextAt(m, "name").None? then Full(env, Obj(m)).Err?
      else AsksFor(env, m, ConnectionRef(TextAt(m, "type").value, TextAt(m, "name").value))
  {
  }

  /** An output's step is named by `from`, or in the older spelling by `taskName` when `from` is no text. */
  lemma OutputNode(env: Env, m: map<string, Tree>)
    requires Names(m, "$type", "Output")
    ensures
      if (TextAt(m, "from").None? && TextAt(m, "taskName").None?) || TextAt(m, "name").None? then Full(env, Obj(m)).Err?
      else if TextAt(m, "from").Some? then AsksFor(env, m, OutputRef(TextAt(m, "from").value, TextAt(m, "name").value))
      else AsksFor(env, m, OutputRef(TextAt(m, "taskName").value, TextAt(m, "name").value))
  {
  }

  lemma AnswerNode(env: Env, m: map<string, Tree>)
    requires Names(m, "$type", "Answer")
    ensures
      if TextAt(m, "askRef").None? || TextAt(m, "name").None? then Full(env, Obj(m)).Err?
      else AsksFor(env, m, AnswerRef(TextAt(m, "askRef").value, TextAt(m, "name").value))
  {
  }

  /** A type that nobody knows, or that is no text, leaves the node alone. */
  lemma OpaqueNode(env: Env, m: map<string, Tree>)
    requires "$type" in m
    requires forall ty | Names(m, "$type", ty) :: ty !in {"Data", "Secret", "Connection", "Output", "Parameter", "Answer"}
    ensures Full(env, Obj(m)) == Ok(Obj(m), {})
  {
    if m["$type"].Str? { assert Names(m, "$type", m["$type"].s); }
  }

  /** An encoding waits for its data, decodes text, and refuses everything else. */
  lemma EncodingNode(env: Env, m: map<string, Tree>, ty: string)
    requires "$type" !in m && Names(m, "$encoding", ty)
    ensures "data" !in m ==> Full(env, Obj(m)).Err?
    ensures "data" in m ==>
      var d, r := Full(env, m["data"]), Full(env, Obj(m));
      if d.Err? then r.Err?
      else if d.missing != {} then r == Ok(Obj(map["$encoding" := Str(ty), "data" := d.value]), d.missing)
      else if !d.value.Str? || env.decode(ty, d.value.s).None? then r.Err?
      else r == Ok(Str(env.decode(ty, d.value.s).value), {})
  {
    EvalEncodingStep(env, m, -1);
  }

  lemma OddEncodingNode(env: Env, m: map<string, Tree>)
    requires "$type" !in m && "$encoding" in m && !m["$encoding"].Str?
    ensures Full(env, Obj(m)) == Ok(Obj(m), {})
  {
  }

  /** A list calls the function by position, an object by keyword, anything else with itself as the one argument. */
  predicate Calls(v: Tree, args: Args) {
    if v.List? then args == Positional(v.items) else if v.Obj? then args == Keyword(v.fields) else args == Positional([v])
  }

  /** A call waits for its argument, and stays as it was written if nobody knows the function. */
  lemma CallNode(env: Env, name: string, arg: Tree, args: Args)
    requires Full(env, arg).Ok? ==> Calls(Full(env, arg).value, args)
    ensures
      var t := Obj(map["$fn." + name := arg]);
      var a, r, x := Full(env, arg), Full(env, t), env.call(name, args);
      if a.Err? then r.Err?
      else if a.missing != {} then r == Ok(Obj(map["$fn." + name := a.value]), a.missing)
      else if x.Unresolved? then r == Ok(t, {InvocationRef(name, x.cause)})
      else if x.Failed? || x.value.Unsupported? then r.Err?
      else r == Ok(x.value, {})
  {
    var key := "$fn." + name;
    assert key[..|FN|] == FN && key[|FN|..] == name;
    SingleCallShape(key, arg);
    EvalCallStep(env, map[key := arg], key, -1);
  }

  predicate IsPlain(m: map<string, Tree>) {
    "$type" !in m && "$encoding" !in m && (|m| == 1 ==> forall k :: k in m ==> !HasPrefix(k, "$fn."))
  }

  lemma PlainShapeIff(m: map<string, Tree>)
    ensures ShapeOf(m).PlainShape? <==> IsPlain(m)
  {
    if |m| == 1 { assert OnlyKey(m) in m.Keys; }
  }

  /** A list fails if an item does, and otherwise gives the items' values and misses what they miss. */
  lemma ListNode(env: Env, items: seq<Tree>)
    ensures
      var r := Full(env, List(items));
      && (r.Err? <==> exists i :: 0 <= i < |items| && Full(env, items[i]).Err?)
      && (r.Ok? ==>
            && r.value.List? && |r.value.items| == |items|
            && (forall i :: 0 <= i < |items| ==> r.value.items[i] == Full(env, items[i]).value)
            && (forall x :: x in r.missing <==> exists i :: 0 <= i < |items| && x in Full(env, items[i]).missing))
  {
    FullList(env, List(items));
    hide Eval;
    var os := EvalItems(env, List(items), -1);
    assert forall i :: 0 <= i < |items| ==> os[i] == Full(env, items[i]);
    if ListOutcome(os).Ok? {
      forall x ensures x in ListOutcome(os).missing <==> exists i :: 0 <= i < |items| && x in os[i].missing {
        assert x in ListOutcome(os).missing <==> exists i :: 0 <= i < |os| && x in os[i].Unresolved();
      }
    }
  }

  /** So does a map that is no expression. */
  lemma PlainNode(env: Env, m: map<string, Tree>)
    requires IsPlain(m)
    ensures
      var r := Full(env, Obj(m));
      && (r.Err? <==> exists k :: k in m && Full(env, m[k]).Err?)
      && (r.Ok? ==>
            && r.value.Obj? && r.value.fields.Keys == m.Keys
            && (forall k :: k in m ==> r.value.fields[k] == Full(env, m[k]).value)
            && (forall x :: x in r.missing <==> exists k :: k in m && x in Full(env, m[k]).missing))
  {
    PlainShapeIff(m);
    FullPlain(env, Obj(m));
    hide Eval, ShapeOf;
    var os := EvalFields(env, Obj(m), -1);
    assert forall k :: k in m ==> os[k] == Full(env, m[k]);
    if ObjOutcome(os).Ok? {
      forall x ensures x in ObjOutcome(os).missing <==> exists k :: k in m && x in os[k].missing {
        assert x in ObjOutcome(os).missing <==> exists k :: k in os && x in os[k].Unresolved();
      }
    }
  }

  /** All other values stand for themselves, but foreign ones are refused. */
  lemma LeafNode(env: Env, v: Tree, d: int)
    requires !v.List? && !v.Obj?
    ensures Eval(env, v, d) == if v.Unsupported? then Err else Ok(v, {})
  {
  }

  /** At depth 0 nothing is looked at; at depth 1 expressions are evaluated in full, and lists and maps are left alone. */
  lemma DepthLimits(env: Env, t: Tree)
    ensures !t.Unsupported? ==> Eval(env, t, 0) == Ok(t, {})
    ensures t.List? ==> Eval(env, t, 1) == Ok(t, {})
    ensures t.Obj? && IsPlain(t.fields) && |t.fields| != 1 ==> Eval(env, t, 1) == Ok(t, {})
    ensures t.Obj? && !IsPlain(t.fields) ==> forall d :: d != 0 ==> Eval(env, t, d) == Full(env, t)
  {
    if t.Obj? { PlainShapeIff(t.fields); }
  }

  /** A step below a list or a plain map uses up one unit of depth. */
  lemma DepthStep(env: Env, t: Tree, d: int)
    requires d > 1
    ensures t.List? && Eval(env, t, d).Ok? ==>
      && Eval(env, t, d).value.List? && |Eval(env, t, d).value.items| == |t.items|
      && forall i :: 0 <= i < |t.items| ==> Eval(env, t.items[i], d - 1).Ok? && Eval(env, t, d).value.items[i] == Eval(env, t.items[i], d - 1).value
    ensures t.Obj? && IsPlain(t.fields) && Eval(env, t, d).Ok? ==>
      && Eval(env, t, d).value.Obj? && Eval(env, t, d).value.fields.Keys == t.fields.Keys
      && forall k :: k in t.fields ==> Eval(env, t.fields[k], d - 1).Ok? && Eval(env, t, d).value.fields[k] == Eval(env, t.fields[k], d - 1).value
  {
    hide Eval;
    if t.List? && Eval(env, t, d).Ok? { ListValue(env, t, d); }
    if t.Obj? {
      PlainShapeIff(t.fields);
      hide ShapeOf;
      if IsPlain(t.fields) && Eval(env, t, d).Ok? { PlainValue(env, t, d); }
    }
  }
}
