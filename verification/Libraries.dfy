/** The function library of an evaluator that knows `merge` (pkg/expr/fnlib). */
module Libraries {
  import opened Trees
  import opened Semantics
  import opened Staging
  import opened Query
  import opened Merging

  /**
   * Resolvers answer with pure data; the only function that returns anything is `merge`. It can be a function of
   * its arguments only if every lookup hands out maps of its own: SharedMerge shows what it does to a map that is
   * handed out twice.
   */
  ghost predicate MergeLibrary(env: Env) {
    && (forall r :: env.resolve(r).Found? ==> PureOrUnsupported(env.resolve(r).value))
    && (forall f, a :: env.call(f, a).Returned? ==> f == "merge" && env.call(f, a) == MergeCall(a))
  }

  lemma PureObject(m: map<string, Tree>)
    ensures Pure(Obj(m)) <==> ShapeOf(m).PlainShape? && forall k :: k in m ==> Pure(m[k])
  {
  }

  /** Merging pure data gives pure data. */
  lemma {:induction false} MergedIsPure(a: map<string, Tree>, b: map<string, Tree>, deep: bool)
    requires Pure(Obj(a)) && Pure(Obj(b))
    ensures Pure(Obj(Merged(a, b, deep)))
    decreases Obj(b)
  {
    var r := Merged(a, b, deep);
    PureObject(a);
    PureObject(b);
    PureObject(r);
    MergedIsNoCall(a, b, deep);
    hide Merged, Transparent, Inert;
    forall k | k in r ensures Pure(r[k]) {
      MergedAt(a, b, deep, k);
      if deep && k in a && k in b && a[k].Obj? && b[k].Obj? { MergedIsPure(a[k].fields, b[k].fields, true); }
    }
  }

  lemma {:induction false} MergeAllIsPure(objs: seq<map<string, Tree>>, deep: bool)
    requires forall i :: 0 <= i < |objs| ==> Pure(Obj(objs[i]))
    ensures Pure(Obj(MergeAll(objs, deep)))
  {
    if objs == [] {
      PureObject(map[]);
    } else {
      MergeAllIsPure(objs[..|objs| - 1], deep);
      MergedIsPure(MergeAll(objs[..|objs| - 1], deep), objs[|objs| - 1], deep);
    }
  }

  lemma PureObjects(arg: Tree)
    requires Pure(arg)
    ensures forall i :: 0 <= i < |ObjectsOf(ArgsOf(arg))| ==> Pure(ObjectsOf(ArgsOf(arg))[i])
  {
    if arg.Obj? {
      PureObject(arg.fields);
      if OBJECTS in arg.fields { PureItems(arg.fields[OBJECTS]); }
    } else {
      PureItems(arg);
    }
  }

  lemma PureItems(v: Tree)
    requires Pure(v)
    ensures v.List? ==> forall i :: 0 <= i < |v.items| ==> Pure(v.items[i])
  {
  }

  lemma MergeCallIsPure(arg: Tree)
    requires Pure(arg)
    ensures MergeCall(ArgsOf(arg)).Returned? ==> Pure(MergeCall(ArgsOf(arg)).value)
  {
    PureObjects(arg);
    hide Pure, MergeAll;
    var items := ObjectsOf(ArgsOf(arg));
    if Cast(items).Some? {
      MergeAllIsPure(Cast(items).value, true);
      MergeAllIsPure(Cast(items).value, false);
    }
  }

  /** No opaque node anywhere, inside encodings and calls included. */
  predicate NoOpaque(t: Tree) {
    match t
    case List(items) => forall i :: 0 <= i < |items| ==> NoOpaque(items[i])
    case Obj(m) =>
      (match ShapeOf(m)
       case TypeShape => !TypeNodeOf(m).UnknownType?
       case EncodingShape => m[ENCODING].Str? && (DATA in m ==> NoOpaque(m[DATA]))
       case CallShape(key) => NoOpaque(m[key])
       case PlainShape => forall k :: k in m ==> NoOpaque(m[k]))
    case _ => true
  }

  lemma {:induction false} NoOpaqueIsTransparent(t: Tree)
    requires NoOpaque(t)
    ensures Transparent(t)
  {
    match t
    case List(items) => forall i | 0 <= i < |items| { NoOpaqueIsTransparent(items[i]); }
    case Obj(m) =>
      match ShapeOf(m) {
        case TypeShape =>
        case EncodingShape =>
        case CallShape(key) => NoOpaqueIsTransparent(m[key]);
        case PlainShape => forall k | k in m { NoOpaqueIsTransparent(m[k]); }
      }
    case _ =>
  }

  /**
   * An evaluator with `merge` meets what the theorems about stages and queries ask of it, on every tree
   * without opaque nodes.
   */
  lemma {:induction false} MergeAnswersPure(env: Env, t: Tree)
    requires MergeLibrary(env) && NoOpaque(t)
    ensures AnswersPure(env, t)
    decreases t, 1
  {
    match t
    case List(items) => forall i | 0 <= i < |items| { MergeAnswersPure(env, items[i]); }
    case Obj(m) =>
      match ShapeOf(m) {
        case TypeShape =>
        case EncodingShape => if DATA in m { MergeAnswersPure(env, m[DATA]); }
        case CallShape(key) => MergeCallAnswersPure(env, m, key);
        case PlainShape => forall k | k in m { MergeAnswersPure(env, m[k]); }
      }
    case _ =>
  }

  lemma {:induction false} MergeCallAnswersPure(env: Env, m: map<string, Tree>, key: string)
    requires MergeLibrary(env) && ShapeOf(m) == CallShape(key) && NoOpaque(m[key])
    ensures AnswersPure(env, m[key]) && ReturnsPure(env, key, Full(env, m[key]))
    decreases Obj(m), 0
  {
    hide Eval, Transparent, NoOpaque;
    MergeAnswersPure(env, m[key]);
    if Full(env, m[key]).Complete() {
      NoOpaqueIsTransparent(m[key]);
      CompleteIsTransparent(env, m[key]);
      PureIsData(env, m[key]);
      CompleteIsData(env, m[key]);
      MergeCallIsPure(Full(env, m[key]).value);
    }
  }

  /** With `merge` in the library, evaluation in stages agrees on every tree without opaque nodes. */
  lemma MergeStages(env1: Env, env2: Env, t: Tree, d: int)
    requires Extends(env1, env2) && MergeLibrary(env2) && NoOpaque(t) && Eval(env1, t, d).Ok?
    ensures Agree(Full(env2, Eval(env1, t, d).value), Full(env2, t), NoStaleCall(IDENTITY, env1, env2, t, d))
  {
    hide Eval, AnswersPure, NoOpaque, NoStaleCall, MergeLibrary;
    MergeAnswersPure(env2, t);
    PureIsData(env2, t);
    StagedEvaluation(env1, env2, t, d);
  }
}
