/** The lazy evaluation of a path query (pkg/expr/evaluate/select.go, EvaluateQuery), against eager evaluation. */
module Query {
  import opened Trees
  import opened Semantics
  import opened Staging

  datatype Key = Name(name: string) | At(index: int)

  /** What the path library does for a child that is not there. */
  datatype Absence = Raise | Skip

  function Child(v: Tree, key: Key): Option<Tree> {
    match (v, key)
    case (Obj(m), Name(k)) => if k in m then Some(m[k]) else None
    case (List(items), At(i)) => if 0 <= i < |items| then Some(items[i]) else None
    case _ => None
  }

  function AbsentOutcome(absence: Absence): Outcome {
    if absence.Raise? then Err else Ok(Null, {})
  }

  /** The lazy path evaluation, one step per key. */
  function Walk(env: Env, absence: Absence, v: Tree, path: seq<Key>): Outcome
    decreases |path|
  {
    if path == [] then Full(env, v)
    else match Child(v, path[0])
      case None => AbsentOutcome(absence)
      case Some(c) =>
        (match Eval(env, c, 1)
         case Err => Err
         case Ok(nv, missing) =>
           if missing != {} then Ok(Null, missing)
           else if nv == Null then Ok(Null, {})
           else Walk(env, absence, nv, path[1..]))
  }

  method EvaluateQuery(env: Env, absence: Absence, tree: Tree, path: seq<Key>) returns (o: Outcome)
    ensures o == Walk(env, absence, tree, path)
  {
    assert Full(env, Null) == Ok(Null, {});
    hide Eval;
    var v, missing, i := tree, {}, 0;
    while i < |path|
      invariant 0 <= i <= |path|
      invariant missing == {}
      invariant Walk(env, absence, tree, path) == Walk(env, absence, v, path[i..])
    {
      var child := Child(v, path[i]);
      assert path[i..][0] == path[i] && path[i..][1..] == path[i + 1..];
      var nv := Null;
      match child {
        case None =>
          if absence.Raise? { return Err; }
        case Some(c) =>
          var nr := Eval(env, c, 1);
          if nr.Err? { return Err; }
          if nr.missing != {} { missing := missing + nr.missing; } else { nv := nr.value; }
      }
      if nv == Null {
        v := Null;
        break;
      }
      v := nv;
      i := i + 1;
    }
    var er := Eval(env, v, -1);
    if er.Err? { return Err; }
    return Ok(er.value, er.missing + missing);
  }

  predicate IsExpr(t: Tree) { t.Obj? && !ShapeOf(t.fields).PlainShape? }

  /** No node that looks like an expression but is passed through unread. */
  predicate Transparent(t: Tree) {
    match t
    case List(items) => forall i :: 0 <= i < |items| ==> Transparent(items[i])
    case Obj(m) =>
      (match ShapeOf(m)
       case TypeShape => !TypeNodeOf(m).UnknownType?
       case EncodingShape => m[ENCODING].Str?
       case CallShape(key) => Transparent(m[key])
       case PlainShape => forall k :: k in m ==> Transparent(m[k]))
    case _ => true
  }

  predicate Pure(t: Tree) { Inert(IDENTITY, t) && Transparent(t) }

  predicate PureOrUnsupported(v: Tree) { v.Unsupported? || Pure(v) }

  /** Whatever evaluating `t` looks up is answered with pure data, and every call that it makes returns pure data. */
  predicate AnswersPure(env: Env, t: Tree)
    decreases t
  {
    match t
    case List(items) => forall i :: 0 <= i < |items| ==> AnswersPure(env, items[i])
    case Obj(m) =>
      (match ShapeOf(m)
       case TypeShape =>
         TypeNodeOf(m).Known? ==>
           var l := env.resolve(TypeNodeOf(m).ref);
           l.Found? ==> PureOrUnsupported(l.value)
       case EncodingShape => DATA in m ==> AnswersPure(env, m[DATA])
       case CallShape(key) => AnswersPure(env, m[key]) && ReturnsPure(env, key, Full(env, m[key]))
       case PlainShape => forall k :: k in m ==> AnswersPure(env, m[k]))
    case _ => true
  }

  predicate ReturnsPure(env: Env, key: string, a: Outcome)
    requires IsCallKey(key)
  {
    a.Complete() ==>
      var r := env.call(key[|FN|..], ArgsOf(a.value));
      r.Returned? ==> PureOrUnsupported(r.value)
  }

  lemma {:induction false} PureIsData(env: Env, t: Tree)
    requires AnswersPure(env, t)
    ensures DataEnv(env, t)
  {
    match t
    case List(items) => forall i | 0 <= i < |items| { PureIsData(env, items[i]); }
    case Obj(m) =>
      match ShapeOf(m) {
        case TypeShape =>
        case EncodingShape => if DATA in m { PureIsData(env, m[DATA]); }
        case CallShape(key) => PureIsData(env, m[key]);
        case PlainShape => forall k | k in m { PureIsData(env, m[k]); }
      }
    case _ =>
  }

  /** Evaluating data looks nothing up. */
  lemma {:induction false} DataAsksNothing(env: Env, v: Tree)
    requires Pure(v)
    ensures AnswersPure(env, v)
  {
    match v
    case List(items) => forall i | 0 <= i < |items| { DataAsksNothing(env, items[i]); }
    case Obj(m) => forall k | k in m { DataAsksNothing(env, m[k]); }
    case _ =>
  }

  lemma CompleteIsData(env: Env, t: Tree)
    requires DataEnv(env, t) && Full(env, t).Complete()
    ensures Inert(IDENTITY, Full(env, t).value)
  {
    hide Eval;
    IdentityMapper(t);
    CompleteIsInert(IDENTITY, env, t);
  }

  lemma TransparentList(vs: seq<Tree>)
    requires forall i :: 0 <= i < |vs| ==> Transparent(vs[i])
    ensures Transparent(List(vs))
  {}

  lemma TransparentObj(vs: map<string, Tree>)
    requires ShapeOf(vs).PlainShape? && forall k :: k in vs ==> Transparent(vs[k])
    ensures Transparent(Obj(vs))
  {}

  /** Complete results of transparent trees are transparent. */
  lemma {:induction false} CompleteIsTransparent(env: Env, t: Tree)
    requires AnswersPure(env, t) && Transparent(t) && Full(env, t).Complete()
    ensures Transparent(Full(env, t).value)
  {
    match t
    case List(items) =>
      FullList(env, t);
      ItemsOk(env, t);
      ListComplete(EvalItems(env, t, -1));
      hide Eval;
      forall i | 0 <= i < |items| { CompleteIsTransparent(env, items[i]); }
      TransparentList(Full(env, t).value.items);
    case Obj(m) =>
      match ShapeOf(m) {
        case PlainShape =>
          FullPlain(env, t);
          FieldsOk(env, t);
          ObjComplete(EvalFields(env, t, -1));
          hide Eval;
          forall k | k in m { CompleteIsTransparent(env, m[k]); }
          SameKeysSameShape(m, Full(env, t).value.fields);
          TransparentObj(Full(env, t).value.fields);
        case CallShape(key) =>
          EvalCallStep(env, m, key, -1);
          hide Eval;
          CompleteIsTransparent(env, m[key]);
          PureIsData(env, m[key]);
          CompleteIsData(env, m[key]);
        case EncodingShape =>
        case TypeShape =>
      }
    case _ =>
  }

  /** Following a path through an evaluated value. */
  datatype Reached = Value(v: Tree) | Open(expr: Tree) | Absent

  function Reach(v: Tree, path: seq<Key>): Reached {
    if path == [] then Value(v)
    else match Child(v, path[0])
      case None => Absent
      case Some(c) => if IsExpr(c) then Open(c) else if c == Null then Value(Null) else Reach(c, path[1..])
  }

  function EagerAnswer(env: Env, absence: Absence, r: Reached): Outcome {
    match r
    case Value(w) => Ok(w, Full(env, w).Unresolved())
    case Open(e) => Ok(Null, Full(env, e).Unresolved())
    case Absent => AbsentOutcome(absence)
  }

  lemma ShallowExpr(env: Env, c: Tree)
    requires IsExpr(c)
    ensures Eval(env, c, 1) == Full(env, c)
  {
  }

  lemma ShallowPlain(env: Env, c: Tree)
    requires !IsExpr(c) && Full(env, c).Ok?
    ensures Eval(env, c, 1) == Ok(c, {})
  {
    hide Eval, ShapeOf;
    ShallowStep(env, c);
    ForeignFails(env, c);
    if Blocks(c) && c.Obj? {
      FieldsOk(env, c);
      var k :| k in c.fields && c.fields[k].Unsupported?;
      ForeignFails(env, c.fields[k]);
    }
  }

  lemma ForeignFails(env: Env, v: Tree)
    ensures v.Unsupported? ==> Full(env, v).Err?
  {
  }

  /** An expression evaluates to pure data, or to an expression while something in it is missing. */
  lemma ExprValue(env: Env, c: Tree)
    requires AnswersPure(env, c) && IsExpr(c) && Transparent(c) && Full(env, c).Ok?
    ensures if Full(env, c).missing == {} then Pure(Full(env, c).value) else IsExpr(Full(env, c).value)
  {
    if Full(env, c).missing == {} {
      hide Eval;
      CompleteIsTransparent(env, c);
      PureIsData(env, c);
      CompleteIsData(env, c);
    } else {
      OpenStaysOpen(env, c);
    }
  }

  lemma OpenStaysOpen(env: Env, c: Tree)
    requires IsExpr(c) && Full(env, c).Ok? && Full(env, c).missing != {}
    ensures IsExpr(Full(env, c).value)
  {
    match ShapeOf(c.fields)
    case CallShape(key) => SingleCallShape(key, Full(env, c.fields[key]).Value());
    case EncodingShape =>
      assert ShapeOf(map[ENCODING := c.fields[ENCODING], DATA := if DATA in c.fields then Full(env, c.fields[DATA]).Value() else Null]).EncodingShape?;
    case TypeShape =>
  }

  lemma PlainValueIsPlain(env: Env, c: Tree)
    requires !IsExpr(c) && Full(env, c).Ok?
    ensures !IsExpr(Full(env, c).value)
    ensures Full(env, c).value == Null <==> c == Null
  {
    if c.Obj? {
      FieldsOk(env, c);
      hide Eval;
      SameKeysSameShape(c.fields, Full(env, c).value.fields);
    }
  }

  lemma ChildOfValue(env: Env, t: Tree, key: Key)
    requires !IsExpr(t) && Full(env, t).Ok?
    ensures Child(t, key).None? <==> Child(Full(env, t).value, key).None?
    ensures Child(t, key).Some? ==>
      var c := Child(t, key).value;
      Full(env, c).Ok? && Child(Full(env, t).value, key) == Some(Full(env, c).value)
  {
    match t
    case List(_) => ItemsOk(env, t);
    case Obj(_) => FieldsOk(env, t);
    case _ =>
  }

  lemma ChildTransparent(env: Env, t: Tree, key: Key)
    requires !IsExpr(t) && Transparent(t) && AnswersPure(env, t)
    ensures Child(t, key).Some? ==> Transparent(Child(t, key).value) && AnswersPure(env, Child(t, key).value)
  {
  }

  /** A query answers from the evaluated value, and reports only what is missing where the path leads. */
  lemma {:induction false} QueryRefinesEager(env: Env, absence: Absence, t: Tree, path: seq<Key>)
    requires AnswersPure(env, t) && Transparent(t) && !IsExpr(t) && Full(env, t).Ok?
    ensures Walk(env, absence, t, path) == EagerAnswer(env, absence, Reach(Full(env, t).value, path))
    decreases |path|, 0
  {
    hide Eval, Transparent, AnswersPure;
    InertEval(IDENTITY, env, Null, -1);
    if path == [] {
      PureIsData(env, t);
      Idempotent(env, t);
    } else {
      ChildOfValue(env, t, path[0]);
      ChildTransparent(env, t, path[0]);
      match Child(t, path[0])
      case None =>
      case Some(c) =>
        if IsExpr(c) {
          ShallowExpr(env, c);
          ExprValue(env, c);
          if Full(env, c).missing == {} {
            AnswerInPure(env, absence, Full(env, c).value, path[1..]);
          } else {
            PureIsData(env, c);
            Idempotent(env, c);
          }
        } else {
          ShallowPlain(env, c);
          PlainValueIsPlain(env, c);
          if c != Null { QueryRefinesEager(env, absence, c, path[1..]); }
        }
    }
  }

  lemma PureIsPlain(v: Tree)
    requires Pure(v)
    ensures !IsExpr(v)
  {
  }

  lemma {:induction false} AnswerInPure(env: Env, absence: Absence, v: Tree, path: seq<Key>)
    requires Pure(v)
    ensures !IsExpr(v)
    ensures Walk(env, absence, v, path) == EagerAnswer(env, absence, Reach(v, path))
    decreases |path|, 1
  {
    hide Eval, Transparent, Inert;
    PureIsPlain(v);
    DataAsksNothing(env, v);
    InertEval(IDENTITY, env, v, -1);
    QueryRefinesEager(env, absence, v, path);
  }

  // ---- what lies off the path does not matter ----

  /** A child that no step gets past: a foreign value, or a map whose only entry, which a step looks at, is one. */
  predicate Blocks(c: Tree) { c.Unsupported? || (c.Obj? && |c.fields| == 1 && exists k :: k in c.fields && c.fields[k].Unsupported?) }

  /** The tree with every child off the path replaced by null; what an expression holds is left to the expression. */
  function Prune(t: Tree, path: seq<Key>): Tree
    decreases |path|, 0
  {
    if path == [] then t
    else match t
      case List(items) =>
        List(seq(|items|, i requires 0 <= i < |items| => if path[0] == At(i) then PruneChild(items[i], path[1..]) else Null))
      case Obj(m) => Obj(map k | k in m :: if path[0] == Name(k) then PruneChild(m[k], path[1..]) else Null)
      case Unsupported(_) => Null
      case _ => t
  }

  function PruneChild(c: Tree, path: seq<Key>): Tree
    decreases |path|, 1
  {
    if IsExpr(c) || Blocks(c) then c else Prune(c, path)
  }

  lemma PruneIsPlain(t: Tree, path: seq<Key>)
    requires !IsExpr(t)
    ensures !IsExpr(Prune(t, path)) && (t.Unsupported? || (Prune(t, path) == Null <==> t == Null))
    ensures !Blocks(t) ==> !Blocks(Prune(t, path))
  {
    if path != [] && t.Obj? {
      var m := Prune(t, path).fields;
      SameKeysSameShape(t.fields, m);
      assert |m| == |m.Keys| == |t.fields.Keys| == |t.fields|;
      if !Blocks(t) && |m| == 1 {
        forall k | k in m ensures !m[k].Unsupported? { PruneChildIsSupported(t.fields[k], path[1..]); }
      }
    }
  }

  lemma PruneChildIsSupported(c: Tree, path: seq<Key>)
    ensures PruneChild(c, path).Unsupported? ==> c.Unsupported?
  {
    assert !c.Unsupported? ==> !Prune(c, path).Unsupported? by {
      if path == [] { assert Prune(c, path) == c; }
    }
  }

  lemma ChildOfPruned(t: Tree, path: seq<Key>)
    requires path != []
    ensures Child(t, path[0]).None? ==> Child(Prune(t, path), path[0]).None?
    ensures Child(t, path[0]).Some? ==> Child(Prune(t, path), path[0]) == Some(PruneChild(Child(t, path[0]).value, path[1..]))
  {
  }

  /** A step expands a plain child no further than to itself. */
  lemma ShallowStep(env: Env, c: Tree)
    requires !IsExpr(c)
    ensures Eval(env, c, 1) == if Blocks(c) then Err else Ok(c, {})
  {
    if c.Obj? && |c.fields| == 1 {
      EvalPlainStep(env, c, 1);
      OnlyFieldStep(env, c);
    }
  }

  lemma OnlyFieldStep(env: Env, c: Tree)
    requires c.Obj? && |c.fields| == 1
    ensures ObjOutcome(EvalFields(env, c, 0)) == if Blocks(c) then Err else Ok(c, {})
  {
    var os := EvalFields(env, c, 0);
    forall k | k in os ensures os[k] == if c.fields[k].Unsupported? then Err else Ok(c.fields[k], {}) {}
    hide Eval;
    if Blocks(c) {
      var k :| k in c.fields && c.fields[k].Unsupported?;
      assert os[k].Err?;
    } else {
      assert ObjOutcome(os).value.fields == c.fields;
      assert ObjOutcome(os).missing == {};
    }
  }

  /** The walk does not see what pruning takes away. */
  lemma {:induction false} WalkPruned(env: Env, absence: Absence, t: Tree, path: seq<Key>)
    requires !IsExpr(t)
    ensures Walk(env, absence, Prune(t, path), path) == Walk(env, absence, t, path)
    decreases |path|
  {
    if path != [] {
      ChildOfPruned(t, path);
      hide Prune, Eval;
      if Child(t, path[0]).Some? {
        var c := Child(t, path[0]).value;
        if !IsExpr(c) && !Blocks(c) {
          PruneIsPlain(c, path[1..]);
          ShallowStep(env, c);
          ShallowStep(env, Prune(c, path[1..]));
          WalkPruned(env, absence, c, path[1..]);
        }
      }
    }
  }

  lemma PrunedFailure(env: Env, t: Tree, path: seq<Key>)
    requires !IsExpr(t) && path != [] && Full(env, Prune(t, path)).Err?
    ensures Child(t, path[0]).Some? && Full(env, PruneChild(Child(t, path[0]).value, path[1..])).Err?
  {
    PruneIsPlain(t, path);
    var p := Prune(t, path);
    assert Full(env, Null) == Ok(Null, {});
    match t
    case List(items) =>
      FullList(env, p);
      hide Eval;
      var i :| 0 <= i < |items| && EvalItems(env, p, -1)[i].Err?;
      assert p.items[i] != Null;
    case Obj(m) =>
      FullPlain(env, p);
      hide Eval;
      var k :| k in m && EvalFields(env, p, -1)[k].Err?;
      assert p.fields[k] != Null;
    case _ =>
  }

  /** Where something on the path fails, so does the query. */
  lemma {:induction false} FailsAlong(env: Env, absence: Absence, t: Tree, path: seq<Key>)
    requires !IsExpr(t) && Full(env, Prune(t, path)).Err?
    ensures Walk(env, absence, t, path) == Err
    decreases |path|
  {
    if path != [] {
      PrunedFailure(env, t, path);
      var c := Child(t, path[0]).value;
      if IsExpr(c) {
        ShallowExpr(env, c);
      } else {
        ShallowStep(env, c);
        if !Blocks(c) {
          assert Full(env, Null) == Ok(Null, {});
          hide Eval, Prune;
          PruneIsPlain(c, path[1..]);
          FailsAlong(env, absence, c, path[1..]);
        }
      }
    }
  }

  /**
   * Whatever the rest of the tree does, a query answers as evaluating what lies on its path does: it fails
   * exactly where that fails, and otherwise gives what the path leads to in its value.
   */
  lemma QueryAnswersAlongPath(env: Env, absence: Absence, t: Tree, path: seq<Key>)
    requires !IsExpr(t) && AnswersPure(env, Prune(t, path)) && Transparent(Prune(t, path))
    ensures Walk(env, absence, t, path)
         == if Full(env, Prune(t, path)).Err? then Err
            else EagerAnswer(env, absence, Reach(Full(env, Prune(t, path)).value, path))
  {
    hide Eval, Transparent, AnswersPure, Prune, Reach;
    if Full(env, Prune(t, path)).Err? {
      FailsAlong(env, absence, t, path);
    } else {
      PruneIsPlain(t, path);
      WalkPruned(env, absence, t, path);
      QueryRefinesEager(env, absence, Prune(t, path), path);
    }
  }

  /** A key of a map leads to its value, an index into a list to its item, and a step off either to nothing. */
  lemma OneStepQueries(env: Env, absence: Absence, t: Tree, key: Key, v: Tree)
    requires Pure(v)
    ensures t.Obj? && key.Name? && key.name in t.fields && t.fields[key.name] == v ==> Walk(env, absence, t, [key]) == Ok(v, {})
    ensures t.List? && key.At? && 0 <= key.index < |t.items| && t.items[key.index] == v ==> Walk(env, absence, t, [key]) == Ok(v, {})
    ensures t.Obj? && key.Name? && key.name !in t.fields ==> Walk(env, absence, t, [key]) == if absence == Raise then Err else Ok(Null, {})
    ensures t.List? && key.At? && !(0 <= key.index < |t.items|) ==> Walk(env, absence, t, [key]) == if absence == Raise then Err else Ok(Null, {})
  {
    PureIsPlain(v);
    InertEval(IDENTITY, env, v, 1);
    InertEval(IDENTITY, env, v, -1);
    InertEval(IDENTITY, env, Null, -1);
    hide Eval, Pure;
    assert [key][1..] == [];
  }

  predicate LeadsTo(t: Tree, key: Key, c: Tree) {
    || (t.Obj? && key.Name? && key.name in t.fields && t.fields[key.name] == c)
    || (t.List? && key.At? && 0 <= key.index < |t.items| && t.items[key.index] == c)
  }

  /** One step of a query: past an evaluated expression or a plain value, and no further than null or what is open. */
  lemma StepMeans(env: Env, absence: Absence, t: Tree, key: Key, c: Tree, rest: seq<Key>)
    requires LeadsTo(t, key, c)
    ensures Walk(env, absence, t, []) == Full(env, t)
    ensures
      var r := Walk(env, absence, t, [key] + rest);
      && (IsExpr(c) && Full(env, c).Err? ==> r == Err)
      && (IsExpr(c) && Full(env, c).Ok? && Full(env, c).missing != {} ==> r == Ok(Null, Full(env, c).missing))
      && (IsExpr(c) && Full(env, c).Complete() ==> r == if Full(env, c).value == Null then Ok(Null, {}) else Walk(env, absence, Full(env, c).value, rest))
      && (!IsExpr(c) && !Blocks(c) ==> r == if c == Null then Ok(Null, {}) else Walk(env, absence, c, rest))
      && (!IsExpr(c) && Blocks(c) ==> r == Err)
  {
    assert ([key] + rest)[0] == key && ([key] + rest)[1..] == rest;
    if IsExpr(c) { ShallowExpr(env, c); } else { ShallowStep(env, c); }
    hide Eval, Blocks;
  }
}
