/**
  Evaluation in stages. What one environment leaves open, a richer one finishes: `ResidualAgrees`
  says so for any depth limit and for values written out UTF-8-safely, and the rest of the
  project's statements about stages are instances of it.
 */
module Staging {
  import opened Trees
  import opened Semantics

  const BASE64: string := "base64"

  /** The parts of the transfer codec that the UTF-8-safe result mapper uses. */
  datatype Mapper = Mapper(isText: string -> bool, encode: string -> string)

  ghost predicate Inverts(mp: Mapper, env: Env) {
    forall s :: !mp.isText(s) ==> env.decode(BASE64, mp.encode(s)) == Some(s)
  }

  function Safe(mp: Mapper, t: Tree): Tree {
    match t
    case Str(s) => if mp.isText(s) then t else Obj(map[ENCODING := Str(BASE64), DATA := Str(mp.encode(s))])
    case List(items) => List(seq(|items|, i requires 0 <= i < |items| => Safe(mp, items[i])))
    case Obj(m) => Obj(map k | k in m :: Safe(mp, m[k]))
    case _ => t
  }

  predicate AllText(mp: Mapper, t: Tree) {
    match t
    case Str(s) => mp.isText(s)
    case List(items) => forall i :: 0 <= i < |items| ==> AllText(mp, items[i])
    case Obj(m) => forall k :: k in m ==> AllText(mp, m[k])
    case _ => true
  }

  predicate Inert(mp: Mapper, t: Tree) {
    match t
    case Unsupported(_) => false
    case List(items) => forall i :: 0 <= i < |items| ==> Inert(mp, items[i])
    case Obj(m) =>
      (match ShapeOf(m)
       case TypeShape => TypeNodeOf(m).UnknownType? && AllText(mp, t)
       case EncodingShape => !m[ENCODING].Str? && AllText(mp, t)
       case CallShape(_) => false
       case PlainShape => forall k :: k in m ==> Inert(mp, m[k]))
    case _ => true
  }

  predicate DataOrUnsupported(mp: Mapper, v: Tree) { v.Unsupported? || Inert(mp, v) }

  /**
   * Whatever evaluating `t` looks up is answered with data, and every call that it makes returns data.
   * Nothing is asked of references and calls that `t` does not contain.
   */
  predicate AnswersData(mp: Mapper, env: Env, t: Tree)
    decreases t
  {
    match t
    case List(items) => forall i :: 0 <= i < |items| ==> AnswersData(mp, env, items[i])
    case Obj(m) =>
      (match ShapeOf(m)
       case TypeShape => TypeNodeOf(m).Known? ==> FindsData(mp, env.resolve(TypeNodeOf(m).ref))
       case EncodingShape => DATA in m ==> AnswersData(mp, env, m[DATA])
       case CallShape(key) => AnswersData(mp, env, m[key]) && ReturnsData(mp, env, key, Full(env, m[key]))
       case PlainShape => forall k :: k in m ==> AnswersData(mp, env, m[k]))
    case _ => true
  }

  predicate FindsData(mp: Mapper, l: Lookup) { l.Found? ==> DataOrUnsupported(mp, l.value) }

  predicate ReturnsData(mp: Mapper, env: Env, key: string, a: Outcome)
    requires IsCallKey(key)
  {
    a.Complete() ==>
      var r := env.call(key[|FN|..], ArgsOf(a.value));
      r.Returned? ==> DataOrUnsupported(mp, r.value)
  }

  ghost predicate Extends(env1: Env, env2: Env) {
    && (forall r :: env1.resolve(r) == Missing || env2.resolve(r) == env1.resolve(r))
    && (forall f, a :: env1.call(f, a).Unresolved? || env2.call(f, a) == env1.call(f, a))
    && (forall ty, s :: env2.decode(ty, s) == env1.decode(ty, s))
  }

  lemma {:induction false} NegativeDepths(env: Env, t: Tree, d: int)
    requires d < 0
    ensures Eval(env, t, d) == Full(env, t)
    decreases t
  {
    match t
    case List(items) =>
      forall i | 0 <= i < |items| ensures Eval(env, items[i], d - 1) == Eval(env, items[i], -2) {
        NegativeDepths(env, items[i], d - 1);
        NegativeDepths(env, items[i], -2);
      }
      assert EvalItems(env, t, d - 1) == EvalItems(env, t, -2);
      EvalListStep(env, t, d);
      EvalListStep(env, t, -1);
    case Obj(m) =>
      forall k | k in m ensures Eval(env, m[k], d - 1) == Eval(env, m[k], -2) {
        NegativeDepths(env, m[k], d - 1);
        NegativeDepths(env, m[k], -2);
      }
      assert EvalFields(env, t, d - 1) == EvalFields(env, t, -2);
      if ShapeOf(m).PlainShape? {
        EvalPlainStep(env, t, d);
        EvalPlainStep(env, t, -1);
      }
    case _ =>
  }

  lemma FullList(env: Env, t: Tree)
    requires t.List?
    ensures Full(env, t) == ListOutcome(EvalItems(env, t, -1))
  {
    forall i | 0 <= i < |t.items| { NegativeDepths(env, t.items[i], -2); }
    assert EvalItems(env, t, -2) == EvalItems(env, t, -1);
    EvalListStep(env, t, -1);
  }

  lemma FullPlain(env: Env, t: Tree)
    requires t.Obj? && ShapeOf(t.fields).PlainShape?
    ensures Full(env, t) == ObjOutcome(EvalFields(env, t, -1))
  {
    forall k | k in t.fields { NegativeDepths(env, t.fields[k], -2); }
    assert EvalFields(env, t, -2) == EvalFields(env, t, -1);
    EvalPlainStep(env, t, -1);
  }

  lemma ItemsOk(env: Env, t: Tree)
    requires t.List? && Full(env, t).Ok?
    ensures forall i :: 0 <= i < |t.items| ==>
      Full(env, t.items[i]).Ok? && Full(env, t).value.items[i] == Full(env, t.items[i]).value
    ensures Full(env, t).value.List? && |Full(env, t).value.items| == |t.items|
  {
    FullList(env, t);
    hide Eval;
    var os := EvalItems(env, t, -1);
    assert forall i :: 0 <= i < |os| ==> os[i].Ok?;
  }

  lemma FieldsOk(env: Env, t: Tree)
    requires t.Obj? && ShapeOf(t.fields).PlainShape? && Full(env, t).Ok?
    ensures Full(env, t).value.Obj? && Full(env, t).value.fields.Keys == t.fields.Keys
    ensures forall k :: k in t.fields ==>
      Full(env, t.fields[k]).Ok? && Full(env, t).value.fields[k] == Full(env, t.fields[k]).value
  {
    FullPlain(env, t);
    hide Eval;
    var os := EvalFields(env, t, -1);
    assert forall k :: k in os ==> os[k].Ok?;
  }

  lemma {:induction false} InertEval(mp: Mapper, env: Env, v: Tree, d: int)
    requires Inert(mp, v)
    ensures Eval(env, v, d) == Ok(v, {})
    decreases v
  {
    match v
    case List(items) =>
      forall i | 0 <= i < |items| { InertEval(mp, env, items[i], d - 1); }
    case Obj(m) =>
      if ShapeOf(m).PlainShape? {
        forall k | k in m { InertEval(mp, env, m[k], d - 1); }
      }
    case _ =>
  }

  lemma {:induction false} TextIsSafe(mp: Mapper, t: Tree)
    requires AllText(mp, t)
    ensures Safe(mp, t) == t
  {
    match t
    case List(items) =>
      forall i | 0 <= i < |items| { TextIsSafe(mp, items[i]); }
    case Obj(m) =>
      forall k | k in m { TextIsSafe(mp, m[k]); }
    case _ =>
  }

  lemma SafeKeepsShape(mp: Mapper, m: map<string, Tree>)
    ensures Safe(mp, Obj(m)).Obj?
    ensures ShapeOf(Safe(mp, Obj(m)).fields) == ShapeOf(m)
    ensures Safe(mp, Obj(m)).fields.Keys == m.Keys
  {
    var m' := Safe(mp, Obj(m)).fields;
    assert m'.Keys == m.Keys;
    assert |m'| == |m'.Keys| == |m.Keys| == |m|;
    if |m| == 1 {
      assert OnlyKey(m') in m.Keys && OnlyKey(m) in m.Keys;
    }
  }

  lemma SafeBytesEval(mp: Mapper, env: Env, s: string)
    requires !mp.isText(s) && Inverts(mp, env)
    ensures Full(env, Safe(mp, Str(s))) == Ok(Str(s), {})
  {
    var m := map[ENCODING := Str(BASE64), DATA := Str(mp.encode(s))];
    assert ShapeOf(m).EncodingShape?;
    assert Full(env, m[DATA]) == Ok(m[DATA], {});
  }

  lemma SafeListEval(mp: Mapper, env: Env, v: Tree)
    requires v.List? && forall i :: 0 <= i < |v.items| ==> Full(env, Safe(mp, v.items[i])) == Ok(v.items[i], {})
    ensures Full(env, Safe(mp, v)) == Ok(v, {})
  {
    FullList(env, Safe(mp, v));
    hide Eval;
    assert ListOutcome(EvalItems(env, Safe(mp, v), -1)).value.items == v.items;
    assert ListOutcome(EvalItems(env, Safe(mp, v), -1)).missing == {};
  }

  lemma SafePlainEval(mp: Mapper, env: Env, v: Tree)
    requires v.Obj? && ShapeOf(v.fields).PlainShape?
    requires forall k :: k in v.fields ==> Full(env, Safe(mp, v.fields[k])) == Ok(v.fields[k], {})
    ensures Full(env, Safe(mp, v)) == Ok(v, {})
  {
    SafeKeepsShape(mp, v.fields);
    FullPlain(env, Safe(mp, v));
    hide Eval, ShapeOf;
    var os := EvalFields(env, Safe(mp, v), -1);
    assert ObjOutcome(os).value.fields == v.fields;
    assert ObjOutcome(os).missing == {};
  }

  lemma {:induction false} SafeInertEval(mp: Mapper, env: Env, v: Tree)
    requires Inert(mp, v) && Inverts(mp, env)
    ensures Full(env, Safe(mp, v)) == Ok(v, {})
  {
    match v
    case Str(s) => if !mp.isText(s) { SafeBytesEval(mp, env, s); }
    case List(items) =>
      forall i | 0 <= i < |items| { SafeInertEval(mp, env, items[i]); }
      SafeListEval(mp, env, v);
    case Obj(m) =>
      if ShapeOf(m).PlainShape? {
        forall k | k in m { SafeInertEval(mp, env, m[k]); }
        SafePlainEval(mp, env, v);
      } else {
        TextIsSafe(mp, v);
        InertEval(mp, env, v, -1);
      }
    case _ =>
  }

  lemma {:induction false} CompleteIsInert(mp: Mapper, env: Env, t: Tree)
    requires AllText(mp, t) && AnswersData(mp, env, t)
    ensures Full(env, t).Complete() ==> Inert(mp, Full(env, t).value)
  {
    match t
    case List(items) =>
      FullList(env, t);
      forall i | 0 <= i < |items| { CompleteIsInert(mp, env, items[i]); }
      if Full(env, t).Complete() { ListComplete(EvalItems(env, t, -1)); }
    case Obj(m) =>
      if ShapeOf(m).PlainShape? {
        FullPlain(env, t);
        forall k | k in m { CompleteIsInert(mp, env, m[k]); }
        if Full(env, t).Complete() {
          ObjComplete(EvalFields(env, t, -1));
          SameKeysSameShape(m, Full(env, t).value.fields);
        }
      } else if ShapeOf(m).CallShape? {
        CompleteIsInert(mp, env, m[ShapeOf(m).key]);
      }
    case _ =>
  }

  lemma ListComplete(os: seq<Outcome>)
    requires ListOutcome(os).Complete()
    ensures forall i :: 0 <= i < |os| ==> os[i].Complete()
  {
    forall i | 0 <= i < |os| ensures os[i].missing == {} {
      assert os[i].Unresolved() <= ListOutcome(os).missing;
    }
  }

  lemma ObjComplete(os: map<string, Outcome>)
    requires ObjOutcome(os).Complete()
    ensures forall k :: k in os ==> os[k].Complete()
  {
    forall k | k in os ensures os[k].missing == {} {
      assert os[k].Unresolved() <= ObjOutcome(os).missing;
    }
  }

  lemma SameKeysSameShape(m: map<string, Tree>, m': map<string, Tree>)
    requires m.Keys == m'.Keys
    ensures ShapeOf(m) == ShapeOf(m')
  {
    assert |m'| == |m'.Keys| == |m.Keys| == |m|;
    if |m| == 1 {
      assert OnlyKey(m') in m.Keys && OnlyKey(m) in m.Keys;
    }
  }

  predicate Stable(o1: Outcome, o2: Outcome) { o1.Complete() ==> o2 == o1 }

  lemma StableList(env1: Env, env2: Env, t: Tree)
    requires t.List? && forall i :: 0 <= i < |t.items| ==> Stable(Full(env1, t.items[i]), Full(env2, t.items[i]))
    ensures Stable(Full(env1, t), Full(env2, t))
  {
    FullList(env1, t);
    FullList(env2, t);
    hide Eval;
    if Full(env1, t).Complete() {
      ListComplete(EvalItems(env1, t, -1));
      assert EvalItems(env1, t, -1) == EvalItems(env2, t, -1);
    }
  }

  lemma StablePlain(env1: Env, env2: Env, t: Tree)
    requires t.Obj? && ShapeOf(t.fields).PlainShape?
    requires forall k :: k in t.fields ==> Stable(Full(env1, t.fields[k]), Full(env2, t.fields[k]))
    ensures Stable(Full(env1, t), Full(env2, t))
  {
    FullPlain(env1, t);
    FullPlain(env2, t);
    hide Eval;
    if Full(env1, t).Complete() {
      ObjComplete(EvalFields(env1, t, -1));
      assert EvalFields(env1, t, -1) == EvalFields(env2, t, -1);
    }
  }

  lemma {:induction false} CompleteIsStable(env1: Env, env2: Env, t: Tree)
    requires Extends(env1, env2)
    ensures Full(env1, t).Complete() ==> Full(env2, t) == Full(env1, t)
  {
    match t
    case List(items) =>
      forall i | 0 <= i < |items| ensures Stable(Full(env1, items[i]), Full(env2, items[i])) {
        CompleteIsStable(env1, env2, items[i]);
      }
      StableList(env1, env2, t);
    case Obj(m) =>
      match ShapeOf(m) {
        case PlainShape =>
          forall k | k in m ensures Stable(Full(env1, m[k]), Full(env2, m[k])) {
            CompleteIsStable(env1, env2, m[k]);
          }
          StablePlain(env1, env2, t);
        case EncodingShape =>
          if DATA in m { CompleteIsStable(env1, env2, m[DATA]); }
        case CallShape(key) => CompleteIsStable(env1, env2, m[key]);
        case TypeShape =>
      }
    case _ =>
  }

  lemma FailedList(env1: Env, env2: Env, t: Tree)
    requires t.List? && forall i :: 0 <= i < |t.items| ==> (Full(env1, t.items[i]).Err? ==> Full(env2, t.items[i]).Err?)
    ensures Full(env1, t).Err? ==> Full(env2, t).Err?
  {
    FullList(env1, t);
    FullList(env2, t);
    hide Eval;
    if Full(env1, t).Err? {
      var i :| 0 <= i < |t.items| && EvalItems(env1, t, -1)[i].Err?;
      assert EvalItems(env2, t, -1)[i].Err?;
    }
  }

  lemma FailedPlain(env1: Env, env2: Env, t: Tree)
    requires t.Obj? && ShapeOf(t.fields).PlainShape?
    requires forall k :: k in t.fields ==> (Full(env1, t.fields[k]).Err? ==> Full(env2, t.fields[k]).Err?)
    ensures Full(env1, t).Err? ==> Full(env2, t).Err?
  {
    FullPlain(env1, t);
    FullPlain(env2, t);
    hide Eval;
    if Full(env1, t).Err? {
      var k :| k in t.fields && EvalFields(env1, t, -1)[k].Err?;
      assert EvalFields(env2, t, -1)[k].Err?;
    }
  }

  /** New answers never rescue an evaluation that fails. */
  lemma {:induction false} FailureIsStable(env1: Env, env2: Env, t: Tree)
    requires Extends(env1, env2)
    ensures Full(env1, t).Err? ==> Full(env2, t).Err?
  {
    match t
    case List(items) =>
      forall i | 0 <= i < |items| { FailureIsStable(env1, env2, items[i]); }
      FailedList(env1, env2, t);
    case Obj(m) =>
      match ShapeOf(m) {
        case PlainShape =>
          forall k | k in m { FailureIsStable(env1, env2, m[k]); }
          FailedPlain(env1, env2, t);
        case EncodingShape =>
          if DATA in m { FailureIsStable(env1, env2, m[DATA]); CompleteIsStable(env1, env2, m[DATA]); }
        case CallShape(key) =>
          FailureIsStable(env1, env2, m[key]);
          CompleteIsStable(env1, env2, m[key]);
        case TypeShape =>
      }
    case _ =>
  }

  predicate NoStaleCall(mp: Mapper, env1: Env, env2: Env, t: Tree, d: int)
    decreases t
  {
    d == 0 ||
    match t
    case List(items) => d == 1 || forall i :: 0 <= i < |items| ==> NoStaleCall(mp, env1, env2, items[i], d - 1)
    case Obj(m) =>
      (match ShapeOf(m)
       case TypeShape => true
       case EncodingShape => m[ENCODING].Str? && DATA in m ==> NoStaleCall(mp, env1, env2, m[DATA], -1)
       case CallShape(key) =>
         && NoStaleCall(mp, env1, env2, m[key], -1)
         && (Rewritten(mp, env1, m[key]) ==> !Stuck(env2, key, m[key]))
       case PlainShape =>
         (d == 1 && |m| != 1) || forall k :: k in m ==> NoStaleCall(mp, env1, env2, m[k], d - 1))
    case _ => true
  }

  predicate Rewritten(mp: Mapper, env1: Env, arg: Tree) {
    var a := Full(env1, arg);
    a.Ok? && a.missing != {} && Safe(mp, a.value) != arg
  }

  predicate Stuck(env2: Env, key: string, arg: Tree)
    requires IsCallKey(key)
  {
    var a := Full(env2, arg);
    a.Complete() && env2.call(key[|FN|..], ArgsOf(a.value)).Unresolved?
  }

  predicate NoInvocations(u: set<Ref>) {
    forall r :: r in u ==> !r.InvocationRef?
  }

  /** How two evaluations of the same document relate; `same` says whether their values coincide. */
  predicate Agree(o: Outcome, o': Outcome, same: bool) {
    && (o.Ok? <==> o'.Ok?)
    && (o.Ok? ==>
          && o.missing == o'.missing
          && (o.value == o'.value <==> same)
          && (NoInvocations(o.missing) ==> same))
  }

  ghost predicate Stages(mp: Mapper, env1: Env, env2: Env, t: Tree) {
    Extends(env1, env2) && AnswersData(mp, env2, t) && Inverts(mp, env2)
  }

  /** An earlier stage looks up and calls no more than a later one. */
  lemma {:induction false} EarlierAnswersData(mp: Mapper, env1: Env, env2: Env, t: Tree)
    requires Extends(env1, env2) && AnswersData(mp, env2, t)
    ensures AnswersData(mp, env1, t)
  {
    match t
    case List(items) => forall i | 0 <= i < |items| { EarlierAnswersData(mp, env1, env2, items[i]); }
    case Obj(m) =>
      match ShapeOf(m) {
        case TypeShape =>
        case EncodingShape => if DATA in m { EarlierAnswersData(mp, env1, env2, m[DATA]); }
        case CallShape(key) =>
          EarlierAnswersData(mp, env1, env2, m[key]);
          CompleteIsStable(env1, env2, m[key]);
        case PlainShape => forall k | k in m { EarlierAnswersData(mp, env1, env2, m[k]); }
      }
    case _ =>
  }

  /** Evaluating to depth `d` in `env1`, writing the result out safely, and finishing in `env2`. */
  lemma {:induction false} ResidualAgrees(mp: Mapper, env1: Env, env2: Env, t: Tree, d: int)
    requires Stages(mp, env1, env2, t) && AllText(mp, t)
    requires Eval(env1, t, d).Ok?
    ensures Agree(Full(env2, Safe(mp, Eval(env1, t, d).value)), Full(env2, t), NoStaleCall(mp, env1, env2, t, d))
    decreases t, 1
  {
    TextIsSafe(mp, t);
    EarlierAnswersData(mp, env1, env2, t);
    match t
    case List(items) =>
      if d != 0 && d != 1 { ResidualList(mp, env1, env2, t, d); }
    case Obj(m) =>
      match ShapeOf(m) {
        case TypeShape =>
          if d != 0 && Eval(env1, t, d).value != t { SafeInertEval(mp, env2, Eval(env1, t, d).value); }
        case EncodingShape =>
          if d != 0 && m[ENCODING].Str? && DATA in m { ResidualEncoding(mp, env1, env2, t, d); }
        case CallShape(key) =>
          if d != 0 { ResidualCall(mp, env1, env2, t, d); }
        case PlainShape =>
          if d != 0 && (d == 1 ==> |m| == 1) { ResidualPlain(mp, env1, env2, t, d); }
      }
    case _ =>
  }

  lemma {:induction false} ResidualList(mp: Mapper, env1: Env, env2: Env, t: Tree, d: int)
    requires Stages(mp, env1, env2, t) && AllText(mp, t)
    requires t.List? && d != 0 && d != 1 && Eval(env1, t, d).Ok?
    ensures Agree(Full(env2, Safe(mp, Eval(env1, t, d).value)), Full(env2, t), NoStaleCall(mp, env1, env2, t, d))
    decreases t, 0
  {
    hide Eval, Safe, Agree;
    ListValue(env1, t, d);
    var items, v := t.items, Eval(env1, t, d).value;
    var same := seq(|items|, i requires 0 <= i < |items| => NoStaleCall(mp, env1, env2, items[i], d - 1));
    forall i | 0 <= i < |items| ensures Agree(Full(env2, Safe(mp, v.items[i])), Full(env2, items[i]), same[i]) {
      ResidualAgrees(mp, env1, env2, items[i], d - 1);
    }
    NoStaleList(mp, env1, env2, t, d, same);
    ListKidsAgree(mp, env2, t, v, same);
  }

  lemma ListValue(env: Env, t: Tree, d: int)
    requires t.List? && d != 0 && d != 1 && Eval(env, t, d).Ok?
    ensures Eval(env, t, d).value.List? && |Eval(env, t, d).value.items| == |t.items|
    ensures forall i :: 0 <= i < |t.items| ==>
      Eval(env, t.items[i], d - 1).Ok? && Eval(env, t, d).value.items[i] == Eval(env, t.items[i], d - 1).value
  {
    EvalListStep(env, t, d);
    hide Eval;
    var os := EvalItems(env, t, d - 1);
    assert forall i :: 0 <= i < |os| ==> os[i].Ok?;
  }

  lemma NoStaleList(mp: Mapper, env1: Env, env2: Env, t: Tree, d: int, same: seq<bool>)
    requires t.List? && d != 0 && d != 1 && |same| == |t.items|
    requires forall i :: 0 <= i < |same| ==> same[i] == NoStaleCall(mp, env1, env2, t.items[i], d - 1)
    ensures NoStaleCall(mp, env1, env2, t, d) <==> forall i :: 0 <= i < |same| ==> same[i]
  {
  }

  lemma ListKidsAgree(mp: Mapper, env: Env, t: Tree, v: Tree, same: seq<bool>)
    requires t.List? && v.List? && |same| == |t.items| == |v.items|
    requires forall i :: 0 <= i < |same| ==> Agree(Full(env, Safe(mp, v.items[i])), Full(env, t.items[i]), same[i])
    ensures Agree(Full(env, Safe(mp, v)), Full(env, t), forall i :: 0 <= i < |same| ==> same[i])
  {
    SafeItems(mp, v);
    hide Eval, Safe, Agree;
    var t' := Safe(mp, v);
    FullList(env, t');
    FullList(env, t);
    ListsAgree(EvalItems(env, t', -1), EvalItems(env, t, -1), same);
  }

  lemma SafeItems(mp: Mapper, v: Tree)
    requires v.List?
    ensures Safe(mp, v).List? && |Safe(mp, v).items| == |v.items|
    ensures forall i :: 0 <= i < |v.items| ==> Safe(mp, v).items[i] == Safe(mp, v.items[i])
  {
  }

  lemma ListOk(os: seq<Outcome>)
    requires forall i :: 0 <= i < |os| ==> os[i].Ok?
    ensures ListOutcome(os).Ok?
    ensures forall i :: 0 <= i < |os| ==> ListOutcome(os).value.items[i] == os[i].value && os[i].missing <= ListOutcome(os).missing
  {
    forall i | 0 <= i < |os| ensures os[i].missing <= ListOutcome(os).missing {
      assert os[i].Unresolved() <= ListOutcome(os).missing;
    }
  }

  lemma ListsMissTheSame(os: seq<Outcome>, os': seq<Outcome>)
    requires |os| == |os'| && forall i :: 0 <= i < |os| ==> os[i].Ok? && os'[i].Ok? && os[i].missing == os'[i].missing
    ensures ListOutcome(os).missing == ListOutcome(os').missing
  {
    assert forall i :: 0 <= i < |os| ==> os[i].Unresolved() == os'[i].Unresolved();
  }

  lemma ListErr(os: seq<Outcome>, i: nat)
    requires i < |os| && os[i].Err?
    ensures ListOutcome(os).Err?
  {
  }

  lemma SameItems(l: seq<Tree>, l': seq<Tree>, same: seq<bool>)
    requires |l| == |l'| == |same| && forall i :: 0 <= i < |l| ==> (l[i] == l'[i] <==> same[i])
    ensures List(l) == List(l') <==> forall i :: 0 <= i < |same| ==> same[i]
  {
    if forall i :: 0 <= i < |same| ==> same[i] { assert l == l'; }
  }

  lemma ListsAgree(os: seq<Outcome>, os': seq<Outcome>, same: seq<bool>)
    requires |os| == |os'| == |same|
    requires forall i :: 0 <= i < |os| ==> Agree(os[i], os'[i], same[i])
    ensures Agree(ListOutcome(os), ListOutcome(os'), forall i :: 0 <= i < |same| ==> same[i])
  {
    hide ListOutcome;
    if forall i :: 0 <= i < |os| ==> os[i].Ok? {
      ListOk(os);
      ListOk(os');
      ListsMissTheSame(os, os');
      SameItems(ListOutcome(os).value.items, ListOutcome(os').value.items, same);
    } else {
      var i :| 0 <= i < |os| && os[i].Err?;
      ListErr(os, i);
      ListErr(os', i);
    }
  }

  lemma PlainValue(env: Env, t: Tree, d: int)
    requires t.Obj? && ShapeOf(t.fields).PlainShape? && d != 0 && (d == 1 ==> |t.fields| == 1) && Eval(env, t, d).Ok?
    ensures Eval(env, t, d).value.Obj? && Eval(env, t, d).value.fields.Keys == t.fields.Keys
    ensures forall k :: k in t.fields ==>
      Eval(env, t.fields[k], d - 1).Ok? && Eval(env, t, d).value.fields[k] == Eval(env, t.fields[k], d - 1).value
  {
    EvalPlainStep(env, t, d);
    var os := EvalFields(env, t, d - 1);
    assert forall k :: k in os ==> os[k].Ok?;
  }

  lemma NoStalePlain(mp: Mapper, env1: Env, env2: Env, t: Tree, d: int, same: map<string, bool>)
    requires t.Obj? && ShapeOf(t.fields).PlainShape? && d != 0 && (d == 1 ==> |t.fields| == 1)
    requires same.Keys == t.fields.Keys
    requires forall k :: k in same ==> same[k] == NoStaleCall(mp, env1, env2, t.fields[k], d - 1)
    ensures NoStaleCall(mp, env1, env2, t, d) <==> forall k :: k in same ==> same[k]
  {
  }

  lemma {:induction false} ResidualPlain(mp: Mapper, env1: Env, env2: Env, t: Tree, d: int)
    requires Stages(mp, env1, env2, t) && AllText(mp, t)
    requires t.Obj? && ShapeOf(t.fields).PlainShape? && d != 0 && (d == 1 ==> |t.fields| == 1) && Eval(env1, t, d).Ok?
    ensures Agree(Full(env2, Safe(mp, Eval(env1, t, d).value)), Full(env2, t), NoStaleCall(mp, env1, env2, t, d))
    decreases t, 0
  {
    hide Eval, Safe, Agree;
    PlainValue(env1, t, d);
    var m, v := t.fields, Eval(env1, t, d).value;
    var same := map k | k in m :: NoStaleCall(mp, env1, env2, m[k], d - 1);
    forall k | k in m ensures Agree(Full(env2, Safe(mp, v.fields[k])), Full(env2, m[k]), same[k]) {
      ResidualAgrees(mp, env1, env2, m[k], d - 1);
    }
    NoStalePlain(mp, env1, env2, t, d, same);
    PlainKidsAgree(mp, env2, t, v, same);
  }

  lemma PlainKidsAgree(mp: Mapper, env: Env, t: Tree, v: Tree, same: map<string, bool>)
    requires t.Obj? && v.Obj? && ShapeOf(t.fields).PlainShape?
    requires same.Keys == t.fields.Keys == v.fields.Keys
    requires forall k :: k in same ==> Agree(Full(env, Safe(mp, v.fields[k])), Full(env, t.fields[k]), same[k])
    ensures Agree(Full(env, Safe(mp, v)), Full(env, t), forall k :: k in same ==> same[k])
  {
    SafeKeepsShape(mp, v.fields);
    SafeKids(mp, v);
    hide Eval, Safe, Agree;
    SameKeysSameShape(t.fields, v.fields);
    var t' := Safe(mp, v);
    FullPlain(env, t');
    FullPlain(env, t);
    ObjsAgree(EvalFields(env, t', -1), EvalFields(env, t, -1), same);
  }

  lemma SafeKids(mp: Mapper, v: Tree)
    requires v.Obj?
    ensures Safe(mp, v).Obj? && Safe(mp, v).fields.Keys == v.fields.Keys
    ensures forall k :: k in v.fields ==> Safe(mp, v).fields[k] == Safe(mp, v.fields[k])
  {
  }

  lemma ObjOk(os: map<string, Outcome>)
    requires forall k :: k in os ==> os[k].Ok?
    ensures ObjOutcome(os).Ok?
    ensures forall k :: k in os ==> ObjOutcome(os).value.fields[k] == os[k].value && os[k].missing <= ObjOutcome(os).missing
  {
    forall k | k in os ensures os[k].missing <= ObjOutcome(os).missing {
      assert os[k].Unresolved() <= ObjOutcome(os).missing;
    }
  }

  lemma ObjsMissTheSame(os: map<string, Outcome>, os': map<string, Outcome>)
    requires os.Keys == os'.Keys && forall k :: k in os ==> os[k].Ok? && os'[k].Ok? && os[k].missing == os'[k].missing
    ensures ObjOutcome(os).missing == ObjOutcome(os').missing
  {
    assert forall k :: k in os ==> os[k].Unresolved() == os'[k].Unresolved();
  }

  lemma ObjErr(os: map<string, Outcome>, k: string)
    requires k in os && os[k].Err?
    ensures ObjOutcome(os).Err?
  {
  }

  lemma SameFields(m: map<string, Tree>, m': map<string, Tree>, same: map<string, bool>)
    requires m.Keys == m'.Keys == same.Keys && forall k :: k in m ==> (m[k] == m'[k] <==> same[k])
    ensures Obj(m) == Obj(m') <==> forall k :: k in same ==> same[k]
  {
    if forall k :: k in same ==> same[k] { assert m == m'; }
  }

  lemma ObjsAgree(os: map<string, Outcome>, os': map<string, Outcome>, same: map<string, bool>)
    requires os.Keys == os'.Keys == same.Keys
    requires forall k :: k in os ==> Agree(os[k], os'[k], same[k])
    ensures Agree(ObjOutcome(os), ObjOutcome(os'), forall k :: k in same ==> same[k])
  {
    hide ObjOutcome;
    if forall k :: k in os ==> os[k].Ok? {
      ObjOk(os);
      ObjOk(os');
      ObjsMissTheSame(os, os');
      SameFields(ObjOutcome(os).value.fields, ObjOutcome(os').value.fields, same);
    } else {
      var k :| k in os && os[k].Err?;
      ObjErr(os, k);
      ObjErr(os', k);
    }
  }

  lemma DecodesAgree(env: Env, ty: string, o: Outcome, o': Outcome, same: bool)
    requires Agree(o, o', same)
    ensures Agree(DecodeOutcome(env, ty, o), DecodeOutcome(env, ty, o'), same)
  {
    if o.Ok? && o.missing != {} {
      var m, m' := DecodeOutcome(env, ty, o).value.fields, DecodeOutcome(env, ty, o').value.fields;
      assert m[DATA] == o.value && m'[DATA] == o'.value;
    }
  }

  lemma {:induction false} ResidualEncoding(mp: Mapper, env1: Env, env2: Env, t: Tree, d: int)
    requires Stages(mp, env1, env2, t) && AllText(mp, t)
    requires t.Obj? && ShapeOf(t.fields).EncodingShape? && t.fields[ENCODING].Str? && DATA in t.fields
    requires d != 0 && Eval(env1, t, d).Ok?
    ensures Agree(Full(env2, Safe(mp, Eval(env1, t, d).value)), Full(env2, t), NoStaleCall(mp, env1, env2, t, d))
    decreases t, 0
  {
    var m, ty := t.fields, t.fields[ENCODING].s;
    var data := Full(env1, m[DATA]);
    EvalEncodingStep(env1, m, d);
    EvalEncodingStep(env2, m, -1);
    ResidualAgrees(mp, env1, env2, m[DATA], -1);
    if data.missing == {} {
      CompleteIsStable(env1, env2, m[DATA]);
      SafeInertEval(mp, env2, Eval(env1, t, d).value);
    } else {
      EncodingResidue(mp, ty, data.value);
      EvalEncodingStep(env2, map[ENCODING := Str(ty), DATA := Safe(mp, data.value)], -1);
      DecodesAgree(env2, ty, Full(env2, Safe(mp, data.value)), Full(env2, m[DATA]),
                   NoStaleCall(mp, env1, env2, m[DATA], -1));
    }
  }

  lemma EncodingResidue(mp: Mapper, ty: string, v: Tree)
    requires mp.isText(ty)
    ensures Safe(mp, Obj(map[ENCODING := Str(ty), DATA := v])) == Obj(map[ENCODING := Str(ty), DATA := Safe(mp, v)])
    ensures ShapeOf(map[ENCODING := Str(ty), DATA := Safe(mp, v)]).EncodingShape?
  {
    assert Safe(mp, Str(ty)) == Str(ty);
  }

  lemma CallsAgree(env: Env, key: string, m: map<string, Tree>, o: Outcome, m': map<string, Tree>, o': Outcome, same: bool)
    requires IsCallKey(key) && Agree(o, o', same)
    ensures var stuck := o.Complete() && env.call(key[|FN|..], ArgsOf(o.value)).Unresolved?;
      Agree(Check(CallOutcome(env, key, m, o)), Check(CallOutcome(env, key, m', o')), same && (stuck ==> m == m'))
  {
    if o.Ok? && o.missing != {} {
      assert map[key := o.value][key] == o.value && map[key := o'.value][key] == o'.value;
    }
  }

  lemma {:induction false} ResidualCall(mp: Mapper, env1: Env, env2: Env, t: Tree, d: int)
    requires Stages(mp, env1, env2, t) && AllText(mp, t)
    requires t.Obj? && ShapeOf(t.fields).CallShape? && d != 0 && Eval(env1, t, d).Ok?
    ensures Agree(Full(env2, Safe(mp, Eval(env1, t, d).value)), Full(env2, t), NoStaleCall(mp, env1, env2, t, d))
    decreases t, 0
  {
    hide Eval, Safe;
    var m, key := t.fields, ShapeOf(t.fields).key;
    var a := Full(env1, m[key]);
    EvalCallStep(env1, m, key, d);
    EvalCallStep(env2, m, key, -1);
    ResidualAgrees(mp, env1, env2, m[key], -1);
    NoStaleAtCall(mp, env1, env2, m, key, d);
    if a.missing == {} {
      ResidualCompleteCall(mp, env1, env2, m, key, d);
    } else {
      CallResidue(mp, m, key, a.value);
      var m' := map[key := Safe(mp, a.value)];
      EvalCallStep(env2, m', key, -1);
      hide NoStaleCall;
      CallsAgree(env2, key, m', Full(env2, m'[key]), m, Full(env2, m[key]), NoStaleCall(mp, env1, env2, m[key], -1));
    }
  }

  lemma NoStaleAtCall(mp: Mapper, env1: Env, env2: Env, m: map<string, Tree>, key: string, d: int)
    requires ShapeOf(m) == CallShape(key) && d != 0
    ensures NoStaleCall(mp, env1, env2, Obj(m), d) <==>
      NoStaleCall(mp, env1, env2, m[key], -1) && (Rewritten(mp, env1, m[key]) ==> !Stuck(env2, key, m[key]))
  {
  }

  lemma ResidualCompleteCall(mp: Mapper, env1: Env, env2: Env, m: map<string, Tree>, key: string, d: int)
    requires Stages(mp, env1, env2, Obj(m)) && AllText(mp, Obj(m))
    requires ShapeOf(m) == CallShape(key) && d != 0 && Eval(env1, Obj(m), d).Ok? && Full(env1, m[key]).Complete()
    ensures Full(env2, Safe(mp, Eval(env1, Obj(m), d).value)) == Full(env2, Obj(m))
    ensures Full(env2, m[key]).Complete()
  {
    EvalCallStep(env1, m, key, d);
    EvalCallStep(env2, m, key, -1);
    CompleteIsStable(env1, env2, m[key]);
    EarlierAnswersData(mp, env1, env2, Obj(m));
    CompleteIsInert(mp, env1, m[key]);
    hide Eval, Safe, Inert;
    if env1.call(key[|FN|..], ArgsOf(Full(env1, m[key]).value)).Returned? {
      SafeInertEval(mp, env2, Eval(env1, Obj(m), d).value);
    } else {
      TextIsSafe(mp, Obj(m));
    }
  }

  lemma CallResidue(mp: Mapper, m: map<string, Tree>, key: string, v: Tree)
    requires ShapeOf(m) == CallShape(key)
    ensures m == map[key := m[key]]
    ensures Safe(mp, Obj(map[key := v])) == Obj(map[key := Safe(mp, v)])
    ensures ShapeOf(map[key := Safe(mp, v)]) == CallShape(key)
  {
    SingleCallShape(key, Safe(mp, v));
  }

  lemma SingleCallShape(key: string, arg: Tree)
    requires IsCallKey(key)
    ensures ShapeOf(map[key := arg]) == CallShape(key)
  {
    var m := map[key := arg];
    assert m.Keys == {key};
    assert key[1] == FN[1] && FN[1] != TYPE[1] && FN[1] != ENCODING[1];
    assert |m| == 1;
  }

  /** A mapper that calls every string text leaves every tree alone. */
  const IDENTITY: Mapper := Mapper(s => true, s => s)

  lemma {:induction false} IdentityMapper(t: Tree)
    ensures AllText(IDENTITY, t) && Safe(IDENTITY, t) == t
  {
    match t
    case List(items) => forall i | 0 <= i < |items| { IdentityMapper(items[i]); }
    case Obj(m) => forall k | k in m { IdentityMapper(m[k]); }
    case _ =>
  }

  /** The same without a mapper. */
  predicate DataEnv(env: Env, t: Tree) { AnswersData(IDENTITY, env, t) }

  lemma StagedEvaluation(env1: Env, env2: Env, t: Tree, d: int)
    requires Extends(env1, env2) && DataEnv(env2, t) && Eval(env1, t, d).Ok?
    ensures Agree(Full(env2, Eval(env1, t, d).value), Full(env2, t), NoStaleCall(IDENTITY, env1, env2, t, d))
  {
    IdentityMapper(t);
    IdentityMapper(Eval(env1, t, d).value);
    hide Eval;
    ResidualAgrees(IDENTITY, env1, env2, t, d);
  }

  lemma {:induction false} NeverStaleInOneEnv(env: Env, t: Tree, d: int)
    ensures NoStaleCall(IDENTITY, env, env, t, d)
    decreases t
  {
    match t
    case List(items) => forall i | 0 <= i < |items| { NeverStaleInOneEnv(env, items[i], d - 1); }
    case Obj(m) =>
      match ShapeOf(m) {
        case TypeShape =>
        case EncodingShape => if DATA in m { NeverStaleInOneEnv(env, m[DATA], -1); }
        case CallShape(key) => NeverStaleInOneEnv(env, m[key], -1);
        case PlainShape => forall k | k in m { NeverStaleInOneEnv(env, m[k], d - 1); }
      }
    case _ =>
  }

  /** Evaluating to any depth first only delays work. */
  lemma DepthOnlyDelays(env: Env, t: Tree, d: int)
    requires DataEnv(env, t) && Eval(env, t, d).Ok?
    ensures Full(env, Eval(env, t, d).value) == Full(env, t)
  {
    hide Eval;
    StagedEvaluation(env, env, t, d);
    NeverStaleInOneEnv(env, t, d);
  }

  /** Re-evaluating a result in the same environment changes nothing. */
  lemma Idempotent(env: Env, t: Tree)
    requires DataEnv(env, t) && Full(env, t).Ok?
    ensures Full(env, Full(env, t).value) == Full(env, t)
  {
    hide Eval;
    DepthOnlyDelays(env, t, -1);
  }
}
