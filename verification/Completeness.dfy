/** What a result reports as unresolvable, and when it is complete (pkg/expr/evaluate/result.go). */
module Completeness {
  import opened Trees
  import opened Semantics
  import opened Staging

  /** The references an evaluation would look up: those reachable without entering an opaque node. */
  function Refs(t: Tree): set<Ref> {
    match t
    case List(items) => set i, r | 0 <= i < |items| && r in Refs(items[i]) :: r
    case Obj(m) =>
      (match ShapeOf(m)
       case TypeShape => (match TypeNodeOf(m) case Known(ref) => {ref} case _ => {})
       case EncodingShape => if m[ENCODING].Str? && DATA in m then Refs(m[DATA]) else {}
       case CallShape(key) => Refs(m[key])
       case PlainShape => set k, r | k in m && r in Refs(m[k]) :: r)
    case _ => {}
  }

  function Unanswered(env: Env, refs: set<Ref>): set<Ref> {
    set r | r in refs && env.resolve(r) == Missing
  }

  function References(u: set<Ref>): set<Ref> {
    set r | r in u && !r.InvocationRef?
  }

  lemma MissingOfList(env: Env, t: Tree)
    requires t.List? && Full(env, t).Ok?
    requires forall i :: 0 <= i < |t.items| ==>
      Full(env, t.items[i]).Ok? && References(Full(env, t.items[i]).missing) == Unanswered(env, Refs(t.items[i]))
    ensures References(Full(env, t).missing) == Unanswered(env, Refs(t))
  {
    FullList(env, t);
    hide Eval;
    var os := EvalItems(env, t, -1);
    forall r
      ensures r in References(ListOutcome(os).missing) <==> exists i :: 0 <= i < |os| && r in References(os[i].missing)
    {
      assert r in ListOutcome(os).missing <==> exists i :: 0 <= i < |os| && r in os[i].Unresolved();
    }
  }

  lemma MissingOfPlain(env: Env, t: Tree)
    requires t.Obj? && ShapeOf(t.fields).PlainShape? && Full(env, t).Ok?
    requires forall k :: k in t.fields ==>
      Full(env, t.fields[k]).Ok? && References(Full(env, t.fields[k]).missing) == Unanswered(env, Refs(t.fields[k]))
    ensures References(Full(env, t).missing) == Unanswered(env, Refs(t))
  {
    FullPlain(env, t);
    hide Eval;
    var os := EvalFields(env, t, -1);
    forall r
      ensures r in References(ObjOutcome(os).missing) <==> exists k :: k in os && r in References(os[k].missing)
    {
      assert r in ObjOutcome(os).missing <==> exists k :: k in os && r in os[k].Unresolved();
    }
  }

  /** An evaluation reports exactly the references of its input that nothing answers. */
  lemma {:induction false} MissingAreInputRefs(env: Env, t: Tree)
    requires Full(env, t).Ok?
    ensures References(Full(env, t).missing) == Unanswered(env, Refs(t))
  {
    match t
    case List(items) =>
      ItemsOk(env, t);
      forall i | 0 <= i < |items| { MissingAreInputRefs(env, items[i]); }
      MissingOfList(env, t);
    case Obj(m) =>
      match ShapeOf(m) {
        case PlainShape =>
          FieldsOk(env, t);
          forall k | k in m { MissingAreInputRefs(env, m[k]); }
          MissingOfPlain(env, t);
        case EncodingShape =>
          if DATA in m && m[ENCODING].Str? { MissingAreInputRefs(env, m[DATA]); }
        case CallShape(key) => MissingAreInputRefs(env, m[key]);
        case TypeShape =>
      }
    case _ =>
  }

  /** A result is complete exactly when its value is data, and it reports what is still open in that value. */
  lemma CompleteIffData(env: Env, t: Tree)
    requires DataEnv(env, t) && Full(env, t).Ok?
    ensures Full(env, t).Complete() <==> Inert(IDENTITY, Full(env, t).value)
    ensures References(Full(env, t).missing) == Unanswered(env, Refs(Full(env, t).value))
    ensures References(Full(env, t).missing) == Unanswered(env, Refs(t))
  {
    hide Eval, References, Unanswered, Refs;
    var v := Full(env, t).value;
    Idempotent(env, t);
    MissingAreInputRefs(env, t);
    MissingAreInputRefs(env, v);
    IdentityMapper(t);
    CompleteIsInert(IDENTITY, env, t);
    if Inert(IDENTITY, v) { InertEval(IDENTITY, env, v, -1); }
  }
}
