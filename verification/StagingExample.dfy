/** An input on which evaluating in stages and evaluating at once give different, equally stuck, values. */
module StagingExample {
  import opened Trees
  import opened Semantics
  import opened Staging

  function Param(name: string): Tree {
    Obj(map[TYPE := Str("Parameter"), "name" := Str(name)])
  }

  /** Parameters bound to the text "v", and no functions. */
  function Params(bound: set<string>): Env {
    Env((r: Ref) => if r.ParameterRef? && r.name in bound then Found(Str("v")) else Missing,
        (f, a) => Unresolved("fn: function not found"),
        (ty, s) => None)
  }

  lemma ParamEval(bound: set<string>, name: string)
    ensures Full(Params(bound), Param(name))
         == if name in bound then Ok(Str("v"), {}) else Ok(Param(name), {ParameterRef(name)})
  {
    var m := Param(name).fields;
    assert ShapeOf(m).TypeShape?;
    assert TypeNodeOf(m) == Known(ParameterRef(name));
  }

  const CALL: string := "$fn.f"
  const STUCK: set<Ref> := {InvocationRef("f", "fn: function not found")}

  function CallOn(x: Tree, y: Tree): Tree { Obj(map[CALL := List([x, y])]) }

  /** A call on two arguments without a function `f`: residual while an argument is open, stuck afterwards. */
  lemma CallEval(bound: set<string>, x: Tree, y: Tree)
    requires Full(Params(bound), x).Ok? && Full(Params(bound), y).Ok?
    ensures
      var env := Params(bound);
      var missing := Full(env, x).missing + Full(env, y).missing;
      Full(env, CallOn(x, y)) ==
        if missing == {} then Ok(CallOn(x, y), STUCK)
        else Ok(CallOn(Full(env, x).value, Full(env, y).value), missing)
  {
    hide Eval, ShapeOf;
    TwoItems(Params(bound), x, y);
    assert CALL[|FN|..] == "f";
    SingleCallShape(CALL, List([x, y]));
    EvalCallStep(Params(bound), map[CALL := List([x, y])], CALL, -1);
  }

  lemma {:induction false} AnswersText(bound: set<string>, t: Tree)
    ensures DataEnv(Params(bound), t)
  {
    hide Eval;
    match t
    case List(items) => forall i | 0 <= i < |items| { AnswersText(bound, items[i]); }
    case Obj(m) =>
      match ShapeOf(m) {
        case TypeShape =>
        case EncodingShape => if DATA in m { AnswersText(bound, m[DATA]); }
        case CallShape(key) => AnswersText(bound, m[key]);
        case PlainShape => forall k | k in m { AnswersText(bound, m[k]); }
      }
    case _ =>
  }

  /** The argument that the first stage rewrites is kept by the second stage, the original one is not. */
  lemma StagingCanChangeAStuckCall()
    ensures
      var env1, env2 := Params({"a"}), Params({"a", "b"});
      var t, t1 := CallOn(Param("a"), Param("b")), CallOn(Str("v"), Param("b"));
      && Extends(env1, env2) && DataEnv(env2, t)
      && Full(env1, t) == Ok(t1, {ParameterRef("b")})
      && Full(env2, t) == Ok(t, STUCK) && Full(env2, t1) == Ok(t1, STUCK) && t1 != t
  {
    var both := {"a", "b"};
    assert Full(Params(both), Str("v")) == Ok(Str("v"), {});
    AnswersText(both, CallOn(Param("a"), Param("b")));
    hide Eval, AnswersData, ShapeOf;
    ParamEval({"a"}, "a");
    ParamEval({"a"}, "b");
    ParamEval(both, "a");
    ParamEval(both, "b");
    CallEval({"a"}, Param("a"), Param("b"));
    CallEval(both, Param("a"), Param("b"));
    CallEval(both, Str("v"), Param("b"));
    assert CallOn(Str("v"), Param("b")).fields[CALL].items[0].Str?;
    assert CallOn(Param("a"), Param("b")).fields[CALL].items[0].Obj?;
  }

  lemma TwoItems(env: Env, x: Tree, y: Tree)
    requires Full(env, x).Ok? && Full(env, y).Ok?
    ensures Full(env, List([x, y]))
         == Ok(List([Full(env, x).value, Full(env, y).value]), Full(env, x).missing + Full(env, y).missing)
  {
    hide Eval;
    var t := List([x, y]);
    FullList(env, t);
    var os := EvalItems(env, t, -1);
    assert os == [Full(env, x), Full(env, y)];
    assert ListOutcome(os).value.items == [Full(env, x).value, Full(env, y).value];
    forall r ensures r in ListOutcome(os).missing <==> r in os[0].missing + os[1].missing {
      assert r in ListOutcome(os).missing <==> exists i :: 0 <= i < |os| && r in os[i].Unresolved();
    }
  }
}
