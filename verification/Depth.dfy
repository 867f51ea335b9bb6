/** Depth limits (evaluateUnchecked in pkg/expr/evaluate/evaluate.go). */
module Depth {
  import opened Trees
  import opened Semantics
  import opened Staging

  /** The tree has at most `h` levels, counting a leaf as one. */
  predicate Fits(t: Tree, h: nat)
    decreases t
  {
    h > 0 &&
    match t
    case List(items) => forall i :: 0 <= i < |items| ==> Fits(items[i], h - 1)
    case Obj(m) => forall k :: k in m ==> Fits(m[k], h - 1)
    case _ => true
  }

  /** A depth limit of at least the height of the tree is no limit. */
  lemma {:induction false} EnoughDepthIsFull(env: Env, t: Tree, d: nat)
    requires Fits(t, d)
    ensures Eval(env, t, d) == Full(env, t)
    decreases t
  {
    match t
    case List(items) =>
      if d == 1 {
        assert 0 < |items| ==> Fits(items[0], 0);
        FullList(env, t);
        hide Eval;
        assert ListOutcome(EvalItems(env, t, -1)).missing == {};
      } else {
        forall i | 0 <= i < |items| { EnoughDepthIsFull(env, items[i], d - 1); }
        FullList(env, t);
        EvalListStep(env, t, d);
        hide Eval;
        assert EvalItems(env, t, d - 1) == EvalItems(env, t, -1);
      }
    case Obj(m) =>
      if ShapeOf(m).PlainShape? {
        if d == 1 {
          assert forall k :: k in m ==> Fits(m[k], 0);
          assert m.Keys == {};
          FullPlain(env, t);
          hide Eval;
          assert ObjOutcome(EvalFields(env, t, -1)) == Ok(t, {});
        } else {
          forall k | k in m { EnoughDepthIsFull(env, m[k], d - 1); }
          FullPlain(env, t);
          EvalPlainStep(env, t, d);
          hide Eval;
          assert EvalFields(env, t, d - 1) == EvalFields(env, t, -1);
        }
      }
    case _ =>
  }

  /** Looking less deeply never finds an error or a missing reference that a full evaluation does not find. */
  lemma {:induction false} ShallowFindsLess(env: Env, t: Tree, d: int)
    ensures Full(env, t).Ok? ==> Eval(env, t, d).Ok? && Eval(env, t, d).missing <= Full(env, t).missing
    decreases t
  {
    if d != 0 {
      match t
      case List(items) =>
        if d != 1 {
          forall i | 0 <= i < |items| { ShallowFindsLess(env, items[i], d - 1); }
          EvalListStep(env, t, d);
          FullList(env, t);
          hide Eval;
          FewerInList(EvalItems(env, t, d - 1), EvalItems(env, t, -1));
        }
      case Obj(m) =>
        if ShapeOf(m).PlainShape? && (d == 1 ==> |m| == 1) {
          forall k | k in m { ShallowFindsLess(env, m[k], d - 1); }
          EvalPlainStep(env, t, d);
          FullPlain(env, t);
          hide Eval;
          FewerInObj(EvalFields(env, t, d - 1), EvalFields(env, t, -1));
        }
      case _ =>
    }
  }

  predicate Fewer(o: Outcome, full: Outcome) {
    full.Ok? ==> o.Ok? && o.missing <= full.missing
  }

  lemma FewerInList(os: seq<Outcome>, full: seq<Outcome>)
    requires |os| == |full| && forall i :: 0 <= i < |os| ==> Fewer(os[i], full[i])
    ensures Fewer(ListOutcome(os), ListOutcome(full))
  {
    if ListOutcome(full).Ok? {
      forall r | r in ListOutcome(os).missing ensures r in ListOutcome(full).missing {
        var i :| 0 <= i < |os| && r in os[i].Unresolved();
        assert r in full[i].Unresolved();
      }
    }
  }

  lemma FewerInObj(os: map<string, Outcome>, full: map<string, Outcome>)
    requires os.Keys == full.Keys && forall k :: k in os ==> Fewer(os[k], full[k])
    ensures Fewer(ObjOutcome(os), ObjOutcome(full))
  {
    if ObjOutcome(full).Ok? {
      forall r | r in ObjOutcome(os).missing ensures r in ObjOutcome(full).missing {
        var k :| k in os && r in os[k].Unresolved();
        assert r in full[k].Unresolved();
      }
    }
  }
}
