/** The verdict on a step's condition (pkg/metadataapi/server/api/conditions.go), and when polling for it may stop. */
module Conditions {
  import opened Trees
  import opened Semantics
  import opened Staging

  datatype Verdict = Success | Failure | TypeError | Unresolvable | EvaluationError

  /** The first index that ends the scan of a list: a false, or a non-boolean in a complete result. */
  ghost predicate Stops(items: seq<Tree>, complete: bool, i: nat) {
    && i < |items|
    && (items[i] == Bool(false) || (complete && !items[i].Bool?))
    && forall j :: 0 <= j < i ==> items[j] != Bool(false) && (complete ==> items[j].Bool?)
  }

  ghost predicate IsVerdict(o: Outcome, v: Verdict) {
    match o
    case Err => v == EvaluationError
    case Ok(Bool(b), missing) => v == if !b then Failure else if missing == {} then Success else Unresolvable
    case Ok(List(items), missing) =>
      var complete := missing == {};
      if exists i: nat :: Stops(items, complete, i)
      then forall i: nat :: Stops(items, complete, i) ==> v == if items[i].Bool? then Failure else TypeError
      else v == if complete then Success else Unresolvable
    case _ => v == TypeError
  }

  /** The verdict of GetConditions on an evaluated condition. */
  method GetConditions(env: Env, tree: Tree) returns (v: Verdict)
    ensures IsVerdict(Full(env, tree), v)
  {
    hide Eval;
    var rv := Eval(env, tree, -1);
    if rv.Err? { return EvaluationError; }
    var failed := false;
    match rv.value {
      case Bool(b) => failed := !b;
      case List(items) =>
        for i := 0 to |items|
          invariant !failed
          invariant forall j :: 0 <= j < i ==> items[j] != Bool(false) && (rv.missing == {} ==> items[j].Bool?)
        {
          if !items[i].Bool? {
            if rv.missing == {} {
              assert Stops(items, true, i);
              return TypeError;
            }
          } else if !items[i].b {
            assert Stops(items, rv.missing == {}, i);
            failed := true;
            break;
          }
        }
      case _ => return TypeError;
    }
    if failed { return Failure; }
    return if rv.missing == {} then Success else Unresolvable;
  }

  lemma SuccessMeansAllTrue(o: Outcome, v: Verdict)
    requires IsVerdict(o, v)
    ensures v == Success <==>
      o.Complete() &&
      (o.value == Bool(true) || (o.value.List? && forall i :: 0 <= i < |o.value.items| ==> o.value.items[i] == Bool(true)))
  {
    if o.Ok? && o.value.List? && o.missing == {} {
      var items := o.value.items;
      if i :| 0 <= i < |items| && items[i] != Bool(true) {
        var j := FirstStop(items, i);
      }
    }
  }

  lemma FirstStop(items: seq<Tree>, i: nat) returns (j: nat)
    requires i < |items| && items[i] != Bool(true)
    ensures Stops(items, true, j)
    decreases i
  {
    if k :| 0 <= k < i && items[k] != Bool(true) {
      j := FirstStop(items, k);
    } else {
      j := i;
    }
  }

  /** An incomplete value is composite, and only an incomplete list evaluates to one. */
  lemma IncompleteShape(env: Env, t: Tree)
    requires Full(env, t).Ok? && Full(env, t).missing != {}
    ensures t.List? ==> Full(env, t).value.List?
    ensures !t.List? ==> Full(env, t).value.Obj?
  {
  }

  /** Once a success, always a success; once a failure, never a success. */
  lemma VerdictsAreFinal(env1: Env, env2: Env, t: Tree, v1: Verdict, v2: Verdict)
    requires Extends(env1, env2) && IsVerdict(Full(env1, t), v1) && IsVerdict(Full(env2, t), v2)
    ensures v1 == Success ==> v2 == Success
    ensures v1 == Failure ==> v2 != Success
  {
    CompleteIsStable(env1, env2, t);
    if Full(env1, t).Ok? && Full(env1, t).missing != {} {
      IncompleteShape(env1, t);
      hide Eval;
      if v1 == Failure {
        FalseStays(env1, env2, t);
      }
      SuccessMeansAllTrue(Full(env2, t), v2);
    } else {
      hide Eval;
      SuccessMeansAllTrue(Full(env1, t), v1);
      SuccessMeansAllTrue(Full(env2, t), v2);
    }
  }

  lemma FalseStays(env1: Env, env2: Env, t: Tree)
    requires Extends(env1, env2) && t.List? && Full(env1, t).Ok?
    requires exists i :: 0 <= i < |Full(env1, t).value.items| && Full(env1, t).value.items[i] == Bool(false)
    ensures Full(env2, t).Ok? ==> exists i :: 0 <= i < |Full(env2, t).value.items| && Full(env2, t).value.items[i] == Bool(false)
  {
    ItemsOk(env1, t);
    var i :| 0 <= i < |t.items| && Full(env1, t).value.items[i] == Bool(false);
    var x := t.items[i];
    if Full(env1, x).missing != {} { IncompleteShape(env1, x); }
    hide Eval;
    CompleteIsStable(env1, env2, x);
    if Full(env2, t).Ok? {
      ItemsOk(env2, t);
      assert Full(env2, t).value.items[i] == Bool(false);
    }
  }

  lemma ExtendsTransitive(env1: Env, env2: Env, env3: Env)
    requires Extends(env1, env2) && Extends(env2, env3)
    ensures Extends(env1, env3)
  {
    forall r ensures env1.resolve(r) == Missing || env3.resolve(r) == env1.resolve(r) {
      assert env1.resolve(r) == Missing || env2.resolve(r) == env1.resolve(r);
    }
    forall f, a ensures env1.call(f, a).Unresolved? || env3.call(f, a) == env1.call(f, a) {
      assert env1.call(f, a).Unresolved? || env2.call(f, a) == env1.call(f, a);
    }
  }

  lemma {:induction false} Grows(envs: seq<Env>, i: nat, j: nat)
    requires forall n :: 0 <= n < |envs| - 1 ==> Extends(envs[n], envs[n + 1])
    requires i <= j < |envs|
    ensures Extends(envs[i], envs[j])
    decreases j - i
  {
    if i < j {
      Grows(envs, i, j - 1);
      assert Extends(envs[j - 1], envs[j - 1 + 1]);
      ExtendsTransitive(envs[i], envs[j - 1], envs[j]);
    }
  }

  /** However the environment grows between polls, stopping at the first verdict loses nothing. */
  lemma PollingMayStop(envs: seq<Env>, t: Tree, vs: seq<Verdict>, i: nat, j: nat)
    requires forall n :: 0 <= n < |envs| - 1 ==> Extends(envs[n], envs[n + 1])
    requires |vs| == |envs| && forall n :: 0 <= n < |envs| ==> IsVerdict(Full(envs[n], t), vs[n])
    requires i <= j < |envs|
    ensures vs[i] == Success ==> vs[j] == Success
    ensures vs[i] == Failure ==> vs[j] != Success
  {
    hide Eval, IsVerdict;
    Grows(envs, i, j);
    VerdictsAreFinal(envs[i], envs[j], t, vs[i], vs[j]);
  }

  /** The operator may evaluate the condition first: the verdict on what it stores is the verdict on the condition. */
  lemma StagedVerdict(env1: Env, env2: Env, t: Tree, v: Verdict)
    requires Extends(env1, env2) && DataEnv(env2, t) && Full(env1, t).Ok?
    requires IsVerdict(Full(env2, t), v)
    ensures IsVerdict(Full(env2, Full(env1, t).value), v)
  {
    hide Eval, Stops, NoStaleCall;
    var t1 := Full(env1, t).value;
    StagedEvaluation(env1, env2, t, -1);
    if Full(env2, t).Ok? && Full(env2, t).missing != {} {
      IncompleteShape(env2, t);
      IncompleteShape(env2, t1);
      if Full(env1, t).missing == {} {
        CompleteIsStable(env1, env2, t);
      } else {
        IncompleteShape(env1, t);
        if t.List? {
          StagedItems(env1, env2, t);
          ScansAgree(Full(env2, t), Full(env2, t1), v);
        }
      }
    }
  }

  lemma ScansAgree(o: Outcome, o': Outcome, v: Verdict)
    requires o.Ok? && o'.Ok? && o.missing == o'.missing && o.value.List? && o'.value.List?
    requires SameScan(o'.value.items, o.value.items)
    requires IsVerdict(o, v)
    ensures IsVerdict(o', v)
  {
    var items, items', complete := o.value.items, o'.value.items, o.missing == {};
    forall i: nat | Stops(items, complete, i) ensures Stops(items', complete, i) {}
    forall i: nat | Stops(items', complete, i) ensures Stops(items, complete, i) {}
  }

  predicate SameScan(items: seq<Tree>, items': seq<Tree>) {
    && |items| == |items'|
    && forall i :: 0 <= i < |items| ==> items[i] == items'[i] || (!items[i].Bool? && !items'[i].Bool?)
  }

  lemma StagedItems(env1: Env, env2: Env, t: Tree)
    requires Extends(env1, env2) && DataEnv(env2, t) && t.List? && Full(env1, t).Ok? && Full(env2, t).Ok?
    requires Full(env1, t).value.List? && Full(env2, Full(env1, t).value).Ok?
    ensures Full(env2, t).value.List? && Full(env2, Full(env1, t).value).value.List?
    ensures SameScan(Full(env2, Full(env1, t).value).value.items, Full(env2, t).value.items)
  {
    hide Eval;
    var t1 := Full(env1, t).value;
    ItemsOk(env1, t);
    ItemsOk(env2, t);
    ItemsOk(env2, t1);
    forall i | 0 <= i < |t.items|
      ensures Full(env2, t1.items[i]).value == Full(env2, t.items[i]).value
           || (!Full(env2, t1.items[i]).value.Bool? && !Full(env2, t.items[i]).value.Bool?)
    {
      StagedEvaluation(env1, env2, t.items[i], -1);
      if Full(env2, t.items[i]).missing != {} {
        IncompleteShape(env2, t.items[i]);
        IncompleteShape(env2, t1.items[i]);
      }
    }
  }

  /** The verdict on everything but a list. */
  lemma VerdictOnValue(o: Outcome, v: Verdict)
    requires IsVerdict(o, v)
    ensures o.Err? ==> v == EvaluationError
    ensures o.Ok? && o.value == Bool(false) ==> v == Failure
    ensures o.Ok? && o.value == Bool(true) ==> v == if o.missing == {} then Success else Unresolvable
    ensures o.Ok? && !o.value.Bool? && !o.value.List? ==> v == TypeError
  {
  }

  /** In a complete list the first item that is not true decides: false is a failure, anything else a type error. */
  lemma VerdictOnCompleteList(o: Outcome, v: Verdict, i: nat)
    requires IsVerdict(o, v) && o.Complete() && o.value.List?
    ensures (forall j :: 0 <= j < |o.value.items| ==> o.value.items[j] == Bool(true)) ==> v == Success
    ensures i < |o.value.items| && o.value.items[i] != Bool(true) && (forall j :: 0 <= j < i ==> o.value.items[j] == Bool(true)) ==>
      v == if o.value.items[i] == Bool(false) then Failure else TypeError
  {
    var items := o.value.items;
    if i < |items| && items[i] != Bool(true) && forall j :: 0 <= j < i ==> items[j] == Bool(true) {
      assert Stops(items, true, i);
    }
  }

  /** In an incomplete one a false is a failure, and all else is still open: nothing in it is a type error. */
  lemma VerdictOnOpenList(o: Outcome, v: Verdict)
    requires IsVerdict(o, v) && o.Ok? && o.missing != {} && o.value.List?
    ensures v == if exists j :: 0 <= j < |o.value.items| && o.value.items[j] == Bool(false) then Failure else Unresolvable
  {
    var items := o.value.items;
    if j :| 0 <= j < |items| && items[j] == Bool(false) {
      var k := FirstFalse(items, j);
    }
  }

  lemma FirstFalse(items: seq<Tree>, i: nat) returns (k: nat)
    requires i < |items| && items[i] == Bool(false)
    ensures Stops(items, false, k)
    decreases i
  {
    if j :| 0 <= j < i && items[j] == Bool(false) { k := FirstFalse(items, j); } else { k := i; }
  }
}
