/** The evaluator as it runs: loops over lists and maps in any map order, extending lists of unresolvables. */
module Evaluator {
  import opened Trees
  import opened Semantics
  import opened Unresolvables

  datatype Step = Index(i: nat) | Key(k: string)

  datatype EvalError =
    | InvalidType
    | InvalidEncoding(inner: Option<EvalError>)
    | CallFailed
    | UnsupportedValue(goType: string)
    | PathError(step: Step, cause: EvalError)

  datatype Run = Failure(err: EvalError) | Done(value: Tree, u: Unresolvable)

  /** The error names a subtree that fails: the first one in a list, any one in a map. */
  ghost predicate Blames(env: Env, t: Tree, d: int, e: EvalError)
    decreases t
  {
    && Eval(env, t, d).Err?
    && match t
       case List(items) =>
         && e.PathError? && e.step.Index? && e.step.i < |items|
         && Blames(env, items[e.step.i], d - 1, e.cause)
         && forall j :: 0 <= j < e.step.i ==> Eval(env, items[j], d - 1).Ok?
       case Obj(m) =>
         (match ShapeOf(m)
          case TypeShape => e == TypeError(env, m)
          case EncodingShape =>
            && e.InvalidEncoding? && (e.inner.Some? <==> DATA in m && Eval(env, m[DATA], -1).Err?)
            && (e.inner.Some? ==> Blames(env, m[DATA], -1, e.inner.value))
          case CallShape(key) => if Eval(env, m[key], -1).Err? then Blames(env, m[key], -1, e) else e == CallError(env, key, Eval(env, m[key], -1).value)
          case PlainShape => e.PathError? && e.step.Key? && e.step.k in m && Blames(env, m[e.step.k], d - 1, e.cause))
       case Unsupported(ty) => e == UnsupportedValue(ty)
       case _ => false
  }

  /** A reference found to be a foreign value is refused for that; it fails otherwise only by itself. */
  ghost function TypeError(env: Env, m: map<string, Tree>): EvalError {
    if TypeNodeOf(m).Known? && env.resolve(TypeNodeOf(m).ref).Found? && env.resolve(TypeNodeOf(m).ref).value.Unsupported?
    then UnsupportedValue(env.resolve(TypeNodeOf(m).ref).value.goType)
    else InvalidType
  }

  ghost function CallError(env: Env, key: string, arg: Tree): EvalError
    requires IsCallKey(key)
  {
    var r := env.call(key[|FN|..], ArgsOf(arg));
    if r.Returned? && r.value.Unsupported? then UnsupportedValue(r.value.goType) else CallFailed
  }

  ghost predicate Answers(o: Outcome, run: Run)
    reads if run.Done? then {run.u} else {}
  {
    match run
    case Failure(_) => o.Err?
    case Done(v, u) => u.Valid() && o == Ok(v, u.All())
  }

  ghost function MissingBefore(os: seq<Outcome>, n: nat): set<Ref>
    requires n <= |os|
  {
    set i, r | 0 <= i < n && r in os[i].Unresolved() :: r
  }

  lemma NothingMissingYet(os: seq<Outcome>)
    ensures MissingBefore(os, 0) == {}
  {
  }

  lemma NothingMissingOn(os: map<string, Outcome>)
    ensures MissingOn(os, {}) == {}
  {
  }

  lemma MissingBeforeNext(os: seq<Outcome>, n: nat)
    requires n < |os|
    ensures MissingBefore(os, n + 1) == MissingBefore(os, n) + os[n].Unresolved()
  {
  }

  ghost function MissingOn(os: map<string, Outcome>, done: set<string>): set<Ref>
    requires done <= os.Keys
  {
    set k, r | k in done && r in os[k].Unresolved() :: r
  }

  lemma MissingOnNext(os: map<string, Outcome>, done: set<string>, k: string)
    requires done <= os.Keys && k in os
    ensures MissingOn(os, done + {k}) == MissingOn(os, done) + os[k].Unresolved()
  {
  }

  lemma ListDone(os: seq<Outcome>, vs: seq<Tree>)
    requires |vs| == |os| && forall i :: 0 <= i < |os| ==> os[i].Ok? && vs[i] == os[i].value
    ensures ListOutcome(os) == Ok(List(vs), MissingBefore(os, |os|))
  {
    assert ListOutcome(os).value.items == vs;
    assert ListOutcome(os).missing == MissingBefore(os, |os|);
  }

  lemma ObjDone(os: map<string, Outcome>, vs: map<string, Tree>)
    requires vs.Keys == os.Keys && forall k :: k in os ==> os[k].Ok? && vs[k] == os[k].value
    ensures ObjOutcome(os) == Ok(Obj(vs), MissingOn(os, os.Keys))
  {
    assert ObjOutcome(os).value.fields == vs;
    assert ObjOutcome(os).missing == MissingOn(os, os.Keys);
  }

  lemma BlameItem(env: Env, t: Tree, d: int, i: nat, e: EvalError)
    requires t.List? && d != 0 && d != 1 && i < |t.items| && Blames(env, t.items[i], d - 1, e)
    requires forall j :: 0 <= j < i ==> Eval(env, t.items[j], d - 1).Ok?
    ensures Blames(env, t, d, PathError(Index(i), e))
  {
    EvalListStep(env, t, d);
    assert EvalItems(env, t, d - 1)[i].Err?;
  }

  lemma BlameField(env: Env, t: Tree, d: int, k: string, e: EvalError)
    requires t.Obj? && ShapeOf(t.fields).PlainShape? && d != 0 && (d == 1 ==> |t.fields| == 1)
    requires k in t.fields && Blames(env, t.fields[k], d - 1, e)
    ensures Blames(env, t, d, PathError(Key(k), e))
  {
    EvalPlainStep(env, t, d);
    assert EvalFields(env, t, d - 1)[k].Err?;
  }

  method EvaluateList(env: Env, t: Tree, d: int) returns (run: Run)
    requires t.List? && d != 0 && d != 1
    ensures Answers(Eval(env, t, d), run)
    ensures run.Done? ==> fresh(run.u)
    ensures run.Failure? ==> Blames(env, t, d, run.err)
    decreases t, 0
  {
    hide Eval, EvalItems, ListOutcome, Blames, MissingBefore, Unresolvable.Valid, Unresolvable.All;
    EvalListStep(env, t, d);
    ghost var os := EvalItems(env, t, d - 1);
    assert MissingBefore(os, 0) == {} by { NothingMissingYet(os); }
    var u := new Unresolvable();
    var l := new Tree[|t.items|];
    for i := 0 to |t.items|
      invariant fresh(u) && fresh(l) && u.Valid()
      invariant forall j :: 0 <= j < i ==> os[j].Ok? && l[j] == os[j].value
      invariant u.All() == MissingBefore(os, i)
    {
      var nv := Evaluate(env, t.items[i], d - 1);
      if nv.Failure? {
        BlameItem(env, t, d, i, nv.err);
        return Failure(PathError(Index(i), nv.err));
      }
      u.Extend(nv.u);
      l[i] := nv.value;
      MissingBeforeNext(os, i);
    }
    ListDone(os, l[..]);
    return Done(List(l[..]), u);
  }

  method EvaluateMap(env: Env, t: Tree, d: int) returns (run: Run)
    requires t.Obj? && ShapeOf(t.fields).PlainShape? && d != 0 && (d == 1 ==> |t.fields| == 1)
    ensures Answers(Eval(env, t, d), run)
    ensures run.Done? ==> fresh(run.u)
    ensures run.Failure? ==> Blames(env, t, d, run.err)
    decreases t, 1
  {
    hide Eval, EvalFields, ObjOutcome, Blames, MissingOn, ShapeOf, Unresolvable.Valid, Unresolvable.All;
    EvalPlainStep(env, t, d);
    var failed, m, u := EvaluateFields(env, t, d - 1);
    if failed.Some? {
      BlameField(env, t, d, failed.value.0, failed.value.1);
      return Failure(PathError(Key(failed.value.0), failed.value.1));
    }
    ObjDone(EvalFields(env, t, d - 1), m);
    return Done(Obj(m), u);
  }

  /** The map loop: the keys come in any order, and the first failing one ends it. */
  method EvaluateFields(env: Env, t: Tree, d: int)
    returns (failed: Option<(string, EvalError)>, m: map<string, Tree>, u: Unresolvable)
    requires t.Obj?
    ensures failed.Some? ==> failed.value.0 in t.fields && Blames(env, t.fields[failed.value.0], d, failed.value.1)
    ensures failed.None? ==>
      var os := EvalFields(env, t, d);
      && fresh(u) && u.Valid() && m.Keys == os.Keys
      && (forall k :: k in os ==> os[k].Ok? && m[k] == os[k].value)
      && u.All() == MissingOn(os, os.Keys)
    decreases t, 0
  {
    hide Eval, EvalFields, Blames, MissingOn, Unresolvable.Valid, Unresolvable.All;
    ghost var os := EvalFields(env, t, d);
    assert MissingOn(os, {}) == {} by { NothingMissingOn(os); }
    u := new Unresolvable();
    m := map[];
    failed := None;
    var todo := t.fields.Keys;
    ghost var done: set<string> := {};
    while todo != {}
      invariant done == t.fields.Keys - todo && m.Keys == done && todo <= t.fields.Keys
      invariant fresh(u) && u.Valid()
      invariant forall k :: k in done ==> os[k].Ok? && m[k] == os[k].value
      invariant u.All() == MissingOn(os, done)
      decreases todo
    {
      var k :| k in todo;
      var nv := Evaluate(env, t.fields[k], d);
      if nv.Failure? { return Some((k, nv.err)), m, u; }
      MissingOnNext(os, done, k);
      u.Extend(nv.u);
      m := m[k := nv.value];
      todo, done := todo - {k}, done + {k};
    }
    assert done == os.Keys;
  }

  method EvaluateType(env: Env, m: map<string, Tree>) returns (run: Run)
    requires ShapeOf(m).TypeShape?
    ensures Answers(EvalType(env, m), run)
    ensures run.Done? ==> fresh(run.u)
    ensures run.Failure? ==> run.err == InvalidType
  {
    var node := TypeNodeOf(m);
    if node.Malformed? { return Failure(InvalidType); }
    var u := new Unresolvable();
    if node.UnknownType? { return Done(Obj(m), u); }
    var lookup := env.resolve(node.ref);
    if lookup.Broken? { return Failure(InvalidType); }
    if lookup.Found? { return Done(lookup.value, u); }
    var missing := new Unresolvable.Just(node.ref);
    return Done(Obj(m), missing);
  }

  lemma BlameEncoding(env: Env, t: Tree, d: int, inner: Option<EvalError>)
    requires t.Obj? && ShapeOf(t.fields).EncodingShape? && Eval(env, t, d).Err?
    requires inner.Some? ==> DATA in t.fields && Blames(env, t.fields[DATA], -1, inner.value)
    requires inner.None? ==> (DATA in t.fields ==> Eval(env, t.fields[DATA], -1).Ok?)
    ensures Blames(env, t, d, InvalidEncoding(inner))
  {
  }

  lemma BlameCall(env: Env, t: Tree, d: int, e: EvalError)
    requires t.Obj? && ShapeOf(t.fields).CallShape? && Eval(env, t, d).Err?
    requires
      var arg := t.fields[OnlyKey(t.fields)];
      if Eval(env, arg, -1).Err? then Blames(env, arg, -1, e) else e == CallError(env, OnlyKey(t.fields), Eval(env, arg, -1).value)
    ensures Blames(env, t, d, e)
  {
  }

  method EvaluateEncoding(env: Env, t: Tree, d: int) returns (run: Run)
    requires t.Obj? && ShapeOf(t.fields).EncodingShape? && t.fields[ENCODING].Str? && d != 0
    ensures Answers(Eval(env, t, d), run)
    ensures run.Done? ==> fresh(run.u)
    ensures run.Failure? ==> Blames(env, t, d, run.err)
    decreases t, 0
  {
    var m, ty := t.fields, t.fields[ENCODING].s;
    hide Eval, Blames, ShapeOf, Unresolvable.Valid, Unresolvable.All;
    EvalEncodingStep(env, m, d);
    var none := new Unresolvable();
    var dr := Done(Null, none);
    if DATA in m {
      dr := Evaluate(env, m[DATA], -1);
      if dr.Failure? {
        BlameEncoding(env, t, d, Some(dr.err));
        return Failure(InvalidEncoding(Some(dr.err)));
      }
    }
    run := FinishEncoding(env, ty, dr);
    if run.Failure? { BlameEncoding(env, t, d, None); }
  }

  method FinishEncoding(env: Env, ty: string, dr: Run) returns (run: Run)
    requires dr.Done? && dr.u.Valid()
    ensures Answers(DecodeOutcome(env, ty, Ok(dr.value, dr.u.All())), run)
    ensures run.Done? ==> fresh(run.u)
    ensures run.Failure? ==> run.err == InvalidEncoding(None)
  {
    hide Unresolvable.Valid, Unresolvable.All;
    var complete := dr.u.Complete();
    var u := new Unresolvable();
    if !complete {
      u.Extend(dr.u);
      return Done(Obj(map[ENCODING := Str(ty), DATA := dr.value]), u);
    }
    if !dr.value.Str? { return Failure(InvalidEncoding(None)); }
    var decoded := env.decode(ty, dr.value.s);
    if decoded.None? { return Failure(InvalidEncoding(None)); }
    return Done(Str(decoded.value), u);
  }

  method EvaluateInvocation(env: Env, t: Tree, d: int) returns (run: Run)
    requires t.Obj? && ShapeOf(t.fields).CallShape? && d != 0
    ensures Answers(Eval(env, t, d), run)
    ensures run.Done? ==> fresh(run.u)
    ensures run.Failure? ==> Blames(env, t, d, run.err)
    decreases t, 0
  {
    var m, key := t.fields, OnlyKey(t.fields);
    hide Eval, Blames, ShapeOf, Unresolvable.Valid, Unresolvable.All;
    EvalCallStep(env, m, key, d);
    var a := Evaluate(env, m[key], -1);
    if a.Failure? {
      BlameCall(env, t, d, a.err);
      return Failure(a.err);
    }
    run := FinishInvocation(env, key, m, a);
    if run.Failure? { BlameCall(env, t, d, run.err); }
  }

  method FinishInvocation(env: Env, key: string, m: map<string, Tree>, a: Run) returns (run: Run)
    requires IsCallKey(key) && a.Done? && a.u.Valid()
    ensures Answers(Check(CallOutcome(env, key, m, Ok(a.value, a.u.All()))), run)
    ensures run.Done? ==> fresh(run.u)
    ensures run.Failure? ==> run.err == CallError(env, key, a.value)
  {
    hide Unresolvable.Valid, Unresolvable.All;
    var complete := a.u.Complete();
    var u := new Unresolvable();
    if !complete {
      u.Extend(a.u);
      return Done(Obj(map[key := a.value]), u);
    }
    var name := key[|FN|..];
    var result := env.call(name, ArgsOf(a.value));
    if result.Unresolved? {
      var stuck := new Unresolvable.Just(InvocationRef(name, result.cause));
      return Done(Obj(m), stuck);
    }
    if result.Failed? { return Failure(CallFailed); }
    if result.value.Unsupported? { return Failure(UnsupportedValue(result.value.goType)); }
    return Done(result.value, u);
  }

  method Evaluate(env: Env, t: Tree, d: int) returns (run: Run)
    ensures Answers(Eval(env, t, d), run)
    ensures run.Done? ==> fresh(run.u)
    ensures run.Failure? ==> Blames(env, t, d, run.err)
    decreases t, 2
  {
    if t.List? && d != 0 && d != 1 {
      run := EvaluateList(env, t, d);
      return;
    }
    if t.Obj? && d != 0 {
      var shape := ShapeOf(t.fields);
      if shape.TypeShape? {
        run := EvaluateType(env, t.fields);
        if run.Done? && run.value.Unsupported? { run := Failure(UnsupportedValue(run.value.goType)); }
        return;
      }
      if shape.EncodingShape? && t.fields[ENCODING].Str? {
        run := EvaluateEncoding(env, t, d);
        return;
      }
      if shape.CallShape? {
        run := EvaluateInvocation(env, t, d);
        return;
      }
      if shape.PlainShape? && (d != 1 || |t.fields| == 1) {
        run := EvaluateMap(env, t, d);
        return;
      }
    }
    if t.Unsupported? { return Failure(UnsupportedValue(t.goType)); }
    var u := new Unresolvable();
    return Done(t, u);
  }

  /** Whatever order two runs go through their maps in, they agree on the value and on every list of unresolvables. */
  lemma OrderIndependent(env: Env, t: Tree, d: int, run: Run, run': Run, c: Category)
    requires Answers(Eval(env, t, d), run) && Answers(Eval(env, t, d), run')
    ensures run.Done? <==> run'.Done?
    ensures run.Done? ==>
      && run.value == run'.value
      && multiset(ListOf(run.u, c)) == multiset(ListOf(run'.u, c))
      && (c != DataList && c != AnswerList ==> ListOf(run.u, c) == ListOf(run'.u, c))
      && (c == AnswerList && OneAnswerEach(ListOf(run.u, c)) ==> ListOf(run.u, c) == ListOf(run'.u, c))
  {
    hide Eval, Unresolvable.Valid, Unresolvable.All, ListOf;
    if run.Done? { ListsAreCanonical(run.u, run'.u, c); }
  }
}
