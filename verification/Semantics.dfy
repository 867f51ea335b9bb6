/**
  What evaluation means: the case analysis of `evaluate` (pkg/expr/evaluate/evaluate.go) as a function
  of a tree and an environment. The references that stay unresolved form a set here; the lists that
  the evaluator really keeps are the subject of Unresolvables and Evaluator.
 */
module Semantics {
  import opened Trees

  /** A resolver finds a value, does not know the reference, or fails. */
  datatype Lookup = Found(value: Tree) | Missing | Broken

  datatype Args = Positional(args: seq<Tree>) | Keyword(kwargs: map<string, Tree>)

  datatype CallResult = Unresolved(cause: string) | Failed | Returned(value: Tree)

  /** What a stage of evaluation can look up, call and decode. */
  datatype Env = Env(
    resolve: Ref -> Lookup,
    call: (string, Args) -> CallResult,
    decode: (string, string) -> Option<string>)

  datatype Outcome = Err | Ok(value: Tree, missing: set<Ref>)
  {
    predicate Complete() { Ok? && missing == {} }
    function Value(): Tree { if Ok? then value else Null }
    function Unresolved(): set<Ref> { if Ok? then missing else {} }
  }

  function Check(o: Outcome): Outcome {
    if o.Ok? && o.value.Unsupported? then Err else o
  }

  function ListOutcome(os: seq<Outcome>): (r: Outcome)
    ensures r.Ok? ==> r.value.List? && |r.value.items| == |os|
  {
    if exists i :: 0 <= i < |os| && os[i].Err? then Err
    else Ok(List(seq(|os|, i requires 0 <= i < |os| => os[i].Value())),
            set i, r | 0 <= i < |os| && r in os[i].Unresolved() :: r)
  }

  function ObjOutcome(os: map<string, Outcome>): (r: Outcome)
    ensures r.Ok? ==> r.value.Obj? && r.value.fields.Keys == os.Keys
  {
    if exists k :: k in os && os[k].Err? then Err
    else Ok(Obj(map k | k in os :: os[k].Value()),
            set k, r | k in os && r in os[k].Unresolved() :: r)
  }

  function EvalType(env: Env, m: map<string, Tree>): Outcome {
    match TypeNodeOf(m)
    case UnknownType => Ok(Obj(m), {})
    case Malformed => Err
    case Known(ref) =>
      match env.resolve(ref)
      case Found(v) => Ok(v, {})
      case Missing => Ok(Obj(m), {ref})
      case Broken => Err
  }

  function DecodeOutcome(env: Env, ty: string, data: Outcome): Outcome {
    if data.Err? then Err
    else if data.missing != {} then Ok(Obj(map[ENCODING := Str(ty), DATA := data.value]), data.missing)
    else match data.value
      case Str(s) =>
        (match env.decode(ty, s)
         case Some(decoded) => Ok(Str(decoded), {})
         case None => Err)
      case _ => Err
  }

  function ArgsOf(v: Tree): Args {
    match v
    case List(items) => Positional(items)
    case Obj(fields) => Keyword(fields)
    case _ => Positional([v])
  }

  function CallOutcome(env: Env, key: string, m: map<string, Tree>, a: Outcome): Outcome
    requires IsCallKey(key)
  {
    if a.Err? then Err
    else if a.missing != {} then Ok(Obj(map[key := a.value]), a.missing)
    else match env.call(key[|FN|..], ArgsOf(a.value))
      case Unresolved(cause) => Ok(Obj(m), {InvocationRef(key[|FN|..], cause)})
      case Failed => Err
      case Returned(v) => Ok(v, {})
  }

  function EvalItems(env: Env, t: Tree, d: int): (os: seq<Outcome>)
    requires t.List?
    ensures |os| == |t.items|
    ensures forall i :: 0 <= i < |os| ==> os[i] == Eval(env, t.items[i], d)
    decreases t, 0
  {
    seq(|t.items|, i requires 0 <= i < |t.items| => Eval(env, t.items[i], d))
  }

  function EvalFields(env: Env, t: Tree, d: int): (os: map<string, Outcome>)
    requires t.Obj?
    ensures os.Keys == t.fields.Keys
    ensures forall k :: k in os ==> os[k] == Eval(env, t.fields[k], d)
    decreases t, 0
  {
    map k | k in t.fields :: Eval(env, t.fields[k], d)
  }

  /** `evaluate` to depth `d`: the case analysis of `evaluateUnchecked` under the final type check. */
  function Eval(env: Env, t: Tree, d: int): Outcome
    decreases t, 1
  {
    Check(
      if d == 0 then Ok(t, {})
      else match t
        case List(_) =>
          if d == 1 then Ok(t, {}) else ListOutcome(EvalItems(env, t, d - 1))
        case Obj(m) =>
          (match ShapeOf(m)
           case TypeShape => EvalType(env, m)
           case EncodingShape =>
             (match m[ENCODING]
              case Str(ty) => DecodeOutcome(env, ty, if DATA in m then Eval(env, m[DATA], -1) else Ok(Null, {}))
              case _ => Ok(t, {}))
           case CallShape(key) => CallOutcome(env, key, m, Eval(env, m[key], -1))
           case PlainShape =>
             if d == 1 && |m| != 1 then Ok(t, {}) else ObjOutcome(EvalFields(env, t, d - 1)))
        case _ => Ok(t, {}))
  }

  /** Evaluating to any depth. */
  function Full(env: Env, t: Tree): Outcome { Eval(env, t, -1) }

  // ---- the cases of `Eval`, one at a time ----

  lemma EvalListStep(env: Env, t: Tree, d: int)
    requires t.List? && d != 0 && d != 1
    ensures Eval(env, t, d) == ListOutcome(EvalItems(env, t, d - 1))
  {
  }

  lemma EvalPlainStep(env: Env, t: Tree, d: int)
    requires t.Obj? && ShapeOf(t.fields).PlainShape? && d != 0 && (d == 1 ==> |t.fields| == 1)
    ensures Eval(env, t, d) == ObjOutcome(EvalFields(env, t, d - 1))
  {
  }

  lemma EvalEncodingStep(env: Env, m: map<string, Tree>, d: int)
    requires ShapeOf(m).EncodingShape? && m[ENCODING].Str? && d != 0
    ensures Eval(env, Obj(m), d)
         == DecodeOutcome(env, m[ENCODING].s, if DATA in m then Full(env, m[DATA]) else Ok(Null, {}))
  {
  }

  lemma EvalCallStep(env: Env, m: map<string, Tree>, key: string, d: int)
    requires ShapeOf(m) == CallShape(key) && d != 0
    ensures Eval(env, Obj(m), d) == Check(CallOutcome(env, key, m, Full(env, m[key])))
  {
  }
}
