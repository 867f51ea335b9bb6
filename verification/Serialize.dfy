/** Writing trees as JSON and reading them back (pkg/expr/serialize/json.go, pkg/expr/evaluate/resultmapper.go). */
module Serialize {
  import opened Trees
  import opened Semantics
  import opened Staging

  /** The JSON text format, as a printer and a parser. */
  datatype TextFormat = TextFormat(render: Tree -> string, parse: string -> Option<Tree>)

  /** What a JSON document can hold: no times, no foreign values, and only text in its strings and keys. */
  predicate Jsonable(mp: Mapper, t: Tree) {
    match t
    case Str(s) => mp.isText(s)
    case List(items) => forall i :: 0 <= i < |items| ==> Jsonable(mp, items[i])
    case Obj(m) => forall k :: k in m ==> mp.isText(k) && Jsonable(mp, m[k])
    case Time(_) => false
    case Unsupported(_) => false
    case _ => true
  }

  /** A tree whose only obstacle to being written as JSON is bytes in its strings. */
  predicate JsonShaped(mp: Mapper, t: Tree) {
    match t
    case List(items) => forall i :: 0 <= i < |items| ==> JsonShaped(mp, items[i])
    case Obj(m) => forall k :: k in m ==> mp.isText(k) && JsonShaped(mp, m[k])
    case Time(_) => false
    case Unsupported(_) => false
    case _ => true
  }

  /** The text format keeps documents, and what the mapper writes is text. */
  ghost predicate RoundTrips(mp: Mapper, txt: TextFormat) {
    && (forall t :: Jsonable(mp, t) ==> txt.parse(txt.render(t)) == Some(t))
    && (forall s :: mp.isText(mp.encode(s)))
    && mp.isText(BASE64) && mp.isText(ENCODING) && mp.isText(DATA)
  }

  /** An evaluator with no resolvers and no functions. */
  function Bare(decode: (string, string) -> Option<string>): Env {
    Env(r => Missing, (f, a) => Unresolved("fn: function not found"), decode)
  }

  function MarshalJSON(mp: Mapper, txt: TextFormat, decode: (string, string) -> Option<string>, t: Tree): Option<string> {
    match Full(Bare(decode), t)
    case Err => None
    case Ok(v, _) => Some(txt.render(Safe(mp, v)))
  }

  function UnmarshalJSON(txt: TextFormat, s: string): Option<Tree> { txt.parse(s) }

  lemma {:induction false} JsonableParts(mp: Mapper, t: Tree)
    requires Jsonable(mp, t)
    ensures AllText(mp, t) && JsonShaped(mp, t)
  {
    match t
    case List(items) => forall i | 0 <= i < |items| { JsonableParts(mp, items[i]); }
    case Obj(m) => forall k | k in m { JsonableParts(mp, m[k]); }
    case _ =>
  }

  lemma {:induction false} SafeIsJsonable(mp: Mapper, txt: TextFormat, t: Tree)
    requires JsonShaped(mp, t) && RoundTrips(mp, txt)
    ensures Jsonable(mp, Safe(mp, t))
  {
    match t
    case List(items) => forall i | 0 <= i < |items| { SafeIsJsonable(mp, txt, items[i]); }
    case Obj(m) => forall k | k in m { SafeIsJsonable(mp, txt, m[k]); }
    case _ =>
  }

  lemma JsonList(mp: Mapper, env: Env, t: Tree)
    requires t.List? && forall i :: 0 <= i < |t.items| ==> Full(env, t.items[i]).Ok? ==> JsonShaped(mp, Full(env, t.items[i]).value)
    ensures Full(env, t).Ok? ==> JsonShaped(mp, Full(env, t).value)
  {
    hide Eval;
    if Full(env, t).Ok? { ItemsOk(env, t); }
  }

  lemma JsonPlain(mp: Mapper, env: Env, t: Tree)
    requires t.Obj? && ShapeOf(t.fields).PlainShape? && JsonShaped(mp, t)
    requires forall k :: k in t.fields ==> Full(env, t.fields[k]).Ok? ==> JsonShaped(mp, Full(env, t.fields[k]).value)
    ensures Full(env, t).Ok? ==> JsonShaped(mp, Full(env, t).value)
  {
    hide Eval;
    if Full(env, t).Ok? { FieldsOk(env, t); }
  }

  lemma {:induction false} BareKeepsJson(mp: Mapper, decode: (string, string) -> Option<string>, t: Tree)
    requires JsonShaped(mp, t) && mp.isText(ENCODING) && mp.isText(DATA)
    ensures Full(Bare(decode), t).Ok? ==> JsonShaped(mp, Full(Bare(decode), t).value)
  {
    var env := Bare(decode);
    match t
    case List(items) =>
      forall i | 0 <= i < |items| { BareKeepsJson(mp, decode, items[i]); }
      JsonList(mp, env, t);
    case Obj(m) =>
      match ShapeOf(m) {
        case PlainShape =>
          forall k | k in m { BareKeepsJson(mp, decode, m[k]); }
          JsonPlain(mp, env, t);
        case EncodingShape => if DATA in m { BareKeepsJson(mp, decode, m[DATA]); }
        case CallShape(key) => BareKeepsJson(mp, decode, m[key]);
        case TypeShape =>
      }
    case _ =>
  }

  /** Reading back what MarshalJSON wrote gives a document that means the same in every environment. */
  lemma SerializationPreservesMeaning(mp: Mapper, txt: TextFormat, env: Env, t: Tree)
    requires Jsonable(mp, t) && RoundTrips(mp, txt) && Inverts(mp, env) && AnswersData(mp, env, t)
    ensures MarshalJSON(mp, txt, env.decode, t).None? ==> Full(env, t).Err?
    ensures MarshalJSON(mp, txt, env.decode, t).Some? ==>
      var t' := UnmarshalJSON(txt, MarshalJSON(mp, txt, env.decode, t).value);
      && t'.Some?
      && Agree(Full(env, t'.value), Full(env, t), NoStaleCall(mp, Bare(env.decode), env, t, -1))
  {
    hide Eval;
    var bare := Bare(env.decode);
    assert Extends(bare, env);
    JsonableParts(mp, t);
    FailureIsStable(bare, env, t);
    if Full(bare, t).Ok? {
      BareKeepsJson(mp, env.decode, t);
      SafeIsJsonable(mp, txt, Full(bare, t).value);
      ResidualAgrees(mp, bare, env, t, -1);
    }
  }
}
