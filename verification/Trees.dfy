/**
  The values that the expression language works on: decoded JSON or YAML trees, and the
  shapes inside them that the evaluator treats as expressions.
 */
module Trees {

  datatype Option<+T> = None | Some(value: T)
  {
    function GetOr(default: T): T { if Some? then value else default }
  }

  /**
   * A number is `mantissa` times two to the `exponent`, as a float64 or an integer holds it.
   * `Unsupported` stands for a Go value outside the set that the evaluator accepts, such as map[string]string.
   */
  datatype Tree =
    | Null
    | Bool(b: bool)
    | Num(mantissa: int, exponent: int)
    | Str(s: string)
    | Time(t: int)
    | List(items: seq<Tree>)
    | Obj(fields: map<string, Tree>)
    | Unsupported(goType: string)

  /** What an evaluation can report as unresolvable. */
  datatype Ref =
    | DataRef(query: string)
    | SecretRef(name: string)
    | ConnectionRef(kind: string, name: string)
    | OutputRef(from: string, name: string)
    | ParameterRef(name: string)
    | AnswerRef(askRef: string, name: string)
    | InvocationRef(name: string, cause: string)

  const TYPE: string := "$type"
  const ENCODING: string := "$encoding"
  const DATA: string := "data"
  const FN: string := "$fn."

  function Field(m: map<string, Tree>, k: string): Tree {
    if k in m then m[k] else Null
  }

  predicate HasPrefix(s: string, prefix: string) {
    |prefix| <= |s| && s[..|prefix|] == prefix
  }

  predicate IsCallKey(k: string) {
    HasPrefix(k, FN)
  }

  /** How the evaluator dispatches on an object (evaluateUnchecked, map case). */
  datatype Shape = TypeShape | EncodingShape | CallShape(key: string) | PlainShape

  /** The only key of a one-entry map. */
  function OnlyKey<V>(m: map<string, V>): (k: string)
    requires |m| == 1
    ensures m.Keys == {k}
  {
    assert |m.Keys| == 1;
    OneElement(m.Keys);
    var k :| k in m.Keys;
    k
  }

  lemma OneElement<T>(s: set<T>)
    requires |s| == 1
    ensures exists x :: s == {x}
    ensures forall x, y :: x in s && y in s ==> x == y
    ensures forall x | x in s :: s == {x}
  {
    var x :| x in s;
    assert |s - {x}| == 0;
    assert s == {x};
  }

  function ShapeOf(m: map<string, Tree>): Shape {
    if TYPE in m then TypeShape
    else if ENCODING in m then EncodingShape
    else if |m| == 1 && IsCallKey(OnlyKey(m)) then CallShape(OnlyKey(m))
    else PlainShape
  }

  /** The references that `evaluateType` understands; anything else is left alone. */
  datatype TypeNode = Known(ref: Ref) | Malformed | UnknownType

  function Named1(m: map<string, Tree>, k: string, mk: string -> Ref): TypeNode {
    match Field(m, k)
    case Str(s) => Known(mk(s))
    case _ => Malformed
  }

  function Named2(m: map<string, Tree>, k1: string, k2: string, mk: (string, string) -> Ref): TypeNode {
    match (Field(m, k1), Field(m, k2))
    case (Str(a), Str(b)) => Known(mk(a, b))
    case _ => Malformed
  }

  function TypeNodeOf(m: map<string, Tree>): TypeNode
  {
    match Field(m, TYPE)
    case Str(ty) =>
      if ty == "Data" then Named1(m, "query", q => DataRef(q))
      else if ty == "Secret" then Named1(m, "name", n => SecretRef(n))
      else if ty == "Connection" then Named2(m, "type", "name", (t, n) => ConnectionRef(t, n))
      else if ty == "Output" then
        // "taskName" is the older spelling of "from".
        Named2(m, if Field(m, "from").Str? then "from" else "taskName", "name", (f, n) => OutputRef(f, n))
      else if ty == "Parameter" then Named1(m, "name", n => ParameterRef(n))
      else if ty == "Answer" then Named2(m, "askRef", "name", (a, n) => AnswerRef(a, n))
      else UnknownType
    case _ => UnknownType
  }
}
