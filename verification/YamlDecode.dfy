/**
 * What the decoder makes of a desugared document (node.Decode in pkg/expr/parse/yaml.go), and so what the
 * spellings of a reference come to. A node without a tag is resolved from its text.
 */
module YamlDecode {
  import opened Trees
  import opened Semantics
  import opened YamlSugar

  /** How YAML resolves untagged text to a tag, and what it makes of text under a tag. */
  datatype Decoder = Decoder(resolve: string -> string, scalar: (string, string) -> Option<Tree>)

  const STR: string := "str"
  const GENERAL_MAP: Tree := Unsupported("map[interface {}]interface {}")

  function TagName(dec: Decoder, p: Plain): string {
    match p.tag
    case NoTag => dec.resolve(p.value)
    case Core(name) => name
    case Custom(name) => name
    case Nil => ""
  }

  predicate StringKey(dec: Decoder, p: Plain) { p.kind == Scalar && TagName(dec, p) == STR }

  function DecodeKids(dec: Decoder, p: Plain): (os: seq<Option<Tree>>)
    ensures |os| == |p.kids| && forall i :: 0 <= i < |os| ==> os[i] == Decode(dec, p.kids[i])
    decreases p, 0
  {
    seq(|p.kids|, i requires 0 <= i < |p.kids| => Decode(dec, p.kids[i]))
  }

  /** The first `n` pairs of keys and values. */
  function Pairs(kids: seq<Plain>, vs: seq<Tree>, n: nat): map<string, Tree>
    requires |kids| == |vs| && 2 * n <= |vs|
  {
    if n == 0 then map[] else Pairs(kids, vs, n - 1)[kids[2 * n - 2].value := vs[2 * n - 1]]
  }

  predicate Repeats(kids: seq<Plain>) {
    exists i, j :: 0 <= i < j < |kids| && i % 2 == 0 && j % 2 == 0 && kids[i].value == kids[j].value
  }

  /** Keys that are not all strings give a map that the evaluator does not accept; repeated keys are an error. */
  function DecodeMapping(dec: Decoder, kids: seq<Plain>, os: seq<Option<Tree>>): Option<Tree>
    requires |os| == |kids|
  {
    if |kids| % 2 != 0 || exists i :: 0 <= i < |os| && os[i].None? then None
    else if exists i :: 0 <= i < |kids| && i % 2 == 0 && !StringKey(dec, kids[i]) then Some(GENERAL_MAP)
    else if Repeats(kids) then None
    else Some(Obj(Pairs(kids, seq(|os|, i requires 0 <= i < |os| => os[i].GetOr(Null)), |kids| / 2)))
  }

  function Decode(dec: Decoder, p: Plain): Option<Tree>
    decreases p, 1
  {
    match p.kind
    case Scalar => dec.scalar(TagName(dec, p), p.value)
    case Sequence =>
      var os := DecodeKids(dec, p);
      if exists i :: 0 <= i < |os| && os[i].None? then None
      else Some(List(seq(|os|, i requires 0 <= i < |os| => os[i].GetOr(Null))))
    case Mapping => DecodeMapping(dec, p.kids, DecodeKids(dec, p))
    case Document => if |p.kids| == 1 then Decode(dec, p.kids[0]) else None
  }

  const WORDS: set<string> := {"$type", "Data", "query", "Secret", "name", "Parameter", "Connection", "type", "Output", "from",
                              "Answer", "askRef", "$encoding", "base64", "data"}

  /** Strings decode to themselves, bare text never resolves to !!binary, and the words of references and encodings are strings. */
  ghost predicate Sane(dec: Decoder) {
    && (forall s :: dec.scalar(STR, s) == Some(Str(s)) && dec.resolve(s) != "binary")
    && (forall w :: w in WORDS ==> dec.resolve(w) == STR)
  }

  lemma WordDecodes(dec: Decoder, w: string)
    requires Sane(dec) && w in WORDS
    ensures Decode(dec, Word(w)) == Some(Str(w)) && StringKey(dec, Word(w))
  {
  }

  /** A desugared reference decodes to the node that the evaluator looks for. */
  lemma ReferenceDecodes(dec: Decoder, ty: string, field: string, p: Plain)
    requires Sane(dec) && OneFieldTag(ty, field)
    ensures Decode(dec, OneFieldPlain(ty, field, p))
         == if Decode(dec, p).None? then None else Some(Obj(map[TYPE := Str(ty), field := Decode(dec, p).value]))
  {
    hide Decode, Sane, DecodeMapping, StringKey;
    WordDecodes(dec, "$type");
    WordDecodes(dec, ty);
    WordDecodes(dec, field);
    var r := OneFieldPlain(ty, field, p);
    var os := DecodeKids(dec, r);
    assert os[0] == Some(Str("$type")) && os[1] == Some(Str(ty)) && os[2] == Some(Str(field)) && os[3] == Decode(dec, p);
    MappingDecodes(dec, r);
    FourKids(dec, TYPE, field, r.kids, os);
  }

  lemma MappingDecodes(dec: Decoder, p: Plain)
    requires p.kind == Mapping
    ensures Decode(dec, p) == DecodeMapping(dec, p.kids, DecodeKids(dec, p))
  {
  }

  lemma FourKids(dec: Decoder, k1: string, k2: string, kids: seq<Plain>, os: seq<Option<Tree>>)
    requires |kids| == |os| == 4 && StringKey(dec, kids[0]) && StringKey(dec, kids[2])
    requires kids[0].value == k1 && kids[2].value == k2 && k2 != k1 && os[0].Some? && os[1].Some? && os[2].Some?
    ensures DecodeMapping(dec, kids, os)
         == if os[3].None? then None else Some(Obj(map[k1 := os[1].value, k2 := os[3].value]))
  {
    hide StringKey;
    if os[3].Some? {
      var vs := seq(|os|, i requires 0 <= i < |os| => os[i].GetOr(Null));
      assert forall i :: 0 <= i < 4 && i % 2 == 0 ==> i == 0 || i == 2;
      assert !Repeats(kids);
      assert Pairs(kids, vs, 1) == map[k1 := os[1].value];
      assert Pairs(kids, vs, 2) == map[k1 := os[1].value, k2 := os[3].value];
    }
  }

  /** What a document comes to: its desugaring, decoded. */
  function Meaning(dec: Decoder, y: Y): Option<Tree> {
    match Desugar(y)
    case None => None
    case Some(p) => Decode(dec, p)
  }

  /** A scalar as the parser leaves it: quoted text is a string, plain text is what it resolves to. */
  predicate ParsedText(dec: Decoder, y: Y, x: string, quoted: bool) {
    y.Y? && y.kind == Scalar && y.value == x && y.kids == [] && y.tag == Core(if quoted then STR else dec.resolve(x))
  }

  lemma ParsedTextDesugars(dec: Decoder, y: Y, x: string, quoted: bool)
    requires ParsedText(dec, y, x, quoted) && Sane(dec)
    ensures Desugar(y) == Some(Plain(Scalar, y.tag, x, []))
  {
    SettledIsLeft(y.kind, y.tag, y.value, Keys(y.kids));
    hide Template;
    assert AllSome(DesugarKids(y)).Some? && AllSome(DesugarKids(y)).value == [];
  }

  lemma SameReference(dec: Decoder, ty: string, field: string, p: Plain, q: Plain)
    requires Sane(dec) && OneFieldTag(ty, field)
    ensures Decode(dec, OneFieldPlain(ty, field, p)) == Decode(dec, OneFieldPlain(ty, field, q)) <==> Decode(dec, p) == Decode(dec, q)
  {
    hide Decode, Sane;
    ReferenceDecodes(dec, ty, field, p);
    ReferenceDecodes(dec, ty, field, q);
    if Decode(dec, p).Some? && Decode(dec, q).Some? {
      var m, m' := map[TYPE := Str(ty), field := Decode(dec, p).value], map[TYPE := Str(ty), field := Decode(dec, q).value];
      assert m[field] == Decode(dec, p).value && m'[field] == Decode(dec, q).value;
    }
  }

  /**
   * The sequence and the mapping spelling of a reference to `x` always mean the same. The scalar spelling, which
   * forgets the quotes, means the same if and only if there were none or the bare text is a string.
   */
  lemma SpellingsAgreeIff(dec: Decoder, ty: string, field: string, x: string, quoted: bool, a: Y, b: Y, c: Y)
    requires Sane(dec) && OneFieldTag(ty, field)
    requires a.Y? && a.kind == Scalar && a.tag == Custom(ty) && a.value == x
    requires SpellsOne(b, ty, field, 0) && ParsedText(dec, b.kids[0], x, quoted)
    requires SpellsOne(c, ty, field, 1) && ParsedText(dec, c.kids[1], x, quoted)
    ensures Meaning(dec, b) == Meaning(dec, c)
    ensures Meaning(dec, a) == Meaning(dec, b) <==> !quoted || dec.scalar(dec.resolve(x), x) == Some(Str(x))
  {
    var item := Plain(Scalar, Core(if quoted then STR else dec.resolve(x)), x, []);
    assert Decode(dec, Word(x)) == dec.scalar(dec.resolve(x), x);
    assert Decode(dec, item) == dec.scalar(if quoted then STR else dec.resolve(x), x);
    hide Desugar, Decode;
    ParsedTextDesugars(dec, b.kids[0], x, quoted);
    ParsedTextDesugars(dec, c.kids[1], x, quoted);
    OneFieldScalar(ty, field, a);
    OneFieldForms(ty, field, b, 0, item);
    OneFieldForms(ty, field, c, 1, item);
    SameReference(dec, ty, field, Word(x), item);
  }

  // ---- a secret whose name is a quoted number ----

  const SCALAR_FORM: Y := Y(0, Scalar, Custom("Secret"), "123", [])
  const LIST_FORM: Y := Y(0, Sequence, Custom("Secret"), "", [Y(1, Scalar, Core(STR), "123", [])])

  /** `!Secret "123"` is refused by every evaluator, where `!Secret ["123"]` names the secret 123. */
  lemma QuotedNumber(dec: Decoder, env: Env)
    requires Sane(dec) && dec.resolve("123") == "int" && dec.scalar("int", "123") == Some(Num(123, 0))
    ensures Meaning(dec, SCALAR_FORM).Some? && Eval(env, Meaning(dec, SCALAR_FORM).value, -1).Err?
    ensures
      var v := Meaning(dec, LIST_FORM);
      v.Some? && v.value.Obj? && TypeNodeOf(v.value.fields) == Known(SecretRef("123"))
  {
    var item := Plain(Scalar, Core(STR), "123", []);
    assert Decode(dec, Word("123")) == Some(Num(123, 0)) && Decode(dec, item) == Some(Str("123"));
    hide Desugar, Decode;
    OneFieldScalar("Secret", "name", SCALAR_FORM);
    ReferenceDecodes(dec, "Secret", "name", Word("123"));
    ParsedTextDesugars(dec, LIST_FORM.kids[0], "123", true);
    OneFieldForms("Secret", "name", LIST_FORM, 0, item);
    ReferenceDecodes(dec, "Secret", "name", item);
    var m: map<string, Tree> := map[TYPE := Str("Secret"), "name" := Num(123, 0)];
    assert ShapeOf(m).TypeShape? && TypeNodeOf(m) == Malformed;
    assert EvalType(env, m) == Err;
  }
}
