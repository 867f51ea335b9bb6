/** The custom YAML tags and what they stand for (pkg/expr/parse/yaml.go). */
module YamlSugar {
  import opened Trees

  datatype Kind = Scalar | Sequence | Mapping | Document

  /** `Custom("Secret")` is the tag !Secret, `Core("binary")` is !!binary; `Nil` marks a child that is not there. */
  datatype Tag = NoTag | Custom(name: string) | Core(name: string) | Nil

  /** A part of a rewritten node: new text, a child it keeps, a new node around text or all children, or nothing. */
  datatype Part = Text(text: string) | Child(index: nat) | Group(kind: Kind) | TextGroup(text: string) | Hole

  datatype Rewrite = Leave | Reject | Become(parts: seq<Part>)

  /** !Data, !Secret and !Parameter: one field, written as a scalar, a sequence or a mapping. */
  function OneField(ty: string, field: string, kind: Kind, value: string, keys: seq<string>): Rewrite {
    match kind
    case Mapping =>
      if |keys| == 2 && keys[0] == field then Become([Text("$type"), Text(ty), Text(field), Child(1)]) else Reject
    case Sequence =>
      if |keys| == 1 then Become([Text("$type"), Text(ty), Text(field), Child(0)]) else Reject
    case Scalar => Become([Text("$type"), Text(ty), Text(field), Text(value)])
    case Document => Reject
  }

  function Pair(ty: string, f1: string, f2: string, i: nat, j: nat): Rewrite { PairOf(ty, f1, f2, Child(i), Child(j)) }

  function PairOf(ty: string, f1: string, f2: string, p: Part, q: Part): Rewrite {
    Become([Text("$type"), Text(ty), Text(f1), p, Text(f2), q])
  }

  /**
   * !Connection, !Output and !Answer: two fields, written as a sequence, or as a mapping in either order. A mapping
   * that repeats one of the keys keeps its last value and leaves the other field without a node.
   */
  function TwoFields(ty: string, f1: string, f2: string, kind: Kind, keys: seq<string>): Rewrite {
    match kind
    case Mapping =>
      if |keys| == 4 && keys[0] == f1 && keys[2] == f2 then Pair(ty, f1, f2, 1, 3)
      else if |keys| == 4 && keys[0] == f2 && keys[2] == f1 then Pair(ty, f1, f2, 3, 1)
      else if |keys| == 4 && keys[0] == f1 && keys[2] == f1 then PairOf(ty, f1, f2, Child(3), Hole)
      else if |keys| == 4 && keys[0] == f2 && keys[2] == f2 then PairOf(ty, f1, f2, Hole, Child(3))
      else Reject
    case Sequence => if |keys| == 2 then Pair(ty, f1, f2, 0, 1) else Reject
    case _ => Reject
  }

  function Invocation(name: string, kind: Kind, value: string): Rewrite {
    if name == "" then Reject
    else match kind
      case Scalar => Become([Text(FN + name), TextGroup(value)])
      case Document => Reject
      case _ => Become([Text(FN + name), Group(kind)])
  }

  /** What the transformers make of a node, given the values of its children. */
  function Template(kind: Kind, tag: Tag, value: string, keys: seq<string>): Rewrite {
    match tag
    case NoTag => Leave
    case Nil => Reject
    case Core(name) =>
      if name == "binary" && kind == Scalar
      then Become([Text("$encoding"), Text("base64"), Text("data"), Text(value)]) else Leave
    case Custom(name) =>
      if name == "Data" then OneField("Data", "query", kind, value, keys)
      else if name == "Secret" then OneField("Secret", "name", kind, value, keys)
      else if name == "Connection" then TwoFields("Connection", "type", "name", kind, keys)
      else if name == "Output" then TwoFields("Output", "from", "name", kind, keys)
      else if name == "Parameter" then OneField("Parameter", "name", kind, value, keys)
      else if name == "Answer" then TwoFields("Answer", "askRef", "name", kind, keys)
      else if HasPrefix(name, "Fn.") then Invocation(name[3..], kind, value)
      else Reject
  }

  /** Keys that lost their value can only make a template fail. */
  lemma BlankKeys(kind: Kind, tag: Tag, value: string, keys: seq<string>, keys': seq<string>)
    requires |keys| == |keys'| && forall i :: 0 <= i < |keys| ==> keys'[i] == keys[i] || keys'[i] == ""
    ensures Template(kind, tag, value, keys') != Reject ==> Template(kind, tag, value, keys') == Template(kind, tag, value, keys)
  {
  }

  /** The shapes a rewritten node can take, for a node with `n` children. */
  predicate PartsFit(parts: seq<Part>, n: nat) {
    || (|parts| == 4 && Texts(parts, {0, 1, 2}) && (parts[3].Text? || (parts[3].Child? && parts[3].index < n)))
    || (|parts| == 6 && Texts(parts, {0, 1, 2, 4}) && ChildOrHole(parts[3], n) && ChildOrHole(parts[5], n)
        && (parts[3].Child? && parts[5].Child? ==> parts[3].index != parts[5].index))
    || (|parts| == 2 && Texts(parts, {0}) && (parts[1].Group? || parts[1].TextGroup?))
  }

  predicate ChildOrHole(p: Part, n: nat) { p.Hole? || (p.Child? && p.index < n) }

  predicate Texts(parts: seq<Part>, at: set<nat>) {
    forall i :: i in at ==> i < |parts| && parts[i].Text?
  }

  lemma OneFieldFits(ty: string, field: string, kind: Kind, value: string, keys: seq<string>)
    ensures var r := OneField(ty, field, kind, value, keys); r.Become? ==> PartsFit(r.parts, |keys|)
  {
  }

  lemma TwoFieldsFit(ty: string, f1: string, f2: string, kind: Kind, keys: seq<string>)
    ensures var r := TwoFields(ty, f1, f2, kind, keys); r.Become? ==> PartsFit(r.parts, |keys|)
  {
  }

  lemma InvocationFits(name: string, kind: Kind, value: string, n: nat)
    ensures var r := Invocation(name, kind, value); r.Become? ==> PartsFit(r.parts, n)
  {
  }

  lemma TemplateFits(kind: Kind, tag: Tag, value: string, keys: seq<string>)
    ensures var r := Template(kind, tag, value, keys); r.Become? ==> PartsFit(r.parts, |keys|)
  {
    OneFieldFits("Data", "query", kind, value, keys);
    OneFieldFits("Secret", "name", kind, value, keys);
    OneFieldFits("Parameter", "name", kind, value, keys);
    TwoFieldsFit("Connection", "type", "name", kind, keys);
    TwoFieldsFit("Output", "from", "name", kind, keys);
    TwoFieldsFit("Answer", "askRef", "name", kind, keys);
    BinaryFits(value, |keys|);
    if tag.Custom? && HasPrefix(tag.name, "Fn.") { InvocationFits(tag.name[3..], kind, value, |keys|); }
    hide OneField, TwoFields, Invocation, PartsFit;
  }

  lemma BinaryFits(value: string, n: nat)
    ensures PartsFit([Text("$encoding"), Text("base64"), Text("data"), Text(value)], n)
  {
  }

  /** A node graph unfolded into a tree; every tree node remembers which graph node it came from. */
  datatype Y =
    | Y(id: nat, kind: Kind, tag: Tag, value: string, kids: seq<Y>)
    | Alias(id: nat, value: string, target: Y)

  /** What is left for the YAML decoder once no custom tag remains. */
  datatype Plain = Plain(kind: Kind, tag: Tag, value: string, kids: seq<Plain>)

  function Word(s: string): Plain { Plain(Scalar, NoTag, s, []) }

  function AllSome(os: seq<Option<Plain>>): Option<seq<Plain>> {
    if exists i :: 0 <= i < |os| && os[i].None? then None
    else Some(seq(|os|, i requires 0 <= i < |os| => os[i].GetOr(Word(""))))
  }

  function Keys(kids: seq<Y>): seq<string> {
    seq(|kids|, i requires 0 <= i < |kids| => kids[i].value)
  }

  function PartPlain(p: Part, os: seq<Option<Plain>>): Option<Plain> {
    match p
    case Text(s) => Some(Word(s))
    case Child(i) => if i < |os| then os[i] else None
    case Group(kind) => (match AllSome(os) case None => None case Some(ps) => Some(Plain(kind, NoTag, "", ps)))
    case TextGroup(s) => Some(Plain(Sequence, NoTag, "", [Word(s)]))
    case Hole => None
  }

  function Finish(kind: Kind, tag: Tag, value: string, os: seq<Option<Plain>>): Option<Plain> {
    match AllSome(os)
    case None => None
    case Some(ps) => Some(Plain(kind, tag, value, ps))
  }

  function PartsPlain(parts: seq<Part>, os: seq<Option<Plain>>): seq<Option<Plain>> {
    seq(|parts|, i requires 0 <= i < |parts| => PartPlain(parts[i], os))
  }

  function DesugarKids(y: Y): (os: seq<Option<Plain>>)
    requires y.Y?
    ensures |os| == |y.kids| && forall i :: 0 <= i < |os| ==> os[i] == Desugar(y.kids[i])
    decreases y, 0
  {
    seq(|y.kids|, i requires 0 <= i < |y.kids| => Desugar(y.kids[i]))
  }

  /** The recursive desugaring, aliases followed. */
  function Desugar(y: Y): Option<Plain>
    decreases y, 1
  {
    match y
    case Alias(_, _, target) => Desugar(target)
    case Y(_, kind, tag, value, kids) =>
      match Template(kind, tag, value, Keys(kids))
      case Reject => None
      case Leave => Finish(kind, tag, value, DesugarKids(y))
      case Become(parts) => Finish(Mapping, NoTag, "", PartsPlain(parts, DesugarKids(y)))
  }

  /** No transformer touches the node. */
  predicate Settled(kind: Kind, tag: Tag) {
    tag == NoTag || (tag.Core? && !(tag.name == "binary" && kind == Scalar))
  }

  lemma SettledIsLeft(kind: Kind, tag: Tag, value: string, keys: seq<string>)
    ensures Template(kind, tag, value, keys) == Leave <==> Settled(kind, tag)
  {
  }

  lemma NilRejected(kind: Kind, value: string, keys: seq<string>)
    ensures Template(kind, Nil, value, keys) == Reject
  {
  }

  predicate AllSettled(y: Y) {
    match y
    case Alias(_, _, target) => AllSettled(target)
    case Y(_, kind, tag, _, kids) => Settled(kind, tag) && forall i :: 0 <= i < |kids| ==> AllSettled(kids[i])
  }

  /** What the decoder sees. */
  function PlainOf(y: Y): Plain {
    match y
    case Alias(_, _, target) => PlainOf(target)
    case Y(_, kind, tag, value, kids) =>
      Plain(kind, tag, value, seq(|kids|, i requires 0 <= i < |kids| => PlainOf(kids[i])))
  }

  lemma {:induction false} SettledDesugars(y: Y)
    requires AllSettled(y)
    ensures Desugar(y) == Some(PlainOf(y))
  {
    match y
    case Alias(_, _, target) => SettledDesugars(target);
    case Y(_, kind, tag, value, kids) =>
      forall i | 0 <= i < |kids| { SettledDesugars(kids[i]); }
      SettledIsLeft(kind, tag, value, Keys(kids));
      assert AllSome(DesugarKids(y)).Some?;
      assert AllSome(DesugarKids(y)).value == PlainOf(y).kids;
  }

  /** No custom tag or !!binary scalar is left in what the decoder sees. */
  predicate Clean(p: Plain) { Settled(p.kind, p.tag) && forall i :: 0 <= i < |p.kids| ==> Clean(p.kids[i]) }

  lemma {:induction false} SettledIsClean(y: Y)
    requires AllSettled(y)
    ensures Clean(PlainOf(y))
  {
    match y
    case Alias(_, _, target) => SettledIsClean(target);
    case Y(_, _, _, _, kids) => forall i | 0 <= i < |kids| { SettledIsClean(kids[i]); }
  }

  predicate OneFieldTag(ty: string, field: string) {
    (ty, field) == ("Data", "query") || (ty, field) == ("Secret", "name") || (ty, field) == ("Parameter", "name")
  }

  function OneFieldPlain(ty: string, field: string, p: Plain): Plain {
    Plain(Mapping, NoTag, "", [Word("$type"), Word(ty), Word(field), p])
  }

  /** `y` is tagged and spells the field out, in a sequence or in a mapping, as its child `i`. */
  predicate SpellsOne(y: Y, ty: string, field: string, i: nat) {
    && y.Y? && y.tag == Custom(ty)
    && (|| (y.kind == Sequence && |y.kids| == 1 && i == 0)
        || (y.kind == Mapping && |y.kids| == 2 && y.kids[0].value == field && i == 1))
  }

  /** The sequence and mapping spellings of a one-field reference keep the field as it was written. */
  lemma OneFieldForms(ty: string, field: string, y: Y, i: nat, p: Plain)
    requires OneFieldTag(ty, field) && SpellsOne(y, ty, field, i) && Desugar(y.kids[i]) == Some(p)
    ensures Desugar(y) == Some(OneFieldPlain(ty, field, p))
  {
    hide Desugar;
    DesugarsTo(y, [Text("$type"), Text(ty), Text(field), Child(i)]);
    FourParts(ty, field, Child(i), DesugarKids(y), p);
  }

  /** The scalar spelling keeps only the text. */
  lemma OneFieldScalar(ty: string, field: string, y: Y)
    requires OneFieldTag(ty, field) && y.Y? && y.kind == Scalar && y.tag == Custom(ty)
    ensures Desugar(y) == Some(OneFieldPlain(ty, field, Word(y.value)))
  {
    hide Desugar;
    DesugarsTo(y, [Text("$type"), Text(ty), Text(field), Text(y.value)]);
    FourParts(ty, field, Text(y.value), DesugarKids(y), Word(y.value));
  }

  lemma FourParts(ty: string, field: string, p: Part, os: seq<Option<Plain>>, x: Plain)
    requires PartPlain(p, os) == Some(x)
    ensures Finish(Mapping, NoTag, "", PartsPlain([Text("$type"), Text(ty), Text(field), p], os)) == Some(OneFieldPlain(ty, field, x))
  {
    var ps := PartsPlain([Text("$type"), Text(ty), Text(field), p], os);
    assert ps == [Some(Word("$type")), Some(Word(ty)), Some(Word(field)), Some(x)];
    assert AllSome(ps).Some?;
    assert AllSome(ps).value == [Word("$type"), Word(ty), Word(field), x];
  }

  predicate TwoFieldTag(ty: string, f1: string, f2: string) {
    || (ty, f1, f2) == ("Connection", "type", "name")
    || (ty, f1, f2) == ("Output", "from", "name")
    || (ty, f1, f2) == ("Answer", "askRef", "name")
  }

  /** `y` is tagged and spells the two fields out, in a sequence or in a mapping, as its children `i` and `j`. */
  predicate Spells(y: Y, ty: string, f1: string, f2: string, i: nat, j: nat) {
    && y.Y? && y.tag == Custom(ty) && i < |y.kids| && j < |y.kids|
    && (|| (y.kind == Sequence && |y.kids| == 2 && i == 0 && j == 1)
        || (y.kind == Mapping && |y.kids| == 4 && Names(Keys(y.kids), f1, f2, i, j)))
  }

  predicate Names(keys: seq<string>, f1: string, f2: string, i: nat, j: nat) {
    && |keys| == 4 && ((i == 1 && j == 3) || (i == 3 && j == 1))
    && keys[i - 1] == f1 && keys[j - 1] == f2
  }

  /** The sequence and the two mapping spellings of a two-field reference mean the same. */
  lemma TwoFieldForms(ty: string, f1: string, f2: string, y: Y, i: nat, j: nat, x: Plain, z: Plain)
    requires TwoFieldTag(ty, f1, f2) && Spells(y, ty, f1, f2, i, j)
    requires Desugar(y.kids[i]) == Some(x) && Desugar(y.kids[j]) == Some(z)
    ensures Desugar(y) == Some(Plain(Mapping, NoTag, "", [Word("$type"), Word(ty), Word(f1), x, Word(f2), z]))
  {
    TwoFieldsChoice(ty, f1, f2, y, i, j);
    TwoFieldsUnfold(y, ty, f1, f2, i, j, x, z);
    hide Desugar, Template, TwoFieldTag, Keys;
  }

  lemma TwoFieldsChoice(ty: string, f1: string, f2: string, y: Y, i: nat, j: nat)
    requires TwoFieldTag(ty, f1, f2) && Spells(y, ty, f1, f2, i, j)
    ensures Template(y.kind, y.tag, y.value, Keys(y.kids)) == Pair(ty, f1, f2, i, j)
  {
    TwoFieldsTemplate(ty, f1, f2, y.kind, y.value, Keys(y.kids));
    hide Template, TwoFieldTag;
  }

  lemma TwoFieldsTemplate(ty: string, f1: string, f2: string, kind: Kind, value: string, keys: seq<string>)
    requires TwoFieldTag(ty, f1, f2)
    ensures Template(kind, Custom(ty), value, keys) == TwoFields(ty, f1, f2, kind, keys)
    ensures f1 != f2
  {
    assert |f2| == 4 && (|f1| == 4 ==> f1[0] != f2[0]);
  }

  lemma TwoFieldsUnfold(y: Y, ty: string, f1: string, f2: string, i: nat, j: nat, x: Plain, z: Plain)
    requires y.Y? && Template(y.kind, y.tag, y.value, Keys(y.kids)) == Pair(ty, f1, f2, i, j)
    requires i < |y.kids| && j < |y.kids| && Desugar(y.kids[i]) == Some(x) && Desugar(y.kids[j]) == Some(z)
    ensures Desugar(y) == Some(Plain(Mapping, NoTag, "", [Word("$type"), Word(ty), Word(f1), x, Word(f2), z]))
  {
    DesugarsTo(y, Pair(ty, f1, f2, i, j).parts);
    hide Desugar, Template;
    SixParts(ty, f1, f2, i, j, DesugarKids(y), x, z);
  }

  lemma DesugarsTo(y: Y, parts: seq<Part>)
    requires y.Y? && Template(y.kind, y.tag, y.value, Keys(y.kids)) == Become(parts)
    ensures Desugar(y) == Finish(Mapping, NoTag, "", PartsPlain(parts, DesugarKids(y)))
  {
    hide Template;
  }

  lemma SixParts(ty: string, f1: string, f2: string, i: nat, j: nat, os: seq<Option<Plain>>, x: Plain, z: Plain)
    requires i < |os| && j < |os| && os[i] == Some(x) && os[j] == Some(z)
    ensures Finish(Mapping, NoTag, "", PartsPlain(Pair(ty, f1, f2, i, j).parts, os))
         == Some(Plain(Mapping, NoTag, "", [Word("$type"), Word(ty), Word(f1), x, Word(f2), z]))
  {
    var ps := PartsPlain(Pair(ty, f1, f2, i, j).parts, os);
    hide Word;
    assert ps == [Some(Word("$type")), Some(Word(ty)), Some(Word(f1)), Some(x), Some(Word(f2)), Some(z)];
    hide PartsPlain;
    assert AllSome(ps).Some?;
    assert AllSome(ps).value == [Word("$type"), Word(ty), Word(f1), x, Word(f2), z];
  }
}
