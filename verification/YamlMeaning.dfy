/**
 * What each custom tag stands for, down to the evaluator: the object that a tagged node decodes to, and the
 * reference, encoding or call that it is (the transformers in pkg/expr/parse/yaml.go:17-358).
 */
module YamlMeaning {
  import opened Trees
  import opened Semantics
  import opened References
  import opened YamlSugar
  import opened YamlGraph
  import opened YamlDecode

  // ---- calls ----

  function CallPlain(name: string, args: Plain): Plain { Plain(Mapping, NoTag, "", [Word("$fn." + name), args]) }

  lemma CallTag(name: string)
    ensures
      var tag := "Fn." + name;
      HasPrefix(tag, "Fn.") && tag[3..] == name && tag !in {"Data", "Secret", "Connection", "Output", "Parameter", "Answer"}
  {
    var tag := "Fn." + name;
    assert tag[..3] == "Fn." && tag[0] == 'F';
  }

  /** A tagged sequence or mapping becomes a call of the named function with itself, untagged, as the argument. */
  lemma CollectionCall(y: Y, name: string, ps: seq<Plain>)
    requires y.Y? && y.tag == Custom("Fn." + name) && name != "" && (y.kind == Sequence || y.kind == Mapping)
    requires |ps| == |y.kids| && forall i :: 0 <= i < |ps| ==> Desugar(y.kids[i]) == Some(ps[i])
    ensures Desugar(y) == Some(CallPlain(name, Plain(y.kind, NoTag, "", ps)))
  {
    CallTag(name);
    var parts := [Text("$fn." + name), Group(y.kind)];
    assert Template(y.kind, y.tag, y.value, Keys(y.kids)) == Become(parts);
    DesugarsTo(y, parts);
    hide Desugar, Template;
    assert AllSome(DesugarKids(y)).Some? && AllSome(DesugarKids(y)).value == ps;
    var os := PartsPlain(parts, DesugarKids(y));
    assert os == [Some(Word("$fn." + name)), Some(Plain(y.kind, NoTag, "", ps))];
    assert AllSome(os).Some? && AllSome(os).value == [Word("$fn." + name), Plain(y.kind, NoTag, "", ps)];
  }

  /** A tagged scalar becomes a call with its text as the only argument. */
  lemma ScalarCall(y: Y, name: string)
    requires y.Y? && y.tag == Custom("Fn." + name) && name != "" && y.kind == Scalar
    ensures Desugar(y) == Some(CallPlain(name, Plain(Sequence, NoTag, "", [Word(y.value)])))
  {
    CallTag(name);
    var parts := [Text("$fn." + name), TextGroup(y.value)];
    assert Template(y.kind, y.tag, y.value, Keys(y.kids)) == Become(parts);
    DesugarsTo(y, parts);
    hide Desugar, Template;
    var args := Plain(Sequence, NoTag, "", [Word(y.value)]);
    var os := PartsPlain(parts, DesugarKids(y));
    assert os == [Some(Word("$fn." + name)), Some(args)];
    assert AllSome(os).Some? && AllSome(os).value == [Word("$fn." + name), args];
  }

  // ---- everything else is refused ----

  /** A tag that is none of the custom ones is refused, and so is a call without a name. */
  lemma UnknownTag(y: Y, name: string)
    requires y.Y? && y.tag == Custom(name)
    requires name == "Fn." || (name !in {"Data", "Secret", "Connection", "Output", "Parameter", "Answer"} && !HasPrefix(name, "Fn."))
    ensures Desugar(y).None?
  {
    if name == "Fn." {
      CallTag("");
      assert "Fn." + "" == "Fn.";
    }
  }

  /** One-field references take one item, or a mapping of exactly that field. */
  lemma OneFieldRefusals(y: Y, ty: string, field: string)
    requires OneFieldTag(ty, field) && y.Y? && y.tag == Custom(ty)
    ensures y.kind == Sequence && |y.kids| != 1 ==> Desugar(y).None?
    ensures y.kind == Mapping && (|y.kids| != 2 || y.kids[0].value != field) ==> Desugar(y).None?
  {
    if y.kind == Mapping && |y.kids| == 2 { assert Keys(y.kids)[0] == y.kids[0].value; }
  }

  /** Two-field references take two items, or a mapping of both fields; a scalar is refused. */
  lemma TwoFieldRefusals(y: Y, ty: string, f1: string, f2: string)
    requires TwoFieldTag(ty, f1, f2) && y.Y? && y.tag == Custom(ty)
    ensures y.kind == Scalar ==> Desugar(y).None?
    ensures y.kind == Sequence && |y.kids| != 2 ==> Desugar(y).None?
    ensures y.kind == Mapping && (|y.kids| != 4 || {y.kids[0].value, y.kids[2].value} != {f1, f2}) ==> Desugar(y).None?
  {
    TwoFieldsTemplate(ty, f1, f2, y.kind, y.value, Keys(y.kids));
    hide Template, TwoFieldTag;
    if y.kind == Mapping && |y.kids| == 4 && {y.kids[0].value, y.kids[2].value} != {f1, f2} {
      KeysAt(y);
      TwoFieldsHole(y, ty, f1, f2);
    }
  }

  lemma KeysAt(y: Y)
    requires y.Y?
    ensures |Keys(y.kids)| == |y.kids| && forall i :: 0 <= i < |y.kids| ==> Keys(y.kids)[i] == y.kids[i].value
  {
  }

  lemma TwoFieldsHole(y: Y, ty: string, f1: string, f2: string)
    requires y.Y? && |y.kids| == 4 && y.kind == Mapping && f1 != f2
    requires Template(y.kind, y.tag, y.value, Keys(y.kids)) == TwoFields(ty, f1, f2, Mapping, Keys(y.kids))
    requires {y.kids[0].value, y.kids[2].value} != {f1, f2}
    ensures Desugar(y).None?
  {
    KeysAt(y);
    var t := Template(y.kind, y.tag, y.value, Keys(y.kids));
    hide Template;
    if t.Become? {
      DesugarsTo(y, t.parts);
      hide Desugar;
      var os := PartsPlain(t.parts, DesugarKids(y));
      assert t.parts[3].Hole? || t.parts[5].Hole?;
      assert os[if t.parts[3].Hole? then 3 else 5] == None;
      FinishSome(Mapping, NoTag, "", os);
    }
  }

  // ---- what the decoder and the evaluator make of it ----

  predicate StringKeys(dec: Decoder, kids: seq<Plain>) {
    |kids| % 2 == 0 && !Repeats(kids) && forall i :: 0 <= i < |kids| && i % 2 == 0 ==> StringKey(dec, kids[i]) && Decode(dec, kids[i]).Some?
  }

  lemma {:induction false} PairsAt(kids: seq<Plain>, vs: seq<Tree>, n: nat)
    requires |kids| == |vs| && 2 * n <= |vs| && !Repeats(kids)
    ensures forall j :: 0 <= j < n ==> kids[2 * j].value in Pairs(kids, vs, n) && Pairs(kids, vs, n)[kids[2 * j].value] == vs[2 * j + 1]
    ensures forall k :: k in Pairs(kids, vs, n) ==> exists j :: 0 <= j < n && kids[2 * j].value == k
  {
    if n > 0 {
      PairsAt(kids, vs, n - 1);
      forall j | 0 <= j < n - 1 ensures kids[2 * j].value != kids[2 * n - 2].value {
        assert (2 * j) % 2 == 0 && (2 * n - 2) % 2 == 0;
      }
      assert kids[2 * (n - 1)].value == kids[2 * n - 2].value;
    }
  }

  /** A mapping of distinct string keys decodes to the object that has exactly those, each with what its value decodes to. */
  lemma MappingMeans(dec: Decoder, p: Plain)
    requires p.kind == Mapping && StringKeys(dec, p.kids)
    ensures Decode(dec, p).None? <==> exists i :: 0 <= i < |p.kids| && Decode(dec, p.kids[i]).None?
    ensures Decode(dec, p).Some? ==>
      && Decode(dec, p).value.Obj?
      && (forall j :: 0 <= j < |p.kids| / 2 ==>
            && p.kids[2 * j].value in Decode(dec, p).value.fields
            && Decode(dec, p.kids[2 * j + 1]) == Some(Decode(dec, p).value.fields[p.kids[2 * j].value]))
      && (forall k :: k in Decode(dec, p).value.fields ==> exists j :: 0 <= j < |p.kids| / 2 && p.kids[2 * j].value == k)
  {
    MappingDecodes(dec, p);
    var os := DecodeKids(dec, p);
    assert forall i :: 0 <= i < |os| ==> os[i] == Decode(dec, p.kids[i]);
    hide Decode, Repeats, Pairs;
    if forall i :: 0 <= i < |os| ==> os[i].Some? {
      var vs := seq(|os|, i requires 0 <= i < |os| => os[i].GetOr(Null));
      PairsAt(p.kids, vs, |p.kids| / 2);
    }
  }

  /** A mapping of one string key decodes to an object of one entry. */
  lemma PairDecodes(dec: Decoder, p: Plain, k: string, q: Plain)
    requires Sane(dec) && dec.resolve(k) == STR && p == Plain(Mapping, NoTag, "", [Word(k), q])
    ensures Decode(dec, p) == if Decode(dec, q).None? then None else Some(Obj(map[k := Decode(dec, q).value]))
  {
    assert Decode(dec, Word(k)) == Some(Str(k)) && StringKey(dec, Word(k));
    hide Decode, Sane, StringKey;
    MappingMeans(dec, p);
    assert p.kids[2 * 0].value == k && p.kids[2 * 0 + 1] == q;
    if Decode(dec, p).Some? { assert Decode(dec, p).value.fields == map[k := Decode(dec, q).value]; }
  }

  /** A sequence decodes to the list of what its items decode to. */
  lemma SequenceDecodes(dec: Decoder, p: Plain)
    requires p.kind == Sequence
    ensures Decode(dec, p).None? <==> exists i :: 0 <= i < |p.kids| && Decode(dec, p.kids[i]).None?
    ensures Decode(dec, p).Some? ==>
      var v := Decode(dec, p).value;
      v.List? && |v.items| == |p.kids| && forall i :: 0 <= i < |p.kids| ==> Decode(dec, p.kids[i]) == Some(v.items[i])
  {
    var os := DecodeKids(dec, p);
    assert forall i :: 0 <= i < |os| ==> os[i] == Decode(dec, p.kids[i]);
  }

  /** Evaluating the node calls the function with these arguments, and leaves it as it is if nobody knows the function. */
  predicate MakesCall(env: Env, t: Tree, name: string, args: Args) {
    var x := env.call(name, args);
    Full(env, t) ==
      if x.Unresolved? then Ok(t, {InvocationRef(name, x.cause)})
      else if x.Failed? || x.value.Unsupported? then Err
      else Ok(x.value, {})
  }

  lemma DecodedCall(dec: Decoder, env: Env, y: Y, name: string, p: Plain, arg: Tree)
    requires Sane(dec) && dec.resolve("$fn." + name) == STR && Desugar(y) == Some(CallPlain(name, p)) && Decode(dec, p) == Some(arg)
    ensures Meaning(dec, y) == Some(Obj(map["$fn." + name := arg]))
    ensures forall args | Full(env, arg).Complete() && Calls(Full(env, arg).value, args) ::
      MakesCall(env, Obj(map["$fn." + name := arg]), name, args)
  {
    hide Desugar, Decode, Sane, Eval;
    PairDecodes(dec, CallPlain(name, p), "$fn." + name, p);
    forall args | Full(env, arg).Complete() && Calls(Full(env, arg).value, args)
      ensures MakesCall(env, Obj(map["$fn." + name := arg]), name, args)
    {
      CallNode(env, name, arg, args);
    }
  }

  /** A tagged sequence calls the named function with the values of its items, by position. */
  lemma SequenceCalls(dec: Decoder, env: Env, y: Y, name: string, ps: seq<Plain>, vs: seq<Tree>)
    requires Sane(dec) && dec.resolve("$fn." + name) == STR && name != ""
    requires y.Y? && y.tag == Custom("Fn." + name) && y.kind == Sequence
    requires |ps| == |y.kids| == |vs| && forall i :: 0 <= i < |ps| ==> Desugar(y.kids[i]) == Some(ps[i]) && Decode(dec, ps[i]) == Some(vs[i])
    ensures Meaning(dec, y) == Some(Obj(map["$fn." + name := List(vs)]))
    ensures Full(env, List(vs)).Complete() ==>
      Full(env, List(vs)).value.List?
      && MakesCall(env, Obj(map["$fn." + name := List(vs)]), name, Positional(Full(env, List(vs)).value.items))
  {
    CollectionCall(y, name, ps);
    var args := Plain(Sequence, NoTag, "", ps);
    SequenceDecodes(dec, args);
    hide Desugar, Decode, Sane, Eval;
    assert Decode(dec, args).value == List(vs);
    DecodedCall(dec, env, y, name, args, List(vs));
    ListNode(env, vs);
  }

  /** A tagged mapping calls it with what the mapping decodes to, by keyword. */
  lemma MappingCalls(dec: Decoder, env: Env, y: Y, name: string, ps: seq<Plain>, m: map<string, Tree>)
    requires Sane(dec) && dec.resolve("$fn." + name) == STR && name != ""
    requires y.Y? && y.tag == Custom("Fn." + name) && y.kind == Mapping
    requires |ps| == |y.kids| && forall i :: 0 <= i < |ps| ==> Desugar(y.kids[i]) == Some(ps[i])
    requires Decode(dec, Plain(Mapping, NoTag, "", ps)) == Some(Obj(m)) && IsPlain(m)
    ensures Meaning(dec, y) == Some(Obj(map["$fn." + name := Obj(m)]))
    ensures Full(env, Obj(m)).Complete() ==>
      Full(env, Obj(m)).value.Obj?
      && MakesCall(env, Obj(map["$fn." + name := Obj(m)]), name, Keyword(Full(env, Obj(m)).value.fields))
  {
    hide Desugar, Decode, Sane, Eval;
    CollectionCall(y, name, ps);
    DecodedCall(dec, env, y, name, Plain(Mapping, NoTag, "", ps), Obj(m));
    PlainNode(env, m);
  }

  /** A tagged scalar calls it with what its bare text decodes to. */
  lemma ScalarCalls(dec: Decoder, env: Env, y: Y, name: string, v: Tree)
    requires Sane(dec) && dec.resolve("$fn." + name) == STR && name != ""
    requires y.Y? && y.tag == Custom("Fn." + name) && y.kind == Scalar
    requires dec.scalar(dec.resolve(y.value), y.value) == Some(v) && Full(env, v) == Ok(v, {})
    ensures Meaning(dec, y) == Some(Obj(map["$fn." + name := List([v])]))
    ensures MakesCall(env, Obj(map["$fn." + name := List([v])]), name, Positional([v]))
  {
    var p := Plain(Sequence, NoTag, "", [Word(y.value)]);
    assert Decode(dec, Word(y.value)) == Some(v);
    hide Desugar, Decode, Sane, Eval;
    ScalarCall(y, name);
    SequenceDecodes(dec, p);
    assert Decode(dec, p).value == List([v]);
    DecodedCall(dec, env, y, name, p, List([v]));
    ListNode(env, [v]);
    var r := Full(env, List([v]));
    assert r.Ok? && r.value.items == [v];
    assert r.missing == {};
  }

  // ---- binary scalars ----

  lemma BinaryDesugars(y: Y)
    requires y.Y? && y.kind == Scalar && y.tag == Core("binary")
    ensures Desugar(y) == Some(Plain(Mapping, NoTag, "", [Word("$encoding"), Word("base64"), Word("data"), Word(y.value)]))
  {
    var parts := [Text("$encoding"), Text("base64"), Text("data"), Text(y.value)];
    assert Template(y.kind, y.tag, y.value, Keys(y.kids)) == Become(parts);
    DesugarsTo(y, parts);
    hide Desugar, Template;
    var ps := [Word("$encoding"), Word("base64"), Word("data"), Word(y.value)];
    var os := PartsPlain(parts, DesugarKids(y));
    assert os == [Some(ps[0]), Some(ps[1]), Some(ps[2]), Some(ps[3])];
    assert AllSome(os).Some? && AllSome(os).value == ps;
  }

  /**
   * A !!binary scalar evaluates to its bytes, if its text is text to the decoder too. Its tag is gone by then: text
   * that looks like a number, or no text at all, is refused.
   */
  lemma BinaryMeans(dec: Decoder, env: Env, y: Y, v: Tree)
    requires Sane(dec) && y.Y? && y.kind == Scalar && y.tag == Core("binary")
    requires dec.scalar(dec.resolve(y.value), y.value) == Some(v) && !v.List? && !v.Obj?
    ensures Meaning(dec, y) == Some(Obj(map["$encoding" := Str("base64"), "data" := v]))
    ensures
      var r := Full(env, Meaning(dec, y).value);
      if v.Str? && env.decode("base64", v.s).Some? then r == Ok(Str(env.decode("base64", v.s).value), {}) else r.Err?
  {
    BinaryDesugars(y);
    var p := Plain(Mapping, NoTag, "", [Word("$encoding"), Word("base64"), Word("data"), Word(y.value)]);
    assert Decode(dec, p.kids[3]) == Some(v);
    WordDecodes(dec, "$encoding");
    WordDecodes(dec, "base64");
    WordDecodes(dec, "data");
    hide Desugar, Decode, Sane, Eval;
    TwoPairs(dec, p, "$encoding", "base64", "data", Word(y.value), v);
    var m: map<string, Tree> := map["$encoding" := Str("base64"), "data" := v];
    EncodingNode(env, m, "base64");
    LeafNode(env, v, -1);
  }

  lemma TwoPairs(dec: Decoder, p: Plain, k1: string, w: string, k2: string, q: Plain, v: Tree)
    requires p == Plain(Mapping, NoTag, "", [Word(k1), Word(w), Word(k2), q]) && k1 != k2
    requires StringKey(dec, Word(k1)) && StringKey(dec, Word(k2)) && Decode(dec, Word(k1)).Some? && Decode(dec, Word(k2)).Some?
    requires Decode(dec, Word(w)) == Some(Str(w)) && Decode(dec, q) == Some(v)
    ensures Decode(dec, p) == Some(Obj(map[k1 := Str(w), k2 := v]))
  {
    var os := DecodeKids(dec, p);
    assert os[0] == Decode(dec, Word(k1)) && os[1] == Some(Str(w)) && os[2] == Decode(dec, Word(k2)) && os[3] == Some(v);
    MappingDecodes(dec, p);
    hide Decode, StringKey;
    FourKids(dec, k1, k2, p.kids, os);
  }

  // ---- two-field references ----

  function TwoFieldPlain(ty: string, f1: string, f2: string, p: Plain, q: Plain): Plain {
    Plain(Mapping, NoTag, "", [Word("$type"), Word(ty), Word(f1), p, Word(f2), q])
  }

  /** !Connection, !Output and !Answer decode to references of their kind, each field under its name. */
  lemma TwoFieldsDecode(dec: Decoder, ty: string, f1: string, f2: string, p: Plain, q: Plain)
    requires Sane(dec) && TwoFieldTag(ty, f1, f2)
    ensures Decode(dec, TwoFieldPlain(ty, f1, f2, p, q)) ==
      if Decode(dec, p).None? || Decode(dec, q).None? then None
      else Some(Obj(map["$type" := Str(ty), f1 := Decode(dec, p).value, f2 := Decode(dec, q).value]))
  {
    WordDecodes(dec, "$type");
    WordDecodes(dec, ty);
    WordDecodes(dec, f1);
    WordDecodes(dec, f2);
    TwoFieldsTemplate(ty, f1, f2, Sequence, "", []);
    assert f1 != "$type" && f2 != "$type" by { assert f1[0] != '$' && f2[0] != '$'; }
    hide Decode, Sane, StringKey, TwoFieldTag;
    var r := TwoFieldPlain(ty, f1, f2, p, q);
    ThreePairs(dec, r, "$type", ty, f1, p, f2, q);
  }

  lemma ThreePairs(dec: Decoder, r: Plain, k1: string, w: string, k2: string, p: Plain, k3: string, q: Plain)
    requires r == Plain(Mapping, NoTag, "", [Word(k1), Word(w), Word(k2), p, Word(k3), q]) && k1 != k2 && k1 != k3 && k2 != k3
    requires StringKey(dec, Word(k1)) && StringKey(dec, Word(k2)) && StringKey(dec, Word(k3))
    requires Decode(dec, Word(k1)).Some? && Decode(dec, Word(k2)).Some? && Decode(dec, Word(k3)).Some? && Decode(dec, Word(w)) == Some(Str(w))
    ensures Decode(dec, r) ==
      if Decode(dec, p).None? || Decode(dec, q).None? then None
      else Some(Obj(map[k1 := Str(w), k2 := Decode(dec, p).value, k3 := Decode(dec, q).value]))
  {
    var os := DecodeKids(dec, r);
    assert os[0] == Decode(dec, Word(k1)) && os[1] == Some(Str(w)) && os[2] == Decode(dec, Word(k2)) && os[3] == Decode(dec, p);
    assert os[4] == Decode(dec, Word(k3)) && os[5] == Decode(dec, q);
    MappingDecodes(dec, r);
    hide Decode, StringKey;
    SixKids(dec, r.kids, os, k1, k2, k3);
  }

  lemma SixKids(dec: Decoder, kids: seq<Plain>, os: seq<Option<Tree>>, k1: string, k2: string, k3: string)
    requires |kids| == |os| == 6 && StringKey(dec, kids[0]) && StringKey(dec, kids[2]) && StringKey(dec, kids[4])
    requires kids[0].value == k1 && kids[2].value == k2 && kids[4].value == k3 && k1 != k2 && k1 != k3 && k2 != k3
    requires os[0].Some? && os[1].Some? && os[2].Some? && os[4].Some?
    ensures DecodeMapping(dec, kids, os) ==
      if os[3].None? || os[5].None? then None
      else Some(Obj(map[k1 := os[1].value, k2 := os[3].value, k3 := os[5].value]))
  {
    hide StringKey;
    if os[3].Some? && os[5].Some? {
      var vs := seq(|os|, i requires 0 <= i < |os| => os[i].GetOr(Null));
      assert forall i :: 0 <= i < 6 && i % 2 == 0 ==> i == 0 || i == 2 || i == 4;
      assert !Repeats(kids);
      assert Pairs(kids, vs, 1) == map[k1 := os[1].value];
      assert Pairs(kids, vs, 2) == map[k1 := os[1].value, k2 := os[3].value];
      assert Pairs(kids, vs, 3) == map[k1 := os[1].value, k2 := os[3].value, k3 := os[5].value];
    }
  }

  // ---- everything without a custom tag is kept ----

  /** A node without a tag, or with one of YAML's own, stays what it is around its children; !!binary scalars excepted. */
  lemma CoreNodesStay(y: Y, ps: seq<Plain>)
    requires y.Y? && (y.tag == NoTag || (y.tag.Core? && !(y.tag == Core("binary") && y.kind == Scalar)))
    requires |ps| == |y.kids| && forall i :: 0 <= i < |ps| ==> Desugar(y.kids[i]) == Some(ps[i])
    ensures Desugar(y) == Some(Plain(y.kind, y.tag, y.value, ps))
  {
    DesugarLeave(y);
    hide Desugar;
    assert AllSome(DesugarKids(y)).Some? && AllSome(DesugarKids(y)).value == ps;
  }

  /** An alias stands for its target. */
  lemma AliasesFollow(id: nat, value: string, target: Y)
    ensures Desugar(Alias(id, value, target)) == Desugar(target)
  {
  }
}
