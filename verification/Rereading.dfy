/**
 * When a value that reading has changed still means what it meant: its encoded strings were decoded early,
 * which is what evaluating them would have done.
 */
module Rereading {
  import opened Trees
  import opened Semantics
  import opened Staging
  import opened Serialize
  import opened Transfer

  /** Reading takes the node for an encoded string. */
  predicate ReadAsText(mp: Mapper, m: map<string, Tree>) { IsEncoded(m) && mp.isText(m[ENCODING].s) }

  /** An encoded string as evaluation knows them: text for data, and nothing encoded beside it. */
  predicate ProperEncoding(mp: Mapper, m: map<string, Tree>)
    requires ReadAsText(mp, m)
  {
    && TYPE !in m && DATA in m && m[DATA].Str? && mp.isText(m[DATA].s)
    && forall k :: k in m ==> !HasEncoded(mp, m[k])
  }

  /** A node whose fields evaluation does not look into one by one. */
  predicate Sealed(m: map<string, Tree>) { TYPE in m || ENCODING in m }

  /** Every node that is read as text is a proper encoding, and none is sealed inside a reference or an opaque node. */
  predicate Rereadable(mp: Mapper, v: Tree) {
    match v
    case List(items) => forall i :: 0 <= i < |items| ==> Rereadable(mp, items[i])
    case Obj(m) =>
      if ReadAsText(mp, m) then ProperEncoding(mp, m)
      else if Sealed(m) then !HasEncoded(mp, v)
      else forall k :: k in m ==> Rereadable(mp, m[k])
    case _ => true
  }

  /** No call that holds an encoded string gets stuck: such a call comes back as it was written. */
  predicate NoStuckEncoding(mp: Mapper, env: Env, v: Tree) {
    match v
    case List(items) => forall i :: 0 <= i < |items| ==> NoStuckEncoding(mp, env, items[i])
    case Obj(m) =>
      if ReadAsText(mp, m) || Sealed(m) then true
      else (match ShapeOf(m)
            case CallShape(key) => NoStuckEncoding(mp, env, m[key]) && (HasEncoded(mp, m[key]) ==> !Stuck(env, key, m[key]))
            case _ => forall k :: k in m ==> NoStuckEncoding(mp, env, m[k]))
    case _ => true
  }

  /** What evaluating the value that was read has to do with evaluating the value. */
  predicate Finishes(env: Env, read: Option<Tree>, v: Tree, same: bool) {
    if read.None? then Full(env, v).Err? else Agree(Full(env, read.value), Full(env, v), same)
  }

  ghost predicate Decodes(c: Codec, env: Env) { forall ty, s :: env.decode(ty, s) == c.decode(ty, s) }

  function Reread(c: Codec, v: Tree): Option<Tree> { Decoded(c, Safe(c.mp, v)) }

  lemma AgreesWithItself(o: Outcome)
    ensures Agree(o, o, true)
  {
  }

  /** A value without encoded nodes is read as it is. */
  lemma Untouched(c: Codec, env: Env, v: Tree)
    requires Lawful(c) && !HasEncoded(c.mp, v)
    ensures Reread(c, v) == Some(v) && Finishes(env, Reread(c, v), v, true)
  {
    hide Eval, Decoded, Safe, HasEncoded;
    DecodedIff(c, v);
    AgreesWithItself(Full(env, v));
  }

  /** A proper encoding is read as the string that evaluating it gives, or not at all where that fails. */
  lemma EncodingFinishes(c: Codec, env: Env, m: map<string, Tree>)
    requires Lawful(c) && Decodes(c, env) && ReadAsText(c.mp, m) && ProperEncoding(c.mp, m)
    ensures Finishes(env, Reread(c, Obj(m)), Obj(m), true)
  {
    var w := Safe(c.mp, Obj(m));
    var ty, s := m[ENCODING].s, m[DATA].s;
    SafeFields(c.mp, Obj(m));
    assert Safe(c.mp, Str(ty)) == Str(ty) && Safe(c.mp, Str(s)) == Str(s);
    forall k | k in m ensures Decoded(c, w.fields[k]).Some? { DecodedIff(c, m[k]); }
    hide Safe;
    assert Decoded(c, w) == match c.decode(ty, s) case None => None case Some(x) => Some(Str(x));
    assert Full(env, m[DATA]) == Ok(Str(s), {});
    EvalEncodingStep(env, m, -1);
  }

  /** Any other node is read field by field. */
  lemma ReadFields(c: Codec, m: map<string, Tree>)
    requires !ReadAsText(c.mp, m)
    ensures Reread(c, Obj(m)).Some? <==> forall k :: k in m ==> Reread(c, m[k]).Some?
    ensures Reread(c, Obj(m)).Some? ==>
      && Reread(c, Obj(m)).value.Obj? && Reread(c, Obj(m)).value.fields.Keys == m.Keys
      && forall k :: k in m ==> Reread(c, m[k]) == Some(Reread(c, Obj(m)).value.fields[k])
  {
    SafeFields(c.mp, Obj(m));
    hide Safe, Decoded;
    DecodedObject(c, Safe(c.mp, Obj(m)));
  }

  lemma ReadItems(c: Codec, items: seq<Tree>)
    ensures Reread(c, List(items)).Some? <==> forall i :: 0 <= i < |items| ==> Reread(c, items[i]).Some?
    ensures Reread(c, List(items)).Some? ==>
      && Reread(c, List(items)).value.List? && |Reread(c, List(items)).value.items| == |items|
      && forall i :: 0 <= i < |items| ==> Reread(c, items[i]) == Some(Reread(c, List(items)).value.items[i])
  {
    SafeItems(c.mp, List(items));
    hide Safe;
    var os := DecodedItems(c, Safe(c.mp, List(items)));
    assert forall i :: 0 <= i < |items| ==> os[i] == Reread(c, items[i]);
  }

  lemma ItemsFinish(c: Codec, env: Env, items: seq<Tree>, same: seq<bool>)
    requires |same| == |items| && forall i :: 0 <= i < |items| ==> Finishes(env, Reread(c, items[i]), items[i], same[i])
    ensures Finishes(env, Reread(c, List(items)), List(items), forall i :: 0 <= i < |same| ==> same[i])
  {
    hide Eval, Agree, Reread;
    ReadItems(c, items);
    var v := List(items);
    FullList(env, v);
    if Reread(c, v).Some? {
      var w := Reread(c, v).value;
      FullList(env, w);
      ListsAgree(EvalItems(env, w, -1), EvalItems(env, v, -1), same);
    } else {
      var i :| 0 <= i < |items| && Reread(c, items[i]).None?;
      ListErr(EvalItems(env, v, -1), i);
    }
  }

  lemma FieldsFinish(c: Codec, env: Env, m: map<string, Tree>, same: map<string, bool>)
    requires ShapeOf(m).PlainShape? && same.Keys == m.Keys
    requires forall k :: k in m ==> Finishes(env, Reread(c, m[k]), m[k], same[k])
    ensures Finishes(env, Reread(c, Obj(m)), Obj(m), forall k :: k in same ==> same[k])
  {
    hide Eval, Agree, Reread;
    ReadFields(c, m);
    var v := Obj(m);
    FullPlain(env, v);
    if Reread(c, v).Some? {
      var w := Reread(c, v).value;
      SameKeysSameShape(m, w.fields);
      FullPlain(env, w);
      ObjsAgree(EvalFields(env, w, -1), EvalFields(env, v, -1), same);
    } else {
      var k :| k in m && Reread(c, m[k]).None?;
      ObjErr(EvalFields(env, v, -1), k);
    }
  }

  lemma CallFinishes(c: Codec, env: Env, m: map<string, Tree>, key: string, same: bool)
    requires Lawful(c) && ShapeOf(m) == CallShape(key) && Finishes(env, Reread(c, m[key]), m[key], same)
    ensures Finishes(env, Reread(c, Obj(m)), Obj(m), same && (HasEncoded(c.mp, m[key]) ==> !Stuck(env, key, m[key])))
  {
    hide Eval, Reread;
    OneField(m, key);
    ReadFields(c, m);
    EvalCallStep(env, m, key, -1);
    if Reread(c, Obj(m)).Some? {
      var w := Reread(c, Obj(m)).value.fields;
      SameKeysSameShape(m, w);
      EvalCallStep(env, w, key, -1);
      ReadChanges(c, m[key]);
      OneField(w, key);
      assert w == m <==> !HasEncoded(c.mp, m[key]);
      CallsAgree(env, key, w, Full(env, w[key]), m, Full(env, m[key]), same);
    }
  }

  lemma OneField(m: map<string, Tree>, key: string)
    requires ShapeOf(m) == CallShape(key)
    ensures m == map[key := m[key]]
  {
  }

  lemma ReadChanges(c: Codec, v: Tree)
    requires Lawful(c)
    ensures Reread(c, v) == Some(v) <==> !HasEncoded(c.mp, v)
  {
    hide Decoded, Safe, HasEncoded;
    DecodedIff(c, v);
  }

  /**
   * Finishing what was read agrees with finishing the value: it cannot be read only where evaluation fails, the
   * same references are missing, and the values are equal exactly if no call that holds an encoded string is stuck.
   */
  lemma {:induction false} RereadFinishes(c: Codec, env: Env, v: Tree)
    requires Lawful(c) && Decodes(c, env) && Rereadable(c.mp, v)
    ensures Finishes(env, Reread(c, v), v, NoStuckEncoding(c.mp, env, v))
    decreases v, 1
  {
    match v
    case List(items) =>
      var same := seq(|items|, i requires 0 <= i < |items| => NoStuckEncoding(c.mp, env, items[i]));
      forall i | 0 <= i < |items| ensures Finishes(env, Reread(c, items[i]), items[i], same[i]) { RereadFinishes(c, env, items[i]); }
      hide Finishes, Reread;
      ItemsFinish(c, env, items, same);
    case Obj(m) =>
      if ReadAsText(c.mp, m) {
        EncodingFinishes(c, env, m);
      } else if Sealed(m) {
        Untouched(c, env, v);
      } else {
        FieldsReread(c, env, m);
      }
    case _ =>
      LeafUntouched(c, v);
      Untouched(c, env, v);
  }

  lemma LeafUntouched(c: Codec, v: Tree)
    requires !v.List? && !v.Obj?
    ensures !HasEncoded(c.mp, v)
  {
  }

  lemma NoStuckFields(mp: Mapper, env: Env, m: map<string, Tree>, same: map<string, bool>)
    requires !Sealed(m) && ShapeOf(m).PlainShape? && same.Keys == m.Keys
    requires forall k :: k in m ==> same[k] == NoStuckEncoding(mp, env, m[k])
    ensures NoStuckEncoding(mp, env, Obj(m)) <==> forall k :: k in same ==> same[k]
  {
  }

  lemma {:induction false} FieldsReread(c: Codec, env: Env, m: map<string, Tree>)
    requires Lawful(c) && Decodes(c, env) && Rereadable(c.mp, Obj(m)) && !Sealed(m)
    ensures Finishes(env, Reread(c, Obj(m)), Obj(m), NoStuckEncoding(c.mp, env, Obj(m)))
    decreases Obj(m), 0
  {
    hide Eval, HasEncoded;
    var same := map k | k in m :: NoStuckEncoding(c.mp, env, m[k]);
    forall k | k in m ensures Finishes(env, Reread(c, m[k]), m[k], same[k]) { RereadFinishes(c, env, m[k]); }
    hide Finishes, Reread;
    if ShapeOf(m).CallShape? {
      CallFinishes(c, env, m, ShapeOf(m).key, same[ShapeOf(m).key]);
    } else {
      FieldsFinish(c, env, m, same);
      NoStuckFields(c.mp, env, m, same);
      hide NoStuckEncoding, ShapeOf;
    }
  }
}
