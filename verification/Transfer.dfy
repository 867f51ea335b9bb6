/**
 * The codec of values kept in a ConfigMap: strings that are not text are written as `$encoding` nodes, and
 * every node that looks like one is decoded on the way back (transfer.JSONInterface, used in
 * pkg/manager/configmap/kv.go).
 */
module Transfer {
  import opened Trees
  import opened Staging
  import opened Serialize

  datatype Codec = Codec(mp: Mapper, txt: TextFormat, decode: (string, string) -> Option<string>)

  ghost predicate Lawful(c: Codec) {
    RoundTrips(c.mp, c.txt) && forall s :: !c.mp.isText(s) ==> c.decode(BASE64, c.mp.encode(s)) == Some(s)
  }

  predicate AllDecode(os: map<string, Option<Tree>>) { forall k :: k in os ==> os[k].Some? }

  function DecodedItems(c: Codec, t: Tree): (os: seq<Option<Tree>>)
    requires t.List?
    ensures |os| == |t.items| && forall i :: 0 <= i < |os| ==> os[i] == Decoded(c, t.items[i])
    decreases t, 0
  {
    seq(|t.items|, i requires 0 <= i < |t.items| => Decoded(c, t.items[i]))
  }

  function DecodedFields(c: Codec, t: Tree): (os: map<string, Option<Tree>>)
    requires t.Obj?
    ensures os.Keys == t.fields.Keys && forall k :: k in os ==> os[k] == Decoded(c, t.fields[k])
    decreases t, 0
  {
    map k | k in t.fields :: Decoded(c, t.fields[k])
  }

  /** Data that is no string is taken for the empty string. */
  function DataText(m: map<string, Tree>): string { if DATA in m && m[DATA].Str? then m[DATA].s else "" }

  predicate IsEncoded(m: map<string, Tree>) { ENCODING in m && m[ENCODING].Str? }

  /** Reading: an encoded node becomes its decoded string; its children must decode all the same. */
  function Decoded(c: Codec, t: Tree): Option<Tree>
    decreases t, 1
  {
    match t
    case List(_) =>
      var os := DecodedItems(c, t);
      if forall i :: 0 <= i < |os| ==> os[i].Some? then Some(List(seq(|os|, i requires 0 <= i < |os| => os[i].GetOr(Null)))) else None
    case Obj(m) =>
      var os := DecodedFields(c, t);
      if !AllDecode(os) then None
      else if !IsEncoded(m) then Some(Obj(map k | k in os :: os[k].GetOr(Null)))
      else (match c.decode(m[ENCODING].s, DataText(m)) case None => None case Some(s) => Some(Str(s)))
    case _ => Some(t)
  }

  function Marshal(c: Codec, t: Tree): string { c.txt.render(Safe(c.mp, t)) }

  function Unmarshal(c: Codec, s: string): Option<Tree> {
    match c.txt.parse(s)
    case None => None
    case Some(t) => Decoded(c, t)
  }

  /** What comes back of a value that was written. */
  function ReadBack(c: Codec, t: Tree): Option<Tree> { Unmarshal(c, Marshal(c, t)) }

  /** Somewhere in the value is a node that reading takes for an encoded string. */
  predicate HasEncoded(mp: Mapper, t: Tree) {
    match t
    case List(items) => exists i :: 0 <= i < |items| && HasEncoded(mp, items[i])
    case Obj(m) => (IsEncoded(m) && mp.isText(m[ENCODING].s)) || exists k :: k in m && HasEncoded(mp, m[k])
    case _ => false
  }

  lemma BytesComeBack(c: Codec, s: string)
    requires Lawful(c) && !c.mp.isText(s)
    ensures Decoded(c, Safe(c.mp, Str(s))) == Some(Str(s))
  {
    var t := Safe(c.mp, Str(s));
    var os := DecodedFields(c, t);
    assert os[ENCODING] == Some(Str(BASE64)) && os[DATA] == Some(Str(c.mp.encode(s)));
    assert os.Keys == {ENCODING, DATA};
  }

  lemma ListComesBack(c: Codec, t: Tree)
    requires t.List?
    requires forall i :: 0 <= i < |t.items| ==> (Decoded(c, Safe(c.mp, t.items[i])) == Some(t.items[i]) <==> !HasEncoded(c.mp, t.items[i]))
    ensures Decoded(c, Safe(c.mp, t)) == Some(t) <==> !HasEncoded(c.mp, t)
  {
    var w := Safe(c.mp, t);
    var os := DecodedItems(c, w);
    if !HasEncoded(c.mp, t) {
      assert forall i :: 0 <= i < |os| ==> os[i] == Some(t.items[i]);
      assert Decoded(c, w).value.items == t.items;
    } else if Decoded(c, w).Some? {
      var i :| 0 <= i < |t.items| && HasEncoded(c.mp, t.items[i]);
      assert os[i] == Some(Decoded(c, w).value.items[i]);
    }
  }

  /** A node that is not taken for an encoded string is read field by field. */
  lemma DecodedObject(c: Codec, w: Tree)
    requires w.Obj? && !IsEncoded(w.fields)
    ensures Decoded(c, w).Some? <==> forall k :: k in w.fields ==> Decoded(c, w.fields[k]).Some?
    ensures Decoded(c, w).Some? ==>
      && Decoded(c, w).value.Obj? && Decoded(c, w).value.fields.Keys == w.fields.Keys
      && forall k :: k in w.fields ==> Decoded(c, w.fields[k]) == Some(Decoded(c, w).value.fields[k])
  {
  }

  lemma EncodedIsNoObject(c: Codec, w: Tree)
    requires w.Obj? && IsEncoded(w.fields)
    ensures Decoded(c, w).Some? ==> Decoded(c, w).value.Str?
  {
  }

  lemma SafeFields(mp: Mapper, t: Tree)
    requires t.Obj?
    ensures Safe(mp, t).Obj? && Safe(mp, t).fields.Keys == t.fields.Keys
    ensures forall k :: k in t.fields ==> Safe(mp, t).fields[k] == Safe(mp, t.fields[k])
    ensures IsEncoded(Safe(mp, t).fields) <==> IsEncoded(t.fields) && mp.isText(t.fields[ENCODING].s)
  {
  }

  lemma ObjectComesBack(c: Codec, t: Tree)
    requires t.Obj?
    requires forall k :: k in t.fields ==> (Decoded(c, Safe(c.mp, t.fields[k])) == Some(t.fields[k]) <==> !HasEncoded(c.mp, t.fields[k]))
    ensures Decoded(c, Safe(c.mp, t)) == Some(t) <==> !HasEncoded(c.mp, t)
  {
    hide Decoded, Safe;
    var w := Safe(c.mp, t);
    SafeFields(c.mp, t);
    if IsEncoded(w.fields) {
      EncodedIsNoObject(c, w);
    } else {
      DecodedObject(c, w);
      if !HasEncoded(c.mp, t) {
        assert Decoded(c, w).value.fields == t.fields;
      }
    }
  }

  lemma {:induction false} DecodedIff(c: Codec, t: Tree)
    requires Lawful(c)
    ensures Decoded(c, Safe(c.mp, t)) == Some(t) <==> !HasEncoded(c.mp, t)
  {
    match t
    case Str(s) => if !c.mp.isText(s) { BytesComeBack(c, s); }
    case List(items) =>
      forall i | 0 <= i < |items| { DecodedIff(c, items[i]); }
      ListComesBack(c, t);
    case Obj(m) =>
      forall k | k in m { DecodedIff(c, m[k]); }
      ObjectComesBack(c, t);
    case _ =>
  }

  lemma TextIsWritten(c: Codec, t: Tree)
    requires Lawful(c) && Jsonable(c.mp, t)
    ensures ReadBack(c, t) == Decoded(c, t)
  {
    JsonableParts(c.mp, t);
    TextIsSafe(c.mp, t);
  }

  /** A JSON value, whatever bytes its strings hold, comes back as it was exactly if it holds no encoded node. */
  lemma RoundTripIff(c: Codec, t: Tree)
    requires Lawful(c) && JsonShaped(c.mp, t)
    ensures ReadBack(c, t) == Some(t) <==> !HasEncoded(c.mp, t)
  {
    hide Decoded, Safe, HasEncoded;
    SafeIsJsonable(c.mp, c.txt, t);
    DecodedIff(c, t);
  }
}
