/**
 * A text format that keeps every document exists: a rendering that can be told apart from any other, whatever
 * follows it. What Serialize and Transfer ask of a format can therefore be met.
 */
module TextFormats {
  import opened Trees
  import opened Staging
  import opened Serialize

  /** A count in unary, closed by a dot. */
  function Unary(n: nat): string { if n == 0 then "." else "1" + Unary(n - 1) }

  function Integer(n: int): string { if n < 0 then "-" + Unary(-n) else "+" + Unary(n) }

  function Text(s: string): string { Unary(|s|) + s }

  ghost function Render(t: Tree): string
    decreases t, 1, 0
  {
    match t
    case Null => "n"
    case Bool(b) => if b then "t" else "f"
    case Num(m, e) => "d" + (Integer(m) + Integer(e))
    case Str(s) => "s" + Text(s)
    case Time(n) => "c" + Integer(n)
    case List(items) => "l" + RenderItems(t, 0)
    case Obj(fields) => "o" + RenderFields(t, fields.Keys)
    case Unsupported(ty) => "u" + Text(ty)
  }

  ghost function RenderItems(t: Tree, i: nat): string
    requires t.List? && i <= |t.items|
    decreases t, 0, |t.items| - i
  {
    if i == |t.items| then ";" else "," + (Render(t.items[i]) + RenderItems(t, i + 1))
  }

  ghost function Pick(keys: set<string>): string
    requires keys != {}
    ensures Pick(keys) in keys
  {
    var k :| k in keys; k
  }

  ghost function RenderFields(t: Tree, keys: set<string>): string
    requires t.Obj? && keys <= t.fields.Keys
    decreases t, 0, |keys|
  {
    if keys == {} then ";"
    else
      var k := Pick(keys);
      "," + (Text(k) + (Render(t.fields[k]) + RenderFields(t, keys - {k})))
  }

  lemma {:induction false} UnaryIsPrefix(n: nat, n': nat, r: string, r': string)
    requires Unary(n) + r == Unary(n') + r'
    ensures n == n' && r == r'
  {
    var x, x' := Unary(n) + r, Unary(n') + r';
    assert x[0] == x'[0];
    if n > 0 {
      assert x[1..] == Unary(n - 1) + r && x'[1..] == Unary(n' - 1) + r';
      UnaryIsPrefix(n - 1, n' - 1, r, r');
    } else {
      assert x[1..] == r && x'[1..] == r';
    }
  }

  lemma Assoc(a: string, b: string, r: string)
    ensures (a + b) + r == a + (b + r)
  {
  }

  /** Equal texts with one leading character each: the characters and the rests are equal. */
  lemma Lead(c: string, a: string, r: string, c': string, a': string, r': string)
    requires |c| == |c'| == 1 && (c + a) + r == (c' + a') + r'
    ensures c == c' && a + r == a' + r'
  {
    Assoc(c, a, r);
    Assoc(c', a', r');
    var x, x' := c + (a + r), c' + (a' + r');
    assert x[..1] == c && x'[..1] == c' && x[1..] == a + r && x'[1..] == a' + r';
  }

  lemma IntegerIsPrefix(n: int, n': int, r: string, r': string)
    requires Integer(n) + r == Integer(n') + r'
    ensures n == n' && r == r'
  {
    var u, u' := Unary(if n < 0 then -n else n), Unary(if n' < 0 then -n' else n');
    Lead(if n < 0 then "-" else "+", u, r, if n' < 0 then "-" else "+", u', r');
    UnaryIsPrefix(if n < 0 then -n else n, if n' < 0 then -n' else n', r, r');
  }

  lemma TextIsPrefix(s: string, s': string, r: string, r': string)
    requires Text(s) + r == Text(s') + r'
    ensures s == s' && r == r'
  {
    Assoc(Unary(|s|), s, r);
    Assoc(Unary(|s'|), s', r');
    UnaryIsPrefix(|s|, |s'|, s + r, s' + r');
    assert (s + r)[..|s|] == s && (s' + r')[..|s'|] == s';
    assert (s + r)[|s|..] == r && (s' + r')[|s'|..] == r';
  }

  ghost function Mark(t: Tree): string {
    match t
    case Null => "n"
    case Bool(b) => if b then "t" else "f"
    case Num(_, _) => "d"
    case Str(_) => "s"
    case Time(_) => "c"
    case List(_) => "l"
    case Obj(_) => "o"
    case Unsupported(_) => "u"
  }

  ghost function Body(t: Tree): string {
    match t
    case Null => ""
    case Bool(_) => ""
    case Num(m, e) => Integer(m) + Integer(e)
    case Str(s) => Text(s)
    case Time(n) => Integer(n)
    case List(_) => RenderItems(t, 0)
    case Obj(fields) => RenderFields(t, fields.Keys)
    case Unsupported(ty) => Text(ty)
  }

  lemma MarkAndBody(t: Tree)
    ensures Render(t) == Mark(t) + Body(t) && |Mark(t)| == 1
  {
  }

  lemma SameMark(t: Tree, t': Tree)
    requires Mark(t) == Mark(t')
    ensures t.Null? == t'.Null? && t.Bool? == t'.Bool? && t.Num? == t'.Num? && t.Str? == t'.Str?
    ensures t.Time? == t'.Time? && t.List? == t'.List? && t.Obj? == t'.Obj? && (t.Bool? ==> t == t')
  {
    assert Mark(t)[0] == Mark(t')[0];
  }

  /** Renderings can be told apart, whatever follows them. */
  lemma {:induction false} RenderIsPrefix(t: Tree, t': Tree, r: string, r': string)
    requires Render(t) + r == Render(t') + r'
    ensures t == t' && r == r'
    decreases t, 1, 0
  {
    MarkAndBody(t);
    MarkAndBody(t');
    hide Render;
    Lead(Mark(t), Body(t), r, Mark(t'), Body(t'), r');
    SameMark(t, t');
    hide Mark, Integer, Text, RenderItems, RenderFields;
    match t
    case Null => assert "" + r == r && "" + r' == r';
    case Bool(_) => assert "" + r == r && "" + r' == r';
    case Num(m, e) =>
      Assoc(Integer(m), Integer(e), r);
      Assoc(Integer(t'.mantissa), Integer(t'.exponent), r');
      IntegerIsPrefix(m, t'.mantissa, Integer(e) + r, Integer(t'.exponent) + r');
      IntegerIsPrefix(e, t'.exponent, r, r');
    case Str(s) => TextIsPrefix(s, t'.s, r, r');
    case Time(n) => IntegerIsPrefix(n, t'.t, r, r');
    case List(items) =>
      ItemsArePrefix(t, t', 0, r, r');
      assert items == t'.items;
    case Obj(fields) => FieldsArePrefix(t, t', fields.Keys, t'.fields.Keys, r, r');
    case Unsupported(ty) => TextIsPrefix(ty, t'.goType, r, r');
  }

  ghost function ItemsRest(t: Tree, i: nat): string
    requires t.List? && i < |t.items|
  {
    Render(t.items[i]) + RenderItems(t, i + 1)
  }

  lemma ItemsUnfold(t: Tree, i: nat, r: string)
    requires t.List? && i <= |t.items|
    ensures RenderItems(t, i) + r == if i == |t.items| then (";" + "") + r else ("," + ItemsRest(t, i)) + r
    ensures i < |t.items| ==> ItemsRest(t, i) + r == Render(t.items[i]) + (RenderItems(t, i + 1) + r)
  {
    if i < |t.items| { Assoc(Render(t.items[i]), RenderItems(t, i + 1), r); } else { assert ";" + "" == ";"; }
  }

  lemma {:induction false} ItemsArePrefix(t: Tree, t': Tree, i: nat, r: string, r': string)
    requires t.List? && t'.List? && i <= |t.items| && i <= |t'.items|
    requires RenderItems(t, i) + r == RenderItems(t', i) + r'
    ensures |t.items| == |t'.items| && (forall j :: i <= j < |t.items| ==> t.items[j] == t'.items[j]) && r == r'
    decreases t, 0, |t.items| - i
  {
    ItemsUnfold(t, i, r);
    ItemsUnfold(t', i, r');
    hide RenderItems, ItemsRest;
    Lead(if i == |t.items| then ";" else ",", if i == |t.items| then "" else ItemsRest(t, i), r,
         if i == |t'.items| then ";" else ",", if i == |t'.items| then "" else ItemsRest(t', i), r');
    if i < |t.items| {
      RenderIsPrefix(t.items[i], t'.items[i], RenderItems(t, i + 1) + r, RenderItems(t', i + 1) + r');
      ItemsArePrefix(t, t', i + 1, r, r');
    } else {
      assert "" + r == r && "" + r' == r';
    }
  }

  ghost function FieldsRest(t: Tree, keys: set<string>): string
    requires t.Obj? && keys <= t.fields.Keys && keys != {}
  {
    var k := Pick(keys);
    Text(k) + (Render(t.fields[k]) + RenderFields(t, keys - {k}))
  }

  lemma FieldsUnfold(t: Tree, keys: set<string>, r: string)
    requires t.Obj? && keys <= t.fields.Keys
    ensures RenderFields(t, keys) + r == if keys == {} then (";" + "") + r else ("," + FieldsRest(t, keys)) + r
    ensures keys != {} ==>
      var k := Pick(keys);
      FieldsRest(t, keys) + r == Text(k) + (Render(t.fields[k]) + (RenderFields(t, keys - {k}) + r))
  {
    if keys != {} {
      var k := Pick(keys);
      Assoc(Text(k), Render(t.fields[k]) + RenderFields(t, keys - {k}), r);
      Assoc(Render(t.fields[k]), RenderFields(t, keys - {k}), r);
    } else {
      assert ";" + "" == ";";
    }
  }

  lemma {:induction false} FieldsArePrefix(t: Tree, t': Tree, keys: set<string>, keys': set<string>, r: string, r': string)
    requires t.Obj? && t'.Obj? && keys <= t.fields.Keys && keys' <= t'.fields.Keys
    requires RenderFields(t, keys) + r == RenderFields(t', keys') + r'
    ensures keys == keys' && (forall k :: k in keys ==> t.fields[k] == t'.fields[k]) && r == r'
    decreases t, 0, |keys|
  {
    FieldsUnfold(t, keys, r);
    FieldsUnfold(t', keys', r');
    hide RenderFields, FieldsRest, Text;
    Lead(if keys == {} then ";" else ",", if keys == {} then "" else FieldsRest(t, keys), r,
         if keys' == {} then ";" else ",", if keys' == {} then "" else FieldsRest(t', keys'), r');
    if keys != {} {
      var k, k' := Pick(keys), Pick(keys');
      var s, s' := RenderFields(t, keys - {k}) + r, RenderFields(t', keys' - {k'}) + r';
      TextIsPrefix(k, k', Render(t.fields[k]) + s, Render(t'.fields[k']) + s');
      RenderIsPrefix(t.fields[k], t'.fields[k'], s, s');
      FieldsArePrefix(t, t', keys - {k}, keys' - {k'}, r, r');
      assert keys == keys - {k} + {k} && keys' == keys' - {k'} + {k'};
    } else {
      assert "" + r == r && "" + r' == r';
    }
  }

  /** Whoever rendered it, at most one tree has a given rendering. */
  ghost function Parse(s: string): Option<Tree> {
    if exists t :: Render(t) == s then var t :| Render(t) == s; Some(t) else None
  }

  lemma ParseInvertsRender(t: Tree)
    ensures Parse(Render(t)) == Some(t)
  {
    hide Render;
    var t' := Parse(Render(t)).value;
    assert Render(t) + "" == Render(t') + "";
    RenderIsPrefix(t, t', "", "");
  }

  /** What the theorems about serialisation ask of the text format is met by this one. */
  lemma AFormatExists(mp: Mapper)
    requires (forall s :: mp.isText(mp.encode(s))) && mp.isText(BASE64) && mp.isText(ENCODING) && mp.isText(DATA)
    ensures exists txt :: RoundTrips(mp, txt)
  {
    hide Render, Parse;
    var txt := TextFormat(t => Render(t), s => Parse(s));
    forall t ensures txt.parse(txt.render(t)) == Some(t) { ParseInvertsRender(t); }
    assert RoundTrips(mp, txt);
  }
}
