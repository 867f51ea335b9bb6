/**
 * The order in which the worklist comes to the nodes of a document, read off the document alone, and the one
 * thing that order can spoil: a key that is rewritten before the mapping that has to read it.
 */
module YamlOrder {
  import opened Trees
  import opened YamlSugar
  import opened YamlGraph

  /** Something waiting: a node of the document, a new node around some of them, or a child that is not there. */
  datatype Item = One(y: Y) | Many(ys: seq<Y>) | Gap

  /** The node an alias finally stands for. */
  function Target(y: Y): (t: Y)
    ensures t.Y? && Size(t) <= Size(y) && t.id == TargetId(y) && Desugar(t) == Desugar(y)
  {
    match y
    case Alias(_, _, target) => Target(target)
    case Y(_, _, _, _, _) => y
  }

  function Ones(ys: seq<Y>): (items: seq<Item>)
    ensures |items| == |ys| && forall i :: 0 <= i < |ys| ==> items[i] == One(ys[i])
  {
    seq(|ys|, i requires 0 <= i < |ys| => One(ys[i]))
  }

  function PartItem(p: Part, kids: seq<Y>): seq<Item> {
    match p
    case Child(i) => if i < |kids| then [One(kids[i])] else []
    case Group(_) => if kids == [] then [] else [Many(kids)]
    case Hole => [Gap]
    case _ => []
  }

  function PartItems(parts: seq<Part>, kids: seq<Y>): seq<Item> {
    if parts == [] then [] else PartItems(parts[..|parts| - 1], kids) + PartItem(parts[|parts| - 1], kids)
  }

  /** What a node adds to the queue; new text adds nothing that matters. */
  function Follows(y: Y): seq<Item>
    requires y.Y?
  {
    match Template(y.kind, y.tag, y.value, Keys(y.kids))
    case Reject => []
    case Leave => Ones(y.kids)
    case Become(parts) => PartItems(parts, y.kids)
  }

  // ---- the order ends: what follows a node weighs less ----

  function SizesOf(ys: seq<Y>): (ws: seq<nat>)
    ensures |ws| == |ys| && forall i :: 0 <= i < |ys| ==> ws[i] == Size(ys[i])
  {
    seq(|ys|, i requires 0 <= i < |ys| => Size(ys[i]))
  }

  function Weight(item: Item): nat {
    match item
    case One(y) => Size(y)
    case Many(ys) => 1 + Total(SizesOf(ys))
    case Gap => 1
  }

  function Weights(items: seq<Item>): (ws: seq<nat>)
    ensures |ws| == |items| && forall i :: 0 <= i < |items| ==> ws[i] == Weight(items[i])
  {
    seq(|items|, i requires 0 <= i < |items| => Weight(items[i]))
  }

  lemma WeightsConcat(a: seq<Item>, b: seq<Item>)
    ensures Total(Weights(a + b)) == Total(Weights(a)) + Total(Weights(b))
  {
    assert Weights(a + b) == Weights(a) + Weights(b);
    TotalConcat(Weights(a), Weights(b));
  }

  lemma WeightsHead(items: seq<Item>)
    requires items != []
    ensures Total(Weights(items)) == Weight(items[0]) + Total(Weights(items[1..]))
  {
    assert items == [items[0]] + items[1..];
    WeightsConcat([items[0]], items[1..]);
    assert Weights([items[0]]) == [Weight(items[0])] && [Weight(items[0])][..0] == [];
  }

  lemma OnesWeigh(ys: seq<Y>)
    ensures Weights(Ones(ys)) == SizesOf(ys)
  {
  }

  lemma {:induction false} PartItemsWeigh(parts: seq<Part>, kids: seq<Y>, ws: seq<nat>)
    requires |ws| == |parts| && forall j :: 0 <= j < |parts| ==> ws[j] == PartSizeOf(parts[j], SizesOf(kids))
    ensures Total(Weights(PartItems(parts, kids))) <= Total(ws)
  {
    if parts != [] {
      var n := |parts| - 1;
      PartItemsWeigh(parts[..n], kids, ws[..n]);
      WeightsConcat(PartItems(parts[..n], kids), PartItem(parts[n], kids));
      PartItemWeighs(parts[n], kids);
    }
  }

  lemma PartItemWeighs(p: Part, kids: seq<Y>)
    ensures Total(Weights(PartItem(p, kids))) <= PartSizeOf(p, SizesOf(kids))
  {
    var items := PartItem(p, kids);
    if items != [] {
      assert Weights(items) == [Weight(items[0])] && [Weight(items[0])][..0] == [];
    }
  }

  lemma FollowsIsLighter(y: Y)
    requires y.Y?
    ensures Total(Weights(Follows(y))) < Size(y)
  {
    var keys := Keys(y.kids);
    assert SizesOf(y.kids) == KidSizes(y);
    SettledIsLeft(y.kind, y.tag, y.value, keys);
    TemplateFits(y.kind, y.tag, y.value, keys);
    hide Template;
    match Template(y.kind, y.tag, y.value, keys)
    case Reject =>
    case Leave => OnesWeigh(y.kids);
    case Become(parts) =>
      var ws := seq(|parts|, j requires 0 <= j < |parts| => PartSizeOf(parts[j], SizesOf(y.kids)));
      PartItemsWeigh(parts, y.kids, ws);
      PartsTotal(parts, KidSizes(y), ws);
  }

  lemma OrderEnds(items: seq<Item>)
    requires items != []
    ensures items[0].One? ==>
      Total(Weights(items[1..] + Follows(Target(items[0].y)))) < Total(Weights(items))
    ensures items[0].Many? ==> Total(Weights(items[1..] + Ones(items[0].ys))) < Total(Weights(items))
    ensures items[0].Gap? ==> Total(Weights(items[1..])) < Total(Weights(items))
  {
    hide Follows, Size;
    WeightsHead(items);
    match items[0]
    case One(y) =>
      FollowsIsLighter(Target(y));
      WeightsConcat(items[1..], Follows(Target(y)));
    case Many(ys) =>
      OnesWeigh(ys);
      WeightsConcat(items[1..], Ones(ys));
    case Gap =>
  }

  /** The nodes of the document in the order in which the worklist comes to them. */
  function Order(items: seq<Item>): seq<Y>
    decreases Total(Weights(items))
  {
    if items == [] then []
    else
      OrderEnds(items);
      match items[0]
      case One(y) => [Target(y)] + Order(items[1..] + Follows(Target(y)))
      case Many(ys) => Order(items[1..] + Ones(ys))
      case Gap => Order(items[1..])
  }

  // ---- races ----

  /** Child `c` is a key that the transformer of `y` reads. */
  predicate Reads(y: Y, c: nat)
    requires y.Y?
  {
    y.kind == Mapping && y.tag.Custom? && !HasPrefix(y.tag.name, "Fn.") && c < |y.kids| && c % 2 == 0
  }

  /** Coming to the node erases its text. */
  predicate Erased(y: Y) { y.Y? && !Settled(y.kind, y.tag) }

  predicate Seen(visits: seq<Y>, id: nat) { exists i :: 0 <= i < |visits| && visits[i].id == id }

  /** Visit `j` is the first to its node, and a key that it has to read was rewritten before. */
  predicate Raced(visits: seq<Y>, j: nat) {
    && j < |visits| && visits[j].Y? && !Seen(visits[..j], visits[j].id)
    && exists c :: 0 <= c < |visits[j].kids| && Reads(visits[j], c) && Erased(visits[j].kids[c]) && Seen(visits[..j], visits[j].kids[c].id)
  }

  predicate RaceFree(visits: seq<Y>) { forall j: nat :: j < |visits| ==> !Raced(visits, j) }

  /** The condition under which a document is accepted besides having a desugaring. */
  predicate KeysAreReadInTime(root: Y) { RaceFree(Order([One(root)])) }

  /** How the worklist ends, read off the document alone: by a refusal, on a child that is not there, or well. */
  datatype Fate = Accept | Refuse | Crash

  predicate RefusedAt(visits: seq<Y>, y: Y)
    requires y.Y?
  {
    Template(y.kind, y.tag, y.value, Keys(y.kids)) == Reject || Raced(visits + [y], |visits|)
  }

  /** A child that is not there cannot be looked at. */
  function FailureAt(tag: Tag): Fate { if tag == Nil then Crash else Refuse }

  function FateOf(items: seq<Item>, visits: seq<Y>): Fate
    decreases Total(Weights(items))
  {
    if items == [] then Accept
    else
      OrderEnds(items);
      match items[0]
      case One(y) =>
        var t := Target(y);
        if RefusedAt(visits, t) then FailureAt(t.tag) else FateOf(items[1..] + Follows(t), visits + [t])
      case Many(ys) => FateOf(items[1..] + Ones(ys), visits)
      case Gap => Crash
  }

  lemma RaceFreeNext(visits: seq<Y>, y: Y)
    requires RaceFree(visits) && !Raced(visits + [y], |visits|)
    ensures RaceFree(visits + [y])
  {
    forall j: nat | j < |visits| + 1 ensures !Raced(visits + [y], j) {
      if j < |visits| {
        assert (visits + [y])[..j] == visits[..j];
        assert !Raced(visits, j);
      }
    }
  }

  /** A race stays a race whatever follows. */
  lemma RacedEarlier(visits: seq<Y>, more: seq<Y>, j: nat)
    requires Raced(visits, j)
    ensures !RaceFree(visits + more)
  {
    assert (visits + more)[..j] == visits[..j];
    assert Raced(visits + more, j);
  }

  /** Only the first and third children's text matters, to mappings of certain tags. */
  lemma SameKeysRead(kind: Kind, tag: Tag, value: string, keys: seq<string>, keys': seq<string>)
    requires |keys| == |keys'|
    requires kind == Mapping && tag.Custom? && !HasPrefix(tag.name, "Fn.") ==>
      (|keys| > 0 ==> keys'[0] == keys[0]) && (|keys| > 2 ==> keys'[2] == keys[2])
    ensures Template(kind, tag, value, keys') == Template(kind, tag, value, keys)
  {
    if tag.Custom? && HasPrefix(tag.name, "Fn.") { assert tag.name[0] == tag.name[..3][0] == 'F'; }
  }

  lemma BlankKeyRead(tag: Tag, value: string, keys: seq<string>, c: nat)
    requires tag.Custom? && !HasPrefix(tag.name, "Fn.") && c < |keys| && c % 2 == 0 && keys[c] == ""
    ensures Template(Mapping, tag, value, keys) == Reject
  {
    if |keys| == 2 { assert c == 0; }
    if |keys| == 4 { assert c == 0 || c == 2; }
  }

  /** With the keys that it reads intact, a transformer does what it would have done at first. */
  lemma IntactKeys(y: Y, keys: seq<string>)
    requires y.Y? && |keys| == |y.kids| && forall c :: 0 <= c < |keys| && Reads(y, c) ==> keys[c] == y.kids[c].value
    ensures Template(y.kind, y.tag, y.value, keys) == Template(y.kind, y.tag, y.value, Keys(y.kids))
  {
    hide Template;
    assert 0 % 2 == 0 && 2 % 2 == 0;
    if y.kind == Mapping && y.tag.Custom? && !HasPrefix(y.tag.name, "Fn.") {
      if |keys| > 0 { assert Reads(y, 0); }
      if |keys| > 2 { assert Reads(y, 2); }
    }
    SameKeysRead(y.kind, y.tag, y.value, Keys(y.kids), keys);
  }

  /** With one of them blank, it refuses. */
  lemma BlankKeyRefused(y: Y, keys: seq<string>, c: nat)
    requires y.Y? && |keys| == |y.kids| && Reads(y, c) && keys[c] == ""
    ensures Template(y.kind, y.tag, y.value, keys) == Reject
  {
    hide Template;
    BlankKeyRead(y.tag, y.value, keys, c);
  }

  // ---- documents whose keys carry no rewritten tag never race ----

  predicate ItemPlain(item: Item) {
    match item
    case One(y) => PlainKeys(y)
    case Many(ys) => forall i :: 0 <= i < |ys| ==> PlainKeys(ys[i])
    case Gap => true
  }

  predicate AllPlain(items: seq<Item>) { forall i :: 0 <= i < |items| ==> ItemPlain(items[i]) }

  lemma {:induction false} TargetPlain(y: Y)
    requires PlainKeys(y)
    ensures PlainKeys(Target(y))
  {
    if y.Alias? { TargetPlain(y.target); }
  }

  lemma {:induction false} PartItemsPlain(parts: seq<Part>, kids: seq<Y>)
    requires forall i :: 0 <= i < |kids| ==> PlainKeys(kids[i])
    ensures AllPlain(PartItems(parts, kids))
  {
    if parts != [] { PartItemsPlain(parts[..|parts| - 1], kids); }
  }

  lemma FollowsPlain(y: Y)
    requires y.Y? && PlainKeys(y)
    ensures AllPlain(Follows(y))
  {
    hide Template;
    match Template(y.kind, y.tag, y.value, Keys(y.kids))
    case Become(parts) => PartItemsPlain(parts, y.kids);
    case _ =>
  }

  lemma {:induction false} OrderPlain(items: seq<Item>)
    requires AllPlain(items)
    ensures forall j :: 0 <= j < |Order(items)| ==> Order(items)[j].Y? && PlainKeys(Order(items)[j])
    decreases Total(Weights(items))
  {
    if items != [] {
      hide PlainKeys, Follows;
      OrderEnds(items);
      assert ItemPlain(items[0]);
      match items[0]
      case One(y) =>
        TargetPlain(y);
        FollowsPlain(Target(y));
        OrderPlain(items[1..] + Follows(Target(y)));
      case Many(ys) => OrderPlain(items[1..] + Ones(ys));
      case Gap => OrderPlain(items[1..]);
    }
  }

  lemma PlainKeysAreReadInTime(y: Y)
    requires PlainKeys(y)
    ensures KeysAreReadInTime(y)
  {
    OrderPlain([One(y)]);
    hide Order;
    var visits := Order([One(y)]);
    forall j: nat | j < |visits| ensures !Raced(visits, j) {
      assert PlainKeys(visits[j]);
    }
  }
}
