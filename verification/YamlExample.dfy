/**
 * A document that the in-place rewriting rejects although it has a desugaring: an alias above the
 * mapping leads the worklist to one of the mapping's keys first, and rewriting a key erases its text.
 *
 *   - [ !Secret { &k !!binary name : x } ]
 *   - *k
 */
module YamlExample {
  import opened Trees
  import opened YamlSugar
  import opened YamlGraph
  import opened YamlOrder
  import opened YamlParse

  const NODES: seq<Node> := [
    Node(Sequence, Core("seq"), "", [1, 2]),
    Node(Sequence, Core("seq"), "", [3]),
    AliasNode("k", 4),
    Node(Mapping, Custom("Secret"), "", [4, 5]),
    Node(Scalar, Core("binary"), "name", []),
    Node(Scalar, Core("str"), "x", [])]

  const KEY: Y := Y(4, Scalar, Core("binary"), "name", [])
  const VALUE: Y := Y(5, Scalar, Core("str"), "x", [])
  const SECRET: Y := Y(3, Mapping, Custom("Secret"), "", [KEY, VALUE])
  const LIST: Y := Y(1, Sequence, Core("seq"), "", [SECRET])
  const ROOT: Y := Y(0, Sequence, Core("seq"), "", [LIST, Alias(2, "k", KEY)])
  const UNFOLDING: seq<Y> := [ROOT, LIST, Alias(2, "k", KEY), SECRET, KEY, VALUE]

  /** A node desugars when its children do and no transformer rejects it or leaves a hole. */
  lemma Desugars(y: Y)
    requires y.Y? && Template(y.kind, y.tag, y.value, Keys(y.kids)) != Reject
    requires var t := Template(y.kind, y.tag, y.value, Keys(y.kids)); t.Become? ==> Hole !in t.parts
    requires forall i :: 0 <= i < |y.kids| ==> Desugar(y.kids[i]).Some?
    ensures Desugar(y).Some?
  {
    TemplateFits(y.kind, y.tag, y.value, Keys(y.kids));
    SettledIsLeft(y.kind, y.tag, y.value, Keys(y.kids));
    hide Template, Desugar, PartsFit;
    match Template(y.kind, y.tag, y.value, Keys(y.kids))
    case Leave =>
      DesugarLeave(y);
      FinishSome(y.kind, y.tag, y.value, DesugarKids(y));
    case Become(parts) =>
      DesugarsTo(y, parts);
      PartsDesugar(y, parts);
  }

  lemma PartsDesugar(y: Y, parts: seq<Part>)
    requires y.Y? && PartsFit(parts, |y.kids|) && Hole !in parts && forall i :: 0 <= i < |y.kids| ==> Desugar(y.kids[i]).Some?
    ensures Finish(Mapping, NoTag, "", PartsPlain(parts, DesugarKids(y))).Some?
  {
    hide Desugar, Finish, PartsFit;
    var ps := PartsPlain(parts, DesugarKids(y));
    forall j | 0 <= j < |ps| ensures ps[j].Some? {
      ChildFits(parts, |y.kids|, j);
      if parts[j].Group? { FinishSome(parts[j].kind, NoTag, "", DesugarKids(y)); GroupIsFinish(parts[j], DesugarKids(y)); }
    }
    FinishSome(Mapping, NoTag, "", ps);
  }

  lemma GroupIsFinish(p: Part, os: seq<Option<Plain>>)
    requires p.Group?
    ensures PartPlain(p, os) == Finish(p.kind, NoTag, "", os)
  {
  }

  lemma SecretDesugars()
    ensures Desugar(SECRET).Some? && Desugar(KEY).Some?
  {
    hide Desugar;
    Desugars(KEY);
    Desugars(VALUE);
    assert Keys(SECRET.kids) == ["name", "x"];
    Desugars(SECRET);
  }

  lemma HasDesugaring()
    ensures Unfolds(NODES, UNFOLDING) && Desugar(ROOT).Some?
  {
    forall i | 0 <= i < |NODES| ensures Matches(NODES[i], UNFOLDING[i], i, UNFOLDING) {}
    hide Desugar;
    SecretDesugars();
    Desugars(LIST);
    AliasDesugars(2, "k", KEY);
    Desugars(ROOT);
  }

  lemma AliasDesugars(id: nat, value: string, target: Y)
    ensures Desugar(Alias(id, value, target)) == Desugar(target)
  {}

  /** After the alias led to the key, its text is gone. */
  lemma KeyIsErased()
    ensures Visit(NODES, 4, []).Some?
    ensures var after := Visit(NODES, 4, []).value;
      && 6 <= |after| && after[3] == NODES[3] && after[4].Node? && after[4].value == "" && after[5] == NODES[5]
      && Visit(after, 3, ["", "x"]) == None
  {
    hide NewNodes, NewContent;
  }

  lemma FirstRounds(fuel: nat)
    ensures Worklist(NODES, [0], fuel + 2) == Worklist(NODES, [2, 3], fuel)
  {
    assert ContentValues(NODES, 0) == ["", "k"] && ContentValues(NODES, 1) == [""];
    assert Visit(NODES, 0, ContentValues(NODES, 0)) == Some(NODES) && Visit(NODES, 1, ContentValues(NODES, 1)) == Some(NODES);
    assert [0][1..] + NODES[0].content == [1, 2] && [1, 2][1..] + NODES[1].content == [2, 3];
    assert Worklist(NODES, [0], fuel + 2) == Worklist(NODES, [1, 2], fuel + 1);
  }

  lemma LastRounds(fuel: nat)
    ensures Worklist(NODES, [2, 3], fuel + 3) == Failed(Refuse)
  {
    KeyIsErased();
    hide Visit;
    var after := Visit(NODES, 4, []).value;
    assert [4] + [2, 3][1..] == [4, 3];
    assert Worklist(NODES, [2, 3], fuel + 3) == Worklist(NODES, [4, 3], fuel + 2);
    assert ContentValues(NODES, 4) == [];
    var queue := [4, 3][1..] + after[4].content;
    assert queue[0] == 3;
    assert Worklist(NODES, [4, 3], fuel + 2) == Worklist(after, queue, fuel + 1);
    assert ContentValues(after, 3) == ["", "x"];
  }

  /** The worklist is [0], [1, 2], [2, 3], [4, 3], and then the mapping at node 3 is refused. */
  lemma KeyRace(fuel: nat)
    requires fuel >= 5
    ensures Unfolds(NODES, UNFOLDING) && Desugar(UNFOLDING[0]).Some? && Worklist(NODES, [0], fuel) == Failed(Refuse)
  {
    HasDesugaring();
    hide Worklist;
    FirstRounds(fuel - 2);
    LastRounds(fuel - 5);
  }

  /** So the program refuses it, and the reason is the order of the keys. */
  method ParseKeyRace() returns (fate: Fate)
    ensures fate == Refuse && !KeysAreReadInTime(UNFOLDING[0])
  {
    hide Worklist, KeysAreReadInTime, Desugar, Unfolds, FateOf;
    HasDesugaring();
    var doc := new Document(NODES);
    ghost var u;
    ghost var fuel;
    fate, u, fuel := ParseYAMLNode(doc, 0, UNFOLDING);
    KeyRace(fuel + 5);
    MoreFuel(NODES, [0], fuel, fuel + 5);
  }

  lemma FourPartItems(a: string, b: string, c: string, p: Part, kids: seq<Y>)
    ensures PartItems([Text(a), Text(b), Text(c), p], kids) == PartItem(p, kids)
  {
    assert [Text(a)][..0] == [] && PartItems([Text(a)], kids) == [];
    assert [Text(a), Text(b)][..1] == [Text(a)] && PartItems([Text(a), Text(b)], kids) == [];
    assert [Text(a), Text(b), Text(c)][..2] == [Text(a), Text(b)] && PartItems([Text(a), Text(b), Text(c)], kids) == [];
    assert [Text(a), Text(b), Text(c), p][..3] == [Text(a), Text(b), Text(c)];
  }

  lemma SecretFollows()
    ensures Follows(SECRET) == [One(VALUE)] && Follows(VALUE) == []
  {
    assert Keys(SECRET.kids) == ["name", "x"];
    assert Template(Mapping, Custom("Secret"), "", ["name", "x"]) == Become([Text("$type"), Text("Secret"), Text("name"), Child(1)]);
    FourPartItems("$type", "Secret", "name", Child(1), SECRET.kids);
    assert Ones(VALUE.kids) == [];
  }

  /** The mapping on its own is accepted: it is looked at before its key, which it then drops. */
  lemma TaggedKeyAlone()
    ensures Desugar(SECRET).Some? && KeysAreReadInTime(SECRET)
  {
    SecretDesugars();
    SecretFollows();
    hide Follows, Desugar;
    assert [One(SECRET)][1..] + [One(VALUE)] == [One(VALUE)] && [One(VALUE)][1..] + [] == [];
    assert Order([One(VALUE)]) == [VALUE] + Order([]);
    assert Order([One(SECRET)]) == [SECRET] + [VALUE];
    hide Order;
    var visits := [SECRET] + [VALUE];
    assert visits[0] == SECRET && visits[1] == VALUE && visits[..0] == [];
    assert !Raced(visits, 0) && !Raced(visits, 1);
  }

  // ---- !Connection { type: a, type: b } ----

  const TWICE: Y := Y(0, Mapping, Custom("Connection"), "",
    [Y(1, Scalar, Core("str"), "type", []), Y(2, Scalar, Core("str"), "a", []),
     Y(3, Scalar, Core("str"), "type", []), Y(4, Scalar, Core("str"), "b", [])])

  lemma TwiceFollows()
    ensures Follows(TWICE) == [One(TWICE.kids[3]), Gap] && Follows(TWICE.kids[3]) == []
  {
    assert Keys(TWICE.kids) == ["type", "a", "type", "b"];
    var p := Child(3);
    var parts := [Text("$type"), Text("Connection"), Text("type"), p, Text("name"), Hole];
    assert Template(Mapping, Custom("Connection"), "", ["type", "a", "type", "b"]) == Become(parts);
    hide Template;
    FourPartItems("$type", "Connection", "type", p, TWICE.kids);
    var four := [Text("$type"), Text("Connection"), Text("type"), p];
    assert (four + [Text("name")])[..4] == four && parts[..5] == four + [Text("name")];
    assert PartItems(four + [Text("name")], TWICE.kids) == PartItems(four, TWICE.kids);
    assert Settled(Scalar, Core("str"));
    SettledIsLeft(Scalar, Core("str"), "b", []);
    assert Keys(TWICE.kids[3].kids) == [] && Ones(TWICE.kids[3].kids) == [];
  }

  /** A repeated key leaves the other field without a node, and the worklist crashes when it comes to it. */
  lemma RepeatedKeyCrashes()
    ensures FateOf([One(TWICE)], []) == Crash
  {
    TwiceFollows();
    var b := TWICE.kids[3];
    assert Keys(TWICE.kids) == ["type", "a", "type", "b"];
    SettledIsLeft(Scalar, Core("str"), "b", Keys(b.kids));
    assert !RefusedAt([], TWICE) && !RefusedAt([] + [TWICE], b);
    hide Follows, RefusedAt;
    assert [One(TWICE)][1..] + [One(b), Gap] == [One(b), Gap] && [One(b), Gap][1..] + [] == [Gap];
    assert FateOf([One(TWICE)], []) == FateOf([One(b), Gap], [] + [TWICE]);
    assert FateOf([One(b), Gap], [] + [TWICE]) == FateOf([Gap], [] + [TWICE] + [b]);
  }
}
