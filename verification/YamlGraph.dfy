/** Node graphs, their unfoldings, and what rewriting one node does to every unfolding. */
module YamlGraph {
  import opened Trees
  import opened YamlSugar

  datatype Node = Node(kind: Kind, tag: Tag, value: string, content: seq<nat>) | AliasNode(value: string, target: nat)

  /** `y` is the unfolding of a node at place `i`, given the unfoldings of all places. */
  predicate Matches(node: Node, y: Y, i: nat, u: seq<Y>) {
    match node
    case AliasNode(value, target) => target < |u| && y == Alias(i, value, u[target])
    case Node(kind, tag, value, content) =>
      && y.Y? && y.id == i && y.kind == kind && y.tag == tag && y.value == value
      && |y.kids| == |content|
      && forall j :: 0 <= j < |content| ==> content[j] < |u| && y.kids[j] == u[content[j]]
  }

  /** `u` lists the unfoldings of the nodes; having finite ones is what makes the graph acyclic. */
  predicate Unfolds(nodes: seq<Node>, u: seq<Y>) {
    |nodes| == |u| && forall i :: 0 <= i < |nodes| ==> Matches(nodes[i], u[i], i, u)
  }

  /** The node a rewritten part becomes, `b` being the first free place. */
  function PartId(p: Part, b: nat, content: seq<nat>): nat {
    match p
    case Child(i) => if i < |content| then content[i] else 0
    case TextGroup(_) => b + 1
    case _ => b
  }

  function PartNodes(p: Part, b: nat, content: seq<nat>): seq<Node> {
    match p
    case Text(s) => [Node(Scalar, NoTag, s, [])]
    case Child(_) => []
    case Group(kind) => [Node(kind, NoTag, "", content)]
    case TextGroup(s) => [Node(Scalar, NoTag, s, []), Node(Sequence, NoTag, "", [b])]
    case Hole => [Node(Scalar, Nil, "", [])]
  }

  function PartY(p: Part, b: nat, kids: seq<Y>): Y {
    match p
    case Text(s) => Y(b, Scalar, NoTag, s, [])
    case Child(i) => if i < |kids| then kids[i] else Y(b, Scalar, NoTag, "", [])
    case Group(kind) => Y(b, kind, NoTag, "", kids)
    case TextGroup(s) => Y(b + 1, Sequence, NoTag, "", [Y(b, Scalar, NoTag, s, [])])
    case Hole => Y(b, Scalar, Nil, "", [])
  }

  function PartYs(p: Part, b: nat, kids: seq<Y>): seq<Y> {
    match p
    case Child(_) => []
    case TextGroup(s) => [Y(b, Scalar, NoTag, s, []), PartY(p, b, kids)]
    case _ => [PartY(p, b, kids)]
  }

  function NewNodes(parts: seq<Part>, b: nat, content: seq<nat>): seq<Node> {
    if parts == [] then []
    else
      var earlier := NewNodes(parts[..|parts| - 1], b, content);
      earlier + PartNodes(parts[|parts| - 1], b + |earlier|, content)
  }

  function NewContent(parts: seq<Part>, b: nat, content: seq<nat>): seq<nat> {
    if parts == [] then []
    else
      NewContent(parts[..|parts| - 1], b, content)
      + [PartId(parts[|parts| - 1], b + |NewNodes(parts[..|parts| - 1], b, content)|, content)]
  }

  function NewYs(parts: seq<Part>, b: nat, kids: seq<Y>): seq<Y> {
    if parts == [] then []
    else
      var earlier := NewYs(parts[..|parts| - 1], b, kids);
      earlier + PartYs(parts[|parts| - 1], b + |earlier|, kids)
  }

  function NewKids(parts: seq<Part>, b: nat, kids: seq<Y>): seq<Y> {
    if parts == [] then []
    else
      NewKids(parts[..|parts| - 1], b, kids)
      + [PartY(parts[|parts| - 1], b + |NewYs(parts[..|parts| - 1], b, kids)|, kids)]
  }

  /** The unfolding of a rewritten node. */
  function Expanded(y: Y, parts: seq<Part>, b: nat): Y
    requires y.Y?
  {
    Y(y.id, Mapping, NoTag, "", NewKids(parts, b, y.kids))
  }

  /** The nodes once node `n` became `parts`: it is overwritten, and new nodes are added. */
  function Overwritten(nodes: seq<Node>, n: nat, parts: seq<Part>): seq<Node>
    requires n < |nodes| && nodes[n].Node?
  {
    var c := nodes[n].content;
    nodes[n := Node(Mapping, NoTag, "", NewContent(parts, |nodes|, c))] + NewNodes(parts, |nodes|, c)
  }

  /** Rewriting a node in place: None if a transformer rejects it. */
  function Visit(nodes: seq<Node>, n: nat, keys: seq<string>): (r: Option<seq<Node>>)
    requires n < |nodes| && nodes[n].Node?
    ensures r.Some? ==> |nodes| <= |r.value| && r.value[n].Node?
  {
    match Template(nodes[n].kind, nodes[n].tag, nodes[n].value, keys)
    case Reject => None
    case Leave => Some(nodes)
    case Become(parts) => Some(Overwritten(nodes, n, parts))
  }

  lemma {:induction false} NewSizes(parts: seq<Part>, b: nat, content: seq<nat>, kids: seq<Y>)
    ensures |NewNodes(parts, b, content)| == |NewYs(parts, b, kids)|
    ensures |NewContent(parts, b, content)| == |NewKids(parts, b, kids)| == |parts|
  {
    if parts != [] { NewSizes(parts[..|parts| - 1], b, content, kids); }
  }

  lemma {:induction false} NewKidAt(parts: seq<Part>, b: nat, kids: seq<Y>, j: nat)
    requires j < |parts|
    ensures |NewKids(parts, b, kids)| == |parts|
    ensures exists b' :: NewKids(parts, b, kids)[j] == PartY(parts[j], b', kids)
  {
    NewSizes(parts, b, [], kids);
    NewSizes(parts[..|parts| - 1], b, [], kids);
    if j < |parts| - 1 {
      NewKidAt(parts[..|parts| - 1], b, kids, j);
    } else {
      assert NewKids(parts, b, kids)[j] == PartY(parts[j], b + |NewYs(parts[..|parts| - 1], b, kids)|, kids);
    }
  }

  lemma DesugarLeave(y: Y)
    requires y.Y? && Settled(y.kind, y.tag)
    ensures Desugar(y) == Finish(y.kind, y.tag, y.value, DesugarKids(y))
  {
    SettledIsLeft(y.kind, y.tag, y.value, Keys(y.kids));
  }

  lemma WordDesugars(y: Y)
    requires y.Y? && y.kind == Scalar && y.tag == NoTag && y.kids == []
    ensures Desugar(y) == Some(Word(y.value))
  {
    DesugarLeave(y);
    assert AllSome(DesugarKids(y)).value == [];
  }

  lemma PartDesugars(y: Y, p: Part, b: nat)
    requires y.Y? && (p.Child? ==> p.index < |y.kids|)
    ensures Desugar(PartY(p, b, y.kids)) == PartPlain(p, DesugarKids(y))
  {
    var py := PartY(p, b, y.kids);
    match p
    case Child(_) =>
    case Text(_) => WordDesugars(py);
    case Group(_) =>
      DesugarLeave(py);
      assert DesugarKids(py) == DesugarKids(y);
    case TextGroup(s) =>
      WordDesugars(py.kids[0]);
      DesugarLeave(py);
      assert DesugarKids(py) == [Some(Word(s))];
      assert AllSome(DesugarKids(py)).value == [Word(s)];
    case Hole => assert Template(Scalar, Nil, "", []) == Reject;
  }

  lemma ChildFits(parts: seq<Part>, n: nat, j: nat)
    requires PartsFit(parts, n) && j < |parts|
    ensures parts[j].Child? ==> parts[j].index < n
  {
  }

  /** A rewritten node means what it meant. */
  lemma ExpandedDesugars(y: Y, parts: seq<Part>, b: nat)
    requires y.Y? && Template(y.kind, y.tag, y.value, Keys(y.kids)) == Become(parts)
    ensures Desugar(Expanded(y, parts, b)) == Desugar(y)
  {
    hide Template, Desugar, PartY, PartPlain;
    TemplateFits(y.kind, y.tag, y.value, Keys(y.kids));
    var e := Expanded(y, parts, b);
    NewSizes(parts, b, [], y.kids);
    forall j | 0 <= j < |parts| ensures Desugar(e.kids[j]) == PartPlain(parts[j], DesugarKids(y)) {
      NewKidAt(parts, b, y.kids, j);
      var b' :| e.kids[j] == PartY(parts[j], b', y.kids);
      ChildFits(parts, |y.kids|, j);
      PartDesugars(y, parts[j], b');
    }
    assert DesugarKids(e) == PartsPlain(parts, DesugarKids(y));
    DesugarLeave(e);
    DesugarsTo(y, parts);
  }

  /** Every occurrence of node `n` replaced. */
  function Subst(y: Y, n: nat, new': Y): Y {
    match y
    case Alias(id, value, target) => Alias(id, value, Subst(target, n, new'))
    case Y(id, kind, tag, value, kids) =>
      if id == n then new'
      else Y(id, kind, tag, value, seq(|kids|, i requires 0 <= i < |kids| => Subst(kids[i], n, new')))
  }

  /** Node `n` occurs only as `orig`. */
  predicate Consistent(y: Y, n: nat, orig: Y) {
    match y
    case Alias(_, _, target) => Consistent(target, n, orig)
    case Y(id, _, _, _, kids) => if id == n then y == orig else forall i :: 0 <= i < |kids| ==> Consistent(kids[i], n, orig)
  }

  /** Keys of tagged mappings are not themselves rewritten. */
  predicate PlainKeys(y: Y) {
    match y
    case Alias(_, _, target) => PlainKeys(target)
    case Y(_, kind, tag, _, kids) =>
      && (forall i :: 0 <= i < |kids| ==> PlainKeys(kids[i]))
      && (kind == Mapping && tag.Custom? ==> forall i :: 0 <= i < |kids| && i % 2 == 0 ==> PlainKey(kids[i]))
  }

  predicate PlainKey(y: Y) { y.Y? ==> Settled(y.kind, y.tag) }

  /** `new'` may stand for `orig` anywhere. */
  predicate Replaces(new': Y, orig: Y) {
    new'.Y? && orig.Y? && new'.value == "" && Desugar(new') == Desugar(orig) && !Settled(orig.kind, orig.tag)
  }

  lemma FinishSome(kind: Kind, tag: Tag, value: string, os: seq<Option<Plain>>)
    ensures Finish(kind, tag, value, os).Some? <==> forall i :: 0 <= i < |os| ==> os[i].Some?
  {
  }

  /** Weaker evidence can only fail: where `os'` still succeeds it agrees with `os`. */
  predicate Refines(os': seq<Option<Plain>>, os: seq<Option<Plain>>) {
    |os'| == |os| && forall i :: 0 <= i < |os| ==> os'[i] == os[i] || os'[i] == None
  }

  lemma FinishRefines(kind: Kind, tag: Tag, value: string, os': seq<Option<Plain>>, os: seq<Option<Plain>>)
    requires Refines(os', os)
    ensures Finish(kind, tag, value, os').Some? ==> Finish(kind, tag, value, os') == Finish(kind, tag, value, os)
  {
    if Finish(kind, tag, value, os').Some? {
      FinishSome(kind, tag, value, os');
      assert os' == os;
    }
  }

  lemma PartsRefine(parts: seq<Part>, os': seq<Option<Plain>>, os: seq<Option<Plain>>)
    requires Refines(os', os)
    ensures Refines(PartsPlain(parts, os'), PartsPlain(parts, os))
  {
    forall i | 0 <= i < |parts| ensures PartPlain(parts[i], os') == PartPlain(parts[i], os) || PartPlain(parts[i], os') == None {
      if parts[i].Group? { FinishRefines(parts[i].kind, NoTag, "", os', os); }
    }
  }

  /** Desugaring by cases, for a node whose children may have been replaced. */
  lemma NodeRefines(y: Y, y': Y)
    requires y.Y? && y'.Y? && y'.kind == y.kind && y'.tag == y.tag && y'.value == y.value && |y'.kids| == |y.kids|
    requires forall i :: 0 <= i < |y.kids| ==> y'.kids[i].value == y.kids[i].value || y'.kids[i].value == ""
    requires Refines(DesugarKids(y'), DesugarKids(y))
    ensures Desugar(y').Some? ==> Desugar(y') == Desugar(y)
  {
    BlankKeys(y.kind, y.tag, y.value, Keys(y.kids), Keys(y'.kids));
    hide Template;
    match Template(y'.kind, y'.tag, y'.value, Keys(y'.kids))
    case Reject =>
    case Leave => FinishRefines(y.kind, y.tag, y.value, DesugarKids(y'), DesugarKids(y));
    case Become(parts) =>
      PartsRefine(parts, DesugarKids(y'), DesugarKids(y));
      FinishRefines(Mapping, NoTag, "", PartsPlain(parts, DesugarKids(y')), PartsPlain(parts, DesugarKids(y)));
  }

  /** Rewriting a node anywhere in a tree can make the whole fail, but never mean something else. */
  lemma {:induction false} SubstRefines(y: Y, n: nat, orig: Y, new': Y)
    requires Consistent(y, n, orig) && Replaces(new', orig)
    ensures Desugar(Subst(y, n, new')).Some? ==> Desugar(Subst(y, n, new')) == Desugar(y)
    ensures Subst(y, n, new').value == y.value || Subst(y, n, new').value == ""
  {
    match y
    case Alias(_, _, target) => SubstRefines(target, n, orig, new');
    case Y(id, kind, tag, value, kids) =>
      if id != n {
        forall i | 0 <= i < |kids|
          ensures Desugar(Subst(kids[i], n, new')).Some? ==> Desugar(Subst(kids[i], n, new')) == Desugar(kids[i])
          ensures Subst(kids[i], n, new').value == kids[i].value || Subst(kids[i], n, new').value == ""
        {
          SubstRefines(kids[i], n, orig, new');
        }
        hide Desugar;
        NodeRefines(y, Subst(y, n, new'));
      }
  }

  /** In a matching graph a node occurs only as its own unfolding, and not inside itself. */
  lemma {:induction false} UnfoldingIsConsistent(nodes: seq<Node>, u: seq<Y>, i: nat, n: nat)
    requires Unfolds(nodes, u) && i < |u| && n < |u|
    ensures Consistent(u[i], n, u[n])
    decreases u[i]
  {
    assert Matches(nodes[i], u[i], i, u);
    match nodes[i]
    case AliasNode(_, target) => UnfoldingIsConsistent(nodes, u, target, n);
    case Node(_, _, _, content) =>
      if i != n {
        forall j | 0 <= j < |content| { UnfoldingIsConsistent(nodes, u, content[j], n); }
      }
  }

  /** A tree that is part of `orig` does not contain node `n`. */
  lemma {:induction false} SubstInside(y: Y, n: nat, orig: Y, new': Y)
    requires Consistent(y, n, orig) && Size(y) < Size(orig)
    ensures Subst(y, n, new') == y
  {
    match y
    case Alias(_, _, target) => SubstInside(target, n, orig, new');
    case Y(_, _, _, _, kids) =>
      forall i | 0 <= i < |kids| ensures Subst(kids[i], n, new') == kids[i] {
        KidIsSmaller(y, i);
        SubstInside(kids[i], n, orig, new');
      }
  }

  function Total(ws: seq<nat>): nat {
    if ws == [] then 0 else Total(ws[..|ws| - 1]) + ws[|ws| - 1]
  }

  lemma {:induction false} TotalAt(ws: seq<nat>, i: nat)
    requires i < |ws|
    ensures ws[i] <= Total(ws)
  {
    if i < |ws| - 1 { TotalAt(ws[..|ws| - 1], i); }
  }

  lemma {:induction false} TotalTwo(ws: seq<nat>, i: nat, j: nat)
    requires i < |ws| && j < |ws| && i != j
    ensures ws[i] + ws[j] <= Total(ws)
  {
    if i < |ws| - 1 && j < |ws| - 1 { TotalTwo(ws[..|ws| - 1], i, j); }
    else { TotalAt(ws[..|ws| - 1], if i < j then i else j); }
  }

  lemma {:induction false} TotalMonotone(ws: seq<nat>, ws': seq<nat>)
    requires |ws'| == |ws| && forall i :: 0 <= i < |ws| ==> ws'[i] <= ws[i]
    ensures Total(ws') <= Total(ws)
  {
    if ws != [] { TotalMonotone(ws[..|ws| - 1], ws'[..|ws| - 1]); }
  }

  lemma {:induction false} TotalConcat(ws: seq<nat>, ws': seq<nat>)
    ensures Total(ws + ws') == Total(ws) + Total(ws')
  {
    if ws' == [] { assert ws + ws' == ws; }
    else {
      assert (ws + ws')[..|ws + ws'| - 1] == ws + ws'[..|ws'| - 1];
      TotalConcat(ws, ws'[..|ws'| - 1]);
    }
  }

  function KidSizes(y: Y): (ws: seq<nat>)
    requires y.Y?
    ensures |ws| == |y.kids| && forall i :: 0 <= i < |ws| ==> ws[i] == Size(y.kids[i])
    decreases y, 0
  {
    seq(|y.kids|, i requires 0 <= i < |y.kids| => Size(y.kids[i]))
  }

  /** The work a tree still takes: its nodes, and room for the nodes a rewrite adds. */
  function Size(y: Y): nat
    decreases y, 1
  {
    match y
    case Alias(_, _, target) => 1 + Size(target)
    case Y(_, kind, tag, _, _) => 1 + (if Settled(kind, tag) || tag == Nil then 0 else 8) + Total(KidSizes(y))
  }

  lemma KidIsSmaller(y: Y, i: nat)
    requires y.Y? && i < |y.kids|
    ensures Size(y.kids[i]) < Size(y)
  {
    TotalAt(KidSizes(y), i);
  }

  lemma {:induction false} SubstShrinks(y: Y, n: nat, orig: Y, new': Y)
    requires Consistent(y, n, orig) && new'.Y? && Size(new') <= Size(orig)
    ensures Size(Subst(y, n, new')) <= Size(y)
  {
    match y
    case Alias(_, _, target) => SubstShrinks(target, n, orig, new');
    case Y(id, _, _, _, kids) =>
      if id != n {
        forall i | 0 <= i < |kids| { SubstShrinks(kids[i], n, orig, new'); }
        TotalMonotone(KidSizes(y), KidSizes(Subst(y, n, new')));
      }
  }

  lemma TotalOf4(a: nat, b: nat, c: nat, d: nat)
    ensures Total([a, b, c, d]) == a + b + c + d
  {
    assert [a][..0] == [] && Total([a]) == a;
    assert [a, b][..1] == [a] && Total([a, b]) == a + b;
    assert [a, b, c][..2] == [a, b] && Total([a, b, c]) == a + b + c;
    assert [a, b, c, d][..3] == [a, b, c];
  }

  /** The size of a part, given the sizes of the children. */
  function PartSizeOf(p: Part, kids: seq<nat>): nat {
    match p
    case Text(_) => 1
    case Child(i) => if i < |kids| then kids[i] else 0
    case Group(_) => 1 + Total(kids)
    case TextGroup(_) => 2
    case Hole => 1
  }

  lemma PartSize(p: Part, b: nat, y: Y)
    requires y.Y? && (p.Child? ==> p.index < |y.kids|)
    ensures Size(PartY(p, b, y.kids)) == PartSizeOf(p, KidSizes(y))
  {
    var py := PartY(p, b, y.kids);
    match p
    case Child(_) =>
    case Text(_) =>
    case Hole =>
    case Group(_) => assert KidSizes(py) == KidSizes(y);
    case TextGroup(_) =>
      assert Size(py.kids[0]) == 1;
      assert KidSizes(py) == [1] && [1][..0] == [];
  }

  lemma KidSizeAt(y: Y, parts: seq<Part>, b: nat, j: nat)
    requires y.Y? && PartsFit(parts, |y.kids|) && j < |parts|
    ensures |KidSizes(Expanded(y, parts, b))| == |parts|
    ensures KidSizes(Expanded(y, parts, b))[j] == PartSizeOf(parts[j], KidSizes(y))
  {
    hide PartY, Size;
    NewKidAt(parts, b, y.kids, j);
    var b' :| NewKids(parts, b, y.kids)[j] == PartY(parts[j], b', y.kids);
    ChildFits(parts, |y.kids|, j);
    PartSize(parts[j], b', y);
  }

  /** A rewritten node takes no more work than it did. */
  lemma ExpandedShrinks(y: Y, parts: seq<Part>, b: nat)
    requires y.Y? && PartsFit(parts, |y.kids|) && !Settled(y.kind, y.tag) && y.tag != Nil
    ensures Size(Expanded(y, parts, b)) <= Size(y)
  {
    var e := Expanded(y, parts, b);
    var ws := KidSizes(e);
    var total := Total(KidSizes(y));
    assert Total(ws) <= 8 + total by {
      hide Size, PartsFit;
      forall j | 0 <= j < |parts| { KidSizeAt(y, parts, b, j); }
      PartsTotal(parts, KidSizes(y), ws);
    }
  }

  lemma PartsTotal(parts: seq<Part>, kids: seq<nat>, ws: seq<nat>)
    requires PartsFit(parts, |kids|) && |ws| == |parts|
    requires forall j :: 0 <= j < |parts| ==> ws[j] == PartSizeOf(parts[j], kids)
    ensures Total(ws) <= 8 + Total(kids)
  {
    if |parts| == 4 {
      assert ws == [1, 1, 1, ws[3]];
      TotalOf4(1, 1, 1, ws[3]);
      if parts[3].Child? { TotalAt(kids, parts[3].index); }
    } else if |parts| == 6 {
      assert ws == [1, 1, 1, ws[3], 1, ws[5]];
      TotalOf6(ws[3], ws[5]);
      TwoParts(parts[3], parts[5], kids);
    } else {
      assert ws == [1, ws[1]] && ws[..1] == [1] && [1][..0] == [];
      assert Total([1]) == 1;
    }
  }

  lemma TotalOf6(a: nat, b: nat)
    ensures Total([1, 1, 1, a, 1, b]) == 4 + a + b
  {
    TotalOf4(1, 1, 1, a);
    assert [1, 1, 1, a, 1][..4] == [1, 1, 1, a] && Total([1, 1, 1, a, 1]) == 4 + a;
    assert [1, 1, 1, a, 1, b][..5] == [1, 1, 1, a, 1];
  }

  lemma TwoParts(p: Part, q: Part, kids: seq<nat>)
    requires ChildOrHole(p, |kids|) && ChildOrHole(q, |kids|) && (p.Child? && q.Child? ==> p.index != q.index)
    ensures PartSizeOf(p, kids) + PartSizeOf(q, kids) <= 2 + Total(kids)
  {
    if p.Child? && q.Child? { TotalTwo(kids, p.index, q.index); }
    else if p.Child? { TotalAt(kids, p.index); }
    else if q.Child? { TotalAt(kids, q.index); }
  }

  /** `ys` are the unfoldings of `nodes`, which sit from place `base` on. */
  predicate AllMatch(nodes: seq<Node>, ys: seq<Y>, base: nat, u: seq<Y>) {
    |nodes| == |ys| && forall j :: 0 <= j < |nodes| ==> Matches(nodes[j], ys[j], base + j, u)
  }

  predicate PointTo(ids: seq<nat>, ys: seq<Y>, u: seq<Y>) {
    |ids| == |ys| && forall j :: 0 <= j < |ids| ==> ids[j] < |u| && u[ids[j]] == ys[j]
  }

  lemma MatchesMore(nodes: seq<Node>, ys: seq<Y>, base: nat, u: seq<Y>, more: seq<Y>)
    requires AllMatch(nodes, ys, base, u)
    ensures AllMatch(nodes, ys, base, u + more)
  {
    forall j | 0 <= j < |nodes| ensures Matches(nodes[j], ys[j], base + j, u + more) {
      assert Matches(nodes[j], ys[j], base + j, u);
    }
  }

  lemma MatchesConcat(nodes: seq<Node>, ys: seq<Y>, nodes': seq<Node>, ys': seq<Y>, base: nat, u: seq<Y>)
    requires AllMatch(nodes, ys, base, u) && AllMatch(nodes', ys', base + |nodes|, u)
    ensures AllMatch(nodes + nodes', ys + ys', base, u)
  {
    hide Matches;
    forall j | 0 <= j < |nodes + nodes'| ensures Matches((nodes + nodes')[j], (ys + ys')[j], base + j, u) {
      if j >= |nodes| { assert Matches(nodes'[j - |nodes|], ys'[j - |nodes|], base + |nodes| + (j - |nodes|), u); }
    }
  }

  lemma PartMatches(p: Part, u: seq<Y>, content: seq<nat>, kids: seq<Y>)
    requires PointTo(content, kids, u) && (p.Child? ==> p.index < |kids|)
    ensures
      var all := u + PartYs(p, |u|, kids);
      && AllMatch(PartNodes(p, |u|, content), PartYs(p, |u|, kids), |u|, all)
      && PartId(p, |u|, content) < |all| && all[PartId(p, |u|, content)] == PartY(p, |u|, kids)
  {
  }

  lemma NewUnfolds(parts: seq<Part>, b: nat, content: seq<nat>, kids: seq<Y>)
    requires parts != []
    ensures
      var earlier, p := parts[..|parts| - 1], parts[|parts| - 1];
      var at := b + |NewYs(earlier, b, kids)|;
      && NewNodes(parts, b, content) == NewNodes(earlier, b, content) + PartNodes(p, at, content)
      && NewYs(parts, b, kids) == NewYs(earlier, b, kids) + PartYs(p, at, kids)
      && NewContent(parts, b, content) == NewContent(earlier, b, content) + [PartId(p, at, content)]
      && NewKids(parts, b, kids) == NewKids(earlier, b, kids) + [PartY(p, at, kids)]
  {
    hide PartNodes, PartYs, PartY, PartId;
    NewSizes(parts[..|parts| - 1], b, content, kids);
  }

  lemma PointMore(ids: seq<nat>, ys: seq<Y>, id: nat, y: Y, u: seq<Y>, more: seq<Y>)
    requires PointTo(ids, ys, u) && id < |u + more| && (u + more)[id] == y
    ensures PointTo(ids + [id], ys + [y], u + more)
  {
  }

  lemma StillPoint(ids: seq<nat>, ys: seq<Y>, u: seq<Y>, more: seq<Y>)
    requires PointTo(ids, ys, u)
    ensures PointTo(ids, ys, u + more)
  {
  }

  lemma NothingNew(u: seq<Y>, content: seq<nat>, kids: seq<Y>)
    ensures AllMatch(NewNodes([], |u|, content), NewYs([], |u|, kids), |u|, u + NewYs([], |u|, kids))
    ensures PointTo(NewContent([], |u|, content), NewKids([], |u|, kids), u + NewYs([], |u|, kids))
  {
  }

  /** The nodes a rewrite adds, and the content it gives, unfold to the parts. */
  lemma {:induction false} NewPartsMatch(parts: seq<Part>, u: seq<Y>, content: seq<nat>, kids: seq<Y>)
    requires PointTo(content, kids, u) && forall j :: 0 <= j < |parts| && parts[j].Child? ==> parts[j].index < |kids|
    ensures AllMatch(NewNodes(parts, |u|, content), NewYs(parts, |u|, kids), |u|, u + NewYs(parts, |u|, kids))
    ensures PointTo(NewContent(parts, |u|, content), NewKids(parts, |u|, kids), u + NewYs(parts, |u|, kids))
  {
    hide *;
    if parts == [] {
      NothingNew(u, content, kids);
    } else {
      var earlier, p := parts[..|parts| - 1], parts[|parts| - 1];
      NewPartsMatch(earlier, u, content, kids);
      NewUnfolds(parts, |u|, content, kids);
      var ys := NewYs(earlier, |u|, kids);
      NewPartMatches(NewNodes(earlier, |u|, content), ys, NewContent(earlier, |u|, content),
                     NewKids(earlier, |u|, kids), u, p, content, kids);
      assert u + (ys + PartYs(p, |u| + |ys|, kids)) == (u + ys) + PartYs(p, |u| + |ys|, kids);
    }
  }

  lemma NewPartMatches(nodes: seq<Node>, ys: seq<Y>, ids: seq<nat>, new': seq<Y>, u: seq<Y>, p: Part, content: seq<nat>, kids: seq<Y>)
    requires AllMatch(nodes, ys, |u|, u + ys) && PointTo(ids, new', u + ys)
    requires PointTo(content, kids, u) && (p.Child? ==> p.index < |kids|)
    ensures
      var full, at := u + ys, |u| + |ys|;
      var all := full + PartYs(p, at, kids);
      && AllMatch(nodes + PartNodes(p, at, content), ys + PartYs(p, at, kids), |u|, all)
      && PointTo(ids + [PartId(p, at, content)], new' + [PartY(p, at, kids)], all)
  {
    hide *;
    var full, at := u + ys, |u| + |ys|;
    var added := PartYs(p, at, kids);
    StillPoint(content, kids, u, ys);
    PartMatches(p, full, content, kids);
    MatchesMore(nodes, ys, |u|, full, added);
    AllMatchLength(nodes, ys, |u|, full);
    MatchesConcat(nodes, ys, PartNodes(p, at, content), added, |u|, full + added);
    PointMore(ids, new', PartId(p, at, content), PartY(p, at, kids), full, added);
  }

  function Replaced(u: seq<Y>, n: nat, new': Y): seq<Y> {
    seq(|u|, i requires 0 <= i < |u| => Subst(u[i], n, new'))
  }

  /** The unfoldings after node `n` became `parts`. */
  function Rewritten(u: seq<Y>, n: nat, parts: seq<Part>): seq<Y>
    requires n < |u| && u[n].Y?
  {
    Replaced(u, n, Expanded(u[n], parts, |u|)) + NewYs(parts, |u|, u[n].kids)
  }

  lemma ReplacedMatches(node: Node, u: seq<Y>, n: nat, new': Y, i: nat)
    requires i < |u| && i != n && Matches(node, u[i], i, u)
    ensures Matches(node, Replaced(u, n, new')[i], i, Replaced(u, n, new'))
  {
  }

  lemma ContentStays(nodes: seq<Node>, u: seq<Y>, n: nat, new': Y)
    requires Unfolds(nodes, u) && n < |nodes| && nodes[n].Node?
    ensures u[n].Y? && u[n].id == n && PointTo(nodes[n].content, u[n].kids, Replaced(u, n, new'))
  {
    assert Matches(nodes[n], u[n], n, u);
    var c, kids := nodes[n].content, u[n].kids;
    forall j | 0 <= j < |c| ensures c[j] < |u| && Subst(u[c[j]], n, new') == kids[j] {
      UnfoldingIsConsistent(nodes, u, c[j], n);
      KidIsSmaller(u[n], j);
      SubstInside(kids[j], n, u[n], new');
    }
  }

  /** Rewriting the graph in place rewrites every unfolding at once. */
  lemma VisitUnfolds(nodes: seq<Node>, u: seq<Y>, n: nat, parts: seq<Part>)
    requires Unfolds(nodes, u) && n < |nodes| && nodes[n].Node? && u[n].Y? && PartsFit(parts, |u[n].kids|)
    ensures Unfolds(Overwritten(nodes, n, parts), Rewritten(u, n, parts))
  {
    hide NewContent, NewNodes, NewYs, NewKids, PartsFit, Subst, Matches, Replaced, AllMatch, PointTo;
    var c, kids := nodes[n].content, u[n].kids;
    var v := Replaced(u, n, Expanded(u[n], parts, |u|));
    ReplacedLength(u, n, Expanded(u[n], parts, |u|));
    forall j | 0 <= j < |parts| { ChildFits(parts, |kids|, j); }
    ContentStays(nodes, u, n, Expanded(u[n], parts, |u|));
    NewPartsMatch(parts, v, c, kids);
    var new', ys := NewNodes(parts, |u|, c), NewYs(parts, |u|, kids);
    AllMatchLength(new', ys, |u|, v + ys);
    forall i | 0 <= i < |nodes| + |new'| ensures Matches(Overwritten(nodes, n, parts)[i], (v + ys)[i], i, v + ys) {
      if i >= |nodes| {
        MatchAt(new', ys, |u|, v + ys, i - |u|);
      } else if i != n {
        OthersMatch(nodes[i], u, n, Expanded(u[n], parts, |u|), ys, i);
      } else {
        SelfMatches(nodes, u, n, parts);
      }
    }
  }

  lemma ReplacedLength(u: seq<Y>, n: nat, new': Y)
    ensures |Replaced(u, n, new')| == |u|
  {
  }

  lemma AllMatchLength(nodes: seq<Node>, ys: seq<Y>, base: nat, u: seq<Y>)
    requires AllMatch(nodes, ys, base, u)
    ensures |nodes| == |ys|
  {
  }

  lemma MatchAt(nodes: seq<Node>, ys: seq<Y>, base: nat, u: seq<Y>, j: nat)
    requires AllMatch(nodes, ys, base, u) && j < |nodes|
    ensures |nodes| == |ys| && Matches(nodes[j], ys[j], base + j, u)
  {
  }

  lemma OthersMatch(node: Node, u: seq<Y>, n: nat, new': Y, more: seq<Y>, i: nat)
    requires i < |u| && i != n && Matches(node, u[i], i, u)
    ensures |Replaced(u, n, new')| == |u| && Matches(node, Replaced(u, n, new')[i], i, Replaced(u, n, new') + more)
  {
    ReplacedMatches(node, u, n, new', i);
  }

  lemma SelfMatches(nodes: seq<Node>, u: seq<Y>, n: nat, parts: seq<Part>)
    requires n < |nodes| == |u| && nodes[n].Node? && u[n].Y? && u[n].id == n
    requires
      var v := Replaced(u, n, Expanded(u[n], parts, |u|));
      PointTo(NewContent(parts, |u|, nodes[n].content), NewKids(parts, |u|, u[n].kids), v + NewYs(parts, |u|, u[n].kids))
    ensures
      var v := Replaced(u, n, Expanded(u[n], parts, |u|));
      |v| == |u| && Matches(Overwritten(nodes, n, parts)[n], v[n], n, v + NewYs(parts, |u|, u[n].kids))
  {
    SubstHere(u[n], Expanded(u[n], parts, |u|));
    hide NewContent, NewNodes, NewYs, NewKids, Subst;
  }

  lemma SubstHere(y: Y, new': Y)
    requires y.Y?
    ensures Subst(y, y.id, new') == new'
  {
  }

  /** The node an alias finally stands for. */
  function TargetId(y: Y): nat {
    match y
    case Alias(_, _, target) => TargetId(target)
    case Y(id, _, _, _, _) => id
  }

  function ContentValues(nodes: seq<Node>, n: nat): seq<string>
    requires n < |nodes| && nodes[n].Node? && forall j :: 0 <= j < |nodes[n].content| ==> nodes[n].content[j] < |nodes|
  {
    var c := nodes[n].content;
    seq(|c|, j requires 0 <= j < |c| => nodes[c[j]].value)
  }

  lemma ValuesAreKeys(nodes: seq<Node>, u: seq<Y>, n: nat)
    requires Unfolds(nodes, u) && n < |nodes| && nodes[n].Node?
    ensures u[n].Y? && u[n].kind == nodes[n].kind && u[n].tag == nodes[n].tag && u[n].value == nodes[n].value
    ensures forall j :: 0 <= j < |nodes[n].content| ==> nodes[n].content[j] < |nodes|
    ensures ContentValues(nodes, n) == Keys(u[n].kids)
  {
    assert Matches(nodes[n], u[n], n, u);
    var c := nodes[n].content;
    forall j | 0 <= j < |c| ensures nodes[c[j]].value == u[n].kids[j].value {
      assert Matches(nodes[c[j]], u[c[j]], c[j], u);
    }
  }
}
