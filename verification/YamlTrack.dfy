/** The worklist on the graph follows the order that the document sets, and refuses for two reasons only. */
module YamlTrack {
  import opened Trees
  import opened YamlSugar
  import opened YamlGraph
  import opened YamlOrder

  predicate InRange(ids: seq<nat>, n: nat) { forall j :: 0 <= j < |ids| ==> ids[j] < n }

  function Pointed(u0: seq<Y>, ids: seq<nat>): (ys: seq<Y>)
    requires InRange(ids, |u0|)
    ensures |ys| == |ids| && forall j :: 0 <= j < |ids| ==> ys[j] == u0[ids[j]]
  {
    seq(|ids|, j requires 0 <= j < |ids| => u0[ids[j]])
  }

  /** What waiting for a node amounts to; the document had the nodes below `|u0|`, all others are new. */
  function IdItem(u0: seq<Y>, nodes: seq<Node>, id: nat): seq<Item> {
    if id < |u0| then [One(u0[id])]
    else if id >= |nodes| || !nodes[id].Node? then []
    else if nodes[id].tag == Nil then [Gap]
    else if nodes[id].content != [] && InRange(nodes[id].content, |u0|) then [Many(Pointed(u0, nodes[id].content))]
    else []
  }

  function Items(u0: seq<Y>, nodes: seq<Node>, ids: seq<nat>): seq<Item> {
    if ids == [] then [] else Items(u0, nodes, ids[..|ids| - 1]) + IdItem(u0, nodes, ids[|ids| - 1])
  }

  /** A new node is missing, or needs no rewriting and stands for nodes of the document or for nothing. */
  predicate NewOk(u0: seq<Y>, nodes: seq<Node>, i: nat) {
    && i < |nodes| && nodes[i].Node?
    && if nodes[i].tag == Nil then nodes[i].content == [] else NewSettled(u0, nodes, i)
  }

  predicate NewSettled(u0: seq<Y>, nodes: seq<Node>, i: nat)
    requires i < |nodes| && nodes[i].Node?
  {
    && Settled(nodes[i].kind, nodes[i].tag)
    && (|| InRange(nodes[i].content, |u0|)
        || forall j :: 0 <= j < |nodes[i].content| ==> nodes[i].content[j] < |nodes| && IdItem(u0, nodes, nodes[i].content[j]) == [])
  }

  /** A node of the document was rewritten, or is as it was. */
  predicate OldOk(nodes0: seq<Node>, u0: seq<Y>, nodes: seq<Node>, visits: seq<Y>, i: nat)
    requires i < |nodes0| == |u0| <= |nodes|
  {
    if Unsettled(nodes0[i]) && Seen(visits, i)
    then Rewrote(u0, nodes, i)
    else nodes[i] == nodes0[i]
  }

  predicate Unsettled(node: Node) { node.Node? && !Settled(node.kind, node.tag) }

  predicate Rewrote(u0: seq<Y>, nodes: seq<Node>, i: nat)
    requires i < |u0| <= |nodes|
  {
    && nodes[i].Node? && Settled(nodes[i].kind, nodes[i].tag) && nodes[i].value == ""
    && InRange(nodes[i].content, |nodes|) && u0[i].Y? && Items(u0, nodes, nodes[i].content) == Follows(u0[i])
    && Template(u0[i].kind, u0[i].tag, u0[i].value, Keys(u0[i].kids)) != Reject
  }

  predicate Placed(nodes0: seq<Node>, u0: seq<Y>, nodes: seq<Node>, visits: seq<Y>) {
    && |nodes0| == |u0| <= |nodes|
    && (forall i :: 0 <= i < |u0| ==> OldOk(nodes0, u0, nodes, visits, i))
    && (forall i :: |u0| <= i < |nodes| ==> NewOk(u0, nodes, i))
  }

  // ---- items ----

  lemma {:induction false} ItemsConcat(u0: seq<Y>, nodes: seq<Node>, a: seq<nat>, b: seq<nat>)
    ensures Items(u0, nodes, a + b) == Items(u0, nodes, a) + Items(u0, nodes, b)
  {
    if b == [] {
      assert a + b == a;
    } else {
      assert (a + b)[..|a + b| - 1] == a + b[..|b| - 1];
      ItemsConcat(u0, nodes, a, b[..|b| - 1]);
    }
  }

  lemma ItemsHead(u0: seq<Y>, nodes: seq<Node>, ids: seq<nat>)
    requires ids != []
    ensures Items(u0, nodes, ids) == IdItem(u0, nodes, ids[0]) + Items(u0, nodes, ids[1..])
  {
    assert ids == [ids[0]] + ids[1..];
    ItemsConcat(u0, nodes, [ids[0]], ids[1..]);
    assert [ids[0]][..0] == [];
  }

  /** New nodes stay as they are. */
  predicate Grows(u0: seq<Y>, nodes: seq<Node>, nodes': seq<Node>) {
    |u0| <= |nodes| <= |nodes'| && forall i :: |u0| <= i < |nodes| ==> nodes'[i] == nodes[i]
  }

  lemma {:induction false} ItemsStay(u0: seq<Y>, nodes: seq<Node>, nodes': seq<Node>, ids: seq<nat>)
    requires Grows(u0, nodes, nodes') && InRange(ids, |nodes|)
    ensures Items(u0, nodes', ids) == Items(u0, nodes, ids)
  {
    if ids != [] { ItemsStay(u0, nodes, nodes', ids[..|ids| - 1]); }
  }

  lemma {:induction false} OldItems(u0: seq<Y>, nodes: seq<Node>, ids: seq<nat>)
    requires InRange(ids, |u0|)
    ensures Items(u0, nodes, ids) == Ones(Pointed(u0, ids))
  {
    if ids != [] {
      var rest := ids[..|ids| - 1];
      OldItems(u0, nodes, rest);
      assert Ones(Pointed(u0, ids)) == Ones(Pointed(u0, rest)) + [One(u0[ids[|ids| - 1]])];
    }
  }

  lemma {:induction false} NoItems(u0: seq<Y>, nodes: seq<Node>, ids: seq<nat>)
    requires forall j :: 0 <= j < |ids| ==> IdItem(u0, nodes, ids[j]) == []
    ensures Items(u0, nodes, ids) == []
  {
    if ids != [] { NoItems(u0, nodes, ids[..|ids| - 1]); }
  }

  lemma ContentOf(nodes0: seq<Node>, u0: seq<Y>, n: nat)
    requires Unfolds(nodes0, u0) && n < |u0| && nodes0[n].Node?
    ensures u0[n].Y? && u0[n].id == n && u0[n].kind == nodes0[n].kind && u0[n].tag == nodes0[n].tag && u0[n].value == nodes0[n].value
    ensures InRange(nodes0[n].content, |u0|) && Pointed(u0, nodes0[n].content) == u0[n].kids
  {
    assert Matches(nodes0[n], u0[n], n, u0);
  }

  /** A new node opens up into what it stands for. */
  lemma NewOpens(u0: seq<Y>, nodes: seq<Node>, q: nat, rest: seq<Item>, visits: seq<Y>)
    requires |u0| <= q < |nodes| && NewOk(u0, nodes, q) && nodes[q].tag != Nil
    ensures Order(IdItem(u0, nodes, q) + rest) == Order(rest + Items(u0, nodes, nodes[q].content))
    ensures FateOf(IdItem(u0, nodes, q) + rest, visits) == FateOf(rest + Items(u0, nodes, nodes[q].content), visits)
  {
    hide Order, FateOf, Items, IdItem, NewOk;
    NewStandsFor(u0, nodes, q);
    var ids := IdItem(u0, nodes, q);
    if ids == [] {
      assert [] + rest == rest && rest + [] == rest;
    } else {
      assert (ids + rest)[0] == ids[0] && (ids + rest)[1..] == rest;
      OrderMany(ids + rest, visits);
    }
  }

  lemma NewStandsFor(u0: seq<Y>, nodes: seq<Node>, q: nat)
    requires |u0| <= q < |nodes| && NewOk(u0, nodes, q) && nodes[q].tag != Nil
    ensures
      var ids, items := IdItem(u0, nodes, q), Items(u0, nodes, nodes[q].content);
      (ids == [] && items == []) || (|ids| == 1 && ids[0].Many? && items == Ones(ids[0].ys))
  {
    hide Items;
    var content := nodes[q].content;
    if content != [] && InRange(content, |u0|) { OldItems(u0, nodes, content); } else { NoItems(u0, nodes, content); }
  }

  lemma OrderMany(items: seq<Item>, visits: seq<Y>)
    requires items != [] && items[0].Many?
    ensures Order(items) == Order(items[1..] + Ones(items[0].ys)) && FateOf(items, visits) == FateOf(items[1..] + Ones(items[0].ys), visits)
  {
  }

  lemma OrderOne(items: seq<Item>)
    requires items != [] && items[0].One?
    ensures Order(items) == [Target(items[0].y)] + Order(items[1..] + Follows(Target(items[0].y)))
  {
  }

  lemma FateOne(items: seq<Item>, visits: seq<Y>)
    requires items != [] && items[0].One?
    ensures
      var t := Target(items[0].y);
      FateOf(items, visits) == if RefusedAt(visits, t) then FailureAt(t.tag) else FateOf(items[1..] + Follows(t), visits + [t])
  {
  }

  lemma FateGap(items: seq<Item>, visits: seq<Y>)
    requires items != [] && items[0].Gap?
    ensures FateOf(items, visits) == Crash
  {
  }

  /** A settled node of the document is followed by what the document says. */
  lemma OldFollows(nodes0: seq<Node>, u0: seq<Y>, nodes: seq<Node>, visits: seq<Y>, n: nat)
    requires Unfolds(nodes0, u0) && Placed(nodes0, u0, nodes, visits) && n < |u0| && nodes[n].Node? && Settled(nodes[n].kind, nodes[n].tag)
    ensures u0[n].Y? && InRange(nodes[n].content, |nodes|) && Items(u0, nodes, nodes[n].content) == Follows(u0[n])
    ensures Template(u0[n].kind, u0[n].tag, u0[n].value, Keys(u0[n].kids)) != Reject
  {
    assert OldOk(nodes0, u0, nodes, visits, n);
    if nodes[n] == nodes0[n] {
      ContentOf(nodes0, u0, n);
      SettledIsLeft(u0[n].kind, u0[n].tag, u0[n].value, Keys(u0[n].kids));
      hide Template;
      OldItems(u0, nodes, nodes[n].content);
    }
  }

  // ---- the keys as they are now ----

  lemma TextNow(nodes0: seq<Node>, u0: seq<Y>, nodes: seq<Node>, visits: seq<Y>, k: nat)
    requires Unfolds(nodes0, u0) && Placed(nodes0, u0, nodes, visits) && k < |u0|
    ensures nodes[k].value == if Erased(u0[k]) && Seen(visits, u0[k].id) then "" else u0[k].value
  {
    hide Follows, Items;
    assert Matches(nodes0[k], u0[k], k, u0);
    assert OldOk(nodes0, u0, nodes, visits, k);
  }

  lemma KeysNow(nodes0: seq<Node>, u0: seq<Y>, nodes: seq<Node>, visits: seq<Y>, n: nat)
    requires Unfolds(nodes0, u0) && Placed(nodes0, u0, nodes, visits) && n < |u0| && Unsettled(nodes[n])
    ensures nodes[n] == nodes0[n] && u0[n].Y? && u0[n].id == n && !Seen(visits, n)
    ensures InRange(nodes[n].content, |nodes|) && |ContentValues(nodes, n)| == |u0[n].kids|
    ensures forall c :: 0 <= c < |u0[n].kids| ==>
      var k := u0[n].kids[c];
      ContentValues(nodes, n)[c] == if Erased(k) && Seen(visits, k.id) then "" else k.value
  {
    hide Follows, Items;
    assert OldOk(nodes0, u0, nodes, visits, n);
    ContentOf(nodes0, u0, n);
    forall c | 0 <= c < |u0[n].kids|
      ensures ContentValues(nodes, n)[c] == if Erased(u0[n].kids[c]) && Seen(visits, u0[n].kids[c].id) then "" else u0[n].kids[c].value
    {
      TextNow(nodes0, u0, nodes, visits, nodes[n].content[c]);
    }
  }

  /** On its first visit a node is refused if a key that it reads is gone, and treated as the document has it otherwise. */
  lemma TemplateNow(nodes0: seq<Node>, u0: seq<Y>, nodes: seq<Node>, visits: seq<Y>, n: nat)
    requires Unfolds(nodes0, u0) && Placed(nodes0, u0, nodes, visits) && n < |u0| && Unsettled(nodes[n])
    ensures u0[n].Y? && InRange(nodes[n].content, |nodes|)
    ensures
      var now := Template(nodes[n].kind, nodes[n].tag, nodes[n].value, ContentValues(nodes, n));
      if Raced(visits + [u0[n]], |visits|) then now == Reject
      else now == Template(u0[n].kind, u0[n].tag, u0[n].value, Keys(u0[n].kids))
  {
    KeysNow(nodes0, u0, nodes, visits, n);
    ContentOf(nodes0, u0, n);
    hide Template, Unfolds, Placed;
    var y, keys, all := u0[n], ContentValues(nodes, n), visits + [u0[n]];
    assert all[..|visits|] == visits && all[|visits|] == y;
    if Raced(all, |visits|) {
      var c :| 0 <= c < |y.kids| && Reads(y, c) && Erased(y.kids[c]) && Seen(visits, y.kids[c].id);
      BlankKeyRefused(y, keys, c);
    } else {
      assert forall c :: 0 <= c < |keys| && Reads(y, c) ==> keys[c] == y.kids[c].value;
      IntactKeys(y, keys);
    }
  }

  // ---- rewriting ----

  /** The nodes that a rewrite adds stand where they were put. */
  predicate Added(nodes: seq<Node>, b: nat, new': seq<Node>) {
    b + |new'| <= |nodes| && nodes[b..b + |new'|] == new'
  }

  lemma AddedSplit(nodes: seq<Node>, b: nat, e: seq<Node>, p: seq<Node>)
    requires Added(nodes, b, e + p)
    ensures Added(nodes, b, e) && Added(nodes, b + |e|, p)
  {
    var all := nodes[b..b + |e + p|];
    assert nodes[b..b + |e|] == all[..|e|] && (e + p)[..|e|] == e;
    assert nodes[b + |e|..b + |e| + |p|] == all[|e|..] && (e + p)[|e|..] == p;
  }

  lemma AddedAt(nodes: seq<Node>, b: nat, new': seq<Node>, j: nat)
    requires Added(nodes, b, new') && j < |new'|
    ensures nodes[b + j] == new'[j]
  {
    assert nodes[b..b + |new'|][j] == nodes[b + j];
  }

  /** What one part adds to the queue, and that the nodes it adds are in order. */
  lemma PartAdds(u0: seq<Y>, nodes: seq<Node>, p: Part, b: nat, c: seq<nat>)
    requires |u0| <= b && InRange(c, |u0|) && (p.Child? ==> p.index < |c|) && Added(nodes, b, PartNodes(p, b, c)) && |u0| <= |nodes|
    ensures PartId(p, b, c) < |nodes| && IdItem(u0, nodes, PartId(p, b, c)) == PartItem(p, Pointed(u0, c))
    ensures forall i :: b <= i < b + |PartNodes(p, b, c)| ==> NewOk(u0, nodes, i)
  {
    if !p.Child? { AddedAt(nodes, b, PartNodes(p, b, c), 0); }
    if p.TextGroup? {
      AddedAt(nodes, b, PartNodes(p, b, c), 1);
      assert nodes[b + 1].content[0] == b && !InRange(nodes[b + 1].content, |u0|);
      assert IdItem(u0, nodes, b) == [];
    }
    hide Added;
  }

  /** What all parts add. */
  lemma {:induction false} PartsAdd(u0: seq<Y>, nodes: seq<Node>, parts: seq<Part>, b: nat, c: seq<nat>)
    requires |u0| <= b && |u0| <= |nodes| && InRange(c, |u0|)
    requires (forall j :: 0 <= j < |parts| && parts[j].Child? ==> parts[j].index < |c|) && Added(nodes, b, NewNodes(parts, b, c))
    ensures InRange(NewContent(parts, b, c), |nodes|)
    ensures Items(u0, nodes, NewContent(parts, b, c)) == PartItems(parts, Pointed(u0, c))
    ensures forall i :: b <= i < b + |NewNodes(parts, b, c)| ==> NewOk(u0, nodes, i)
  {
    hide *;
    PartsUnfold(parts, b, c, Pointed(u0, c));
    if parts == [] {
      NoItems(u0, nodes, []);
      NoneInRange(|nodes|);
    } else {
      var earlier, p := parts[..|parts| - 1], parts[|parts| - 1];
      var e := NewNodes(earlier, b, c);
      var ids, id := NewContent(earlier, b, c), PartId(p, b + |e|, c);
      AddedSplit(nodes, b, e, PartNodes(p, b + |e|, c));
      PartsAdd(u0, nodes, earlier, b, c);
      SameKids(u0, c);
      PartAdds(u0, nodes, p, b + |e|, c);
      ItemsConcat(u0, nodes, ids, [id]);
      OneItem(u0, nodes, id);
      OneMoreInRange(ids, id, |nodes|);
    }
  }

  lemma SameKids(u0: seq<Y>, c: seq<nat>)
    requires InRange(c, |u0|)
    ensures |Pointed(u0, c)| == |c|
  {
  }

  lemma NoneInRange(n: nat)
    ensures InRange([], n)
  {
  }

  lemma OneMoreInRange(ids: seq<nat>, id: nat, n: nat)
    requires InRange(ids, n) && id < n
    ensures InRange(ids + [id], n)
  {
  }

  lemma PartsUnfold(parts: seq<Part>, b: nat, c: seq<nat>, kids: seq<Y>)
    ensures parts == [] ==> NewNodes(parts, b, c) == [] && NewContent(parts, b, c) == [] && PartItems(parts, kids) == []
    ensures parts != [] ==>
      var earlier, p := parts[..|parts| - 1], parts[|parts| - 1];
      var e := NewNodes(earlier, b, c);
      && NewNodes(parts, b, c) == e + PartNodes(p, b + |e|, c)
      && NewContent(parts, b, c) == NewContent(earlier, b, c) + [PartId(p, b + |e|, c)]
      && PartItems(parts, kids) == PartItems(earlier, kids) + PartItem(p, kids)
  {
  }

  lemma OneItem(u0: seq<Y>, nodes: seq<Node>, id: nat)
    ensures Items(u0, nodes, [id]) == IdItem(u0, nodes, id)
  {
    assert [id][..0] == [];
  }

  lemma NewOkStays(u0: seq<Y>, nodes: seq<Node>, nodes': seq<Node>, i: nat)
    requires Grows(u0, nodes, nodes') && |u0| <= i < |nodes| && NewOk(u0, nodes, i)
    ensures NewOk(u0, nodes', i)
  {
    if !InRange(nodes[i].content, |u0|) {
      assert forall j :: 0 <= j < |nodes[i].content| ==>
        IdItem(u0, nodes', nodes[i].content[j]) == IdItem(u0, nodes, nodes[i].content[j]);
    }
  }

  lemma OldOkStays(nodes0: seq<Node>, u0: seq<Y>, nodes: seq<Node>, nodes': seq<Node>, visits: seq<Y>, y: Y, i: nat)
    requires |nodes0| == |u0| && Grows(u0, nodes, nodes') && i < |u0| && nodes'[i] == nodes[i] && y.id != i
    requires OldOk(nodes0, u0, nodes, visits, i)
    ensures OldOk(nodes0, u0, nodes', visits + [y], i)
  {
    SeenNext(visits, y, i);
    hide Follows, Seen;
    if Unsettled(nodes0[i]) && Seen(visits, i) { ItemsStay(u0, nodes, nodes', nodes[i].content); }
  }

  lemma SeenNext(visits: seq<Y>, y: Y, i: nat)
    ensures Seen(visits + [y], i) <==> Seen(visits, i) || y.id == i
  {
    var all := visits + [y];
    if Seen(visits, i) {
      var j :| 0 <= j < |visits| && visits[j].id == i;
      assert all[j].id == i;
    }
    if y.id == i { assert all[|visits|].id == i; }
  }

  /** A rewritten node is followed by what the document says, and everything else stays in place. */
  lemma RewritePlaced(nodes0: seq<Node>, u0: seq<Y>, nodes: seq<Node>, visits: seq<Y>, n: nat, parts: seq<Part>)
    requires Unfolds(nodes0, u0) && Placed(nodes0, u0, nodes, visits) && n < |u0| && Unsettled(nodes[n]) && u0[n].Y?
    requires Template(u0[n].kind, u0[n].tag, u0[n].value, Keys(u0[n].kids)) == Become(parts)
    ensures Placed(nodes0, u0, Overwritten(nodes, n, parts), visits + [u0[n]])
    ensures InRange(Overwritten(nodes, n, parts)[n].content, |Overwritten(nodes, n, parts)|)
    ensures Items(u0, Overwritten(nodes, n, parts), Overwritten(nodes, n, parts)[n].content) == Follows(u0[n])
    ensures Grows(u0, nodes, Overwritten(nodes, n, parts))
  {
    assert OldOk(nodes0, u0, nodes, visits, n);
    ContentOf(nodes0, u0, n);
    var y, c, nodes' := u0[n], nodes[n].content, Overwritten(nodes, n, parts);
    TemplateFits(y.kind, y.tag, y.value, Keys(y.kids));
    assert Follows(y) == PartItems(parts, y.kids);
    hide Template, Follows;
    RewriteAdds(u0, nodes, n, parts, y.kids);
    SeenNext(visits, y, n);
    hide NewNodes, NewContent, PartsFit, Items, PartItems, Unfolds, NewOk, Overwritten;
    forall i | 0 <= i < |u0| ensures OldOk(nodes0, u0, nodes', visits + [y], i) {
      if i != n {
        assert OldOk(nodes0, u0, nodes, visits, i);
        OldOkStays(nodes0, u0, nodes, nodes', visits, y, i);
      }
    }
    forall i | |u0| <= i < |nodes'| ensures NewOk(u0, nodes', i) {
      if i < |nodes| { NewOkStays(u0, nodes, nodes', i); }
    }
  }

  lemma RewriteAdds(u0: seq<Y>, nodes: seq<Node>, n: nat, parts: seq<Part>, kids: seq<Y>)
    requires n < |u0| <= |nodes| && nodes[n].Node? && InRange(nodes[n].content, |u0|) && Pointed(u0, nodes[n].content) == kids
    requires PartsFit(parts, |kids|)
    ensures
      var nodes' := Overwritten(nodes, n, parts);
      && Grows(u0, nodes, nodes') && (forall i :: 0 <= i < |nodes| && i != n ==> nodes'[i] == nodes[i])
      && nodes'[n].Node? && nodes'[n].kind == Mapping && nodes'[n].tag == NoTag && nodes'[n].value == ""
      && InRange(nodes'[n].content, |nodes'|) && Items(u0, nodes', nodes'[n].content) == PartItems(parts, kids)
      && (forall i :: |nodes| <= i < |nodes'| ==> NewOk(u0, nodes', i))
  {
    hide *;
    var c, nodes' := nodes[n].content, Overwritten(nodes, n, parts);
    SameKids(u0, c);
    forall j | 0 <= j < |parts| { ChildFits(parts, |kids|, j); }
    OverwrittenShape(u0, nodes, n, parts);
    PartsAdd(u0, nodes', parts, |nodes|, c);
  }

  lemma OverwrittenShape(u0: seq<Y>, nodes: seq<Node>, n: nat, parts: seq<Part>)
    requires n < |u0| <= |nodes| && nodes[n].Node?
    ensures
      var c, nodes' := nodes[n].content, Overwritten(nodes, n, parts);
      && |nodes'| == |nodes| + |NewNodes(parts, |nodes|, c)| && Added(nodes', |nodes|, NewNodes(parts, |nodes|, c))
      && Grows(u0, nodes, nodes') && (forall i :: 0 <= i < |nodes| && i != n ==> nodes'[i] == nodes[i])
      && nodes'[n] == Node(Mapping, NoTag, "", NewContent(parts, |nodes|, c))
  {
    hide NewNodes, NewContent;
    var new' := NewNodes(parts, |nodes|, nodes[n].content);
    var nodes' := Overwritten(nodes, n, parts);
    assert nodes'[|nodes|..|nodes| + |new'|] == new';
  }

  // ---- the run ----

  predicate Means(item: Item) {
    match item
    case One(y) => Desugar(y).Some?
    case Many(ys) => forall i :: 0 <= i < |ys| ==> Desugar(ys[i]).Some?
    case Gap => false
  }

  predicate AllMean(items: seq<Item>) { forall i :: 0 <= i < |items| ==> Means(items[i]) }

  lemma {:induction false} PartItemsMean(parts: seq<Part>, y: Y)
    requires y.Y? && forall j :: 0 <= j < |parts| ==> PartPlain(parts[j], DesugarKids(y)).Some?
    ensures AllMean(PartItems(parts, y.kids))
  {
    if parts != [] {
      var n := |parts| - 1;
      PartItemsMean(parts[..n], y);
      PartItemMeans(parts[n], y);
    }
  }

  lemma PartItemMeans(p: Part, y: Y)
    requires y.Y? && PartPlain(p, DesugarKids(y)).Some?
    ensures AllMean(PartItem(p, y.kids))
  {
    hide Desugar;
    if p.Group? {
      FinishSome(p.kind, NoTag, "", DesugarKids(y));
      assert forall i :: 0 <= i < |y.kids| ==> DesugarKids(y)[i].Some?;
    }
  }

  /** Where a node means something, so does all that follows it. */
  lemma FollowsMean(y: Y)
    requires y.Y? && Desugar(y).Some?
    ensures Template(y.kind, y.tag, y.value, Keys(y.kids)) != Reject && AllMean(Follows(y))
  {
    NotRejected(y);
    SettledIsLeft(y.kind, y.tag, y.value, Keys(y.kids));
    hide Template, Desugar;
    match Template(y.kind, y.tag, y.value, Keys(y.kids))
    case Leave =>
      DesugarLeave(y);
      FinishSome(y.kind, y.tag, y.value, DesugarKids(y));
      assert forall i :: 0 <= i < |y.kids| ==> DesugarKids(y)[i].Some?;
    case Become(parts) =>
      DesugarsTo(y, parts);
      FinishSome(Mapping, NoTag, "", PartsPlain(parts, DesugarKids(y)));
      var ps := PartsPlain(parts, DesugarKids(y));
      forall j | 0 <= j < |parts| ensures PartPlain(parts[j], DesugarKids(y)).Some? { assert ps[j].Some?; }
      PartItemsMean(parts, y);
  }

  lemma NotRejected(y: Y)
    requires y.Y? && Desugar(y).Some?
    ensures Template(y.kind, y.tag, y.value, Keys(y.kids)) != Reject
  {
    hide Template;
  }

  lemma MeanConcat(a: seq<Item>, b: seq<Item>)
    ensures AllMean(a + b) <==> AllMean(a) && AllMean(b)
  {
    if AllMean(a + b) {
      assert forall i :: 0 <= i < |a| ==> (a + b)[i] == a[i];
      assert forall i :: 0 <= i < |b| ==> (a + b)[|a| + i] == b[i];
    }
  }

  /**
   * The worklist is on course: it has been to `visits` without a race, what waits is what the document's order
   * has still to come, and it all means something if the document does.
   */
  ghost predicate Tracks(nodes0: seq<Node>, u0: seq<Y>, root: nat, nodes: seq<Node>, queue: seq<nat>, visits: seq<Y>) {
    && Unfolds(nodes0, u0) && root < |u0| && Placed(nodes0, u0, nodes, visits) && InRange(queue, |nodes|) && RaceFree(visits)
    && visits + Order(Items(u0, nodes, queue)) == Order([One(u0[root])])
    && FateOf(Items(u0, nodes, queue), visits) == FateOf([One(u0[root])], [])
    && (Desugar(u0[root]).Some? ==> AllMean(Items(u0, nodes, queue)))
  }

  lemma TracksStart(nodes: seq<Node>, u0: seq<Y>, root: nat)
    requires Unfolds(nodes, u0) && root < |u0|
    ensures Tracks(nodes, u0, root, nodes, [root], [])
  {
    OneItem(u0, nodes, root);
    assert [] + Order([One(u0[root])]) == Order([One(u0[root])]);
    hide Order, FateOf, Items, Desugar;
  }

  /** When nothing waits, the whole order was gone through without a race. */
  lemma TracksEnd(nodes0: seq<Node>, u0: seq<Y>, root: nat, nodes: seq<Node>, visits: seq<Y>)
    requires Tracks(nodes0, u0, root, nodes, [], visits)
    ensures KeysAreReadInTime(u0[root]) && FateOf([One(u0[root])], []) == Accept
  {
    assert Order([]) == [] && visits + [] == visits && FateOf([], visits) == Accept;
    hide Order, FateOf, Placed, Unfolds, RaceFree;
    NoItems(u0, nodes, []);
  }

  /** The node that the head of the queue leads to. */
  function HeadNode(u0: seq<Y>, queue: seq<nat>): nat
    requires queue != []
  {
    if queue[0] < |u0| then TargetId(u0[queue[0]]) else queue[0]
  }

  lemma {:induction false} TargetOf(nodes0: seq<Node>, u0: seq<Y>, q: nat)
    requires Unfolds(nodes0, u0) && q < |u0|
    ensures TargetId(u0[q]) < |u0| && Target(u0[q]) == u0[TargetId(u0[q])]
    decreases u0[q]
  {
    assert Matches(nodes0[q], u0[q], q, u0);
    if nodes0[q].AliasNode? { TargetOf(nodes0, u0, nodes0[q].target); }
  }

  /** Going on from a new node. */
  lemma TracksNew(nodes0: seq<Node>, u0: seq<Y>, root: nat, nodes: seq<Node>, queue: seq<nat>, visits: seq<Y>)
    requires Tracks(nodes0, u0, root, nodes, queue, visits) && queue != [] && queue[0] >= |u0|
    requires nodes[queue[0]].Node? && nodes[queue[0]].tag != Nil
    ensures Settled(nodes[queue[0]].kind, nodes[queue[0]].tag)
    ensures Tracks(nodes0, u0, root, nodes, queue[1..] + nodes[queue[0]].content, visits)
  {
    var q, rest := queue[0], queue[1..];
    assert NewOk(u0, nodes, q);
    NewInRange(u0, nodes, q, rest);
    NewOpens(u0, nodes, q, Items(u0, nodes, rest), visits);
    NewMeans(u0, nodes, q);
    ItemsHead(u0, nodes, queue);
    ItemsConcat(u0, nodes, rest, nodes[q].content);
    MeanConcat(IdItem(u0, nodes, q), Items(u0, nodes, rest));
    MeanConcat(Items(u0, nodes, rest), Items(u0, nodes, nodes[q].content));
    hide Order, FateOf, Items, IdItem, Placed, Unfolds, RaceFree, Desugar, NewSettled, AllMean, InRange;
  }

  lemma NewInRange(u0: seq<Y>, nodes: seq<Node>, q: nat, rest: seq<nat>)
    requires NewOk(u0, nodes, q) && |u0| <= |nodes| && InRange(rest, |nodes|)
    ensures InRange(rest + nodes[q].content, |nodes|)
  {
  }

  lemma NewMeans(u0: seq<Y>, nodes: seq<Node>, q: nat)
    requires |u0| <= q < |nodes| && NewOk(u0, nodes, q) && nodes[q].tag != Nil
    ensures AllMean(IdItem(u0, nodes, q)) ==> AllMean(Items(u0, nodes, nodes[q].content))
  {
    hide Desugar;
    var content := nodes[q].content;
    if content != [] && InRange(content, |u0|) {
      OldItems(u0, nodes, content);
      if AllMean(IdItem(u0, nodes, q)) { assert Means(IdItem(u0, nodes, q)[0]); }
    } else {
      NoItems(u0, nodes, content);
    }
  }

  /** Going on from a node of the document, rewritten now, before, or never. */
  lemma TracksOld(nodes0: seq<Node>, u0: seq<Y>, root: nat, nodes: seq<Node>, queue: seq<nat>, visits: seq<Y>, n: nat, nodes': seq<Node>)
    requires Tracks(nodes0, u0, root, nodes, queue, visits) && queue != [] && queue[0] < |u0| && n == TargetId(u0[queue[0]])
    requires n < |u0| <= |nodes| <= |nodes'| && nodes'[n].Node? && u0[n].Y? && Grows(u0, nodes, nodes')
    requires Placed(nodes0, u0, nodes', visits + [u0[n]]) && InRange(nodes'[n].content, |nodes'|)
    requires Items(u0, nodes', nodes'[n].content) == Follows(u0[n]) && !RefusedAt(visits, u0[n])
    ensures Tracks(nodes0, u0, root, nodes', queue[1..] + nodes'[n].content, visits + [u0[n]])
  {
    hide *;
    var rest, y, items := queue[1..], u0[n], Items(u0, nodes, queue);
    TracksParts(nodes0, u0, root, nodes, queue, visits);
    TargetOf(nodes0, u0, queue[0]);
    OldHead(u0, nodes, queue);
    RestInRange(queue, |nodes|, nodes'[n].content, |nodes'|);
    ItemsStay(u0, nodes, nodes', rest);
    ItemsConcat(u0, nodes', rest, nodes'[n].content);
    OrderOne(items);
    FateOne(items, visits);
    NotRaced(visits, y);
    RaceFreeNext(visits, y);
    assert (visits + [y]) + Order(Items(u0, nodes', rest + nodes'[n].content)) == visits + Order(items);
    if Desugar(u0[root]).Some? {
      HeadMeans(items);
      TargetMeans(u0[queue[0]]);
      FollowsMean(y);
      MeanConcat(Items(u0, nodes, rest), Follows(y));
    }
    TracksWhole(nodes0, u0, root, nodes', rest + nodes'[n].content, visits + [y]);
  }

  lemma NotRaced(visits: seq<Y>, y: Y)
    requires y.Y? && !RefusedAt(visits, y)
    ensures !Raced(visits + [y], |visits|)
  {
  }

  lemma OldHead(u0: seq<Y>, nodes: seq<Node>, queue: seq<nat>)
    requires queue != [] && queue[0] < |u0|
    ensures
      var items := Items(u0, nodes, queue);
      items != [] && items[0] == One(u0[queue[0]]) && items[1..] == Items(u0, nodes, queue[1..])
  {
    ItemsHead(u0, nodes, queue);
    hide Items;
  }

  lemma RestInRange(queue: seq<nat>, n: nat, more: seq<nat>, n': nat)
    requires queue != [] && InRange(queue, n) && InRange(more, n') && n <= n'
    ensures InRange(queue[1..], n) && InRange(queue[1..] + more, n')
  {
  }

  lemma HeadMeans(items: seq<Item>)
    requires items != [] && AllMean(items) && items[0].One?
    ensures Desugar(items[0].y).Some? && AllMean(items[1..])
  {
    hide Desugar;
    assert Means(items[0]);
  }

  lemma TargetMeans(y: Y)
    ensures Desugar(Target(y)) == Desugar(y)
  {
  }

  lemma TracksParts(nodes0: seq<Node>, u0: seq<Y>, root: nat, nodes: seq<Node>, queue: seq<nat>, visits: seq<Y>)
    requires Tracks(nodes0, u0, root, nodes, queue, visits)
    ensures Unfolds(nodes0, u0) && root < |u0| && Placed(nodes0, u0, nodes, visits) && InRange(queue, |nodes|) && RaceFree(visits)
    ensures visits + Order(Items(u0, nodes, queue)) == Order([One(u0[root])])
    ensures FateOf(Items(u0, nodes, queue), visits) == FateOf([One(u0[root])], [])
    ensures Desugar(u0[root]).Some? ==> AllMean(Items(u0, nodes, queue))
  {
  }

  lemma TracksWhole(nodes0: seq<Node>, u0: seq<Y>, root: nat, nodes: seq<Node>, queue: seq<nat>, visits: seq<Y>)
    requires Unfolds(nodes0, u0) && root < |u0| && Placed(nodes0, u0, nodes, visits) && InRange(queue, |nodes|) && RaceFree(visits)
    requires visits + Order(Items(u0, nodes, queue)) == Order([One(u0[root])])
    requires FateOf(Items(u0, nodes, queue), visits) == FateOf([One(u0[root])], [])
    requires Desugar(u0[root]).Some? ==> AllMean(Items(u0, nodes, queue))
    ensures Tracks(nodes0, u0, root, nodes, queue, visits)
  {
  }

  predicate ContentInRange(nodes: seq<Node>, n: nat) { n < |nodes| && nodes[n].Node? && InRange(nodes[n].content, |nodes|) }

  /** One round that is not refused keeps the worklist on course. */
  lemma TracksNext(nodes0: seq<Node>, u0: seq<Y>, root: nat, nodes: seq<Node>, queue: seq<nat>, visits: seq<Y>, nodes': seq<Node>)
    requires Tracks(nodes0, u0, root, nodes, queue, visits) && queue != []
    requires ContentInRange(nodes, HeadNode(u0, queue))
    requires Visit(nodes, HeadNode(u0, queue), ContentValues(nodes, HeadNode(u0, queue))) == Some(nodes')
    ensures HeadNode(u0, queue) < |nodes'| && nodes'[HeadNode(u0, queue)].Node?
    ensures queue[0] < |u0| ==> HeadNode(u0, queue) < |u0|
    ensures Tracks(nodes0, u0, root, nodes', queue[1..] + nodes'[HeadNode(u0, queue)].content,
                   if queue[0] < |u0| then visits + [u0[HeadNode(u0, queue)]] else visits)
  {
    hide Template, Order, FateOf, Items, Desugar, RaceFree, Follows, Tracks, Raced, Unfolds, Placed, Grows, Overwritten;
    var n := HeadNode(u0, queue);
    TracksParts(nodes0, u0, root, nodes, queue, visits);
    SettledIsLeft(nodes[n].kind, nodes[n].tag, nodes[n].value, ContentValues(nodes, n));
    NilRejected(nodes[n].kind, nodes[n].value, ContentValues(nodes, n));
    if queue[0] >= |u0| {
      TracksNew(nodes0, u0, root, nodes, queue, visits);
    } else {
      TargetOf(nodes0, u0, queue[0]);
      if Unsettled(nodes[n]) {
        var parts := Template(nodes[n].kind, nodes[n].tag, nodes[n].value, ContentValues(nodes, n)).parts;
        TemplateNow(nodes0, u0, nodes, visits, n);
        RewritePlaced(nodes0, u0, nodes, visits, n, parts);
        OverwrittenAt(nodes, n, parts);
      } else {
        OldFollows(nodes0, u0, nodes, visits, n);
        Revisit(nodes0, u0, nodes, visits, n);
      }
      TracksOld(nodes0, u0, root, nodes, queue, visits, n, nodes');
    }
  }

  lemma OverwrittenAt(nodes: seq<Node>, n: nat, parts: seq<Part>)
    requires n < |nodes| && nodes[n].Node?
    ensures |nodes| <= |Overwritten(nodes, n, parts)| && Overwritten(nodes, n, parts)[n].Node?
  {
    hide NewNodes, NewContent;
  }

  /** Coming back to a settled node changes nothing and cannot be a race. */
  lemma Revisit(nodes0: seq<Node>, u0: seq<Y>, nodes: seq<Node>, visits: seq<Y>, n: nat)
    requires Unfolds(nodes0, u0) && Placed(nodes0, u0, nodes, visits) && n < |u0| && u0[n].Y? && !Unsettled(nodes[n])
    ensures Placed(nodes0, u0, nodes, visits + [u0[n]]) && Grows(u0, nodes, nodes) && !Raced(visits + [u0[n]], |visits|)
  {
    var y := u0[n];
    assert Matches(nodes0[n], y, n, u0);
    assert OldOk(nodes0, u0, nodes, visits, n);
    hide Follows, Items, NewOk;
    forall i | 0 <= i < |u0| ensures OldOk(nodes0, u0, nodes, visits + [y], i) {
      assert OldOk(nodes0, u0, nodes, visits, i);
      SeenNext(visits, y, i);
    }
    assert (visits + [y])[..|visits|] == visits && (visits + [y])[|visits|] == y;
  }

  /** A round fails only if the document means nothing, or if a key was not read in time; and it fails as the document has it. */
  lemma Refusal(nodes0: seq<Node>, u0: seq<Y>, root: nat, nodes: seq<Node>, queue: seq<nat>, visits: seq<Y>)
    requires Tracks(nodes0, u0, root, nodes, queue, visits) && queue != []
    requires ContentInRange(nodes, HeadNode(u0, queue))
    requires Visit(nodes, HeadNode(u0, queue), ContentValues(nodes, HeadNode(u0, queue))) == None
    ensures Desugar(u0[root]).None? || !KeysAreReadInTime(u0[root])
    ensures FateOf([One(u0[root])], []) == FailureAt(nodes[HeadNode(u0, queue)].tag)
  {
    hide Template, Order, FateOf, Items, Desugar, RaceFree, Follows, Tracks, Raced, Unfolds, Placed, Overwritten;
    var n := HeadNode(u0, queue);
    TracksParts(nodes0, u0, root, nodes, queue, visits);
    SettledIsLeft(nodes[n].kind, nodes[n].tag, nodes[n].value, ContentValues(nodes, n));
    if queue[0] >= |u0| {
      if nodes[n].tag != Nil {
        TracksNew(nodes0, u0, root, nodes, queue, visits);
      } else {
        GapHead(u0, nodes, queue);
        FateGap(Items(u0, nodes, queue), visits);
      }
    } else {
      TargetOf(nodes0, u0, queue[0]);
      OldHead(u0, nodes, queue);
      TemplateNow(nodes0, u0, nodes, visits, n);
      KeysNow(nodes0, u0, nodes, visits, n);
      ContentOf(nodes0, u0, n);
      OldRefusal(u0, root, Items(u0, nodes, queue), visits, u0[n]);
    }
  }

  lemma GapHead(u0: seq<Y>, nodes: seq<Node>, queue: seq<nat>)
    requires queue != [] && |u0| <= queue[0] < |nodes| && nodes[queue[0]].Node? && nodes[queue[0]].tag == Nil
    ensures
      var items := Items(u0, nodes, queue);
      items != [] && items[0].Gap? && !AllMean(items)
  {
    ItemsHead(u0, nodes, queue);
    hide Items;
    assert !Means(Items(u0, nodes, queue)[0]);
  }

  lemma OldRefusal(u0: seq<Y>, root: nat, items: seq<Item>, visits: seq<Y>, y: Y)
    requires root < |u0| && items != [] && items[0].One? && Target(items[0].y) == y && RefusedAt(visits, y)
    requires visits + Order(items) == Order([One(u0[root])]) && FateOf(items, visits) == FateOf([One(u0[root])], [])
    requires Desugar(u0[root]).Some? ==> AllMean(items)
    ensures Desugar(u0[root]).None? || !KeysAreReadInTime(u0[root])
    ensures FateOf([One(u0[root])], []) == FailureAt(y.tag)
  {
    hide Template, Order, FateOf, Desugar, RaceFree, Follows, Raced;
    FateOne(items, visits);
    OrderOne(items);
    var later := Order(items[1..] + Follows(y));
    assert Order([One(u0[root])]) == (visits + [y]) + later;
    if Raced(visits + [y], |visits|) {
      RacedEarlier(visits + [y], later, |visits|);
    } else if Desugar(u0[root]).Some? {
      HeadMeans(items);
      TargetMeans(items[0].y);
      NotRejected(y);
    }
  }
}
