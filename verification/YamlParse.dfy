/** The breadth-first, in-place rewriting of a document (ParseYAMLNode in pkg/expr/parse/yaml.go). */
module YamlParse {
  import opened Trees
  import opened YamlSugar
  import opened YamlGraph
  import opened YamlOrder
  import opened YamlTrack

  /** What one rewrite does to the unfoldings that were there. */
  predicate Evolves(u: seq<Y>, u': seq<Y>) {
    && |u| <= |u'|
    && forall i :: 0 <= i < |u| ==>
         && Size(u'[i]) <= Size(u[i]) && TargetId(u'[i]) == TargetId(u[i])
         && (Desugar(u'[i]).Some? ==> Desugar(u'[i]) == Desugar(u[i]))
  }

  lemma {:induction false} SubstTarget(y: Y, n: nat, new': Y)
    requires new'.Y? && new'.id == n
    ensures TargetId(Subst(y, n, new')) == TargetId(y)
  {
    match y
    case Alias(_, _, target) => SubstTarget(target, n, new');
    case Y(_, _, _, _, _) =>
  }

  lemma ExpandedReplaces(y: Y, parts: seq<Part>, b: nat)
    requires y.Y? && Template(y.kind, y.tag, y.value, Keys(y.kids)) == Become(parts)
    ensures Replaces(Expanded(y, parts, b), y) && PartsFit(parts, |y.kids|)
    ensures Size(Expanded(y, parts, b)) <= Size(y)
  {
    hide Template, Desugar, Size;
    NilRejected(y.kind, y.value, Keys(y.kids));
    TemplateFits(y.kind, y.tag, y.value, Keys(y.kids));
    SettledIsLeft(y.kind, y.tag, y.value, Keys(y.kids));
    ExpandedDesugars(y, parts, b);
    ExpandedShrinks(y, parts, b);
  }

  lemma RewriteEvolves(nodes: seq<Node>, u: seq<Y>, n: nat, parts: seq<Part>)
    requires Unfolds(nodes, u) && n < |u| && u[n].Y? && u[n].id == n
    requires Template(u[n].kind, u[n].tag, u[n].value, Keys(u[n].kids)) == Become(parts)
    ensures Evolves(u, Rewritten(u, n, parts))
  {
    hide Template, Desugar, Size, Subst, Consistent, NewYs, NewKids, Unfolds, TargetId, Replaces;
    var e := Expanded(u[n], parts, |u|);
    ExpandedReplaces(u[n], parts, |u|);
    IsNode(e, u[n]);
    forall i | 0 <= i < |u|
      ensures
        var y' := Rewritten(u, n, parts)[i];
        && Size(y') <= Size(u[i]) && TargetId(y') == TargetId(u[i])
        && (Desugar(y').Some? ==> Desugar(y') == Desugar(u[i]))
    {
      UnfoldingIsConsistent(nodes, u, i, n);
      SubstShrinks(u[i], n, u[n], e);
      SubstTarget(u[i], n, e);
      SubstRefines(u[i], n, u[n], e);
    }
  }

  lemma IsNode(e: Y, y: Y)
    requires Replaces(e, y)
    ensures e.Y?
  {
  }

  /** Visited nodes are settled, and what they point to is visited or waiting. */
  ghost predicate Reached(nodes: seq<Node>, u: seq<Y>, queue: seq<nat>, visited: set<nat>) {
    forall n :: n in visited ==>
      && n < |nodes| && nodes[n].Node? && Settled(nodes[n].kind, nodes[n].tag)
      && forall j :: 0 <= j < |nodes[n].content| ==> Covered(u, queue, visited, nodes[n].content[j])
  }

  ghost predicate Covered(u: seq<Y>, queue: seq<nat>, visited: set<nat>, c: nat) {
    c < |u| && (TargetId(u[c]) in visited || c in queue)
  }

  function Sizes(u: seq<Y>, queue: seq<nat>): seq<nat>
    requires InRange(queue, |u|)
  {
    seq(|queue|, i requires 0 <= i < |queue| => Size(u[queue[i]]))
  }

  lemma SizesConcat(u: seq<Y>, a: seq<nat>, b: seq<nat>)
    requires InRange(a, |u|) && InRange(b, |u|)
    ensures InRange(a + b, |u|) && Sizes(u, a + b) == Sizes(u, a) + Sizes(u, b)
  {
  }

  lemma SizesShrink(u: seq<Y>, u': seq<Y>, queue: seq<nat>)
    requires InRange(queue, |u|) && Evolves(u, u')
    ensures InRange(queue, |u'|) && Total(Sizes(u', queue)) <= Total(Sizes(u, queue))
  {
    hide Size, Desugar, TargetId;
    TotalMonotone(Sizes(u, queue), Sizes(u', queue));
  }

  lemma ContentSizes(node: Node, y: Y, n: nat, u: seq<Y>)
    requires Matches(node, y, n, u) && node.Node? && Settled(node.kind, node.tag)
    ensures InRange(node.content, |u|) && Size(y) == 1 + Total(Sizes(u, node.content))
  {
    assert KidSizes(y) == Sizes(u, node.content);
  }

  /** When nothing waits, what the root reaches is settled. */
  lemma {:induction false} ReachedIsSettled(nodes: seq<Node>, u: seq<Y>, visited: set<nat>, x: nat)
    requires Unfolds(nodes, u) && Reached(nodes, u, [], visited) && x < |u| && TargetId(u[x]) in visited
    ensures AllSettled(u[x])
    decreases u[x]
  {
    assert Matches(nodes[x], u[x], x, u);
    match nodes[x]
    case AliasNode(_, target) => ReachedIsSettled(nodes, u, visited, target);
    case Node(_, _, _, content) =>
      forall j | 0 <= j < |content| ensures AllSettled(u[x].kids[j]) {
        assert Covered(u, [], visited, content[j]);
        ReachedIsSettled(nodes, u, visited, content[j]);
      }
  }

  /** The node a visit leaves behind: settled, its content in the unfolding's order. */
  predicate Settles(nodes: seq<Node>, nodes': seq<Node>, n: nat) {
    && n < |nodes| <= |nodes'| && nodes'[n].Node? && Settled(nodes'[n].kind, nodes'[n].tag)
    && (forall i :: 0 <= i < |nodes| && i != n ==> nodes'[i] == nodes[i])
    && (nodes[n].Node? && Settled(nodes[n].kind, nodes[n].tag) ==> nodes'[n] == nodes[n])
  }

  lemma ReachedNext(nodes: seq<Node>, u: seq<Y>, nodes': seq<Node>, u': seq<Y>, queue: seq<nat>, visited: set<nat>, n: nat)
    requires Reached(nodes, u, queue, visited) && Settles(nodes, nodes', n) && Evolves(u, u') && Unfolds(nodes', u')
    requires queue != [] && queue[0] < |u| && TargetId(u[queue[0]]) == n
    ensures Reached(nodes', u', queue[1..] + nodes'[n].content, visited + {n})
  {
    hide Desugar, Size, TargetId;
    var queue' := queue[1..] + nodes'[n].content;
    forall m | m in visited + {n}
      ensures m < |nodes'| && nodes'[m].Node? && Settled(nodes'[m].kind, nodes'[m].tag)
      ensures forall j :: 0 <= j < |nodes'[m].content| ==> Covered(u', queue', visited + {n}, nodes'[m].content[j])
    {
      if m == n {
        assert Matches(nodes'[n], u'[n], n, u');
        assert forall j :: 0 <= j < |nodes'[n].content| ==> queue'[|queue| - 1 + j] == nodes'[n].content[j];
      } else {
        forall j | 0 <= j < |nodes[m].content| ensures Covered(u', queue', visited + {n}, nodes[m].content[j]) {
          CoveredNext(u, u', queue, nodes'[n].content, visited, n, nodes[m].content[j]);
        }
      }
    }
  }

  lemma CoveredNext(u: seq<Y>, u': seq<Y>, queue: seq<nat>, more: seq<nat>, visited: set<nat>, n: nat, c: nat)
    requires Covered(u, queue, visited, c) && Evolves(u, u') && queue != [] && queue[0] < |u| && TargetId(u[queue[0]]) == n
    ensures Covered(u', queue[1..] + more, visited + {n}, c)
  {
    hide Desugar, Size, TargetId;
    if TargetId(u[c]) !in visited && c != queue[0] {
      assert queue == [queue[0]] + queue[1..];
      assert c in queue[1..];
    }
  }

  /** The queue gets lighter. */
  lemma QueueShrinks(nodes': seq<Node>, u: seq<Y>, u': seq<Y>, queue: seq<nat>, n: nat)
    requires Unfolds(nodes', u') && n < |u| <= |u'| && nodes'[n].Node? && Settled(nodes'[n].kind, nodes'[n].tag) && Evolves(u, u')
    requires queue != [] && InRange(queue, |u|) && Size(u[n]) <= Size(u[queue[0]])
    ensures InRange(queue[1..] + nodes'[n].content, |u'|)
    ensures Total(Sizes(u', queue[1..] + nodes'[n].content)) < Total(Sizes(u, queue))
  {
    hide Size, Desugar, TargetId;
    ContentSizes(nodes'[n], u'[n], n, u');
    var content, rest := nodes'[n].content, queue[1..];
    SizesShrink(u, u', rest);
    SizesConcat(u', rest, content);
    TotalConcat(Sizes(u', rest), Sizes(u', content));
    SizesConcat(u, [queue[0]], rest);
    assert queue == [queue[0]] + rest;
    TotalConcat(Sizes(u, [queue[0]]), Sizes(u, rest));
    OneSize(u, queue[0]);
  }

  lemma OneSize(u: seq<Y>, q: nat)
    requires q < |u|
    ensures Total(Sizes(u, [q])) == Size(u[q])
  {
    hide Size;
    assert Sizes(u, [q]) == [Size(u[q])] && [Size(u[q])][..0] == [];
  }

  // ---- the worklist as a function ----

  datatype Result = Running | Failed(fate: Fate) | Accepted(nodes: seq<Node>)

  /** `fuel` rounds of the worklist, following an alias being a round of its own. Looking at a node that is not there is a crash. */
  function Worklist(nodes: seq<Node>, queue: seq<nat>, fuel: nat): Result
    decreases fuel
  {
    if queue == [] then Accepted(nodes)
    else if fuel == 0 then Running
    else if queue[0] >= |nodes| then Failed(Crash)
    else match nodes[queue[0]]
      case AliasNode(_, target) => Worklist(nodes, [target] + queue[1..], fuel - 1)
      case Node(_, _, _, _) =>
        if !ContentInRange(nodes, queue[0]) then Failed(Crash)
        else match Visit(nodes, queue[0], ContentValues(nodes, queue[0]))
          case None => Failed(FailureAt(nodes[queue[0]].tag))
          case Some(nodes') => Worklist(nodes', queue[1..] + nodes'[queue[0]].content, fuel - 1)
  }

  /** A run that has ended has ended. */
  lemma {:induction false} MoreFuel(nodes: seq<Node>, queue: seq<nat>, fuel: nat, more: nat)
    requires fuel <= more && !Worklist(nodes, queue, fuel).Running?
    ensures Worklist(nodes, queue, more) == Worklist(nodes, queue, fuel)
    decreases fuel
  {
    hide Visit, ContentValues;
    if queue != [] && queue[0] < |nodes| {
      var q := queue[0];
      if nodes[q].AliasNode? {
        MoreFuel(nodes, [nodes[q].target] + queue[1..], fuel - 1, more - 1);
      } else if ContentInRange(nodes, q) && Visit(nodes, q, ContentValues(nodes, q)).Some? {
        var nodes' := Visit(nodes, q, ContentValues(nodes, q)).value;
        MoreFuel(nodes', queue[1..] + nodes'[q].content, fuel - 1, more - 1);
      }
    }
  }

  /** After `k` rounds the worklist is in the second state. */
  ghost predicate Reaches(nodes: seq<Node>, queue: seq<nat>, k: nat, nodes': seq<Node>, queue': seq<nat>) {
    forall fuel: nat :: Worklist(nodes, queue, k + fuel) == Worklist(nodes', queue', fuel)
  }

  lemma ReachesThen(nodes: seq<Node>, queue: seq<nat>, k: nat, nodes': seq<Node>, queue': seq<nat>, k': nat, nodes'': seq<Node>, queue'': seq<nat>)
    requires Reaches(nodes, queue, k, nodes', queue') && Reaches(nodes', queue', k', nodes'', queue'')
    ensures Reaches(nodes, queue, k + k', nodes'', queue'')
  {
    hide Worklist;
    forall fuel: nat ensures Worklist(nodes, queue, (k + k') + fuel) == Worklist(nodes'', queue'', fuel) {
      assert Worklist(nodes', queue', k' + fuel) == Worklist(nodes'', queue'', fuel);
      assert k + (k' + fuel) == (k + k') + fuel;
    }
  }

  lemma AliasRound(nodes: seq<Node>, q: nat, rest: seq<nat>)
    requires q < |nodes| && nodes[q].AliasNode?
    ensures Reaches(nodes, [q] + rest, 1, nodes, [nodes[q].target] + rest)
  {
    assert ([q] + rest)[0] == q && ([q] + rest)[1..] == rest;
  }

  lemma NodeRound(nodes: seq<Node>, n: nat, rest: seq<nat>)
    requires ContentInRange(nodes, n)
    ensures
      var r := Visit(nodes, n, ContentValues(nodes, n));
      if r.Some? then Reaches(nodes, [n] + rest, 1, r.value, rest + r.value[n].content)
      else Worklist(nodes, [n] + rest, 1) == Failed(FailureAt(nodes[n].tag))
  {
    hide Visit, ContentValues;
    assert ([n] + rest)[0] == n && ([n] + rest)[1..] == rest;
  }

  class Document {
    var nodes: seq<Node>

    constructor (nodes: seq<Node>)
      ensures this.nodes == nodes
    {
      this.nodes := nodes;
    }
  }

  method Follow(nodes: seq<Node>, h: nat, ghost u: seq<Y>, ghost rest: seq<nat>) returns (n: nat, ghost k: nat)
    requires Unfolds(nodes, u) && h < |nodes|
    ensures n < |nodes| && nodes[n].Node? && u[n].Y? && u[n].id == n
    ensures TargetId(u[h]) == n && Size(u[n]) <= Size(u[h]) && Desugar(u[n]) == Desugar(u[h])
    ensures Reaches(nodes, [h] + rest, k, nodes, [n] + rest)
  {
    n, k := h, 0;
    while nodes[n].AliasNode?
      invariant n < |nodes|
      invariant TargetId(u[h]) == TargetId(u[n]) && Size(u[n]) <= Size(u[h]) && Desugar(u[n]) == Desugar(u[h])
      invariant Reaches(nodes, [h] + rest, k, nodes, [n] + rest)
      decreases u[n]
    {
      assert Matches(nodes[n], u[n], n, u);
      AliasRound(nodes, n, rest);
      hide Reaches;
      ReachesThen(nodes, [h] + rest, k, nodes, [n] + rest, 1, nodes, [nodes[n].target] + rest);
      n, k := nodes[n].target, k + 1;
    }
    assert Matches(nodes[n], u[n], n, u);
  }

  lemma GraphInRange(nodes: seq<Node>, u: seq<Y>, n: nat)
    requires Unfolds(nodes, u) && n < |nodes| && nodes[n].Node?
    ensures ContentInRange(nodes, n)
  {
    assert Matches(nodes[n], u[n], n, u);
  }

  /** The transformers on one node. */
  method TransformNode(doc: Document, n: nat, ghost u: seq<Y>) returns (ok: bool, ghost u': seq<Y>)
    requires Unfolds(doc.nodes, u) && ContentInRange(doc.nodes, n) && u[n].Y? && u[n].id == n
    modifies doc
    ensures ok ==> Unfolds(doc.nodes, u') && |doc.nodes| == |u'| && Evolves(u, u') && Settles(old(doc.nodes), doc.nodes, n)
    ensures !ok ==> Desugar(u[n]).None? && doc.nodes == old(doc.nodes)
    ensures Visit(old(doc.nodes), n, ContentValues(old(doc.nodes), n)) == if ok then Some(doc.nodes) else None
  {
    u' := u;
    var nodes := doc.nodes;
    ValuesAreKeys(nodes, u, n);
    var rewrite := Template(nodes[n].kind, nodes[n].tag, nodes[n].value, ContentValues(nodes, n));
    SettledIsLeft(nodes[n].kind, nodes[n].tag, nodes[n].value, ContentValues(nodes, n));
    var result := Visit(nodes, n, ContentValues(nodes, n));
    if result.None? { return false, u; }
    hide Template;
    if rewrite.Become? {
      VisitSettles(nodes, n, rewrite.parts);
      ExpandedReplaces(u[n], rewrite.parts, |u|);
      VisitUnfolds(nodes, u, n, rewrite.parts);
      RewriteEvolves(nodes, u, n, rewrite.parts);
      u' := Rewritten(u, n, rewrite.parts);
    }
    assert |result.value| == |u'|;
    hide *;
    doc.nodes := result.value;
    ok := true;
  }

  lemma VisitSettles(nodes: seq<Node>, n: nat, parts: seq<Part>)
    requires n < |nodes| && nodes[n].Node? && !Settled(nodes[n].kind, nodes[n].tag)
    ensures Settles(nodes, Overwritten(nodes, n, parts), n)
  {
    hide NewContent, NewNodes;
  }

  predicate SameTargets(u0: seq<Y>, u: seq<Y>) {
    |u0| <= |u| && forall i :: 0 <= i < |u0| ==> TargetId(u[i]) == TargetId(u0[i])
  }

  lemma SameTargetsNext(u0: seq<Y>, u: seq<Y>, u': seq<Y>)
    requires SameTargets(u0, u) && Evolves(u, u')
    ensures SameTargets(u0, u')
  {
    hide Desugar, Size, TargetId;
  }

  /** The node that the method follows to is the one that the document's order means. */
  lemma FollowsHead(nodes0: seq<Node>, u0: seq<Y>, root: nat, nodes: seq<Node>, u: seq<Y>, queue: seq<nat>, visits: seq<Y>, n: nat)
    requires Tracks(nodes0, u0, root, nodes, queue, visits) && Unfolds(nodes, u) && SameTargets(u0, u) && queue != []
    requires queue[0] < |u| && TargetId(u[queue[0]]) == n
    ensures HeadNode(u0, queue) == n
  {
    if queue[0] >= |u0| {
      assert NewOk(u0, nodes, queue[0]);
      assert Matches(nodes[queue[0]], u[queue[0]], queue[0], u);
    }
  }

  /** What is known of the worklist at the head of its loop. */
  ghost predicate OnCourse(nodes0: seq<Node>, u0: seq<Y>, root: nat, nodes: seq<Node>, u: seq<Y>, queue: seq<nat>, visits: seq<Y>, fuel: nat) {
    && Tracks(nodes0, u0, root, nodes, queue, visits) && Unfolds(nodes, u) && SameTargets(u0, u)
    && Reaches(nodes0, [root], fuel, nodes, queue)
  }

  function NextVisits(u0: seq<Y>, queue: seq<nat>, visits: seq<Y>, n: nat): seq<Y>
    requires queue != []
  {
    if queue[0] < |u0| && n < |u0| then visits + [u0[n]] else visits
  }

  lemma OnCourseNext(nodes0: seq<Node>, u0: seq<Y>, root: nat, nodes: seq<Node>, u: seq<Y>, queue: seq<nat>, visits: seq<Y>, fuel: nat,
                     n: nat, k: nat, nodes': seq<Node>, u': seq<Y>)
    requires OnCourse(nodes0, u0, root, nodes, u, queue, visits, fuel) && queue != [] && queue[0] < |u| && TargetId(u[queue[0]]) == n
    requires Reaches(nodes, [queue[0]] + queue[1..], k, nodes, [n] + queue[1..]) && ContentInRange(nodes, n)
    requires Visit(nodes, n, ContentValues(nodes, n)) == Some(nodes') && Unfolds(nodes', u') && Evolves(u, u')
    ensures OnCourse(nodes0, u0, root, nodes', u', queue[1..] + nodes'[n].content, NextVisits(u0, queue, visits, n), fuel + k + 1)
  {
    hide Tracks, Unfolds, Evolves, SameTargets, TargetId, Reaches, Visit, ContentValues;
    FollowsHead(nodes0, u0, root, nodes, u, queue, visits, n);
    TracksNext(nodes0, u0, root, nodes, queue, visits, nodes');
    SameTargetsNext(u0, u, u');
    assert queue == [queue[0]] + queue[1..];
    NodeRound(nodes, n, queue[1..]);
    ReachesThen(nodes0, [root], fuel, nodes, queue, k, nodes, [n] + queue[1..]);
    ReachesThen(nodes0, [root], fuel + k, nodes, [n] + queue[1..], 1, nodes', queue[1..] + nodes'[n].content);
  }

  lemma OffCourse(nodes0: seq<Node>, u0: seq<Y>, root: nat, nodes: seq<Node>, u: seq<Y>, queue: seq<nat>, visits: seq<Y>, fuel: nat, n: nat, k: nat)
    requires OnCourse(nodes0, u0, root, nodes, u, queue, visits, fuel) && queue != [] && queue[0] < |u| && TargetId(u[queue[0]]) == n
    requires Reaches(nodes, [queue[0]] + queue[1..], k, nodes, [n] + queue[1..]) && ContentInRange(nodes, n)
    requires Visit(nodes, n, ContentValues(nodes, n)) == None
    ensures Desugar(u0[root]).None? || !KeysAreReadInTime(u0[root])
    ensures FateOf([One(u0[root])], []) == FailureAt(nodes[n].tag)
    ensures Worklist(nodes0, [root], fuel + k + 1) == Failed(FailureAt(nodes[n].tag))
  {
    hide Tracks, Unfolds, SameTargets, TargetId, Visit, ContentValues, Desugar, KeysAreReadInTime, Worklist, FateOf;
    FollowsHead(nodes0, u0, root, nodes, u, queue, visits, n);
    Refusal(nodes0, u0, root, nodes, queue, visits);
    assert queue == [queue[0]] + queue[1..];
    NodeRound(nodes, n, queue[1..]);
    ReachesThen(nodes0, [root], fuel, nodes, queue, k, nodes, [n] + queue[1..]);
  }

  /**
    The worklist. It ends on every acyclic graph, in as many rounds as `Worklist` takes. When it accepts, what
    it leaves is the recursive desugaring of what it was given, with no custom tag in it. It accepts exactly the
    documents that have a desugaring and whose order reads every key in time; and whether it refuses any other or
    crashes on it is the document's fate.
   */
  method ParseYAMLNode(doc: Document, root: nat, ghost u0: seq<Y>) returns (fate: Fate, ghost u: seq<Y>, ghost fuel: nat)
    requires Unfolds(doc.nodes, u0) && root < |u0|
    modifies doc
    ensures fate == Accept ==> Unfolds(doc.nodes, u) && |u0| <= |u| && AllSettled(u[root]) && Clean(PlainOf(u[root]))
    ensures fate == Accept ==> Desugar(u0[root]) == Some(PlainOf(u[root]))
    ensures fate == Accept <==> Desugar(u0[root]).Some? && KeysAreReadInTime(u0[root])
    ensures fate == FateOf([One(u0[root])], [])
    ensures Worklist(old(doc.nodes), [root], fuel) == if fate == Accept then Accepted(doc.nodes) else Failed(fate)
  {
    hide Desugar, Size, TargetId, Unfolds, Template, Reached, Covered, OnCourse, Visit, ContentValues, Worklist, KeysAreReadInTime, Reaches, FateOf;
    hide AllSettled, PlainOf, Clean;
    ghost var nodes0 := doc.nodes;
    u, fuel := u0, 0;
    var queue := [root];
    ghost var visited: set<nat>, visits: seq<Y> := {}, [];
    CourseStarts(nodes0, u0, root);
    while queue != []
      invariant Unfolds(doc.nodes, u) && |u0| <= |u| == |doc.nodes| && InRange(queue, |u|)
      invariant Desugar(u[root]).Some? ==> Desugar(u[root]) == Desugar(u0[root])
      invariant OnCourse(nodes0, u0, root, doc.nodes, u, queue, visits, fuel)
      invariant Reached(doc.nodes, u, queue, visited) && Covered(u, queue, visited, root)
      decreases Total(Sizes(u, queue))
    {
      ghost var k;
      var n;
      n, k := Follow(doc.nodes, queue[0], u, queue[1..]);
      ghost var nodes := doc.nodes;
      ghost var u';
      GraphInRange(nodes, u, n);
      var ok;
      ok, u' := TransformNode(doc, n, u);
      if !ok {
        OffCourse(nodes0, u0, root, nodes, u, queue, visits, fuel, n, k);
        return FailureAt(doc.nodes[n].tag), u, fuel + k + 1;
      }
      ReachedNext(nodes, u, doc.nodes, u', queue, visited, n);
      CoveredNext(u, u', queue, doc.nodes[n].content, visited, n, root);
      QueueShrinks(doc.nodes, u, u', queue, n);
      OnCourseNext(nodes0, u0, root, nodes, u, queue, visits, fuel, n, k, doc.nodes, u');
      fuel, visits := fuel + k + 1, NextVisits(u0, queue, visits, n);
      queue := queue[1..] + doc.nodes[n].content;
      u, visited := u', visited + {n};
    }
    AllReached(doc.nodes, u, visited, root);
    SettledDesugars(u[root]);
    SettledIsClean(u[root]);
    CourseEnds(nodes0, u0, root, doc.nodes, u, visits, fuel);
    fate := Accept;
  }

  lemma AllReached(nodes: seq<Node>, u: seq<Y>, visited: set<nat>, root: nat)
    requires Unfolds(nodes, u) && Reached(nodes, u, [], visited) && Covered(u, [], visited, root)
    ensures AllSettled(u[root])
  {
    hide Unfolds, Reached;
    ReachedIsSettled(nodes, u, visited, root);
  }

  lemma CourseStarts(nodes: seq<Node>, u0: seq<Y>, root: nat)
    requires Unfolds(nodes, u0) && root < |u0|
    ensures OnCourse(nodes, u0, root, nodes, u0, [root], [], 0)
    ensures |nodes| == |u0| && InRange([root], |u0|) && Reached(nodes, u0, [root], {}) && Covered(u0, [root], {}, root)
  {
    assert |nodes| == |u0| && root in [root];
    hide Tracks, Unfolds;
    TracksStart(nodes, u0, root);
  }

  lemma CourseEnds(nodes0: seq<Node>, u0: seq<Y>, root: nat, nodes: seq<Node>, u: seq<Y>, visits: seq<Y>, fuel: nat)
    requires OnCourse(nodes0, u0, root, nodes, u, [], visits, fuel)
    ensures root < |u0| && KeysAreReadInTime(u0[root]) && FateOf([One(u0[root])], []) == Accept
    ensures Worklist(nodes0, [root], fuel) == Accepted(nodes)
  {
    TracksParts(nodes0, u0, root, nodes, [], visits);
    hide Tracks, Unfolds, SameTargets, KeysAreReadInTime, FateOf;
    TracksEnd(nodes0, u0, root, nodes, visits);
    assert Worklist(nodes, [], 0) == Accepted(nodes);
    assert Worklist(nodes0, [root], fuel + 0) == Worklist(nodes, [], 0);
  }
}
