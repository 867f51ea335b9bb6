/**
 * Two merges that share their first argument. The first one leaves its result in the maps of that argument, so a
 * resolver that hands out one map twice makes the second merge depend on the first.
 */
module SharedMerge {
  import opened Trees
  import opened Merging
  import opened InPlaceMerge

  /** What an argument holds once another was merged over it. */
  function Overlaid(p: map<string, Tree>, q: map<string, Tree>): map<string, Tree> {
    map k | k in p :: if p[k].Obj? && k in q && q[k].Obj? then Obj(Merged(p[k].fields, q[k].fields, true)) else p[k]
  }

  /** The first argument afterwards: under shared keys it has the maps of the result. */
  ghost function Afterwards(lp: Located, lq: Located, l: Located): Located
    requires lp.In? && lq.In? && l.In? && lp.kids.Keys <= l.kids.Keys
  {
    In(lp.dict, map k | k in lp.kids :: if Both(lp, lq, true, k) then l.kids[k] else lp.kids[k])
  }

  lemma TwoApart(lp: Located, lq: Located, k: string, k': string)
    requires lp.In? && lq.In? && Apart([lp, lq]) && k != k'
    ensures NestedAt([lp, lq], 2, k) !! NestedAt([lp, lq], 2, k') && lp.dict !in NestedAt([lp, lq], 2, k)
    ensures NestedAt([lp, lq], 2, k) <= Nested([lp, lq], 2)
  {
    var ls := [lp, lq];
    assert ls[0] == lp && ls[1] == lq;
    forall d | d in NestedAt(ls, 2, k) ensures d !in NestedAt(ls, 2, k') && d != lp.dict && d in Nested(ls, 2) {
      var j := NestedOwner(ls, 2, k, d);
      KidDicts(ls[j], k);
      if d in NestedAt(ls, 2, k') {
        var j' := NestedOwner(ls, 2, k', d);
        OneOwner(ls, j, k, j', k', d);
      }
      assert Unshared(ls[j]);
    }
  }

  /** Where the first argument's maps are afterwards, and that none of them is reached twice. */
  lemma AfterwardsUnshared(lp: Located, lq: Located, l: Located)
    requires lp.In? && lq.In? && Apart([lp, lq]) && Unshared(lp) && Unshared(l) && Places([lp, lq], true, 2, l) && lp.kids.Keys <= l.kids.Keys
    ensures Unshared(Afterwards(lp, lq, l)) && Dicts(Afterwards(lp, lq, l)) <= {lp.dict} + Nested([lp, lq], 2)
  {
    var ls, w := [lp, lq], Afterwards(lp, lq, l);
    assert ls[0] == lp && ls[1] == lq;
    forall k | k in w.kids ensures Dicts(w.kids[k]) <= NestedAt(ls, 2, k) && Unshared(w.kids[k]) && NestedAt(ls, 2, k) <= Nested(ls, 2)
    {
      TwoApart(lp, lq, k, k + "x");
      assert Dicts(lp.kids[k]) == DictsAt(ls[0], k);
    }
    forall k, k' | k in w.kids && k' in w.kids && k != k'
      ensures Dicts(w.kids[k]) !! Dicts(w.kids[k']) && lp.dict !in Dicts(w.kids[k])
    {
      TwoApart(lp, lq, k, k');
    }
    forall k | k in w.kids ensures lp.dict !in Dicts(w.kids[k]) { TwoApart(lp, lq, k, k + "x"); }
  }

  /** The heap holds it: the argument's own map was not written, and its other entries were spared. */
  lemma AfterwardsHolds(lp: Located, lq: Located, l: Located)
    requires lp.In? && lq.In? && l.In? && lp.kids.Keys <= l.kids.Keys && Holds(l)
    requires lp.dict.fields.Keys == lp.kids.Keys && forall k :: k in lp.kids ==> lp.dict.fields[k] == ValOf(lp.kids[k])
    requires forall k :: k in lp.kids && Both(lp, lq, true, k) ==> l.kids[k].In? && l.kids[k].dict == lp.kids[k].dict
    requires forall k :: k in lp.kids && !Both(lp, lq, true, k) ==> Holds(lp.kids[k])
    ensures Holds(Afterwards(lp, lq, l))
  {
    forall k | k in lp.kids && Both(lp, lq, true, k) { KidHolds(l, k); }
  }

  lemma AfterwardsIsOverlaid(lp: Located, lq: Located, l: Located)
    requires lp.In? && lq.In? && l.In? && Unshared(lp) && Unshared(lq)
    requires Erase(l) == Obj(MergeAll([Erase(lp).fields, Erase(lq).fields], true))
    ensures lp.kids.Keys <= l.kids.Keys
    ensures Erase(Afterwards(lp, lq, l)) == Obj(Overlaid(Erase(lp).fields, Erase(lq).fields))
  {
    var p, q := Erase(lp).fields, Erase(lq).fields;
    TwoMerged(p, q);
    ErasedKids(lp);
    ErasedKids(l);
    hide Erase, MergeAll, Unshared, Merged;
    var w := Afterwards(lp, lq, l);
    ErasedKids(w);
    forall k | k in lp.kids ensures Erase(w.kids[k]) == Overlaid(p, q)[k] {
      MergedAt(p, q, true, k);
      KindAt(lp, k);
      if k in lq.kids { KindAt(lq, k); } else { NoKind(lq, k); }
    }
    assert Erase(w).fields == Overlaid(p, q);
  }

  lemma ErasedKids(l: Located)
    requires l.In?
    ensures Erase(l).Obj? && Erase(l).fields.Keys == l.kids.Keys && forall k :: k in l.kids ==> Erase(l).fields[k] == Erase(l.kids[k])
  {
  }

  lemma NoKind(l: Located, k: string)
    requires l.In? && k !in l.kids
    ensures k !in Erase(l).fields
  {
  }

  lemma KindAt(l: Located, k: string)
    requires l.In? && Unshared(l) && k in l.kids
    ensures Erase(l).fields[k] == Erase(l.kids[k]) && (Erase(l.kids[k]).Obj? <==> l.kids[k].In?)
  {
    assert Unshared(l.kids[k]);
  }

  lemma TwoMerged(p: map<string, Tree>, q: map<string, Tree>)
    ensures MergeAll([p, q], true) == Merged(p, q, true)
  {
    assert [p, q][..1] == [p] && [p][..0] == [];
    MergedWithEmpty(p, true);
    assert MergeAll([p], true) == p;
  }

  lemma TwoValues(l: Located, l': Located)
    requires l.In? && l'.In?
    ensures Values([l, l'], 2) == [Erase(l).fields, Erase(l').fields]
  {
    hide Erase;
  }

  /** What the first merge says of its first argument, key by key. */
  lemma FirstArgument(lp: Located, lq: Located, l: Located)
    requires lp.In? && lq.In? && AllIn([lp, lq]) && Places([lp, lq], true, 2, l) && Kept([lp, lq], true, 2)
    ensures forall k :: k in lp.kids && Both(lp, lq, true, k) ==> k in l.kids && l.kids[k].In? && l.kids[k].dict == lp.kids[k].dict
    ensures forall k :: k in lp.kids && !Both(lp, lq, true, k) ==> Holds(lp.kids[k])
  {
    hide Holds, Dicts;
    var ls := [lp, lq];
    assert ls[0] == lp && ls[1] == lq;
    forall k | k in lp.kids && Both(lp, lq, true, k) ensures LeadsAt(ls, true, k, 2) {}
    forall k | k in lp.kids && !Both(lp, lq, true, k) ensures Holds(lp.kids[k]) {
      assert Spared(ls, true, 0, k, 2);
      assert Holds(ls[0].kids[k]);
    }
  }

  lemma RootEntries(l: Located)
    requires Good(l)
    ensures l.dict.fields.Keys == l.kids.Keys && forall k :: k in l.kids ==> l.dict.fields[k] == ValOf(l.kids[k])
  {
  }

  lemma RootNotNested(lp: Located, lq: Located)
    requires lp.In? && lq.In? && Apart([lp, lq])
    ensures lp.dict !in Nested([lp, lq], 2) && Nested([lp, lq], 2) <= Dicts(lp) + Dicts(lq)
    ensures lp.dict in Dicts(lp)
  {
    var ls := [lp, lq];
    assert ls[0] == lp && ls[1] == lq;
    RootDict(lp);
    hide Dicts, Unshared;
  }

  /** Merging `[p, q]` and then `[p, r]`: the second result is the merge of what the first left in `p`. */
  method MergeTwice(p: Dict, q: Dict, r: Dict, ghost lp: Located, ghost lq: Located, ghost lr: Located) returns (b: Dict, ghost lb: Located)
    requires Arguments([p, q], [lp, lq]) && lp.In? && lq.In? && Good(lr) && lr.dict == r && Dicts(lr) !! Dicts(lp) + Dicts(lq)
    modifies Nested([lp, lq], 2) + (Dicts(lr) - {r})
    ensures Good(lb) && lb.dict == b
    ensures Erase(lb) == Obj(MergeAll([Overlaid(Erase(lp).fields, Erase(lq).fields), Erase(lr).fields], true))
  {
    hide Holds, Unshared, Erase, Places, Kept, Apart, Overlaid, MergeAll, Values, Nested, Afterwards, Dicts;
    var objs := [p, q];
    ghost var ls := [lp, lq];
    assert ls[0] == lp && ls[1] == lq && objs[0] == p && objs[1] == q;
    ArgumentsApart(objs, ls);
    RootEntries(lp);
    RootNotNested(lp, lq);
    Live(lr);
    Live(lp);
    var a;
    ghost var la;
    a, la := MergeObjects(objs, true, ls);
    TwoValues(lp, lq);
    FirstArgument(lp, lq, la);
    AfterwardsIsOverlaid(lp, lq, la);
    AfterwardsUnshared(lp, lq, la);
    AfterwardsHolds(lp, lq, la);
    ghost var w := Afterwards(lp, lq, la);
    AfterwardsRoot(lp, lq, la);
    assert Good(w) && Good(lr);
    NewArguments(lp, lq, w, lr);
    TwoValues(w, lr);
    b, lb := MergeObjects([p, r], true, [w, lr]);
  }

  lemma AfterwardsRoot(lp: Located, lq: Located, l: Located)
    requires lp.In? && lq.In? && l.In? && lp.kids.Keys <= l.kids.Keys
    ensures Afterwards(lp, lq, l).In? && Afterwards(lp, lq, l).dict == lp.dict
  {
  }

  lemma NewArguments(lp: Located, lq: Located, w: Located, lr: Located)
    requires lp.In? && lq.In? && w.In? && lr.In? && Apart([lp, lq]) && Good(w) && Good(lr) && w.dict == lp.dict && Dicts(w) <= {lp.dict} + Nested([lp, lq], 2)
    requires Dicts(lr) !! Dicts(lp) + Dicts(lq)
    ensures Arguments([w.dict, lr.dict], [w, lr]) && Nested([w, lr], 2) <= Nested([lp, lq], 2) + (Dicts(lr) - {lr.dict})
  {
    RootNotNested(lp, lq);
    RootDict(lr);
    hide Holds, Unshared, Apart, Nested, Dicts, Good, Arguments;
    NestedOfTwo(w, lr);
    TwoArguments(w, lr);
  }

  lemma TwoArguments(l: Located, l': Located)
    requires Good(l) && Good(l') && Dicts(l) !! Dicts(l')
    ensures Arguments([l.dict, l'.dict], [l, l'])
  {
    hide Holds, Unshared, Dicts;
    var ls := [l, l'];
    assert ls[0] == l && ls[1] == l';
  }

  lemma NestedOfTwo(l: Located, l': Located)
    requires l.In? && l'.In?
    ensures Nested([l, l'], 2) == (Dicts(l) - {l.dict}) + (Dicts(l') - {l'.dict})
  {
    hide Dicts;
    var ls := [l, l'];
    assert ls[0] == l && ls[1] == l';
    forall d ensures d in Nested(ls, 2) <==> d in (Dicts(l) - {l.dict}) + (Dicts(l') - {l'.dict}) {
      if d in Dicts(l) && d != l.dict { assert d in Dicts(ls[0]) && d != ls[0].dict; }
      if d in Dicts(l') && d != l'.dict { assert d in Dicts(ls[1]) && d != ls[1].dict; }
    }
  }

  lemma OneArgument(p: map<string, Tree>)
    ensures MergeAll([p, map[]], true) == p
  {
    TwoMerged(p, map[]);
    assert Merged(p, map[], true) == p;
  }

  /** The second merge is right, whatever it merges, exactly if the first left its first argument as it was. */
  lemma SecondIsRightIff(p: map<string, Tree>, q: map<string, Tree>)
    ensures (forall r :: MergeAll([Overlaid(p, q), r], true) == MergeAll([p, r], true)) <==> Overlaid(p, q) == p
  {
    hide MergeAll, Overlaid;
    if forall r :: MergeAll([Overlaid(p, q), r], true) == MergeAll([p, r], true) {
      OneArgument(p);
      OneArgument(Overlaid(p, q));
      assert MergeAll([Overlaid(p, q), map[]], true) == MergeAll([p, map[]], true);
    }
  }

  const ONE: map<string, Tree> := map["a" := Obj(map["k" := Num(1, 0)])]
  const TWO: map<string, Tree> := map["a" := Obj(map["k" := Num(2, 0)])]

  /** With `{a: {k: 1}}` and `{a: {k: 2}}` it does not. */
  lemma SecondCanBeWrong()
    ensures Overlaid(ONE, TWO) == TWO != ONE
  {
    var x, y := map["k" := Num(1, 0)], map["k" := Num(2, 0)];
    assert Merged(x, y, true) == y;
    assert Overlaid(ONE, TWO)["a"] == Obj(y);
    assert ONE["a"] == Obj(x) && x["k"] != y["k"];
    assert Overlaid(ONE, TWO) == TWO;
    assert ONE["a"] != TWO["a"];
  }
}
