/** `merge` as it runs: Go maps are references, and nested maps of the arguments are stored and then written to. */
module InPlaceMerge {
  import opened Trees
  import opened Merging

  /** A Go map; a value is another map, or anything else. */
  class Dict {
    var fields: map<string, Val>

    constructor ()
      ensures fields == map[]
    {
      fields := map[];
    }
  }

  datatype Val = Leaf(tree: Tree) | Ref(dict: Dict)

  /** A tree of maps together with where each map lives. */
  datatype Located = At(leaf: Tree) | In(dict: Dict, kids: map<string, Located>)

  ghost function Dicts(l: Located): set<Dict> {
    match l
    case At(_) => {}
    case In(d, kids) => {d} + set k, x | k in kids && x in Dicts(kids[k]) :: x
  }

  ghost function ValOf(l: Located): Val {
    match l
    case At(t) => Leaf(t)
    case In(d, _) => Ref(d)
  }

  /** The heap holds this tree. */
  ghost predicate Holds(l: Located)
    reads Dicts(l)
  {
    match l
    case At(_) => true
    case In(d, kids) =>
      && d.fields.Keys == kids.Keys
      && forall k :: k in kids ==> d.fields[k] == ValOf(kids[k]) && Holds(kids[k])
  }

  /** No map is reached twice, and every map is a node. */
  ghost predicate Unshared(l: Located) {
    match l
    case At(t) => !t.Obj?
    case In(d, kids) =>
      && (forall k :: k in kids ==> d !in Dicts(kids[k]) && Unshared(kids[k]))
      && (forall k, k' :: k in kids && k' in kids && k != k' ==> Dicts(kids[k]) !! Dicts(kids[k']))
  }

  ghost function Erase(l: Located): Tree {
    match l
    case At(t) => t
    case In(_, kids) => Obj(map k | k in kids :: Erase(kids[k]))
  }

  ghost predicate Good(l: Located)
    reads Dicts(l)
  {
    l.In? && Holds(l) && Unshared(l)
  }

  lemma KidDicts(l: Located, k: string)
    requires l.In? && k in l.kids
    ensures Dicts(l.kids[k]) <= Dicts(l) && l.dict in Dicts(l)
  {
  }

  ghost function DictsAt(l: Located, k: string): set<Dict>
    requires l.In?
  {
    if k in l.kids then Dicts(l.kids[k]) else {}
  }

  /** Under `k` the merge goes on into the map that is there. */
  ghost predicate Both(ld: Located, ls: Located, deep: bool, k: string)
    requires ld.In? && ls.In?
  {
    deep && k in ld.kids && ld.kids[k].In? && k in ls.kids && ls.kids[k].In?
  }

  /** What stands under `k` afterwards: the same map as before, or what the source has there, by reference. */
  ghost predicate Sharing(ld: Located, ls: Located, deep: bool, k: string, l: Located)
    requires ld.In? && ls.In? && k in ls.kids
  {
    if Both(ld, ls, deep, k) then l.In? && l.dict == ld.kids[k].dict else l == ls.kids[k]
  }

  ghost function WrittenAt(ld: Located, ls: Located, deep: bool, k: string): set<Dict>
    requires ld.In? && ls.In?
  {
    if Both(ld, ls, deep, k) then Dicts(ld.kids[k]) else {}
  }

  /** All that a merge writes: the map merged into, and the maps in it under keys where the source has one too. */
  ghost function Written(ld: Located, ls: Located, deep: bool): set<Dict>
    requires ld.In? && ls.In?
  {
    {ld.dict} + set k, d | k in ld.kids && d in WrittenAt(ld, ls, deep, k) :: d
  }

  lemma WrittenInside(ld: Located, ls: Located, deep: bool)
    requires ld.In? && ls.In?
    ensures Written(ld, ls, deep) <= Dicts(ld)
    ensures forall k :: k in ls.kids ==> {ld.dict} + WrittenAt(ld, ls, deep, k) <= Written(ld, ls, deep)
  {
    forall k | k in ld.kids { KidDicts(ld, k); }
  }

  /** The loop has merged the keys in `done` from `ls` into `ld`, giving `r`. */
  ghost predicate Partial(ld: Located, ls: Located, deep: bool, done: set<string>, r: Located) {
    && ld.In? && ls.In? && r.In? && r.dict == ld.dict && done <= ls.kids.Keys
    && r.kids.Keys == ld.kids.Keys + done
    && (forall k :: k in r.kids && k !in done ==> r.kids[k] == ld.kids[k])
    && (forall k :: k in done ==>
          && Dicts(r.kids[k]) <= DictsAt(ld, k) + DictsAt(ls, k)
          && Unshared(r.kids[k]) && Sharing(ld, ls, deep, k, r.kids[k])
          && Erase(r.kids[k]) == Merged(Erase(ld).fields, Erase(ls).fields, deep)[k])
  }

  lemma PartialUnshared(ld: Located, ls: Located, deep: bool, done: set<string>, r: Located)
    requires Partial(ld, ls, deep, done, r) && Unshared(ld) && Unshared(ls) && Dicts(ld) !! Dicts(ls)
    ensures Unshared(r) && Dicts(r) <= Dicts(ld) + (Dicts(ls) - {ls.dict})
  {
    forall k | k in r.kids
      ensures Dicts(r.kids[k]) <= DictsAt(ld, k) + DictsAt(ls, k) && r.dict !in Dicts(r.kids[k])
      ensures DictsAt(ld, k) <= Dicts(ld) && DictsAt(ls, k) <= Dicts(ls) - {ls.dict}
    {
      if k in ld.kids { KidDicts(ld, k); }
      if k in ls.kids { KidDicts(ls, k); }
    }
    forall k, k' | k in r.kids && k' in r.kids && k != k' ensures Dicts(r.kids[k]) !! Dicts(r.kids[k']) {
      assert DictsAt(ld, k) !! DictsAt(ld, k') && DictsAt(ls, k) !! DictsAt(ls, k');
      assert DictsAt(ld, k) !! DictsAt(ls, k') && DictsAt(ls, k) !! DictsAt(ld, k');
    }
  }

  lemma PartialDone(ld: Located, ls: Located, deep: bool, done: set<string>, r: Located)
    requires Partial(ld, ls, deep, done, r) && done == ls.kids.Keys
    ensures Erase(r) == Obj(Merged(Erase(ld).fields, Erase(ls).fields, deep))
  {
    hide Dicts, Unshared;
    var m := Merged(Erase(ld).fields, Erase(ls).fields, deep);
    forall k | k in r.kids ensures Erase(r.kids[k]) == m[k] {
      if k !in done { MergedAt(Erase(ld).fields, Erase(ls).fields, deep, k); }
    }
    hide Merged;
    assert Erase(r).fields.Keys == m.Keys;
    assert Erase(r).fields == m;
  }

  lemma PartialNext(ld: Located, ls: Located, deep: bool, done: set<string>, r: Located, k: string, l: Located)
    requires Partial(ld, ls, deep, done, r) && k in ls.kids
    requires Dicts(l) <= DictsAt(ld, k) + DictsAt(ls, k) && Unshared(l) && Sharing(ld, ls, deep, k, l)
    requires Erase(l) == Merged(Erase(ld).fields, Erase(ls).fields, deep)[k]
    ensures Partial(ld, ls, deep, done + {k}, In(r.dict, r.kids[k := l]))
  {
    hide Dicts, DictsAt, Unshared, Erase, Merged, Sharing;
  }

  /** What a key holds after the merge, in terms of the two subtrees. */
  lemma MergedKid(ld: Located, ls: Located, deep: bool, k: string)
    requires ld.In? && ls.In? && k in ls.kids && Unshared(ld) && Unshared(ls)
    ensures Merged(Erase(ld).fields, Erase(ls).fields, deep)[k] ==
      if deep && k in ld.kids && ld.kids[k].In? && ls.kids[k].In?
      then Obj(Merged(Erase(ld.kids[k]).fields, Erase(ls.kids[k]).fields, true))
      else Erase(ls.kids[k])
  {
    assert Unshared(ls.kids[k]) && (k in ld.kids ==> Unshared(ld.kids[k]));
    MergedAt(Erase(ld).fields, Erase(ls).fields, deep, k);
    hide Merged;
  }

  /** Everything a located tree mentions exists. */
  lemma {:induction false} Live(l: Located)
    ensures forall d :: d in Dicts(l) ==> allocated(d)
  {
    if l.In? {
      forall k | k in l.kids { Live(l.kids[k]); }
    }
  }

  /** Putting `l` under `k` in a map whose other entries hold. */
  lemma HoldsWith(r: Located, k: string, l: Located)
    requires r.In? && r.dict.fields.Keys == r.kids.Keys + {k} && r.dict.fields[k] == ValOf(l) && Holds(l)
    requires forall k' :: k' in r.kids && k' != k ==> r.dict.fields[k'] == ValOf(r.kids[k']) && Holds(r.kids[k'])
    ensures Holds(In(r.dict, r.kids[k := l]))
  {
  }

  method Merge(dst: Dict, src: Dict, deep: bool, ghost ld: Located, ghost ls: Located) returns (ghost r: Located)
    requires Good(ld) && ld.dict == dst && Good(ls) && ls.dict == src && Dicts(ld) !! Dicts(ls)
    modifies Written(ld, ls, deep)
    ensures Good(r) && r.dict == dst && Dicts(r) <= Dicts(ld) + (Dicts(ls) - {src})
    ensures Good(ls) && Partial(ld, ls, deep, ls.kids.Keys, r)
    ensures Erase(r) == Obj(Merged(Erase(ld).fields, Erase(ls).fields, deep))
    decreases ls, 1
  {
    r := ld;
    WrittenInside(ld, ls, deep);
    hide Written;
    var todo := src.fields.Keys;
    ghost var done: set<string> := {};
    assert Partial(ld, ls, deep, done, r);
    while todo != {}
      invariant todo <= ls.kids.Keys && done == ls.kids.Keys - todo
      invariant Partial(ld, ls, deep, done, r) && Holds(r) && Holds(ls)
      decreases todo
    {
      var k :| k in todo;
      r := MergeKey(dst, src, deep, k, ld, ls, done, r);
      todo, done := todo - {k}, done + {k};
    }
    assert done == ls.kids.Keys;
    PartialUnshared(ld, ls, deep, done, r);
    PartialDone(ld, ls, deep, done, r);
  }

  method MergeKey(dst: Dict, src: Dict, deep: bool, k: string, ghost ld: Located, ghost ls: Located, ghost done: set<string>,
                  ghost r: Located) returns (ghost r': Located)
    requires Partial(ld, ls, deep, done, r) && Holds(r) && Holds(ls) && Unshared(ld) && Unshared(ls) && Dicts(ld) !! Dicts(ls)
    requires ld.dict == dst && ls.dict == src && k in ls.kids && k !in done
    modifies {dst} + WrittenAt(ld, ls, deep, k)
    ensures Partial(ld, ls, deep, done + {k}, r') && Holds(r') && Holds(ls)
    decreases ls, 0
  {
    PartialUnshared(ld, ls, deep, done, r);
    MergedKid(ld, ls, deep, k);
    KidFacts(r, ls, k);
    if k in ld.kids { KidDicts(ld, k); }
    RootDict(ld);
    var v := src.fields[k];
    hide Merged, Erase, Dicts, Unshared, Holds;
    if deep && k in dst.fields && dst.fields[k].Ref? && v.Ref? {
      r' := MergeInto(dst, dst.fields[k].dict, v.dict, k, r, ls);
    } else {
      r' := Store(dst, v, k, r, ls);
    }
    PartialNext(ld, ls, deep, done, r, k, r'.kids[k]);
  }

  lemma RootDict(l: Located)
    requires l.In?
    ensures l.dict in Dicts(l)
  {
  }

  lemma KidFacts(r: Located, ls: Located, k: string)
    requires Good(r) && Good(ls) && k in ls.kids
    ensures r.dict.fields.Keys == r.kids.Keys && (k in r.kids ==> r.dict.fields[k] == ValOf(r.kids[k]))
    ensures ls.dict.fields.Keys == ls.kids.Keys && ls.dict.fields[k] == ValOf(ls.kids[k])
    ensures Unshared(ls.kids[k])
  {
  }

  /** The other case: the value is stored as it is, by reference if it is a map. */
  method Store(dst: Dict, v: Val, k: string, ghost r: Located, ghost ls: Located) returns (ghost r': Located)
    requires Good(r) && Good(ls) && r.dict == dst && k in ls.kids && ValOf(ls.kids[k]) == v && dst !in Dicts(ls)
    modifies dst
    ensures r' == In(dst, r.kids[k := ls.kids[k]]) && Holds(r') && Holds(ls)
  {
    KidDicts(ls, k);
    Live(ls);
    forall k' | k' in r.kids { Live(r.kids[k']); }
    assert forall k' :: k' in r.kids ==> Holds(r.kids[k']) && dst !in Dicts(r.kids[k']);
    dst.fields := dst.fields[k := v];
    r' := In(dst, r.kids[k := ls.kids[k]]);
    assert forall k' :: k' in r.kids ==> Holds(r.kids[k']);
    HoldsWith(r, k, ls.kids[k]);
  }

  /** The recursive case: only maps below `k` change. */
  method MergeInto(dst: Dict, dm: Dict, sm: Dict, k: string, ghost r: Located, ghost ls: Located) returns (ghost r': Located)
    requires Good(r) && Good(ls) && r.dict == dst && k in r.kids && k in ls.kids && Dicts(r.kids[k]) !! Dicts(ls)
    requires ValOf(r.kids[k]) == Ref(dm) && ValOf(ls.kids[k]) == Ref(sm)
    modifies Dicts(r.kids[k])
    ensures r'.In? && k in r'.kids && r' == In(dst, r.kids[k := r'.kids[k]]) && Holds(r') && Holds(ls)
    ensures r'.kids[k].In? && r'.kids[k].dict == dm
    ensures Unshared(r'.kids[k]) && Dicts(r'.kids[k]) <= Dicts(r.kids[k]) + Dicts(ls.kids[k])
    ensures Erase(r'.kids[k]) == Obj(Merged(Erase(r.kids[k]).fields, Erase(ls.kids[k]).fields, true))
    decreases ls.kids[k], 2
  {
    hide Merged, Erase;
    KidDicts(ls, k);
    Live(ls);
    forall k' | k' in r.kids { Live(r.kids[k']); }
    assert forall k' :: k' in r.kids && k' != k ==> Holds(r.kids[k']) && Dicts(r.kids[k']) !! Dicts(r.kids[k]);
    WrittenInside(r.kids[k], ls.kids[k], true);
    hide Written;
    ghost var rk := Merge(dm, sm, true, r.kids[k], ls.kids[k]);
    r' := In(dst, r.kids[k := rk]);
    assert forall k' :: k' in r.kids && k' != k ==> Holds(r.kids[k']);
    HoldsWith(r, k, rk);
  }

  /** The maps below the roots of the first `n` arguments: all that a merge of the list may write. */
  ghost function Nested(ls: seq<Located>, n: nat): set<Dict>
    requires n <= |ls| && forall i :: 0 <= i < |ls| ==> ls[i].In?
  {
    set i, d | 0 <= i < n && d in Dicts(ls[i]) && d != ls[i].dict :: d
  }

  /** No nested map of an argument is reached from another one; a map without nested maps may be passed again. */
  ghost predicate Arguments(objs: seq<Dict>, ls: seq<Located>)
    reads set i, d | 0 <= i < |ls| && d in Dicts(ls[i]) :: d
  {
    && |ls| == |objs|
    && (forall i :: 0 <= i < |ls| ==> Good(ls[i]) && ls[i].dict == objs[i])
    && (forall i, j :: 0 <= i < |ls| && 0 <= j < |ls| && i != j ==> (Dicts(ls[i]) - {ls[i].dict}) !! Dicts(ls[j]))
  }

  ghost function Values(ls: seq<Located>, n: nat): seq<map<string, Tree>>
    requires n <= |ls| && forall i :: 0 <= i < |ls| ==> ls[i].In?
  {
    seq(n, i requires 0 <= i < n => Erase(ls[i]).fields)
  }

  ghost predicate AllIn(ls: seq<Located>) { forall i :: 0 <= i < |ls| ==> ls[i].In? }

  /** Arguments `i` and `j` both have a map under `k`, so a deep merge goes into the first one's. */
  ghost predicate Clash(ls: seq<Located>, deep: bool, i: nat, j: nat, k: string)
    requires AllIn(ls) && i < |ls| && j < |ls|
  {
    deep && k in ls[i].kids && ls[i].kids[k].In? && k in ls[j].kids && ls[j].kids[k].In?
  }

  /** Nothing that is merged after argument `i`, up to `n`, has a map under `k` where that argument has one. */
  ghost predicate Spared(ls: seq<Located>, deep: bool, i: nat, k: string, n: nat)
    requires AllIn(ls) && i < |ls| && n <= |ls|
  {
    forall j :: i < j < n ==> !Clash(ls, deep, i, j, k)
  }

  /** The first argument has a map under `k`, and no other of the first `n` has anything else there. */
  ghost predicate LeadsAt(ls: seq<Located>, deep: bool, k: string, n: nat)
    requires AllIn(ls) && n <= |ls|
  {
    deep && 0 < n && k in ls[0].kids && forall j :: 0 <= j < n && k in ls[j].kids ==> ls[j].kids[k].In?
  }

  /** The maps of the first `n` arguments under `k`. */
  ghost function NestedAt(ls: seq<Located>, n: nat, k: string): set<Dict>
    requires AllIn(ls) && n <= |ls|
  {
    set j, d | 0 <= j < n && d in DictsAt(ls[j], k) :: d
  }

  ghost predicate Apart(ls: seq<Located>) {
    && AllIn(ls)
    && (forall i :: 0 <= i < |ls| ==> Unshared(ls[i]))
    && (forall i, j :: 0 <= i < |ls| && 0 <= j < |ls| && i != j ==> (Dicts(ls[i]) - {ls[i].dict}) !! Dicts(ls[j]))
  }

  /** Where the maps of the result come from. */
  ghost predicate Places(ls: seq<Located>, deep: bool, n: nat, lr: Located)
    requires AllIn(ls) && n <= |ls|
  {
    && lr.In? && Dicts(lr) <= {lr.dict} + Nested(ls, n)
    && (forall k :: k in lr.kids ==> Dicts(lr.kids[k]) <= NestedAt(ls, n, k))
    && (forall k :: LeadsAt(ls, deep, k, n) ==> k in lr.kids && lr.kids[k].In? && lr.kids[k].dict == ls[0].kids[k].dict)
    && (n == 0 ==> lr.kids == map[])
  }

  /** What the arguments that were merged still hold. */
  ghost predicate Kept(ls: seq<Located>, deep: bool, n: nat)
    requires AllIn(ls) && n <= |ls|
    reads set i, k, d | 0 <= i < |ls| && ls[i].In? && k in ls[i].kids && d in Dicts(ls[i].kids[k]) :: d
  {
    forall i, k :: 0 <= i < n && k in ls[i].kids && Spared(ls, deep, i, k, n) ==> Holds(ls[i].kids[k])
  }

  lemma NestedNext(ls: seq<Located>, i: nat, k: string)
    requires Apart(ls) && i < |ls|
    ensures NestedAt(ls, i, k) + DictsAt(ls[i], k) == NestedAt(ls, i + 1, k) && NestedAt(ls, i, k) <= Nested(ls, i)
    ensures Nested(ls, i) + (Dicts(ls[i]) - {ls[i].dict}) == Nested(ls, i + 1) && Nested(ls, i) <= Nested(ls, |ls|)
  {
    forall j | 0 <= j < |ls| && k in ls[j].kids { KidDicts(ls[j], k); }
    hide Dicts;
  }

  lemma PlacesNext(ls: seq<Located>, deep: bool, i: nat, lr: Located, lr': Located)
    requires Apart(ls) && i < |ls| && Places(ls, deep, i, lr) && Partial(lr, ls[i], deep, ls[i].kids.Keys, lr')
    requires Dicts(lr') <= Dicts(lr) + (Dicts(ls[i]) - {ls[i].dict})
    ensures Places(ls, deep, i + 1, lr')
  {
    hide Dicts, Erase, Merged, Unshared, Nested, NestedAt, DictsAt;
    NestedNext(ls, i, "");
    forall k | k in lr'.kids ensures Dicts(lr'.kids[k]) <= NestedAt(ls, i + 1, k) {
      NestedNext(ls, i, k);
      AtKey(lr, ls[i], deep, lr', k);
      if k in lr.kids { KidsAt(lr, k); } else { NoKidsAt(lr, k); }
    }
    forall k | LeadsAt(ls, deep, k, i + 1)
      ensures k in lr'.kids && lr'.kids[k].In? && lr'.kids[k].dict == ls[0].kids[k].dict
    {
      if i > 0 { assert LeadsAt(ls, deep, k, i); }
    }
  }

  lemma KidsAt(l: Located, k: string)
    requires l.In? && k in l.kids
    ensures DictsAt(l, k) == Dicts(l.kids[k])
  {
  }

  lemma NoKidsAt(l: Located, k: string)
    requires l.In? && k !in l.kids
    ensures DictsAt(l, k) == {}
  {
  }

  lemma AtKey(ld: Located, ls: Located, deep: bool, r: Located, k: string)
    requires ls.In? && Partial(ld, ls, deep, ls.kids.Keys, r) && k in r.kids
    ensures Dicts(r.kids[k]) <= DictsAt(ld, k) + DictsAt(ls, k)
  {
  }

  /** What a merge writes is none of what a spared subtree of an earlier argument holds. */
  lemma SparedIsApart(ls: seq<Located>, deep: bool, i: nat, lr: Located, j: nat, k: string)
    requires Apart(ls) && j < i < |ls| && Places(ls, deep, i, lr) && k in ls[j].kids && lr.dict !in Dicts(ls[j])
    requires !Clash(ls, deep, j, i, k)
    ensures Written(lr, ls[i], deep) !! Dicts(ls[j].kids[k])
  {
    hide Dicts, Unshared, Written, WrittenAt, Nested, NestedAt;
    KidDicts(ls[j], k);
    forall d | d in Written(lr, ls[i], deep) && d != lr.dict ensures d !in Dicts(ls[j].kids[k]) {
      var k' := WrittenBelow(lr, ls[i], deep, d);
      var j' := NestedOwner(ls, i, k', d);
      if d in Dicts(ls[j].kids[k]) { OneOwner(ls, j, k, j', k', d); }
    }
  }

  lemma WrittenBelow(ld: Located, ls: Located, deep: bool, d: Dict) returns (k: string)
    requires ld.In? && ls.In? && d in Written(ld, ls, deep) && d != ld.dict
    ensures Both(ld, ls, deep, k) && d in Dicts(ld.kids[k])
  {
    k :| k in ld.kids && d in WrittenAt(ld, ls, deep, k);
  }

  lemma NestedOwner(ls: seq<Located>, n: nat, k: string, d: Dict) returns (j: nat)
    requires AllIn(ls) && n <= |ls| && d in NestedAt(ls, n, k)
    ensures j < n && d in DictsAt(ls[j], k)
  {
    j :| 0 <= j < n && d in DictsAt(ls[j], k);
  }

  lemma OneOwner(ls: seq<Located>, j: nat, k: string, j': nat, k': string, d: Dict)
    requires Apart(ls) && j < |ls| && j' < |ls| && k in ls[j].kids && d in DictsAt(ls[j'], k') && d in Dicts(ls[j].kids[k])
    ensures j == j' && k == k' && ls[j].kids[k].In?
  {
    KidDicts(ls[j], k);
    KidDicts(ls[j'], k');
    assert Unshared(ls[j']);
  }

  /**
   * The invokers' loop: a new map, merged with each argument in turn. A subtree of an argument is afterwards as it
   * was unless a later argument has a map where it is one; there it is the very map that the result was built in.
   */
  method MergeObjects(objs: seq<Dict>, deep: bool, ghost ls: seq<Located>) returns (r: Dict, ghost lr: Located)
    requires Arguments(objs, ls)
    modifies Nested(ls, |ls|)
    ensures fresh(r) && Good(lr) && lr.dict == r
    ensures Erase(lr) == Obj(MergeAll(Values(ls, |ls|), deep))
    ensures AllIn(ls) && Places(ls, deep, |ls|, lr) && Kept(ls, deep, |ls|)
  {
    hide Merged, Nested, Dicts, Holds, Unshared, Erase, Values, MergeAll, Places, Kept, Apart;
    forall i | 0 <= i < |ls| { Live(ls[i]); }
    ArgumentsApart(objs, ls);
    r, lr := NewMap();
    NothingMerged(ls, deep);
    Nowhere(ls, deep, r);
    for i := 0 to |objs|
      invariant lr.In? && lr.dict == r && Good(lr)
      invariant Places(ls, deep, i, lr) && Kept(ls, deep, i)
      invariant forall j :: i <= j < |ls| ==> Good(ls[j])
      invariant Erase(lr) == Obj(MergeAll(Values(ls, i), deep))
    {
      NestedNext(ls, i, "");
      lr := MergeNext(r, objs[i], deep, i, lr, ls);
      OneMore(ls, i, deep);
    }
  }

  method MergeNext(r: Dict, obj: Dict, deep: bool, ghost i: nat, ghost lr: Located, ghost ls: seq<Located>) returns (ghost lr': Located)
    requires Apart(ls) && i < |ls| && Good(lr) && lr.dict == r && Places(ls, deep, i, lr) && Kept(ls, deep, i) && ls[i].dict == obj
    requires forall j :: 0 <= j < |ls| ==> r !in Dicts(ls[j])
    requires forall j :: i <= j < |ls| ==> Good(ls[j])
    modifies {r} + Nested(ls, i)
    ensures Good(lr') && lr'.dict == r && Places(ls, deep, i + 1, lr') && Kept(ls, deep, i + 1)
    ensures forall j :: i < j < |ls| ==> Good(ls[j])
    ensures Erase(lr') == Obj(Merged(Erase(lr).fields, Erase(ls[i]).fields, deep))
  {
    hide Merged, Nested, Dicts, Holds, Unshared, Erase, Written;
    LaterAreApart(ls, deep, i, lr);
    WrittenInside(lr, ls[i], deep);
    forall j, k | 0 <= j < i && k in ls[j].kids && !Clash(ls, deep, j, i, k) { SparedIsApart(ls, deep, i, lr, j, k); }
    forall j | 0 <= j < |ls| { Live(ls[j]); }
    assert forall j, k :: 0 <= j < i && k in ls[j].kids && Spared(ls, deep, j, k, i + 1) ==>
      Holds(ls[j].kids[k]) && Written(lr, ls[i], deep) !! Dicts(ls[j].kids[k]);
    forall j, k | 0 <= j < i && k in ls[j].kids { Live(ls[j].kids[k]); }
    lr' := Merge(r, obj, deep, lr, ls[i]);
    PlacesNext(ls, deep, i, lr, lr');
    forall j, k | 0 <= j < i + 1 && k in ls[j].kids && Spared(ls, deep, j, k, i + 1) ensures Holds(ls[j].kids[k]) {
      if j == i { KidHolds(ls[i], k); }
    }
  }

  lemma KidHolds(l: Located, k: string)
    requires Holds(l) && l.In? && k in l.kids
    ensures Holds(l.kids[k])
  {
  }

  method NewMap() returns (r: Dict, ghost l: Located)
    ensures fresh(r) && l == In(r, map[]) && Good(l) && Dicts(l) == {r} && Erase(l) == Obj(map[])
  {
    r := new Dict();
    l := In(r, map[]);
  }

  lemma NothingMerged(ls: seq<Located>, deep: bool)
    requires forall j :: 0 <= j < |ls| ==> ls[j].In?
    ensures MergeAll(Values(ls, 0), deep) == map[]
  {
    assert Values(ls, 0) == [];
  }

  lemma OneMore(ls: seq<Located>, i: nat, deep: bool)
    requires i < |ls| && forall j :: 0 <= j < |ls| ==> ls[j].In?
    ensures MergeAll(Values(ls, i + 1), deep) == Merged(MergeAll(Values(ls, i), deep), Erase(ls[i]).fields, deep)
  {
    hide Erase, Merged;
    assert Values(ls, i + 1)[..i] == Values(ls, i);
  }

  lemma ArgumentsApart(objs: seq<Dict>, ls: seq<Located>)
    requires Arguments(objs, ls)
    ensures Apart(ls) && |ls| == |objs| && forall i :: 0 <= i < |ls| ==> Good(ls[i]) && ls[i].dict == objs[i]
  {
    hide Dicts, Holds, Unshared;
  }

  lemma Nowhere(ls: seq<Located>, deep: bool, r: Dict)
    requires AllIn(ls)
    ensures Places(ls, deep, 0, In(r, map[])) && Kept(ls, deep, 0)
  {
  }

  /** The result so far has nothing in common with the arguments still to come. */
  lemma LaterAreApart(ls: seq<Located>, deep: bool, i: nat, lr: Located)
    requires Apart(ls) && i < |ls| && Places(ls, deep, i, lr) && forall j :: 0 <= j < |ls| ==> lr.dict !in Dicts(ls[j])
    ensures forall j :: i <= j < |ls| ==> Dicts(lr) !! Dicts(ls[j])
    ensures Written(lr, ls[i], deep) <= {lr.dict} + Nested(ls, i)
  {
    WrittenInside(lr, ls[i], deep);
    hide Dicts, Unshared, Written;
  }
}
