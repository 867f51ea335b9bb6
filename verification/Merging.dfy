/** The merge function (pkg/expr/fnlib/merge.go): its meaning on values, and the forms it is called in. */
module Merging {
  import opened Trees
  import opened Semantics
  import opened Staging

  /** One `merge(dst, src, deep)` on values. */
  function Merged(a: map<string, Tree>, b: map<string, Tree>, deep: bool): (r: map<string, Tree>)
    ensures r.Keys == a.Keys + b.Keys
    decreases Obj(b)
  {
    map k | k in a.Keys + b.Keys ::
      if k !in b then a[k]
      else if deep && k in a && a[k].Obj? && b[k].Obj? then Obj(Merged(a[k].fields, b[k].fields, true))
      else b[k]
  }

  /** The loop over the objects, each overwriting prior entries. */
  function MergeAll(objs: seq<map<string, Tree>>, deep: bool): map<string, Tree> {
    if objs == [] then map[] else Merged(MergeAll(objs[..|objs| - 1], deep), objs[|objs| - 1], deep)
  }

  /** The values that the objects give a key, in order. */
  function ValuesAt(objs: seq<map<string, Tree>>, k: string): seq<Tree> {
    if objs == [] then []
    else ValuesAt(objs[..|objs| - 1], k) + if k in objs[|objs| - 1] then [objs[|objs| - 1][k]] else []
  }

  /** The longest run of objects that ends a list of values. */
  function TrailingRun(vs: seq<Tree>): seq<map<string, Tree>> {
    if vs == [] || !vs[|vs| - 1].Obj? then [] else TrailingRun(vs[..|vs| - 1]) + [vs[|vs| - 1].fields]
  }

  function At(m: map<string, Tree>, k: string): Option<Tree> { if k in m then Some(m[k]) else None }

  lemma MergedWithEmpty(b: map<string, Tree>, deep: bool)
    ensures Merged(map[], b, deep) == b
  {
  }

  lemma MergedAt(a: map<string, Tree>, b: map<string, Tree>, deep: bool, k: string)
    ensures At(Merged(a, b, deep), k) ==
      if k !in b then At(a, k)
      else if deep && k in a && a[k].Obj? && b[k].Obj? then Some(Obj(Merged(a[k].fields, b[k].fields, true)))
      else Some(b[k])
  {
  }

  /** Deeply: a key holds its last value, or the merge of the run of objects that ends its values. */
  lemma {:induction false} DeepMergeMeaning(objs: seq<map<string, Tree>>, k: string)
    ensures
      var vs := ValuesAt(objs, k);
      At(MergeAll(objs, true), k) ==
        if vs == [] then None
        else if !vs[|vs| - 1].Obj? then Some(vs[|vs| - 1])
        else Some(Obj(MergeAll(TrailingRun(vs), true)))
  {
    if objs != [] {
      var rest, o := objs[..|objs| - 1], objs[|objs| - 1];
      DeepMergeMeaning(rest, k);
      MergedAt(MergeAll(rest, true), o, true, k);
      if k in o {
        var vs, vs' := ValuesAt(rest, k), ValuesAt(objs, k);
        assert vs' == vs + [o[k]];
        hide ValuesAt, Merged;
        RunGrows(vs, o[k]);
      } else {
        assert ValuesAt(objs, k) == ValuesAt(rest, k);
      }
    }
  }

  /** A value that is no object ends the run; an object is merged into what the run before it gives. */
  lemma RunGrows(vs: seq<Tree>, v: Tree)
    ensures v.Obj? ==>
      MergeAll(TrailingRun(vs + [v]), true)
        == if TrailingRun(vs) == [] then v.fields else Merged(MergeAll(TrailingRun(vs), true), v.fields, true)
  {
    if v.Obj? {
      assert (vs + [v])[..|vs|] == vs;
      assert TrailingRun(vs + [v]) == TrailingRun(vs) + [v.fields];
      RunExtended(TrailingRun(vs), v.fields);
      MergedWithEmpty(v.fields, true);
    }
  }

  lemma RunExtended(run: seq<map<string, Tree>>, m: map<string, Tree>)
    ensures MergeAll(run + [m], true) == Merged(MergeAll(run, true), m, true)
  {
    assert (run + [m])[..|run|] == run;
  }

  /** Shallowly: a key holds its last value. */
  lemma {:induction false} ShallowMergeMeaning(objs: seq<map<string, Tree>>, k: string)
    ensures
      var vs := ValuesAt(objs, k);
      At(MergeAll(objs, false), k) == if vs == [] then None else Some(vs[|vs| - 1])
  {
    if objs != [] {
      ShallowMergeMeaning(objs[..|objs| - 1], k);
      MergedAt(MergeAll(objs[..|objs| - 1], false), objs[|objs| - 1], false, k);
    }
  }

  lemma InertFields(m: map<string, Tree>)
    requires Inert(IDENTITY, Obj(m)) && TYPE !in m && ENCODING !in m
    ensures forall k :: k in m ==> Inert(IDENTITY, m[k])
  {
  }

  lemma PlainIsInert(m: map<string, Tree>)
    requires ShapeOf(m).PlainShape? && forall k :: k in m ==> Inert(IDENTITY, m[k])
    ensures Inert(IDENTITY, Obj(m))
  {
  }

  /** A merged node that looks like a reference or an encoding is as opaque as what it came from. */
  lemma MergedOpaque(a: map<string, Tree>, b: map<string, Tree>, deep: bool)
    requires Inert(IDENTITY, Obj(a)) && Inert(IDENTITY, Obj(b))
    requires TYPE in Merged(a, b, deep) || ENCODING in Merged(a, b, deep)
    ensures Inert(IDENTITY, Obj(Merged(a, b, deep)))
  {
    var r := Merged(a, b, deep);
    IdentityMapper(Obj(r));
    if TYPE in r {
      MergedAt(a, b, deep, TYPE);
      hide Merged, AllText;
      OpaqueType(r, if TYPE in b then b else a);
    } else {
      MergedAt(a, b, deep, ENCODING);
      hide Merged, AllText;
    }
  }

  lemma OpaqueType(r: map<string, Tree>, m: map<string, Tree>)
    requires TYPE in m && TYPE in r && TypeNodeOf(m).UnknownType? && (r[TYPE].Str? ==> r[TYPE] == m[TYPE])
    ensures TypeNodeOf(r).UnknownType?
  {
  }

  /** Merging data gives data, so the function is one that an evaluator may call in stages. */
  lemma {:induction false} MergedIsInert(a: map<string, Tree>, b: map<string, Tree>, deep: bool)
    requires Inert(IDENTITY, Obj(a)) && Inert(IDENTITY, Obj(b))
    ensures Inert(IDENTITY, Obj(Merged(a, b, deep)))
    decreases Obj(b)
  {
    var r := Merged(a, b, deep);
    if TYPE in r || ENCODING in r {
      MergedOpaque(a, b, deep);
    } else {
      MergedIsNoCall(a, b, deep);
      InertFields(a);
      InertFields(b);
      forall k | k in r ensures Inert(IDENTITY, r[k]) {
        MergedAt(a, b, deep, k);
        if deep && k in a && k in b && a[k].Obj? && b[k].Obj? { MergedIsInert(a[k].fields, b[k].fields, true); }
      }
      PlainIsInert(r);
    }
  }

  lemma MergedIsNoCall(a: map<string, Tree>, b: map<string, Tree>, deep: bool)
    requires Inert(IDENTITY, Obj(a)) && Inert(IDENTITY, Obj(b))
    ensures !ShapeOf(Merged(a, b, deep)).CallShape?
  {
    var r := Merged(a, b, deep);
    if ShapeOf(r).CallShape? {
      var key := ShapeOf(r).key;
      assert r.Keys == {key};
      var m := if key in a then a else b;
      assert m.Keys == {key};
      SameKeysSameShape(m, r);
    }
  }

  lemma {:induction false} MergeAllIsInert(objs: seq<map<string, Tree>>, deep: bool)
    requires forall i :: 0 <= i < |objs| ==> Inert(IDENTITY, Obj(objs[i]))
    ensures Inert(IDENTITY, Obj(MergeAll(objs, deep)))
  {
    if objs == [] {
      PlainIsInert(map[]);
    } else {
      MergeAllIsInert(objs[..|objs| - 1], deep);
      MergedIsInert(MergeAll(objs[..|objs| - 1], deep), objs[|objs| - 1], deep);
    }
  }

  // ---- the invokers ----

  const OBJECTS: string := "objects"
  const MODE: string := "mode"

  /** mergeCast: every element must be an object. */
  function Cast(items: seq<Tree>): Option<seq<map<string, Tree>>> {
    if exists i :: 0 <= i < |items| && !items[i].Obj? then None
    else Some(seq(|items|, i requires 0 <= i < |items| => if items[i].Obj? then items[i].fields else map[]))
  }

  function MergeItems(items: seq<Tree>, deep: bool): CallResult {
    match Cast(items)
    case None => Failed
    case Some(objs) => Returned(Obj(MergeAll(objs, deep)))
  }

  /** The function as the evaluator calls it; objects that are no list count as the empty list. */
  function MergeCall(args: Args): CallResult {
    match args
    case Positional(items) => MergeItems(items, true)
    case Keyword(kwargs) =>
      if OBJECTS !in kwargs then Unresolved("objects: argument not found")
      else
        var items := if kwargs[OBJECTS].List? then kwargs[OBJECTS].items else [];
        if MODE !in kwargs || kwargs[MODE] == Str("deep") then MergeItems(items, true)
        else if kwargs[MODE] == Str("shallow") then MergeItems(items, false)
        else Failed
  }

  lemma MergeItemsIsData(items: seq<Tree>, deep: bool)
    requires forall i :: 0 <= i < |items| ==> Inert(IDENTITY, items[i])
    ensures MergeItems(items, deep).Returned? ==> Inert(IDENTITY, MergeItems(items, deep).value)
  {
    hide Inert, MergeAll;
    if Cast(items).Some? { MergeAllIsInert(Cast(items).value, deep); }
  }

  /** The values that a call merges. */
  function ObjectsOf(args: Args): seq<Tree> {
    match args
    case Positional(items) => items
    case Keyword(kwargs) => if OBJECTS in kwargs && kwargs[OBJECTS].List? then kwargs[OBJECTS].items else []
  }

  /** A call that merges data returns data. */
  lemma MergeCallIsData(args: Args)
    requires forall i :: 0 <= i < |ObjectsOf(args)| ==> Inert(IDENTITY, ObjectsOf(args)[i])
    ensures MergeCall(args).Returned? ==> Inert(IDENTITY, MergeCall(args).value)
  {
    hide MergeItems, Inert;
    MergeItemsIsData(ObjectsOf(args), true);
    MergeItemsIsData(ObjectsOf(args), false);
  }

  const SECRET: Tree := Obj(map[TYPE := Str("Secret"), "name" := Str("n")])
  const OPAQUE_ARG: Tree := Obj(map[TYPE := Str("Foo"), OBJECTS := List([Obj(map["a" := SECRET])])])

  /** An opaque argument is data as it stands, but the call takes it apart and returns a live expression. */
  lemma OpaqueArgumentRevives()
    ensures Inert(IDENTITY, OPAQUE_ARG)
    ensures MergeCall(ArgsOf(OPAQUE_ARG)) == Returned(Obj(map["a" := SECRET])) && !Inert(IDENTITY, Obj(map["a" := SECRET]))
  {
    IdentityMapper(OPAQUE_ARG);
    hide AllText, MergeItems;
    assert OPAQUE_ARG.fields[OBJECTS] == List([Obj(map["a" := SECRET])]);
    MergeOne(map["a" := SECRET]);
    LiveField(map["a" := SECRET], "a");
  }

  lemma MergeOne(m: map<string, Tree>)
    ensures MergeItems([Obj(m)], true) == Returned(Obj(m))
  {
    var items := [Obj(m)];
    assert Cast(items).Some? && Cast(items).value == [m];
    assert [m][..|[m]| - 1] == [];
    assert MergeAll([m], true) == Merged(map[], m, true);
    MergedWithEmpty(m, true);
  }

  lemma LiveField(m: map<string, Tree>, k: string)
    requires k in m && !Inert(IDENTITY, m[k]) && TYPE !in m && ENCODING !in m
    ensures !Inert(IDENTITY, Obj(m))
  {
  }

  /** The call by position merges objects deeply, in order; anything else among them is a failure. */
  lemma PositionalMerge(items: seq<Tree>, objs: seq<map<string, Tree>>)
    requires |items| == |objs| && forall i :: 0 <= i < |items| ==> items[i].Obj? ==> items[i].fields == objs[i]
    ensures MergeCall(Positional(items)) ==
      if forall i :: 0 <= i < |items| ==> items[i].Obj? then Returned(Obj(MergeAll(objs, true))) else Failed
  {
    CastMeans(items, objs);
    hide MergeAll, Cast;
  }

  lemma CastMeans(items: seq<Tree>, objs: seq<map<string, Tree>>)
    requires |items| == |objs| && forall i :: 0 <= i < |items| ==> items[i].Obj? ==> items[i].fields == objs[i]
    ensures Cast(items) == if forall i :: 0 <= i < |items| ==> items[i].Obj? then Some(objs) else None
  {
    if Cast(items).Some? { assert Cast(items).value == objs; }
  }

  /** By keyword it needs objects, and merges deeply unless the mode says otherwise. */
  lemma KeywordMerge(kwargs: map<string, Tree>)
    ensures
      var r := MergeCall(Keyword(kwargs));
      && ("objects" !in kwargs ==> r.Unresolved?)
      && ("objects" in kwargs ==>
            var items := if kwargs["objects"].List? then kwargs["objects"].items else [];
            var deep := "mode" !in kwargs || kwargs["mode"] == Str("deep");
            if !deep && kwargs["mode"] != Str("shallow") then r == Failed
            else if exists i :: 0 <= i < |items| && !items[i].Obj? then r == Failed
            else exists objs: seq<map<string, Tree>> ::
                   |objs| == |items| && (forall i :: 0 <= i < |items| ==> items[i] == Obj(objs[i])) && r == Returned(Obj(MergeAll(objs, deep))))
  {
    if "objects" in kwargs {
      var items := if kwargs["objects"].List? then kwargs["objects"].items else [];
      var objs := seq(|items|, i requires 0 <= i < |items| => if items[i].Obj? then items[i].fields else map[]);
      CastMeans(items, objs);
      hide MergeAll, Cast;
      if forall i :: 0 <= i < |items| ==> items[i].Obj? {
        assert forall i :: 0 <= i < |items| ==> items[i] == Obj(objs[i]);
      }
    }
  }
}
