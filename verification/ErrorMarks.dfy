/** Marked errors and the decision to report one (pkg/errmark, pkg/reconciler/filter/errorcapture.go). */
module ErrorMarks {
  import opened Trees

  datatype Error =
    | Raw(id: int)
    | Wrapped(context: string, cause: Error)
    | UserError(delegate: Error)
    | TransientError(delegate: Error)
  {
    predicate IsMarker() { UserError? || TransientError? }
  }

  type Rule = Error -> bool

  predicate TransientAny(rules: seq<Rule>, e: Error) {
    exists i :: 0 <= i < |rules| && rules[i](e)
  }

  /** The functions that the package and its callers map over errors. */
  datatype Mapping = ToUser | ToTransient(rules: seq<Rule>) | Wrap(context: string)

  function Apply(m: Mapping, e: Error): Error {
    match m
    case ToUser => UserError(e)
    case ToTransient(rules) => if !e.TransientError? && TransientAny(rules, e) then TransientError(e) else e
    case Wrap(context) => Wrapped(context, e)
  }

  /** Resolve applies a mapping beneath a marker, to the marker's delegate. */
  function ApplyUnder(m: Mapping, e: Error): Error {
    match e
    case UserError(d) => UserError(Apply(m, d))
    case TransientError(d) => TransientError(Apply(m, d))
    case _ => Apply(m, e)
  }

  function Resolved(e: Error, maps: seq<Mapping>): Error {
    if maps == [] then e else ApplyUnder(maps[|maps| - 1], Resolved(e, maps[..|maps| - 1]))
  }

  class MarkedError {
    var delegate: Error
    var maps: seq<Mapping>

    constructor (e: Error)
      ensures delegate == e && maps == []
    {
      delegate, maps := e, [];
    }

    method MapFirst(m: Mapping)
      modifies this`maps
      ensures maps == [m] + old(maps)
    {
      maps := [m] + maps;
    }

    method MapLast(m: Mapping)
      modifies this`maps
      ensures maps == old(maps) + [m]
    {
      maps := maps + [m];
    }

    method Resolve() returns (e: Error)
      ensures e == Resolved(delegate, maps)
    {
      e := delegate;
      for i := 0 to |maps|
        invariant e == Resolved(delegate, maps[..i])
      {
        var m := maps[i];
        assert maps[..i + 1][..i] == maps[..i];
        e := match e
             case UserError(d) => UserError(Apply(m, d))
             case TransientError(d) => TransientError(Apply(m, d))
             case _ => Apply(m, e);
      }
      assert maps[..|maps|] == maps;
    }
  }

  /** What callers do to an error on its way out, in order. */
  datatype Op = MarkUser | MarkTransient(rules: seq<Rule>) | WrapLast(context: string)

  function MarkOf(op: Op): Mapping {
    match op
    case MarkUser => ToUser
    case MarkTransient(rules) => ToTransient(rules)
    case WrapLast(context) => Wrap(context)
  }

  /** Marks go to the front of the mappings, wraps to the back. */
  function MapsAfter(ops: seq<Op>): seq<Mapping> {
    if ops == [] then []
    else
      var earlier, op := MapsAfter(ops[..|ops| - 1]), ops[|ops| - 1];
      if op.WrapLast? then earlier + [MarkOf(op)] else [MarkOf(op)] + earlier
  }

  method ApplyOps(e: Error, ops: seq<Op>) returns (me: MarkedError)
    ensures fresh(me) && me.delegate == e && me.maps == MapsAfter(ops)
  {
    me := new MarkedError(e);
    for i := 0 to |ops|
      invariant fresh(me) && me.delegate == e && me.maps == MapsAfter(ops[..i])
    {
      assert ops[..i + 1][..i] == ops[..i];
      if ops[i].WrapLast? { me.MapLast(MarkOf(ops[i])); } else { me.MapFirst(MarkOf(ops[i])); }
    }
    assert ops[..|ops|] == ops;
  }

  predicate Fires(op: Op, raw: Error) {
    match op
    case MarkUser => true
    case MarkTransient(rules) => TransientAny(rules, raw)
    case WrapLast(_) => false
  }

  /** The most recent mark that fires on the raw error. */
  function LastFiring(ops: seq<Op>, raw: Error): Option<Op> {
    if ops == [] then None
    else if Fires(ops[|ops| - 1], raw) then Some(ops[|ops| - 1])
    else LastFiring(ops[..|ops| - 1], raw)
  }

  predicate MarkedBy(e: Error, op: Option<Op>) {
    match op
    case None => !e.IsMarker()
    case Some(MarkUser) => e.UserError?
    case Some(MarkTransient(_)) => e.TransientError?
    case _ => false
  }

  /** Marks in reverse order, and wraps in order. */
  function Marks(ops: seq<Op>): seq<Mapping> {
    if ops == [] then []
    else
      var earlier, op := Marks(ops[..|ops| - 1]), ops[|ops| - 1];
      if op.WrapLast? then earlier else [MarkOf(op)] + earlier
  }

  function Wraps(ops: seq<Op>): seq<Mapping> {
    if ops == [] then []
    else
      var earlier, op := Wraps(ops[..|ops| - 1]), ops[|ops| - 1];
      if op.WrapLast? then earlier + [MarkOf(op)] else earlier
  }

  lemma {:induction false} MarksThenWraps(ops: seq<Op>)
    ensures MapsAfter(ops) == Marks(ops) + Wraps(ops)
    ensures forall i :: 0 <= i < |Wraps(ops)| ==> Wraps(ops)[i].Wrap?
  {
    if ops != [] {
      var earlier, op := ops[..|ops| - 1], ops[|ops| - 1];
      var m := MarkOf(op);
      MarksThenWraps(earlier);
      if op.WrapLast? {
        assert MapsAfter(ops) == MapsAfter(earlier) + [m] && Marks(ops) == Marks(earlier) && Wraps(ops) == Wraps(earlier) + [m];
      } else {
        assert MapsAfter(ops) == [m] + MapsAfter(earlier) && Marks(ops) == [m] + Marks(earlier) && Wraps(ops) == Wraps(earlier);
      }
    }
  }

  lemma {:induction false} ResolvedSplit(e: Error, a: seq<Mapping>, b: seq<Mapping>)
    ensures Resolved(e, a + b) == Resolved(Resolved(e, a), b)
  {
    if b == [] {
      assert a + b == a;
    } else {
      assert (a + b)[..|a + b| - 1] == a + b[..|b| - 1];
      ResolvedSplit(e, a, b[..|b| - 1]);
    }
  }

  /** Once an error is a marker, nothing that is mapped over it changes its kind. */
  lemma {:induction false} MarkerStays(e: Error, maps: seq<Mapping>)
    requires e.IsMarker()
    ensures Resolved(e, maps).UserError? == e.UserError? && Resolved(e, maps).IsMarker()
  {
    if maps != [] { MarkerStays(e, maps[..|maps| - 1]); }
  }

  lemma {:induction false} WrapsDoNotMark(e: Error, maps: seq<Mapping>)
    requires forall i :: 0 <= i < |maps| ==> maps[i].Wrap?
    requires !e.IsMarker()
    ensures !Resolved(e, maps).IsMarker()
  {
    if maps != [] { WrapsDoNotMark(e, maps[..|maps| - 1]); }
  }

  lemma {:induction false} MarksResolve(raw: Error, ops: seq<Op>)
    requires !raw.IsMarker()
    ensures MarkedBy(Resolved(raw, Marks(ops)), LastFiring(ops, raw))
    ensures LastFiring(ops, raw).None? ==> Resolved(raw, Marks(ops)) == raw
  {
    if ops != [] {
      var earlier, op := ops[..|ops| - 1], ops[|ops| - 1];
      MarksResolve(raw, earlier);
      if !op.WrapLast? {
        ResolvedSplit(raw, [MarkOf(op)], Marks(earlier));
        assert Resolved(raw, [MarkOf(op)]) == Apply(MarkOf(op), raw) by {
          assert [MarkOf(op)][..0] == [];
        }
        if Fires(op, raw) { MarkerStays(Apply(MarkOf(op), raw), Marks(earlier)); }
      }
    }
  }

  /** The outermost marker is the most recent mark that fires on the raw error; wraps never remove it. */
  lemma OutermostIsLatestMark(raw: Error, ops: seq<Op>)
    requires !raw.IsMarker()
    ensures MarkedBy(Resolved(raw, MapsAfter(ops)), LastFiring(ops, raw))
  {
    MarksThenWraps(ops);
    ResolvedSplit(raw, Marks(ops), Wraps(ops));
    MarksResolve(raw, ops);
    if LastFiring(ops, raw).None? { WrapsDoNotMark(raw, Wraps(ops)); }
    else { MarkerStays(Resolved(raw, Marks(ops)), Wraps(ops)); }
  }

  datatype IfFunc = IfTransient | IfNotTransient | IfUser | IfNotUser

  /** What a condition hands on, if it lets the error through. */
  function Through(c: IfFunc, e: Error): Option<Error> {
    match c
    case IfTransient => if e.TransientError? then Some(e.delegate) else None
    case IfNotTransient => if e.TransientError? then None else Some(e)
    case IfUser => if e.UserError? then Some(e.delegate) else None
    case IfNotUser => if e.UserError? then None else Some(e)
  }

  function IfAll(conds: seq<IfFunc>, e: Error): Option<Error> {
    if conds == [] then Some(e)
    else match Through(conds[0], e) case None => None case Some(e') => IfAll(conds[1..], e')
  }

  lemma NeitherMark(e: Error)
    ensures IfAll([IfNotTransient, IfNotUser], e) == if e.IsMarker() then None else Some(e)
  {
    assert [IfNotTransient, IfNotUser][1..] == [IfNotUser] && [IfNotUser][1..] == [];
    assert IfAll([IfNotUser], e) == if e.UserError? then None else Some(e);
  }

  predicate UserMarked(ops: seq<Op>) { exists i :: 0 <= i < |ops| && ops[i].MarkUser? }

  predicate KnownTransient(ops: seq<Op>, raw: Error) {
    exists i :: 0 <= i < |ops| && ops[i].MarkTransient? && TransientAny(ops[i].rules, raw)
  }

  lemma {:induction false} NothingFires(ops: seq<Op>, raw: Error)
    ensures LastFiring(ops, raw).None? <==> !UserMarked(ops) && !KnownTransient(ops, raw)
  {
    if ops != [] {
      var earlier, op := ops[..|ops| - 1], ops[|ops| - 1];
      NothingFires(earlier, raw);
      assert forall i :: 0 <= i < |earlier| ==> earlier[i] == ops[i];
    }
  }

  /** An error is reported exactly if nobody blamed the user and no rule calls the raw error transient. */
  lemma ReportedIff(raw: Error, ops: seq<Op>, rules: seq<Rule>)
    requires !raw.IsMarker()
    ensures
      var err := Resolved(raw, [ToTransient(rules)] + MapsAfter(ops));
      IfAll([IfNotTransient, IfNotUser], err).Some? <==>
        !UserMarked(ops) && !KnownTransient(ops, raw) && !TransientAny(rules, raw)
  {
    var all := ops + [MarkTransient(rules)];
    assert all[..|ops|] == ops;
    assert MapsAfter(all) == [ToTransient(rules)] + MapsAfter(ops);
    OutermostIsLatestMark(raw, all);
    NothingFires(ops, raw);
    NeitherMark(Resolved(raw, MapsAfter(all)));
  }

  /**
   * The error capture filter: one more transient mark, then a report unless the error is transient or a
   * user's. For an error that the operations `ops` produced, `ReportedIff` says when that is.
   */
  method Capture(me: MarkedError, rules: seq<Rule>, ghost ops: seq<Op>) returns (err: Error, report: Option<Error>)
    requires me.maps == MapsAfter(ops)
    modifies me`maps
    ensures !me.delegate.IsMarker() ==> MarkedBy(err, LastFiring(ops + [MarkTransient(rules)], me.delegate))
    ensures !me.delegate.IsMarker() ==>
      (report.Some? <==> !UserMarked(ops) && !KnownTransient(ops, me.delegate) && !TransientAny(rules, me.delegate))
    ensures report.Some? ==> report.value == err && !err.IsMarker()
    ensures me.maps == MapsAfter(ops + [MarkTransient(rules)])
  {
    ghost var all := ops + [MarkTransient(rules)];
    assert all[..|ops|] == ops;
    me.MapFirst(ToTransient(rules));
    assert me.maps == MapsAfter(all);
    err := me.Resolve();
    report := IfAll([IfNotTransient, IfNotUser], err);
    NeitherMark(err);
    if !me.delegate.IsMarker() {
      OutermostIsLatestMark(me.delegate, all);
      ReportedIff(me.delegate, ops, rules);
    }
  }

  // ---- spelled out ----

  /** Reported exactly if no operation blames the user, and none of the rules at hand holds of the raw error. */
  lemma ReportedExactly(raw: Error, ops: seq<Op>, rules: seq<Rule>)
    requires !raw.IsMarker()
    ensures
      var err := Resolved(raw, [ToTransient(rules)] + MapsAfter(ops));
      (IfAll([IfNotTransient, IfNotUser], err) == if err.UserError? || err.TransientError? then None else Some(err))
      && (!err.UserError? && !err.TransientError? <==>
            && (forall i :: 0 <= i < |ops| ==> ops[i] != MarkUser)
            && (forall i, j :: 0 <= i < |ops| && ops[i].MarkTransient? && 0 <= j < |ops[i].rules| ==> !ops[i].rules[j](raw))
            && (forall j :: 0 <= j < |rules| ==> !rules[j](raw)))
  {
    var err := Resolved(raw, [ToTransient(rules)] + MapsAfter(ops));
    ReportedIff(raw, ops, rules);
    NeitherMark(err);
    hide Resolved, MapsAfter;
  }

  /** An error under the contexts it was wrapped in, the last one outermost. */
  function Nested(e: Error, contexts: seq<string>): Error {
    if contexts == [] then e else Wrapped(contexts[|contexts| - 1], Nested(e, contexts[..|contexts| - 1]))
  }

  function WrapsOf(contexts: seq<string>): seq<Mapping> { seq(|contexts|, i requires 0 <= i < |contexts| => Wrap(contexts[i])) }

  /** Contexts go around an error in the order in which they were given, and stay beneath its marker. */
  lemma {:induction false} ContextsNest(e: Error, contexts: seq<string>)
    ensures !e.IsMarker() ==> Resolved(e, WrapsOf(contexts)) == Nested(e, contexts)
    ensures e.UserError? ==> Resolved(e, WrapsOf(contexts)) == UserError(Nested(e.delegate, contexts))
    ensures e.TransientError? ==> Resolved(e, WrapsOf(contexts)) == TransientError(Nested(e.delegate, contexts))
  {
    if contexts != [] {
      var rest := contexts[..|contexts| - 1];
      assert WrapsOf(contexts)[..|contexts| - 1] == WrapsOf(rest);
      ContextsNest(e, rest);
    }
  }
}
