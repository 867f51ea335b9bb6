/** Marking steps that can never run as skipped (ConfigureWorkflowRun in pkg/obj/workflowrun.go). */
module SkipPropagation {
  import opened Trees
  import opened Workflows

  datatype Status = Blank | Pending | InProgress | Success | Failure | Cancelled | Skipped | TimedOut

  datatype Summary = Summary(name: string, status: Status, start: Option<int>, completion: Option<int>, logKey: string)

  function StatusIn(m: map<string, Summary>, n: string): Status {
    if n in m then m[n].status else Blank
  }

  function DepsOf(steps: seq<WorkflowStep>, n: string): set<string> {
    set i, j | 0 <= i < |steps| && steps[i].name == n && 0 <= j < |steps[i].dependsOn| :: steps[i].dependsOn[j]
  }

  predicate Bad(m: map<string, Summary>, n: string) {
    StatusIn(m, n) == Skipped || StatusIn(m, n) == Failure
  }

  /** A failed or skipped step, and pending steps each depending on the one before. */
  predicate Chain(steps: seq<WorkflowStep>, m: map<string, Summary>, c: seq<string>) {
    && |c| >= 2
    && Bad(m, c[0])
    && forall i :: 1 <= i < |c| ==> StatusIn(m, c[i]) == Pending && c[i - 1] in DepsOf(steps, c[i])
  }

  ghost predicate Doomed(steps: seq<WorkflowStep>, m: map<string, Summary>, n: string) {
    exists c :: Chain(steps, m, c) && c[|c| - 1] == n
  }

  ghost function Propagated(steps: seq<WorkflowStep>, m: map<string, Summary>): map<string, Summary> {
    map n | n in m :: if Doomed(steps, m, n) then m[n].(status := Skipped) else m[n]
  }

  /** Being doomed is the least property that spreads from bad steps to pending dependents. */
  lemma DoomedUnfolds(steps: seq<WorkflowStep>, m: map<string, Summary>, n: string)
    ensures Doomed(steps, m, n) <==>
      StatusIn(m, n) == Pending && exists p :: p in DepsOf(steps, n) && (Bad(m, p) || Doomed(steps, m, p))
  {
    if Doomed(steps, m, n) {
      var c :| Chain(steps, m, c) && c[|c| - 1] == n;
      var p := c[|c| - 2];
      assert p in DepsOf(steps, n);
      if |c| > 2 {
        assert Chain(steps, m, c[..|c| - 1]) && c[..|c| - 1][|c| - 2] == p;
      }
    }
    if StatusIn(m, n) == Pending {
      forall p | p in DepsOf(steps, n) && Bad(m, p) ensures Doomed(steps, m, n) {
        assert Chain(steps, m, [p, n]) && [p, n][1] == n;
      }
      forall p | p in DepsOf(steps, n) && Doomed(steps, m, p) ensures Doomed(steps, m, n) {
        var c :| Chain(steps, m, c) && c[|c| - 1] == p;
        assert Chain(steps, m, c + [n]) && (c + [n])[|c|] == n;
      }
    }
  }

  /** Any set closed under the spreading rule contains every doomed step. */
  lemma DoomedIsLeast(steps: seq<WorkflowStep>, m: map<string, Summary>, s: set<string>, n: string)
    requires forall x, p :: StatusIn(m, x) == Pending && p in DepsOf(steps, x) && (Bad(m, p) || p in s) ==> x in s
    requires Doomed(steps, m, n)
    ensures n in s
  {
    var c :| Chain(steps, m, c) && c[|c| - 1] == n;
    ChainStays(steps, m, s, c);
  }

  lemma {:induction false} ChainStays(steps: seq<WorkflowStep>, m: map<string, Summary>, s: set<string>, c: seq<string>)
    requires forall x, p :: StatusIn(m, x) == Pending && p in DepsOf(steps, x) && (Bad(m, p) || p in s) ==> x in s
    requires Chain(steps, m, c)
    ensures c[|c| - 1] in s
  {
    var n, p := c[|c| - 1], c[|c| - 2];
    assert StatusIn(m, n) == Pending && p in DepsOf(steps, n);
    if |c| > 2 { ChainStays(steps, m, s, c[..|c| - 1]); }
  }

  /** Every vertex once, and each step after what it depends on. */
  predicate Topological(steps: seq<WorkflowStep>, order: seq<string>) {
    && (forall i, j :: 0 <= i < j < |order| ==> order[i] != order[j])
    && (forall i :: 0 <= i < |steps| ==> steps[i].name in order)
    && (forall i, p :: 0 <= i < |order| && p in DepsOf(steps, order[i]) ==> p in order[..i])
  }

  /** The traversal: pending steps with a failed or skipped dependency become skipped, in order. */
  method MarkSkipped(steps: seq<WorkflowStep>, order: seq<string>, m: map<string, Summary>) returns (r: map<string, Summary>)
    requires Topological(steps, order)
    ensures r == Propagated(steps, m)
  {
    hide Doomed, Propagated;
    r := m;
    NothingMarked(steps, order, m);
    for i := 0 to |order|
      invariant Marked(steps, order[..i], m, r)
    {
      var next := order[i];
      assert order[..i + 1] == order[..i] + [next];
      ghost var before := r;
      if StatusIn(r, next) == Pending {
        var skip := AnyBad(r, DepsOf(steps, next));
        if skip { r := r[next := r[next].(status := Skipped)]; }
      }
      MarkNext(steps, order, i, m, before, r);
    }
    assert order[..|order|] == order;
    AllMarked(steps, order, m, r);
  }

  /** The steps in `done` have their final entries, all others their first ones. */
  ghost predicate Marked(steps: seq<WorkflowStep>, done: seq<string>, m: map<string, Summary>, r: map<string, Summary>) {
    && r.Keys == m.Keys
    && (forall n :: n in m && n in done ==> r[n] == if Doomed(steps, m, n) then m[n].(status := Skipped) else m[n])
    && (forall n :: n in m && n !in done ==> r[n] == m[n])
  }

  lemma NothingMarked(steps: seq<WorkflowStep>, order: seq<string>, m: map<string, Summary>)
    ensures Marked(steps, order[..0], m, m)
  {
    hide Doomed;
  }

  /** What the traversal sees of a dependency that it has been to is whether it is doomed or bad. */
  lemma DependencySeen(steps: seq<WorkflowStep>, done: seq<string>, m: map<string, Summary>, r: map<string, Summary>, p: string)
    requires Marked(steps, done, m, r) && p in done
    ensures Bad(r, p) <==> Bad(m, p) || Doomed(steps, m, p)
  {
    DoomedUnfolds(steps, m, p);
    hide Doomed;
  }

  lemma MarkNext(steps: seq<WorkflowStep>, order: seq<string>, i: nat, m: map<string, Summary>, before: map<string, Summary>, r: map<string, Summary>)
    requires Topological(steps, order) && i < |order| && Marked(steps, order[..i], m, before)
    requires
      var next := order[i];
      var skip := StatusIn(before, next) == Pending && exists p :: p in DepsOf(steps, next) && Bad(before, p);
      r == if skip then before[next := before[next].(status := Skipped)] else before
    ensures Marked(steps, order[..i] + [order[i]], m, r)
  {
    var next := order[i];
    assert next !in order[..i];
    forall p | p in DepsOf(steps, next) ensures Bad(before, p) <==> Bad(m, p) || Doomed(steps, m, p) {
      DependencySeen(steps, order[..i], m, before, p);
    }
    DoomedUnfolds(steps, m, next);
    hide Doomed;
  }

  lemma AllMarked(steps: seq<WorkflowStep>, order: seq<string>, m: map<string, Summary>, r: map<string, Summary>)
    requires Topological(steps, order) && Marked(steps, order, m, r)
    ensures r == Propagated(steps, m)
  {
    forall n | n in m && n !in order ensures !Doomed(steps, m, n) {
      DoomedUnfolds(steps, m, n);
    }
    hide Doomed;
  }

  method AnyBad(m: map<string, Summary>, deps: set<string>) returns (b: bool)
    ensures b <==> exists p :: p in deps && Bad(m, p)
  {
    var rest := deps;
    while rest != {}
      invariant rest <= deps
      invariant forall p :: p in deps - rest ==> !Bad(m, p)
      decreases rest
    {
      var p :| p in rest;
      if Bad(m, p) { return true; }
      rest := rest - {p};
    }
    return false;
  }

  /** `p` is one of the steps that step `n` names as a dependency. */
  predicate DependsOn(steps: seq<WorkflowStep>, n: string, p: string) {
    exists i :: 0 <= i < |steps| && steps[i].name == n && p in steps[i].dependsOn
  }

  predicate StoppedAt(m: map<string, Summary>, p: string) { p in m && (m[p].status == Failure || m[p].status == Skipped) }

  /**
   * In the result a step that was pending is skipped exactly if one of its dependencies has failed or is skipped
   * there; otherwise it, and every step that was not pending, is as it was.
   */
  lemma SkippedIff(steps: seq<WorkflowStep>, m: map<string, Summary>, n: string)
    requires n in m
    ensures
      var r := Propagated(steps, m);
      if m[n].status == Pending && exists p :: DependsOn(steps, n, p) && StoppedAt(r, p)
      then r[n] == m[n].(status := Skipped)
      else r[n] == m[n]
  {
    var r := Propagated(steps, m);
    DoomedUnfolds(steps, m, n);
    forall p ensures p in DepsOf(steps, n) <==> DependsOn(steps, n, p) {
      if DependsOn(steps, n, p) {
        var i :| 0 <= i < |steps| && steps[i].name == n && p in steps[i].dependsOn;
        var j :| 0 <= j < |steps[i].dependsOn| && steps[i].dependsOn[j] == p;
      }
    }
    forall p ensures StoppedAt(r, p) <==> Bad(m, p) || Doomed(steps, m, p) { StoppedOrDoomed(steps, m, p); }
    hide Doomed, DepsOf;
  }

  lemma StoppedOrDoomed(steps: seq<WorkflowStep>, m: map<string, Summary>, p: string)
    ensures StoppedAt(Propagated(steps, m), p) <==> Bad(m, p) || Doomed(steps, m, p)
  {
    DoomedUnfolds(steps, m, p);
    hide Doomed;
  }
}
