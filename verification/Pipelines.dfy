/** Compiling the steps of a workflow to pipeline tasks named by hash (pkg/obj/pipeline.go, pkg/obj/condition.go). */
module Pipelines {
  import opened Trees
  import opened Workflows
  import opened SkipPropagation
  import opened WorkflowRuns

  datatype Task = Task(name: string, taskRef: string, runAfter: seq<string>, condition: Option<string>)

  predicate HasWhen(steps: seq<WorkflowStep>, n: string) {
    exists i :: 0 <= i < |steps| && steps[i].name == n && steps[i].when != Null
  }

  /** The conditions of a run: a list of object names, and the place of each step's condition in it. */
  class ConditionList {
    var list: seq<string>
    var idx: map<string, nat>

    ghost predicate Valid(steps: seq<WorkflowStep>, hash: string -> string)
      reads this
    {
      forall n :: (n in idx <==> HasWhen(steps, n)) && (n in idx ==> idx[n] < |list| && list[idx[n]] == hash(n))
    }

    constructor (steps: seq<WorkflowStep>, hash: string -> string)
      ensures Valid(steps, hash)
    {
      list, idx := [], map[];
      new;
      for i := 0 to |steps|
        invariant Valid(steps[..i], hash)
      {
        var ws := steps[i];
        HasWhenNext(steps, i);
        hide HasWhen;
        if ws.when != Null {
          list := list + [hash(ws.name)];
          idx := idx[ws.name := |list| - 1];
        }
      }
      assert steps[..|steps|] == steps;
    }

    method GetByStepName(n: string, ghost steps: seq<WorkflowStep>, ghost hash: string -> string) returns (c: Option<string>)
      requires Valid(steps, hash)
      ensures c == if HasWhen(steps, n) then Some(hash(n)) else None
    {
      hide HasWhen;
      if n !in idx { return None; }
      return Some(list[idx[n]]);
    }
  }

  lemma HasWhenNext(steps: seq<WorkflowStep>, i: nat)
    requires i < |steps|
    ensures forall n :: HasWhen(steps[..i + 1], n) <==>
      HasWhen(steps[..i], n) || (n == steps[i].name && steps[i].when != Null)
  {
    forall n | HasWhen(steps[..i], n) ensures HasWhen(steps[..i + 1], n) {
      var j :| 0 <= j < i && steps[..i][j].name == n && steps[..i][j].when != Null;
      assert steps[..i + 1][j] == steps[j];
    }
    if steps[i].when != Null {
      assert steps[..i + 1][i] == steps[i];
    }
    forall n | HasWhen(steps[..i + 1], n) ensures HasWhen(steps[..i], n) || (n == steps[i].name && steps[i].when != Null) {
      var j :| 0 <= j < i + 1 && steps[..i + 1][j].name == n && steps[..i + 1][j].when != Null;
      if j < i { assert steps[..i][j] == steps[j]; }
    }
  }

  predicate Compiles(steps: seq<WorkflowStep>, hash: string -> string, i: nat, t: Task)
    requires i < |steps|
  {
    && t.name == hash(steps[i].name) && t.taskRef == t.name
    && |t.runAfter| == |steps[i].dependsOn|
    && (forall j :: 0 <= j < |t.runAfter| ==> t.runAfter[j] == hash(steps[i].dependsOn[j]))
    && t.condition == if HasWhen(steps, steps[i].name) then Some(t.name) else None
  }

  method HashAll(names: seq<string>, hash: string -> string) returns (hashes: seq<string>)
    ensures |hashes| == |names| && forall j :: 0 <= j < |names| ==> hashes[j] == hash(names[j])
  {
    var a := new string[|names|];
    for j := 0 to |names|
      invariant forall k :: 0 <= k < j ==> a[k] == hash(names[k])
    {
      a[j] := hash(names[j]);
    }
    return a[..];
  }

  method ConfigurePipeline(steps: seq<WorkflowStep>, hash: string -> string) returns (tasks: seq<Task>)
    ensures |tasks| == |steps| && forall i :: 0 <= i < |tasks| ==> Compiles(steps, hash, i, tasks[i])
  {
    var conditions := new ConditionList(steps, hash);
    tasks := [];
    for i := 0 to |steps|
      invariant |tasks| == i && conditions.Valid(steps, hash)
      invariant forall k :: 0 <= k < i ==> Compiles(steps, hash, k, tasks[k])
    {
      var ws := steps[i];
      var runAfter := HashAll(ws.dependsOn, hash);
      var condition := conditions.GetByStepName(ws.name, steps, hash);
      tasks := tasks + [Task(hash(ws.name), hash(ws.name), runAfter, condition)];
    }
  }

  function NamesUsed(steps: seq<WorkflowStep>): set<string> {
    (set i | 0 <= i < |steps| :: steps[i].name) + (set i, j | 0 <= i < |steps| && 0 <= j < |steps[i].dependsOn| :: steps[i].dependsOn[j])
  }

  ghost predicate WellNamed(steps: seq<WorkflowStep>, hash: string -> string) {
    && (forall i, j :: 0 <= i < j < |steps| ==> steps[i].name != steps[j].name)
    && (forall a, b :: a in NamesUsed(steps) && b in NamesUsed(steps) && hash(a) == hash(b) ==> a == b)
  }

  /** The compiled tasks order exactly as the steps do, and each carries its own condition or none. */
  lemma CompilationRoundTrip(steps: seq<WorkflowStep>, hash: string -> string, tasks: seq<Task>, i: nat, j: nat)
    requires WellNamed(steps, hash) && |tasks| == |steps| && i < |steps| && j < |steps|
    requires forall k :: 0 <= k < |tasks| ==> Compiles(steps, hash, k, tasks[k])
    ensures tasks[i].name == tasks[j].name <==> i == j
    ensures tasks[j].name in tasks[i].runAfter <==> steps[j].name in steps[i].dependsOn
    ensures tasks[i].condition == if steps[i].when != Null then Some(tasks[i].name) else None
  {
    assert Compiles(steps, hash, i, tasks[i]) && Compiles(steps, hash, j, tasks[j]);
    assert steps[i].name in NamesUsed(steps) && steps[j].name in NamesUsed(steps);
    if tasks[j].name in tasks[i].runAfter {
      var k :| 0 <= k < |tasks[i].runAfter| && tasks[i].runAfter[k] == tasks[j].name;
      assert steps[i].dependsOn[k] in NamesUsed(steps);
    }
    if steps[j].name in steps[i].dependsOn {
      var k :| 0 <= k < |steps[i].dependsOn| && steps[i].dependsOn[k] == steps[j].name;
      assert tasks[i].runAfter[k] == tasks[j].name;
    }
    if k :| 0 <= k < |steps| && steps[k].name == steps[i].name && steps[k].when != Null {
      assert k == i;
    }
  }

  /** A TaskRun of a compiled task is found by its own step and by no other. */
  lemma StatusReachesItsStep(steps: seq<WorkflowStep>, hash: string -> string, tasks: seq<Task>,
                             pr: PipelineRun, n: string, skips: bool, i: nat, j: nat)
    requires WellNamed(steps, hash) && |tasks| == |steps| && i < |steps| && j < |steps|
    requires forall k :: 0 <= k < |tasks| ==> Compiles(steps, hash, k, tasks[k])
    requires Unambiguous(pr) && n in pr.taskRuns && pr.taskRuns[n].taskName == tasks[i].name
    ensures FoundStep(pr, skips, hash(steps[i].name)) == StepFrom(n, pr.taskRuns[n], skips)
    ensures pr.taskRuns[n].taskName == hash(steps[j].name) <==> i == j
  {
    CompilationRoundTrip(steps, hash, tasks, i, j);
  }

  /** What a step compiles to, spelled out. */
  lemma CompiledTask(steps: seq<WorkflowStep>, hash: string -> string, i: nat, t: Task, runAfter: seq<string>)
    requires i < |steps| && Compiles(steps, hash, i, t) && forall j :: 0 <= j < |steps| && j != i ==> steps[j].name != steps[i].name
    requires |runAfter| == |steps[i].dependsOn| && forall j :: 0 <= j < |runAfter| ==> runAfter[j] == hash(steps[i].dependsOn[j])
    ensures t == Task(hash(steps[i].name), hash(steps[i].name), runAfter, if steps[i].when != Null then Some(hash(steps[i].name)) else None)
  {
    assert HasWhen(steps, steps[i].name) <==> steps[i].when != Null;
  }
}
