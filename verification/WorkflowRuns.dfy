/** Mapping the status of a PipelineRun back to a WorkflowRun, pass after pass (pkg/obj/workflowrun.go). */
module WorkflowRuns {
  import opened Trees
  import opened Workflows
  import opened SkipPropagation

  datatype Reason = ConditionCheckFailed | RunTimedOut | OtherReason

  /** The "Succeeded" condition of a run. */
  datatype Cond = Absent | Unknown | Holds | Fails(reason: Reason) | Odd

  datatype Progress = Progress(cond: Cond, start: Option<int>, completion: Option<int>, podName: string)

  datatype TaskRun = TaskRun(taskName: string, checks: map<string, Option<Progress>>, progress: Option<Progress>)

  datatype PipelineRun = PipelineRun(cond: Cond, start: Option<int>, completion: Option<int>, taskRuns: map<string, TaskRun>)

  function StatusOf(c: Cond): Status {
    match c
    case Absent => Pending
    case Unknown => InProgress
    case Holds => Success
    case Fails(ConditionCheckFailed) => Skipped
    case Fails(RunTimedOut) => TimedOut
    case Fails(OtherReason) => Failure
    case Odd => Pending
  }

  predicate SkipsPending(s: Status) { s == Cancelled || s == Failure || s == TimedOut }

  function SummaryOf(name: string, p: Progress): Summary {
    Summary(name, StatusOf(p.cond), p.start, p.completion, "")
  }

  function StepSummary(name: string, p: Progress, skips: bool): Summary {
    var s := SummaryOf(name, p);
    if s.status == Pending && skips then s.(status := Skipped) else s
  }

  /** Tekton reports at most one TaskRun per task, and at most one check of it has a status. */
  ghost predicate Unambiguous(pr: PipelineRun) {
    && (forall n, n' :: n in pr.taskRuns && n' in pr.taskRuns && pr.taskRuns[n].taskName == pr.taskRuns[n'].taskName ==> n == n')
    && (forall n :: n in pr.taskRuns ==> OneCheck(pr.taskRuns[n]))
  }

  ghost predicate OneCheck(tr: TaskRun) {
    forall c, c' :: c in tr.checks && c' in tr.checks && tr.checks[c].Some? && tr.checks[c'].Some? ==> c == c'
  }

  /** The summary that a TaskRun gives its step, if any. */
  function StepFrom(name: string, tr: TaskRun, skips: bool): Option<Summary> {
    match tr.progress
    case None => None
    case Some(p) => Some(StepSummary(name, p, skips))
  }

  ghost function CheckFrom(name: string, tr: TaskRun): Option<Summary> {
    if exists c :: c in tr.checks && tr.checks[c].Some?
    then var c :| c in tr.checks && tr.checks[c].Some?; Some(SummaryOf(name, tr.checks[c].value))
    else None
  }

  /** The step summary found under a task name, `None` if no TaskRun has it. */
  ghost function FoundStep(pr: PipelineRun, skips: bool, task: string): Option<Summary> {
    if exists n :: n in pr.taskRuns && pr.taskRuns[n].taskName == task
    then var n :| n in pr.taskRuns && pr.taskRuns[n].taskName == task; StepFrom(n, pr.taskRuns[n], skips)
    else None
  }

  ghost function FoundCheck(pr: PipelineRun, task: string): Option<Summary> {
    if exists n :: n in pr.taskRuns && pr.taskRuns[n].taskName == task
    then var n :| n in pr.taskRuns && pr.taskRuns[n].taskName == task; CheckFrom(n, pr.taskRuns[n])
    else None
  }

  function At(m: map<string, Summary>, k: string): Option<Summary> {
    if k in m then Some(m[k]) else None
  }

  /** The first check with a status, in any order. */
  method ReportedCheck(name: string, tr: TaskRun) returns (s: Option<Summary>)
    requires OneCheck(tr)
    ensures s == CheckFrom(name, tr)
  {
    var rest := tr.checks.Keys;
    while rest != {}
      invariant rest <= tr.checks.Keys
      invariant forall c :: c in tr.checks.Keys - rest ==> tr.checks[c].None?
      decreases rest
    {
      var c :| c in rest;
      if tr.checks[c].Some? { return Some(SummaryOf(name, tr.checks[c].value)); }
      rest := rest - {c};
    }
    return None;
  }

  /** `m` holds, by task name, what `from` gives for the TaskRuns in `done`. */
  ghost predicate Indexes(pr: PipelineRun, from: (string, TaskRun) -> Option<Summary>, done: set<string>, m: map<string, Summary>) {
    && done <= pr.taskRuns.Keys
    && (forall n :: n in done ==> At(m, pr.taskRuns[n].taskName) == from(n, pr.taskRuns[n]))
    && (forall k :: k in m ==> exists n :: n in done && pr.taskRuns[n].taskName == k)
  }

  lemma IndexNext(pr: PipelineRun, from: (string, TaskRun) -> Option<Summary>, done: set<string>, m: map<string, Summary>, n: string)
    requires Unambiguous(pr) && Indexes(pr, from, done, m) && n in pr.taskRuns && n !in done
    ensures
      var tr := pr.taskRuns[n];
      Indexes(pr, from, done + {n}, match from(n, tr) case None => m case Some(s) => m[tr.taskName := s])
  {
    var tr := pr.taskRuns[n];
    assert tr.taskName !in m;
    var m' := match from(n, tr) case None => m case Some(s) => m[tr.taskName := s];
    forall k | k in m' ensures exists n' :: n' in done + {n} && pr.taskRuns[n'].taskName == k {
      if k in m {
        var n' :| n' in done && pr.taskRuns[n'].taskName == k;
        assert n' in done + {n};
      } else {
        assert n in done + {n} && pr.taskRuns[n].taskName == k;
      }
    }
  }

  method StatusSummaries(pr: PipelineRun, skips: bool) returns (steps: map<string, Summary>, checks: map<string, Summary>)
    requires Unambiguous(pr)
    ensures forall task :: At(steps, task) == FoundStep(pr, skips, task)
    ensures forall task :: At(checks, task) == FoundCheck(pr, task)
  {
    steps, checks := map[], map[];
    ghost var stepFrom := (n, tr) => StepFrom(n, tr, skips);
    ghost var checkFrom := (n, tr) => CheckFrom(n, tr);
    var rest := pr.taskRuns.Keys;
    ghost var done: set<string> := {};
    while rest != {}
      invariant rest <= pr.taskRuns.Keys && done == pr.taskRuns.Keys - rest
      invariant Indexes(pr, stepFrom, done, steps)
      invariant Indexes(pr, checkFrom, done, checks)
      decreases rest
    {
      var n :| n in rest;
      var tr := pr.taskRuns[n];
      IndexNext(pr, stepFrom, done, steps, n);
      IndexNext(pr, checkFrom, done, checks, n);
      hide Indexes, CheckFrom, Unambiguous;
      var check := ReportedCheck(n, tr);
      if check.Some? { checks := checks[tr.taskName := check.value]; }
      var step := StepFrom(n, tr, skips);
      if step.Some? { steps := steps[tr.taskName := step.value]; }
      rest, done := rest - {n}, done + {n};
    }
  }

  /** The part of a WorkflowRun that the controller writes. */
  datatype RunStatus = RunStatus(
    status: Status, start: Option<int>, completion: Option<int>,
    steps: map<string, Summary>, conditions: map<string, Summary>)

  function Names(steps: seq<WorkflowStep>): set<string> {
    set i | 0 <= i < |steps| :: steps[i].name
  }

  function LogKeyOf(m: map<string, Summary>, n: string): string {
    if n in m then m[n].logKey else ""
  }

  /** A step's new entry: what its TaskRun says, or pending, with the log record it already had. */
  function Entry(found: Option<Summary>, logKey: string): Summary {
    var s := found.GetOr(Summary("", Pending, None, None, ""));
    if logKey != "" then s.(logKey := logKey) else s
  }

  ghost function Recorded(steps: seq<WorkflowStep>, hash: string -> string, pr: PipelineRun, skips: bool, old': map<string, Summary>)
    : map<string, Summary>
  {
    map n | n in old'.Keys + Names(steps) ::
      if n in Names(steps) then Entry(FoundStep(pr, skips, hash(n)), LogKeyOf(old', n)) else old'[n]
  }

  ghost function Checked(steps: seq<WorkflowStep>, hash: string -> string, pr: PipelineRun, old': map<string, Summary>): map<string, Summary> {
    map n | n in old'.Keys + (set n | n in Names(steps) && FoundCheck(pr, hash(n)).Some?) ::
      if n in Names(steps) && FoundCheck(pr, hash(n)).Some? then FoundCheck(pr, hash(n)).value else old'[n]
  }

  function Overall(cancelled: bool, pr: PipelineRun): Status {
    if cancelled then Cancelled else StatusOf(pr.cond)
  }

  ghost function Configured(steps: seq<WorkflowStep>, hash: string -> string, cancelled: bool, pr: PipelineRun, s: RunStatus): RunStatus {
    var overall := Overall(cancelled, pr);
    RunStatus(
      overall,
      if pr.start.Some? then pr.start else s.start,
      if pr.completion.Some? then pr.completion else s.completion,
      Propagated(steps, Recorded(steps, hash, pr, SkipsPending(overall), s.steps)),
      Checked(steps, hash, pr, s.conditions))
  }

  class WorkflowRun {
    const spec: seq<WorkflowStep>
    var cancelled: bool
    var status: RunStatus

    constructor (spec: seq<WorkflowStep>, cancelled: bool, status: RunStatus)
      ensures this.spec == spec && this.cancelled == cancelled && this.status == status
    {
      this.spec, this.cancelled, this.status := spec, cancelled, status;
    }
  }

  method ConfigureWorkflowRun(wr: WorkflowRun, hash: string -> string, pr: PipelineRun, order: seq<string>)
    requires Unambiguous(pr) && Topological(wr.spec, order)
    modifies wr`status
    ensures wr.status == Configured(wr.spec, hash, wr.cancelled, pr, old(wr.status))
  {
    var overall := Overall(wr.cancelled, pr);
    wr.status := wr.status.(status := overall);
    if pr.start.Some? { wr.status := wr.status.(start := pr.start); }
    if pr.completion.Some? { wr.status := wr.status.(completion := pr.completion); }
    var steps, checks := StatusSummaries(pr, SkipsPending(overall));
    var entries := RecordSteps(wr.spec, hash, pr, SkipsPending(overall), steps, wr.status.steps);
    var conditions := RecordChecks(wr.spec, hash, pr, checks, wr.status.conditions);
    var marked := MarkSkipped(wr.spec, order, entries);
    wr.status := wr.status.(steps := marked, conditions := conditions);
  }

  method RecordSteps(spec: seq<WorkflowStep>, hash: string -> string, ghost pr: PipelineRun, skips: bool,
                     found: map<string, Summary>, m: map<string, Summary>) returns (r: map<string, Summary>)
    requires forall task :: At(found, task) == FoundStep(pr, skips, task)
    ensures r == Recorded(spec, hash, pr, skips, m)
  {
    r := m;
    for i := 0 to |spec|
      invariant r == Recorded(spec[..i], hash, pr, skips, m)
    {
      var n := spec[i].name;
      RecordNext(spec, i, hash, pr, skips, m);
      hide Recorded;
      r := r[n := Entry(At(found, hash(n)), LogKeyOf(r, n))];
    }
    assert spec[..|spec|] == spec;
  }

  lemma RecordNext(spec: seq<WorkflowStep>, i: nat, hash: string -> string, pr: PipelineRun, skips: bool, m: map<string, Summary>)
    requires i < |spec|
    ensures
      var r, n := Recorded(spec[..i], hash, pr, skips, m), spec[i].name;
      Recorded(spec[..i + 1], hash, pr, skips, m) == r[n := Entry(FoundStep(pr, skips, hash(n)), LogKeyOf(r, n))]
  {
    NamesNext(spec, i);
    hide Names, FoundStep;
  }

  lemma NamesNext(spec: seq<WorkflowStep>, i: nat)
    requires i < |spec|
    ensures Names(spec[..i + 1]) == Names(spec[..i]) + {spec[i].name}
  {
    forall n ensures n in Names(spec[..i + 1]) <==> n in Names(spec[..i]) + {spec[i].name} {
      if n in Names(spec[..i]) {
        var j :| 0 <= j < i && spec[..i][j].name == n;
        assert spec[..i + 1][j].name == n;
      }
      if n == spec[i].name { assert spec[..i + 1][i].name == n; }
    }
  }

  method RecordChecks(spec: seq<WorkflowStep>, hash: string -> string, ghost pr: PipelineRun,
                      found: map<string, Summary>, m: map<string, Summary>) returns (r: map<string, Summary>)
    requires forall task :: At(found, task) == FoundCheck(pr, task)
    ensures r == Checked(spec, hash, pr, m)
  {
    r := m;
    for i := 0 to |spec|
      invariant r == Checked(spec[..i], hash, pr, m)
    {
      var n := spec[i].name;
      CheckNext(spec, i, hash, pr, m);
      hide Checked;
      var found' := At(found, hash(n));
      if found'.Some? { r := r[n := found'.value]; }
    }
    assert spec[..|spec|] == spec;
  }

  lemma CheckNext(spec: seq<WorkflowStep>, i: nat, hash: string -> string, pr: PipelineRun, m: map<string, Summary>)
    requires i < |spec|
    ensures
      var r, n := Checked(spec[..i], hash, pr, m), spec[i].name;
      Checked(spec[..i + 1], hash, pr, m) == match FoundCheck(pr, hash(n)) case None => r case Some(s) => r[n := s]
  {
    NamesNext(spec, i);
    hide Names, FoundCheck;
  }

  lemma DoomedIsAStep(spec: seq<WorkflowStep>, m: map<string, Summary>, n: string)
    requires Doomed(spec, m, n)
    ensures n in Names(spec)
  {
    DoomedUnfolds(spec, m, n);
    var p :| p in DepsOf(spec, n);
    var i :| 0 <= i < |spec| && spec[i].name == n;
  }

  /** Propagation touches only statuses, and only those of steps. */
  lemma PropagationIsMild(spec: seq<WorkflowStep>, r: map<string, Summary>)
    ensures
      var p := Propagated(spec, r);
      && p.Keys == r.Keys
      && (forall n :: n in r ==> p[n].logKey == r[n].logKey && (n !in Names(spec) ==> p[n] == r[n]))
  {
    forall n | n in r && Doomed(spec, r, n) { DoomedIsAStep(spec, r, n); }
  }

  lemma RecordingAgain(spec: seq<WorkflowStep>, hash: string -> string, pr: PipelineRun, skips: bool,
                       m: map<string, Summary>, p: map<string, Summary>)
    requires
      var r := Recorded(spec, hash, pr, skips, m);
      && p.Keys == r.Keys
      && (forall n :: n in r ==> p[n].logKey == r[n].logKey && (n !in Names(spec) ==> p[n] == r[n]))
    ensures Recorded(spec, hash, pr, skips, p) == Recorded(spec, hash, pr, skips, m)
  {
    hide Names, FoundStep;
    var r, again := Recorded(spec, hash, pr, skips, m), Recorded(spec, hash, pr, skips, p);
    assert again.Keys == r.Keys;
    forall n | n in r ensures again[n] == r[n] {}
  }

  lemma CheckingAgain(spec: seq<WorkflowStep>, hash: string -> string, pr: PipelineRun, m: map<string, Summary>)
    ensures Checked(spec, hash, pr, Checked(spec, hash, pr, m)) == Checked(spec, hash, pr, m)
  {
    hide Names, FoundCheck;
  }

  /** Configuring again from the same PipelineRun changes nothing. */
  lemma ConfiguringIsIdempotent(spec: seq<WorkflowStep>, hash: string -> string, cancelled: bool, pr: PipelineRun, s: RunStatus)
    ensures
      var s' := Configured(spec, hash, cancelled, pr, s);
      Configured(spec, hash, cancelled, pr, s') == s'
  {
    hide Recorded, Checked, Propagated, Names;
    var r := Recorded(spec, hash, pr, SkipsPending(Overall(cancelled, pr)), s.steps);
    PropagationIsMild(spec, r);
    RecordingAgain(spec, hash, pr, SkipsPending(Overall(cancelled, pr)), s.steps, Propagated(spec, r));
    CheckingAgain(spec, hash, pr, s.conditions);
  }

  /** The pods of finished TaskRuns, by TaskRun name. */
  function PodNames(pr: PipelineRun): map<string, string> {
    map n | n in pr.taskRuns && pr.taskRuns[n].progress.Some?
            && !pr.taskRuns[n].progress.value.cond.Absent? && !pr.taskRuns[n].progress.value.cond.Unknown?
      :: pr.taskRuns[n].progress.value.podName
  }

  /** `upload` gives the storage key of a pod's log, or "" if the upload failed. */
  function Uploaded(pods: map<string, string>, upload: string -> string, m: map<string, Summary>): map<string, Summary> {
    map n | n in m ::
      if m[n].logKey == "" && m[n].name in pods then m[n].(logKey := upload(pods[m[n].name])) else m[n]
  }

  method UploadLogs(wr: WorkflowRun, pr: PipelineRun, upload: string -> string)
    modifies wr`status
    ensures wr.status == old(wr.status).(steps := Uploaded(PodNames(pr), upload, old(wr.status).steps))
  {
    var pods, m := PodNames(pr), wr.status.steps;
    var rest := m.Keys;
    while rest != {}
      invariant rest <= m.Keys && wr.status.steps.Keys == m.Keys
      invariant wr.status == old(wr.status).(steps := wr.status.steps)
      invariant forall n :: n in rest ==> wr.status.steps[n] == m[n]
      invariant forall n :: n in m.Keys - rest ==> wr.status.steps[n] == Uploaded(pods, upload, m)[n]
      decreases rest
    {
      var n :| n in rest;
      var step := wr.status.steps[n];
      if step.logKey == "" && step.name in pods {
        var logKey := upload(pods[step.name]);
        wr.status := wr.status.(steps := wr.status.steps[n := step.(logKey := logKey)]);
      }
      rest := rest - {n};
    }
  }

  /** One reconcile pass: logs first, then status. */
  datatype Pass = Pass(pr: PipelineRun, upload: string -> string, cancelled: bool)

  ghost function AfterPass(spec: seq<WorkflowStep>, hash: string -> string, p: Pass, s: RunStatus): RunStatus {
    Configured(spec, hash, p.cancelled, p.pr, s.(steps := Uploaded(PodNames(p.pr), p.upload, s.steps)))
  }

  ghost function AfterPasses(spec: seq<WorkflowStep>, hash: string -> string, passes: seq<Pass>, s: RunStatus): RunStatus
    decreases |passes|
  {
    if passes == [] then s else AfterPasses(spec, hash, passes[1..], AfterPass(spec, hash, passes[0], s))
  }

  lemma LogKeyKept(spec: seq<WorkflowStep>, hash: string -> string, p: Pass, s: RunStatus, n: string)
    ensures LogKeyOf(s.steps, n) != "" ==> LogKeyOf(AfterPass(spec, hash, p, s).steps, n) == LogKeyOf(s.steps, n)
  {
    hide FoundStep, Doomed, Checked;
    var up := Uploaded(PodNames(p.pr), p.upload, s.steps);
    var rec := Recorded(spec, hash, p.pr, SkipsPending(Overall(p.cancelled, p.pr)), up);
    if LogKeyOf(s.steps, n) != "" {
      assert LogKeyOf(up, n) == LogKeyOf(s.steps, n);
      assert LogKeyOf(rec, n) == LogKeyOf(up, n);
    }
  }

  /** Whatever the PipelineRun reports over any number of passes, a recorded log key stays. */
  lemma {:induction false} LogKeysNeverChange(spec: seq<WorkflowStep>, hash: string -> string, passes: seq<Pass>, s: RunStatus, n: string)
    ensures LogKeyOf(s.steps, n) != "" ==> LogKeyOf(AfterPasses(spec, hash, passes, s).steps, n) == LogKeyOf(s.steps, n)
    decreases |passes|
  {
    if passes != [] {
      LogKeyKept(spec, hash, passes[0], s, n);
      LogKeysNeverChange(spec, hash, passes[1..], AfterPass(spec, hash, passes[0], s), n);
    }
  }

  /** The status that a TaskRun's or PipelineRun's "Succeeded" condition stands for. */
  lemma StatusMeans(c: Cond)
    ensures StatusOf(c) ==
      if c == Holds then Success
      else if c == Unknown then InProgress
      else if c == Fails(ConditionCheckFailed) then Skipped
      else if c == Fails(RunTimedOut) then TimedOut
      else if c == Fails(OtherReason) then Failure
      else Pending
  {
  }

  /** The run's own status and times: cancelled if it was, else what the PipelineRun says; times are only ever replaced. */
  lemma RunStatusMeans(spec: seq<WorkflowStep>, hash: string -> string, cancelled: bool, pr: PipelineRun, s: RunStatus)
    ensures
      var r := Configured(spec, hash, cancelled, pr, s);
      && r.status == (if cancelled then Cancelled else StatusOf(pr.cond))
      && r.start == (if pr.start.Some? then pr.start else s.start)
      && r.completion == (if pr.completion.Some? then pr.completion else s.completion)
  {
  }

  /**
   * A step whose TaskRun reports progress is summarised by it: name, times, and the status of its condition, where a
   * pending one is skipped if the run is over. What the log record was stays.
   */
  lemma StepReports(spec: seq<WorkflowStep>, hash: string -> string, cancelled: bool, pr: PipelineRun, s: RunStatus, i: nat, n: string)
    requires i < |spec| && Unambiguous(pr) && n in pr.taskRuns && pr.taskRuns[n].taskName == hash(spec[i].name)
    requires pr.taskRuns[n].progress.Some?
    ensures
      var p, r := pr.taskRuns[n].progress.value, Configured(spec, hash, cancelled, pr, s);
      var over := r.status == Cancelled || r.status == Failure || r.status == TimedOut;
      && spec[i].name in r.steps
      && var e := r.steps[spec[i].name];
         && e.name == n && e.start == p.start && e.completion == p.completion
         && (StatusOf(p.cond) != Pending ==> e.status == StatusOf(p.cond))
         && (StatusOf(p.cond) == Pending && over ==> e.status == Skipped)
         && (StatusOf(p.cond) == Pending && !over ==> e.status == Pending || e.status == Skipped)
         && e.logKey == LogKeyOf(s.steps, spec[i].name)
  {
    var name := spec[i].name;
    assert name in Names(spec);
    FoundIs(pr, SkipsPending(Overall(cancelled, pr)), hash(name), n);
    var rec := Recorded(spec, hash, pr, SkipsPending(Overall(cancelled, pr)), s.steps);
    hide FoundStep, Names, Checked;
    assert rec[name] == Entry(StepFrom(n, pr.taskRuns[n], SkipsPending(Overall(cancelled, pr))), LogKeyOf(s.steps, name));
    SkippedIff(spec, rec, name);
    hide Recorded, Propagated;
  }

  lemma FoundIs(pr: PipelineRun, skips: bool, task: string, n: string)
    requires Unambiguous(pr) && n in pr.taskRuns && pr.taskRuns[n].taskName == task
    ensures FoundStep(pr, skips, task) == StepFrom(n, pr.taskRuns[n], skips)
  {
  }

  /** A step without a TaskRun waits, or is skipped because of its dependencies; only its log record is kept. */
  lemma StepWaits(spec: seq<WorkflowStep>, hash: string -> string, cancelled: bool, pr: PipelineRun, s: RunStatus, i: nat)
    requires i < |spec| && forall n :: n in pr.taskRuns ==> pr.taskRuns[n].taskName != hash(spec[i].name)
    ensures
      var r, name := Configured(spec, hash, cancelled, pr, s), spec[i].name;
      && name in r.steps
      && var stopped := exists p :: DependsOn(spec, name, p) && StoppedAt(r.steps, p);
         r.steps[name] == Summary("", if stopped then Skipped else Pending, None, None, LogKeyOf(s.steps, name))
  {
    var name := spec[i].name;
    assert name in Names(spec);
    assert FoundStep(pr, SkipsPending(Overall(cancelled, pr)), hash(name)) == None;
    var rec := Recorded(spec, hash, pr, SkipsPending(Overall(cancelled, pr)), s.steps);
    hide FoundStep, Names, Checked;
    assert rec[name] == Entry(None, LogKeyOf(s.steps, name));
    SkippedIff(spec, rec, name);
    hide Recorded, Propagated;
  }

  /** A condition's entry is that of the check that its TaskRun reports; otherwise it is as it was. */
  lemma CheckReports(spec: seq<WorkflowStep>, hash: string -> string, cancelled: bool, pr: PipelineRun, s: RunStatus, i: nat, n: string, c: string)
    requires i < |spec| && Unambiguous(pr) && n in pr.taskRuns && pr.taskRuns[n].taskName == hash(spec[i].name)
    ensures
      var r, name, checks := Configured(spec, hash, cancelled, pr, s), spec[i].name, pr.taskRuns[n].checks;
      && (c in checks && checks[c].Some? ==>
            name in r.conditions
            && r.conditions[name] == Summary(n, StatusOf(checks[c].value.cond), checks[c].value.start, checks[c].value.completion, ""))
      && ((forall c' :: c' in checks ==> checks[c'].None?) ==> At(r.conditions, name) == At(s.conditions, name))
  {
    var name, tr := spec[i].name, pr.taskRuns[n];
    assert name in Names(spec);
    assert FoundCheck(pr, hash(name)) == CheckFrom(n, tr);
    assert OneCheck(tr);
    hide FoundCheck, Names, Recorded, Propagated;
  }

  /** Exactly the entries without a log record whose TaskRun has ended get one, for the TaskRun's pod. */
  lemma UploadMeans(pr: PipelineRun, upload: string -> string, m: map<string, Summary>, n: string)
    requires n in m
    ensures
      var ended := m[n].name in pr.taskRuns && pr.taskRuns[m[n].name].progress.Some?
        && pr.taskRuns[m[n].name].progress.value.cond != Absent && pr.taskRuns[m[n].name].progress.value.cond != Unknown;
      Uploaded(PodNames(pr), upload, m)[n] ==
        if m[n].logKey == "" && ended then m[n].(logKey := upload(pr.taskRuns[m[n].name].progress.value.podName)) else m[n]
  {
  }

  /** Entries that belong to no step stay as they are, and there are no others than these and the steps'. */
  lemma OthersStay(spec: seq<WorkflowStep>, hash: string -> string, cancelled: bool, pr: PipelineRun, s: RunStatus, n: string)
    requires forall i :: 0 <= i < |spec| ==> spec[i].name != n
    ensures
      var r := Configured(spec, hash, cancelled, pr, s);
      At(r.steps, n) == At(s.steps, n) && At(r.conditions, n) == At(s.conditions, n)
  {
    assert n !in Names(spec);
    var rec := Recorded(spec, hash, pr, SkipsPending(Overall(cancelled, pr)), s.steps);
    PropagationIsMild(spec, rec);
    hide Names, FoundStep, FoundCheck, Doomed;
  }
}
