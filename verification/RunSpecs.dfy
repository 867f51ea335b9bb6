/**
 * The first stage of evaluation: the operator writes a run's parameters and its steps' evaluated specs,
 * environments and conditions into the run's immutable ConfigMap (pkg/obj/configmap.go).
 */
module RunSpecs {
  import opened Trees
  import opened Workflows
  import opened Semantics
  import opened Staging
  import opened Serialize
  import opened Transfer
  import opened Rereading
  import opened Conditions
  import opened ConfigMaps
  import opened Managers

  datatype Workflow = Workflow(parameters: map<string, Tree>, steps: seq<WorkflowStep>)

  /** `Crashed` is a failed type assertion: a spec or a variable that does not evaluate to an object. */
  datatype Status = Configured | UserError | Crashed

  /** A ConfigMap held in memory; every mutation overwrites it. */
  class LocalConfigMap {
    var data: Data

    constructor (data: Data)
      ensures this.data == data
    {
      this.data := data;
    }

    method Set(hash: Owner -> string, ghost owners: set<Owner>, c: Codec, slot: Slot, value: Tree)
      requires HashesDiffer(hash, owners) && InPlay(owners, slot)
      modifies this
      ensures forall s :: InPlay(owners, s) ==>
        GetFrom(hash, c, data, s) == if s == slot then ReadingOf(c, Some(value)) else GetFrom(hash, c, old(data), s)
    {
      forall s | InPlay(owners, s) { GetAfterSet(hash, owners, c, data, Put(slot, value), s); }
      hide GetFrom, KeyOf, ReadingOf;
      data := SetIn(hash, c, Put(slot, value), data);
    }
  }

  // ---- what becomes of a step ----

  predicate GivesObject(o: Outcome) { o.Ok? && o.value.Obj? }

  predicate GivesOther(o: Outcome) { o.Ok? && !o.value.Obj? }

  predicate SpecFine(env: Env, step: WorkflowStep) { step.spec != map[] ==> GivesObject(Full(env, Obj(step.spec))) }

  predicate VarsFine(env: Env, vars: map<string, Tree>) { forall k :: k in vars ==> GivesObject(Full(env, vars[k])) }

  predicate Acceptable(env: Env, step: WorkflowStep) {
    SpecFine(env, step) && VarsFine(env, step.env) && Full(env, step.when).Ok?
  }

  /** Some order of the step's variables leads to a failed type assertion. */
  predicate MayCrash(env: Env, step: WorkflowStep) {
    || (step.spec != map[] && GivesOther(Full(env, Obj(step.spec))))
    || (SpecFine(env, step) && exists k :: k in step.env && GivesOther(Full(env, step.env[k])))
  }

  /** Some order of the step's variables leads to an evaluation error. */
  predicate MayFail(env: Env, step: WorkflowStep) {
    || (step.spec != map[] && Full(env, Obj(step.spec)).Err?)
    || (SpecFine(env, step) && exists k :: k in step.env && Full(env, step.env[k]).Err?)
    || (SpecFine(env, step) && VarsFine(env, step.env) && Full(env, step.when).Err?)
  }

  lemma AcceptableIff(env: Env, step: WorkflowStep)
    ensures Acceptable(env, step) <==> !MayCrash(env, step) && !MayFail(env, step)
  {
    hide Eval;
    if VarsFine(env, step.env) {
      assert forall k :: k in step.env ==> !GivesOther(Full(env, step.env[k])) && !Full(env, step.env[k]).Err?;
    } else {
      var k :| k in step.env && !GivesObject(Full(env, step.env[k]));
      assert GivesOther(Full(env, step.env[k])) || Full(env, step.env[k]).Err?;
    }
  }

  /** The step at which a workflow that cannot be configured stops. */
  predicate FirstBad(env: Env, steps: seq<WorkflowStep>, i: nat) {
    i < |steps| && !Acceptable(env, steps[i]) && forall j :: 0 <= j < i ==> Acceptable(env, steps[j])
  }

  /** A variable given as plain text is enough. */
  lemma PlainVariableCrashes(env: Env, name: string, text: string)
    ensures var step := WorkflowStep(name, map[], map["GREETING" := Str(text)], Null, []);
      MayCrash(env, step) && !MayFail(env, step)
  {
    var step := WorkflowStep(name, map[], map["GREETING" := Str(text)], Null, []);
    assert Full(env, step.env["GREETING"]) == Ok(Str(text), {}) && Full(env, step.when) == Ok(Null, {});
    hide Eval;
    assert "GREETING" in step.env && GivesOther(Full(env, step.env["GREETING"]));
  }

  // ---- what the slots hold afterwards ----

  function EvaluatedVars(env: Env, vars: map<string, Tree>): map<string, Tree> {
    map k | k in vars :: Full(env, vars[k]).Value()
  }

  /** What a step puts into a slot, if anything. */
  function StepPuts(env: Env, run: string, step: WorkflowStep, s: Slot): Option<Tree> {
    if s.ParameterSlot? || s.owner != StepOf(run, step.name) then None
    else match s
      case SpecSlot(_) => if step.spec == map[] then None else Some(Full(env, Obj(step.spec)).Value())
      case EnvironmentSlot(_) => Some(Obj(EvaluatedVars(env, step.env)))
      case ConditionSlot(_) => if step.when == Null then None else Some(Full(env, step.when).Value())
      case _ => None
  }

  /** The run's own parameters take precedence over the workflow's defaults. */
  function ParameterPuts(w: Workflow, given: map<string, Tree>, s: Slot): Option<Tree> {
    if !s.ParameterSlot? then None
    else if s.name in given then Some(given[s.name])
    else if s.name in w.parameters then Some(w.parameters[s.name])
    else None
  }

  function After(c: Codec, put: Option<Tree>, before: Reading): Reading {
    if put.None? then before else ReadingOf(c, put)
  }

  function AfterSteps(c: Codec, env: Env, run: string, steps: seq<WorkflowStep>, s: Slot, before: Reading): Reading {
    if steps == [] then before
    else After(c, StepPuts(env, run, steps[|steps| - 1], s), AfterSteps(c, env, run, steps[..|steps| - 1], s, before))
  }

  /** What a slot holds once the parameters and the first `n` steps have been written. */
  function Expected(c: Codec, env: Env, run: string, w: Workflow, given: map<string, Tree>, n: nat, s: Slot, before: Reading): Reading
    requires n <= |w.steps|
  {
    AfterSteps(c, env, run, w.steps[..n], s, After(c, ParameterPuts(w, given, s), before))
  }

  function Written(params: map<string, Tree>, done: set<string>, s: Slot): Option<Tree>
    requires done <= params.Keys
  {
    if s.ParameterSlot? && s.name in done then Some(params[s.name]) else None
  }

  method WriteParameters(cm: LocalConfigMap, hash: Owner -> string, ghost owners: set<Owner>, c: Codec, w: Workflow, given: map<string, Tree>)
    requires HashesDiffer(hash, owners)
    modifies cm
    ensures forall s :: InPlay(owners, s) ==>
      GetFrom(hash, c, cm.data, s) == After(c, ParameterPuts(w, given, s), GetFrom(hash, c, old(cm.data), s))
  {
    hide GetFrom, HashesDiffer, ReadingOf;
    var params, names := w.parameters, given.Keys;
    while names != {}
      invariant names <= given.Keys && params.Keys == w.parameters.Keys + (given.Keys - names)
      invariant forall k :: k in params ==> params[k] == if k in given && k !in names then given[k] else w.parameters[k]
      decreases names
    {
      var name :| name in names;
      params := params[name := given[name]];
      names := names - {name};
    }
    var todo := params.Keys;
    while todo != {}
      invariant todo <= params.Keys
      invariant forall s :: InPlay(owners, s) ==>
        GetFrom(hash, c, cm.data, s) == After(c, Written(params, params.Keys - todo, s), GetFrom(hash, c, old(cm.data), s))
      decreases todo
    {
      var name :| name in todo;
      cm.Set(hash, owners, c, ParameterSlot(name), params[name]);
      todo := todo - {name};
    }
  }

  /** The loop over a step's variables. */
  method EvaluateVars(env: Env, vars: map<string, Tree>) returns (status: Status, out: map<string, Tree>)
    ensures status == Configured <==> VarsFine(env, vars)
    ensures status == Configured ==> out == EvaluatedVars(env, vars)
    ensures status == Crashed ==> exists k :: k in vars && GivesOther(Full(env, vars[k]))
    ensures status == UserError ==> exists k :: k in vars && Full(env, vars[k]).Err?
  {
    hide Eval;
    out := map[];
    var todo := vars.Keys;
    while todo != {}
      invariant todo <= vars.Keys && out.Keys == vars.Keys - todo
      invariant forall k :: k in out ==> GivesObject(Full(env, vars[k])) && out[k] == Full(env, vars[k]).value
      decreases todo
    {
      var name :| name in todo;
      var r := Eval(env, vars[name], -1);
      if r.Err? {
        assert name in vars && Full(env, vars[name]).Err?;
        return UserError, out;
      }
      if !r.value.Obj? {
        assert name in vars && GivesOther(Full(env, vars[name]));
        return Crashed, out;
      }
      out := out[name := r.value];
      todo := todo - {name};
    }
    status := Configured;
  }

  method WriteStep(cm: LocalConfigMap, hash: Owner -> string, ghost owners: set<Owner>, c: Codec, env: Env, run: string, step: WorkflowStep)
    returns (status: Status)
    requires HashesDiffer(hash, owners) && StepOf(run, step.name) in owners
    modifies cm
    ensures status == Configured <==> Acceptable(env, step)
    ensures (status == Crashed ==> MayCrash(env, step)) && (status == UserError ==> MayFail(env, step))
    ensures status == Configured ==> forall s :: InPlay(owners, s) ==>
      GetFrom(hash, c, cm.data, s) == After(c, StepPuts(env, run, step, s), GetFrom(hash, c, old(cm.data), s))
  {
    assert Full(env, Null) == Ok(Null, {});
    hide Eval, GetFrom, HashesDiffer, ReadingOf;
    var owner := StepOf(run, step.name);
    if step.spec != map[] {
      var r := Eval(env, Obj(step.spec), -1);
      if r.Err? { return UserError; }
      if !r.value.Obj? { return Crashed; }
      cm.Set(hash, owners, c, SpecSlot(owner), r.value);
    }
    var vars;
    status, vars := EvaluateVars(env, step.env);
    if status != Configured { return; }
    cm.Set(hash, owners, c, EnvironmentSlot(owner), Obj(vars));
    if step.when != Null {
      var r := Eval(env, step.when, -1);
      if r.Err? { return UserError; }
      cm.Set(hash, owners, c, ConditionSlot(owner), r.value);
    }
  }

  predicate AllAcceptable(env: Env, steps: seq<WorkflowStep>) { forall i :: 0 <= i < |steps| ==> Acceptable(env, steps[i]) }

  /**
   * It succeeds exactly if every step is acceptable. Otherwise the first step that is not decides: it crashes
   * exactly if that step may, and fails exactly if that step may, unless the order of the variables decides.
   */
  method ConfigureImmutable(
      cm: LocalConfigMap, hash: Owner -> string, ghost owners: set<Owner>, c: Codec, env: Env, run: string, w: Workflow, given: map<string, Tree>)
    returns (status: Status, ghost bad: nat)
    requires HashesDiffer(hash, owners) && forall i :: 0 <= i < |w.steps| ==> StepOf(run, w.steps[i].name) in owners
    modifies cm
    ensures status == Configured <==> AllAcceptable(env, w.steps)
    ensures status != Configured ==> FirstBad(env, w.steps, bad)
    ensures status == Crashed ==> MayCrash(env, w.steps[bad])
    ensures status == UserError ==> MayFail(env, w.steps[bad])
    ensures status == Configured ==> forall s :: InPlay(owners, s) ==>
      GetFrom(hash, c, cm.data, s) == Expected(c, env, run, w, given, |w.steps|, s, GetFrom(hash, c, old(cm.data), s))
  {
    hide GetFrom, HashesDiffer, ParameterPuts, Acceptable, StepPuts, MayCrash, MayFail;
    bad := 0;
    WriteParameters(cm, hash, owners, c, w, given);
    for i := 0 to |w.steps|
      invariant forall j :: 0 <= j < i ==> Acceptable(env, w.steps[j])
      invariant forall s :: InPlay(owners, s) ==>
        GetFrom(hash, c, cm.data, s) == Expected(c, env, run, w, given, i, s, GetFrom(hash, c, old(cm.data), s))
    {
      status := WriteStep(cm, hash, owners, c, env, run, w.steps[i]);
      bad := i;
      if status != Configured { return; }
      assert w.steps[..i + 1][..i] == w.steps[..i];
    }
    status := Configured;
  }

  /** A workflow stops at one step only, and crashes there exactly if that step may and cannot also fail. */
  lemma CrashIff(env: Env, steps: seq<WorkflowStep>, status: Status, bad: nat, i: nat)
    requires FirstBad(env, steps, bad) && status != Configured
    requires (status == Crashed ==> MayCrash(env, steps[bad])) && (status == UserError ==> MayFail(env, steps[bad]))
    requires FirstBad(env, steps, i)
    ensures i == bad && (MayCrash(env, steps[i]) || MayFail(env, steps[i]))
    ensures !(MayCrash(env, steps[i]) && MayFail(env, steps[i])) ==> (status == Crashed <==> MayCrash(env, steps[i]))
  {
    hide Eval, Acceptable, MayCrash, MayFail;
    AcceptableIff(env, steps[i]);
  }

  // ---- what the metadata API makes of it later ----

  predicate DistinctSteps(steps: seq<WorkflowStep>) { forall i, j :: 0 <= i < j < |steps| ==> steps[i].name != steps[j].name }

  /** With distinct step names, each step's slots hold what that step wrote. */
  lemma {:induction false} StepWroteItsSlots(c: Codec, env: Env, run: string, steps: seq<WorkflowStep>, i: nat, s: Slot, before: Reading)
    requires DistinctSteps(steps) && i < |steps| && !s.ParameterSlot? && s.owner == StepOf(run, steps[i].name)
    ensures AfterSteps(c, env, run, steps, s, before) == After(c, StepPuts(env, run, steps[i], s), before)
  {
    var rest := steps[..|steps| - 1];
    hide ReadingOf;
    if i < |rest| {
      StepWroteItsSlots(c, env, run, rest, i, s, before);
    } else {
      OthersLeaveSlots(c, env, run, rest, s, before);
    }
  }

  lemma {:induction false} OthersLeaveSlots(c: Codec, env: Env, run: string, steps: seq<WorkflowStep>, s: Slot, before: Reading)
    requires s.ParameterSlot? || forall j :: 0 <= j < |steps| ==> s.owner != StepOf(run, steps[j].name)
    ensures AfterSteps(c, env, run, steps, s, before) == before
  {
    if steps != [] { OthersLeaveSlots(c, env, run, steps[..|steps| - 1], s, before); }
  }

  /** The slot of a step after everything was written into an empty map. */
  function Stored(c: Codec, env: Env, run: string, w: Workflow, given: map<string, Tree>, s: Slot): Reading {
    Expected(c, env, run, w, given, |w.steps|, s, NotSet)
  }

  /** A value that was written reads back as it is exactly if nothing in it looks encoded. */
  lemma ReadsBack(c: Codec, v: Tree)
    requires Lawful(c) && JsonShaped(c.mp, v)
    ensures ReadingOf(c, Some(v)) == Holds(v) <==> !HasEncoded(c.mp, v)
  {
    hide ReadBack, HasEncoded, Lawful, JsonShaped;
    RoundTripIff(c, v);
  }

  /**
   * What was stored for the spec of step `i`: the evaluated spec through the codec. Finished later, in an
   * environment that knows more, the evaluated spec agrees with the workflow's own.
   */
  lemma StoredSpecMeansTheSpec(c: Codec, env: Env, later: Env, run: string, w: Workflow, given: map<string, Tree>, i: nat)
    requires Extends(env, later) && DistinctSteps(w.steps) && i < |w.steps| && Acceptable(env, w.steps[i]) && w.steps[i].spec != map[]
    requires DataEnv(later, Obj(w.steps[i].spec))
    ensures
      var spec := Obj(w.steps[i].spec);
      var v := Full(env, spec).value;
      var stored := Stored(c, env, run, w, given, SpecSlot(StepOf(run, w.steps[i].name)));
      && stored == ReadingOf(c, Some(v))
      && (Lawful(c) && JsonShaped(c.mp, v) ==> (stored == Holds(v) <==> !HasEncoded(c.mp, v)))
      && Agree(Full(later, v), Full(later, spec), NoStaleCall(IDENTITY, env, later, spec, -1))
  {
    hide Eval, NoStaleCall, ReadingOf, Lawful, JsonShaped, HasEncoded, DataEnv;
    assert w.steps[..|w.steps|] == w.steps;
    var spec := Obj(w.steps[i].spec);
    StepWroteItsSlots(c, env, run, w.steps, i, SpecSlot(StepOf(run, w.steps[i].name)), NotSet);
    StagedEvaluation(env, later, spec, -1);
    if Lawful(c) && JsonShaped(c.mp, Full(env, spec).value) { ReadsBack(c, Full(env, spec).value); }
  }

  /** Two evaluations that succeed together, miss the same references, and have the same value unless a call is stuck. */
  predicate Concur(o: Outcome, o': Outcome) {
    && (o.Ok? <==> o'.Ok?)
    && (o.Ok? ==> o.missing == o'.missing && (NoInvocations(o.missing) ==> o.value == o'.value))
  }

  /**
   * Finishing what the ConfigMap gives back agrees with the workflow's own spec whenever every encoded node of
   * the first-stage value is a proper encoding outside references and opaque nodes.
   */
  lemma StoredSpecFinishes(c: Codec, env: Env, later: Env, run: string, w: Workflow, given: map<string, Tree>, i: nat)
    requires Extends(env, later) && DistinctSteps(w.steps) && i < |w.steps| && Acceptable(env, w.steps[i]) && w.steps[i].spec != map[]
    requires DataEnv(later, Obj(w.steps[i].spec)) && Lawful(c) && Decodes(c, later)
    requires var v := Full(env, Obj(w.steps[i].spec)).value; JsonShaped(c.mp, v) && Rereadable(c.mp, v)
    ensures
      var spec := Obj(w.steps[i].spec);
      var v := Full(env, spec).value;
      var stored := Stored(c, env, run, w, given, SpecSlot(StepOf(run, w.steps[i].name)));
      && stored != NotSet
      && (stored.Unreadable? ==> Full(later, spec).Err?)
      && (stored.Holds? ==> Concur(Full(later, stored.value), Full(later, spec)))
      && (stored.Holds? && NoStuckEncoding(c.mp, later, v) && NoStaleCall(IDENTITY, env, later, spec, -1)
          ==> Full(later, stored.value) == Full(later, spec))
  {
    hide Eval, NoStaleCall, Lawful, JsonShaped, HasEncoded, DataEnv, Rereadable, NoStuckEncoding, Decodes, Stored;
    var v := Full(env, Obj(w.steps[i].spec)).value;
    StoredSpecMeansTheSpec(c, env, later, run, w, given, i);
    RereadFinishes(c, later, v);
    ReadBackIsReread(c, v);
    hide ReadBack, Reread;
  }

  lemma ReadBackIsReread(c: Codec, v: Tree)
    requires Lawful(c) && JsonShaped(c.mp, v)
    ensures ReadBack(c, v) == Reread(c, v)
  {
    hide Decoded, Safe;
    SafeIsJsonable(c.mp, c.txt, v);
  }

  /** The same for its condition: the verdict on what was stored is the verdict on the workflow's own condition. */
  lemma StoredConditionMeansTheCondition(
      c: Codec, env: Env, later: Env, run: string, w: Workflow, given: map<string, Tree>, i: nat, verdict: Verdict)
    requires Extends(env, later) && DistinctSteps(w.steps) && i < |w.steps| && Acceptable(env, w.steps[i]) && w.steps[i].when != Null
    requires DataEnv(later, w.steps[i].when) && IsVerdict(Full(later, w.steps[i].when), verdict)
    ensures
      var v := Full(env, w.steps[i].when).value;
      var stored := Stored(c, env, run, w, given, ConditionSlot(StepOf(run, w.steps[i].name)));
      && stored == ReadingOf(c, Some(v))
      && (Lawful(c) && JsonShaped(c.mp, v) ==> (stored == Holds(v) <==> !HasEncoded(c.mp, v)))
      && IsVerdict(Full(later, v), verdict)
  {
    hide Eval, NoStaleCall, ReadingOf, Lawful, JsonShaped, HasEncoded, DataEnv, IsVerdict;
    assert w.steps[..|w.steps|] == w.steps;
    var when := w.steps[i].when;
    StepWroteItsSlots(c, env, run, w.steps, i, ConditionSlot(StepOf(run, w.steps[i].name)), NotSet);
    StagedVerdict(env, later, when, verdict);
    if Lawful(c) && JsonShaped(c.mp, Full(env, when).value) { ReadsBack(c, Full(env, when).value); }
  }

  /** And for its variables: each is stored as its first-stage value, and agrees with the workflow's own when finished. */
  lemma StoredEnvironmentMeansTheEnvironment(
      c: Codec, env: Env, later: Env, run: string, w: Workflow, given: map<string, Tree>, i: nat, before: Reading, m: map<string, Tree>)
    requires Extends(env, later) && DistinctSteps(w.steps) && i < |w.steps| && Acceptable(env, w.steps[i])
    requires m.Keys == w.steps[i].env.Keys && forall k :: k in m ==> m[k] == Full(env, w.steps[i].env[k]).value
    ensures
      var slot := EnvironmentSlot(StepOf(run, w.steps[i].name));
      && Expected(c, env, run, w, given, |w.steps|, slot, before) == ReadingOf(c, Some(Obj(m)))
      && (Lawful(c) && JsonShaped(c.mp, Obj(m)) ==> (ReadingOf(c, Some(Obj(m))) == Holds(Obj(m)) <==> !HasEncoded(c.mp, Obj(m))))
    ensures forall k :: k in m && DataEnv(later, w.steps[i].env[k]) ==>
      Agree(Full(later, m[k]), Full(later, w.steps[i].env[k]), NoStaleCall(IDENTITY, env, later, w.steps[i].env[k], -1))
  {
    hide Eval, NoStaleCall, ReadingOf, Lawful, JsonShaped, HasEncoded, DataEnv, Agree;
    assert w.steps[..|w.steps|] == w.steps;
    var slot := EnvironmentSlot(StepOf(run, w.steps[i].name));
    StepWroteItsSlots(c, env, run, w.steps, i, slot, After(c, ParameterPuts(w, given, slot), before));
    assert EvaluatedVars(env, w.steps[i].env) == m;
    if Lawful(c) && JsonShaped(c.mp, Obj(m)) { ReadsBack(c, Obj(m)); }
    forall k | k in m && DataEnv(later, w.steps[i].env[k])
      ensures Agree(Full(later, m[k]), Full(later, w.steps[i].env[k]), NoStaleCall(IDENTITY, env, later, w.steps[i].env[k], -1))
    {
      StagedEvaluation(env, later, w.steps[i].env[k], -1);
    }
  }

  /** What is not written stays as it was: the slots of absent specs and conditions, of other steps, and all outputs and states. */
  lemma OtherSlotsStay(c: Codec, env: Env, run: string, w: Workflow, given: map<string, Tree>, s: Slot, before: Reading)
    requires
      || s.OutputSlot? || s.StateSlot?
      || (s.ParameterSlot? && s.name !in given && s.name !in w.parameters)
      || (!s.ParameterSlot? && forall i :: 0 <= i < |w.steps| ==> s.owner != StepOf(run, w.steps[i].name))
      || (s.SpecSlot? && forall i :: 0 <= i < |w.steps| && s.owner == StepOf(run, w.steps[i].name) ==> w.steps[i].spec == map[])
      || (s.ConditionSlot? && forall i :: 0 <= i < |w.steps| && s.owner == StepOf(run, w.steps[i].name) ==> w.steps[i].when == Null)
    ensures Expected(c, env, run, w, given, |w.steps|, s, before) == before
  {
    assert w.steps[..|w.steps|] == w.steps;
    NothingPut(c, env, run, w.steps, s, before);
  }

  lemma {:induction false} NothingPut(c: Codec, env: Env, run: string, steps: seq<WorkflowStep>, s: Slot, before: Reading)
    requires forall i :: 0 <= i < |steps| ==> StepPuts(env, run, steps[i], s).None?
    ensures AfterSteps(c, env, run, steps, s, before) == before
  {
    if steps != [] { NothingPut(c, env, run, steps[..|steps| - 1], s, before); }
  }

  /** Parameters are resolved from the run's ConfigMap. */
  ghost predicate ReadsParameters(env: Env, at: Slot -> Reading) {
    forall name :: env.resolve(ParameterRef(name)) == LookupOf(at(ParameterSlot(name)))
  }

  function LookupOf(r: Reading): Lookup {
    match r
    case NotSet => Missing
    case Unreadable => Broken
    case Holds(v) => Found(v)
  }

  /** A reference to a parameter finds the run's value, or else the workflow's default, or else nothing. */
  lemma ParameterPrecedence(c: Codec, env: Env, env0: Env, run: string, w: Workflow, given: map<string, Tree>, name: string)
    requires ReadsParameters(env, s => Stored(c, env0, run, w, given, s))
    ensures
      var value := if name in given then Some(given[name]) else if name in w.parameters then Some(w.parameters[name]) else None;
      && env.resolve(ParameterRef(name)) == LookupOf(ReadingOf(c, value))
      && (value.None? ==> env.resolve(ParameterRef(name)) == Missing)
      && (value.Some? && ReadBack(c, value.value).None? ==> env.resolve(ParameterRef(name)) == Broken)
      && (value.Some? && Lawful(c) && JsonShaped(c.mp, value.value) && !HasEncoded(c.mp, value.value)
          ==> env.resolve(ParameterRef(name)) == Found(value.value))
  {
    hide Lawful, JsonShaped, HasEncoded, ReadBack;
    var at := s => Stored(c, env0, run, w, given, s);
    var slot := ParameterSlot(name);
    assert w.steps[..|w.steps|] == w.steps;
    OthersLeaveSlots(c, env0, run, w.steps, slot, After(c, ParameterPuts(w, given, slot), NotSet));
    assert at(slot) == After(c, ParameterPuts(w, given, slot), NotSet);
    var value := ParameterPuts(w, given, slot);
    if value.Some? && Lawful(c) && JsonShaped(c.mp, value.value) { ReadsBack(c, value.value); }
  }

  // ---- an encoded reference does not survive ----

  function Secret(name: string): Tree { Obj(map[TYPE := Str("Secret"), "name" := Str(name)]) }

  function Encoding(data: Tree): Tree { Obj(map[ENCODING := Str(BASE64), DATA := data]) }

  function Only(v: Tree): Tree { Obj(map["value" := v]) }

  lemma OnlyIsPlain(v: Tree)
    ensures Only(v).Obj? && ShapeOf(Only(v).fields).PlainShape?
  {
    var m := Only(v).fields;
    assert m.Keys == {"value"};
    if |m| == 1 { assert OnlyKey(m) in m.Keys; }
    assert "value"[..|FN|][0] != FN[0];
  }

  lemma OnlyEval(env: Env, v: Tree)
    requires Full(env, v).Ok?
    ensures Full(env, Only(v)) == Ok(Only(Full(env, v).value), Full(env, v).missing)
  {
    var t := Only(v);
    OnlyIsPlain(v);
    FullPlain(env, t);
    hide Eval, ShapeOf;
    var os := EvalFields(env, t, -1);
    assert os == map["value" := Full(env, v)];
    OnlyOutcome(Full(env, v));
  }

  lemma OnlyOutcome(o: Outcome)
    requires o.Ok?
    ensures ObjOutcome(map["value" := o]) == Ok(Only(o.value), o.missing)
  {
    var os := map["value" := o];
    assert ObjOutcome(os).value.fields == map["value" := o.value];
    forall r ensures r in ObjOutcome(os).missing <==> r in o.missing {
      if r in o.missing { assert "value" in os && r in os["value"].Unresolved(); }
    }
  }

  lemma EncodedSecretEval(env: Env, name: string)
    requires env.resolve(SecretRef(name)) == Missing
    ensures Full(env, Encoding(Secret(name))) == Ok(Encoding(Secret(name)), {SecretRef(name)})
  {
    var m := Secret(name).fields;
    assert ShapeOf(m).TypeShape? && TypeNodeOf(m) == Known(SecretRef(name));
    assert Full(env, Secret(name)) == Ok(Secret(name), {SecretRef(name)});
    EvalEncodingStep(env, Encoding(Secret(name)).fields, -1);
  }

  lemma OnlyRead(c: Codec, v: Tree)
    ensures Decoded(c, Only(v)) == if Decoded(c, v).None? then None else Some(Only(Decoded(c, v).value))
  {
    hide Decoded;
    assert Only(v).fields.Keys == {"value"} && Only(v).fields["value"] == v;
    DecodedObject(c, Only(v));
    if Decoded(c, v).Some? { assert Decoded(c, Only(v)).value.fields == map["value" := Decoded(c, v).value]; }
  }

  lemma PlainSecretRead(c: Codec, name: string)
    ensures Decoded(c, Secret(name)) == Some(Secret(name))
  {
    var m := Secret(name);
    assert Decoded(c, m.fields[TYPE]) == Some(Str("Secret")) && Decoded(c, m.fields["name"]) == Some(Str(name));
    hide Decoded;
    DecodedObject(c, m);
    assert Decoded(c, m).value.fields == m.fields;
  }

  lemma EncodingRead(c: Codec, data: Tree)
    requires Decoded(c, data).Some?
    ensures Decoded(c, Encoding(data))
         == match c.decode(BASE64, if data.Str? then data.s else "") case None => None case Some(s) => Some(Str(s))
  {
    var e := Encoding(data);
    assert DecodedFields(c, e)[ENCODING] == Some(Str(BASE64)) && DecodedFields(c, e)[DATA].Some?;
  }

  lemma SecretRead(c: Codec, name: string)
    requires c.decode(BASE64, "") == Some("")
    ensures Decoded(c, Encoding(Secret(name))) == Some(Str(""))
  {
    hide Decoded;
    PlainSecretRead(c, name);
    EncodingRead(c, Secret(name));
  }

  /** The same encoding with its name encoded in turn. */
  function Disguised(name: string, e: string): Tree { Obj(map[ENCODING := Encoding(Str(e)), DATA := Secret(name)]) }

  lemma DisguisedRead(c: Codec, name: string, e: string)
    requires c.decode(BASE64, e) == Some(BASE64)
    ensures Decoded(c, Disguised(name, e)) == Some(Encoding(Secret(name)))
  {
    assert Decoded(c, Str(e)).Some?;
    hide Decoded;
    EncodingRead(c, Str(e));
    PlainSecretRead(c, name);
    PairRead(c, Encoding(Str(e)), Secret(name), Str(BASE64), Secret(name));
  }

  lemma PairRead(c: Codec, x: Tree, y: Tree, x': Tree, y': Tree)
    requires !x.Str? && Decoded(c, x) == Some(x') && Decoded(c, y) == Some(y')
    ensures Decoded(c, Obj(map[ENCODING := x, DATA := y])) == Some(Obj(map[ENCODING := x', DATA := y']))
  {
    hide Decoded;
    var t := Obj(map[ENCODING := x, DATA := y]);
    assert t.fields[ENCODING] == x && t.fields[DATA] == y && t.fields.Keys == {ENCODING, DATA};
    DecodedObject(c, t);
    var m := Decoded(c, t).value.fields;
    assert m[ENCODING] == x' && m[DATA] == y';
    assert m == map[ENCODING := x', DATA := y'];
  }

  /**
   * A spec that decodes a secret does not survive being read, for its open secret is taken for the empty string.
   * The operator reads it so from the submitted run. Disguise it, and the operator sees it, leaves it open in the
   * first stage, and the reader of the ConfigMap gets the empty string: either way the later stage finds nothing
   * missing although it does not know the secret.
   */
  lemma EncodedReferenceIsLost(c: Codec, env: Env, later: Env, name: string, e: string)
    requires Lawful(c) && c.decode(BASE64, "") == Some("") && c.decode(BASE64, e) == Some(BASE64)
    requires Jsonable(c.mp, Only(Encoding(Secret(name)))) && Jsonable(c.mp, Only(Disguised(name, e)))
    requires env.resolve(SecretRef(name)) == Missing && later.resolve(SecretRef(name)) == Missing
    ensures
      var spec, lost := Only(Encoding(Secret(name))), Only(Str(""));
      && Unmarshal(c, c.txt.render(spec)) == Some(lost)
      && Unmarshal(c, c.txt.render(Only(Disguised(name, e)))) == Some(spec)
      && Full(env, spec) == Ok(spec, {SecretRef(name)}) && Full(later, spec) == Ok(spec, {SecretRef(name)})
      && HasEncoded(c.mp, spec) && ReadingOf(c, Some(spec)) == Holds(lost)
      && Full(later, lost) == Ok(lost, {})
  {
    assert Full(later, Str("")) == Ok(Str(""), {});
    hide Eval, ShapeOf, Decoded, Jsonable;
    var spec := Only(Encoding(Secret(name)));
    EncodedSecretEval(env, name);
    EncodedSecretEval(later, name);
    OnlyEval(env, Encoding(Secret(name)));
    OnlyEval(later, Encoding(Secret(name)));
    OnlyEval(later, Str(""));
    SecretRead(c, name);
    OnlyRead(c, Encoding(Secret(name)));
    DisguisedRead(c, name, e);
    OnlyRead(c, Disguised(name, e));
    TextIsWritten(c, spec);
    hide Only;
    assert HasEncoded(c.mp, spec) by { OnlyHolds(c, name); }
  }

  lemma OnlyHolds(c: Codec, name: string)
    requires c.mp.isText(BASE64)
    ensures HasEncoded(c.mp, Only(Encoding(Secret(name))))
  {
    var t := Only(Encoding(Secret(name)));
    assert "value" in t.fields && HasEncoded(c.mp, t.fields["value"]);
  }
}
