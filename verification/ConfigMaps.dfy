/**
  Concurrent MutateConfigMap calls on one ConfigMap (pkg/manager/configmap/configmap.go).
  The API server keeps an optional object; an update succeeds only if it carries the stored
  version ("Concurrency Control and Consistency" in the Kubernetes API Conventions).
 */
module ConfigMaps {
  import opened Trees

  type Data = map<string, string>

  datatype Object = Object(uid: nat, version: nat, data: Data)

  datatype Server = Server(stored: Option<Object>, nextUid: nat, nextVersion: nat)

  datatype WriteResult = Written(server: Server) | Conflict | NotFound | AlreadyExists

  function Create(s: Server, data: Data): WriteResult {
    if s.stored.Some? then AlreadyExists
    else Written(Server(Some(Object(s.nextUid, s.nextVersion, data)), s.nextUid + 1, s.nextVersion + 1))
  }

  function Update(s: Server, o: Object): WriteResult {
    if s.stored.None? then NotFound
    else if s.stored.value.uid != o.uid || s.stored.value.version != o.version then Conflict
    else Written(Server(Some(Object(o.uid, s.nextVersion, o.data)), s.nextUid, s.nextVersion + 1))
  }

  /** What a call read, or the empty object if there was none. */
  function DataOf(o: Option<Object>): Data {
    if o.Some? then o.value.data else map[]
  }

  /** CreateOrUpdate after applying the mutation to what was read. */
  function CreateOrUpdate(s: Server, read: Option<Object>, fn: Data -> Data): WriteResult {
    match read
    case None => Create(s, fn(map[]))
    case Some(o) => Update(s, o.(data := fn(o.data)))
  }

  datatype Phase = Reading | Writing(read: Option<Object>, seen: nat) | Succeeded | Failed

  /** A call in progress; `started` and `seen` are lengths of the history. */
  datatype Call = Call(fn: Data -> Data, phase: Phase, started: nat, retries: nat)

  datatype Event = Commit(call: nat) | Deletion

  datatype System = System(server: Server, calls: seq<Call>, history: seq<Event>)

  /** `LostWrite` commits but its answer never arrives; `GiveUp` stands for any other error. */
  datatype Action = Start(fn: Data -> Data) | Get(call: nat) | Write(call: nat) | LostWrite(call: nat) | GiveUp(call: nat) | Delete

  const EMPTY: System := System(Server(None, 1, 1), [], [])

  function SetPhase(s: System, i: nat, p: Phase): System
    requires i < |s.calls|
  {
    s.(calls := s.calls[i := s.calls[i].(phase := p)])
  }

  function DoWrite(s: System, i: nat, answered: bool): System
    requires i < |s.calls| && s.calls[i].phase.Writing?
  {
    var c := s.calls[i];
    match CreateOrUpdate(s.server, c.phase.read, c.fn)
    case Written(server) =>
      SetPhase(s, i, if answered then Succeeded else Failed).(server := server, history := s.history + [Commit(i)])
    case AlreadyExists => SetPhase(s, i, Failed)
    case _ =>
      if answered then s.(calls := s.calls[i := c.(phase := Reading, retries := c.retries + 1)])
      else SetPhase(s, i, Failed)
  }

  function Step(s: System, a: Action): System {
    match a
    case Start(fn) => s.(calls := s.calls + [Call(fn, Reading, |s.history|, 0)])
    case Get(i) =>
      if i < |s.calls| && s.calls[i].phase.Reading? then SetPhase(s, i, Writing(s.server.stored, |s.history|)) else s
    case Write(i) =>
      if i < |s.calls| && s.calls[i].phase.Writing? then DoWrite(s, i, true) else s
    case LostWrite(i) =>
      if i < |s.calls| && s.calls[i].phase.Writing? then DoWrite(s, i, false) else s
    case GiveUp(i) =>
      if i < |s.calls| && (s.calls[i].phase.Reading? || s.calls[i].phase.Writing?) then SetPhase(s, i, Failed) else s
    case Delete =>
      if s.server.stored.Some?
      then s.(server := s.server.(stored := None), history := s.history + [Deletion])
      else s
  }

  function Run(s: System, actions: seq<Action>): System
    decreases |actions|
  {
    if actions == [] then s else Run(Step(s, actions[0]), actions[1..])
  }

  /** The sequential meaning of a history: each mutation applied to what the events before it left. */
  function Replay(calls: seq<Call>, history: seq<Event>): Option<Data> {
    if history == [] then None
    else
      var before := Replay(calls, history[..|history| - 1]);
      match history[|history| - 1]
      case Deletion => None
      case Commit(i) => if i < |calls| then Some(calls[i].fn(before.GetOr(map[]))) else before
  }

  function Count(history: seq<Event>, e: Event): nat {
    if history == [] then 0
    else Count(history[..|history| - 1], e) + if history[|history| - 1] == e then 1 else 0
  }

  predicate Newer(s: Server, read: Option<Object>) {
    && (read.Some? ==> read.value.version < s.nextVersion)
    && (read.Some? && s.stored.Some? && s.stored.value.version == read.value.version ==> s.stored == read)
  }

  predicate CallOk(s: System, i: nat)
    requires i < |s.calls|
  {
    var c := s.calls[i];
    && c.started + c.retries <= |s.history|
    && (match c.phase
        case Reading => Count(s.history, Commit(i)) == 0
        case Writing(read, seen) =>
          && Count(s.history, Commit(i)) == 0
          && c.started + c.retries <= seen <= |s.history|
          && Newer(s.server, read)
          && (seen == |s.history| ==> s.server.stored == read)
        case Succeeded => Count(s.history, Commit(i)) == 1
        case Failed => Count(s.history, Commit(i)) <= 1)
  }

  predicate ServerOk(s: System) {
    && (s.server.stored.Some? ==> s.server.stored.value.version < s.server.nextVersion)
    && (s.server.stored.None? <==> Replay(s.calls, s.history).None?)
    && (s.server.stored.Some? ==> Replay(s.calls, s.history) == Some(s.server.stored.value.data))
    && (forall e :: e in s.history && e.Commit? ==> e.call < |s.calls|)
  }

  predicate Invariant(s: System) {
    ServerOk(s) && forall i :: 0 <= i < |s.calls| ==> CallOk(s, i)
  }

  lemma CountAppend(h: seq<Event>, x: Event, e: Event)
    ensures Count(h + [x], e) == Count(h, e) + if x == e then 1 else 0
  {
    assert (h + [x])[..|h|] == h;
  }

  lemma {:induction false} ReplayDependsOnFns(calls: seq<Call>, calls': seq<Call>, h: seq<Event>)
    requires |calls| <= |calls'| && forall i :: 0 <= i < |calls| ==> calls'[i].fn == calls[i].fn
    requires forall e :: e in h && e.Commit? ==> e.call < |calls|
    ensures Replay(calls', h) == Replay(calls, h)
  {
    if h != [] {
      assert h[|h| - 1] in h;
      ReplayDependsOnFns(calls, calls', h[..|h| - 1]);
    }
  }

  lemma ReplayAppend(calls: seq<Call>, h: seq<Event>, x: Event)
    ensures Replay(calls, h + [x]) ==
      match x
      case Deletion => None
      case Commit(i) => if i < |calls| then Some(calls[i].fn(Replay(calls, h).GetOr(map[]))) else Replay(calls, h)
  {
    assert (h + [x])[..|h|] == h;
  }

  lemma {:induction false} NotYet(h: seq<Event>, i: nat)
    requires forall e :: e in h && e.Commit? ==> e.call < i
    ensures Count(h, Commit(i)) == 0
  {
    if h != [] {
      assert h[|h| - 1] in h;
      NotYet(h[..|h| - 1], i);
    }
  }

  /** A phase change alone keeps the server invariant and every other call's. */
  lemma CallsChange(s: System, calls': seq<Call>)
    requires ServerOk(s) && |s.calls| <= |calls'| && forall i :: 0 <= i < |s.calls| ==> calls'[i].fn == s.calls[i].fn
    ensures ServerOk(s.(calls := calls'))
  {
    ReplayDependsOnFns(s.calls, calls', s.history);
  }

  lemma StartStep(s: System, fn: Data -> Data)
    requires Invariant(s)
    ensures Invariant(Step(s, Start(fn)))
  {
    var s' := Step(s, Start(fn));
    CallsChange(s, s'.calls);
    NotYet(s.history, |s.calls|);
    forall i | 0 <= i < |s'.calls| ensures CallOk(s', i) {
      if i < |s.calls| { assert CallOk(s, i); }
    }
  }

  /** One call changes phase, nothing else moves. */
  lemma PhaseStep(s: System, i: nat, c: Call)
    requires Invariant(s) && i < |s.calls| && c.fn == s.calls[i].fn
    requires CallOk(s.(calls := s.calls[i := c]), i)
    ensures Invariant(s.(calls := s.calls[i := c]))
  {
    var s' := s.(calls := s.calls[i := c]);
    CallsChange(s, s'.calls);
    forall j | 0 <= j < |s'.calls| ensures CallOk(s', j) {
      if j != i { assert CallOk(s, j); }
    }
  }

  lemma DeleteStep(s: System)
    requires Invariant(s)
    ensures Invariant(Step(s, Delete))
  {
    if s.server.stored.Some? {
      var s' := Step(s, Delete);
      ReplayAppend(s.calls, s.history, Deletion);
      forall i | 0 <= i < |s'.calls| ensures CallOk(s', i) {
        assert CallOk(s, i);
        CountAppend(s.history, Deletion, Commit(i));
      }
    }
  }

  /** A commit writes the mutation of exactly what the server holds at that moment. */
  lemma CommitIsCurrent(s: System, i: nat)
    requires Invariant(s) && i < |s.calls| && s.calls[i].phase.Writing?
    requires CreateOrUpdate(s.server, s.calls[i].phase.read, s.calls[i].fn).Written?
    ensures
      var server' := CreateOrUpdate(s.server, s.calls[i].phase.read, s.calls[i].fn).server;
      && server'.stored.Some?
      && server'.stored.value.data == s.calls[i].fn(DataOf(s.server.stored))
      && server'.stored.value.version == s.server.nextVersion && server'.nextVersion == s.server.nextVersion + 1
  {
    assert CallOk(s, i);
  }

  lemma CommitStep(s: System, i: nat, p: Phase)
    requires Invariant(s) && i < |s.calls| && s.calls[i].phase.Writing? && (p.Succeeded? || p.Failed?)
    requires CreateOrUpdate(s.server, s.calls[i].phase.read, s.calls[i].fn).Written?
    ensures
      var server' := CreateOrUpdate(s.server, s.calls[i].phase.read, s.calls[i].fn).server;
      Invariant(SetPhase(s, i, p).(server := server', history := s.history + [Commit(i)]))
  {
    var server' := CreateOrUpdate(s.server, s.calls[i].phase.read, s.calls[i].fn).server;
    var s' := SetPhase(s, i, p).(server := server', history := s.history + [Commit(i)]);
    CommitIsCurrent(s, i);
    ReplayDependsOnFns(s.calls, s'.calls, s.history);
    ReplayAppend(s'.calls, s.history, Commit(i));
    hide CreateOrUpdate;
    forall j | 0 <= j < |s'.calls| ensures CallOk(s', j) {
      assert CallOk(s, j);
      CountAppend(s.history, Commit(i), Commit(j));
    }
  }

  lemma WriteStep(s: System, i: nat, answered: bool)
    requires Invariant(s) && i < |s.calls| && s.calls[i].phase.Writing?
    ensures Invariant(DoWrite(s, i, answered))
  {
    var c := s.calls[i];
    assert CallOk(s, i);
    match CreateOrUpdate(s.server, c.phase.read, c.fn)
    case Written(_) => CommitStep(s, i, if answered then Succeeded else Failed);
    case AlreadyExists => PhaseStep(s, i, c.(phase := Failed));
    case _ =>
      if answered { PhaseStep(s, i, c.(phase := Reading, retries := c.retries + 1)); }
      else { PhaseStep(s, i, c.(phase := Failed)); }
  }

  lemma StepKeepsInvariant(s: System, a: Action)
    requires Invariant(s)
    ensures Invariant(Step(s, a))
  {
    match a
    case Start(fn) => StartStep(s, fn);
    case Delete => DeleteStep(s);
    case Get(i) =>
      if i < |s.calls| && s.calls[i].phase.Reading? {
        assert CallOk(s, i);
        PhaseStep(s, i, s.calls[i].(phase := Writing(s.server.stored, |s.history|)));
      }
    case Write(i) => if i < |s.calls| && s.calls[i].phase.Writing? { WriteStep(s, i, true); }
    case LostWrite(i) => if i < |s.calls| && s.calls[i].phase.Writing? { WriteStep(s, i, false); }
    case GiveUp(i) =>
      if i < |s.calls| && (s.calls[i].phase.Reading? || s.calls[i].phase.Writing?) {
        assert CallOk(s, i);
        PhaseStep(s, i, s.calls[i].(phase := Failed));
      }
  }

  lemma {:induction false} RunKeepsInvariant(s: System, actions: seq<Action>)
    requires Invariant(s)
    ensures Invariant(Run(s, actions))
    decreases |actions|
  {
    if actions != [] {
      StepKeepsInvariant(s, actions[0]);
      RunKeepsInvariant(Step(s, actions[0]), actions[1..]);
    }
  }

  predicate CommitsOnce(s: System, i: nat)
    requires i < |s.calls|
  {
    match s.calls[i].phase
    case Succeeded => Count(s.history, Commit(i)) == 1
    case Failed => Count(s.history, Commit(i)) <= 1
    case _ => Count(s.history, Commit(i)) == 0
  }

  /** Over every interleaving of calls, lost answers and deletions. */
  lemma NoLostUpdates(actions: seq<Action>)
    ensures
      var s := Run(EMPTY, actions);
      // The stored data is the committed mutations, each applied once to what its predecessors left.
      && s.server.stored.None? == Replay(s.calls, s.history).None?
      && (s.server.stored.Some? ==> Replay(s.calls, s.history) == Some(s.server.stored.value.data))
      // A call commits once if it succeeds, at most once if it fails, and not before it ends.
      && (forall i :: 0 <= i < |s.calls| ==> CommitsOnce(s, i))
      // Each retry is paid for by a commit or deletion since the call began.
      && (forall i :: 0 <= i < |s.calls| ==> s.calls[i].started + s.calls[i].retries <= |s.history|)
  {
    RunKeepsInvariant(EMPTY, actions);
    hide Run;
    var s := Run(EMPTY, actions);
    forall i | 0 <= i < |s.calls| ensures CommitsOnce(s, i) && s.calls[i].started + s.calls[i].retries <= |s.history| {
      assert CallOk(s, i);
    }
  }

  /** A write by a call that nobody came before since it read: it commits, and the call succeeds. */
  lemma UndisturbedWriteCommits(s: System, i: nat)
    requires Invariant(s) && i < |s.calls| && s.calls[i].phase.Writing? && s.calls[i].phase.seen == |s.history|
    ensures
      var s' := Step(s, Write(i));
      && s'.calls[i].phase == Succeeded && s'.history == s.history + [Commit(i)]
      && s'.server.stored.Some? && s'.server.stored.value.data == s.calls[i].fn(DataOf(s.server.stored))
      && (s.server.stored.Some? ==> s'.server.stored.value.uid == s.server.stored.value.uid)
      && s'.server.stored.value.version == s.server.nextVersion
      && forall j :: 0 <= j < |s.calls| && j != i ==> s'.calls[j] == s.calls[j]
  {
    assert CallOk(s, i);
  }

  /** Over every interleaving: a call that reads and then writes with nobody in between has done its work. */
  lemma ReadThenWriteSucceeds(actions: seq<Action>, i: nat)
    requires i < |Run(EMPTY, actions).calls| && Run(EMPTY, actions).calls[i].phase.Reading?
    ensures
      var s := Run(EMPTY, actions);
      var s' := Step(Step(s, Get(i)), Write(i));
      && s'.calls[i].phase == Succeeded && s'.history == s.history + [Commit(i)]
      && s'.server.stored.Some? && s'.server.stored.value.data == s.calls[i].fn(DataOf(s.server.stored))
  {
    RunKeepsInvariant(EMPTY, actions);
    hide Run;
    var s := Run(EMPTY, actions);
    StepKeepsInvariant(s, Get(i));
    UndisturbedWriteCommits(Step(s, Get(i)), i);
  }

  /** The other steps of a run. */
  lemma StepsMean(s: System, fn: Data -> Data, i: nat)
    ensures
      var s' := Step(s, Start(fn));
      s' == s.(calls := s.calls + [Call(fn, Reading, |s.history|, 0)])
    ensures i < |s.calls| && s.calls[i].phase.Reading? ==>
      && Step(s, Get(i)) == s.(calls := s.calls[i := s.calls[i].(phase := Writing(s.server.stored, |s.history|))])
      && Step(s, GiveUp(i)) == s.(calls := s.calls[i := s.calls[i].(phase := Failed)])
    ensures s.server.stored.Some? ==>
      var s' := Step(s, Delete);
      s'.server.stored.None? && s'.history == s.history + [Deletion] && s'.calls == s.calls
    ensures s.server.stored.None? ==> Step(s, Delete) == s
  {
  }

  /** A write whose answer is lost does to the server what it would have done, and the call fails. */
  lemma LostWriteMeans(s: System, i: nat)
    requires i < |s.calls| && s.calls[i].phase.Writing?
    ensures
      var lost, known := Step(s, LostWrite(i)), Step(s, Write(i));
      lost.server == known.server && lost.history == known.history && |lost.calls| == |s.calls| && lost.calls[i].phase == Failed
  {
  }

  /** A write that comes too late: to create, it is the end of the call; to update, the call reads again. Nothing else changes. */
  lemma LateWrite(s: System, i: nat)
    requires i < |s.calls| && s.calls[i].phase.Writing?
    ensures
      var read, stored, s' := s.calls[i].phase.read, s.server.stored, Step(s, Write(i));
      && (read.None? && stored.Some? ==> s' == s.(calls := s.calls[i := s.calls[i].(phase := Failed)]))
      && (read.Some? && (stored.None? || stored.value.uid != read.value.uid || stored.value.version != read.value.version) ==>
            s' == s.(calls := s.calls[i := s.calls[i].(phase := Reading, retries := s.calls[i].retries + 1)]))
  {
  }

  /** What another client does to the object: write it (creating it if need be) or delete it. */
  datatype Rival = Overwrite(data: Data) | Remove

  function Disturb(s: Server, rivals: seq<Rival>): Server {
    if rivals == [] then s
    else
      var s' := Disturb(s, rivals[..|rivals| - 1]);
      match rivals[|rivals| - 1]
      case Overwrite(data) => (match CreateOrUpdate(s', s'.stored, _ => data) case Written(s'') => s'' case _ => s')
      case Remove => s'.(stored := None)
  }

  function DisturbAll(s: Server, rounds: seq<seq<Rival>>): Server {
    if rounds == [] then s else Disturb(DisturbAll(s, rounds[..|rounds| - 1]), rounds[|rounds| - 1])
  }

  /** The last rival has its way: its data is stored, under a new version, or nothing is. */
  lemma LastRivalWins(s: Server, rivals: seq<Rival>, data: Data)
    ensures
      var earlier, s' := Disturb(s, rivals), Disturb(s, rivals + [Overwrite(data)]);
      && s'.stored.Some? && s'.stored.value.data == data && s'.stored.value.version == earlier.nextVersion
      && (earlier.stored.Some? ==> s'.stored.value.uid == earlier.stored.value.uid)
    ensures Disturb(s, rivals + [Remove]).stored.None?
  {
    assert (rivals + [Overwrite(data)])[..|rivals|] == rivals && (rivals + [Remove])[..|rivals|] == rivals;
  }

  predicate Versioned(s: Server) { s.stored.Some? ==> s.stored.value.version < s.nextVersion }

  /** Whatever the others do, an object that still has the version we read is the object we read. */
  lemma {:induction false} DisturbedIsNewer(s: Server, rivals: seq<Rival>)
    requires Versioned(s)
    ensures Versioned(Disturb(s, rivals)) && Newer(Disturb(s, rivals), s.stored)
    ensures s.nextVersion <= Disturb(s, rivals).nextVersion
    ensures s.stored.None? && Disturb(s, rivals).stored.Some? ==> rivals != []
  {
    if rivals != [] { DisturbedIsNewer(s, rivals[..|rivals| - 1]); }
  }

  class ApiServer {
    var server: Server

    constructor (s: Server)
      ensures server == s
    {
      server := s;
    }
  }

  /**
    One call against rivals that act between its read and its write, `rivals[r]` in round `r`.
    It ends: a round is repeated only if some rival acted in it.
   */
  method MutateConfigMap(cm: ApiServer, fn: Data -> Data, rivals: seq<seq<Rival>>)
    returns (ok: bool, retries: nat, ghost before: Server)
    requires Versioned(cm.server)
    modifies cm
    ensures retries <= |rivals| && forall r :: 0 <= r < retries ==> rivals[r] != []
    ensures before == DisturbAll(old(cm.server), if retries < |rivals| then rivals[..retries + 1] else rivals)
    ensures Versioned(cm.server)
    ensures ok ==> cm.server.stored.Some? && cm.server.stored.value.data == fn(DataOf(before.stored))
    ensures !ok ==> cm.server == before
    // It fails exactly if it found nothing, and somebody else created the object before it could.
    ensures !ok <==> retries < |rivals| && DisturbAll(old(cm.server), rivals[..retries]).stored.None? && before.stored.Some?
    ensures (forall r :: 0 <= r < |rivals| ==> rivals[r] == []) ==> ok && retries == 0
    ensures (forall r :: 0 <= r <= |rivals| ==> DisturbAll(old(cm.server), rivals[..r]).stored.Some?) ==> ok
  {
    retries := 0;
    while true
      invariant 0 <= retries <= |rivals|
      invariant forall r :: 0 <= r < retries ==> rivals[r] != []
      invariant cm.server == DisturbAll(old(cm.server), rivals[..retries]) && Versioned(cm.server)
      decreases |rivals| - retries
    {
      var read := cm.server.stored;
      if retries < |rivals| {
        assert rivals[..retries + 1][..retries] == rivals[..retries];
        DisturbedIsNewer(cm.server, rivals[retries]);
        cm.server := Disturb(cm.server, rivals[retries]);
      } else {
        assert rivals[..retries] == rivals;
      }
      before := cm.server;
      match CreateOrUpdate(cm.server, read, fn) {
        case Written(server) =>
          cm.server := server;
          return true, retries, before;
        case AlreadyExists =>
          return false, retries, before;
        case _ =>
          retries := retries + 1;
      }
    }
  }
}
