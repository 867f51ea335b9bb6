/** Typed managers sharing one ConfigMap (pkg/manager/configmap, pkg/manager/memory/stepoutput.go). */
module Managers {
  import opened Trees
  import opened Serialize
  import opened Transfer
  import opened ConfigMaps

  datatype Owner = StepOf(run: string, name: string) | TriggerNamed(name: string)

  /** A place one of the managers keeps a value in. */
  datatype Slot =
    | OutputSlot(owner: Owner, name: string)
    | StateSlot(owner: Owner, name: string)
    | SpecSlot(owner: Owner)
    | ConditionSlot(owner: Owner)
    | EnvironmentSlot(owner: Owner)
    | ParameterSlot(name: string)

  /** Hex encodings of digests have a fixed length. */
  const HASH_LENGTH: nat := 40

  /** None of the owners at hand collide. */
  ghost predicate HashesDiffer(hash: Owner -> string, owners: set<Owner>) {
    && (forall a :: a in owners ==> |hash(a)| == HASH_LENGTH)
    && (forall a, b :: a in owners && b in owners && hash(a) == hash(b) ==> a == b)
  }

  predicate InPlay(owners: set<Owner>, s: Slot) { s.ParameterSlot? || s.owner in owners }

  function Plural(a: Owner): string { if a.StepOf? then "steps" else "triggers" }

  function Tail(s: Slot): string
    requires !s.ParameterSlot?
  {
    match s
    case OutputSlot(_, name) => "output." + name
    case StateSlot(_, name) => "state." + name
    case SpecSlot(_) => "spec"
    case ConditionSlot(_) => "condition"
    case EnvironmentSlot(_) => "environment"
  }

  function KeyOf(hash: Owner -> string, s: Slot): string {
    if s.ParameterSlot? then "parameters." + s.name
    else Plural(s.owner) + "." + hash(s.owner) + "." + Tail(s)
  }

  lemma TailsDiffer(s: Slot, t: Slot)
    requires !s.ParameterSlot? && !t.ParameterSlot? && s.owner == t.owner && Tail(s) == Tail(t)
    ensures s == t
  {
    var x, y := Tail(s), Tail(t);
    if s.OutputSlot? && t.OutputSlot? {
      assert x[7..] == s.name && y[7..] == t.name;
    } else if s.StateSlot? && t.StateSlot? {
      assert x[6..] == s.name && y[6..] == t.name;
    } else {
      assert x[0] == y[0] && x[1] == y[1];
    }
  }

  lemma SplitJoined(p: string, h: string, t: string, p': string, h': string, t': string)
    requires |p| == |p'| && |h| == |h'| && p + "." + h + "." + t == p' + "." + h' + "." + t'
    ensures p == p' && h == h' && t == t'
  {
    var x, n, m := p + "." + h + "." + t, |p|, |p| + 1 + |h|;
    assert x[..n] == p && x[n + 1..m] == h && x[m + 1..] == t;
    var y := p' + "." + h' + "." + t';
    assert y[..n] == p' && y[n + 1..m] == h' && y[m + 1..] == t';
  }

  /** Distinct slots have distinct keys, whatever names they carry. */
  lemma KeysDiffer(hash: Owner -> string, owners: set<Owner>, s: Slot, t: Slot)
    requires HashesDiffer(hash, owners) && InPlay(owners, s) && InPlay(owners, t)
    ensures s != t ==> KeyOf(hash, s) != KeyOf(hash, t)
  {
    var x, y := KeyOf(hash, s), KeyOf(hash, t);
    if s.ParameterSlot? && t.ParameterSlot? {
      assert x[11..] == s.name && y[11..] == t.name;
    } else if s.ParameterSlot? || t.ParameterSlot? || s.owner.StepOf? != t.owner.StepOf? {
      assert x[0] != y[0];
    } else if x == y {
      SplitJoined(Plural(s.owner), hash(s.owner), Tail(s), Plural(t.owner), hash(t.owner), Tail(t));
      TailsDiffer(s, t);
    }
  }

  datatype Put = Put(slot: Slot, value: Tree)

  /** What KVConfigMap.Get finds: nothing, something it cannot decode, or a value. */
  datatype Reading = NotSet | Unreadable | Holds(value: Tree)

  function ReadingOf(c: Codec, written: Option<Tree>): Reading {
    match written
    case None => NotSet
    case Some(v) => (match ReadBack(c, v) case None => Unreadable case Some(v') => Holds(v'))
  }

  /** KVConfigMap.Set as a mutation of the data, and KVConfigMap.Get. */
  function SetIn(hash: Owner -> string, c: Codec, p: Put, d: Data): Data {
    d[KeyOf(hash, p.slot) := Marshal(c, p.value)]
  }

  function GetFrom(hash: Owner -> string, c: Codec, d: Data, s: Slot): Reading {
    var key := KeyOf(hash, s);
    if key !in d then NotSet
    else match Unmarshal(c, d[key]) case None => Unreadable case Some(v) => Holds(v)
  }

  /** The value a slot holds after a history: the last one put there since the last deletion. */
  function LastPut(puts: seq<Put>, history: seq<Event>, s: Slot): Option<Tree> {
    if history == [] then None
    else
      var earlier := LastPut(puts, history[..|history| - 1], s);
      match history[|history| - 1]
      case Deletion => None
      case Commit(i) => if i < |puts| && puts[i].slot == s then Some(puts[i].value) else earlier
  }

  lemma GetAfterSet(hash: Owner -> string, owners: set<Owner>, c: Codec, d: Data, p: Put, s: Slot)
    requires HashesDiffer(hash, owners) && InPlay(owners, p.slot) && InPlay(owners, s)
    ensures GetFrom(hash, c, SetIn(hash, c, p, d), s)
      == if p.slot == s then ReadingOf(c, Some(p.value)) else GetFrom(hash, c, d, s)
  {
    KeysDiffer(hash, owners, p.slot, s);
  }

  ghost predicate MakesPuts(hash: Owner -> string, owners: set<Owner>, c: Codec, calls: seq<Call>, puts: seq<Put>) {
    && |calls| == |puts|
    && (forall i :: 0 <= i < |puts| ==> InPlay(owners, puts[i].slot))
    && (forall i, d :: 0 <= i < |calls| ==> calls[i].fn(d) == SetIn(hash, c, puts[i], d))
  }

  lemma {:induction false} ReplayHoldsLastPuts(
      hash: Owner -> string, owners: set<Owner>, c: Codec, puts: seq<Put>, calls: seq<Call>, history: seq<Event>, s: Slot)
    requires HashesDiffer(hash, owners) && InPlay(owners, s) && MakesPuts(hash, owners, c, calls, puts)
    ensures GetFrom(hash, c, Replay(calls, history).GetOr(map[]), s) == ReadingOf(c, LastPut(puts, history, s))
  {
    if history != [] {
      var h := history[..|history| - 1];
      ReplayHoldsLastPuts(hash, owners, c, puts, calls, h, s);
      match history[|history| - 1]
      case Deletion =>
      case Commit(i) => if i < |puts| { GetAfterSet(hash, owners, c, Replay(calls, h).GetOr(map[]), puts[i], s); }
    }
  }

  /**
   * Over every interleaving of managers' calls, each slot is a store of its own: a Get reads what was last
   * put into exactly that slot, and it reads a JSON value as it was exactly if no node in it looks encoded.
   */
  lemma ManagersAreIndependent(hash: Owner -> string, owners: set<Owner>, c: Codec, puts: seq<Put>, actions: seq<Action>, s: Slot)
    requires HashesDiffer(hash, owners) && InPlay(owners, s) && MakesPuts(hash, owners, c, Run(EMPTY, actions).calls, puts)
    ensures
      var end := Run(EMPTY, actions);
      var last := LastPut(puts, end.history, s);
      var got := GetFrom(hash, c, DataOf(end.server.stored), s);
      && got == ReadingOf(c, last)
      && (Lawful(c) && last.Some? && JsonShaped(c.mp, last.value) ==> (got == Holds(last.value) <==> !HasEncoded(c.mp, last.value)))
  {
    NoLostUpdates(actions);
    var end := Run(EMPTY, actions);
    hide Run, Lawful, ReadBack, HasEncoded, JsonShaped;
    ReplayHoldsLastPuts(hash, owners, c, puts, end.calls, end.history, s);
    var last := LastPut(puts, end.history, s);
    if Lawful(c) && last.Some? && JsonShaped(c.mp, last.value) { RoundTripIff(c, last.value); }
  }

  /** The in-memory store of step outputs: a map of maps filled in place. */
  class StepOutputMap {
    var outputs: map<string, map<string, Tree>>

    constructor ()
      ensures outputs == map[]
    {
      outputs := map[];
    }

    function Lookup(h: string, name: string): Option<Tree>
      reads this
    {
      if h in outputs && name in outputs[h] then Some(outputs[h][name]) else None
    }

    method Get(h: string, name: string) returns (v: Option<Tree>)
      ensures v == Lookup(h, name)
    {
      if h !in outputs { return None; }
      v := if name in outputs[h] then Some(outputs[h][name]) else None;
    }

    method Set(h: string, name: string, value: Tree)
      modifies this
      ensures Lookup(h, name) == Some(value)
      ensures forall h', name' :: (h', name') != (h, name) ==> Lookup(h', name') == old(Lookup(h', name'))
    {
      var inner := if h in outputs then outputs[h] else map[];
      outputs := outputs[h := inner[name := value]];
    }
  }

  /** The same puts, made in order into both stores: the ConfigMap reads back, through its codec, what the memory holds. */
  method FillBoth(hash: Owner -> string, owners: set<Owner>, c: Codec, puts: seq<Put>) returns (d: Data, mem: StepOutputMap)
    requires HashesDiffer(hash, owners) && forall i :: 0 <= i < |puts| ==> InPlay(owners, puts[i].slot)
    ensures fresh(mem)
    ensures forall a, name :: a in owners ==> GetFrom(hash, c, d, OutputSlot(a, name)) == ReadingOf(c, mem.Lookup(hash(a), name))
  {
    d := map[];
    mem := new StepOutputMap();
    for i := 0 to |puts|
      invariant fresh(mem)
      invariant forall a, name :: a in owners ==> GetFrom(hash, c, d, OutputSlot(a, name)) == ReadingOf(c, mem.Lookup(hash(a), name))
    {
      var p := puts[i];
      forall a, name | a in owners { GetAfterSet(hash, owners, c, d, p, OutputSlot(a, name)); }
      hide KeyOf, SetIn, GetFrom, ReadBack;
      d := SetIn(hash, c, p, d);
      if p.slot.OutputSlot? { mem.Set(hash(p.slot.owner), p.slot.name, p.value); }
    }
  }

  /** Owners that do not collide exist. */
  lemma HashesCanDiffer(a: Owner, b: Owner, x: string, y: string)
    requires a != b && |x| == |y| == HASH_LENGTH && x != y
    ensures HashesDiffer(o => if o == a then x else y, {a, b})
  {
  }

  /** The keys as they stand in the ConfigMap. */
  lemma KeysAsWritten(hash: Owner -> string, run: string, step: string, trigger: string, name: string)
    ensures
      var s, t := StepOf(run, step), TriggerNamed(trigger);
      && KeyOf(hash, OutputSlot(s, name)) == "steps" + "." + hash(s) + "." + ("output." + name)
      && KeyOf(hash, StateSlot(s, name)) == "steps" + "." + hash(s) + "." + ("state." + name)
      && KeyOf(hash, SpecSlot(s)) == "steps" + "." + hash(s) + "." + "spec"
      && KeyOf(hash, ConditionSlot(s)) == "steps" + "." + hash(s) + "." + "condition"
      && KeyOf(hash, EnvironmentSlot(s)) == "steps" + "." + hash(s) + "." + "environment"
      && KeyOf(hash, SpecSlot(t)) == "triggers" + "." + hash(t) + "." + "spec"
      && KeyOf(hash, EnvironmentSlot(t)) == "triggers" + "." + hash(t) + "." + "environment"
      && KeyOf(hash, ParameterSlot(name)) == "parameters." + name
  {
  }
}
