/** The tenant reconciler's finalizer protocol (pkg/reconciler/tenant/reconciler.go, pkg/obj/finalizer.go, tenantdeps.go, util.go). */
module Tenants {
  import opened Trees

  const FINALIZER: string := "tenant.finalizers.controller.relay.sh"

  /** The owner that a dependency annotation names. Kind and API version are those of Tenant unless said otherwise. */
  datatype Identity = Identity(ofTenantKind: bool, namespace: string, name: string, uid: nat)

  datatype Annotation = NoAnnotation | Garbled | DependencyOf(owner: Identity)

  datatype Namespace = Namespace(uid: nat, version: nat, annotation: Annotation)

  /** A stored tenant; `template` is the name of its managed namespace, "" if it manages none. */
  datatype Tenant = Tenant(uid: nat, version: nat, template: string, finalizers: set<string>, deleting: bool, statusNamespace: string)
  {
    predicate Managed() { template != "" }
  }

  /** The reconciled key. */
  datatype Key = Key(namespace: string, name: string)

  function OwnerOf(key: Key, tn: Tenant): Identity { Identity(true, key.namespace, key.name, tn.uid) }

  datatype Stale = NoStale | StaleNamespace(name: string, loaded: Option<Namespace>)

  /** Where a reconcile pass stands: what it has loaded, and its next client call. */
  datatype Pass =
    | Idle
    | LoadingNamespace(tn: Tenant)
    | LoadingStale(tn: Tenant, ns: Option<Namespace>)
    | Finalizing(tn: Tenant, ns: Option<Namespace>, stale: Stale)
    | FinalDelete(tn: Tenant, ns: Option<Namespace>)
    | RemovingFinalizer(tn: Tenant)
    | DeletingStale(tn: Tenant, ns: Option<Namespace>, stale: Stale)
    | PersistingNamespace(tn: Tenant, ns: Option<Namespace>)
    | PersistingPolicy(tn: Tenant)
    | PersistingLimits(tn: Tenant)
    | WritingStatus(tn: Tenant)

  /**
   * What an observer of the cluster sees, with what held at that moment: whether the stored tenant
   * guarded the write, whether anybody else had touched the deleted namespace since the pass loaded it,
   * and whether a namespace that the pass answers for still belonged to the tenant.
   */
  datatype Event =
    | Persisted(guarded: bool)
    | Deleted(annotation: Annotation, owner: Identity, touched: bool)
    | FinalizerRemoved(stillOwned: bool)

  /** `touched` names the namespaces that others created, dropped or re-annotated since the pass loaded them. */
  datatype Cluster = Cluster(
    tenant: Option<Tenant>, namespaces: map<string, Namespace>, pass: Pass, touched: set<string>, next: nat, log: seq<Event>)

  /** A client call is carried out, or refused, or carried out although its answer is lost. */
  datatype Reply = Answered | Refused | Lost

  /**
   * Besides the passes of this tenant, users edit specs, request deletion, create tenants, handle finalizers of
   * their own, and create and drop namespaces; and the pass of another tenant that names the same namespace
   * persists it, annotated as its own.
   */
  datatype Action =
    | Proceed(reply: Reply)
    | EditTemplate(template: string)
    | RequestDeletion
    | CreateTenant(template: string)
    | SetOtherFinalizers(others: set<string>)
    | CreateNamespace(name: string)
    | DropNamespace(name: string)
    | Annex(name: string, other: Identity)

  predicate Disturbs(a: Action) { a.DropNamespace? || a.Annex? }

  function NamespaceName(key: Key, tn: Tenant): string { if tn.Managed() then tn.template else key.namespace }

  function Get(s: Cluster, name: string): Option<Namespace> {
    if name in s.namespaces then Some(s.namespaces[name]) else None
  }

  predicate HasFinalizer(s: Cluster) { s.tenant.Some? && FINALIZER in s.tenant.value.finalizers }

  /** The stored tenant is the one that the pass loaded, and it carries the finalizer. */
  predicate Guarded(s: Cluster, tn: Tenant) { HasFinalizer(s) && s.tenant.value.uid == tn.uid }

  /** An object marked for deletion disappears with its last finalizer. */
  function Store(tn: Tenant): Option<Tenant> {
    if tn.deleting && tn.finalizers == {} then None else Some(tn)
  }

  function Stop(s: Cluster): Cluster { s.(pass := Idle) }

  /** Updating the tenant: the version and uid must be the stored ones. */
  predicate UpdateAccepted(s: Cluster, tn: Tenant) {
    s.tenant.Some? && s.tenant.value.uid == tn.uid && s.tenant.value.version == tn.version
  }

  predicate IsDependency(ns: Namespace, owner: Identity) { ns.annotation == DependencyOf(owner) }

  predicate Owned(key: Key, s: Cluster, name: string, tn: Tenant) {
    name in s.namespaces && IsDependency(s.namespaces[name], OwnerOf(key, tn))
  }

  /** Deleting a namespace by name, recording what was deleted. */
  function DeleteNamespace(key: Key, s: Cluster, name: string, tn: Tenant): Cluster {
    if name !in s.namespaces then s
    else
      s.(namespaces := s.namespaces - {name},
         log := s.log + [Deleted(s.namespaces[name].annotation, OwnerOf(key, tn), name in s.touched)])
  }

  /** Delete what was loaded if it is annotated as a dependency; an annotation that does not parse is an error. */
  function DeleteDependency(key: Key, s: Cluster, name: string, loaded: Option<Namespace>, tn: Tenant): Option<Cluster> {
    if loaded.None? then Some(s)
    else if loaded.value.annotation.Garbled? then None
    else if IsDependency(loaded.value, OwnerOf(key, tn)) then Some(DeleteNamespace(key, s, name, tn))
    else Some(s)
  }

  function DeleteStale(key: Key, s: Cluster, tn: Tenant, stale: Stale): Option<Cluster> {
    if stale.NoStale? then Some(s) else DeleteDependency(key, s, stale.name, stale.loaded, tn)
  }

  /** The previously recorded namespace is another one than the tenant's, and not its own. */
  predicate HasStale(key: Key, tn: Tenant) {
    tn.statusNamespace != "" && tn.statusNamespace != key.namespace && tn.statusNamespace != NamespaceName(key, tn)
  }

  function StaleOf(key: Key, s: Cluster, tn: Tenant): Stale {
    if HasStale(key, tn) then StaleNamespace(tn.statusNamespace, Get(s, tn.statusNamespace)) else NoStale
  }

  /** A namespace that a finished Delete answers for still belongs to the tenant. */
  predicate StillOwned(key: Key, s: Cluster, tn: Tenant) {
    || (tn.Managed() && Owned(key, s, tn.template, tn))
    || (HasStale(key, tn) && Owned(key, s, tn.statusNamespace, tn))
  }

  /** Where a pass goes when a call fails: a failure to persist is only reported in the status. */
  function AfterFailure(pass: Pass): Pass {
    if pass.PersistingNamespace? || pass.PersistingPolicy? || pass.PersistingLimits? then WritingStatus(pass.tn) else Idle
  }

  function LoadNamespace(key: Key, s: Cluster, tn: Tenant): Cluster {
    var name := NamespaceName(key, tn);
    var ns := Get(s, name);
    if !tn.Managed() && ns.None? then Stop(s) else s.(touched := s.touched - {name}, pass := LoadingStale(tn, ns))
  }

  function LoadStale(key: Key, s: Cluster, tn: Tenant, ns: Option<Namespace>): Cluster {
    s.(touched := if HasStale(key, tn) then s.touched - {tn.statusNamespace} else s.touched,
       pass := Finalizing(tn, ns, StaleOf(key, s, tn)))
  }

  function Finalize(key: Key, s: Cluster, tn: Tenant, ns: Option<Namespace>, stale: Stale): Cluster {
    if tn.deleting then
      var s' := DeleteStale(key, s, tn, stale);
      if s'.None? then Stop(s) else s'.value.(pass := FinalDelete(tn, ns))
    else if FINALIZER in tn.finalizers then s.(pass := DeletingStale(tn, ns, stale))
    else if UpdateAccepted(s, tn) then
      var tn' := tn.(finalizers := tn.finalizers + {FINALIZER}, version := s.next);
      s.(tenant := Some(tn'), next := s.next + 1, pass := DeletingStale(tn', ns, stale))
    else Stop(s)
  }

  function DeleteOwn(key: Key, s: Cluster, tn: Tenant, ns: Option<Namespace>): Cluster {
    var s' := if tn.Managed() then DeleteDependency(key, s, tn.template, ns, tn) else Some(s);
    if s'.None? then Stop(s) else s'.value.(pass := RemovingFinalizer(tn))
  }

  function DropFinalizer(key: Key, s: Cluster, tn: Tenant): Cluster {
    if UpdateAccepted(s, tn) then
      Stop(s.(tenant := Store(tn.(finalizers := tn.finalizers - {FINALIZER}, version := s.next)), next := s.next + 1,
              log := if HasFinalizer(s) then s.log + [FinalizerRemoved(StillOwned(key, s, tn))] else s.log))
    else Stop(s)
  }

  function DeleteOld(key: Key, s: Cluster, tn: Tenant, ns: Option<Namespace>, stale: Stale): Cluster {
    var s' := DeleteStale(key, s, tn, stale);
    if s'.None? then Stop(s) else s'.value.(pass := if tn.Managed() then PersistingNamespace(tn, ns) else WritingStatus(tn))
  }

  function PersistNamespace(key: Key, s: Cluster, tn: Tenant, ns: Option<Namespace>): Cluster {
    if PersistAccepted(s, tn, ns) then
      var ns' := Namespace(if ns.Some? then ns.value.uid else s.next, s.next, DependencyOf(OwnerOf(key, tn)));
      s.(namespaces := s.namespaces[tn.template := ns'], next := s.next + 1, pass := PersistingPolicy(tn),
         log := s.log + [Persisted(Guarded(s, tn))])
    else s.(pass := WritingStatus(tn))
  }

  function PersistOther(s: Cluster, tn: Tenant, pass: Pass): Cluster {
    s.(pass := pass, log := s.log + [Persisted(Guarded(s, tn))])
  }

  function WriteStatus(key: Key, s: Cluster, tn: Tenant): Cluster {
    if UpdateAccepted(s, tn)
    then Stop(s.(tenant := Some(s.tenant.value.(statusNamespace := NamespaceName(key, tn), version := s.next)), next := s.next + 1))
    else Stop(s)
  }

  /** The next client call of the pass, carried out by the API server. */
  function Control(key: Key, s: Cluster): Cluster {
    match s.pass
    case Idle => if s.tenant.Some? then s.(pass := LoadingNamespace(s.tenant.value)) else s
    case LoadingNamespace(tn) => LoadNamespace(key, s, tn)
    case LoadingStale(tn, ns) => LoadStale(key, s, tn, ns)
    case Finalizing(tn, ns, stale) => Finalize(key, s, tn, ns, stale)
    case FinalDelete(tn, ns) => DeleteOwn(key, s, tn, ns)
    case RemovingFinalizer(tn) => DropFinalizer(key, s, tn)
    case DeletingStale(tn, ns, stale) => DeleteOld(key, s, tn, ns, stale)
    case PersistingNamespace(tn, ns) => PersistNamespace(key, s, tn, ns)
    case PersistingPolicy(tn) => PersistOther(s, tn, PersistingLimits(tn))
    case PersistingLimits(tn) => PersistOther(s, tn, WritingStatus(tn))
    case WritingStatus(tn) => WriteStatus(key, s, tn)
  }

  /** Creating needs the name to be free; updating needs the object as it was loaded. */
  predicate PersistAccepted(s: Cluster, tn: Tenant, ns: Option<Namespace>) {
    match ns
    case None => tn.template !in s.namespaces
    case Some(o) =>
      tn.template in s.namespaces && s.namespaces[tn.template].uid == o.uid && s.namespaces[tn.template].version == o.version
  }

  function Step(key: Key, s: Cluster, a: Action): Cluster {
    match a
    case Proceed(Answered) => Control(key, s)
    case Proceed(Refused) => s.(pass := AfterFailure(s.pass))
    case Proceed(Lost) => Control(key, s).(pass := AfterFailure(s.pass))
    case EditTemplate(template) =>
      if s.tenant.None? then s
      else s.(tenant := Some(s.tenant.value.(template := template, version := s.next)), next := s.next + 1)
    case RequestDeletion =>
      if s.tenant.None? then s
      else s.(tenant := Store(s.tenant.value.(deleting := true, version := s.next)), next := s.next + 1)
    case CreateTenant(template) =>
      if s.tenant.Some? then s
      else s.(tenant := Some(Tenant(s.next, s.next, template, {}, false, "")), next := s.next + 1)
    case SetOtherFinalizers(others) =>
      if s.tenant.None? then s
      else
        var mine := s.tenant.value.finalizers * {FINALIZER};
        s.(tenant := Store(s.tenant.value.(finalizers := mine + (others - {FINALIZER}), version := s.next)), next := s.next + 1)
    case CreateNamespace(name) =>
      if name in s.namespaces then s
      else
        s.(namespaces := s.namespaces[name := Namespace(s.next, s.next, NoAnnotation)], touched := s.touched + {name}, next := s.next + 1)
    case DropNamespace(name) => s.(namespaces := s.namespaces - {name}, touched := s.touched + {name})
    case Annex(name, other) =>
      if Mine(key, other) then s
      else
        var uid := if name in s.namespaces then s.namespaces[name].uid else s.next;
        s.(namespaces := s.namespaces[name := Namespace(uid, s.next, DependencyOf(other))], touched := s.touched + {name}, next := s.next + 1)
  }

  predicate Mine(key: Key, id: Identity) { id.namespace == key.namespace && id.name == key.name }

  function Run(key: Key, s: Cluster, actions: seq<Action>): Cluster
    decreases |actions|
  {
    if actions == [] then s else Run(key, Step(key, s, actions[0]), actions[1..])
  }

  // ---- the invariant of every run ----

  /** What a reader of the log may conclude; `undisturbed` says that nobody else drops or annexes a namespace. */
  predicate Sound(e: Event, undisturbed: bool) {
    match e
    case Persisted(guarded) => guarded
    case Deleted(annotation, owner, touched) => (annotation == DependencyOf(owner) <==> !touched) && (undisturbed ==> !touched)
    case FinalizerRemoved(stillOwned) => !stillOwned
  }

  predicate SoundLog(s: Cluster, undisturbed: bool) { forall e <- s.log :: Sound(e, undisturbed) }

  /** How a loaded copy relates to the cluster: it is current, or others touched the namespace and it is not the tenant's. */
  predicate Current(key: Key, s: Cluster, name: string, tn: Tenant, loaded: Option<Namespace>, undisturbed: bool) {
    && (if name in s.touched then !Owned(key, s, name, tn) else Get(s, name) == loaded)
    && (undisturbed && loaded.Some? ==> name !in s.touched)
  }

  predicate CurrentStale(key: Key, s: Cluster, tn: Tenant, stale: Stale, undisturbed: bool) {
    if HasStale(key, tn)
    then stale.StaleNamespace? && stale.name == tn.statusNamespace && Current(key, s, stale.name, tn, stale.loaded, undisturbed)
    else stale == NoStale
  }

  predicate GuardedIfMarked(s: Cluster, tn: Tenant) { FINALIZER in tn.finalizers ==> Guarded(s, tn) }

  predicate PassInvariant(key: Key, s: Cluster, undisturbed: bool) {
    match s.pass
    case Idle => true
    case LoadingNamespace(tn) => GuardedIfMarked(s, tn)
    case LoadingStale(tn, ns) => GuardedIfMarked(s, tn) && Current(key, s, NamespaceName(key, tn), tn, ns, undisturbed)
    case Finalizing(tn, ns, stale) =>
      GuardedIfMarked(s, tn) && Current(key, s, NamespaceName(key, tn), tn, ns, undisturbed) && CurrentStale(key, s, tn, stale, undisturbed)
    case FinalDelete(tn, ns) =>
      && Current(key, s, NamespaceName(key, tn), tn, ns, undisturbed)
      && (HasStale(key, tn) ==> !Owned(key, s, tn.statusNamespace, tn))
    case RemovingFinalizer(tn) => !StillOwned(key, s, tn)
    case DeletingStale(tn, ns, stale) => Guarded(s, tn) && CurrentStale(key, s, tn, stale, undisturbed)
    case PersistingNamespace(tn, ns) => Guarded(s, tn)
    case PersistingPolicy(tn) => Guarded(s, tn)
    case PersistingLimits(tn) => Guarded(s, tn)
    case WritingStatus(tn) => true
  }

  predicate Invariant(key: Key, s: Cluster, undisturbed: bool) {
    SoundLog(s, undisturbed) && PassInvariant(key, s, undisturbed)
  }

  /** A new cluster state that keeps the finalizer and changes namespaces only as others may. */
  ghost predicate ByOthers(key: Key, s: Cluster, s': Cluster, undisturbed: bool) {
    && s'.pass == s.pass && s'.log == s.log
    && (HasFinalizer(s) ==> HasFinalizer(s') && s'.tenant.value.uid == s.tenant.value.uid)
    && (forall name :: Touches(key, s, s', name, undisturbed))
  }

  /** A namespace is as it was, or marked as touched and not annotated with any tenant of this name. */
  predicate Touches(key: Key, s: Cluster, s': Cluster, name: string, undisturbed: bool) {
    || (Get(s', name) == Get(s, name) && (name in s'.touched <==> name in s.touched))
    || (name in s'.touched && Foreign(key, s', name) && (undisturbed ==> Get(s, name).None?))
  }

  predicate Foreign(key: Key, s: Cluster, name: string) {
    name in s.namespaces ==>
      s.namespaces[name].annotation.DependencyOf? ==> !Mine(key, s.namespaces[name].annotation.owner)
  }

  lemma CurrentByOthers(key: Key, s: Cluster, s': Cluster, name: string, tn: Tenant, loaded: Option<Namespace>, undisturbed: bool)
    requires ByOthers(key, s, s', undisturbed) && Current(key, s, name, tn, loaded, undisturbed)
    ensures Current(key, s', name, tn, loaded, undisturbed)
  {
    assert Touches(key, s, s', name, undisturbed);
  }

  lemma OwnedByOthers(key: Key, s: Cluster, s': Cluster, name: string, tn: Tenant, undisturbed: bool)
    requires ByOthers(key, s, s', undisturbed) && Owned(key, s', name, tn)
    ensures Owned(key, s, name, tn)
  {
    assert Touches(key, s, s', name, undisturbed);
  }

  lemma StaleByOthers(key: Key, s: Cluster, s': Cluster, tn: Tenant, stale: Stale, undisturbed: bool)
    requires ByOthers(key, s, s', undisturbed) && CurrentStale(key, s, tn, stale, undisturbed)
    ensures CurrentStale(key, s', tn, stale, undisturbed)
  {
    hide Current, ByOthers;
    if HasStale(key, tn) { CurrentByOthers(key, s, s', stale.name, tn, stale.loaded, undisturbed); }
  }

  lemma GuardedByOthers(key: Key, s: Cluster, s': Cluster, tn: Tenant, undisturbed: bool)
    requires ByOthers(key, s, s', undisturbed)
    ensures Guarded(s, tn) ==> Guarded(s', tn)
  {}

  lemma PassByOthers(key: Key, s: Cluster, s': Cluster, undisturbed: bool)
    requires ByOthers(key, s, s', undisturbed) && PassInvariant(key, s, undisturbed)
    ensures PassInvariant(key, s', undisturbed)
  {
    assert s'.pass == s.pass;
    hide ByOthers, Current, CurrentStale, Guarded, Owned;
    if !s.pass.Idle? { GuardedByOthers(key, s, s', s.pass.tn, undisturbed); }
    match s.pass {
      case LoadingStale(tn, ns) => CurrentByOthers(key, s, s', NamespaceName(key, tn), tn, ns, undisturbed);
      case Finalizing(tn, ns, stale) =>
        CurrentByOthers(key, s, s', NamespaceName(key, tn), tn, ns, undisturbed);
        StaleByOthers(key, s, s', tn, stale, undisturbed);
      case FinalDelete(tn, ns) =>
        CurrentByOthers(key, s, s', NamespaceName(key, tn), tn, ns, undisturbed);
        if Owned(key, s', tn.statusNamespace, tn) { OwnedByOthers(key, s, s', tn.statusNamespace, tn, undisturbed); }
      case RemovingFinalizer(tn) =>
        if Owned(key, s', tn.statusNamespace, tn) { OwnedByOthers(key, s, s', tn.statusNamespace, tn, undisturbed); }
        if Owned(key, s', tn.template, tn) { OwnedByOthers(key, s, s', tn.template, tn, undisturbed); }
      case DeletingStale(tn, ns, stale) => StaleByOthers(key, s, s', tn, stale, undisturbed);
      case _ =>
    }
  }

  lemma OthersStep(key: Key, s: Cluster, a: Action, undisturbed: bool)
    requires !a.Proceed? && (undisturbed ==> !Disturbs(a))
    ensures ByOthers(key, s, Step(key, s, a), undisturbed)
  {}

  // ---- the controller's own steps ----

  /** Deleting a dependency keeps the log sound and leaves the namespace not owned. */
  lemma DeletionIsSound(key: Key, s: Cluster, name: string, loaded: Option<Namespace>, tn: Tenant, undisturbed: bool)
    requires SoundLog(s, undisturbed) && Current(key, s, name, tn, loaded, undisturbed)
    requires DeleteDependency(key, s, name, loaded, tn).Some?
    ensures var s' := DeleteDependency(key, s, name, loaded, tn).value;
      && SoundLog(s', undisturbed) && !Owned(key, s', name, tn)
      && s'.tenant == s.tenant && s'.touched == s.touched
      && (forall other | other != name :: Get(s', other) == Get(s, other))
      && s'.namespaces.Keys <= s.namespaces.Keys && (forall n <- s'.namespaces :: s'.namespaces[n] == s.namespaces[n])
  {}

  lemma StaleDeletionIsSound(key: Key, s: Cluster, stale: Stale, tn: Tenant, undisturbed: bool)
    requires SoundLog(s, undisturbed) && CurrentStale(key, s, tn, stale, undisturbed)
    requires DeleteStale(key, s, tn, stale).Some?
    ensures var s' := DeleteStale(key, s, tn, stale).value;
      && SoundLog(s', undisturbed) && (HasStale(key, tn) ==> !Owned(key, s', tn.statusNamespace, tn))
      && s'.tenant == s.tenant && s'.touched == s.touched
      && Get(s', NamespaceName(key, tn)) == Get(s, NamespaceName(key, tn))
  {
    hide Current, Owned, SoundLog, DeleteDependency, Get;
    if HasStale(key, tn) { DeletionIsSound(key, s, stale.name, stale.loaded, tn, undisturbed); }
  }

  lemma FinalizeKeeps(key: Key, s: Cluster, undisturbed: bool)
    requires Invariant(key, s, undisturbed) && s.pass.Finalizing?
    ensures Invariant(key, Control(key, s), undisturbed)
  {
    hide DeleteStale;
    var tn, stale := s.pass.tn, s.pass.stale;
    if tn.deleting && DeleteStale(key, s, tn, stale).Some? {
      StaleDeletionIsSound(key, s, stale, tn, undisturbed);
    }
  }

  lemma DeleteOwnKeeps(key: Key, s: Cluster, undisturbed: bool)
    requires Invariant(key, s, undisturbed) && s.pass.FinalDelete?
    ensures Invariant(key, Control(key, s), undisturbed)
  {
    hide DeleteDependency, Current;
    var tn, ns := s.pass.tn, s.pass.ns;
    if tn.Managed() && DeleteDependency(key, s, tn.template, ns, tn).Some? {
      DeletionIsSound(key, s, tn.template, ns, tn, undisturbed);
    }
  }

  lemma DeleteOldKeeps(key: Key, s: Cluster, undisturbed: bool)
    requires Invariant(key, s, undisturbed) && s.pass.DeletingStale?
    ensures Invariant(key, Control(key, s), undisturbed)
  {
    hide CurrentStale, DeleteStale;
    var tn, stale := s.pass.tn, s.pass.stale;
    if DeleteStale(key, s, tn, stale).Some? {
      StaleDeletionIsSound(key, s, stale, tn, undisturbed);
    }
  }

  lemma ControlKeeps(key: Key, s: Cluster, undisturbed: bool)
    requires Invariant(key, s, undisturbed)
    ensures Invariant(key, Control(key, s), undisturbed)
  {
    match s.pass
    case Finalizing(_, _, _) => FinalizeKeeps(key, s, undisturbed);
    case FinalDelete(_, _) => DeleteOwnKeeps(key, s, undisturbed);
    case DeletingStale(_, _, _) => DeleteOldKeeps(key, s, undisturbed);
    case _ =>
  }

  lemma StepKeeps(key: Key, s: Cluster, a: Action, undisturbed: bool)
    requires Invariant(key, s, undisturbed) && (undisturbed ==> !Disturbs(a))
    ensures Invariant(key, Step(key, s, a), undisturbed)
  {
    hide Control, ByOthers;
    if a.Proceed? {
      ControlKeeps(key, s, undisturbed);
    } else {
      hide PassInvariant, Step;
      OthersStep(key, s, a, undisturbed);
      PassByOthers(key, s, Step(key, s, a), undisturbed);
      LogByOthers(key, s, Step(key, s, a), undisturbed);
    }
  }

  lemma LogByOthers(key: Key, s: Cluster, s': Cluster, undisturbed: bool)
    requires ByOthers(key, s, s', undisturbed) && SoundLog(s, undisturbed)
    ensures SoundLog(s', undisturbed)
  {}

  lemma {:induction false} RunKeeps(key: Key, s: Cluster, actions: seq<Action>, undisturbed: bool)
    requires Invariant(key, s, undisturbed) && (undisturbed ==> forall a <- actions :: !Disturbs(a))
    ensures Invariant(key, Run(key, s, actions), undisturbed)
    decreases |actions|
  {
    hide Invariant, Step;
    if actions != [] {
      StepKeeps(key, s, actions[0], undisturbed);
      RunKeeps(key, Step(key, s, actions[0]), actions[1..], undisturbed);
    }
  }

  /**
   * Over every run of reconcile passes, failing, or losing an answer, at any client call, mixed in any
   * way with spec edits, deletion requests and what users and other tenants' passes do to namespaces:
   * dependents are written only while the stored tenant carries the finalizer; the finalizer goes only
   * when no namespace that its pass answers for is annotated with the tenant any more; and a deleted
   * namespace is annotated with exactly this tenant if and only if nobody else touched it since the pass
   * loaded it, which nobody has when nobody else drops or annexes namespaces.
   */
  lemma FinalizerProtocol(key: Key, s: Cluster, actions: seq<Action>, undisturbed: bool)
    requires s.pass.Idle? && s.log == []
    requires undisturbed ==> forall a <- actions :: !Disturbs(a)
    ensures forall e <- Run(key, s, actions).log :: Sound(e, undisturbed)
  {
    hide Run;
    RunKeeps(key, s, actions, undisturbed);
  }

  // ---- deletion goes by name: what others made of the namespace is deleted in its place ----

  const KEY := Key("relay", "acme")
  const OLD := Namespace(2, 2, DependencyOf(Identity(true, "relay", "acme", 0)))
  const LEAVING := Tenant(0, 1, "acme-ns", {FINALIZER}, true, "acme-ns")
  const LEAVING_CLUSTER := Cluster(Some(LEAVING), map["acme-ns" := OLD], Idle, {}, 3, [])

  const REPLACE: seq<Action> := [Proceed(Answered), Proceed(Answered), Proceed(Answered), Proceed(Answered),
    DropNamespace("acme-ns"), CreateNamespace("acme-ns"), Proceed(Answered)]

  /** The check of the annotation is on the copy that was loaded, and the delete call names no uid. */
  lemma ReplacedNamespaceIsDeleted()
    ensures Run(KEY, LEAVING_CLUSTER, REPLACE).log
      == [Deleted(NoAnnotation, Identity(true, "relay", "acme", 0), true)]
  {
    var s := LEAVING_CLUSTER;
    var s1 := Step(KEY, s, REPLACE[0]);
    var s2 := Step(KEY, s1, REPLACE[1]);
    var s3 := Step(KEY, s2, REPLACE[2]);
    var s4 := Step(KEY, s3, REPLACE[3]);
    assert s4 == s.(pass := FinalDelete(LEAVING, Some(OLD)));
    var s5 := Step(KEY, s4, REPLACE[4]);
    var s6 := Step(KEY, s5, REPLACE[5]);
    assert s6.namespaces == map["acme-ns" := Namespace(3, 3, NoAnnotation)];
    var s7 := Step(KEY, s6, REPLACE[6]);
    assert s7.log == [Deleted(NoAnnotation, Identity(true, "relay", "acme", 0), true)];
    hide Step;
    RunOn(KEY, s, REPLACE, 0); RunOn(KEY, s, REPLACE, 1); RunOn(KEY, s, REPLACE, 2); RunOn(KEY, s, REPLACE, 3);
    RunOn(KEY, s, REPLACE, 4); RunOn(KEY, s, REPLACE, 5); RunOn(KEY, s, REPLACE, 6);
    assert REPLACE[..7] == REPLACE;
  }

  const OTHER := Identity(true, "relay", "rival", 7)

  const ANNEX: seq<Action> := [Proceed(Answered), Proceed(Answered), Proceed(Answered), Proceed(Answered),
    Annex("acme-ns", OTHER), Proceed(Answered)]

  /** Two tenants name the same namespace: the one that leaves deletes what the other has just made its own. */
  lemma AnnexedNamespaceIsDeleted()
    ensures Run(KEY, LEAVING_CLUSTER, ANNEX).log
      == [Deleted(DependencyOf(OTHER), Identity(true, "relay", "acme", 0), true)]
  {
    var s := LEAVING_CLUSTER;
    var s1 := Step(KEY, s, ANNEX[0]);
    var s2 := Step(KEY, s1, ANNEX[1]);
    var s3 := Step(KEY, s2, ANNEX[2]);
    var s4 := Step(KEY, s3, ANNEX[3]);
    assert s4 == s.(pass := FinalDelete(LEAVING, Some(OLD)));
    var s5 := Step(KEY, s4, ANNEX[4]);
    assert s5.namespaces == map["acme-ns" := Namespace(2, 3, DependencyOf(OTHER))];
    var s6 := Step(KEY, s5, ANNEX[5]);
    assert s6.log == [Deleted(DependencyOf(OTHER), Identity(true, "relay", "acme", 0), true)];
    hide Step;
    RunOn(KEY, s, ANNEX, 0); RunOn(KEY, s, ANNEX, 1); RunOn(KEY, s, ANNEX, 2);
    RunOn(KEY, s, ANNEX, 3); RunOn(KEY, s, ANNEX, 4); RunOn(KEY, s, ANNEX, 5);
    assert ANNEX[..6] == ANNEX;
  }

  /** A run grows at its end. */
  lemma {:induction false} RunOn(key: Key, s: Cluster, actions: seq<Action>, i: nat)
    requires i < |actions|
    ensures Run(key, s, actions[..0]) == s
    ensures Run(key, s, actions[..i + 1]) == Step(key, Run(key, s, actions[..i]), actions[i])
    decreases i
  {
    hide Step;
    assert actions[..i + 1][0] == actions[0];
    if i > 0 {
      RunOn(key, Step(key, s, actions[0]), actions[1..], i - 1);
      assert actions[..i + 1][1..] == actions[1..][..i];
      assert actions[..i][1..] == actions[1..][..i - 1];
    } else {
      assert actions[..1][1..] == [];
    }
  }

  // ---- the finalizer lists themselves ----

  predicate Distinct(fs: seq<string>) { forall i, j | 0 <= i < j < |fs| :: fs[i] != fs[j] }

  function Members(fs: seq<string>): set<string> { set f <- fs }

  method AddFinalizer(fs: seq<string>, name: string) returns (added: bool, out: seq<string>)
    ensures added <==> name !in fs
    ensures Members(out) == Members(fs) + {name}
    ensures Distinct(fs) ==> Distinct(out)
    ensures !added ==> out == fs
  {
    for i := 0 to |fs|
      invariant name !in fs[..i]
    {
      if fs[i] == name { return false, fs; }
    }
    assert fs[..|fs|] == fs;
    return true, fs + [name];
  }

  /** The list without its element at `cut`: the last element takes its place. */
  function Cut(fs: seq<string>, cut: nat): seq<string>
    requires cut < |fs|
  {
    fs[cut := fs[|fs| - 1]][..|fs| - 1]
  }

  lemma CutRemovesOne(fs: seq<string>, cut: nat)
    requires cut < |fs|
    ensures multiset(Cut(fs, cut)) == multiset(fs) - multiset{fs[cut]}
  {
    var last := |fs| - 1;
    assert fs == fs[..last] + [fs[last]];
    if cut < last {
      assert Cut(fs, cut) == fs[..last][cut := fs[last]];
    } else {
      assert Cut(fs, cut) == fs[..last];
    }
  }

  lemma CutOfDistinct(fs: seq<string>, cut: nat)
    requires cut < |fs| && Distinct(fs)
    ensures Distinct(Cut(fs, cut)) && Members(Cut(fs, cut)) == Members(fs) - {fs[cut]}
  {
    var out, last := Cut(fs, cut), |fs| - 1;
    forall f | f in fs && f != fs[cut] ensures f in out {
      var i :| 0 <= i < |fs| && fs[i] == f;
      assert if i == last then out[cut] == f else out[i] == f;
    }
  }

  method RemoveFinalizer(fs: seq<string>, name: string) returns (removed: bool, out: seq<string>)
    ensures removed <==> name in fs
    ensures multiset(out) == multiset(fs) - multiset{name}
    ensures Distinct(fs) ==> Distinct(out) && Members(out) == Members(fs) - {name}
  {
    for i := 0 to |fs|
      invariant name !in fs[..i]
    {
      if fs[i] == name {
        CutRemovesOne(fs, i);
        if Distinct(fs) { CutOfDistinct(fs, i); }
        return true, Cut(fs, i);
      }
    }
    assert fs[..|fs|] == fs;
    return false, fs;
  }
}
