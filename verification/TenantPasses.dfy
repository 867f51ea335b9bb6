/** What a reconcile pass achieves when every call is answered and nobody interferes (pkg/reconciler/tenant/reconciler.go). */
module TenantPasses {
  import opened Trees
  import opened Tenants

  const MARK: string := "tenant.finalizers.controller.relay.sh"

  /** `n` calls of the pass, all answered. */
  function Answers(n: nat): seq<Action> { seq(n, _ => Proceed(Answered)) }

  /** The annotation of a namespace that depends on the tenant with this key and uid. */
  function Mine(key: Key, uid: nat): Annotation { DependencyOf(Identity(true, key.namespace, key.name, uid)) }

  /** The name of the tenant's own namespace. */
  function Home(key: Key, tn: Tenant): string { if tn.template != "" then tn.template else key.namespace }

  /** The recorded namespace is another one, which the pass has to look after. */
  predicate Moved(key: Key, tn: Tenant) {
    tn.statusNamespace != "" && tn.statusNamespace != key.namespace && tn.statusNamespace != Home(key, tn)
  }

  predicate Has(s: Cluster, name: string, a: Annotation) { name in s.namespaces && s.namespaces[name].annotation == a }

  predicate Unreadable(s: Cluster, name: string) { name in s.namespaces && s.namespaces[name].annotation.Garbled? }

  lemma {:induction false} RunAnswers(key: Key, s: Cluster, n: nat)
    requires n > 0
    ensures Run(key, s, Answers(n)) == Run(key, Control(key, s), Answers(n - 1))
  {
    assert Answers(n)[1..] == Answers(n - 1);
    hide Control;
  }

  lemma RunNothing(key: Key, s: Cluster)
    ensures Run(key, s, Answers(0)) == s
  {
  }

  /** Loading: three answers in, the pass knows the tenant, its namespace and the one it moved from. */
  function Loaded(key: Key, s: Cluster): Cluster
    requires s.tenant.Some?
  {
    var tn := s.tenant.value;
    var home, last := Home(key, tn), tn.statusNamespace;
    if Moved(key, tn)
    then s.(touched := s.touched - {home} - {last}, pass := Finalizing(tn, Get(s, home), StaleNamespace(last, Get(s, last))))
    else s.(touched := s.touched - {home}, pass := Finalizing(tn, Get(s, home), NoStale))
  }

  predicate CanLoad(key: Key, s: Cluster) {
    s.pass.Idle? && s.tenant.Some? && (s.tenant.value.template == "" ==> key.namespace in s.namespaces)
  }

  lemma Loads(key: Key, s: Cluster, n: nat)
    requires CanLoad(key, s)
    ensures Run(key, s, Answers(n + 3)) == Run(key, Loaded(key, s), Answers(n))
  {
    var s1 := Control(key, s);
    var s2 := Control(key, s1);
    var s3 := Control(key, s2);
    assert s3 == Loaded(key, s);
    RunAnswers(key, s, n + 3);
    RunAnswers(key, s1, n + 2);
    RunAnswers(key, s2, n + 1);
  }

  /** What looking after the previous namespace comes to: it goes if it is the tenant's. */
  function Cleared(key: Key, s: Cluster, tn: Tenant): Cluster {
    var last := tn.statusNamespace;
    if Moved(key, tn) && Has(s, last, Mine(key, tn.uid))
    then s.(namespaces := s.namespaces - {last}, log := s.log + [Deleted(Mine(key, tn.uid), Identity(true, key.namespace, key.name, tn.uid), false)])
    else s
  }

  lemma Clears(key: Key, s: Cluster, tn: Tenant)
    requires Moved(key, tn) ==> tn.statusNamespace !in s.touched && !Unreadable(s, tn.statusNamespace)
    ensures DeleteStale(key, s, tn, StaleIn(key, s, tn)) == Some(Cleared(key, s, tn))
  {
  }

  function StaleIn(key: Key, s: Cluster, tn: Tenant): Stale {
    if Moved(key, tn) then StaleNamespace(tn.statusNamespace, Get(s, tn.statusNamespace)) else NoStale
  }

  lemma LoadedFacts(key: Key, s: Cluster)
    requires s.tenant.Some?
    ensures
      var s3, tn := Loaded(key, s), s.tenant.value;
      && s3.tenant == s.tenant && s3.namespaces == s.namespaces && s3.log == s.log && s3.next == s.next
      && s3.pass == Finalizing(tn, Get(s, Home(key, tn)), StaleIn(key, s, tn))
      && Home(key, tn) !in s3.touched && (Moved(key, tn) ==> tn.statusNamespace !in s3.touched)
  {
  }

  lemma DeletesOld(key: Key, s: Cluster, tn: Tenant, ns: Option<Namespace>, stale: Stale)
    requires s.pass == DeletingStale(tn, ns, stale) && stale == StaleIn(key, s, tn)
    requires Moved(key, tn) ==> tn.statusNamespace !in s.touched && !Unreadable(s, tn.statusNamespace)
    ensures Control(key, s) == Cleared(key, s, tn).(pass := if tn.template != "" then PersistingNamespace(tn, ns) else WritingStatus(tn))
  {
    Clears(key, s, tn);
    hide DeleteStale, Cleared;
  }

  lemma StartsDeleting(key: Key, s: Cluster, tn: Tenant, ns: Option<Namespace>, stale: Stale)
    requires s.pass == Finalizing(tn, ns, stale) && tn.deleting && stale == StaleIn(key, s, tn)
    requires Moved(key, tn) ==> tn.statusNamespace !in s.touched && !Unreadable(s, tn.statusNamespace)
    ensures Control(key, s) == Cleared(key, s, tn).(pass := FinalDelete(tn, ns))
  {
    Clears(key, s, tn);
    hide DeleteStale, Cleared;
  }

  lemma WritesStatus(key: Key, s: Cluster, tn: Tenant)
    requires s.pass == WritingStatus(tn) && s.tenant == Some(tn)
    ensures
      var s' := Control(key, s);
      && s'.pass.Idle? && s'.namespaces == s.namespaces && s'.log == s.log
      && s'.tenant.Some? && s'.tenant.value.(version := tn.version) == tn.(statusNamespace := Home(key, tn))
  {
  }

  /** The tenant as the pass stores it, with the finalizer. */
  function Marked(s: Cluster, tn: Tenant): Tenant {
    if MARK in tn.finalizers then tn else tn.(finalizers := tn.finalizers + {MARK}, version := s.next)
  }

  /**
   * An answered pass for a tenant that stays. If it manages a namespace, then that and its policy and limits are
   * written under the finalizer, and annotated with the tenant; a namespace that it moved from is gone if it was
   * the tenant's; all others are as they were, and the status names the tenant's namespace.
   */
  lemma ManagedPass(key: Key, s: Cluster)
    requires CanLoad(key, s) && s.tenant.value.template != "" && !s.tenant.value.deleting
    requires Moved(key, s.tenant.value) ==> !Unreadable(s, s.tenant.value.statusNamespace)
    ensures
      var tn, s' := s.tenant.value, Run(key, s, Answers(9));
      var last, home := tn.statusNamespace, tn.template;
      var gone := Moved(key, tn) && Has(s, last, Mine(key, tn.uid));
      && s'.pass.Idle? && Has(s', home, Mine(key, tn.uid))
      && (home in s.namespaces ==> s'.namespaces[home].uid == s.namespaces[home].uid)
      && s'.namespaces.Keys == s.namespaces.Keys + {home} - (if gone then {last} else {})
      && (forall name :: name in s'.namespaces && name != home ==> s'.namespaces[name] == s.namespaces[name])
      && s'.log == s.log + (if gone then [Deleted(Mine(key, tn.uid), Identity(true, key.namespace, key.name, tn.uid), false)] else [])
                         + [Persisted(true), Persisted(true), Persisted(true)]
      && s'.tenant.Some? && s'.tenant.value.uid == tn.uid && s'.tenant.value.finalizers == tn.finalizers + {MARK}
      && s'.tenant.value.statusNamespace == home && s'.tenant.value.template == home && !s'.tenant.value.deleting
  {
    hide Control, Run, Loaded, Answers;
    var tn := s.tenant.value;
    var s3 := Loaded(key, s);
    LoadedFacts(key, s);
    Loads(key, s, 6);
    var s4 := Control(key, s3);
    RunAnswers(key, s3, 6);
    MarksTenant(key, s, s3, s4);
    DeletesOld(key, s4, Marked(s, tn), s3.pass.ns, s3.pass.stale);
    var s5 := Control(key, s4);
    RunAnswers(key, s4, 5);
    Persists(key, s5, Marked(s, tn), Get(s, tn.template));
  }

  lemma MarksTenant(key: Key, s: Cluster, s3: Cluster, s4: Cluster)
    requires CanLoad(key, s) && !s.tenant.value.deleting && s3 == Loaded(key, s) && s4 == Control(key, s3)
    ensures
      var tn := s.tenant.value;
      && s4.tenant == Some(Marked(s, tn)) && s4.namespaces == s.namespaces && s4.log == s.log && s4.touched == s3.touched
      && s4.pass == DeletingStale(Marked(s, tn), s3.pass.ns, s3.pass.stale) && s4.next >= s.next
  {
  }

  /** The four calls that write the namespace, the policy, the limits and the status. */
  lemma Persists(key: Key, s: Cluster, tn: Tenant, ns: Option<Namespace>)
    requires s.pass == PersistingNamespace(tn, ns) && ns == Get(s, tn.template) && s.tenant == Some(tn) && MARK in tn.finalizers
    requires tn.template != ""
    ensures
      var s', home := Run(key, s, Answers(4)), tn.template;
      && s'.pass.Idle? && Has(s', home, Mine(key, tn.uid)) && s'.namespaces.Keys == s.namespaces.Keys + {home}
      && (home in s.namespaces ==> s'.namespaces[home].uid == s.namespaces[home].uid)
      && (forall name :: name in s'.namespaces && name != home ==> s'.namespaces[name] == s.namespaces[name])
      && s'.log == s.log + [Persisted(true), Persisted(true), Persisted(true)]
      && s'.tenant.Some? && s'.tenant.value.(version := tn.version) == tn.(statusNamespace := home)
  {
    var s1 := Control(key, s);
    RunAnswers(key, s, 4);
    assert s1.tenant == s.tenant && s1.pass == PersistingPolicy(tn) && s1.log == s.log + [Persisted(true)];
    var s2 := Control(key, s1);
    RunAnswers(key, s1, 3);
    var s3 := Control(key, s2);
    RunAnswers(key, s2, 2);
    assert s3.tenant == s.tenant && s3.pass == WritingStatus(tn) && s3.namespaces == s1.namespaces;
    assert s3.log == s.log + [Persisted(true), Persisted(true), Persisted(true)];
    var s4 := Control(key, s3);
    RunAnswers(key, s3, 1);
    RunNothing(key, s4);
  }

  /** An answered pass for a tenant that stays and manages no namespace: it lives in its own. */
  lemma UnmanagedPass(key: Key, s: Cluster)
    requires CanLoad(key, s) && s.tenant.value.template == "" && !s.tenant.value.deleting
    requires Moved(key, s.tenant.value) ==> !Unreadable(s, s.tenant.value.statusNamespace)
    ensures
      var tn, s' := s.tenant.value, Run(key, s, Answers(6));
      var last := tn.statusNamespace;
      var gone := Moved(key, tn) && Has(s, last, Mine(key, tn.uid));
      && s'.pass.Idle? && s'.namespaces == (if gone then s.namespaces - {last} else s.namespaces)
      && s'.log == s.log + (if gone then [Deleted(Mine(key, tn.uid), Identity(true, key.namespace, key.name, tn.uid), false)] else [])
      && s'.tenant.Some? && s'.tenant.value.uid == tn.uid && s'.tenant.value.finalizers == tn.finalizers + {MARK}
      && s'.tenant.value.statusNamespace == key.namespace
  {
    hide Control, Run, Loaded, Answers;
    var tn := s.tenant.value;
    var s3 := Loaded(key, s);
    LoadedFacts(key, s);
    Loads(key, s, 3);
    var s4 := Control(key, s3);
    RunAnswers(key, s3, 3);
    MarksTenant(key, s, s3, s4);
    DeletesOld(key, s4, Marked(s, tn), s3.pass.ns, s3.pass.stale);
    var s5 := Control(key, s4);
    RunAnswers(key, s4, 2);
    WritesStatus(key, s5, Marked(s, tn));
    RunAnswers(key, s5, 1);
    RunNothing(key, Control(key, s5));
  }

  /** Without its own namespace such a tenant is left alone. */
  lemma HomelessPass(key: Key, s: Cluster)
    requires s.pass.Idle? && s.tenant.Some? && s.tenant.value.template == "" && key.namespace !in s.namespaces
    ensures Run(key, s, Answers(2)) == s
  {
    var s1 := Control(key, s);
    var s2 := Control(key, s1);
    RunAnswers(key, s, 2);
    RunAnswers(key, s1, 1);
    RunNothing(key, s2);
  }

  /** What deleting the tenant's own namespace comes to. */
  function Vacated(key: Key, s: Cluster, tn: Tenant): Cluster {
    if tn.template != "" && Has(s, tn.template, Mine(key, tn.uid))
    then s.(namespaces := s.namespaces - {tn.template},
            log := s.log + [Deleted(Mine(key, tn.uid), Identity(true, key.namespace, key.name, tn.uid), false)])
    else s
  }

  /**
   * An answered pass for a tenant that goes: its namespace and one that it moved from are gone if they were its own,
   * all others are as they were, and so is the finalizer, with which the tenant goes unless others hold it.
   */
  lemma DeletingPass(key: Key, s: Cluster)
    requires CanLoad(key, s) && s.tenant.value.deleting
    requires Moved(key, s.tenant.value) ==> !Unreadable(s, s.tenant.value.statusNamespace)
    requires s.tenant.value.template != "" ==> !Unreadable(s, s.tenant.value.template)
    ensures
      var tn, s' := s.tenant.value, Run(key, s, Answers(6));
      var last := if Moved(key, tn) && Has(s, tn.statusNamespace, Mine(key, tn.uid)) then {tn.statusNamespace} else {};
      var own := if tn.template != "" && Has(s, tn.template, Mine(key, tn.uid)) then {tn.template} else {};
      && s'.pass.Idle? && s'.namespaces == s.namespaces - last - own
      && (if tn.finalizers - {MARK} == {} then s'.tenant.None?
          else s'.tenant.Some? && s'.tenant.value.(version := tn.version) == tn.(finalizers := tn.finalizers - {MARK}))
  {
    hide Control, Run, Loaded, Answers;
    var tn := s.tenant.value;
    var s3 := Loaded(key, s);
    LoadedFacts(key, s);
    Loads(key, s, 3);
    StartsDeleting(key, s3, tn, s3.pass.ns, s3.pass.stale);
    var s4 := Control(key, s3);
    RunAnswers(key, s3, 3);
    var s5 := Control(key, s4);
    RunAnswers(key, s4, 2);
    Vacates(key, s4, tn, s3.pass.ns);
    RunAnswers(key, s5, 1);
    RunNothing(key, Control(key, s5));
    DropsFinalizer(key, s5, tn);
  }

  lemma Vacates(key: Key, s: Cluster, tn: Tenant, ns: Option<Namespace>)
    requires s.pass == FinalDelete(tn, ns) && (tn.template != "" ==> ns == Get(s, tn.template) && !Unreadable(s, tn.template))
    requires tn.template != "" ==> tn.template !in s.touched
    ensures Control(key, s) == Vacated(key, s, tn).(pass := RemovingFinalizer(tn))
  {
  }

  lemma DropsFinalizer(key: Key, s: Cluster, tn: Tenant)
    requires s.pass == RemovingFinalizer(tn) && s.tenant == Some(tn) && tn.deleting
    ensures
      var s' := Control(key, s);
      && s'.pass.Idle? && s'.namespaces == s.namespaces
      && (if tn.finalizers - {MARK} == {} then s'.tenant.None?
          else s'.tenant.Some? && s'.tenant.value.(version := tn.version) == tn.(finalizers := tn.finalizers - {MARK}))
  {
  }

  /** An annotation that cannot be read stops the deletion, and the finalizer stays. */
  lemma BlockedDeletion(key: Key, s: Cluster)
    requires CanLoad(key, s) && s.tenant.value.deleting && Moved(key, s.tenant.value) && Unreadable(s, s.tenant.value.statusNamespace)
    ensures
      var s' := Run(key, s, Answers(4));
      s'.pass.Idle? && s'.namespaces == s.namespaces && s'.tenant == s.tenant && s'.log == s.log
  {
    Loads(key, s, 1);
    RunAnswers(key, Loaded(key, s), 1);
    RunNothing(key, Control(key, Loaded(key, s)));
  }

  /** A refused call ends the pass and changes nothing, but a failure to persist is still reported in the status. */
  lemma RefusedCall(key: Key, s: Cluster)
    ensures
      var s' := Step(key, s, Proceed(Refused));
      && s' == s.(pass := s'.pass)
      && (if s.pass.PersistingNamespace? || s.pass.PersistingPolicy? || s.pass.PersistingLimits? then s'.pass == WritingStatus(s.pass.tn)
          else s'.pass.Idle?)
  {
  }

  /** A call whose answer is lost does what it would have done, and the pass goes on as if it had been refused. */
  lemma LostCall(key: Key, s: Cluster)
    ensures Step(key, s, Proceed(Lost)) == Step(key, s, Proceed(Answered)).(pass := Step(key, s, Proceed(Refused)).pass)
  {
  }

  /** A tenant that changed since it was loaded is not written. */
  lemma StaleTenantIsNotWritten(key: Key, s: Cluster)
    requires s.pass.RemovingFinalizer? || s.pass.WritingStatus? || (s.pass.Finalizing? && !s.pass.tn.deleting && MARK !in s.pass.tn.finalizers)
    requires s.tenant.None? || s.tenant.value.uid != s.pass.tn.uid || s.tenant.value.version != s.pass.tn.version
    ensures Step(key, s, Proceed(Answered)) == s.(pass := Idle)
  {
  }

  /** Nor is a namespace that changed, or that was created or dropped, since it was loaded. */
  lemma StaleNamespaceIsNotWritten(key: Key, s: Cluster)
    requires s.pass.PersistingNamespace?
    requires
      var tn, ns := s.pass.tn, s.pass.ns;
      if ns.None? then tn.template in s.namespaces
      else tn.template !in s.namespaces || s.namespaces[tn.template].uid != ns.value.uid || s.namespaces[tn.template].version != ns.value.version
    ensures Step(key, s, Proceed(Answered)) == s.(pass := WritingStatus(s.pass.tn))
  {
  }

  /** What users do to a tenant. Marked for deletion without finalizers, it is gone; every change gives it a new version. */
  lemma UsersMean(key: Key, s: Cluster, template: string, others: set<string>)
    ensures s.tenant.None? ==>
      var s' := Step(key, s, CreateTenant(template));
      s' == s.(tenant := s'.tenant, next := s.next + 1) && s'.tenant == Some(Tenant(s.next, s.next, template, {}, false, ""))
    ensures s.tenant.Some? ==>
      var tn := s.tenant.value;
      var edited, leaving := Step(key, s, EditTemplate(template)), Step(key, s, RequestDeletion);
      && edited.tenant == Some(tn.(template := template, version := s.next)) && edited.namespaces == s.namespaces && edited.pass == s.pass
      && leaving.tenant == (if tn.finalizers == {} then None else Some(tn.(deleting := true, version := s.next)))
      && leaving.namespaces == s.namespaces && leaving.pass == s.pass
    ensures s.tenant.Some? && !s.tenant.value.deleting ==>
      Step(key, s, SetOtherFinalizers(others)).tenant
        == Some(s.tenant.value.(finalizers := (s.tenant.value.finalizers * {MARK}) + (others - {MARK}), version := s.next))
  {
  }

  /** What users and other tenants' passes do to namespaces. */
  lemma NamespacesMean(key: Key, s: Cluster, name: string, other: Identity)
    ensures Step(key, s, DropNamespace(name)).namespaces == s.namespaces - {name}
    ensures Step(key, s, CreateNamespace(name)).namespaces
         == if name in s.namespaces then s.namespaces else s.namespaces[name := Namespace(s.next, s.next, NoAnnotation)]
    ensures (other.namespace, other.name) != (key.namespace, key.name) ==>
      Step(key, s, Annex(name, other)).namespaces
        == s.namespaces[name := Namespace(if name in s.namespaces then s.namespaces[name].uid else s.next, s.next, DependencyOf(other))]
  {
  }
}
