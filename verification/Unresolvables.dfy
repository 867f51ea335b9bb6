/** The lists of unresolvable references that a result carries (pkg/expr/evaluate/result.go). */
module Unresolvables {
  import opened Trees

  /** Go's byte order on strings. */
  predicate Less(a: string, b: string) {
    b != [] && (a == [] || a[0] < b[0] || (a[0] == b[0] && Less(a[1..], b[1..])))
  }

  lemma {:induction false} LessTotal(a: string, b: string)
    ensures Less(a, b) || Less(b, a) || a == b
  {
    if a != [] && b != [] && a[0] == b[0] {
      LessTotal(a[1..], b[1..]);
      assert a == [a[0]] + a[1..] && b == [b[0]] + b[1..];
    }
  }

  lemma {:induction false} LessIrreflexive(a: string)
    ensures !Less(a, a)
  {
    if a != [] { LessIrreflexive(a[1..]); }
  }

  lemma {:induction false} LessTransitive(a: string, b: string, c: string)
    requires Less(a, b) && Less(b, c)
    ensures Less(a, c)
  {
    if a != [] && a[0] == b[0] == c[0] { LessTransitive(a[1..], b[1..], c[1..]); }
  }

  /** The fields a comparator looks at, in order. */
  function SortKey(r: Ref): (string, string) {
    match r
    case DataRef(q) => (q, "")
    case SecretRef(n) => (n, "")
    case ConnectionRef(k, n) => (k, n)
    case OutputRef(f, n) => (f, n)
    case ParameterRef(n) => (n, "")
    case AnswerRef(a, n) => (a, n)
    case InvocationRef(n, c) => (n, c)
  }

  predicate RefLess(r: Ref, s: Ref) {
    Less(SortKey(r).0, SortKey(s).0) || (SortKey(r).0 == SortKey(s).0 && Less(SortKey(r).1, SortKey(s).1))
  }

  /** The answer comparator compares a name with itself once the names are equal, so only askRef counts. */
  predicate AnswerLess(r: Ref, s: Ref) {
    Less(SortKey(r).0, SortKey(s).0) || (SortKey(r).1 == SortKey(s).1 && Less(SortKey(r).1, SortKey(s).1))
  }

  datatype Category = DataList | SecretList | ConnectionList | OutputList | ParameterList | AnswerList | InvocationList

  function CategoryOf(r: Ref): Category {
    match r
    case DataRef(_) => DataList
    case SecretRef(_) => SecretList
    case ConnectionRef(_, _) => ConnectionList
    case OutputRef(_, _) => OutputList
    case ParameterRef(_) => ParameterList
    case AnswerRef(_, _) => AnswerList
    case InvocationRef(_, _) => InvocationList
  }

  predicate Of(c: Category, s: seq<Ref>) { forall i :: 0 <= i < |s| ==> CategoryOf(s[i]) == c }

  predicate Distinct(s: seq<Ref>) { forall i, j :: 0 <= i < j < |s| ==> s[i] != s[j] }

  predicate Ordered(s: seq<Ref>) { forall i, j :: 0 <= i < j < |s| ==> RefLess(s[i], s[j]) }

  predicate WeaklyOrdered(s: seq<Ref>) { forall i, j :: 0 <= i < j < |s| ==> !AnswerLess(s[j], s[i]) }

  function Elements(s: seq<Ref>): set<Ref> { set r | r in s }

  lemma RefTotal(r: Ref, s: Ref)
    requires CategoryOf(r) == CategoryOf(s)
    ensures RefLess(r, s) || RefLess(s, r) || r == s
  {
    LessTotal(SortKey(r).0, SortKey(s).0);
    LessTotal(SortKey(r).1, SortKey(s).1);
  }

  lemma RefIrreflexive(r: Ref)
    ensures !RefLess(r, r)
  {
    LessIrreflexive(SortKey(r).0);
    LessIrreflexive(SortKey(r).1);
  }

  lemma RefTransitive(r: Ref, s: Ref, t: Ref)
    requires RefLess(r, s) && RefLess(s, t)
    ensures RefLess(r, t)
  {
    if Less(SortKey(r).0, SortKey(s).0) && Less(SortKey(s).0, SortKey(t).0) {
      LessTransitive(SortKey(r).0, SortKey(s).0, SortKey(t).0);
    }
    if Less(SortKey(r).1, SortKey(s).1) && Less(SortKey(s).1, SortKey(t).1) {
      LessTransitive(SortKey(r).1, SortKey(s).1, SortKey(t).1);
    }
  }

  lemma NonEmpty(s: seq<Ref>)
    ensures s != [] ==> Elements(s) != {}
  {
    if s != [] { assert s[0] in Elements(s); }
  }

  lemma Concat(s: seq<Ref>, t: seq<Ref>)
    ensures Elements(s + t) == Elements(s) + Elements(t)
  {
  }

  /** A strictly ordered list is determined by its elements. */
  lemma {:induction false} OrderedIsCanonical(s: seq<Ref>, t: seq<Ref>)
    requires Ordered(s) && Ordered(t) && Elements(s) == Elements(t)
    ensures s == t
  {
    if s == [] {
      NonEmpty(t);
    } else {
      assert s[0] in Elements(t);
      assert t != [];
      HeadIsLeast(s, t[0]);
      HeadIsLeast(t, s[0]);
      if s[0] != t[0] {
        RefTransitive(s[0], t[0], s[0]);
        RefIrreflexive(s[0]);
      }
      TailElements(s);
      TailElements(t);
      OrderedIsCanonical(s[1..], t[1..]);
      assert s == [s[0]] + s[1..] && t == [t[0]] + t[1..];
    }
  }

  lemma HeadIsLeast(s: seq<Ref>, r: Ref)
    requires Ordered(s) && s != []
    ensures r in Elements(s) ==> r == s[0] || RefLess(s[0], r)
  {
  }

  lemma TailElements(s: seq<Ref>)
    requires Ordered(s) && s != []
    ensures Ordered(s[1..]) && Elements(s[1..]) == Elements(s) - {s[0]}
  {
    RefIrreflexive(s[0]);
    forall r ensures r in Elements(s[1..]) <==> r in Elements(s) - {s[0]} {
      assert s == [s[0]] + s[1..];
    }
  }

  /** What `extends` keeps true of a list. */
  predicate Tidy(c: Category, s: seq<Ref>) {
    match c
    case DataList => Distinct(s)
    case AnswerList => Distinct(s) && WeaklyOrdered(s)
    case _ => Ordered(s)
  }

  predicate Before(c: Category, r: Ref, s: Ref) {
    match c
    case DataList => false
    case AnswerList => AnswerLess(r, s)
    case _ => RefLess(r, s)
  }

  lemma AnswerIsByAskRef(r: Ref, s: Ref)
    ensures AnswerLess(r, s) <==> Less(SortKey(r).0, SortKey(s).0)
  {
    LessIrreflexive(SortKey(r).1);
  }

  lemma InsertedOrdered(s: seq<Ref>, x: Ref, i: nat)
    requires Ordered(s) && i <= |s|
    requires forall j :: 0 <= j < i ==> RefLess(s[j], x)
    requires i < |s| ==> RefLess(x, s[i])
    ensures Ordered(s[..i] + [x] + s[i..])
  {
    forall j | i < j < |s| ensures RefLess(x, s[j]) { RefTransitive(x, s[i], s[j]); }
  }

  lemma InsertedWeaklyOrdered(s: seq<Ref>, x: Ref, i: nat)
    requires WeaklyOrdered(s) && i <= |s|
    requires forall j :: 0 <= j < i ==> !AnswerLess(x, s[j])
    requires i < |s| ==> AnswerLess(x, s[i])
    ensures WeaklyOrdered(s[..i] + [x] + s[i..])
  {
    forall j | i <= j < |s| ensures !AnswerLess(s[j], x) {
      AnswerIsByAskRef(s[j], x);
      AnswerIsByAskRef(x, s[i]);
      AnswerIsByAskRef(s[j], s[i]);
      if Less(SortKey(s[j]).0, SortKey(x).0) {
        LessTransitive(SortKey(s[j]).0, SortKey(x).0, SortKey(s[i]).0);
        LessIrreflexive(SortKey(s[j]).0);
      }
    }
  }

  method Insert(c: Category, s: seq<Ref>, x: Ref) returns (r: seq<Ref>)
    requires Of(c, s) && Tidy(c, s) && CategoryOf(x) == c && x !in s
    ensures Of(c, r) && Tidy(c, r) && Elements(r) == Elements(s) + {x}
  {
    var i := 0;
    while i < |s| && !Before(c, x, s[i])
      invariant 0 <= i <= |s|
      invariant forall j :: 0 <= j < i ==> !Before(c, x, s[j])
    {
      i := i + 1;
    }
    r := s[..i] + [x] + s[i..];
    assert s == s[..i] + s[i..];
    forall y ensures y in Elements(r) <==> y in Elements(s) + {x} {}
    if c == AnswerList {
      InsertedWeaklyOrdered(s, x, i);
    } else if c != DataList {
      forall j | 0 <= j < i ensures RefLess(s[j], x) { RefTotal(s[j], x); }
      InsertedOrdered(s, x, i);
    }
  }

  lemma InCategory(c: Category, s: seq<Ref>)
    requires Of(c, s)
    ensures forall r :: r in Elements(s) ==> CategoryOf(r) == c
  {
  }

  /** One category of `extends`: a copy, a no-op, or the sorted values of the union. */
  method Union(c: Category, u: seq<Ref>, other: seq<Ref>) returns (r: seq<Ref>)
    requires Of(c, u) && Tidy(c, u) && Of(c, other) && Tidy(c, other)
    ensures Of(c, r) && Tidy(c, r) && Elements(r) == Elements(u) + Elements(other)
  {
    if |u| == 0 { return other; }
    if |other| == 0 { return u; }
    InCategory(c, u);
    InCategory(c, other);
    r := SortedValues(c, Elements(u) + Elements(other));
  }

  method SortedValues(c: Category, values: set<Ref>) returns (r: seq<Ref>)
    requires forall x :: x in values ==> CategoryOf(x) == c
    ensures Of(c, r) && Tidy(c, r) && Elements(r) == values
  {
    r := [];
    var rest := values;
    assert Of(c, r) && Tidy(c, r);
    while rest != {}
      invariant Of(c, r) && Tidy(c, r)
      invariant rest <= values
      invariant Elements(r) == values - rest
      decreases rest
    {
      hide Of, Tidy;
      var x :| x in rest;
      assert x !in Elements(r);
      r := Insert(c, r, x);
      rest := rest - {x};
    }
  }

  class Unresolvable {
    var data: seq<Ref>
    var secrets: seq<Ref>
    var connections: seq<Ref>
    var outputs: seq<Ref>
    var parameters: seq<Ref>
    var answers: seq<Ref>
    var invocations: seq<Ref>

    predicate Valid()
      reads this
    {
      && Of(DataList, data) && Tidy(DataList, data)
      && Of(SecretList, secrets) && Tidy(SecretList, secrets)
      && Of(ConnectionList, connections) && Tidy(ConnectionList, connections)
      && Of(OutputList, outputs) && Tidy(OutputList, outputs)
      && Of(ParameterList, parameters) && Tidy(ParameterList, parameters)
      && Of(AnswerList, answers) && Tidy(AnswerList, answers)
      && Of(InvocationList, invocations) && Tidy(InvocationList, invocations)
    }

    function All(): set<Ref>
      reads this
    {
      Elements(data) + Elements(secrets) + Elements(connections) + Elements(outputs) + Elements(parameters)
      + Elements(answers) + Elements(invocations)
    }

    constructor ()
      ensures Valid() && All() == {}
    {
      data, secrets, connections, outputs, parameters, answers, invocations := [], [], [], [], [], [], [];
    }

    constructor Just(r: Ref)
      ensures Valid() && All() == {r}
    {
      data, secrets, connections, outputs, parameters, answers, invocations := [], [], [], [], [], [], [];
      match r {
        case DataRef(_) => data := [r];
        case SecretRef(_) => secrets := [r];
        case ConnectionRef(_, _) => connections := [r];
        case OutputRef(_, _) => outputs := [r];
        case ParameterRef(_) => parameters := [r];
        case AnswerRef(_, _) => answers := [r];
        case InvocationRef(_, _) => invocations := [r];
      }
    }

    method Extend(other: Unresolvable)
      requires Valid() && other.Valid() && other != this
      modifies this
      ensures Valid() && All() == old(All()) + other.All()
    {
      hide Of, Tidy, Elements;
      var newData := Union(DataList, data, other.data);
      var newSecrets := Union(SecretList, secrets, other.secrets);
      var newConnections := Union(ConnectionList, connections, other.connections);
      var newOutputs := Union(OutputList, outputs, other.outputs);
      var newParameters := Union(ParameterList, parameters, other.parameters);
      var newAnswers := Union(AnswerList, answers, other.answers);
      var newInvocations := Union(InvocationList, invocations, other.invocations);
      data, secrets, connections, outputs := newData, newSecrets, newConnections, newOutputs;
      parameters, answers, invocations := newParameters, newAnswers, newInvocations;
    }

    /** The causes of an UnresolvableError; none means there is no error. */
    method AsError() returns (causes: seq<Ref>)
      ensures Elements(causes) == All()
      ensures causes == data + secrets + connections + outputs + parameters + answers + invocations
    {
      causes := data;
      Concat(causes, secrets);
      causes := causes + secrets;
      Concat(causes, connections);
      causes := causes + connections;
      Concat(causes, outputs);
      causes := causes + outputs;
      Concat(causes, parameters);
      causes := causes + parameters;
      Concat(causes, answers);
      causes := causes + answers;
      Concat(causes, invocations);
      causes := causes + invocations;
    }

    method Complete() returns (b: bool)
      ensures b <==> All() == {}
    {
      var causes := AsError();
      NonEmpty(causes);
      b := |causes| == 0;
    }
  }

  // ---- the lists are canonical for what they hold ----

  function Within(c: Category, refs: set<Ref>): set<Ref> { set r | r in refs && CategoryOf(r) == c }

  function ListOf(u: Unresolvable, c: Category): seq<Ref>
    reads u
  {
    match c
    case DataList => u.data
    case SecretList => u.secrets
    case ConnectionList => u.connections
    case OutputList => u.outputs
    case ParameterList => u.parameters
    case AnswerList => u.answers
    case InvocationList => u.invocations
  }

  lemma ListHoldsItsCategory(u: Unresolvable, c: Category)
    requires u.Valid()
    ensures Of(c, ListOf(u, c)) && Tidy(c, ListOf(u, c))
    ensures Within(c, u.All()) == Elements(ListOf(u, c))
  {
    InCategory(DataList, u.data);
    InCategory(SecretList, u.secrets);
    InCategory(ConnectionList, u.connections);
    InCategory(OutputList, u.outputs);
    InCategory(ParameterList, u.parameters);
    InCategory(AnswerList, u.answers);
    InCategory(InvocationList, u.invocations);
    hide Of, Tidy, Elements;
  }

  lemma {:induction false} DistinctIsPermutation(s: seq<Ref>, t: seq<Ref>)
    requires Distinct(s) && Distinct(t) && Elements(s) == Elements(t)
    ensures multiset(s) == multiset(t)
  {
    DistinctCounts(s);
    DistinctCounts(t);
    forall r ensures multiset(s)[r] == multiset(t)[r] {
      assert r in s <==> r in Elements(s);
      assert r in t <==> r in Elements(t);
    }
  }

  lemma {:induction false} DistinctCounts(s: seq<Ref>)
    requires Distinct(s)
    ensures forall r :: multiset(s)[r] == if r in s then 1 else 0
  {
    if s != [] {
      var rest, last := s[..|s| - 1], s[|s| - 1];
      DistinctCounts(rest);
      assert s == rest + [last];
      assert last !in rest;
    }
  }

  /** No two answers share the ask that they answer. */
  predicate OneAnswerEach(s: seq<Ref>) { forall i, j :: 0 <= i < j < |s| ==> SortKey(s[i]).0 != SortKey(s[j]).0 }

  lemma OneAnswerEachIsOrdered(s: seq<Ref>)
    requires WeaklyOrdered(s) && OneAnswerEach(s)
    ensures Ordered(s)
  {
    forall i, j | 0 <= i < j < |s| ensures RefLess(s[i], s[j]) {
      AnswerIsByAskRef(s[j], s[i]);
      LessTotal(SortKey(s[i]).0, SortKey(s[j]).0);
    }
  }

  lemma SameElementsOneAnswerEach(s: seq<Ref>, t: seq<Ref>)
    requires OneAnswerEach(s) && Distinct(t) && Elements(s) == Elements(t)
    ensures OneAnswerEach(t)
  {
    forall i, j | 0 <= i < j < |t| ensures SortKey(t[i]).0 != SortKey(t[j]).0 {
      assert t[i] in Elements(s) && t[j] in Elements(s);
      var i' :| 0 <= i' < |s| && s[i'] == t[i];
      var j' :| 0 <= j' < |s| && s[j'] == t[j];
      assert i' != j';
    }
  }

  /** Answers to one ask stand next to each other. */
  lemma {:induction false} NeighboursShare(s: seq<Ref>, i: nat, j: nat)
    requires WeaklyOrdered(s) && i < j < |s| && SortKey(s[i]).0 == SortKey(s[j]).0
    ensures SortKey(s[i]).0 == SortKey(s[i + 1]).0
  {
    AnswerIsByAskRef(s[i + 1], s[i]);
    if i + 1 < j { AnswerIsByAskRef(s[j], s[i + 1]); }
    LessTotal(SortKey(s[i]).0, SortKey(s[i + 1]).0);
  }

  function Swapped(s: seq<Ref>, i: nat): seq<Ref>
    requires i + 1 < |s|
  {
    s[i := s[i + 1]][i + 1 := s[i]]
  }

  lemma SwappedIsTidy(s: seq<Ref>, i: nat)
    requires i + 1 < |s| && Of(AnswerList, s) && Tidy(AnswerList, s) && SortKey(s[i]).0 == SortKey(s[i + 1]).0
    ensures Of(AnswerList, Swapped(s, i)) && Tidy(AnswerList, Swapped(s, i))
    ensures Elements(Swapped(s, i)) == Elements(s) && Swapped(s, i) != s
  {
    var t := Swapped(s, i);
    assert t[i] != s[i];
    assert forall j :: 0 <= j < |s| ==> SortKey(t[j]).0 == SortKey(s[j]).0;
    forall j, k | 0 <= j < k < |t| ensures !AnswerLess(t[k], t[j]) {
      AnswerIsByAskRef(t[k], t[j]);
      AnswerIsByAskRef(s[k], s[j]);
    }
    forall r ensures r in Elements(t) <==> r in Elements(s) {
      if r in s {
        var j :| 0 <= j < |s| && s[j] == r;
        assert t[if j == i then i + 1 else if j == i + 1 then i else j] == r;
      }
    }
  }

  predicate SameAnswers(s: seq<Ref>, t: seq<Ref>) {
    Of(AnswerList, t) && Tidy(AnswerList, t) && Elements(t) == Elements(s)
  }

  lemma OneAnswerEachIsCanonical(s: seq<Ref>, t: seq<Ref>)
    requires Tidy(AnswerList, s) && OneAnswerEach(s) && SameAnswers(s, t)
    ensures t == s
  {
    SameElementsOneAnswerEach(s, t);
    OneAnswerEachIsOrdered(s);
    OneAnswerEachIsOrdered(t);
    OrderedIsCanonical(s, t);
  }

  /** The list of answers is determined by what it holds exactly if no two of them share an ask. */
  lemma AnswersDeterminedIff(s: seq<Ref>)
    requires Of(AnswerList, s) && Tidy(AnswerList, s)
    ensures OneAnswerEach(s) <==> forall t | SameAnswers(s, t) :: t == s
  {
    hide Tidy, SameAnswers;
    if OneAnswerEach(s) {
      forall t | SameAnswers(s, t) ensures t == s { OneAnswerEachIsCanonical(s, t); }
    } else {
      var i, j :| 0 <= i < j < |s| && SortKey(s[i]).0 == SortKey(s[j]).0;
      TidyAnswers(s);
      NeighboursShare(s, i, j);
      SwappedIsTidy(s, i);
      AreSameAnswers(s, Swapped(s, i));
    }
  }

  lemma TidyAnswers(s: seq<Ref>)
    requires Tidy(AnswerList, s)
    ensures WeaklyOrdered(s)
  {
  }

  lemma AreSameAnswers(s: seq<Ref>, t: seq<Ref>)
    requires Of(AnswerList, t) && Tidy(AnswerList, t) && Elements(t) == Elements(s)
    ensures SameAnswers(s, t)
  {
  }

  predicate ReportsOnly(u: Unresolvable, answers: seq<Ref>)
    reads u
  {
    && u.answers == answers && u.data == [] && u.secrets == [] && u.connections == [] && u.outputs == []
    && u.parameters == [] && u.invocations == []
  }

  lemma TwoAnswers(u: Unresolvable, ask: string, a: string, b: string)
    requires a != b && ReportsOnly(u, [AnswerRef(ask, a), AnswerRef(ask, b)])
    ensures u.Valid() && u.All() == {AnswerRef(ask, a), AnswerRef(ask, b)}
  {
    AnswerIsByAskRef(u.answers[0], u.answers[1]);
    AnswerIsByAskRef(u.answers[1], u.answers[0]);
    LessIrreflexive(ask);
    forall r ensures r in Elements(u.answers) <==> r in {AnswerRef(ask, a), AnswerRef(ask, b)} {
      if r in {AnswerRef(ask, a), AnswerRef(ask, b)} { assert r == u.answers[0] || r == u.answers[1]; }
    }
  }

  /** Two valid reports of the same two answers to one ask, in either order. */
  lemma AnswersMayDiffer(u: Unresolvable, v: Unresolvable, ask: string, a: string, b: string)
    requires a != b
    requires ReportsOnly(u, [AnswerRef(ask, a), AnswerRef(ask, b)]) && ReportsOnly(v, [AnswerRef(ask, b), AnswerRef(ask, a)])
    ensures u.Valid() && v.Valid() && u.All() == v.All() && u.answers != v.answers
  {
    hide Unresolvable.Valid, Unresolvable.All;
    TwoAnswers(u, ask, a, b);
    TwoAnswers(v, ask, b, a);
    assert u.answers[0] != v.answers[0];
  }

  /**
   * Two reports of the same references are equal list by list, up to the order of data queries and of
   * answers to one ask.
   */
  lemma ListsAreCanonical(u: Unresolvable, v: Unresolvable, c: Category)
    requires u.Valid() && v.Valid() && u.All() == v.All()
    ensures multiset(ListOf(u, c)) == multiset(ListOf(v, c))
    ensures c != DataList && c != AnswerList ==> ListOf(u, c) == ListOf(v, c)
    ensures c == AnswerList && OneAnswerEach(ListOf(u, c)) ==> ListOf(u, c) == ListOf(v, c)
  {
    hide Unresolvable.Valid, Unresolvable.All, Elements, Of, ListOf, Within;
    ListHoldsItsCategory(u, c);
    ListHoldsItsCategory(v, c);
    if c == DataList || c == AnswerList {
      DistinctIsPermutation(ListOf(u, c), ListOf(v, c));
      if c == AnswerList && OneAnswerEach(ListOf(u, c)) { OneAnswerEachIsCanonical(ListOf(u, c), ListOf(v, c)); }
    } else {
      OrderedIsCanonical(ListOf(u, c), ListOf(v, c));
    }
  }

  // ---- the orders, spelled out ----

  predicate DiffersAt(a: string, b: string, i: nat) {
    i <= |a| && i < |b| && a[..i] == b[..i] && (i == |a| || a[i] < b[i])
  }

  /** One string comes before another if it is a proper prefix, or has the lesser character where they first differ. */
  lemma {:induction false} LessMeans(a: string, b: string)
    ensures Less(a, b) <==> exists i: nat :: DiffersAt(a, b, i)
  {
    if b != [] && (a == [] || a[0] < b[0]) {
      assert DiffersAt(a, b, 0);
    } else if a != [] && b != [] && a[0] == b[0] {
      LessMeans(a[1..], b[1..]);
      if i: nat :| DiffersAt(a[1..], b[1..], i) {
        assert a[..i + 1] == [a[0]] + a[1..][..i] && b[..i + 1] == [b[0]] + b[1..][..i];
        assert DiffersAt(a, b, i + 1);
      }
      if i: nat :| DiffersAt(a, b, i) {
        assert i > 0;
        assert a[1..][..i - 1] == a[..i][1..] && b[1..][..i - 1] == b[..i][1..];
        assert DiffersAt(a[1..], b[1..], i - 1);
      }
    }
  }

  /** By one field and then, where that is the same, by another. */
  predicate FirstThen(a: string, a': string, b: string, b': string) { Less(a, b) || (a == b && Less(a', b')) }

  /** What each kind of list is sorted by. */
  lemma SortedBy(r: Ref, s: Ref)
    ensures r.SecretRef? && s.SecretRef? ==> (RefLess(r, s) <==> Less(r.name, s.name))
    ensures r.ParameterRef? && s.ParameterRef? ==> (RefLess(r, s) <==> Less(r.name, s.name))
    ensures r.ConnectionRef? && s.ConnectionRef? ==> (RefLess(r, s) <==> FirstThen(r.kind, r.name, s.kind, s.name))
    ensures r.OutputRef? && s.OutputRef? ==> (RefLess(r, s) <==> FirstThen(r.from, r.name, s.from, s.name))
    ensures r.InvocationRef? && s.InvocationRef? ==> (RefLess(r, s) <==> FirstThen(r.name, r.cause, s.name, s.cause))
    ensures r.AnswerRef? && s.AnswerRef? ==> (AnswerLess(r, s) <==> Less(r.askRef, s.askRef))
  {
    if r.SecretRef? || r.ParameterRef? { LessIrreflexive(""); }
    if r.AnswerRef? { AnswerIsByAskRef(r, s); }
  }
}
