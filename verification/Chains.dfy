/** Chained resolvers (pkg/expr/resolve/chain.go): the first resolver that knows the reference answers. */
module Chains {
  import opened Trees
  import opened Semantics
  import opened Staging

  type Resolver = Ref -> Lookup

  /** A resolver that does not know the reference is skipped; any other answer, an error included, ends the search. */
  function Chain(rs: seq<Resolver>, ref: Ref): Lookup {
    if rs == [] then Missing
    else if rs[0](ref) == Missing then Chain(rs[1..], ref)
    else rs[0](ref)
  }

  predicate FirstToKnow(rs: seq<Resolver>, ref: Ref, i: nat) {
    i < |rs| && rs[i](ref) != Missing && forall j :: 0 <= j < i ==> rs[j](ref) == Missing
  }

  /** A chain answers with the first resolver that knows the reference, and knows nothing if none does. */
  lemma {:induction false} ChainIsLeftBiased(rs: seq<Resolver>, ref: Ref)
    ensures Chain(rs, ref) == Missing <==> forall j :: 0 <= j < |rs| ==> rs[j](ref) == Missing
    ensures forall i: nat :: FirstToKnow(rs, ref, i) ==> Chain(rs, ref) == rs[i](ref)
  {
    if rs != [] {
      ChainIsLeftBiased(rs[1..], ref);
      forall i: nat | FirstToKnow(rs, ref, i) ensures Chain(rs, ref) == rs[i](ref) {
        if i > 0 {
          assert forall j :: 0 <= j < i - 1 ==> rs[1..][j] == rs[j + 1];
          assert FirstToKnow(rs[1..], ref, i - 1);
        }
      }
    }
  }

  lemma {:induction false} ChainAppends(rs: seq<Resolver>, more: seq<Resolver>, ref: Ref)
    ensures Chain(rs + more, ref) == if Chain(rs, ref) == Missing then Chain(more, ref) else Chain(rs, ref)
  {
    if rs == [] {
      assert rs + more == more;
    } else {
      ChainAppends(rs[1..], more, ref);
      assert (rs + more)[1..] == rs[1..] + more;
    }
  }

  function Chained(env: Env, rs: seq<Resolver>): Env { env.(resolve := ref => Chain(rs, ref)) }

  /**
   * Adding resolvers behind a chain is a later stage of evaluation: what was evaluated with the shorter
   * chain can be finished with the longer one.
   */
  lemma LongerChainsExtend(env: Env, rs: seq<Resolver>, more: seq<Resolver>, t: Tree, d: int)
    requires DataEnv(Chained(env, rs + more), t) && Eval(Chained(env, rs), t, d).Ok?
    ensures Extends(Chained(env, rs), Chained(env, rs + more))
    ensures Agree(Full(Chained(env, rs + more), Eval(Chained(env, rs), t, d).value), Full(Chained(env, rs + more), t),
                  NoStaleCall(IDENTITY, Chained(env, rs), Chained(env, rs + more), t, d))
  {
    var env1, env2 := Chained(env, rs), Chained(env, rs + more);
    forall ref ensures env1.resolve(ref) == Missing || env2.resolve(ref) == env1.resolve(ref) {
      ChainAppends(rs, more, ref);
    }
    hide Eval, Chain, NoStaleCall, Agree;
    StagedEvaluation(env1, env2, t, d);
  }
}
