/**
 * A parameterised WHERE list as the handlers build it: predicates whose SQL
 * text holds `%s` placeholders, and the list of values bound to them in order.
 * A `Filter` keeps a predicate together with its own values; the handlers keep
 * two parallel lists, which are `Clauses` and `Args` of the filters.
 */
module Bindings {

  datatype Filter<C> = Filter(clause: C, args: seq<string>)

  /** The WHERE list: the predicates, in order. */
  function Clauses<C>(fs: seq<Filter<C>>): (cs: seq<C>)
    ensures |cs| == |fs|
    ensures forall i :: 0 <= i < |fs| ==> cs[i] == fs[i].clause
  {
    seq(|fs|, i requires 0 <= i < |fs| => fs[i].clause)
  }

  /** The parameter list: every filter's values, in order. */
  function Args<C>(fs: seq<Filter<C>>): seq<string> {
    if fs == [] then [] else fs[0].args + Args(fs[1..])
  }

  /** The number of `%s` placeholders in a WHERE list, given each predicate's count. */
  function Placeholders<C>(cs: seq<C>, arity: C -> nat): nat {
    if cs == [] then 0 else arity(cs[0]) + Placeholders(cs[1..], arity)
  }

  /** Every filter binds exactly as many values as its predicate has placeholders. */
  predicate WellBound<C>(fs: seq<Filter<C>>, arity: C -> nat) {
    forall i :: 0 <= i < |fs| ==> |fs[i].args| == arity(fs[i].clause)
  }

  /** The parameters of two filter lists one after the other. */
  lemma {:induction false} ArgsConcat<C>(a: seq<Filter<C>>, b: seq<Filter<C>>)
    ensures Args(a + b) == Args(a) + Args(b)
  {
    if a == [] {
      assert a + b == b;
    } else {
      assert (a + b)[1..] == a[1..] + b;
      ArgsConcat(a[1..], b);
    }
  }

  /** Appending one filter appends its predicate and its values. */
  lemma Append<C>(fs: seq<Filter<C>>, f: Filter<C>)
    ensures Clauses(fs + [f]) == Clauses(fs) + [f.clause]
    ensures Args(fs + [f]) == Args(fs) + f.args
  {
    ArgsConcat(fs, [f]);
    assert Args([f]) == f.args + Args([f][1..]);
  }

  lemma ClausesConcat<C>(a: seq<Filter<C>>, b: seq<Filter<C>>)
    ensures Clauses(a + b) == Clauses(a) + Clauses(b)
  {
  }

  lemma ConcatAssoc<T>(p: seq<T>, a: seq<T>, b: seq<T>, c: seq<T>, d: seq<T>)
    ensures p + a + b + c + d == p + (a + b + c + d)
  {
  }

  /** When every filter is well bound, the placeholders and the parameters line up. */
  lemma {:induction false} PlaceholdersMatchArgs<C>(fs: seq<Filter<C>>, arity: C -> nat)
    requires WellBound(fs, arity)
    ensures Placeholders(Clauses(fs), arity) == |Args(fs)|
  {
    if fs != [] {
      assert Clauses(fs)[1..] == Clauses(fs[1..]);
      PlaceholdersMatchArgs(fs[1..], arity);
    }
  }
}
