/**
 Sums of Pedersen commitments.

 Commitments are the elements of an arbitrary abelian group, with a homomorphism `value` from
 amounts; the laws are stated with triggers that fire only where a proof names the elements.
 */
module Pedersen {

  datatype Group<!C> = Group(zero: C, add: (C, C) -> C, neg: C -> C, value: nat -> C)

  ghost predicate At<C>(a: C, b: C, c: C) { true }

  ghost predicate AtValue(m: nat, n: nat) { true }

  ghost predicate Abelian<C(!new)>(G: Group<C>) {
    && (forall a, b, c {:trigger At(a, b, c)} ::
          && G.add(G.add(a, b), c) == G.add(a, G.add(b, c))
          && G.add(a, b) == G.add(b, a)
          && G.add(G.zero, a) == a
          && G.add(a, G.neg(a)) == G.zero)
    && G.value(0) == G.zero
    && (forall m: nat, n: nat {:trigger AtValue(m, n)} :: G.value(m + n) == G.add(G.value(m), G.value(n)))
  }

  lemma Laws<C(!new)>(G: Group<C>, a: C, b: C, c: C)
    requires Abelian(G)
    ensures G.add(G.add(a, b), c) == G.add(a, G.add(b, c))
    ensures G.add(a, b) == G.add(b, a)
    ensures G.add(G.zero, a) == a && G.add(a, G.zero) == a
  {
    assert At(a, b, c) && At(a, G.zero, c);
  }

  lemma ValueAdds<C(!new)>(G: Group<C>, m: nat, n: nat)
    requires Abelian(G)
    ensures G.value(m + n) == G.add(G.value(m), G.value(n))
  {
    assert AtValue(m, n);
  }

  // (a + b) + c == (a + c) + b
  lemma Swap<C(!new)>(G: Group<C>, a: C, b: C, c: C)
    requires Abelian(G)
    ensures G.add(G.add(a, b), c) == G.add(G.add(a, c), b)
  {
    Laws(G, a, b, c);
    Laws(G, a, c, b);
    Laws(G, b, c, a);
  }

  lemma Cancel<C(!new)>(G: Group<C>, a: C, b: C, x: C)
    requires Abelian(G) && G.add(a, x) == G.add(b, x)
    ensures a == b
  {
    var y := G.neg(x);
    assert At(a, x, y) && At(b, x, y) && At(x, y, y);
    Laws(G, a, x, y);
    Laws(G, b, x, y);
  }

  function Sub<C>(G: Group<C>, a: C, b: C): C {
    G.add(a, G.neg(b))
  }

  lemma SubIs<C(!new)>(G: Group<C>, a: C, b: C, x: C)
    requires Abelian(G)
    ensures x == Sub(G, a, b) <==> G.add(x, b) == a
  {
    var n := G.neg(b);
    assert At(b, n, n);
    Laws(G, a, n, b);
    Laws(G, n, b, b);
    assert G.add(Sub(G, a, b), b) == a;
    if G.add(x, b) == a { Cancel(G, x, Sub(G, a, b), b); }
  }

  // ----- sums -----

  function Sum<C>(G: Group<C>, cs: seq<C>): C {
    if cs == [] then G.zero else G.add(Sum(G, cs[..|cs| - 1]), cs[|cs| - 1])
  }

  lemma SumPush<C(!new)>(G: Group<C>, cs: seq<C>, c: C)
    requires Abelian(G)
    ensures Sum(G, cs + [c]) == G.add(Sum(G, cs), c)
  {
    assert (cs + [c])[..|cs|] == cs;
  }

  lemma {:induction false} SumAppend<C(!new)>(G: Group<C>, cs: seq<C>, ds: seq<C>)
    requires Abelian(G)
    ensures Sum(G, cs + ds) == G.add(Sum(G, cs), Sum(G, ds))
  {
    if ds == [] {
      assert cs + ds == cs;
      Laws(G, Sum(G, cs), G.zero, G.zero);
    } else {
      var init, d := ds[..|ds| - 1], ds[|ds| - 1];
      assert cs + ds == (cs + init) + [d];
      SumAppend(G, cs, init);
      SumPush(G, cs + init, d);
      Laws(G, Sum(G, cs), Sum(G, init), d);
    }
  }

  lemma SumOne<C(!new)>(G: Group<C>, c: C)
    requires Abelian(G)
    ensures Sum(G, [c]) == c
  {
    assert [c] == [] + [c];
    SumPush(G, [], c);
    Laws(G, c, c, c);
  }

  function NonZero<C(==)>(G: Group<C>, cs: seq<C>): seq<C> {
    if cs == [] then []
    else if cs[|cs| - 1] == G.zero then NonZero(G, cs[..|cs| - 1])
    else NonZero(G, cs[..|cs| - 1]) + [cs[|cs| - 1]]
  }

  // Every commitment but zero is kept as often as it is there.
  lemma {:induction false} NonZeroIs<C>(G: Group<C>, cs: seq<C>, c: C)
    ensures multiset(NonZero(G, cs))[c] == if c == G.zero then 0 else multiset(cs)[c]
  {
    if cs != [] {
      NonZeroIs(G, cs[..|cs| - 1], c);
      assert cs == cs[..|cs| - 1] + [cs[|cs| - 1]];
    }
  }

  lemma {:induction false} NonZeroSum<C(!new)>(G: Group<C>, cs: seq<C>)
    requires Abelian(G)
    ensures Sum(G, NonZero(G, cs)) == Sum(G, cs)
  {
    if cs != [] {
      var init, c := cs[..|cs| - 1], cs[|cs| - 1];
      NonZeroSum(G, init);
      if c == G.zero { Laws(G, Sum(G, init), c, c); } else { SumPush(G, NonZero(G, init), c); }
    }
  }

  // ----- sum_commits and the kernel sums -----

  function SumCommits<C(==)>(G: Group<C>, positive: seq<C>, negative: seq<C>): C {
    Sub(G, Sum(G, NonZero(G, positive)), Sum(G, NonZero(G, negative)))
  }

  // The result is what, added to the negative ones, gives the positive ones.
  lemma SumCommitsIs<C(!new)>(G: Group<C>, positive: seq<C>, negative: seq<C>, x: C)
    requires Abelian(G)
    ensures x == SumCommits(G, positive, negative) <==> G.add(x, Sum(G, negative)) == Sum(G, positive)
  {
    NonZeroSum(G, positive);
    NonZeroSum(G, negative);
    SubIs(G, Sum(G, positive), Sum(G, negative), x);
  }

  datatype Sums<C> = Sums(utxo: C, kernel: C)

  datatype Verified<C> = Verified(sums: Sums<C>) | KernelSumMismatch

  // Outputs and inputs, with the overage counted as an output if positive and as an input if
  // negative.
  function SumCommitments<C(==)>(G: Group<C>, inputs: seq<C>, outputs: seq<C>, overage: int): C {
    if overage == 0 then SumCommits(G, outputs, inputs)
    else if overage < 0 then SumCommits(G, outputs, inputs + [G.value(-overage)])
    else SumCommits(G, outputs + [G.value(overage)], inputs)
  }

  // The offset is given by its commitment; a zero offset is not added.
  function KernelSumPlusOffset<C(==)>(G: Group<C>, kernelSum: C, offset: C): C {
    if offset != G.zero then G.add(kernelSum, offset) else kernelSum
  }

  function VerifyKernelSums<C(==)>(G: Group<C>, inputs: seq<C>, outputs: seq<C>, kernels: seq<C>,
                                   overage: int, offset: C): Verified<C>
  {
    var utxoSum := SumCommitments(G, inputs, outputs, overage);
    var kernelSum := SumCommits(G, kernels, []);
    if utxoSum != KernelSumPlusOffset(G, kernelSum, offset) then KernelSumMismatch
    else Verified(Sums(utxoSum, kernelSum))
  }

  function Positive(v: int): nat {
    if v > 0 then v else 0
  }

  // The check as an equation: x is what outputs and a positive overage exceed inputs and a
  // negative one by.
  lemma VerifyKernelSumsIs<C(!new)>(G: Group<C>, inputs: seq<C>, outputs: seq<C>, kernels: seq<C>, overage: int,
                                    offset: C, x: C)
    requires Abelian(G)
    requires G.add(G.add(x, Sum(G, inputs)), G.value(Positive(-overage)))
             == G.add(Sum(G, outputs), G.value(Positive(overage)))
    ensures VerifyKernelSums(G, inputs, outputs, kernels, overage, offset) ==
            (if x == G.add(Sum(G, kernels), offset) then Verified(Sums(x, Sum(G, kernels))) else KernelSumMismatch)
  {
    var i, o, taken, given := Sum(G, inputs), Sum(G, outputs), G.value(Positive(-overage)), G.value(Positive(overage));
    Laws(G, G.add(x, i), taken, taken);
    Laws(G, o, given, given);
    Laws(G, x, i, taken);
    SumPush(G, inputs, taken);
    SumPush(G, outputs, given);
    SumCommitsIs(G, outputs, inputs, x);
    SumCommitsIs(G, outputs, inputs + [taken], x);
    SumCommitsIs(G, outputs + [given], inputs, x);
    KernelSumIs(G, kernels, offset);
  }

  // The same for a reward, which is a negative overage.
  lemma VerifyRewardIs<C(!new)>(G: Group<C>, inputs: seq<C>, outputs: seq<C>, kernels: seq<C>, reward: nat,
                                offset: C, x: C)
    requires Abelian(G) && G.add(G.add(x, Sum(G, inputs)), G.value(reward)) == Sum(G, outputs)
    ensures VerifyKernelSums(G, inputs, outputs, kernels, 0 - reward, offset) ==
            (if x == G.add(Sum(G, kernels), offset) then Verified(Sums(x, Sum(G, kernels))) else KernelSumMismatch)
  {
    var overage := 0 - reward;
    assert Positive(-overage) == reward && Positive(overage) == 0;
    Laws(G, Sum(G, outputs), G.zero, G.zero);
    VerifyKernelSumsIs(G, inputs, outputs, kernels, overage, offset, x);
  }

  lemma KernelSumIs<C(!new)>(G: Group<C>, kernels: seq<C>, offset: C)
    requires Abelian(G)
    ensures SumCommits(G, kernels, []) == Sum(G, kernels)
    ensures KernelSumPlusOffset(G, Sum(G, kernels), offset) == G.add(Sum(G, kernels), offset)
  {
    var k := Sum(G, kernels);
    Laws(G, k, offset, offset);
    SumCommitsIs(G, kernels, [], k);
  }
}
