/**
 Transactions and their aggregation with cut-through.

 A transaction is its input and output commitments, its kernels, the fee they carry and the
 kernel offset.  Whether a transaction is valid is left to the caller.
 */
module Transactions {
  import opened Collections

  type Commit = nat

  datatype Tx = Tx(inputs: set<Commit>, outputs: set<Commit>, kernels: multiset<nat>, fee: nat, offset: int)

  const EMPTY: Tx := Tx({}, {}, multiset{}, 0, 0)

  function Has(b: bool): int { if b then 1 else 0 }

  // How often a commitment is spent by these transactions, less how often it is created.
  function Net(txs: seq<Tx>, c: Commit): int {
    if txs == [] then 0
    else Net(txs[..|txs| - 1], c) + Has(c in txs[|txs| - 1].inputs) - Has(c in txs[|txs| - 1].outputs)
  }

  function Touched(txs: seq<Tx>): set<Commit> {
    if txs == [] then {}
    else Touched(txs[..|txs| - 1]) + txs[|txs| - 1].inputs + txs[|txs| - 1].outputs
  }

  function Kernels(txs: seq<Tx>): multiset<nat> {
    if txs == [] then multiset{} else Kernels(txs[..|txs| - 1]) + txs[|txs| - 1].kernels
  }

  function Fees(txs: seq<Tx>): nat {
    if txs == [] then 0 else Fees(txs[..|txs| - 1]) + txs[|txs| - 1].fee
  }

  function Offsets(txs: seq<Tx>): int {
    if txs == [] then 0 else Offsets(txs[..|txs| - 1]) + txs[|txs| - 1].offset
  }

  // Inputs that spend outputs among the same transactions are cut through with them.  What is
  // left must have no duplicates.
  function Aggregate(txs: seq<Tx>): Option<Tx> {
    if txs == [] then Some(EMPTY)
    else if |txs| == 1 then Some(txs[0])
    else if exists c :: c in Touched(txs) && (Net(txs, c) > 1 || Net(txs, c) < -1) then None
    else Some(Tx((set c | c in Touched(txs) && Net(txs, c) == 1),
                 (set c | c in Touched(txs) && Net(txs, c) == -1),
                 Kernels(txs), Fees(txs), Offsets(txs)))
  }

  lemma {:induction false} NetTouched(txs: seq<Tx>, c: Commit)
    ensures c !in Touched(txs) ==> Net(txs, c) == 0
  {
    if txs != [] { NetTouched(txs[..|txs| - 1], c); }
  }

  ghost function SpentBy(txs: seq<Tx>, c: Commit): set<nat> {
    set i: nat | i < |txs| && c in txs[i].inputs
  }

  ghost function MadeBy(txs: seq<Tx>, c: Commit): set<nat> {
    set i: nat | i < |txs| && c in txs[i].outputs
  }

  lemma SpentNext(txs: seq<Tx>, n: nat, init: seq<Tx>, c: Commit)
    requires n + 1 == |txs| && init == txs[..n]
    ensures |SpentBy(txs, c)| == |SpentBy(init, c)| + Has(c in txs[n].inputs)
  {
    assert SpentBy(txs, c) - {n} == SpentBy(init, c);
    assert n in SpentBy(txs, c) <==> c in txs[n].inputs;
  }

  lemma MadeNext(txs: seq<Tx>, n: nat, init: seq<Tx>, c: Commit)
    requires n + 1 == |txs| && init == txs[..n]
    ensures |MadeBy(txs, c)| == |MadeBy(init, c)| + Has(c in txs[n].outputs)
  {
    assert MadeBy(txs, c) - {n} == MadeBy(init, c);
    assert n in MadeBy(txs, c) <==> c in txs[n].outputs;
  }

  lemma {:induction false} NetIs(txs: seq<Tx>, c: Commit)
    ensures Net(txs, c) == |SpentBy(txs, c)| - |MadeBy(txs, c)|
  {
    if txs != [] {
      var n := |txs| - 1;
      NetIs(txs[..n], c);
      SpentNext(txs, n, txs[..n], c);
      MadeNext(txs, n, txs[..n], c);
    }
  }

  // The inputs of an aggregate are what is spent once more than created, the outputs what is created
  // once more than spent; transactions that would leave anything more often do not aggregate.
  lemma AggregateIs(txs: seq<Tx>)
    requires |txs| >= 2
    ensures Aggregate(txs).Some? <==> forall c :: -1 <= |SpentBy(txs, c)| - |MadeBy(txs, c)| <= 1
    ensures Aggregate(txs).Some? ==> forall c ::
              && (c in Aggregate(txs).value.inputs <==> |SpentBy(txs, c)| - |MadeBy(txs, c)| == 1)
              && (c in Aggregate(txs).value.outputs <==> |SpentBy(txs, c)| - |MadeBy(txs, c)| == -1)
  {
    forall c ensures Net(txs, c) == |SpentBy(txs, c)| - |MadeBy(txs, c)| && (c !in Touched(txs) ==> Net(txs, c) == 0) {
      NetIs(txs, c);
      NetTouched(txs, c);
    }
  }

  lemma TotalsOfOne(t: Tx)
    ensures Kernels([t]) == t.kernels && Fees([t]) == t.fee && Offsets([t]) == t.offset
  {
    assert [t][..0] == [];
  }

  // Two lists with the same totals.
  ghost predicate SameTotals(a: seq<Tx>, b: seq<Tx>) {
    && (forall c :: Net(a, c) == Net(b, c))
    && Kernels(a) == Kernels(b) && Fees(a) == Fees(b) && Offsets(a) == Offsets(b)
  }

  // Only the totals matter.
  lemma SameAggregate(a: seq<Tx>, b: seq<Tx>)
    requires SameTotals(a, b) && |a| >= 2 && |b| >= 2
    ensures Aggregate(a) == Aggregate(b)
  {
    forall c ensures (c in Touched(a) && Net(a, c) != 0) <==> (c in Touched(b) && Net(b, c) != 0) {
      NetTouched(a, c);
      NetTouched(b, c);
    }
    if Aggregate(a).Some? && Aggregate(b).Some? {
      assert (set c | c in Touched(a) && Net(a, c) == 1) == (set c | c in Touched(b) && Net(b, c) == 1);
      assert (set c | c in Touched(a) && Net(a, c) == -1) == (set c | c in Touched(b) && Net(b, c) == -1);
    }
  }

  lemma {:induction false} NetAppend(a: seq<Tx>, b: seq<Tx>, c: Commit)
    ensures Net(a + b, c) == Net(a, c) + Net(b, c)
  {
    if b == [] {
      assert a + b == a;
    } else {
      NetAppend(a, b[..|b| - 1], c);
      assert (a + b)[..|a + b| - 1] == a + b[..|b| - 1];
    }
  }

  lemma {:induction false} TotalsAppend(a: seq<Tx>, b: seq<Tx>)
    ensures Kernels(a + b) == Kernels(a) + Kernels(b)
    ensures Fees(a + b) == Fees(a) + Fees(b) && Offsets(a + b) == Offsets(a) + Offsets(b)
  {
    if b == [] {
      assert a + b == a;
    } else {
      TotalsAppend(a, b[..|b| - 1]);
      assert (a + b)[..|a + b| - 1] == a + b[..|b| - 1];
    }
  }

  lemma Append(a: seq<Tx>, b: seq<Tx>)
    ensures forall c :: Net(a + b, c) == Net(a, c) + Net(b, c)
    ensures Kernels(a + b) == Kernels(a) + Kernels(b)
    ensures Fees(a + b) == Fees(a) + Fees(b) && Offsets(a + b) == Offsets(a) + Offsets(b)
  {
    forall c ensures Net(a + b, c) == Net(a, c) + Net(b, c) { NetAppend(a, b, c); }
    TotalsAppend(a, b);
  }

  lemma Moved(a: seq<Tx>, b: seq<Tx>, d: seq<Tx>)
    ensures SameTotals(a + b + d, a + d + b)
  {
    Append(a, b);
    Append(a + b, d);
    Append(a, d);
    Append(a + d, b);
  }

  // Aggregating the same transactions in another order gives the same.
  lemma AggregateMoved(a: seq<Tx>, b: seq<Tx>, d: seq<Tx>)
    ensures Aggregate(a + b + d) == Aggregate(a + d + b)
  {
    Moved(a, b, d);
    if |a + b + d| >= 2 {
      SameAggregate(a + b + d, a + d + b);
    } else if a != [] {
      assert a + b + d == a == a + d + b;
    } else if b != [] {
      assert a + b + d == b == a + d + b;
    } else {
      assert a + b + d == d == a + d + b;
    }
  }

  // An aggregate stands for the transactions it is made of.
  lemma AggregateTotals(txs: seq<Tx>)
    requires Aggregate(txs).Some?
    ensures SameTotals([Aggregate(txs).value], txs)
  {
    var t := Aggregate(txs).value;
    assert [t][..0] == [];
    if |txs| == 1 {
      assert txs == [t];
    } else if |txs| > 1 {
      forall c ensures Net([t], c) == Net(txs, c) { NetTouched(txs, c); }
    }
  }

  // Aggregating in two stages is aggregating at once.
  lemma NestedIsFlat(a: seq<Tx>, b: seq<Tx>)
    requires b != [] && Aggregate(b).Some?
    ensures Aggregate(a + [Aggregate(b).value]) == Aggregate(a + b)
  {
    var t := Aggregate(b).value;
    AggregateTotals(b);
    Append(a, b);
    Append(a, [t]);
    if a == [] {
      assert a + [t] == [t] && a + b == b;
    } else {
      SameAggregate(a + [t], a + b);
    }
  }

  // ----- weight and fee rate -----

  function Weight(t: Tx): nat {
    |t.inputs| + 21 * |t.outputs| + 3 * |t.kernels|
  }

  // Every transaction has a kernel.
  predicate Proper(t: Tx) {
    |t.kernels| > 0
  }

  function FeeRate(t: Tx): nat
    requires Proper(t)
  {
    Quotient(t.fee, Weight(t))
  }

  function Quotient(a: nat, b: nat): nat
    requires b > 0
  {
    a / b
  }
}
