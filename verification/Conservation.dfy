/**
 The chain state as commitments, and conservation of value along every path.

 The state is the output MMR (all outputs ever made, with the positions still unspent), the
 kernel MMR, and what is needed to rewind.  A block carries its total kernel offset, given by the
 commitment to it.
 */
module Conservation {
  import opened Collections
  import opened HeaderTree
  import opened HeaderPipe
  import opened BlockPipe
  import opened Pedersen

  const REWARD: nat := 60 * 1_000_000_000

  datatype Body<C> = Body(inputs: seq<C>, outputs: seq<C>, kernels: seq<C>, offset: C)

  // What rewinding a block needs: the MMR sizes before it and the positions it spent.
  datatype Mark = Mark(leaves: nat, spent: set<nat>, kernels: nat)

  datatype Trees<C> = Trees(leaves: seq<C>, live: set<nat>, kernels: seq<C>, marks: seq<Mark>)

  predicate Sane<C>(t: Trees<C>) {
    forall i :: i in t.live ==> i < |t.leaves|
  }

  type State<C> = t: Trees<C> | Sane(t) witness Trees([], {}, [], [])

  // The unspent position that holds a commitment, if any.
  function FindLive<C(==)>(leaves: seq<C>, live: set<nat>, c: C, n: nat): (r: Option<nat>)
    requires n <= |leaves|
    ensures r.Some? ==> r.value < n && r.value in live && leaves[r.value] == c
    ensures r.None? ==> forall i :: 0 <= i < n && i in live ==> leaves[i] != c
  {
    if n == 0 then None
    else if n - 1 in live && leaves[n - 1] == c then Some(n - 1)
    else FindLive(leaves, live, c, n - 1)
  }

  // Pushes new outputs; an output that is already unspent is refused.
  function PushOutputs<C(==)>(leaves: seq<C>, live: set<nat>, outputs: seq<C>): Option<(seq<C>, set<nat>)>
  {
    if outputs == [] then Some((leaves, live))
    else match PushOutputs(leaves, live, outputs[..|outputs| - 1])
      case None => None
      case Some(x) => PushOne(x.0, x.1, outputs[|outputs| - 1])
  }

  function PushOne<C(==)>(leaves: seq<C>, live: set<nat>, c: C): Option<(seq<C>, set<nat>)> {
    if FindLive(leaves, live, c, |leaves|).Some? then None else Some((leaves + [c], live + {|leaves|}))
  }

  // Spends inputs; an input that is not unspent is refused.
  function Spend<C(==)>(leaves: seq<C>, live: set<nat>, inputs: seq<C>): Option<set<nat>> {
    if inputs == [] then Some(live)
    else match Spend(leaves, live, inputs[..|inputs| - 1])
      case None => None
      case Some(left) => SpendOne(leaves, left, inputs[|inputs| - 1])
  }

  function SpendOne<C(==)>(leaves: seq<C>, live: set<nat>, c: C): Option<set<nat>> {
    match FindLive(leaves, live, c, |leaves|)
    case None => None
    case Some(i) => Some(live - {i})
  }

  function Apply<C(==)>(t: Trees<C>, b: Body<C>): Option<Trees<C>> {
    match PushOutputs(t.leaves, t.live, b.outputs)
    case None => None
    case Some(x) =>
      match Spend(x.0, x.1, b.inputs)
      case None => None
      case Some(live) =>
        Some(Trees(x.0, live, t.kernels + b.kernels, t.marks + [Mark(|t.leaves|, x.1 - live, |t.kernels|)]))
  }

  function Undo<C>(t: Trees<C>): Trees<C> {
    if t.marks == [] then t
    else
      var m := t.marks[|t.marks| - 1];
      if m.leaves > |t.leaves| || m.kernels > |t.kernels| then t
      else Trees(t.leaves[..m.leaves], (set i | i in t.live + m.spent && i < m.leaves), t.kernels[..m.kernels],
                 t.marks[..|t.marks| - 1])
  }

  lemma {:induction false} PushOutputsIs<C>(leaves: seq<C>, live: set<nat>, outputs: seq<C>)
    requires PushOutputs(leaves, live, outputs).Some?
    ensures var x := PushOutputs(leaves, live, outputs).value;
      && x.0 == leaves + outputs && live <= x.1
      && (forall i :: i in x.1 <==> i in live || |leaves| <= i < |leaves| + |outputs|)
  {
    if outputs == [] {
      assert leaves + outputs == leaves;
    } else {
      var init, c := outputs[..|outputs| - 1], outputs[|outputs| - 1];
      PushOutputsIs(leaves, live, init);
      assert (leaves + init) + [c] == leaves + outputs;
    }
  }

  lemma {:induction false} SpendIs<C>(leaves: seq<C>, live: set<nat>, inputs: seq<C>)
    requires Spend(leaves, live, inputs).Some?
    ensures Spend(leaves, live, inputs).value <= live
  {
    if inputs != [] { SpendIs(leaves, live, inputs[..|inputs| - 1]); }
  }

  // Rewinding a block undoes applying it.
  lemma UndoOfApply<C>(t: State<C>, b: Body<C>)
    requires Apply(t, b).Some?
    ensures Sane(Apply(t, b).value) && Undo(Apply(t, b).value) == t
  {
    PushOutputsIs(t.leaves, t.live, b.outputs);
    var x := PushOutputs(t.leaves, t.live, b.outputs).value;
    SpendIs(x.0, x.1, b.inputs);
    var t' := Apply(t, b).value;
    var m := t'.marks[|t'.marks| - 1];
    assert t'.leaves[..m.leaves] == t.leaves;
    assert t'.kernels[..m.kernels] == t.kernels;
    assert t'.marks[..|t'.marks| - 1] == t.marks;
    assert t'.live + m.spent == x.1;
    assert (set i | i in t'.live + m.spent && i < m.leaves) == t.live;
  }

  // ----- what is unspent -----

  // The unspent outputs in MMR order.
  function Unspent<C>(leaves: seq<C>, live: set<nat>, n: nat): seq<C>
    requires n <= |leaves|
  {
    if n == 0 then []
    else if n - 1 in live then Unspent(leaves, live, n - 1) + [leaves[n - 1]]
    else Unspent(leaves, live, n - 1)
  }

  lemma {:induction false} UnspentSame<C>(leaves: seq<C>, live: set<nat>, leaves': seq<C>, live': set<nat>, n: nat)
    requires n <= |leaves| && n <= |leaves'|
    requires forall i :: 0 <= i < n ==> leaves[i] == leaves'[i] && (i in live <==> i in live')
    ensures Unspent(leaves, live, n) == Unspent(leaves', live', n)
  {
    if n > 0 { UnspentSame(leaves, live, leaves', live', n - 1); }
  }

  lemma {:induction false} PushOutputsSum<C(!new)>(G: Group<C>, leaves: seq<C>, live: set<nat>, outputs: seq<C>)
    requires Abelian(G) && PushOutputs(leaves, live, outputs).Some?
    ensures var x := PushOutputs(leaves, live, outputs).value;
      Sum(G, Unspent(x.0, x.1, |x.0|)) == G.add(Sum(G, Unspent(leaves, live, |leaves|)), Sum(G, outputs))
  {
    var u := Sum(G, Unspent(leaves, live, |leaves|));
    if outputs == [] {
      Laws(G, u, u, u);
    } else {
      var init, c := outputs[..|outputs| - 1], outputs[|outputs| - 1];
      var x := PushOutputs(leaves, live, init).value;
      PushOutputsSum(G, leaves, live, init);
      PushOneSum(G, x.0, x.1, c);
      SumLast(G, outputs);
      Laws(G, u, Sum(G, init), c);
    }
  }

  lemma SumLast<C(!new)>(G: Group<C>, s: seq<C>)
    requires Abelian(G) && s != []
    ensures Sum(G, s) == G.add(Sum(G, s[..|s| - 1]), s[|s| - 1])
  {
    assert s == s[..|s| - 1] + [s[|s| - 1]];
    SumPush(G, s[..|s| - 1], s[|s| - 1]);
  }

  lemma PushOneSum<C(!new)>(G: Group<C>, leaves: seq<C>, live: set<nat>, c: C)
    requires Abelian(G)
    ensures Sum(G, Unspent(leaves + [c], live + {|leaves|}, |leaves| + 1))
              == G.add(Sum(G, Unspent(leaves, live, |leaves|)), c)
  {
    UnspentSame(leaves, live, leaves + [c], live + {|leaves|}, |leaves|);
    SumPush(G, Unspent(leaves, live, |leaves|), c);
  }

  lemma {:induction false} SpendOneSum<C(!new)>(G: Group<C>, leaves: seq<C>, live: set<nat>, i: nat, n: nat)
    requires Abelian(G) && i < n <= |leaves| && i in live
    ensures G.add(Sum(G, Unspent(leaves, live - {i}, n)), leaves[i]) == Sum(G, Unspent(leaves, live, n))
  {
    var live' := live - {i};
    if i == n - 1 {
      UnspentSame(leaves, live, leaves, live', n - 1);
      SumPush(G, Unspent(leaves, live, n - 1), leaves[i]);
    } else {
      SpendOneSum(G, leaves, live, i, n - 1);
      if n - 1 in live {
        SumPush(G, Unspent(leaves, live, n - 1), leaves[n - 1]);
        SumPush(G, Unspent(leaves, live', n - 1), leaves[n - 1]);
        Swap(G, Sum(G, Unspent(leaves, live', n - 1)), leaves[n - 1], leaves[i]);
      }
    }
  }

  lemma {:induction false} SpendSum<C(!new)>(G: Group<C>, leaves: seq<C>, live: set<nat>, inputs: seq<C>)
    requires Abelian(G) && Spend(leaves, live, inputs).Some?
    ensures var live' := Spend(leaves, live, inputs).value;
      G.add(Sum(G, Unspent(leaves, live', |leaves|)), Sum(G, inputs)) == Sum(G, Unspent(leaves, live, |leaves|))
  {
    if inputs == [] {
      Laws(G, Sum(G, Unspent(leaves, live, |leaves|)), G.zero, G.zero);
    } else {
      var init, c := inputs[..|inputs| - 1], inputs[|inputs| - 1];
      var left := Spend(leaves, live, init).value;
      var i := FindLive(leaves, left, c, |leaves|).value;
      SpendSum(G, leaves, live, init);
      SpendOneSum(G, leaves, left, i, |leaves|);
      SumLast(G, inputs);
      var u' := Sum(G, Unspent(leaves, left - {i}, |leaves|));
      Laws(G, Sum(G, init), c, c);
      Laws(G, u', c, Sum(G, init));
    }
  }

  function UnspentSum<C>(G: Group<C>, t: Trees<C>): C {
    Sum(G, Unspent(t.leaves, t.live, |t.leaves|))
  }

  // Applying a block adds its outputs and takes away its inputs.
  lemma ApplySum<C(!new)>(G: Group<C>, t: Trees<C>, b: Body<C>)
    requires Abelian(G) && Apply(t, b).Some?
    ensures G.add(UnspentSum(G, Apply(t, b).value), Sum(G, b.inputs)) == G.add(UnspentSum(G, t), Sum(G, b.outputs))
    ensures Sum(G, Apply(t, b).value.kernels) == G.add(Sum(G, t.kernels), Sum(G, b.kernels))
  {
    var x := PushOutputs(t.leaves, t.live, b.outputs).value;
    PushOutputsSum(G, t.leaves, t.live, b.outputs);
    SpendSum(G, x.0, x.1, b.inputs);
    SumAppend(G, t.kernels, b.kernels);
  }

  // ----- the running sums and the full check -----

  // The sums of the parent block with the inputs, outputs and kernels of a block.
  function AddSums<C(==)>(G: Group<C>, u: Sums<C>, b: Body<C>): Option<Sums<C>> {
    match VerifyKernelSums(G, b.inputs, [u.utxo] + b.outputs, [u.kernel] + b.kernels, 0 - REWARD, b.offset)
    case KernelSumMismatch => None
    case Verified(sums) => Some(sums)
  }

  // The check of a whole chain state: all unspent outputs against all kernels.
  function FullCheck<C(==)>(G: Group<C>, t: Trees<C>, rewards: nat, offset: C): Verified<C> {
    VerifyKernelSums(G, [], Unspent(t.leaves, t.live, |t.leaves|), t.kernels, 0 - rewards * REWARD, offset)
  }

  // The running sums are those of the whole state, all rewards taken off.
  ghost predicate Balanced<C>(G: Group<C>, t: Trees<C>, u: Sums<C>, rewards: nat) {
    && G.add(u.utxo, G.value(rewards * REWARD)) == UnspentSum(G, t)
    && u.kernel == Sum(G, t.kernels)
  }

  // (u + r) + o == (u' + i + v) + r, and so on: the bookkeeping of one block.
  lemma OneBlock<C(!new)>(G: Group<C>, u: C, x: C, ins: C, outs: C, v: C, r: C, before: C, after: C)
    requires Abelian(G)
    requires G.add(u, r) == before
    requires G.add(after, ins) == G.add(before, outs)
    requires G.add(G.add(x, ins), v) == G.add(u, outs)
    ensures G.add(x, G.add(r, v)) == after
  {
    calc {
      G.add(G.add(x, G.add(r, v)), ins);
      { Laws(G, r, v, v); Laws(G, x, v, r); }
      G.add(G.add(G.add(x, v), r), ins);
      { Swap(G, G.add(x, v), r, ins); Swap(G, x, v, ins); }
      G.add(G.add(G.add(x, ins), v), r);
      G.add(G.add(u, outs), r);
      { Swap(G, u, outs, r); }
      G.add(before, outs);
      G.add(after, ins);
    }
    Cancel(G, G.add(x, G.add(r, v)), after, ins);
  }

  // The utxo sum after a block, whether or not it matches the kernels.
  function NextUtxo<C>(G: Group<C>, u: Sums<C>, b: Body<C>): C {
    Sub(G, G.add(u.utxo, Sum(G, b.outputs)), G.add(Sum(G, b.inputs), G.value(REWARD)))
  }

  lemma NextUtxoIs<C(!new)>(G: Group<C>, u: Sums<C>, b: Body<C>)
    requires Abelian(G)
    ensures var x := NextUtxo(G, u, b);
      G.add(G.add(x, Sum(G, b.inputs)), G.value(REWARD)) == G.add(u.utxo, Sum(G, b.outputs))
        == Sum(G, [u.utxo] + b.outputs)
  {
    var x, i, v := NextUtxo(G, u, b), Sum(G, b.inputs), G.value(REWARD);
    SubIs(G, G.add(u.utxo, Sum(G, b.outputs)), G.add(i, v), x);
    Laws(G, x, i, v);
    SumAppend(G, [u.utxo], b.outputs);
    SumOne(G, u.utxo);
  }

  // What both checks come to: the utxo sum x, the kernel sum k, and whether they match.
  function Outcome<C(==)>(G: Group<C>, x: C, k: C, offset: C): Option<Sums<C>> {
    if x == G.add(k, offset) then Some(Sums(x, k)) else None
  }

  lemma AddSumsIs<C(!new)>(G: Group<C>, u: Sums<C>, b: Body<C>)
    requires Abelian(G)
    ensures AddSums(G, u, b) == Outcome(G, NextUtxo(G, u, b), G.add(u.kernel, Sum(G, b.kernels)), b.offset)
  {
    NextUtxoIs(G, u, b);
    SumAppend(G, [u.kernel], b.kernels);
    SumOne(G, u.kernel);
    VerifyRewardIs(G, b.inputs, [u.utxo] + b.outputs, [u.kernel] + b.kernels, REWARD, b.offset, NextUtxo(G, u, b));
  }

  lemma FullCheckIs<C(!new)>(G: Group<C>, t: Trees<C>, rewards: nat, offset: C, x: C)
    requires Abelian(G) && G.add(x, G.value(rewards * REWARD)) == UnspentSum(G, t)
    ensures Passed(FullCheck(G, t, rewards, offset)) == Outcome(G, x, Sum(G, t.kernels), offset)
  {
    Laws(G, x, G.zero, G.zero);
    VerifyRewardIs(G, [], Unspent(t.leaves, t.live, |t.leaves|), t.kernels, rewards * REWARD, offset, x);
  }

  function Passed<C>(v: Verified<C>): Option<Sums<C>> {
    match v
    case KernelSumMismatch => None
    case Verified(sums) => Some(sums)
  }

  lemma NextBalanced<C(!new)>(G: Group<C>, t: Trees<C>, u: Sums<C>, rewards: nat, b: Body<C>, t': Trees<C>)
    requires Abelian(G) && Balanced(G, t, u, rewards) && Apply(t, b) == Some(t')
    ensures Balanced(G, t', Sums(NextUtxo(G, u, b), G.add(u.kernel, Sum(G, b.kernels))), rewards + 1)
  {
    NextUtxoIs(G, u, b);
    ApplySum(G, t, b);
    ValueAdds(G, rewards * REWARD, REWARD);
    OneBlock(G, u.utxo, NextUtxo(G, u, b), Sum(G, b.inputs), Sum(G, b.outputs), G.value(REWARD),
      G.value(rewards * REWARD), UnspentSum(G, t), UnspentSum(G, t'));
  }

  // Checking one block against the running sums is checking the whole state after it.
  lemma OneBlockIsWholeChain<C(!new)>(G: Group<C>, t: Trees<C>, u: Sums<C>, rewards: nat, b: Body<C>, t': Trees<C>,
                                      next: nat)
    requires Abelian(G) && Balanced(G, t, u, rewards) && Apply(t, b) == Some(t') && next == rewards + 1
    ensures AddSums(G, u, b) == Passed(FullCheck(G, t', next, b.offset))
    ensures AddSums(G, u, b).Some? ==> Balanced(G, t', AddSums(G, u, b).value, next)
  {
    AddSumsIs(G, u, b);
    NextBalanced(G, t, u, rewards, b, t');
    FullCheckIs(G, t', next, b.offset, NextUtxo(G, u, b));
  }

  // ----- the ledger of the chain -----

  function ApplyState<C(==)>(t: State<C>, b: Body<C>): Option<State<C>> {
    match Apply(t, b)
    case None => None
    case Some(t') => UndoOfApply(t, b); Some(t')
  }

  function UndoState<C>(t: State<C>): State<C> {
    Undo(t)
  }

  // The checks that do not bear on sums are parameters.
  datatype Checks<!C> = Checks(
    valid: (Block<Body<C>>, Header) -> bool,
    mature: (State<C>, seq<Hash>, Block<Body<C>>) -> bool,
    unspent: (State<C>, seq<Hash>, Block<Body<C>>) -> bool,
    roots: (State<C>, Header) -> bool)

  function ApplyBlock<C(==)>(checks: Checks<C>, t: State<C>, b: Block<Body<C>>): Option<State<C>> {
    match ApplyState(t, b.body)
    case None => None
    case Some(t') => if checks.roots(t', b.header) then Some(t') else None
  }

  function MoneyLedger<C(==)>(G: Group<C>, checks: Checks<C>, genesis: State<C>, sums: Sums<C>)
    : Ledger<Body<C>, State<C>, Sums<C>>
  {
    Ledger(genesis, sums, checks.valid, checks.mature, checks.unspent,
           (t: State<C>, b: Block<Body<C>>) => ApplyBlock(checks, t, b),
           (t: State<C>, b: Block<Body<C>>) => UndoState(t),
           (u: Sums<C>, b: Block<Body<C>>) => AddSums(G, u, b.body))
  }

  lemma MoneyLedgerReversible<C(!new)>(G: Group<C>, checks: Checks<C>, genesis: State<C>, sums: Sums<C>)
    ensures Reversible(MoneyLedger(G, checks, genesis, sums))
  {
    var led := MoneyLedger(G, checks, genesis, sums);
    forall t: State<C>, b: Block<Body<C>> | led.apply(t, b).Some? ensures led.undo(led.apply(t, b).value, b) == t {
      assert led.apply(t, b) == ApplyBlock(checks, t, b);
      UndoOfApply(t, b.body);
    }
  }

  // A block is applied exactly if its inputs and outputs are right and its header names the roots
  // of the state it leads to.
  lemma AppliedIs<C>(G: Group<C>, checks: Checks<C>, genesis: State<C>, sums: Sums<C>, t: State<C>,
                     b: Block<Body<C>>, t': State<C>)
    ensures MoneyLedger(G, checks, genesis, sums).apply(t, b) == Some(t') <==>
            ApplyState(t, b.body) == Some(t') && checks.roots(t', b.header)
  {
  }

  // So the header of every block on a path names the roots of the state after it.
  lemma RootsHold<C>(G: Group<C>, checks: Checks<C>, t0: State<C>, u0: Sums<C>, blocks: Blocks<Body<C>>,
                     p: seq<Hash>, n: nat, t: State<C>)
    requires 2 <= n <= |p| && StateAt(MoneyLedger(G, checks, t0, u0), blocks, p, n) == Some(t)
    ensures p[n - 1] in blocks && checks.roots(t, blocks[p[n - 1]].header)
  {
  }

  // The genesis state and sums: a genesis block without kernels makes nothing; else its reward counts.
  ghost predicate GenesisSums<C(!new)>(G: Group<C>, genesis: Body<C>, t: State<C>, u: Sums<C>) {
    && genesis.inputs == []
    && Apply(Trees([], {}, [], []), genesis) == Some(t)
    && if genesis.kernels == [] then genesis.outputs == [] && u == Sums(G.zero, G.zero)
       else AddSums(G, Sums(G.zero, G.zero), genesis) == Some(u)
  }

  function Rewards<C>(genesis: Body<C>, height: nat): nat {
    if genesis.kernels == [] then height else height + 1
  }

  lemma GenesisBalanced<C(!new)>(G: Group<C>, genesis: Body<C>, t: State<C>, u: Sums<C>)
    requires Abelian(G) && GenesisSums(G, genesis, t, u)
    ensures Balanced(G, t, u, Rewards(genesis, 0))
  {
    var none: Trees<C>, zero := Trees([], {}, [], []), Sums(G.zero, G.zero);
    Laws(G, G.zero, G.zero, G.zero);
    assert Balanced(G, none, zero, 0);
    if genesis.kernels == [] {
      assert t.leaves == [] && t.kernels == [];
    } else {
      OneBlockIsWholeChain(G, none, zero, 0, genesis, t, 1);
    }
  }

  // Splits off the last block of a path.
  lemma LastBlock<C(!new)>(G: Group<C>, checks: Checks<C>, t0: State<C>, u0: Sums<C>, blocks: Blocks<Body<C>>,
                           p: seq<Hash>, i: nat, n: nat, t: State<C>, u: Sums<C>) returns (t1: State<C>, u1: Sums<C>)
    requires 1 <= i && i + 1 == n <= |p|
    requires StateAt(MoneyLedger(G, checks, t0, u0), blocks, p, n) == Some(t)
    requires SumsAt(MoneyLedger(G, checks, t0, u0), blocks, p, n) == Some(u)
    ensures StateAt(MoneyLedger(G, checks, t0, u0), blocks, p, i) == Some(t1)
    ensures SumsAt(MoneyLedger(G, checks, t0, u0), blocks, p, i) == Some(u1)
    ensures p[i] in blocks && Apply(t1, blocks[p[i]].body) == Some(t) && AddSums(G, u1, blocks[p[i]].body) == Some(u)
  {
    var led := MoneyLedger(G, checks, t0, u0);
    t1, u1 := StateAt(led, blocks, p, i).value, SumsAt(led, blocks, p, i).value;
  }

  // If the sums were those of the state before the last block, they are after it.
  lemma LastBalances<C(!new)>(G: Group<C>, checks: Checks<C>, t0: State<C>, u0: Sums<C>, blocks: Blocks<Body<C>>,
                              p: seq<Hash>, i: nat, n: nat, t: State<C>, u: Sums<C>, rewards: nat, next: nat)
    returns (t1: State<C>, u1: Sums<C>)
    requires Abelian(G) && 1 <= i && i + 1 == n <= |p| && next == rewards + 1
    requires StateAt(MoneyLedger(G, checks, t0, u0), blocks, p, n) == Some(t)
    requires SumsAt(MoneyLedger(G, checks, t0, u0), blocks, p, n) == Some(u)
    ensures StateAt(MoneyLedger(G, checks, t0, u0), blocks, p, i) == Some(t1)
    ensures SumsAt(MoneyLedger(G, checks, t0, u0), blocks, p, i) == Some(u1)
    ensures Balanced(G, t1, u1, rewards) ==> Balanced(G, t, u, next)
  {
    t1, u1 := LastBlock(G, checks, t0, u0, blocks, p, i, n, t, u);
    NextSums(G, t1, u1, rewards, next, blocks[p[i]].body, t, u);
  }

  lemma NextSums<C(!new)>(G: Group<C>, t1: State<C>, u1: Sums<C>, rewards: nat, next: nat, b: Body<C>, t: State<C>,
                          u: Sums<C>)
    requires Abelian(G) && next == rewards + 1 && Apply(t1, b) == Some(t) && AddSums(G, u1, b) == Some(u)
    ensures Balanced(G, t1, u1, rewards) ==> Balanced(G, t, u, next)
  {
    if Balanced(G, t1, u1, rewards) { OneBlockIsWholeChain(G, t1, u1, rewards, b, t, next); }
  }

  lemma OnlyGenesis<C(!new)>(G: Group<C>, checks: Checks<C>, t0: State<C>, u0: Sums<C>, blocks: Blocks<Body<C>>,
                             p: seq<Hash>, n: nat, t: State<C>, u: Sums<C>)
    requires n == 1 <= |p|
    requires StateAt(MoneyLedger(G, checks, t0, u0), blocks, p, n) == Some(t)
    requires SumsAt(MoneyLedger(G, checks, t0, u0), blocks, p, n) == Some(u)
    ensures t == t0 && u == u0
  {
  }

  lemma {:induction false} TotalsFrom<C(!new)>(G: Group<C>, checks: Checks<C>, t0: State<C>, u0: Sums<C>,
      blocks: Blocks<Body<C>>, p: seq<Hash>, h: nat, n: nat, t: State<C>, u: Sums<C>, rewards: nat, total: nat)
    requires Abelian(G) && Balanced(G, t0, u0, rewards) && h + 1 == n <= |p| && total == rewards + h
    requires StateAt(MoneyLedger(G, checks, t0, u0), blocks, p, n) == Some(t)
    requires SumsAt(MoneyLedger(G, checks, t0, u0), blocks, p, n) == Some(u)
    ensures Balanced(G, t, u, total)
    decreases h
  {
    if h == 0 {
      OnlyGenesis(G, checks, t0, u0, blocks, p, n, t, u);
    } else {
      var before := total - 1;
      var t1, u1 := LastBalances(G, checks, t0, u0, blocks, p, h, n, t, u, before, total);
      TotalsFrom(G, checks, t0, u0, blocks, p, h - 1, h, t1, u1, rewards, before);
    }
  }

  // Along every path of applied blocks the running sums are those of the whole state ...
  lemma SumsAreTotals<C(!new)>(G: Group<C>, checks: Checks<C>, genesis: Body<C>, t0: State<C>, u0: Sums<C>,
      blocks: Blocks<Body<C>>, p: seq<Hash>, h: nat, n: nat, t: State<C>, u: Sums<C>)
    requires Abelian(G) && GenesisSums(G, genesis, t0, u0) && h + 1 == n <= |p|
    requires StateAt(MoneyLedger(G, checks, t0, u0), blocks, p, n) == Some(t)
    requires SumsAt(MoneyLedger(G, checks, t0, u0), blocks, p, n) == Some(u)
    ensures Balanced(G, t, u, Rewards(genesis, h))
  {
    GenesisBalanced(G, genesis, t0, u0);
    TotalsFrom(G, checks, t0, u0, blocks, p, h, n, t, u, Rewards(genesis, 0), Rewards(genesis, h));
  }

  // ... so the whole state passes the full check at every block.
  lemma PathIsSound<C(!new)>(G: Group<C>, checks: Checks<C>, genesis: Body<C>, t0: State<C>, u0: Sums<C>,
      blocks: Blocks<Body<C>>, p: seq<Hash>, h: nat, n: nat, t: State<C>, u: Sums<C>)
    requires Abelian(G) && GenesisSums(G, genesis, t0, u0) && 1 <= h && h + 1 == n <= |p|
    requires StateAt(MoneyLedger(G, checks, t0, u0), blocks, p, n) == Some(t)
    requires SumsAt(MoneyLedger(G, checks, t0, u0), blocks, p, n) == Some(u)
    ensures p[h] in blocks
    ensures FullCheck(G, t, Rewards(genesis, h), blocks[p[h]].body.offset) == Verified(u)
  {
    var t1, u1 := LastBlock(G, checks, t0, u0, blocks, p, h, n, t, u);
    SumsAreTotals(G, checks, genesis, t0, u0, blocks, p, h - 1, h, t1, u1);
    OneBlockIsWholeChain(G, t1, u1, Rewards(genesis, h - 1), blocks[p[h]].body, t, Rewards(genesis, h));
  }

  // The head's state and sums are those of its path.
  lemma HeadStands<C(!new)>(led: Ledger<Body<C>, State<C>, Sums<C>>, db: Db<Body<C>, Sums<C>>, g: Hash, state: State<C>,
                            q: seq<Hash>, i: nat, n: nat)
    requires BodyInv(led, db, g, state) && q == Path(db.hdr.headers, g, db.head.hash) && i == db.head.height && n == |q|
    ensures n == i + 1 && q[i] == db.head.hash && db.head.hash in db.sums
    ensures StateAt(led, db.blocks, q, n) == Some(state) && SumsAt(led, db.blocks, q, n) == Some(db.sums[db.head.hash])
    ensures db.head.hash != g ==> i >= 1
  {
    PathShape(db.hdr.headers, g, db.head.hash);
    assert q[i] in db.sums;
  }

  // A node whose body invariant holds would pass the full check at its head.
  lemma HeadIsSound<C(!new)>(G: Group<C>, checks: Checks<C>, genesis: Body<C>, t0: State<C>, u0: Sums<C>,
                             db: Db<Body<C>, Sums<C>>, g: Hash, state: State<C>)
    requires Abelian(G) && GenesisSums(G, genesis, t0, u0)
    requires BodyInv(MoneyLedger(G, checks, t0, u0), db, g, state) && db.head.hash != g
    ensures db.head.hash in db.blocks && db.head.hash in db.sums
    ensures FullCheck(G, state, Rewards(genesis, db.head.height), db.blocks[db.head.hash].body.offset)
            == Verified(db.sums[db.head.hash])
  {
    var q, i := Path(db.hdr.headers, g, db.head.hash), db.head.height;
    HeadStands(MoneyLedger(G, checks, t0, u0), db, g, state, q, i, |q|);
    PathIsSound(G, checks, genesis, t0, u0, db.blocks, q, i, |q|, state, db.sums[db.head.hash]);
  }
}
