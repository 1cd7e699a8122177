/**
 A pool of transactions in insertion order that are valid together.

 `Env` stands for the chain at some header: which transactions are valid by themselves, and which
 can be applied to the chain state (spent outputs exist, new ones are unique, sums hold).
 */
module TxPool {
  import opened Collections
  import opened Transactions
  import opened Buckets
  import opened BucketOrder

  datatype Weighting = NoLimit | AsTransaction | AsLimitedTransaction(max: nat)

  datatype Env = Env(valid: (Tx, Weighting) -> bool, onChain: Tx -> bool)

  datatype PoolError = DuplicateTx | InvalidTx | OverCapacity | LowFee | Refused

  datatype Result<+T> = Ok(value: T) | Err(error: PoolError)

  // The transactions aggregate, and the aggregate is valid.
  predicate Good(env: Env, txs: seq<Tx>, w: Weighting) {
    var a := Aggregate(txs);
    a.Some? && env.valid(a.value, w) && env.onChain(a.value)
  }

  function ValidAt(env: Env, w: Weighting): Tx -> bool {
    t => env.valid(t, w)
  }

  function Listed(extra: Option<Tx>): seq<Tx> {
    if extra.Some? then [extra.value] else []
  }

  lemma GoodMoved(env: Env, a: seq<Tx>, b: seq<Tx>, d: seq<Tx>, w: Weighting)
    ensures Good(env, a + b + d, w) == Good(env, a + d + b, w)
  {
    AggregateMoved(a, b, d);
  }

  // Being valid together with an aggregate is being valid together with what it is made of.
  lemma GoodNested(env: Env, a: seq<Tx>, b: seq<Tx>, w: Weighting)
    requires b != [] && Aggregate(b).Some?
    ensures Good(env, a + [Aggregate(b).value], w) == Good(env, a + b, w)
  {
    NestedIsFlat(a, b);
  }

  // ----- what reconciling leaves -----

  // Each transaction in turn, if it is valid together with those already taken.
  function Greedy(env: Env, extra: seq<Tx>, txs: seq<Tx>): seq<Tx> {
    if txs == [] then []
    else
      var n := |txs| - 1;
      var g := Greedy(env, extra, txs[..n]);
      if txs[n] !in g && Good(env, g + extra + [txs[n]], NoLimit) then g + [txs[n]] else g
  }

  // What is left is valid together.
  lemma {:induction false} GreedySound(env: Env, extra: seq<Tx>, txs: seq<Tx>)
    ensures Greedy(env, extra, txs) != [] ==> Good(env, Greedy(env, extra, txs) + extra, NoLimit)
  {
    if txs != [] {
      var n := |txs| - 1;
      var g := Greedy(env, extra, txs[..n]);
      GreedySound(env, extra, txs[..n]);
      GoodMoved(env, g, extra, [txs[n]], NoLimit);
    }
  }

  lemma {:induction false} GreedyPrefix(env: Env, extra: seq<Tx>, txs: seq<Tx>, k: nat)
    requires k <= |txs|
    ensures Greedy(env, extra, txs[..k]) <= Greedy(env, extra, txs)
  {
    if k == |txs| {
      assert txs[..k] == txs;
    } else {
      var n := |txs| - 1;
      GreedyPrefix(env, extra, txs[..n], k);
      assert txs[..n][..k] == txs[..k];
    }
  }

  lemma PrefixHas(a: seq<Tx>, b: seq<Tx>, t: Tx)
    requires a <= b && t !in b
    ensures t !in a
  {
    assert forall i :: 0 <= i < |a| ==> a[i] == b[i];
  }

  // Whatever was dropped did not go with what had been taken before it.
  lemma GreedyMaximal(env: Env, extra: seq<Tx>, txs: seq<Tx>, k: nat)
    requires k < |txs| && txs[k] !in Greedy(env, extra, txs)
    ensures var g := Greedy(env, extra, txs[..k]);
      g <= Greedy(env, extra, txs) && !Good(env, g + extra + [txs[k]], NoLimit)
  {
    GreedyPrefix(env, extra, txs, k);
    GreedyPrefix(env, extra, txs, k + 1);
    var g, h := Greedy(env, extra, txs[..k]), Greedy(env, extra, txs[..k + 1]);
    assert txs[..k + 1][..k] == txs[..k];
    PrefixHas(g, Greedy(env, extra, txs), txs[k]);
    PrefixHas(h, Greedy(env, extra, txs), txs[k]);
  }

  lemma {:induction false} GreedyWithin(env: Env, extra: seq<Tx>, txs: seq<Tx>)
    ensures |Greedy(env, extra, txs)| <= |txs| && Distinct(Greedy(env, extra, txs))
    ensures forall t :: t in Greedy(env, extra, txs) ==> t in txs
  {
    if txs != [] {
      GreedyWithin(env, extra, txs[..|txs| - 1]);
    }
  }

  // ----- choosing among transactions -----

  // Like the above, at some weight limit; None if some candidates cannot even be aggregated.
  function Pick(env: Env, extra: seq<Tx>, txs: seq<Tx>, w: Weighting): Option<seq<Tx>> {
    if txs == [] then Some([])
    else
      var n := |txs| - 1;
      match Pick(env, extra, txs[..n], w)
      case None => None
      case Some(v) =>
        if Aggregate(extra + v + [txs[n]]).None? then None
        else if Good(env, extra + v + [txs[n]], w) then Some(v + [txs[n]])
        else Some(v)
  }

  lemma {:induction false} PickSound(env: Env, extra: seq<Tx>, txs: seq<Tx>, w: Weighting)
    requires Pick(env, extra, txs, w).Some?
    ensures var v := Pick(env, extra, txs, w).value;
      (v != [] ==> Good(env, extra + v, w)) && forall t :: t in v ==> t in txs
  {
    if txs != [] {
      var n := |txs| - 1;
      PickSound(env, extra, txs[..n], w);
      var v := Pick(env, extra, txs[..n], w).value;
      assert extra + v + [txs[n]] == extra + (v + [txs[n]]);
    }
  }

  lemma {:induction false} PickPrefix(env: Env, extra: seq<Tx>, txs: seq<Tx>, w: Weighting, k: nat)
    requires k <= |txs| && Pick(env, extra, txs, w).Some?
    ensures Pick(env, extra, txs[..k], w).Some? && Pick(env, extra, txs[..k], w).value <= Pick(env, extra, txs, w).value
  {
    if k == |txs| {
      assert txs[..k] == txs;
    } else {
      var n := |txs| - 1;
      PickPrefix(env, extra, txs[..n], w, k);
      assert txs[..n][..k] == txs[..k];
    }
  }

  // Whatever was not picked did not go with what had been picked before it.
  lemma PickMaximal(env: Env, extra: seq<Tx>, txs: seq<Tx>, w: Weighting, k: nat)
    requires k < |txs| && Pick(env, extra, txs, w).Some? && txs[k] !in Pick(env, extra, txs, w).value
    ensures Pick(env, extra, txs[..k], w).Some?
    ensures var v := Pick(env, extra, txs[..k], w).value;
      v <= Pick(env, extra, txs, w).value && !Good(env, extra + v + [txs[k]], w)
  {
    PickPrefix(env, extra, txs, w, k);
    PickPrefix(env, extra, txs, w, k + 1);
    assert txs[..k + 1][..k] == txs[..k];
    var v, u, all := Pick(env, extra, txs[..k], w).value, Pick(env, extra, txs[..k + 1], w).value,
      Pick(env, extra, txs, w).value;
    PrefixHas(u, all, txs[k]);
  }

  function Without(txs: seq<Tx>, t: Tx): seq<Tx> {
    if txs == [] then []
    else Without(txs[..|txs| - 1], t) + (if txs[|txs| - 1] == t then [] else [txs[|txs| - 1]])
  }

  lemma {:induction false} WithoutIs(txs: seq<Tx>, t: Tx)
    ensures |Without(txs, t)| <= |txs| && (t in txs ==> |Without(txs, t)| < |txs|)
    ensures forall x :: x in Without(txs, t) <==> x in txs && x != t
    ensures Distinct(txs) ==> Distinct(Without(txs, t))
  {
    if txs != [] {
      var init, x := txs[..|txs| - 1], txs[|txs| - 1];
      WithoutIs(init, t);
      assert txs == init + [x];
      assert forall i :: 0 <= i < |init| ==> init[i] == txs[i];
      if Distinct(txs) { assert x !in init; }
    }
  }

  // Some entry has the kernels of the transaction.
  ghost predicate Holds(entries: seq<Tx>, tx: Tx) {
    exists i :: 0 <= i < |entries| && entries[i].kernels == tx.kernels
  }

  // A block spends these inputs and includes these kernels.
  datatype BlockTxs = BlockTxs(inputs: set<Commit>, kernels: multiset<nat>)

  predicate Clashes(t: Tx, block: BlockTxs) {
    t.kernels * block.kernels != multiset{} || t.inputs * block.inputs != {}
  }

  function Unaffected(txs: seq<Tx>, block: BlockTxs): seq<Tx> {
    if txs == [] then []
    else
      var t := txs[|txs| - 1];
      Unaffected(txs[..|txs| - 1], block) + (if Clashes(t, block) then [] else [t])
  }

  // What does not clash is left as often as it was there.
  lemma {:induction false} UnaffectedAt(txs: seq<Tx>, block: BlockTxs, x: Tx)
    ensures multiset(Unaffected(txs, block))[x] == if Clashes(x, block) then 0 else multiset(txs)[x]
    ensures |Unaffected(txs, block)| <= |txs|
  {
    if txs != [] {
      var init, t := txs[..|txs| - 1], txs[|txs| - 1];
      UnaffectedAt(init, block, x);
      assert txs == init + [t];
      CountNext(init, Unaffected(init, block), t, x, Clashes(t, block), Clashes(x, block));
    }
  }

  lemma CountNext(init: seq<Tx>, kept: seq<Tx>, t: Tx, x: Tx, out: bool, outX: bool)
    requires (x == t ==> out == outX) && multiset(kept)[x] == if outX then 0 else multiset(init)[x]
    ensures multiset(kept + (if out then [] else [t]))[x] == if outX then 0 else multiset(init + [t])[x]
  {
    OneMore(init, t, x);
    OneMore(kept, t, x);
  }

  // Exactly what does not clash is left, as often as it was there.
  lemma UnaffectedIs(txs: seq<Tx>, block: BlockTxs)
    ensures |Unaffected(txs, block)| <= |txs|
    ensures forall x :: x in Unaffected(txs, block) <==> x in txs && !Clashes(x, block)
    ensures forall x :: multiset(Unaffected(txs, block))[x] == if Clashes(x, block) then 0 else multiset(txs)[x]
  {
    var left := Unaffected(txs, block);
    forall x
      ensures |left| <= |txs| && (x in left <==> x in txs && !Clashes(x, block))
      ensures multiset(left)[x] == if Clashes(x, block) then 0 else multiset(txs)[x]
    {
      UnaffectedAt(txs, block, x);
      InCounts(left, x);
      InCounts(txs, x);
    }
  }

  lemma InCounts(txs: seq<Tx>, x: Tx)
    ensures x in txs <==> multiset(txs)[x] > 0
  {
    assert x in txs <==> x in multiset(txs);
  }

  lemma OneMore(txs: seq<Tx>, t: Tx, x: Tx)
    ensures multiset(txs + [t])[x] == multiset(txs)[x] + (if x == t then 1 else 0)
    ensures txs + [] == txs
  {
  }

  // The entries made of these kernels only.
  function Matching(entries: seq<Tx>, kernels: multiset<nat>): seq<Tx> {
    if entries == [] then []
    else
      var t := entries[|entries| - 1];
      Matching(entries[..|entries| - 1], kernels) + (if forall k :: k in t.kernels ==> k in kernels then [t] else [])
  }

  lemma {:induction false} MatchingIs(txs: seq<Tx>, kernels: multiset<nat>, x: Tx)
    ensures multiset(Matching(txs, kernels))[x] ==
            if forall k :: k in x.kernels ==> k in kernels then multiset(txs)[x] else 0
  {
    if txs != [] {
      var init, t := txs[..|txs| - 1], txs[|txs| - 1];
      MatchingIs(init, kernels, x);
      assert txs == init + [t];
    }
  }

  // ----- the pool -----

  class Pool {
    var entries: seq<Tx>

    constructor ()
      ensures entries == []
    {
      entries := [];
    }

    method ContainsTx(tx: Tx) returns (r: bool)
      ensures r <==> Holds(entries, tx)
    {
      for i := 0 to |entries|
        invariant forall j :: 0 <= j < i ==> entries[j].kernels != tx.kernels
      {
        if entries[i].kernels == tx.kernels { return true; }
      }
      return false;
    }

    // Adds a transaction that is new and valid together with the pool and an extra one.
    method AddToPool(env: Env, tx: Tx, extra: Option<Tx>) returns (r: Result<()>)
      modifies this
      ensures r.Ok? <==> tx !in old(entries) && Good(env, old(entries) + Listed(extra) + [tx], NoLimit)
      ensures entries == old(entries) + (if r.Ok? then [tx] else [])
      ensures r.Err? ==> r.error == if tx in old(entries) then DuplicateTx else InvalidTx
    {
      var txs := entries;
      if tx in txs { return Err(DuplicateTx); }
      txs := txs + Listed(extra);
      var agg: Tx;
      if txs == [] {
        assert txs + [tx] == [tx];
        agg := tx;
      } else {
        txs := txs + [tx];
        var a := Aggregate(txs);
        if a.None? { return Err(InvalidTx); }
        agg := a.value;
      }
      if !env.valid(agg, NoLimit) || !env.onChain(agg) { return Err(InvalidTx); }
      entries := entries + [tx];
      return Ok(());
    }

    // Starts over and adds the entries again one by one.
    method Reconcile(env: Env, extra: Option<Tx>)
      modifies this
      ensures entries == Greedy(env, Listed(extra), old(entries))
    {
      var existing := entries;
      entries := [];
      for i := 0 to |existing|
        invariant entries == Greedy(env, Listed(extra), existing[..i])
      {
        assert existing[..i + 1][..i] == existing[..i];
        var _ := AddToPool(env, existing[i], extra);
      }
      assert existing[..|existing|] == existing;
    }

    // A single transaction for all of the pool.
    method AllTransactionsAggregate(env: Env, extra: Option<Tx>) returns (r: Result<Option<Tx>>)
      ensures entries == [] ==> r == Ok(extra)
      ensures entries != [] ==>
                var a := Aggregate(entries + Listed(extra));
                r == if a.Some? && env.valid(a.value, NoLimit) then Ok(a) else Err(InvalidTx)
    {
      if entries == [] { return Ok(extra); }
      var a := Aggregate(entries + Listed(extra));
      if a.None? || !env.valid(a.value, NoLimit) { return Err(InvalidTx); }
      return Ok(a);
    }

    // The transactions that are valid together, taken in turn.
    method ValidateRawTxs(env: Env, txs: seq<Tx>, extra: Option<Tx>, w: Weighting) returns (r: Result<seq<Tx>>)
      ensures r == match Pick(env, Listed(extra), txs, w) { case None => Err(InvalidTx) case Some(v) => Ok(v) }
    {
      var valid: seq<Tx> := [];
      for i := 0 to |txs|
        invariant Pick(env, Listed(extra), txs[..i], w) == Some(valid)
      {
        assert txs[..i + 1][..i] == txs[..i];
        var candidates := Listed(extra) + valid + [txs[i]];
        var a := Aggregate(candidates);
        if a.None? {
          if Pick(env, Listed(extra), txs, w).Some? { PickPrefix(env, Listed(extra), txs, w, i + 1); }
          return Err(InvalidTx);
        }
        if env.valid(a.value, w) && env.onChain(a.value) { valid := valid + [txs[i]]; }
      }
      assert txs[..|txs|] == txs;
      return Ok(valid);
    }

    // The transactions for a block: ordered by buckets, then validated within the weight limit.
    method PrepareMineableTransactions(env: Env, max: nat) returns (r: Result<seq<Tx>>)
      requires AllProper(entries)
      ensures var w := AsLimitedTransaction(max);
        r == match Pick(env, [], Ordered(ValidAt(env, w), entries), w) {
          case None => Err(InvalidTx)
          case Some(v) => Ok(v)
        }
      ensures r.Ok? && r.value != [] ==> Good(env, r.value, AsLimitedTransaction(max))
      ensures r.Ok? ==> forall t :: t in r.value ==> t in entries
    {
      var w := AsLimitedTransaction(max);
      var txs := BucketTransactions(ValidAt(env, w), entries);
      r := ValidateRawTxs(env, txs, None, w);
      if r.Ok? {
        PickSound(env, [], txs, w);
        assert [] + r.value == r.value;
        OrderedFrom(ValidAt(env, w), entries);
      }
    }

    // Drops the transaction that comes last.
    method EvictTransaction(env: Env)
      requires AllProper(entries)
      modifies this
      ensures entries == Evicted(env, old(entries))
    {
      var txs := BucketTransactions(ValidAt(env, NoLimit), entries);
      if txs != [] { entries := Without(entries, txs[|txs| - 1]); }
    }

    method FindMatchingTransactions(kernels: multiset<nat>) returns (found: seq<Tx>)
      ensures found == Matching(entries, kernels)
    {
      found := [];
      for i := 0 to |entries|
        invariant found == Matching(entries[..i], kernels)
      {
        assert entries[..i + 1][..i] == entries[..i];
        if forall k :: k in entries[i].kernels ==> k in kernels { found := found + [entries[i]]; }
      }
      assert entries[..|entries|] == entries;
    }

    // Drops every entry that shares a kernel or an input with a block, and no other.
    method ReconcileBlock(block: BlockTxs)
      modifies this
      ensures entries == Unaffected(old(entries), block)
      ensures forall x :: multiset(entries)[x] == if Clashes(x, block) then 0 else multiset(old(entries))[x]
    {
      var kept: seq<Tx> := [];
      for i := 0 to |entries|
        invariant entries == old(entries) && kept == Unaffected(entries[..i], block)
      {
        assert entries[..i + 1][..i] == entries[..i];
        var x := entries[i];
        if x.kernels * block.kernels == multiset{} && x.inputs * block.inputs == {} { kept := kept + [x]; }
      }
      assert entries[..|entries|] == entries;
      UnaffectedIs(entries, block);
      entries := kept;
    }
  }

  // All that is ordered comes from the entries.
  lemma OrderedFrom(valid: Tx -> bool, entries: seq<Tx>)
    requires AllProper(entries)
    ensures forall t :: t in Ordered(valid, entries) ==> t in entries
  {
    OrderedOnce(valid, entries);
    ChosenAmong(entries, Fates(valid, entries));
    assert entries[..|entries|] == entries;
    forall t | t in Ordered(valid, entries) ensures t in entries {
      assert t in multiset(Ordered(valid, entries));
      assert t in multiset(entries);
    }
  }

  ghost function Evicted(env: Env, entries: seq<Tx>): seq<Tx>
    requires AllProper(entries)
  {
    var txs := Ordered(ValidAt(env, NoLimit), entries);
    if txs == [] then entries else Without(entries, txs[|txs| - 1])
  }

  // The first entry is never rejected, so there is always something to evict.
  lemma EvictedIsSmaller(env: Env, entries: seq<Tx>)
    requires AllProper(entries) && entries != []
    ensures |Evicted(env, entries)| < |entries| && AllProper(Evicted(env, entries))
    ensures Distinct(entries) ==> Distinct(Evicted(env, entries))
  {
    var valid := ValidAt(env, NoLimit);
    FirstIsChosen(valid, entries);
    OrderedFrom(valid, entries);
    var txs := Ordered(valid, entries);
    WithoutIs(entries, txs[|txs| - 1]);
    assert forall t :: t in entries ==> Proper(t);
  }

  lemma FirstIsChosen(valid: Tx -> bool, entries: seq<Tx>)
    requires AllProper(entries) && entries != []
    ensures Ordered(valid, entries) != []
  {
    FateAt(valid, entries, 0);
    assert entries[0].inputs * NOTHING.rejected == {} && Hits(NOTHING, entries[0].inputs) == {};
    assert Fates(valid, entries)[0] == Root(0);
    RunKeeps(valid, entries, |entries|);
    MemberHas(entries, Fates(valid, entries), 0);
    var bs := Placed(valid, entries);
    FlatHas(bs, 0, entries[0]);
    SortFlat(bs);
    assert entries[0] in multiset(Flat(bs));
  }
}
