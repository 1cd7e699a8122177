/**
 The transaction pool: the public pool, the stem pool of transactions not yet fluffed, and the
 cache for re-orgs.

 `Rules` adds to the chain what else decides about a transaction: taking known transactions out
 of an aggregate, kernel variants, the minimum fee, lock heights, and finding the outputs it
 spends (with their maturity) to put its inputs in full form.
 */
module TransactionPool {
  import opened Collections
  import opened Transactions
  import opened Buckets
  import opened BucketOrder
  import opened TxPool

  datatype Rules = Rules(
    env: Env,
    deaggregate: (Tx, seq<Tx>) -> Option<Tx>,
    variants: Tx -> bool,
    paysFee: Tx -> bool,
    lockHeight: Tx -> bool,
    convert: (seq<Tx>, Option<Tx>, Tx) -> Option<Tx>)

  // A valid transaction has a kernel.
  ghost predicate Sane(rules: Rules) {
    forall t, w :: rules.env.valid(t, w) ==> Proper(t)
  }

  function Deaggregated(rules: Rules, entries: seq<Tx>, tx: Tx): Result<Tx> {
    var txs := Matching(entries, tx.kernels);
    if |tx.kernels| > 1 && txs != []
    then match rules.deaggregate(tx, txs) { case None => Err(InvalidTx) case Some(t) => Ok(t) }
    else Ok(tx)
  }

  // The cache with one more entry, and without the oldest if it is too large.
  function Cached(cache: seq<Tx>, t: Tx, max: nat): seq<Tx> {
    var c := cache + [t];
    if |c| > max then c[1..] else c
  }

  // The newest entry is kept; the oldest is dropped exactly if the cache was full.
  lemma CachedIs(cache: seq<Tx>, t: Tx, max: nat)
    requires |cache| <= max
    ensures |Cached(cache, t, max)| <= max
    ensures |cache| < max ==> Cached(cache, t, max) == cache + [t]
    ensures |cache| == max > 0 ==> Cached(cache, t, max) == cache[1..] + [t]
  {
    if |cache| == max > 0 { assert (cache + [t])[1..] == cache[1..] + [t]; }
  }

  // A nonempty stem pool is valid together with the public pool.
  ghost predicate Joint(env: Env, txs: seq<Tx>, stem: seq<Tx>) {
    && (txs != [] ==> Good(env, txs, NoLimit))
    && (stem != [] ==> Good(env, stem + txs, NoLimit))
  }

  // What reconciling against the aggregate of the public pool leaves of the stem pool.
  ghost function StemLeft(env: Env, txs: seq<Tx>, stem: seq<Tx>): seq<Tx> {
    Greedy(env, if txs == [] || Aggregate(txs).None? then [] else [Aggregate(txs).value], stem)
  }

  lemma StemLeftJoint(env: Env, txs: seq<Tx>, stem: seq<Tx>)
    requires txs != [] ==> Good(env, txs, NoLimit)
    ensures Joint(env, txs, StemLeft(env, txs, stem))
  {
    var left := StemLeft(env, txs, stem);
    if txs == [] {
      GreedySound(env, [], stem);
    } else {
      GreedySound(env, [Aggregate(txs).value], stem);
      GoodNested(env, left, txs, NoLimit);
    }
  }

  class TransactionPool {
    const maxPoolSize: nat
    const maxStempoolSize: nat
    const txpool: Pool
    const stempool: Pool
    var reorgCache: seq<Tx>

    // The sizes stay within their limits.
    ghost predicate Valid()
      reads this, txpool, stempool
    {
      && txpool != stempool
      && |txpool.entries| <= maxPoolSize + 1
      && |stempool.entries| <= maxStempoolSize + 1
      && |reorgCache| <= maxPoolSize
      && AllProper(txpool.entries) && Distinct(txpool.entries)
    }

    constructor (maxPoolSize: nat, maxStempoolSize: nat)
      ensures Valid() && fresh(txpool) && fresh(stempool)
      ensures txpool.entries == [] && stempool.entries == [] && reorgCache == []
      ensures this.maxPoolSize == maxPoolSize && this.maxStempoolSize == maxStempoolSize
    {
      this.maxPoolSize, this.maxStempoolSize := maxPoolSize, maxStempoolSize;
      txpool := new Pool();
      stempool := new Pool();
      reorgCache := [];
    }

    method AddToReorgCache(t: Tx)
      modifies this
      ensures reorgCache == Cached(old(reorgCache), t, maxPoolSize)
    {
      reorgCache := reorgCache + [t];
      if |reorgCache| > maxPoolSize { reorgCache := reorgCache[1..]; }
    }

    // Takes what the pool already holds out of a transaction with several kernels.
    method DeaggregateTx(rules: Rules, tx: Tx) returns (r: Result<Tx>)
      ensures r == Deaggregated(rules, txpool.entries, tx)
    {
      if |tx.kernels| > 1 {
        var txs := txpool.FindMatchingTransactions(tx.kernels);
        if txs != [] {
          match rules.deaggregate(tx, txs) {
            case None => return Err(InvalidTx);
            case Some(t) => return Ok(t);
          }
        }
      }
      return Ok(tx);
    }

    // Adds to the public pool, and reconciles the stem pool with it.
    method AddToTxpool(env: Env, tx: Tx) returns (r: Result<()>)
      requires txpool != stempool
      modifies txpool, stempool
      ensures r.Ok? <==> tx !in old(txpool.entries) && Good(env, old(txpool.entries) + [tx], NoLimit)
      ensures r.Err? ==> txpool.entries == old(txpool.entries) && stempool.entries == old(stempool.entries)
      ensures r.Ok? ==>
                && txpool.entries == old(txpool.entries) + [tx]
                && stempool.entries == StemLeft(env, txpool.entries, old(stempool.entries))
                && Joint(env, txpool.entries, stempool.entries)
    {
      assert txpool.entries + [] + [tx] == txpool.entries + [tx];
      r := txpool.AddToPool(env, tx, None);
      if r.Err? { return; }
      assert txpool.entries + [] == txpool.entries;
      var agg := txpool.AllTransactionsAggregate(env, None);
      if agg.Err? { return Err(InvalidTx); }
      StemLeftJoint(env, txpool.entries, stempool.entries);
      stempool.Reconcile(env, agg.value);
    }

    // Full pools and low fees.
    method IsAcceptable(rules: Rules, tx: Tx, stem: bool) returns (r: Result<()>)
      ensures r == if |txpool.entries| > maxPoolSize || (stem && |stempool.entries| > maxStempoolSize)
                then Err(OverCapacity)
                   else if !rules.paysFee(tx) then Err(LowFee)
                   else Ok(())
    {
      if |txpool.entries| > maxPoolSize { return Err(OverCapacity); }
      if (stem && |stempool.entries| > maxStempoolSize) || |txpool.entries| > maxPoolSize { return Err(OverCapacity); }
      if !rules.paysFee(tx) { return Err(LowFee); }
      return Ok(());
    }

    // The public pool after taking a transaction: one is evicted if it was over capacity before.
    ghost function Taken(env: Env, txs: seq<Tx>, t: Tx): seq<Tx>
      requires AllProper(txs) && Proper(t)
    {
      if |txs| > maxPoolSize then Evicted(env, txs + [t]) else txs + [t]
    }

    // A transaction was made public.
    ghost predicate Fluffed(env: Env, txs: seq<Tx>, cache: seq<Tx>, t: Tx, txs': seq<Tx>, cache': seq<Tx>) {
      && AllProper(txs) && Proper(t)
      && t !in txs && Good(env, txs + [t], NoLimit)
      && txs' == Taken(env, txs, t) && cache' == Cached(cache, t, maxPoolSize)
    }

    // Makes a transaction public, and room for it.  Without an eviction both pools are valid together.
    method Fluff(env: Env, t: Tx, evict: bool) returns (r: Result<()>)
      requires Valid() && Proper(t) && evict == (|txpool.entries| > maxPoolSize)
      modifies this, txpool, stempool
      ensures Valid()
      ensures r.Ok? <==> t !in old(txpool.entries) && Good(env, old(txpool.entries) + [t], NoLimit)
      ensures r.Ok? ==> Fluffed(env, old(txpool.entries), old(reorgCache), t, txpool.entries, reorgCache)
      ensures r.Ok? ==> stempool.entries == StemLeft(env, old(txpool.entries) + [t], old(stempool.entries))
      ensures r.Ok? && !evict ==> Joint(env, txpool.entries, stempool.entries)
      ensures r.Err? ==> txpool.entries == old(txpool.entries) && stempool.entries == old(stempool.entries)
      ensures r.Err? ==> reorgCache == old(reorgCache)
    {
      r := AddToTxpool(env, t);
      if r.Err? { return; }
      ghost var agg := Aggregate(txpool.entries);
      GreedyWithin(env, if agg.None? then [] else [agg.value], old(stempool.entries));
      AddToReorgCache(t);
      EvictedIsSmaller(env, txpool.entries);
      if evict { txpool.EvictTransaction(env); }
    }

    // The extra transaction that stands for a public pool.
    ghost predicate StandsFor(extra: Option<Tx>, txs: seq<Tx>) {
      if txs == [] then extra == None else extra.Some? && extra == Aggregate(txs)
    }

    predicate Over(txs: seq<Tx>, stemTxs: seq<Tx>, stem: bool) {
      |txs| > maxPoolSize || (stem && |stemTxs| > maxStempoolSize)
    }

    // The transaction that is added in the end, or why it is refused.
    ghost function Screened(rules: Rules, txs: seq<Tx>, stemTxs: seq<Tx>, tx: Tx, stem: bool): Result<Tx> {
      match if stem then Ok(tx) else Deaggregated(rules, txs, tx)
      case Err(e) => Err(e)
      case Ok(t) =>
        if !rules.variants(t) then Err(Refused)
        else if Over(txs, stemTxs, stem) && stem then Err(OverCapacity)
        else if !Over(txs, stemTxs, stem) && !rules.paysFee(t) then Err(LowFee)
        else if !rules.env.valid(t, AsTransaction) then Err(InvalidTx)
        else if !rules.lockHeight(t) then Err(Refused)
        else Converted(rules, txs, stemTxs, t, stem)
    }

    ghost function Converted(rules: Rules, txs: seq<Tx>, stemTxs: seq<Tx>, t: Tx, stem: bool): Result<Tx> {
      if stem && txs != [] && (Aggregate(txs).None? || !rules.env.valid(Aggregate(txs).value, NoLimit))
      then Err(InvalidTx)
      else
        var extra := if stem && txs != [] then Aggregate(txs) else None;
        match rules.convert(if stem then stemTxs else txs, extra, t)
        case None => Err(InvalidTx)
        case Some(full) => if rules.env.valid(full, AsTransaction) then Ok(full) else Err(InvalidTx)
    }

    // All checks before a transaction is added; yields it in full form, whether another has to
    // make room, and for a stem transaction the aggregate of the public pool.
    method Screen(rules: Rules, tx: Tx, stem: bool) returns (r: Result<Tx>, evict: bool, extra: Option<Tx>)
      requires Sane(rules)
      ensures r == Screened(rules, txpool.entries, stempool.entries, tx, stem)
      ensures r.Ok? ==> Proper(r.value) && evict == (|txpool.entries| > maxPoolSize)
      ensures r.Ok? && stem ==> !evict && |stempool.entries| <= maxStempoolSize && StandsFor(extra, txpool.entries)
    {
      evict, extra := false, None;
      var entry := tx;
      if !stem {
        var d := DeaggregateTx(rules, tx);
        if d.Err? { return Err(d.error), evict, extra; }
        entry := d.value;
      }
      if !rules.variants(entry) { return Err(Refused), evict, extra; }
      var acceptable := IsAcceptable(rules, entry, stem);
      if !stem && acceptable == Err(OverCapacity) {
        evict := true;
      } else if acceptable.Err? {
        return Err(acceptable.error), evict, extra;
      }
      if !rules.env.valid(entry, AsTransaction) { return Err(InvalidTx), evict, extra; }
      if !rules.lockHeight(entry) { return Err(Refused), evict, extra; }
      if stem {
        assert txpool.entries + [] == txpool.entries;
        var agg := txpool.AllTransactionsAggregate(rules.env, None);
        if agg.Err? { return Err(agg.error), evict, extra; }
        extra := agg.value;
      }
      var full := rules.convert(if stem then stempool.entries else txpool.entries, extra, entry);
      if full.None? || !rules.env.valid(full.value, AsTransaction) { return Err(InvalidTx), evict, extra; }
      return Ok(full.value), evict, extra;
    }

    // The transaction can go to the stem pool, and to the public pool.
    predicate Stemmable(env: Env, txs: seq<Tx>, stemTxs: seq<Tx>, t: Tx) {
      t !in stemTxs && Good(env, stemTxs + [t] + txs, NoLimit)
    }

    predicate Fluffable(env: Env, txs: seq<Tx>, t: Tx) {
      t !in txs && Good(env, txs + [t], NoLimit)
    }

    // What a transaction does to the pools: `staying` says that it goes to the stem pool first,
    // `relayed` that a peer takes it from there.
    ghost predicate Settled(rules: Rules, txs: seq<Tx>, stemTxs: seq<Tx>, cache: seq<Tx>, tx: Tx, staying: bool,
                            relayed: bool, r: Result<()>, txs': seq<Tx>, stemTxs': seq<Tx>, cache': seq<Tx>)
    {
      var screened := Screened(rules, txs, stemTxs, tx, staying);
      if Holds(txs, tx) then r == Err(DuplicateTx) && txs' == txs && stemTxs' == stemTxs && cache' == cache
      else if screened.Err? then r == Err(screened.error) && txs' == txs && stemTxs' == stemTxs && cache' == cache
      else
        var t := screened.value;
        if staying && !Stemmable(rules.env, txs, stemTxs, t)
        then r.Err? && txs' == txs && stemTxs' == stemTxs && cache' == cache
        else
          var stem1 := if staying then stemTxs + [t] else stemTxs;
          if staying && relayed then r.Ok? && txs' == txs && stemTxs' == stem1 && cache' == cache
          else if !Fluffable(rules.env, txs, t) then r.Err? && txs' == txs && stemTxs' == stem1 && cache' == cache
          else
            && r.Ok? && Fluffed(rules.env, txs, cache, t, txs', cache')
            && stemTxs' == StemLeft(rules.env, txs + [t], stem1)
            && (|txs| <= maxPoolSize ==> Joint(rules.env, txs', stemTxs'))
    }

    // Adds a transaction to the stem pool or the public pool.  A stem transaction seen before, or
    // one that no peer takes, becomes public.
    method AddToPool(rules: Rules, tx: Tx, stem: bool, relayed: bool) returns (r: Result<()>)
      requires Valid() && Sane(rules)
      modifies this, txpool, stempool
      ensures Valid()
      ensures Settled(rules, old(txpool.entries), old(stempool.entries), old(reorgCache), tx,
                      stem && !Holds(old(stempool.entries), tx), relayed,
                      r, txpool.entries, stempool.entries, reorgCache)
      decreases stem
    {
      if stem {
        var staged := stempool.ContainsTx(tx);
        if staged {
          r := AddToPool(rules, tx, false, relayed);
          return;
        }
      }
      var known := txpool.ContainsTx(tx);
      if known { return Err(DuplicateTx); }
      var screened, evict, extra := Screen(rules, tx, stem);
      if screened.Err? { return Err(screened.error); }
      var entry := screened.value;
      if stem {
        StemIsJoint(rules.env, txpool.entries, extra, stempool.entries, entry);
        r := stempool.AddToPool(rules.env, entry, extra);
        if r.Err? { return; }
        if relayed { return Ok(()); }
      }
      r := Fluff(rules.env, entry, evict);
    }

    // Reconciles both pools with a new block.
    method ReconcileBlock(env: Env, block: BlockTxs) returns (r: Result<()>)
      requires Valid()
      modifies txpool, stempool
      ensures r.Ok? && Valid()
      ensures txpool.entries == Greedy(env, [], Unaffected(old(txpool.entries), block))
      ensures stempool.entries == StemLeft(env, txpool.entries, Unaffected(old(stempool.entries), block))
      ensures Joint(env, txpool.entries, stempool.entries) && |txpool.entries| <= |old(txpool.entries)|
    {
      txpool.ReconcileBlock(block);
      ghost var kept := txpool.entries;
      txpool.Reconcile(env, None);
      KeptSmall(env, [], old(txpool.entries), block);
      GreedySound(env, [], kept);
      assert txpool.entries + [] == txpool.entries;
      stempool.ReconcileBlock(block);
      var agg := txpool.AllTransactionsAggregate(env, None);
      if agg.Err? { return Err(InvalidTx); }
      StemLeftJoint(env, txpool.entries, stempool.entries);
      KeptSmall(env, Listed(agg.value), old(stempool.entries), block);
      stempool.Reconcile(env, agg.value);
      return Ok(());
    }

    ghost function Now(): Pools
      reads this, txpool, stempool
    {
      Pools(txpool.entries, stempool.entries, reorgCache)
    }

    // What an operation does to the pools.
    ghost predicate Does(op: Op, s: Pools, s': Pools) {
      match op
      case Add(rules, tx, stem, relayed) =>
        var staying := stem && !Holds(s.stem, tx);
        exists r: Result<()> ::
          Settled(rules, s.txs, s.stem, s.cache, tx, staying, relayed, r, s'.txs, s'.stem, s'.cache)
      case Block(env, block) =>
        && s'.txs == Greedy(env, [], Unaffected(s.txs, block)) && s'.cache == s.cache
        && s'.stem == StemLeft(env, s'.txs, Unaffected(s.stem, block))
    }

    // The operations were done in turn, with these pools before and after each.
    ghost predicate Traces(ops: seq<Op>, trace: seq<Pools>, end: Pools) {
      && |trace| == |ops| + 1 && trace[|ops|] == end
      && forall i :: 0 <= i < |ops| ==> Does(ops[i], trace[i], trace[i + 1])
    }

    lemma TracesNext(ops: seq<Op>, i: nat, n: nat, trace: seq<Pools>, end: Pools, end': Pools)
      returns (trace': seq<Pools>)
      requires i + 1 == n <= |ops| && Traces(ops[..i], trace, end) && Does(ops[i], end, end')
      ensures Traces(ops[..n], trace', end') && trace'[0] == trace[0]
    {
      trace' := trace + [end'];
      forall k | 0 <= k < n ensures Does(ops[..n][k], trace'[k], trace'[k + 1]) {
        if k < i { assert Does(ops[..i][k], trace[k], trace[k + 1]); }
      }
    }

    // An operation, and whether it evicted a transaction.
    method Step(op: Op, ghost env: Env) returns (evicts: bool)
      requires Valid() && SaneOp(op)
      modifies this, txpool, stempool
      ensures Valid() && |txpool.entries| <= |old(txpool.entries)| + 1 && Does(op, old(Now()), Now())
      ensures evicts ==> op.Add? && |old(txpool.entries)| > maxPoolSize
      ensures op.Block? ==> Joint(op.env, txpool.entries, stempool.entries)
      ensures op.Add? && op.rules.env == env && !evicts && Joint(env, old(txpool.entries), old(stempool.entries)) ==>
                Joint(env, txpool.entries, stempool.entries)
    {
      ghost var txs, stemTxs, cache := txpool.entries, stempool.entries, reorgCache;
      match op {
        case Add(rules, tx, stem, relayed) =>
          var full := |txpool.entries| > maxPoolSize;
          ghost var staying := stem && !Holds(stemTxs, tx);
          var r := AddToPool(rules, tx, stem, relayed);
          SettledJoint(rules, txs, stemTxs, cache, tx, staying, relayed, r, txpool.entries, stempool.entries,
            reorgCache);
          return full && r.Ok?;
        case Block(e, block) =>
          var _ := ReconcileBlock(e, block);
          return false;
      }
    }

    // Unless a transaction is evicted, both pools stay valid together.
    lemma SettledJoint(rules: Rules, txs: seq<Tx>, stemTxs: seq<Tx>, cache: seq<Tx>, tx: Tx, staying: bool,
                       relayed: bool, r: Result<()>, txs': seq<Tx>, stemTxs': seq<Tx>, cache': seq<Tx>)
      requires Settled(rules, txs, stemTxs, cache, tx, staying, relayed, r, txs', stemTxs', cache')
      ensures |txs'| <= |txs| + 1
      ensures !(|txs| > maxPoolSize && r.Ok?) && Joint(rules.env, txs, stemTxs) ==> Joint(rules.env, txs', stemTxs')
    {
      if r.Ok? && Fluffed(rules.env, txs, cache, Screened(rules, txs, stemTxs, tx, staying).value, txs', cache') {
        EvictedIsSmaller(rules.env, txs + [Screened(rules, txs, stemTxs, tx, staying).value]);
      }
    }

    // Whatever is added and whatever blocks come in, the pools stay within their limits.  If the
    // chain changes with blocks only, both pools are valid together, unless a transaction was
    // evicted since the last block; none is while there is room.
    method Run(ops: seq<Op>, ghost env: Env) returns (evicted: bool, ghost trace: seq<Pools>)
      requires Valid() && forall i :: 0 <= i < |ops| ==> SaneOp(ops[i])
      modifies this, txpool, stempool
      ensures Valid() && Traces(ops, trace, Now()) && trace[0] == old(Now())
      ensures Follows(env, ops) && Joint(env, old(txpool.entries), old(stempool.entries)) && !evicted ==>
                Joint(EnvAfter(env, ops), txpool.entries, stempool.entries)
      ensures |old(txpool.entries)| + |ops| <= maxPoolSize + 1 ==> !evicted
    {
      evicted, trace := false, [Now()];
      ghost var size, joint := |txpool.entries|, Follows(env, ops) && Joint(env, txpool.entries, stempool.entries);
      for i := 0 to |ops|
        invariant Valid() && |txpool.entries| <= size + i
        invariant Traces(ops[..i], trace, Now()) && trace[0] == old(Now())
        invariant joint && !evicted ==> Joint(EnvAfter(env, ops[..i]), txpool.entries, stempool.entries)
        invariant size + |ops| <= maxPoolSize + 1 ==> !evicted
      {
        ghost var now, before := EnvAfter(env, ops[..i]), Now();
        EnvStep(env, ops, i);
        var evicts := Step(ops[i], now);
        trace := TracesNext(ops, i, i + 1, trace, before, Now());
        evicted := !ops[i].Block? && (evicted || evicts);
      }
      assert ops[..|ops|] == ops;
    }
  }

  // The chain after these operations.
  ghost function EnvAfter(env: Env, ops: seq<Op>): Env {
    if ops == [] then env
    else
      var op := ops[|ops| - 1];
      if op.Block? then op.env else EnvAfter(env, ops[..|ops| - 1])
  }

  // Every transaction comes in with the chain as the last block left it.
  ghost predicate Follows(env: Env, ops: seq<Op>) {
    forall i :: 0 <= i < |ops| && ops[i].Add? ==> ops[i].rules.env == EnvAfter(env, ops[..i])
  }

  lemma EnvStep(env: Env, ops: seq<Op>, i: nat)
    requires i < |ops|
    ensures EnvAfter(env, ops[..i + 1]) == if ops[i].Block? then ops[i].env else EnvAfter(env, ops[..i])
  {
    assert ops[..i + 1][..i] == ops[..i];
  }

  datatype Pools = Pools(txs: seq<Tx>, stem: seq<Tx>, cache: seq<Tx>)

  // A transaction that comes in, or a block, with the chain as it is then.
  datatype Op = Add(rules: Rules, tx: Tx, stem: bool, relayed: bool) | Block(env: Env, block: BlockTxs)

  ghost predicate SaneOp(op: Op) {
    op.Add? ==> Sane(op.rules)
  }

  // Adding to the stem pool with the aggregate of the public pool is adding with its transactions.
  lemma StemIsJoint(env: Env, txs: seq<Tx>, extra: Option<Tx>, stem: seq<Tx>, t: Tx)
    requires txs == [] ==> extra == None
    requires txs != [] ==> extra == Aggregate(txs) && extra.Some?
    ensures Good(env, stem + Listed(extra) + [t], NoLimit) == Good(env, stem + [t] + txs, NoLimit)
  {
    GoodMoved(env, stem, Listed(extra), [t], NoLimit);
    if txs == [] {
      assert stem + [t] + Listed(extra) == stem + [t] + txs;
    } else {
      GoodNested(env, stem + [t], txs, NoLimit);
    }
  }

  lemma KeptSmall(env: Env, extra: seq<Tx>, txs: seq<Tx>, block: BlockTxs)
    ensures var left := Greedy(env, extra, Unaffected(txs, block));
      |left| <= |txs| && Distinct(left) && (AllProper(txs) ==> AllProper(left))
  {
    var kept := Unaffected(txs, block);
    var left := Greedy(env, extra, kept);
    UnaffectedIs(txs, block);
    GreedyWithin(env, extra, kept);
    if AllProper(txs) {
      forall i | 0 <= i < |left| ensures Proper(left[i]) { assert left[i] in kept && left[i] in txs; }
    }
  }
}
