/**
 The difficulty iterator of a chain.
 */
module ChainDifficulty {
  import opened Collections
  import opened HeaderTree
  import opened Blockchain
  import opened DifficultyHistory
  import opened DifficultyRule

  // The iterator from the body head back.  Along the path it reads, timestamps and work rise, so
  // that the differences it returns are positive.
  method DifficultyIterOf<B(!new), S(!new), U(!new)>(chain: Chain<B, S, U>) returns (it: DifficultyIter)
    requires chain.Valid() && chain.Climbing()
    ensures it.Valid() && fresh(it) && it.pos == 0
    ensures var db := chain.world.db;
      && it.store == db.hdr.headers && it.g == chain.g && WellFormed(it.store, it.g)
      && it.start == db.head.hash && it.start in it.store
      && it.c == Rev(Path(it.store, it.g, it.start))
  {
    assert ChainInv(chain.rules, chain.led, chain.named, chain.g, chain.world);
    var db := chain.world.db;
    AncestryIsPath(db.hdr.headers, chain.g, db.head.hash);
    it := new DifficultyIter(db.head.hash, db.hdr.headers, chain.g);
  }

  // The damped moving average over the path to the header k.
  ghost predicate IsNext(m: Headers, g: Hash, k: Hash, height: nat, difficulty: nat, scaling: nat) {
    && Accepted(m, g) && k in m
    && var c := Rev(Path(m, g, k));
    Linked(m, g, c) && IsDma(m, g, c, height, difficulty, scaling)
  }

  // The next difficulty comes from the work and the timestamps on the path to the body head.  Any
  // run that checks proof of work leaves a chain for which it can be computed.
  method NextDifficultyOf<B(!new), S(!new), U(!new)>(chain: Chain<B, S, U>, height: nat)
    returns (difficulty: nat, scaling: nat)
    requires chain.Valid() && chain.Climbing()
    ensures IsNext(chain.world.db.hdr.headers, chain.g, chain.world.db.head.hash, height, difficulty, scaling)
  {
    var it := DifficultyIterOf(chain);
    difficulty, scaling := NextDmaDifficulty(height, it);
  }

  // A chain whose headers were checked for the right work, from genesis on or over any run that
  // checks proof of work, holds only headers that meet the difficulty rule.
  lemma ChainOnRule<B(!new), S(!new), U(!new)>(chain: Chain<B, S, U>, from: nat, min: nat)
    requires chain.Valid() && chain.Climbing() && IsRule(chain.rules, chain.g, from, min)
    ensures OnRule(chain.world.db.hdr.headers, chain.g, from, min)
  {
    assert ChainInv(chain.rules, chain.led, chain.named, chain.g, chain.world);
    RisesOnRule(chain.rules, chain.world.db.hdr.headers, chain.g, from, min);
  }
}
