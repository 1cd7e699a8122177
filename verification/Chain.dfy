/**
 The chain: the committed database, the header MMR, the chain state and the orphan pool, and what
 every run of its operations keeps.

 Hashes do not collide: `named` stands for the one header a hash belongs to.
 */
module Blockchain {
  import opened Collections
  import opened HeaderTree
  import opened HeaderPipe
  import opened BlockPipe
  import opened Orphans

  // ----- the header step -----

  // The header database and MMR after processing a header, None if it is refused.
  ghost function HeaderStep(rules: Rules, db: HeaderDb, g: Hash, mmr: seq<Hash>, head: Tip, blocks: set<Hash>,
                            h: Header, skipPow: bool): Option<(HeaderDb, seq<Hash>)>
    requires WellFormed(db.headers, g)
  {
    if Skips(db, head, blocks, h) then Some((db, mmr))
    else if !Accepts(rules, db, g, mmr, h, skipPow) then None
    else if HasMoreWork(h, db.headerHead) then
      Some((HeaderDb(db.headers[h.hash := h], TipOf(h)), Path(db.headers, g, h.prevHash) + [h.hash]))
    else Some((db.(headers := db.headers[h.hash := h]), mmr))
  }

  lemma SumsWithin<B, S, U>(led: Ledger<B, S, U>, m: Headers, m': Headers, g: Hash, blocks: Blocks<B>,
                            sums: map<Hash, U>)
    requires WellFormed(m, g) && WellFormed(m', g) && Within(m, m') && SumsOk(led, m, g, blocks, sums)
    ensures SumsOk(led, m', g, blocks, sums)
  {
    forall k | k in sums
      ensures k in m' && SumsAt(led, blocks, Path(m', g, k), |Path(m', g, k)|) == Some(sums[k])
    {
      PathWithin(m, m', g, k);
    }
  }

  // More headers do not touch the body.
  lemma BodyWithin<B, S, U>(led: Ledger<B, S, U>, db: Db<B, U>, g: Hash, state: S, hdr: HeaderDb)
    requires BodyInv(led, db, g, state) && WellFormed(hdr.headers, g) && Within(db.hdr.headers, hdr.headers)
    ensures BodyInv(led, db.(hdr := hdr), g, state)
  {
    PathWithin(db.hdr.headers, hdr.headers, g, db.head.hash);
    SumsWithin(led, db.hdr.headers, hdr.headers, g, db.blocks, db.sums);
  }

  // ----- the block pipeline -----

  // The block is not known, and its proof of work holds.
  predicate Fresh<B, U>(rules: Rules, db: Db<B, U>, b: Block<B>, skipPow: bool) {
    CheckKnown(b.header, db.head, db.blocks.Keys).Ok? && (skipPow || rules.pow(b.header))
  }

  // Everything the pipeline does with a block.  An error drops the batch, but a header MMR that
  // has taken the block's header is already written.
  method ProcessBlock<B(!new), S(!new), U>(rules: Rules, led: Ledger<B, S, U>, db: Db<B, U>, ghost g: Hash,
                                           mmr: seq<Hash>, state: S, b: Block<B>, skipPow: bool)
    returns (r: Result<(Option<Tip>, Header)>, db': Db<B, U>, mmr': seq<Hash>, state': S)
    requires Reversible(led) && HeaderInv(db.hdr, g, mmr) && BodyInv(led, db, g, state)
    requires !Collides(db.hdr.headers, b.header)
    ensures Processed(rules, led, db, g, mmr, state, b, skipPow, r, db', mmr', state')
    ensures var known := CheckKnown(b.header, db.head, db.blocks.Keys);
      if known.Err? then r == Err(known.error) else !skipPow && !rules.pow(b.header) ==> r == Err(InvalidPow)
  {
    db', mmr', state' := db, mmr, state;
    var known := CheckKnown(b.header, db.head, db.blocks.Keys);
    if known.Err? { return Err(known.error), db', mmr', state'; }
    if !skipPow && !rules.pow(b.header) { return Err(InvalidPow), db', mmr', state'; }
    if b.header.prevHash !in db.hdr.headers { return Err(NoHeader), db', mmr', state'; }
    var headed, hdr, mmr1 :=
      HeaderPipe.ProcessBlockHeader(rules, db.hdr, g, mmr, db.head, db.blocks.Keys, b.header, skipPow);
    if headed.Err? { return Err(headed.error), db', mmr', state'; }
    mmr' := mmr1;
    BodyWithin(led, db, g, state, hdr);
    var bodied, db2, state2 := ProcessBody(rules, led, db.(hdr := hdr), g, mmr1, state, b);
    if bodied.Err? { return Err(bodied.error), db', mmr', state'; }
    return bodied, db2, mmr', state2;
  }

  ghost predicate Processed<B, S, U>(rules: Rules, led: Ledger<B, S, U>, db: Db<B, U>, g: Hash, mmr: seq<Hash>,
      state: S, b: Block<B>, skipPow: bool, r: Result<(Option<Tip>, Header)>,
      db': Db<B, U>, mmr': seq<Hash>, state': S)
    requires WellFormed(db.hdr.headers, g)
  {
    match HeaderStep(rules, db.hdr, g, mmr, db.head, db.blocks.Keys, b.header, skipPow)
    case None => r.Err? && db' == db && mmr' == mmr && state' == state
    case Some(x) =>
      var db1 := db.(hdr := x.0);
      if Fresh(rules, db, b, skipPow) then
        && mmr' == x.1
        && match TakeOn(rules, led, db1, g, x.1, b) {
           case None => r.Err? && db' == db && state' == state
           case Some(t) => r.Ok? && r.value.1 == t.0 && Taken(db1, state, b, t, db', state', r.value.0)
        }
      else r.Err? && db' == db && mmr' == mmr && state' == state
  }

  // ----- what every operation keeps -----

  // What is committed: the database, the header MMR and the chain state.
  datatype World<!B, !S, !U> = World(db: Db<B, U>, mmr: seq<Hash>, state: S)

  // Header MMR and header head agree; body head, state and sums agree; the header chain has at
  // least the work of the body chain.  Every stored header keeps the rules, and every stored block
  // is valid on the path of its parent.
  ghost predicate ChainInv<B, S, U>(rules: Rules, led: Ledger<B, S, U>, named: Hash -> Header, g: Hash,
                                    w: World<B, S, U>)
  {
    && HeaderInv(w.db.hdr, g, w.mmr) && BodyInv(led, w.db, g, w.state)
    && g in w.db.blocks
    && w.db.head.work <= w.db.hdr.headerHead.work
    && AllNamed(w.db.hdr.headers, named)
    && Lawful(rules, w.db.hdr.headers, g) && AllSound(led, w.db.hdr.headers, g, w.db.blocks)
  }

  // f is the invariant.
  ghost predicate IsInvariant<B(!new), S(!new), U(!new)>(f: World<B, S, U> -> bool, rules: Rules, led: Ledger<B, S, U>,
                                                         named: Hash -> Header, g: Hash)
  {
    forall w {:trigger ChainInv(rules, led, named, g, w)} :: f(w) <==> ChainInv(rules, led, named, g, w)
  }

  ghost predicate AllNamed(m: Headers, named: Hash -> Header) {
    forall k {:trigger named(k)} :: k in m ==> m[k] == named(k)
  }

  // The header is stored and the header head has at least its work.
  ghost predicate Seen(hdr: HeaderDb, h: Header) {
    h.hash in hdr.headers && hdr.headers[h.hash] == h && h.work <= hdr.headerHead.work
  }

  // A block that passes the check for known ones has never been stored.
  lemma UnknownIsNew<B, S, U>(rules: Rules, led: Ledger<B, S, U>, named: Hash -> Header, g: Hash,
                              w: World<B, S, U>, h: Header)
    requires ChainInv(rules, led, named, g, w) && named(h.hash) == h
    requires CheckKnown(h, w.db.head, w.db.blocks.Keys).Ok?
    ensures h.hash !in w.db.blocks && h.hash != g
  {
  }

  // The header is checked with proof of work, and is not what genesis claims to follow.
  predicate Above(h: Header, genesis: Header, skipPow: bool) {
    !skipPow && h.hash != genesis.prevHash
  }

  ghost predicate AllAbove(hs: seq<Header>, genesis: Header, skipPow: bool) {
    forall i :: 0 <= i < |hs| ==> Above(hs[i], genesis, skipPow)
  }

  lemma HeaderStepGrows(rules: Rules, hdr: HeaderDb, g: Hash, mmr: seq<Hash>, head: Tip, blocks: set<Hash>,
                        h: Header, skipPow: bool, named: Hash -> Header, x: (HeaderDb, seq<Hash>))
    requires WellFormed(hdr.headers, g) && AllNamed(hdr.headers, named) && named(h.hash) == h
    requires HeaderStep(rules, hdr, g, mmr, head, blocks, h, skipPow) == Some(x)
    ensures Within(hdr.headers, x.0.headers) && AllNamed(x.0.headers, named)
    ensures x.0.headerHead.work >= hdr.headerHead.work
    ensures Lawful(rules, hdr.headers, g) ==> Lawful(rules, x.0.headers, g)
    ensures HeadIsBest(hdr) ==> HeadIsBest(x.0)
    ensures CheckKnown(h, head, blocks).Ok? ==> Seen(x.0, h)
    ensures Rises(rules, hdr.headers, g) && Above(h, named(g), skipPow) ==> Rises(rules, x.0.headers, g)
  {
    if Lawful(rules, hdr.headers, g) && x.0.headers != hdr.headers { HeaderIsLawful(rules, hdr.headers, g, h); }
    if Rises(rules, hdr.headers, g) && Above(h, named(g), skipPow) && x.0.headers != hdr.headers {
      HeaderRises(rules, hdr.headers, g, h);
    }
  }

  lemma InvWithin<B, S, U>(rules: Rules, led: Ledger<B, S, U>, named: Hash -> Header, g: Hash, w: World<B, S, U>,
                           hdr: HeaderDb, mmr': seq<Hash>)
    requires ChainInv(rules, led, named, g, w) && HeaderInv(hdr, g, mmr')
    requires Within(w.db.hdr.headers, hdr.headers) && AllNamed(hdr.headers, named)
    requires hdr.headerHead.work >= w.db.hdr.headerHead.work && Lawful(rules, hdr.headers, g)
    ensures ChainInv(rules, led, named, g, World(w.db.(hdr := hdr), mmr', w.state))
  {
    BodyWithin(led, w.db, g, w.state, hdr);
    SoundWithin(led, w.db.hdr.headers, hdr.headers, g, w.db.blocks);
  }

  lemma SoundWithin<B, S, U>(led: Ledger<B, S, U>, m: Headers, m': Headers, g: Hash, blocks: Blocks<B>)
    requires WellFormed(m, g) && WellFormed(m', g) && Within(m, m')
    requires BlocksOk(m, blocks) && AllSound(led, m, g, blocks)
    ensures AllSound(led, m', g, blocks)
  {
    forall k | k in blocks && k in m' && k != g ensures SoundAt(led, m', g, blocks, k) {
      assert SoundAt(led, m, g, blocks, k);
      PathWithin(m, m', g, m[k].prevHash);
    }
  }

  // Processing the header of the same block again changes nothing.
  lemma SeenIsSkipped<B, S, U>(rules: Rules, led: Ledger<B, S, U>, named: Hash -> Header, g: Hash, w: World<B, S, U>,
                               h: Header, skipPow: bool)
    requires ChainInv(rules, led, named, g, w) && named(h.hash) == h
    requires CheckKnown(h, w.db.head, w.db.blocks.Keys).Ok? ==> Seen(w.db.hdr, h)
    ensures HeaderStep(rules, w.db.hdr, g, w.mmr, w.db.head, w.db.blocks.Keys, h, skipPow) == Some((w.db.hdr, w.mmr))
  {
    if CheckKnown(h, w.db.head, w.db.blocks.Keys).Ok? {
      UnknownIsNew(rules, led, named, g, w, h);
      assert w.db.hdr.headers[h.hash].prevHash in w.db.hdr.headers;
    }
  }

  lemma BlockKeeps<B, S, U>(rules: Rules, led: Ledger<B, S, U>, named: Hash -> Header, g: Hash, w: World<B, S, U>,
                            b: Block<B>, w': World<B, S, U>, tip: Option<Tip>)
    requires ChainInv(rules, led, named, g, w) && named(b.header.hash) == b.header && w'.mmr == w.mmr
    requires CheckKnown(b.header, w.db.head, w.db.blocks.Keys).Ok? && Seen(w.db.hdr, b.header)
    requires TakeOn(rules, led, w.db, g, w.mmr, b).Some?
    requires Taken(w.db, w.state, b, TakeOn(rules, led, w.db, g, w.mmr, b).value, w'.db, w'.state, tip)
    ensures ChainInv(rules, led, named, g, w')
    ensures w'.db.head.work >= w.db.head.work && w'.db.hdr == w.db.hdr
  {
    UnknownIsNew(rules, led, named, g, w, b.header);
    TakenExactly(rules, led, w.db, g, w.mmr, w.state, b);
    TakenIsSound(rules, led, w.db, g, w.mmr, b);
    TakenKeepsBody(rules, led, w.db, g, w.mmr, w.state, b, w'.db, w'.state, tip);
  }

  // A chunk of headers that carry their own hashes collides with nothing.
  lemma {:induction false} NamedChunk(m: Headers, hs: seq<Header>, named: Hash -> Header)
    requires AllNamed(m, named) && forall i :: 0 <= i < |hs| ==> named(hs[i].hash) == hs[i]
    ensures !ChunkCollides(m, hs) && AllNamed(AddAll(m, hs), named) && Within(m, AddAll(m, hs))
  {
    if hs != [] { NamedChunk(m, hs[..|hs| - 1], named); }
  }

  // No head loses work.
  ghost predicate Gains<B, S, U>(w: World<B, S, U>, w': World<B, S, U>) {
    w'.db.head.work >= w.db.head.work && w'.db.hdr.headerHead.work >= w.db.hdr.headerHead.work
  }

  // No head loses work, and a header head that is best stays best.
  ghost predicate Advances<B, S, U>(w: World<B, S, U>, w': World<B, S, U>) {
    Gains(w, w') && (HeadIsBest(w.db.hdr) ==> HeadIsBest(w'.db.hdr))
  }

  // Stored headers that rise go on rising.
  ghost predicate StaysClimbing<B, S, U>(rules: Rules, g: Hash, w: World<B, S, U>, w': World<B, S, U>) {
    Rises(rules, w.db.hdr.headers, g) ==> Rises(rules, w'.db.hdr.headers, g)
  }

  // ----- the steps of a run -----

  // A header was processed: its batch is committed only if it was accepted.
  ghost predicate HeaderDone<B, S, U>(rules: Rules, g: Hash, w: World<B, S, U>, h: Header, skipPow: bool,
                                      r: Result<()>, w': World<B, S, U>)
  {
    && WellFormed(w.db.hdr.headers, g)
    && match HeaderStep(rules, w.db.hdr, g, w.mmr, w.db.head, w.db.blocks.Keys, h, skipPow) {
       case None => r.Err? && w' == w
       case Some(x) => r.Ok? && w' == World(w.db.(hdr := x.0), x.1, w.state)
    }
  }

  // The block is a duplicate.
  predicate Known<B, U>(db: Db<B, U>, h: Header) {
    db.head.hash == h.hash || (h.work <= db.head.work && h.hash in db.blocks)
  }

  // The parent block is neither the head nor stored.
  predicate Orphaned<B, U>(db: Db<B, U>, h: Header) {
    h.prevHash != db.head.hash && h.prevHash !in db.blocks
  }

  // A block whose header is stored was processed.
  ghost predicate BlockDone<B, S, U>(rules: Rules, led: Ledger<B, S, U>, g: Hash, w: World<B, S, U>, b: Block<B>,
                                     skipPow: bool, r: Result<Option<Tip>>, w': World<B, S, U>)
  {
    if Known(w.db, b.header) || Orphaned(w.db, b.header) || !Fresh(rules, w.db, b, skipPow) then r.Err? && w' == w
    else match TakeOn(rules, led, w.db, g, w.mmr, b)
      case None => r.Err? && w' == w
      case Some(t) => r.Ok? && w'.mmr == w.mmr && Taken(w.db, w.state, b, t, w'.db, w'.state, r.value)
  }

  // Under the invariant a duplicate is a block that is stored ...
  lemma KnownIs<B, S, U>(rules: Rules, led: Ledger<B, S, U>, named: Hash -> Header, g: Hash, w: World<B, S, U>,
                         h: Header)
    requires ChainInv(rules, led, named, g, w) && named(h.hash) == h
    ensures w.db.head.hash in w.db.blocks
    ensures Known(w.db, h) <==> h.hash in w.db.blocks
  {
    HeadStored(led, w.db, g, w.state);
  }

  lemma {:induction false} PathStored<B, S, U>(led: Ledger<B, S, U>, blocks: Blocks<B>, q: seq<Hash>, i: nat, n: nat)
    requires 0 < i < n <= |q| && StateAt(led, blocks, q, n).Some?
    ensures q[i] in blocks
  {
    if i < n - 1 { PathStored(led, blocks, q, i, n - 1); }
  }

  // The head and its parent are stored.
  lemma HeadStored<B, S, U>(led: Ledger<B, S, U>, db: Db<B, U>, g: Hash, state: S)
    requires BodyInv(led, db, g, state) && g in db.blocks
    ensures db.head.hash in db.blocks && (db.head.hash != g ==> db.head.prevHash in db.blocks)
  {
    var m, k := db.hdr.headers, db.head.hash;
    var q := Path(m, g, k);
    PathShape(m, g, k);
    if k != g {
      var i := |q| - 1;
      PathStored(led, db.blocks, q, i, |q|);
      AlongPath(m, g, k, q, i);
      if i > 1 { PathStored(led, db.blocks, q, i - 1, |q|); }
    }
  }

  // ... an orphan one whose parent is not ...
  lemma OrphanedIs<B, S, U>(rules: Rules, led: Ledger<B, S, U>, named: Hash -> Header, g: Hash, w: World<B, S, U>,
                            h: Header)
    requires ChainInv(rules, led, named, g, w) && named(h.hash) == h
    ensures Orphaned(w.db, h) <==> h.prevHash !in w.db.blocks
  {
    KnownIs(rules, led, named, g, w, h);
  }

  // ... and the check for known headers lets all others pass, but for what genesis claims to follow.
  lemma CheckKnownIs<B, S, U>(rules: Rules, led: Ledger<B, S, U>, named: Hash -> Header, g: Hash, w: World<B, S, U>,
                              h: Header)
    requires ChainInv(rules, led, named, g, w) && named(h.hash) == h && h.hash != named(g).prevHash
    ensures CheckKnown(h, w.db.head, w.db.blocks.Keys).Err? <==> h.hash in w.db.blocks
  {
    HeadStored(led, w.db, g, w.state);
    if h.hash in w.db.blocks { assert w.db.hdr.headers[h.hash] == h; }
  }

  // A header and then its block were processed.  The header stays even if the block is refused.
  ghost predicate SingleDone<B, S, U>(rules: Rules, led: Ledger<B, S, U>, g: Hash, w: World<B, S, U>, b: Block<B>,
                                      skipPow: bool, r: Result<Option<Tip>>, w': World<B, S, U>)
  {
    && WellFormed(w.db.hdr.headers, g)
    && match HeaderStep(rules, w.db.hdr, g, w.mmr, w.db.head, w.db.blocks.Keys, b.header, skipPow) {
       case None => r.Err? && w' == w
       case Some(x) => BlockDone(rules, led, g, World(w.db.(hdr := x.0), x.1, w.state), b, skipPow, r, w')
    }
  }

  // In terms of what is stored: the block is taken if it is new, its parent is stored, its header
  // and proof of work pass, and it can follow on the path of its parent.
  ghost predicate Takes<B, S, U>(rules: Rules, led: Ledger<B, S, U>, g: Hash, w: World<B, S, U>, b: Block<B>,
                                 skipPow: bool)
  {
    && WellFormed(w.db.hdr.headers, g)
    && b.header.hash !in w.db.blocks && b.header.prevHash in w.db.blocks && (skipPow || rules.pow(b.header))
    && var step := HeaderStep(rules, w.db.hdr, g, w.mmr, w.db.head, w.db.blocks.Keys, b.header, skipPow);
    && step.Some? && WellFormed(step.value.0.headers, g) && w.db.head.hash in step.value.0.headers
    && Admissible(rules, led, w.db.(hdr := step.value.0), g, step.value.1, b)
  }

  // A block that is taken is stored, and no other; head, state and sums move only if it has more
  // work than the head.
  ghost predicate SingleMeans<B, S, U>(rules: Rules, led: Ledger<B, S, U>, named: Hash -> Header, g: Hash,
      w: World<B, S, U>, b: Block<B>, skipPow: bool, r: Result<Option<Tip>>, w': World<B, S, U>)
  {
    var h := b.header;
    && (h.hash != named(g).prevHash ==> (r.Ok? <==> Takes(rules, led, g, w, b, skipPow)))
    && w'.db.blocks == (if r.Ok? then w.db.blocks[h.hash := b] else w.db.blocks)
    && if r.Ok? && h.work > w.db.head.work then w'.db.head == TipOf(h) && r.value == Some(TipOf(h))
       else w'.db.head == w.db.head && w'.state == w.state && w'.db.sums == w.db.sums && (r.Ok? ==> r.value == None)
  }

  lemma SingleIsExact<B, S, U>(rules: Rules, led: Ledger<B, S, U>, named: Hash -> Header, g: Hash, w: World<B, S, U>,
                               b: Block<B>, skipPow: bool, r: Result<Option<Tip>>, w': World<B, S, U>)
    requires ChainInv(rules, led, named, g, w) && named(b.header.hash) == b.header
    requires SingleDone(rules, led, g, w, b, skipPow, r, w')
    ensures SingleMeans(rules, led, named, g, w, b, skipPow, r, w')
  {
    var h := b.header;
    KnownIs(rules, led, named, g, w, h);
    OrphanedIs(rules, led, named, g, w, h);
    if h.hash != named(g).prevHash { CheckKnownIs(rules, led, named, g, w, h); }
    var step := HeaderStep(rules, w.db.hdr, g, w.mmr, w.db.head, w.db.blocks.Keys, h, skipPow);
    if step.Some? { AdmitsAfterHeader(rules, led, named, g, w, b, skipPow, step.value); }
  }

  // With the header in place, what the block needs is what can be said of the database before.
  lemma AdmitsAfterHeader<B, S, U>(rules: Rules, led: Ledger<B, S, U>, named: Hash -> Header, g: Hash,
                                   w: World<B, S, U>, b: Block<B>, skipPow: bool, x: (HeaderDb, seq<Hash>))
    requires ChainInv(rules, led, named, g, w) && named(b.header.hash) == b.header
    requires HeaderStep(rules, w.db.hdr, g, w.mmr, w.db.head, w.db.blocks.Keys, b.header, skipPow) == Some(x)
    ensures WellFormed(x.0.headers, g) && w.db.head.hash in x.0.headers
    ensures TakeOn(rules, led, w.db.(hdr := x.0), g, x.1, b).Some? <==>
            Admissible(rules, led, w.db.(hdr := x.0), g, x.1, b)
  {
    HeaderStepGrows(rules, w.db.hdr, g, w.mmr, w.db.head, w.db.blocks.Keys, b.header, skipPow, named, x);
    StepWellFormed(rules, w.db.hdr, g, w.mmr, w.db.head, w.db.blocks.Keys, b.header, skipPow, named, x);
    BodyWithin(led, w.db, g, w.state, x.0);
    TakenExactly(rules, led, w.db.(hdr := x.0), g, x.1, w.state, b);
  }

  lemma StepWellFormed(rules: Rules, hdr: HeaderDb, g: Hash, mmr: seq<Hash>, head: Tip, blocks: set<Hash>,
                       h: Header, skipPow: bool, named: Hash -> Header, x: (HeaderDb, seq<Hash>))
    requires WellFormed(hdr.headers, g) && AllNamed(hdr.headers, named) && named(h.hash) == h
    requires HeaderStep(rules, hdr, g, mmr, head, blocks, h, skipPow) == Some(x)
    ensures WellFormed(x.0.headers, g)
  {
    if x.0.headers != hdr.headers { Grows(hdr.headers, g, h); }
  }

  // The block is to be put aside: its header is accepted, but its parent block is missing.
  ghost predicate SetAside<B, S, U>(rules: Rules, g: Hash, w: World<B, S, U>, h: Header, skipPow: bool) {
    && WellFormed(w.db.hdr.headers, g)
    && HeaderStep(rules, w.db.hdr, g, w.mmr, w.db.head, w.db.blocks.Keys, h, skipPow).Some?
    && !Known(w.db, h) && Orphaned(w.db, h)
  }

  // A chunk of headers was processed.
  ghost predicate ChunkDone<B, S, U>(rules: Rules, g: Hash, w: World<B, S, U>, hs: seq<Header>, skipPow: bool,
                                     r: Result<Option<Tip>>, w': World<B, S, U>)
  {
    && (r.Ok? <==> AcceptsChunk(rules, w.db.hdr, g, w.mmr, hs, skipPow))
    && if r.Err? || hs == [] then w' == w
       else
         var last, m := hs[|hs| - 1], AddAll(w.db.hdr.headers, hs);
         && w'.db == w.db.(hdr := HeaderDb(m, HeadAfter(w.db.hdr, hs)))
         && w'.state == w.state && WellFormed(m, g)
         && w'.mmr == (if HasMoreWork(last, w.db.hdr.headerHead) then Path(m, g, last.hash) else w.mmr)
  }

  method CommitHeader<B, S, U>(rules: Rules, ghost led: Ledger<B, S, U>, ghost named: Hash -> Header, ghost g: Hash,
      w: World<B, S, U>, h: Header, skipPow: bool)
    returns (r: Result<()>, w': World<B, S, U>)
    requires ChainInv(rules, led, named, g, w) && named(h.hash) == h
    ensures ChainInv(rules, led, named, g, w') && Advances(w, w')
    ensures HeaderDone(rules, g, w, h, skipPow, r, w')
    ensures r.Ok? && CheckKnown(h, w.db.head, w.db.blocks.Keys).Ok? ==> Seen(w'.db.hdr, h)
    ensures Above(h, named(g), skipPow) ==> StaysClimbing(rules, g, w, w')
    ensures Within(w.db.hdr.headers, w'.db.hdr.headers)
  {
    w' := w;
    var hdr, mmr';
    r, hdr, mmr' := ProcessBlockHeader(rules, w.db.hdr, g, w.mmr, w.db.head, w.db.blocks.Keys, h, skipPow);
    if r.Ok? {
      HeaderStepGrows(rules, w.db.hdr, g, w.mmr, w.db.head, w.db.blocks.Keys, h, skipPow, named, (hdr, mmr'));
      InvWithin(rules, led, named, g, w, hdr, mmr');
      w' := World(w.db.(hdr := hdr), mmr', w.state);
    }
  }

  method CommitChunk<B, S, U>(rules: Rules, ghost led: Ledger<B, S, U>, ghost named: Hash -> Header, ghost g: Hash,
      w: World<B, S, U>, hs: seq<Header>, syncHead: Tip, skipPow: bool)
    returns (r: Result<Option<Tip>>, w': World<B, S, U>)
    requires ChainInv(rules, led, named, g, w) && forall i :: 0 <= i < |hs| ==> named(hs[i].hash) == hs[i]
    ensures ChainInv(rules, led, named, g, w')
    ensures ChunkDone(rules, g, w, hs, skipPow, r, w') && Gains(w, w')
    ensures LinkedChunk(hs) && !skipPow ==> Advances(w, w')
    ensures AllAbove(hs, named(g), skipPow) ==> StaysClimbing(rules, g, w, w')
    ensures Within(w.db.hdr.headers, w'.db.hdr.headers)
  {
    w' := w;
    NamedChunk(w.db.hdr.headers, hs, named);
    var hdr, mmr';
    r, hdr, mmr' := ProcessBlockHeaders(rules, w.db.hdr, g, w.mmr, hs, syncHead, skipPow);
    if r.Ok? && hs != [] {
      if HeadIsBest(w.db.hdr) { ChunkKeepsBest(w.db.hdr, hs); }
      ChunkIsLawful(rules, w.db.hdr.headers, g, hs, skipPow);
      if LinkedChunk(hs) && !skipPow { LinkedChunkIsHeaviest(rules, w.db.hdr.headers, hs); }
      if AllAbove(hs, named(g), skipPow) && Rises(rules, w.db.hdr.headers, g) {
        assert !skipPow by { assert Above(hs[0], named(g), skipPow); }
        ChunkRises(rules, w.db.hdr.headers, g, hs);
      }
      InvWithin(rules, led, named, g, w, hdr, mmr');
      w' := World(w.db.(hdr := hdr), mmr', w.state);
    }
  }

  method CommitBlock<B(!new), S(!new), U>(rules: Rules, led: Ledger<B, S, U>, ghost named: Hash -> Header,
                                          ghost g: Hash, w: World<B, S, U>, b: Block<B>, skipPow: bool)
    returns (r: Result<Option<Tip>>, w': World<B, S, U>)
    requires Reversible(led) && ChainInv(rules, led, named, g, w) && named(b.header.hash) == b.header
    requires CheckKnown(b.header, w.db.head, w.db.blocks.Keys).Ok? ==> Seen(w.db.hdr, b.header)
    requires !Known(w.db, b.header) && !Orphaned(w.db, b.header)
    ensures ChainInv(rules, led, named, g, w') && Advances(w, w')
    ensures BlockDone(rules, led, g, w, b, skipPow, r, w') && w'.db.hdr == w.db.hdr
  {
    SeenIsSkipped(rules, led, named, g, w, b.header, skipPow);
    var done, db', mmr', state' := ProcessBlock(rules, led, w.db, g, w.mmr, w.state, b, skipPow);
    w' := World(db', mmr', state');
    match done {
      case Err(e) => return Err(e), w';
      case Ok(x) =>
        BlockKeeps(rules, led, named, g, w, b, w', x.0);
        return Ok(x.0), w';
    }
  }

  // The block step: a block that is known already or waits for its parent is refused.
  method DecideBlock<B(!new), S(!new), U>(rules: Rules, led: Ledger<B, S, U>, ghost named: Hash -> Header,
                                          ghost g: Hash, w: World<B, S, U>, b: Block<B>, skipPow: bool)
    returns (r: Result<Option<Tip>>, w': World<B, S, U>, aside: bool)
    requires Reversible(led) && ChainInv(rules, led, named, g, w) && named(b.header.hash) == b.header
    requires CheckKnown(b.header, w.db.head, w.db.blocks.Keys).Ok? ==> Seen(w.db.hdr, b.header)
    ensures ChainInv(rules, led, named, g, w') && Advances(w, w')
    ensures BlockDone(rules, led, g, w, b, skipPow, r, w') && w'.db.hdr == w.db.hdr
    ensures aside <==> !Known(w.db, b.header) && Orphaned(w.db, b.header)
    ensures (Known(w.db, b.header) ==> r == Err(Unfit)) && (aside ==> r == Err(IsOrphan))
  {
    if Known(w.db, b.header) { return Err(Unfit), w, false; }
    if Orphaned(w.db, b.header) { return Err(IsOrphan), w, true; }
    r, w' := CommitBlock(rules, led, named, g, w, b, skipPow);
    aside := false;
  }

  method DecideSingle<B(!new), S(!new), U>(rules: Rules, led: Ledger<B, S, U>, ghost named: Hash -> Header,
                                           ghost g: Hash, w: World<B, S, U>, b: Block<B>, skipPow: bool)
    returns (r: Result<Option<Tip>>, w': World<B, S, U>, aside: bool)
    requires Reversible(led) && ChainInv(rules, led, named, g, w) && named(b.header.hash) == b.header
    ensures ChainInv(rules, led, named, g, w') && Advances(w, w')
    ensures SingleDone(rules, led, g, w, b, skipPow, r, w')
    ensures (aside <==> SetAside(rules, g, w, b.header, skipPow)) && (aside ==> r == Err(IsOrphan))
    ensures Above(b.header, named(g), skipPow) ==> StaysClimbing(rules, g, w, w')
  {
    var headed, w1 := CommitHeader(rules, led, named, g, w, b.header, skipPow);
    if headed.Err? { return Err(headed.error), w1, false; }
    r, w', aside := DecideBlock(rules, led, named, g, w1, b, skipPow);
  }

  // A header and then its block, with what is committed of either.
  method CommitSingle<B(!new), S(!new), U>(rules: Rules, led: Ledger<B, S, U>, ghost named: Hash -> Header,
                                           ghost g: Hash, w: World<B, S, U>, b: Block<B>, skipPow: bool)
    returns (r: Result<Option<Tip>>, w': World<B, S, U>, aside: bool)
    requires Reversible(led) && ChainInv(rules, led, named, g, w) && named(b.header.hash) == b.header
    ensures ChainInv(rules, led, named, g, w') && Advances(w, w')
    ensures SingleDone(rules, led, g, w, b, skipPow, r, w')
    ensures (aside <==> SetAside(rules, g, w, b.header, skipPow)) && (aside ==> r == Err(IsOrphan))
    ensures Above(b.header, named(g), skipPow) ==> StaysClimbing(rules, g, w, w')
    ensures Moves(w.db, w'.db, named, g, b.header, r.Ok?, aside)
    ensures SingleMeans(rules, led, named, g, w, b, skipPow, r, w')
  {
    r, w', aside := DecideSingle(rules, led, named, g, w, b, skipPow);
    InvNames(rules, led, named, g, w);
    InvNames(rules, led, named, g, w');
    if aside { AsideIsStored(rules, led, named, g, w, b.header, skipPow); }
    SingleAdds(rules, led, named, g, w, b, skipPow, r, w');
    SingleIsExact(rules, led, named, g, w, b, skipPow, r, w');
  }

  class Chain<B(!new), S(!new), !U(!new)> {
    const rules: Rules
    const led: Ledger<B, S, U>
    ghost const g: Hash
    ghost const named: Hash -> Header
    ghost const sound: World<B, S, U> -> bool                                // the invariant of what is committed
    ghost const trial: (World<B, S, U>, Orphan<B>) -> Tried<World<B, S, U>>  // what trying an orphan leads to
    const orphans: OrphanBlockPool<B>
    var world: World<B, S, U>

    ghost predicate Valid()
      reads this, orphans
    {
      && Reversible(led)
      && sound(world) && IsInvariant(sound, rules, led, named, g)
      && orphans.Valid() && orphans.named == named
      && IsTrial(trial, rules, led, g)
    }

    // No orphan has its parent block at hand, but perhaps some of one height.
    ghost predicate WaitingBut(some: bool, height: nat)
      reads this, orphans
    {
      Waits(world.db, orphans.orphans, named, g, some, height)
    }

    ghost predicate Waiting()
      reads this, orphans
    {
      WaitingBut(false, 0)
    }

    // There is room for n more orphans.
    ghost predicate Roomy(n: nat)
      reads this, orphans
    {
      orphans.count(orphans.orphans) + n <= MAX_ORPHAN_SIZE
    }

    // Timestamps and work rise along every path, and no orphan can change that.
    ghost predicate Climbing()
      reads this, orphans
    {
      Rises(rules, world.db.hdr.headers, g) && OrphansAbove(orphans.orphans, named(g))
    }

    constructor (rules: Rules, led: Ledger<B, S, U>, genesis: Block<B>, ghost named: Hash -> Header)
      requires Reversible(led) && genesis.header.height == 0 && named(genesis.header.hash) == genesis.header
      ensures Valid() && HeadIsBest(world.db.hdr) && fresh(orphans)
      ensures this.rules == rules && this.led == led && g == genesis.header.hash && this.named == named
      ensures world == GenesisWorld(led, genesis) && Waiting()
      ensures genesis.header.prevHash != genesis.header.hash && LocalTarget(rules, g) ==> Climbing()
    {
      this.rules, this.led, this.named, g := rules, led, named, genesis.header.hash;
      sound := w => ChainInv(rules, led, named, genesis.header.hash, w);
      trial := (w, o) => Outcome(rules, led, genesis.header.hash, w, o);
      orphans := new OrphanBlockPool(named);
      world := GenesisWorld(led, genesis);
      GenesisInv(rules, led, named, genesis);
    }

    // A header on its own.
    method ProcessBlockHeader(h: Header, skipPow: bool) returns (r: Result<()>)
      requires Valid() && named(h.hash) == h
      modifies this`world
      ensures Valid() && Advances(old(world), world)
      ensures HeaderDone(rules, g, old(world), h, skipPow, r, world)
      ensures old(Waiting()) ==> Waiting()
      ensures old(Climbing()) && Above(h, named(g), skipPow) ==> Climbing()
    {
      assert ChainInv(rules, led, named, g, world);
      r, world := CommitHeader(rules, led, named, g, world, h, skipPow);
    }

    // A chunk of headers during sync.
    method SyncBlockHeaders(hs: seq<Header>, syncHead: Tip, skipPow: bool) returns (r: Result<Option<Tip>>)
      requires Valid() && forall i :: 0 <= i < |hs| ==> named(hs[i].hash) == hs[i]
      modifies this`world
      ensures Valid() && Gains(old(world), world)
      ensures ChunkDone(rules, g, old(world), hs, skipPow, r, world)
      ensures LinkedChunk(hs) && !skipPow ==> Advances(old(world), world)
      ensures old(Waiting()) ==> Waiting()
      ensures old(Climbing()) && AllAbove(hs, named(g), skipPow) ==> Climbing()
    {
      assert ChainInv(rules, led, named, g, world);
      r, world := CommitChunk(rules, led, named, g, world, hs, syncHead, skipPow);
    }

    // A single block, and whether it is to be put aside.
    method TakeSingle(b: Block<B>, skipPow: bool) returns (r: Result<Option<Tip>>, aside: bool)
      requires Valid() && named(b.header.hash) == b.header
      modifies this`world
      ensures Valid() && Advances(old(world), world)
      ensures SingleDone(rules, led, g, old(world), b, skipPow, r, world)
      ensures aside <==> SetAside(rules, g, old(world), b.header, skipPow)
      ensures Moves(old(world).db, world.db, named, g, b.header, r.Ok?, aside)
      ensures SingleMeans(rules, led, named, g, old(world), b, skipPow, r, world)
      ensures Above(b.header, named(g), skipPow) ==> StaysClimbing(rules, g, old(world), world)
    {
      assert ChainInv(rules, led, named, g, world);
      r, world, aside := CommitSingle(rules, led, named, g, world, b, skipPow);
    }

    // A single block, after its header.  A block whose parent is missing goes to the orphan pool.
    method ProcessBlockSingle(b: Block<B>, skipPow: bool, now: nat) returns (r: Result<Option<Tip>>)
      requires Valid() && named(b.header.hash) == b.header
      modifies this`world, orphans
      ensures Valid() && Advances(old(world), world)
      ensures SingleDone(rules, led, g, old(world), b, skipPow, r, world)
      ensures Filed(rules, g, old(world), b, skipPow, now, old(orphans.orphans), old(orphans.heightIdx),
                    orphans.orphans, orphans.heightIdx)
      ensures Moves(old(world).db, world.db, named, g, b.header, r.Ok?,
                SetAside(rules, g, old(world), b.header, skipPow))
      ensures SingleMeans(rules, led, named, g, old(world), b, skipPow, r, world)
      ensures Above(b.header, named(g), skipPow) ==> StaysClimbing(rules, g, old(world), world)
    {
      var aside;
      r, aside := TakeSingle(b, skipPow);
      if aside { orphans.Add(Orphan(b, skipPow, now), now); }
    }

    // The same, with what it means for the orphans.
    method TrySingle(b: Block<B>, skipPow: bool, now: nat, ghost height: nat, ghost next: nat, ghost some: bool,
                     ghost left: nat)
      returns (r: Result<Option<Tip>>)
      requires Valid() && named(b.header.hash) == b.header && height == b.header.height && next == height + 1
      modifies this`world, orphans
      ensures Valid() && Advances(old(world), world)
      ensures SingleDone(rules, led, g, old(world), b, skipPow, r, world)
      ensures NewOnlyAt(old(orphans.heightIdx), orphans.heightIdx, height)
      ensures old(WaitingBut(some, next)) ==> WaitingBut(some || r.Ok?, next)
      ensures old(Climbing()) && Above(b.header, named(g), skipPow) ==> Climbing()
      ensures Filed(rules, g, old(world), b, skipPow, now, old(orphans.orphans), old(orphans.heightIdx),
                    orphans.orphans, orphans.heightIdx)
      ensures r.Ok? ==> orphans.orphans == old(orphans.orphans)
      ensures old(Roomy(left + 1)) ==> Roomy(left) && KeepsOutside(old(orphans.orphans), orphans.orphans, 0, 0)
    {
      ghost var w, live, idx := world, orphans.orphans, orphans.heightIdx;
      assert AllProper(live, named);
      r := ProcessBlockSingle(b, skipPow, now);
      assert AllProper(orphans.orphans, named);
      FiledFits(rules, named, g, w, b, skipPow, now, live, idx, orphans.orphans, orphans.heightIdx);
      ghost var live', idx', some' := orphans.orphans, orphans.heightIdx, some || r.Ok?;
      FiledOutcome(rules, named, g, w, Orphan(b, skipPow, now), r.Ok?, world.db, live, idx, live', idx', height, next,
        some, some');
    }

    // An orphan once more.
    method TryOrphan(o: Orphan<B>, now: nat, height: nat, ghost some: bool, ghost left: nat) returns (ok: bool)
      requires Valid() && named(o.block.header.hash) == o.block.header && HeightOf(o) == height
      modifies this`world, orphans
      ensures Valid() && Advances(old(world), world)
      ensures Tried(world, ok) == trial(old(world), o)
      ensures NewOnlyAt(old(orphans.heightIdx), orphans.heightIdx, height)
      ensures old(WaitingBut(some, height + 1)) ==> WaitingBut(some || ok, height + 1)
      ensures old(Climbing()) && Above(o.block.header, named(g), o.skipPow) ==> Climbing()
      ensures old(Roomy(left + 1)) ==> Roomy(left) && KeepsOutside(old(orphans.orphans), orphans.orphans, 0, 0)
    {
      ghost var before := world;
      var r := TrySingle(o.block, o.skipPow, now, height, height + 1, some, left);
      SingleIs(trial, rules, led, g, before, o, r, world);
      ok := r.Ok?;
    }

    // The first i orphans found at a height have been tried.
    ghost predicate TriedSoFar(start: World<B, S, U>, live: Live<B>, idx: Index, found: seq<Orphan<B>>, i: nat,
                               accepted: bool, height: nat, waiting: bool, climbing: bool, room: bool)
      requires i <= |found|
      reads this, orphans
    {
      && TryAll(trial, start, found, i) == Tried(world, accepted) && Advances(start, world)
      && NewOnlyAt(idx, orphans.heightIdx, height)
      && (waiting ==> WaitingBut(accepted, height + 1))
      && (climbing ==> Climbing())
      && (room ==> Roomy(|found| - i) && KeepsOutside(live, orphans.orphans, 0, 0))
    }

    // One more of the orphans found.
    method TryNth(found: seq<Orphan<B>>, i: nat, now: nat, accepted: bool, height: nat, ghost start: World<B, S, U>,
                  ghost live: Live<B>, ghost idx: Index, ghost waiting: bool, ghost climbing: bool, ghost room: bool)
      returns (accepted': bool, height': nat)
      requires Valid() && OfHeight(found, height, named) && i < |found| && (climbing ==> FoundAbove(found, named(g)))
      requires TriedSoFar(start, live, idx, found, i, accepted, height, waiting, climbing, room)
      modifies this`world, orphans
      ensures Valid() && height' == height
      ensures TriedSoFar(start, live, idx, found, i + 1, accepted', height, waiting, climbing, room)
    {
      ghost var before, live1 := world, orphans.orphans;
      var ok := TryOrphan(found[i], now, height, accepted, |found| - i - 1);
      if room { KeepsAlso(live, live1, orphans.orphans, 0, 0, 0); }
      TryNext(trial, start, found, i, before, accepted, world, ok);
      accepted', height' := accepted, height;
      if ok { accepted', height' := true, found[i].block.header.height; }
    }

    // Tries the orphans of one height again; those that are orphans still go back to the pool.
    method ProcessOrphans(found: seq<Orphan<B>>, height: nat, now: nat) returns (accepted: bool, heightAccepted: nat)
      requires Valid() && OfHeight(found, height, named)
      modifies this`world, orphans
      ensures Valid() && Advances(old(world), world) && heightAccepted == height
      ensures Tried(world, accepted) == TryAll(trial, old(world), found, |found|)
      ensures NewOnlyAt(old(orphans.heightIdx), orphans.heightIdx, height)
      ensures old(WaitingBut(false, height + 1)) ==> WaitingBut(accepted, height + 1)
      ensures old(Climbing()) && FoundAbove(found, named(g)) ==> Climbing()
      ensures old(Roomy(|found|)) ==> KeepsOutside(old(orphans.orphans), orphans.orphans, 0, 0)
    {
      accepted, heightAccepted := false, height;
      ghost var start, live, idx, room := world, orphans.orphans, orphans.heightIdx, Roomy(|found|);
      ghost var waiting, climbing := WaitingBut(false, height + 1), Climbing() && FoundAbove(found, named(g));
      for i := 0 to |found|
        invariant Valid() && heightAccepted == height
        invariant TriedSoFar(start, live, idx, found, i, accepted, height, waiting, climbing, room)
      {
        accepted, heightAccepted :=
          TryNth(found, i, now, accepted, heightAccepted, start, live, idx, waiting, climbing, room);
      }
    }

    // Takes the orphans of a height out of the pool.
    method TakeOut(height: nat) returns (found: Option<seq<Orphan<B>>>)
      requires Valid()
      modifies orphans
      ensures Valid()
      ensures found == if height in old(orphans.heightIdx)
        then Some(TakeAll(old(orphans.orphans), old(orphans.heightIdx)[height])) else None
      ensures orphans.heightIdx == old(orphans.heightIdx) - {height}
      ensures found.Some? ==> OfHeight(found.value, height, named)
      ensures old(WaitingBut(true, height)) ==> WaitingBut(false, height + 1)
      ensures old(Climbing()) ==> Climbing() && (found.Some? ==> FoundAbove(found.value, named(g)))
      ensures KeepsOutside(old(orphans.orphans), orphans.orphans, height, height + 1)
      ensures found.Some? ==> Roomy(|found.value|)
    {
      ghost var idx, live := orphans.heightIdx, orphans.orphans;
      if WaitingBut(true, height) { TakenOutWaits(world.db, live, idx, named, g, height); }
      if height in idx { HandedOutAt(live, idx, named, g, height); }
      found := orphans.RemoveByHeight(height);
    }

    // Takes the orphans of a height out of the pool and tries them.  Whatever is put back is of
    // that same height.
    method TryHeight(height: nat, now: nat) returns (accepted: bool, next: nat, ghost ahead: nat)
      requires Valid()
      modifies this`world, orphans
      ensures Valid() && Advances(old(world), world)
      ensures Tried(world, accepted) == Retried(trial, old(world), old(orphans.orphans), old(orphans.heightIdx), height)
      ensures ahead == Ahead(orphans.heightIdx, next)
      ensures next == height + 1 && (accepted ==> ahead < Ahead(old(orphans.heightIdx), height))
      ensures old(WaitingBut(true, height)) ==> WaitingBut(accepted, height + 1)
      ensures old(Climbing()) ==> Climbing()
      ensures KeepsOutside(old(orphans.orphans), orphans.orphans, height, height + 1)
    {
      ghost var live, idx := orphans.orphans, orphans.heightIdx;
      var found := TakeOut(height);
      if found.None? { return false, height + 1, Ahead(orphans.heightIdx, height + 1); }
      ghost var left := orphans.orphans;
      var heightAccepted;
      accepted, heightAccepted := ProcessOrphans(found.value, height, now);
      next := heightAccepted + 1;
      ahead := Ahead(orphans.heightIdx, next);
      FewerKeys(idx, orphans.heightIdx, height, next);
      KeptOn(live, left, orphans.orphans, height, next);
    }

    // After a block was accepted: tries the orphans of the next height, and goes on from height to
    // height as long as one is accepted.  In the end no orphan has its parent at hand, and those of
    // heights that were not tried are all there still: trying never evicts.
    method CheckOrphans(start: nat, now: nat) returns (ghost end: nat)
      requires Valid()
      modifies this`world, orphans
      ensures Valid() && Advances(old(world), world)
      ensures var first := Retried(trial, old(world), old(orphans.orphans), old(orphans.heightIdx), start);
        if first.any then Advances(first.world, world) else world == first.world
      ensures old(WaitingBut(true, start)) ==> Waiting()
      ensures old(Climbing()) ==> Climbing()
      ensures start < end && KeepsOutside(old(orphans.orphans), orphans.orphans, start, end)
    {
      ghost var live := orphans.orphans;
      ghost var waiting := WaitingBut(true, start);
      var accepted, height;
      ghost var ahead;
      accepted, height, ahead := TryHeight(start, now);
      ghost var w, any := world, accepted;
      while accepted
        invariant Valid() && Advances(old(world), world) && Advances(w, world)
        invariant !any ==> !accepted && world == w
        invariant ahead == Ahead(orphans.heightIdx, height)
        invariant waiting ==> WaitingBut(accepted, height)
        invariant old(Climbing()) ==> Climbing()
        invariant start < height && KeepsOutside(live, orphans.orphans, start, height)
        decreases accepted, ahead
      {
        ghost var live1, at := orphans.orphans, height;
        accepted, height, ahead := TryHeight(height, now);
        KeepsAlso(live, live1, orphans.orphans, start, at, height);
      }
      end := height;
    }

    // A block, and then the orphans that were waiting for it.
    method ProcessBlock(b: Block<B>, skipPow: bool, now: nat) returns (r: Result<Option<Tip>>)
      requires Valid() && named(b.header.hash) == b.header
      modifies this`world, orphans
      ensures Valid() && Advances(old(world), world)
      ensures r.Err? ==> SingleDone(rules, led, g, old(world), b, skipPow, r, world)
      ensures exists w :: SingleDone(rules, led, g, old(world), b, skipPow, r, w) && Advances(w, world)
      ensures BlockFollows(old(world), b, skipPow, world)
      ensures old(Waiting()) ==> Waiting()
      ensures old(Climbing()) && Above(b.header, named(g), skipPow) ==> Climbing()
      ensures r.Ok? ==> KeepsBelow(old(orphans.orphans), orphans.orphans, b.header.height + 1)
      ensures r.Err? ==> Filed(rules, g, old(world), b, skipPow, now, old(orphans.orphans), old(orphans.heightIdx),
                               orphans.orphans, orphans.heightIdx)
    {
      r := TrySingle(b, skipPow, now, b.header.height, b.header.height + 1, false, 0);
      ghost var w := world;
      if r.Ok? {
        ghost var end := CheckOrphans(b.header.height + 1, now);
      }
      assert SingleDone(rules, led, g, old(world), b, skipPow, r, w) && Advances(w, world);
    }

    // A block came in: its own outcome is exact, and only if it was accepted orphans may follow it.
    ghost predicate BlockFollows(w: World<B, S, U>, b: Block<B>, skipPow: bool, w': World<B, S, U>) {
      exists r: Result<Option<Tip>>, x: World<B, S, U> ::
        SingleDone(rules, led, g, w, b, skipPow, r, x) && Advances(x, w') && (r.Err? ==> w' == x)
    }

    // What an operation does to what is committed.
    ghost predicate OpDone(op: Op<B>, w: World<B, S, U>, w': World<B, S, U>) {
      match op
      case HeaderOp(h, skipPow) => exists r: Result<()> :: HeaderDone(rules, g, w, h, skipPow, r, w')
      case ChunkOp(hs, _, skipPow) => exists r: Result<Option<Tip>> :: ChunkDone(rules, g, w, hs, skipPow, r, w')
      case BlockOp(b, skipPow, _) => BlockFollows(w, b, skipPow, w')
    }

    // The operations were done in turn, with these states before and after each.
    ghost predicate Traces(ops: seq<Op<B>>, trace: seq<World<B, S, U>>, end: World<B, S, U>) {
      && |trace| == |ops| + 1 && trace[|ops|] == end
      && forall i :: 0 <= i < |ops| ==> OpDone(ops[i], trace[i], trace[i + 1])
    }

    lemma TracesNext(ops: seq<Op<B>>, i: nat, n: nat, trace: seq<World<B, S, U>>, end: World<B, S, U>,
                     end': World<B, S, U>) returns (trace': seq<World<B, S, U>>)
      requires i + 1 == n <= |ops| && Traces(ops[..i], trace, end) && OpDone(ops[i], end, end')
      ensures Traces(ops[..n], trace', end') && trace'[0] == trace[0]
    {
      trace' := trace + [end'];
      forall k | 0 <= k < n ensures OpDone(ops[..n][k], trace'[k], trace'[k + 1]) {
        if k < i { assert OpDone(ops[..i][k], trace[k], trace[k + 1]); }
      }
    }

    method Step(op: Op<B>)
      requires Valid() && Genuine(op, named)
      modifies this`world, orphans
      ensures Valid() && Gains(old(world), world) && OpDone(op, old(world), world)
      ensures Steady(op) ==> Advances(old(world), world)
      ensures old(Waiting()) ==> Waiting()
      ensures old(Climbing()) && Strict(op, named(g)) ==> Climbing()
    {
      match op {
        case HeaderOp(h, skipPow) =>
          var r := ProcessBlockHeader(h, skipPow);
          assert HeaderDone(rules, g, old(world), h, skipPow, r, world);
        case ChunkOp(hs, syncHead, skipPow) =>
          var r := SyncBlockHeaders(hs, syncHead, skipPow);
          assert ChunkDone(rules, g, old(world), hs, skipPow, r, world);
        case BlockOp(b, skipPow, now) => var _ := ProcessBlock(b, skipPow, now);
      }
    }

    // The next of the operations.
    method StepOf(ops: seq<Op<B>>, i: nat, ghost trace: seq<World<B, S, U>>)
      returns (ghost trace': seq<World<B, S, U>>)
      requires i < |ops| && Valid() && Genuine(ops[i], named) && Traces(ops[..i], trace, world)
      modifies this`world, orphans
      ensures Valid() && Gains(old(world), world)
      ensures Traces(ops[..i + 1], trace', world) && trace'[0] == trace[0]
      ensures Steady(ops[i]) ==> Advances(old(world), world)
      ensures old(Waiting()) ==> Waiting()
      ensures old(Climbing()) && Strict(ops[i], named(g)) ==> Climbing()
    {
      ghost var before := world;
      Step(ops[i]);
      trace' := TracesNext(ops, i, i + 1, trace, before, world);
    }

    // Any sequence of operations, accepted or refused: the header MMR is the path to the header
    // head, the state is the fold of the blocks on the path to the body head, and no head loses
    // work.  The header head stays the best header if no chunk has a gap.  No orphan is left
    // waiting for a block that is stored.  Timestamps and work rise along every path if proof of
    // work is checked.
    method Run(ops: seq<Op<B>>) returns (ghost trace: seq<World<B, S, U>>)
      requires Valid() && forall i :: 0 <= i < |ops| ==> Genuine(ops[i], named)
      modifies this`world, orphans
      ensures Valid() && Gains(old(world), world)
      ensures Traces(ops, trace, world) && trace[0] == old(world)
      ensures (forall i :: 0 <= i < |ops| ==> Steady(ops[i])) ==> Advances(old(world), world)
      ensures old(Waiting()) ==> Waiting()
      ensures old(Climbing()) && (forall i :: 0 <= i < |ops| ==> Strict(ops[i], named(g))) ==> Climbing()
    {
      trace := [world];
      for i := 0 to |ops|
        invariant Valid() && Gains(old(world), world)
        invariant Traces(ops[..i], trace, world) && trace[0] == old(world)
        invariant (forall j :: 0 <= j < i ==> Steady(ops[j])) ==> Advances(old(world), world)
        invariant old(Waiting()) ==> Waiting()
        invariant old(Climbing()) && (forall j :: 0 <= j < i ==> Strict(ops[j], named(g))) ==> Climbing()
      {
        trace := StepOf(ops, i, trace);
      }
      assert ops[..|ops|] == ops;
    }
  }

  datatype Op<B> =
    | HeaderOp(header: Header, skipPow: bool)
    | ChunkOp(headers: seq<Header>, syncHead: Tip, skipPow: bool)
    | BlockOp(block: Block<B>, skipPow: bool, now: nat)

  // The headers carry their own hashes.
  ghost predicate Genuine<B>(op: Op<B>, named: Hash -> Header) {
    match op
    case HeaderOp(h, _) => named(h.hash) == h
    case ChunkOp(hs, _, _) => forall i :: 0 <= i < |hs| ==> named(hs[i].hash) == hs[i]
    case BlockOp(b, _, _) => named(b.header.hash) == b.header
  }

  // A chunk without gaps, with proof of work checked.
  ghost predicate Steady<B>(op: Op<B>) {
    op.ChunkOp? ==> LinkedChunk(op.headers) && !op.skipPow
  }

  // Every header is checked with proof of work, and none is what genesis claims to follow.
  ghost predicate Strict<B>(op: Op<B>, genesis: Header) {
    match op
    case HeaderOp(h, skipPow) => Above(h, genesis, skipPow)
    case ChunkOp(hs, _, skipPow) => AllAbove(hs, genesis, skipPow)
    case BlockOp(b, skipPow, _) => Above(b.header, genesis, skipPow)
  }

  // ----- orphans -----

  // The header of every orphan is stored, and its parent block is missing, but perhaps for some of
  // one height.  A block that genesis claims to follow is not counted: its header passes for known
  // without being stored.
  ghost predicate Waits<B, U>(db: Db<B, U>, live: Live<B>, named: Hash -> Header, g: Hash, some: bool, height: nat) {
    forall k :: k in live && k != named(g).prevHash ==>
      && k in db.hdr.headers && k != g
      && (!(some && HeightOf(live[k]) == height) ==> Orphaned(db, live[k].block.header))
  }

  ghost predicate OrphansAbove<B>(live: Live<B>, genesis: Header) {
    forall k :: k in live ==> Above(live[k].block.header, genesis, live[k].skipPow)
  }

  ghost predicate FoundAbove<B>(found: seq<Orphan<B>>, genesis: Header) {
    forall i :: 0 <= i < |found| ==> Above(found[i].block.header, genesis, found[i].skipPow)
  }

  // What one or more tries lead to, and whether any block was accepted.
  datatype Tried<!W> = Tried(world: W, any: bool)

  // What a header and then its block lead to, and whether the block is accepted.
  ghost function After<B, S, U>(rules: Rules, led: Ledger<B, S, U>, g: Hash, w: World<B, S, U>, b: Block<B>,
                                skipPow: bool)
    : Tried<World<B, S, U>>
  {
    if !WellFormed(w.db.hdr.headers, g) then Tried(w, false)
    else match HeaderStep(rules, w.db.hdr, g, w.mmr, w.db.head, w.db.blocks.Keys, b.header, skipPow)
      case None => Tried(w, false)
      case Some(x) =>
        var w1 := World(w.db.(hdr := x.0), x.1, w.state);
        if Known(w1.db, b.header) || Orphaned(w1.db, b.header) || !Fresh(rules, w1.db, b, skipPow) then Tried(w1, false)
        else match TakeOn(rules, led, w1.db, g, w1.mmr, b)
          case None => Tried(w1, false)
          case Some(t) => Tried(WithBlock(w1, b, t), true)
  }

  // The block is stored; head, state and sums move only for more work.
  ghost function WithBlock<B, S, U>(w: World<B, S, U>, b: Block<B>, t: (Header, S, map<Hash, U>)): World<B, S, U> {
    var blocks, tail := w.db.blocks[b.header.hash := b], if w.db.tail.None? then Some(TipOf(b.header)) else w.db.tail;
    if HasMoreWork(b.header, w.db.head)
    then World(Db(w.db.hdr, blocks, t.2, TipOf(b.header), tail), w.mmr, t.1)
    else World(Db(w.db.hdr, blocks, w.db.sums, w.db.head, tail), w.mmr, w.state)
  }

  ghost function Outcome<B, S, U>(rules: Rules, led: Ledger<B, S, U>, g: Hash, w: World<B, S, U>, o: Orphan<B>)
    : Tried<World<B, S, U>>
  {
    After(rules, led, g, w, o.block, o.skipPow)
  }

  // f gives what trying an orphan leads to.
  ghost predicate IsTrial<B(!new), S(!new), U(!new)>(f: (World<B, S, U>, Orphan<B>) -> Tried<World<B, S, U>>,
                                                     rules: Rules, led: Ledger<B, S, U>, g: Hash)
  {
    forall w, o {:trigger Outcome(rules, led, g, w, o)} :: f(w, o) == Outcome(rules, led, g, w, o)
  }

  lemma SingleIs<B(!new), S(!new), U(!new)>(f: (World<B, S, U>, Orphan<B>) -> Tried<World<B, S, U>>, rules: Rules,
      led: Ledger<B, S, U>, g: Hash, w: World<B, S, U>, o: Orphan<B>, r: Result<Option<Tip>>, w': World<B, S, U>)
    requires IsTrial(f, rules, led, g) && SingleDone(rules, led, g, w, o.block, o.skipPow, r, w')
    ensures f(w, o) == Tried(w', r.Ok?)
  {
    assert Outcome(rules, led, g, w, o) == Tried(w', r.Ok?);
  }

  // The first n orphans one after the other, and whether any was accepted.
  ghost function TryAll<W, O>(f: (W, O) -> Tried<W>, w: W, found: seq<O>, n: nat): Tried<W>
    requires n <= |found|
  {
    if n == 0 then Tried(w, false)
    else
      var before := TryAll(f, w, found, n - 1);
      var after := f(before.world, found[n - 1]);
      Tried(after.world, before.any || after.any)
  }

  lemma TryNext<W, O>(f: (W, O) -> Tried<W>, w: W, found: seq<O>, n: nat, w1: W, any: bool, w2: W, ok: bool)
    requires n < |found| && TryAll(f, w, found, n) == Tried(w1, any) && f(w1, found[n]) == Tried(w2, ok)
    ensures TryAll(f, w, found, n + 1) == Tried(w2, any || ok)
  {
  }

  // All live orphans of a height tried.
  ghost function Retried<B, W>(f: (W, Orphan<B>) -> Tried<W>, w: W, live: Live<B>, idx: Index, height: nat): Tried<W> {
    if height !in idx then Tried(w, false)
    else
      var found := TakeAll(live, idx[height]);
      TryAll(f, w, found, |found|)
  }

  // The orphans outside the heights from a up to b are there still.
  ghost predicate KeepsOutside<B>(live: Live<B>, live': Live<B>, a: nat, b: nat) {
    forall k :: k in live && !(a <= HeightOf(live[k]) < b) ==> k in live' && HeightOf(live'[k]) == HeightOf(live[k])
  }

  ghost predicate KeepsBelow<B>(live: Live<B>, live': Live<B>, height: nat) {
    forall k :: k in live && HeightOf(live[k]) < height ==> k in live' && HeightOf(live'[k]) == HeightOf(live[k])
  }

  // A pool with room loses nothing.
  lemma FiledFits<B, S, U>(rules: Rules, named: Hash -> Header, g: Hash, w: World<B, S, U>, b: Block<B>, skipPow: bool,
                           now: nat, live: Live<B>, idx: Index, live': Live<B>, idx': Index)
    requires Filed(rules, g, w, b, skipPow, now, live, idx, live', idx')
    requires Indexed(live, idx, named) && named(b.header.hash) == b.header
    ensures Count(live) < MAX_ORPHAN_SIZE ==> Count(live') <= Count(live) + 1 && KeepsOutside(live, live', 0, 0)
    ensures !SetAside(rules, g, w, b.header, skipPow) ==> live' == live
  {
    if SetAside(rules, g, w, b.header, skipPow) {
      var k, o := b.header.hash, Orphan(b, skipPow, now);
      assert k in live ==> Proper(live[k], k, named);
      assert |live[k := o]| <= |live| + 1;
    }
  }

  lemma KeptOn<B>(live: Live<B>, live1: Live<B>, live2: Live<B>, a: nat, b: nat)
    requires KeepsOutside(live, live1, a, b) && KeepsOutside(live1, live2, 0, 0)
    ensures KeepsOutside(live, live2, a, b)
  {
  }

  lemma KeepsAlso<B>(live: Live<B>, live1: Live<B>, live2: Live<B>, a: nat, b: nat, c: nat)
    requires KeepsOutside(live, live1, a, b) && KeepsOutside(live1, live2, b, c) && a <= b <= c
    ensures KeepsOutside(live, live2, a, c)
  {
  }

  lemma AddedWithin<B>(live: Live<B>, idx: Index, now: nat, live': Live<B>, idx': Index)
    requires Added(live, idx, now, live', idx')
    ensures forall k :: k in live' ==> k in live && live'[k] == live[k]
  {
  }

  // At most the block itself is new in the pool, and only if it was put aside.
  ghost predicate PoolWithin<B>(o: Orphan<B>, aside: bool, live: Live<B>, live': Live<B>) {
    forall k :: k in live' ==> (k in live && live'[k] == live[k]) || (aside && live'[k] == o)
  }

  lemma FiledWithin<B, S, U>(rules: Rules, g: Hash, w: World<B, S, U>, o: Orphan<B>,
                             live: Live<B>, idx: Index, live': Live<B>, idx': Index)
    requires Filed(rules, g, w, o.block, o.skipPow, o.added, live, idx, live', idx')
    ensures PoolWithin(o, SetAside(rules, g, w, o.block.header, o.skipPow), live, live')
  {
    var k := o.block.header.hash;
    if SetAside(rules, g, w, o.block.header, o.skipPow) {
      AddedWithin(live[k := o], Pushed(idx, HeightOf(o), k), o.added, live', idx');
    }
  }

  // The header of a block put aside is stored.
  ghost predicate KeepsHeader<B, S, U>(rules: Rules, g: Hash, w: World<B, S, U>, h: Header, skipPow: bool,
                                       named: Hash -> Header)
    requires SetAside(rules, g, w, h, skipPow)
  {
    var step := HeaderStep(rules, w.db.hdr, g, w.mmr, w.db.head, w.db.blocks.Keys, h, skipPow);
    h.hash != g && (h.hash == named(g).prevHash || h.hash in step.value.0.headers)
  }

  lemma AsideIsStored<B, S, U>(rules: Rules, led: Ledger<B, S, U>, named: Hash -> Header, g: Hash, w: World<B, S, U>,
                               h: Header, skipPow: bool)
    requires ChainInv(rules, led, named, g, w) && named(h.hash) == h && SetAside(rules, g, w, h, skipPow)
    ensures KeepsHeader(rules, g, w, h, skipPow, named)
  {
    if CheckKnown(h, w.db.head, w.db.blocks.Keys).Err? {
      assert h.hash == w.db.head.prevHash == w.db.hdr.headers[w.db.head.hash].prevHash;
    }
  }

  lemma InvNames<B, S, U>(rules: Rules, led: Ledger<B, S, U>, named: Hash -> Header, g: Hash, w: World<B, S, U>)
    requires ChainInv(rules, led, named, g, w)
    ensures WellFormed(w.db.hdr.headers, g) && AllNamed(w.db.hdr.headers, named)
  {
  }

  // A stored header is one above its parent.
  lemma StoredFits(m: Headers, named: Hash -> Header, g: Hash, k: Hash)
    requires WellFormed(m, g) && AllNamed(m, named) && k in m && k != g
    ensures m[k] == named(k) && named(k).height == named(named(k).prevHash).height + 1
  {
    assert m[k] == named(k) && m[k].prevHash in m;
  }

  // What a step does to headers, blocks and head.
  ghost predicate OnlyAdds<B, U>(db: Db<B, U>, db': Db<B, U>, h: Header, ok: bool) {
    && Within(db.hdr.headers, db'.hdr.headers)
    && (db'.blocks.Keys == db.blocks.Keys || (ok && db'.blocks.Keys == db.blocks.Keys + {h.hash}))
    && (db'.head.hash == db.head.hash || (ok && db'.head.hash == h.hash))
  }

  // The same, with what it means for a block that is put aside.
  ghost predicate Moves<B, U>(db: Db<B, U>, db': Db<B, U>, named: Hash -> Header, g: Hash, h: Header, ok: bool,
                              aside: bool) {
    && OnlyAdds(db, db', h, ok) && WellFormed(db'.hdr.headers, g) && AllNamed(db'.hdr.headers, named)
    && (aside ==> Orphaned(db', h) && h.hash != g && (h.hash == named(g).prevHash || h.hash in db'.hdr.headers))
  }

  lemma BlockAdds<B, S, U>(rules: Rules, led: Ledger<B, S, U>, g: Hash, w: World<B, S, U>, b: Block<B>, skipPow: bool,
                           r: Result<Option<Tip>>, w': World<B, S, U>)
    requires BlockDone(rules, led, g, w, b, skipPow, r, w')
    ensures w'.db.hdr == w.db.hdr && OnlyAdds(w.db, w'.db, b.header, r.Ok?)
    ensures Orphaned(w.db, b.header) ==> w' == w
  {
  }

  lemma SingleAdds<B, S, U>(rules: Rules, led: Ledger<B, S, U>, named: Hash -> Header, g: Hash, w: World<B, S, U>,
                            b: Block<B>, skipPow: bool, r: Result<Option<Tip>>, w': World<B, S, U>)
    requires AllNamed(w.db.hdr.headers, named) && named(b.header.hash) == b.header
    requires WellFormed(w'.db.hdr.headers, g) && AllNamed(w'.db.hdr.headers, named)
    requires SingleDone(rules, led, g, w, b, skipPow, r, w')
    requires SetAside(rules, g, w, b.header, skipPow) ==> KeepsHeader(rules, g, w, b.header, skipPow, named)
    ensures Moves(w.db, w'.db, named, g, b.header, r.Ok?, SetAside(rules, g, w, b.header, skipPow))
  {
    var step := HeaderStep(rules, w.db.hdr, g, w.mmr, w.db.head, w.db.blocks.Keys, b.header, skipPow);
    if step.Some? {
      HeaderStepGrows(rules, w.db.hdr, g, w.mmr, w.db.head, w.db.blocks.Keys, b.header, skipPow, named, step.value);
      BlockAdds(rules, led, g, World(w.db.(hdr := step.value.0), step.value.1, w.state), b, skipPow, r, w');
    }
  }

  // A block that is taken is the parent of orphans one above it only.
  lemma StaysOrphaned<B, U>(db: Db<B, U>, db': Db<B, U>, named: Hash -> Header, g: Hash, h: Header, ok: bool, o: Header)
    requires WellFormed(db'.hdr.headers, g) && AllNamed(db'.hdr.headers, named) && named(h.hash) == h
    requires OnlyAdds(db, db', h, ok) && Orphaned(db, o)
    requires o.hash in db.hdr.headers && o.hash != g && named(o.hash) == o
    ensures Orphaned(db', o) || (ok && o.height == h.height + 1)
  {
    StoredFits(db'.hdr.headers, named, g, o.hash);
  }

  lemma SingleWaits<B, U>(db: Db<B, U>, db': Db<B, U>, named: Hash -> Header, g: Hash, o: Orphan<B>, ok: bool,
                          aside: bool, live: Live<B>, live': Live<B>, some: bool)
    requires Moves(db, db', named, g, o.block.header, ok, aside) && PoolWithin(o, aside, live, live')
    requires named(o.block.header.hash) == o.block.header && AllProper(live, named) && AllProper(live', named)
    requires Waits(db, live, named, g, some, HeightOf(o) + 1)
    ensures Waits(db', live', named, g, some || ok, HeightOf(o) + 1)
  {
    forall k | k in live' && k != named(g).prevHash
      ensures k in db'.hdr.headers && k != g
      ensures ((some || ok) && HeightOf(live'[k]) == HeightOf(o) + 1) || Orphaned(db', live'[k].block.header)
    {
      assert Proper(live'[k], k, named);
      if k in live && live'[k] == live[k] && Orphaned(db, live[k].block.header) {
        StaysOrphaned(db, db', named, g, o.block.header, ok, live[k].block.header);
      }
    }
  }

  ghost predicate AllProper<B>(live: Live<B>, named: Hash -> Header) {
    forall k {:trigger Proper(live[k], k, named)} :: k in live ==> Proper(live[k], k, named)
  }

  lemma FiledOutcome<B, S, U>(rules: Rules, named: Hash -> Header, g: Hash, w: World<B, S, U>, o: Orphan<B>, ok: bool,
                              db': Db<B, U>, live: Live<B>, idx: Index, live': Live<B>, idx': Index,
                              height: nat, next: nat, some: bool, some': bool)
    requires Moves(w.db, db', named, g, o.block.header, ok, SetAside(rules, g, w, o.block.header, o.skipPow))
    requires named(o.block.header.hash) == o.block.header
    requires HeightOf(o) == height && next == height + 1 && some' == (some || ok)
    requires Filed(rules, g, w, o.block, o.skipPow, o.added, live, idx, live', idx')
    requires AllProper(live, named) && AllProper(live', named)
    ensures NewOnlyAt(idx, idx', height)
    ensures Waits(w.db, live, named, g, some, next) ==> Waits(db', live', named, g, some', next)
    ensures OrphansAbove(live, named(g)) && Above(o.block.header, named(g), o.skipPow) ==> OrphansAbove(live', named(g))
  {
    FiledAt(rules, g, w, o.block, o.skipPow, o.added, live, idx, live', idx');
    FiledWithin(rules, g, w, o, live, idx, live', idx');
    if Waits(w.db, live, named, g, some, next) {
      SingleWaits(w.db, db', named, g, o, ok, SetAside(rules, g, w, o.block.header, o.skipPow), live, live', some);
    }
  }

  // Taking the orphans of a height out leaves none excepted.
  lemma TakenOutWaits<B, U>(db: Db<B, U>, live: Live<B>, idx: Index, named: Hash -> Header, g: Hash, height: nat)
    requires Indexed(live, idx, named) && Waits(db, live, named, g, true, height)
    ensures Waits(db, if height in idx then Others(live, height) else live, named, g, false, height + 1)
  {
  }

  ghost predicate OfHeight<B>(found: seq<Orphan<B>>, height: nat, named: Hash -> Header) {
    forall i :: 0 <= i < |found| ==>
      HeightOf(found[i]) == height && named(found[i].block.header.hash) == found[i].block.header
  }

  lemma HandedOutAt<B>(live: Live<B>, idx: Index, named: Hash -> Header, g: Hash, height: nat)
    requires Indexed(live, idx, named) && height in idx
    ensures OfHeight(TakeAll(live, idx[height]), height, named)
    ensures OrphansAbove(live, named(g)) ==> FoundAbove(TakeAll(live, idx[height]), named(g))
  {
    HandedOut(live, idx, named, height);
  }

  lemma FiledAt<B, S, U>(rules: Rules, g: Hash, w: World<B, S, U>, b: Block<B>, skipPow: bool, now: nat,
                         live: Live<B>, idx: Index, live': Live<B>, idx': Index)
    requires Filed(rules, g, w, b, skipPow, now, live, idx, live', idx')
    ensures NewOnlyAt(idx, idx', b.header.height)
  {
  }

  // No height is listed anew but one.
  ghost predicate NewOnlyAt(idx: Index, idx': Index, height: nat) {
    forall h :: h in idx' && h != height ==> h in idx
  }

  function KeysFrom(idx: Index, h: nat): set<nat> {
    set x | x in idx && x >= h
  }

  // How many heights from h on are listed.
  function Ahead(idx: Index, h: nat): nat {
    |KeysFrom(idx, h)|
  }

  // What is put back at the height just tried does not count for the next.
  lemma FewerKeys(idx: Index, idx': Index, height: nat, next: nat)
    requires height in idx && NewOnlyAt(idx - {height}, idx', height) && next == height + 1
    ensures Ahead(idx', next) < Ahead(idx, height)
  {
    var a, b := KeysFrom(idx', next), KeysFrom(idx, height);
    assert a <= b - {height};
    Subset(a, b - {height});
  }

  // The orphan pool gains the block if it is to be put aside, and else is untouched.
  ghost predicate Filed<B, S, U>(rules: Rules, g: Hash, w: World<B, S, U>, b: Block<B>, skipPow: bool, now: nat,
                                 live: Live<B>, idx: Index, live': Live<B>, idx': Index)
  {
    if SetAside(rules, g, w, b.header, skipPow) then
      Added(live[b.header.hash := Orphan(b, skipPow, now)], Pushed(idx, b.header.height, b.header.hash), now, live',
        idx')
    else live' == live && idx' == idx
  }

  function GenesisWorld<B, S, U>(led: Ledger<B, S, U>, genesis: Block<B>): World<B, S, U> {
    var k, tip := genesis.header.hash, TipOf(genesis.header);
    World(Db(HeaderDb(map[k := genesis.header], tip), map[k := genesis], map[k := led.genesisSums], tip, None),
          [k], led.genesisState)
  }

  lemma GenesisInv<B, S, U>(rules: Rules, led: Ledger<B, S, U>, named: Hash -> Header, genesis: Block<B>)
    requires genesis.header.height == 0 && named(genesis.header.hash) == genesis.header
    ensures ChainInv(rules, led, named, genesis.header.hash, GenesisWorld(led, genesis))
    ensures HeadIsBest(GenesisWorld(led, genesis).db.hdr)
  {
    var m, g := map[genesis.header.hash := genesis.header], genesis.header.hash;
    assert Path(m, g, g) == [g];
  }
}
