/**
 The block side of the acceptance pipeline: fork choice and reorgs.

 `Db` is a database batch.  The chain state (output, rangeproof and kernel MMRs with their
 indexes) is an abstract value S that blocks are applied to and rewound from, the running block
 sums are an abstract value U; how both react to a block is a parameter, gathered in `Ledger`.
 */
module BlockPipe {
  import opened Collections
  import opened HeaderTree
  import opened HeaderPipe

  datatype Block<B> = Block(header: Header, body: B)

  datatype Ledger<!B, !S, !U> = Ledger(
    genesisState: S,
    genesisSums: U,
    valid: (Block<B>, Header) -> bool,          // internal consistency, given the parent
    mature: (S, seq<Hash>, Block<B>) -> bool,   // spends no immature coinbase
    unspent: (S, seq<Hash>, Block<B>) -> bool,  // inputs unspent, outputs new
    apply: (S, Block<B>) -> Option<S>,          // apply, then check roots and sizes
    undo: (S, Block<B>) -> S,                   // rewind a single block
    addSums: (U, Block<B>) -> Option<U>)        // verify the kernel sums, return the new sums

  // Rewinding a block undoes applying it.
  ghost predicate Reversible<B(!new), S(!new), U>(led: Ledger<B, S, U>) {
    forall s, b :: led.apply(s, b).Some? ==> led.undo(led.apply(s, b).value, b) == s
  }

  type Blocks<B> = map<Hash, Block<B>>

  // The state after the first n blocks of a path; the first hash is genesis.
  ghost function StateAt<B, S, U>(led: Ledger<B, S, U>, blocks: Blocks<B>, p: seq<Hash>, n: nat): Option<S>
    requires n <= |p|
  {
    if n <= 1 then Some(led.genesisState)
    else match StateAt(led, blocks, p, n - 1)
      case None => None
      case Some(s) => if p[n - 1] in blocks then led.apply(s, blocks[p[n - 1]]) else None
  }

  // The block sums after the first n blocks of a path.
  ghost function SumsAt<B, S, U>(led: Ledger<B, S, U>, blocks: Blocks<B>, p: seq<Hash>, n: nat): Option<U>
    requires n <= |p|
  {
    if n <= 1 then Some(led.genesisSums)
    else match SumsAt(led, blocks, p, n - 1)
      case None => None
      case Some(u) => if p[n - 1] in blocks then led.addSums(u, blocks[p[n - 1]]) else None
  }

  // Storing a further block keeps what is already determined.
  lemma {:induction false} StoringKeeps<B, S, U>(led: Ledger<B, S, U>, blocks: Blocks<B>, b: Block<B>, p: seq<Hash>,
        n: nat)
    requires b.header.hash !in blocks && n <= |p|
    ensures StateAt(led, blocks, p, n).Some? ==>
              StateAt(led, blocks[b.header.hash := b], p, n) == StateAt(led, blocks, p, n)
    ensures SumsAt(led, blocks, p, n).Some? ==>
              SumsAt(led, blocks[b.header.hash := b], p, n) == SumsAt(led, blocks, p, n)
  {
    if n > 1 { StoringKeeps(led, blocks, b, p, n - 1); }
  }

  // Only the first n hashes matter.
  lemma {:induction false} SharedPrefix<B, S, U>(led: Ledger<B, S, U>, blocks: Blocks<B>, p: seq<Hash>, q: seq<Hash>,
        n: nat)
    requires n <= |p| && n <= |q| && p[..n] == q[..n]
    ensures StateAt(led, blocks, p, n) == StateAt(led, blocks, q, n)
    ensures SumsAt(led, blocks, p, n) == SumsAt(led, blocks, q, n)
  {
    if n > 1 {
      assert p[n - 1] == p[..n][n - 1] == q[..n][n - 1] == q[n - 1];
      assert p[..n - 1] == p[..n][..n - 1] == q[..n][..n - 1] == q[..n - 1];
      SharedPrefix(led, blocks, p, q, n - 1);
    }
  }

  // The header at position i of a path, and its parent.
  lemma AlongPath(m: Headers, g: Hash, k: Hash, p: seq<Hash>, i: nat)
    requires WellFormed(m, g) && k in m && p == Path(m, g, k) && 0 < i < |p|
    ensures p[i] in m && p[i] != g && m[p[i]].hash == p[i] && m[p[i]].height == i
    ensures m[p[i]].prevHash == p[i - 1] && p[i - 1] in m && m[p[i - 1]].height == i - 1
    ensures Path(m, g, p[i]) == p[..i + 1] && Path(m, g, p[i - 1]) == p[..i]
  {
    PathShape(m, g, k);
    PathPrefix(m, g, k, i);
    PathPrefix(m, g, k, i - 1);
    StepBack(m, g, k, p, m[p[i]]);
  }

  lemma Linked(m: Headers, g: Hash, k: Hash, p: seq<Hash>, i: nat)
    requires WellFormed(m, g) && k in m && p == Path(m, g, k) && 0 < i < |p|
    ensures p[i] in m && m[p[i]].hash == p[i] && m[p[i]].prevHash == p[i - 1]
  {
    AlongPath(m, g, k, p, i);
  }

  ghost predicate OnPath(m: Headers, p: seq<Hash>, h: Header) {
    h.height < |p| && p[h.height] == h.hash && h.hash in m && m[h.hash] == h
  }

  lemma DownPath(m: Headers, g: Hash, k: Hash, p: seq<Hash>, h: Header)
    requires WellFormed(m, g) && k in m && p == Path(m, g, k)
    requires OnPath(m, p, h) && h.height > 0
    ensures h.prevHash in m && OnPath(m, p, m[h.prevHash]) && m[h.prevHash].height == h.height - 1
  {
    AlongPath(m, g, k, p, h.height);
  }

  // ----- rewinding -----

  // The state s belongs to the path p up to and including the header h.
  ghost predicate RewoundTo<B, S, U>(led: Ledger<B, S, U>, m: Headers, blocks: Blocks<B>, p: seq<Hash>, h: Header,
                                     s: S) {
    OnPath(m, p, h) && StateAt(led, blocks, p, h.height + 1) == Some(s)
  }

  lemma RewindStep<B(!new), S(!new), U>(led: Ledger<B, S, U>, m: Headers, g: Hash, blocks: Blocks<B>,
                                        k: Hash, p: seq<Hash>, h: Header, s: S)
    requires Reversible(led) && WellFormed(m, g) && k in m && p == Path(m, g, k)
    requires RewoundTo(led, m, blocks, p, h, s) && h.height > 0
    ensures h.hash in blocks && h.prevHash in m && m[h.prevHash].height == h.height - 1
    ensures RewoundTo(led, m, blocks, p, m[h.prevHash], led.undo(s, blocks[h.hash]))
  {
    DownPath(m, g, k, p, h);
  }

  // Rewinds the state from the end of path p to position `to` of it, block by block.
  method Rewind<B(!new), S(!new), U>(led: Ledger<B, S, U>, m: Headers, ghost g: Hash, blocks: Blocks<B>,
                                     state: S, head: Header, to: Header, ghost p: seq<Hash>)
    returns (r: Result<S>)
    requires Reversible(led)
    requires WellFormed(m, g) && head.hash in m && m[head.hash] == head && p == Path(m, g, head.hash)
    requires StateAt(led, blocks, p, |p|) == Some(state) && to.height < |p|
    ensures r.Ok? && StateAt(led, blocks, p, to.height + 1) == Some(r.value)
  {
    PathShape(m, g, head.hash);
    var s, current := state, head;
    while to.height < current.height
      invariant to.height <= current.height && RewoundTo(led, m, blocks, p, current, s)
    {
      RewindStep(led, m, g, blocks, head.hash, p, current, s);
      if current.hash !in blocks { return Err(NoBlock); }
      s := led.undo(s, blocks[current.hash]);
      current := m[current.prevHash];
    }
    return Ok(s);
  }

  // ----- applying -----

  // The checks and updates for one block: coinbase maturity, the UTXO set, the block sums of the
  // parent, and the state itself.  Saves the new block sums.
  function TakeBlock<B, S, U>(led: Ledger<B, S, U>, s: S, mmr: seq<Hash>, sums: map<Hash, U>, b: Block<B>)
    : Result<(S, map<Hash, U>)>
  {
    if !led.mature(s, mmr, b) then Err(ImmatureCoinbase)
    else if !led.unspent(s, mmr, b) then Err(InvalidUtxo)
    else if b.header.prevHash !in sums then Err(NoSums)
    else match led.addSums(sums[b.header.prevHash], b)
      case None => Err(KernelSumMismatch)
      case Some(u) =>
        match led.apply(s, b)
        case None => Err(InvalidTxHashSet)
        case Some(s') => Ok((s', sums[b.header.hash := u]))
  }

  // A block that is not taken is refused for the first check that fails.
  lemma TakeFails<B, S, U>(led: Ledger<B, S, U>, s: S, mmr: seq<Hash>, sums: map<Hash, U>, b: Block<B>)
    requires TakeBlock(led, s, mmr, sums, b).Err?
    ensures var known := b.header.prevHash in sums;
      FirstFailure([
        Check(led.mature(s, mmr, b), ImmatureCoinbase),
        Check(led.unspent(s, mmr, b), InvalidUtxo),
        Check(known, NoSums),
        Check(known ==> led.addSums(sums[b.header.prevHash], b).Some?, KernelSumMismatch),
        Check(led.apply(s, b).Some?, InvalidTxHashSet)
      ], TakeBlock(led, s, mmr, sums, b).error)
  {
    var known := b.header.prevHash in sums;
    var checks := [
      Check(led.mature(s, mmr, b), ImmatureCoinbase),
      Check(led.unspent(s, mmr, b), InvalidUtxo),
      Check(known, NoSums),
      Check(known ==> led.addSums(sums[b.header.prevHash], b).Some?, KernelSumMismatch),
      Check(led.apply(s, b).Some?, InvalidTxHashSet)
    ];
    var i := if !checks[0].holds then 0 else if !checks[1].holds then 1 else if !checks[2].holds then 2
             else if !checks[3].holds then 3 else 4;
    assert !checks[i].holds && forall j :: 0 <= j < i ==> checks[j].holds;
  }

  // Taking the stored blocks of p at positions c to n - 1, one after the other, from state s.
  ghost function Replay<B, S, U>(led: Ledger<B, S, U>, blocks: Blocks<B>, p: seq<Hash>, c: nat, n: nat,
                                 s: S, sums: map<Hash, U>): Result<(S, map<Hash, U>)>
    requires c <= n <= |p|
  {
    if n == c then Ok((s, sums))
    else match Replay(led, blocks, p, c, n - 1, s, sums)
      case Err(e) => Err(e)
      case Ok(x) => if p[n - 1] in blocks then TakeBlock(led, x.0, p, x.1, blocks[p[n - 1]]) else Err(NoBlock)
  }

  lemma {:induction false} ReplayPrefix<B, S, U>(led: Ledger<B, S, U>, blocks: Blocks<B>, p: seq<Hash>, c: nat,
                                                 n: nat, k: nat, s: S, sums: map<Hash, U>)
    requires c <= k <= n <= |p|
    ensures Replay(led, blocks, p, c, k, s, sums).Err? ==>
              Replay(led, blocks, p, c, n, s, sums) == Replay(led, blocks, p, c, k, s, sums)
  {
    if k < n { ReplayPrefix(led, blocks, p, c, n - 1, k, s, sums); }
  }

  method ReplayFork<B, S, U>(led: Ledger<B, S, U>, blocks: Blocks<B>, forkHashes: seq<Hash>, p: seq<Hash>,
                             ghost c: nat, s: S, sums: map<Hash, U>)
    returns (r: Result<(S, map<Hash, U>)>)
    requires c <= |p| && forkHashes == p[c..]
    ensures r == Replay(led, blocks, p, c, |p|, s, sums)
  {
    r := Ok((s, sums));
    for i := 0 to |forkHashes|
      invariant r.Ok? && r == Replay(led, blocks, p, c, c + i, s, sums)
    {
      assert forkHashes[i] == p[c + i];
      if forkHashes[i] !in blocks {
        ReplayPrefix(led, blocks, p, c, |p|, c + i + 1, s, sums);
        return Err(NoBlock);
      }
      r := TakeBlock(led, r.value.0, p, r.value.1, blocks[forkHashes[i]]);
      if r.Err? {
        ReplayPrefix(led, blocks, p, c, |p|, c + i + 1, s, sums);
        return;
      }
    }
  }

  // The stored sums are those of the whole path to each header.
  ghost predicate SumsOk<B, S, U>(led: Ledger<B, S, U>, m: Headers, g: Hash, blocks: Blocks<B>, sums: map<Hash, U>)
    requires WellFormed(m, g)
  {
    forall k :: k in sums ==> k in m && SumsAt(led, blocks, Path(m, g, k), |Path(m, g, k)|) == Some(sums[k])
  }

  // Blocks are stored under their hash and their header is stored.
  ghost predicate BlocksOk<B>(m: Headers, blocks: Blocks<B>) {
    forall k {:trigger blocks[k]} {:trigger k in blocks} :: k in blocks ==>
      k in m && blocks[k].header == m[k] && m[k].hash == k
  }

  // The sums of every block among the first n of the path p are stored.
  ghost predicate Saved<U>(p: seq<Hash>, n: nat, sums: map<Hash, U>)
    requires n <= |p|
  {
    forall i :: 0 <= i < n ==> p[i] in sums
  }

  // State and sums that belong to the first n blocks of the path p.
  ghost predicate StandsAt<B, S, U>(led: Ledger<B, S, U>, m: Headers, g: Hash, blocks: Blocks<B>,
                                    p: seq<Hash>, n: nat, s: S, sums: map<Hash, U>)
    requires WellFormed(m, g) && n <= |p|
  {
    StateAt(led, blocks, p, n) == Some(s) && SumsOk(led, m, g, blocks, sums) && Saved(p, n, sums)
  }

  lemma TakeKeepsSums<B, S, U>(led: Ledger<B, S, U>, m: Headers, g: Hash, blocks: Blocks<B>,
                               k: Hash, p: seq<Hash>, i: nat, sums: map<Hash, U>, u: U)
    requires WellFormed(m, g) && k in m && p == Path(m, g, k) && 0 < i < |p|
    requires p[i] in blocks && SumsOk(led, m, g, blocks, sums) && p[i - 1] in sums
    requires led.addSums(sums[p[i - 1]], blocks[p[i]]) == Some(u)
    ensures SumsOk(led, m, g, blocks, sums[p[i] := u])
  {
    AlongPath(m, g, k, p, i);
    SumsGet(led, m, g, blocks, p, i, sums);
    SumsStep(led, blocks, p, i, i + 1, sums[p[i - 1]], u);
    SharedPrefix(led, blocks, Path(m, g, p[i]), p, i + 1);
    SumsPut(led, m, g, blocks, sums, p[i], u);
  }

  lemma SumsGet<B, S, U>(led: Ledger<B, S, U>, m: Headers, g: Hash, blocks: Blocks<B>, p: seq<Hash>, i: nat,
                         sums: map<Hash, U>)
    requires WellFormed(m, g) && 0 < i <= |p| && p[i - 1] in m && Path(m, g, p[i - 1]) == p[..i]
    requires SumsOk(led, m, g, blocks, sums) && p[i - 1] in sums
    ensures SumsAt(led, blocks, p, i) == Some(sums[p[i - 1]])
  {
    SharedPrefix(led, blocks, p[..i], p, i);
  }

  lemma SumsStep<B, S, U>(led: Ledger<B, S, U>, blocks: Blocks<B>, p: seq<Hash>, i: nat, n: nat, v: U, u: U)
    requires 0 < i && i + 1 == n <= |p| && p[i] in blocks
    requires SumsAt(led, blocks, p, i) == Some(v) && led.addSums(v, blocks[p[i]]) == Some(u)
    ensures SumsAt(led, blocks, p, n) == Some(u)
  {
  }

  lemma SumsPut<B, S, U>(led: Ledger<B, S, U>, m: Headers, g: Hash, blocks: Blocks<B>, sums: map<Hash, U>, k: Hash,
                         u: U)
    requires WellFormed(m, g) && SumsOk(led, m, g, blocks, sums) && k in m
    requires SumsAt(led, blocks, Path(m, g, k), |Path(m, g, k)|) == Some(u)
    ensures SumsOk(led, m, g, blocks, sums[k := u])
  {
  }

  // Taking the stored block at position i of a path moves on by one block.
  lemma TakeMovesOn<B, S, U>(led: Ledger<B, S, U>, m: Headers, g: Hash, blocks: Blocks<B>, k: Hash, p: seq<Hash>,
                             i: nat, s: S, mmr: seq<Hash>, sums: map<Hash, U>, x: (S, map<Hash, U>))
    requires WellFormed(m, g) && k in m && p == Path(m, g, k) && 0 < i < |p|
    requires p[i] in blocks && p[i] in m && blocks[p[i]].header == m[p[i]]
    requires SumsOk(led, m, g, blocks, sums) && Saved(p, i, sums)
    requires TakeBlock(led, s, mmr, sums, blocks[p[i]]) == Ok(x)
    ensures SumsOk(led, m, g, blocks, x.1) && Saved(p, i + 1, x.1)
  {
    Linked(m, g, k, p, i);
    TakeKeepsSums(led, m, g, blocks, k, p, i, sums, x.1[p[i]]);
  }

  // Splits off the last step of a replay.
  lemma ReplayStep<B, S, U>(led: Ledger<B, S, U>, m: Headers, blocks: Blocks<B>, p: seq<Hash>, c: nat, i: nat, n: nat,
                            s: S, sums: map<Hash, U>, x: (S, map<Hash, U>)) returns (y: (S, map<Hash, U>))
    requires c <= i && i + 1 == n <= |p| && BlocksOk(m, blocks) && Replay(led, blocks, p, c, n, s, sums) == Ok(x)
    ensures Replay(led, blocks, p, c, i, s, sums) == Ok(y)
    ensures p[i] in blocks && p[i] in m && blocks[p[i]].header == m[p[i]]
    ensures TakeBlock(led, y.0, p, y.1, blocks[p[i]]) == Ok(x)
  {
    y := Replay(led, blocks, p, c, i, s, sums).value;
  }

  // A replay from the state of a prefix of p ends in the state of p ...
  lemma {:induction false} ReplayedState<B, S, U>(led: Ledger<B, S, U>, blocks: Blocks<B>, p: seq<Hash>,
                                                  c: nat, n: nat, s: S, sums: map<Hash, U>)
    requires 1 <= c <= n <= |p| && StateAt(led, blocks, p, c) == Some(s)
    requires Replay(led, blocks, p, c, n, s, sums).Ok?
    ensures StateAt(led, blocks, p, n) == Some(Replay(led, blocks, p, c, n, s, sums).value.0)
  {
    if c < n { ReplayedState(led, blocks, p, c, n - 1, s, sums); }
  }

  // ... and saves the sums of every path it passes.
  lemma {:induction false} ReplayedSums<B, S, U>(led: Ledger<B, S, U>, m: Headers, g: Hash, blocks: Blocks<B>,
      k: Hash, p: seq<Hash>, c: nat, n: nat, s: S, sums: map<Hash, U>, x: (S, map<Hash, U>))
    requires WellFormed(m, g) && k in m && p == Path(m, g, k) && 1 <= c <= n <= |p|
    requires BlocksOk(m, blocks) && SumsOk(led, m, g, blocks, sums) && Saved(p, c, sums)
    requires Replay(led, blocks, p, c, n, s, sums) == Ok(x)
    ensures SumsOk(led, m, g, blocks, x.1) && Saved(p, n, x.1)
  {
    if c < n {
      var i := n - 1;
      var y := ReplayStep(led, m, blocks, p, c, i, n, s, sums, x);
      ReplayedSums(led, m, g, blocks, k, p, c, i, s, sums, y);
      TakeMovesOn(led, m, g, blocks, k, p, i, y.0, p, y.1, x);
    }
  }

  // ----- the fork -----

  // The hashes from `header` back to, but not including, height f, oldest first.
  method HashesAbove(m: Headers, ghost g: Hash, header: Header, f: nat, ghost p: seq<Hash>) returns (hashes: seq<Hash>)
    requires WellFormed(m, g) && header.hash in m && m[header.hash] == header && p == Path(m, g, header.hash)
    requires f < |p|
    ensures hashes == p[f + 1..]
  {
    PathShape(m, g, header.hash);
    var current := header;
    var forkHashes: seq<Hash> := [];
    while current.height > f
      invariant f <= current.height && OnPath(m, p, current)
      invariant forkHashes == Rev(p[current.height + 1..])
    {
      DownPath(m, g, header.hash, p, current);
      RevFrom(p, current.height);
      forkHashes := forkHashes + [current.hash];
      current := m[current.prevHash];
    }
    RevRev(p[f + 1..]);
    return Rev(forkHashes);
  }

  datatype Db<!B, !U> = Db(hdr: HeaderDb, blocks: Blocks<B>, sums: map<Hash, U>, head: Tip, tail: Option<Tip>)

  // The body head is a stored header, every stored block belongs to a stored header and has no
  // more work than the head, and state and sums belong to the path to the head.
  ghost predicate BodyInv<B, S, U>(led: Ledger<B, S, U>, db: Db<B, U>, g: Hash, state: S) {
    var m := db.hdr.headers;
    && WellFormed(m, g)
    && db.head.hash in m && db.head == TipOf(m[db.head.hash])
    && BlocksOk(m, db.blocks)
    && (forall k :: k in db.blocks ==> m[k].work <= db.head.work)
    && var q := Path(m, g, db.head.hash);
    StandsAt(led, m, g, db.blocks, q, |q|, state, db.sums)
  }

  datatype Forked<!S, !U> = Forked(fork: Header, mmr: seq<Hash>, state: S, sums: map<Hash, U>)

  // Where moving from the path q of the body head to the path p ends: rewind to the last block
  // they share, then take the blocks of p from there.  None if a step fails.
  ghost function MoveTo<B, S, U>(rules: Rules, led: Ledger<B, S, U>, db: Db<B, U>, mmr: seq<Hash>,
                                 p: seq<Hash>, q: seq<Hash>): Option<Forked<S, U>>
  {
    var m, c := db.hdr.headers, Common(q, p);
    if !AppendsFrom(rules, m, p, Common(p, mmr)) || c == 0 || q[c - 1] !in m then None
    else match StateAt(led, db.blocks, q, c)
      case None => None
      case Some(s) =>
        match Replay(led, db.blocks, p, c, |p|, s, db.sums)
        case Err(_) => None
        case Ok(x) => Some(Forked(m[q[c - 1]], p, x.0, x.1))
  }

  // Moves the working copies of header MMR and state to the path that ends with `header`.
  method RewindAndApplyFork<B(!new), S(!new), U>(rules: Rules, led: Ledger<B, S, U>, db: Db<B, U>, ghost g: Hash,
                                                 mmr: seq<Hash>, state: S, header: Header)
    returns (r: Result<Forked<S, U>>)
    requires Reversible(led) && HeaderInv(db.hdr, g, mmr) && BodyInv(led, db, g, state)
    requires header.hash in db.hdr.headers && db.hdr.headers[header.hash] == header
    ensures var p, q := Path(db.hdr.headers, g, header.hash), Path(db.hdr.headers, g, db.head.hash);
      && MoveTo(rules, led, db, mmr, p, q) == (if r.Ok? then Some(r.value) else None)
      && (r.Ok? <==> CanMove(rules, led, db, mmr, p, q))
  {
    MovesExactly(rules, led, db, g, mmr, state, header.hash);
    var m := db.hdr.headers;
    ghost var p, q := Path(m, g, header.hash), Path(m, g, db.head.hash);
    var ext := RewindAndApplyHeaderFork(rules, m, g, HeaderExt(mmr, db.hdr.headerHead), header);
    if ext.Err? { return Err(ext.error); }

    var headHeader := m[db.head.hash];
    var found, _ := FindFork(m, g, ext.value, headHeader, q);
    if found.Err? { return Err(NoHeader); }
    var fork := found.value;
    PathShape(m, g, db.head.hash);
    var rewound := Rewind(led, m, g, db.blocks, state, headHeader, fork, q);
    if rewound.Err? { return Err(NoBlock); }

    var forkHashes := HashesAbove(m, g, header, fork.height, p);
    var replayed := ReplayFork(led, db.blocks, forkHashes, ext.value.mmr, fork.height + 1, rewound.value, db.sums);
    if replayed.Err? { return Err(replayed.error); }
    return Ok(Forked(fork, ext.value.mmr, replayed.value.0, replayed.value.1));
  }

  // ----- a block -----

  // The fork point, state and sums after taking the block on the path to its parent.  None if
  // the parent is unknown or any check fails.
  ghost function TakeOn<B, S, U>(rules: Rules, led: Ledger<B, S, U>, db: Db<B, U>, g: Hash, mmr: seq<Hash>, b: Block<B>)
    : Option<(Header, S, map<Hash, U>)>
  {
    var m, k := db.hdr.headers, b.header.prevHash;
    if !WellFormed(m, g) || db.head.hash !in m || k !in m || !led.valid(b, m[k]) then None
    else match MoveTo(rules, led, db, mmr, Path(m, g, k), Path(m, g, db.head.hash))
      case None => None
      case Some(f) =>
        match TakeBlock(led, f.state, f.mmr, f.sums, b)
        case Err(_) => None
        case Ok(x) => Some((f.fork, x.0, x.1))
  }

  // The batch after taking a block: it is stored in any case; head, state and sums move only if
  // it totals more work than the head.
  ghost predicate Taken<B, S, U>(db: Db<B, U>, state: S, b: Block<B>, t: (Header, S, map<Hash, U>),
                                 db': Db<B, U>, state': S, tip: Option<Tip>)
  {
    && db'.hdr == db.hdr
    && db'.blocks == db.blocks[b.header.hash := b]
    && db'.tail == (if db.tail.None? then Some(TipOf(b.header)) else db.tail)
    && (if HasMoreWork(b.header, db.head)
        then db'.head == TipOf(b.header) && state' == t.1 && db'.sums == t.2 && tip == Some(TipOf(b.header))
        else db'.head == db.head && state' == state && db'.sums == db.sums && tip == None)
  }

  // Everything after the header has been dealt with.
  method ProcessBody<B(!new), S(!new), U>(rules: Rules, led: Ledger<B, S, U>, db: Db<B, U>, ghost g: Hash,
                                          mmr: seq<Hash>, state: S, b: Block<B>)
    returns (r: Result<(Option<Tip>, Header)>, db': Db<B, U>, state': S)
    requires Reversible(led) && HeaderInv(db.hdr, g, mmr) && BodyInv(led, db, g, state)
    ensures r.Ok? <==> Admissible(rules, led, db, g, mmr, b)
    ensures r.Ok? <==> TakeOn(rules, led, db, g, mmr, b).Some?
    ensures r.Err? ==> db' == db && state' == state
    ensures b.header.prevHash !in db.hdr.headers ==> r == Err(NoHeader)
    ensures b.header.prevHash in db.hdr.headers && !led.valid(b, db.hdr.headers[b.header.prevHash]) ==>
              r == Err(InvalidBlock)
    ensures r.Ok? ==>
              && r.value.1 == TakeOn(rules, led, db, g, mmr, b).value.0
              && Taken(db, state, b, TakeOn(rules, led, db, g, mmr, b).value, db', state', r.value.0)
  {
    db', state' := db, state;
    TakenExactly(rules, led, db, g, mmr, state, b);
    var m := db.hdr.headers;
    if b.header.prevHash !in m { return Err(NoHeader), db', state'; }
    var prev := m[b.header.prevHash];
    if !led.valid(b, prev) { return Err(InvalidBlock), db', state'; }

    // Within the extension.
    var forked := RewindAndApplyFork(rules, led, db, g, mmr, state, prev);
    if forked.Err? { return Err(forked.error), db', state'; }
    var taken := TakeBlock(led, forked.value.state, forked.value.mmr, forked.value.sums, b);
    if taken.Err? { return Err(taken.error), db', state'; }
    var rollback := !HasMoreWork(b.header, db.head);
    if !rollback {
      db' := db'.(sums := taken.value.1);
      state' := taken.value.0;
    }

    // Back in the outer batch.
    db' := db'.(blocks := db'.blocks[b.header.hash := b]);
    if db'.tail.None? { db' := db'.(tail := Some(TipOf(b.header))); }
    if HasMoreWork(b.header, db.head) {
      db' := db'.(head := TipOf(b.header));
      return Ok((Some(TipOf(b.header)), forked.value.fork)), db', state';
    } else {
      return Ok((None, forked.value.fork)), db', state';
    }
  }

  // ----- which blocks are taken -----

  // On the path p, with its state and sums, the block spends nothing immature, finds its inputs
  // unspent, balances, and can be applied.
  ghost predicate Follows<B, S, U>(led: Ledger<B, S, U>, s: Option<S>, u: Option<U>, p: seq<Hash>, b: Block<B>) {
    && s.Some? && led.mature(s.value, p, b) && led.unspent(s.value, p, b) && led.apply(s.value, b).Some?
    && u.Some? && led.addSums(u.value, b).Some?
  }

  // The block at position i of p is stored and follows on the blocks before it.
  ghost predicate FollowsAt<B, S, U>(led: Ledger<B, S, U>, blocks: Blocks<B>, p: seq<Hash>, i: nat)
    requires i < |p|
  {
    p[i] in blocks && Follows(led, StateAt(led, blocks, p, i), SumsAt(led, blocks, p, i), p, blocks[p[i]])
  }

  ghost predicate AllFollow<B, S, U>(led: Ledger<B, S, U>, blocks: Blocks<B>, p: seq<Hash>, c: nat, n: nat)
    requires n <= |p|
  {
    forall i :: c <= i < n ==> FollowsAt(led, blocks, p, i)
  }

  lemma {:induction false} PrefixState<B, S, U>(led: Ledger<B, S, U>, blocks: Blocks<B>, p: seq<Hash>, i: nat, n: nat)
    requires i <= n <= |p| && StateAt(led, blocks, p, n).Some?
    ensures StateAt(led, blocks, p, i).Some?
  {
    if i < n { PrefixState(led, blocks, p, i, n - 1); }
  }

  lemma TakesExactly<B, S, U>(led: Ledger<B, S, U>, s: S, mmr: seq<Hash>, sums: map<Hash, U>, b: Block<B>)
    requires b.header.prevHash in sums
    ensures TakeBlock(led, s, mmr, sums, b).Ok? <==> Follows(led, Some(s), Some(sums[b.header.prevHash]), mmr, b)
  {
  }

  // A replay succeeds exactly if every block follows on those before it.
  lemma {:induction false} ReplaysExactly<B, S, U>(led: Ledger<B, S, U>, m: Headers, g: Hash, blocks: Blocks<B>,
      k: Hash, p: seq<Hash>, c: nat, n: nat, s: S, sums: map<Hash, U>)
    requires WellFormed(m, g) && k in m && p == Path(m, g, k) && 1 <= c <= n <= |p| && BlocksOk(m, blocks)
    requires StandsAt(led, m, g, blocks, p, c, s, sums)
    ensures Replay(led, blocks, p, c, n, s, sums).Ok? <==> AllFollow(led, blocks, p, c, n)
  {
    if c < n {
      var i := n - 1;
      ReplaysExactly(led, m, g, blocks, k, p, c, i, s, sums);
      LastExactly(led, m, g, blocks, k, p, c, i, n, s, sums);
      AllFollowNext(led, blocks, p, c, i, n);
    }
  }

  lemma AllFollowNext<B, S, U>(led: Ledger<B, S, U>, blocks: Blocks<B>, p: seq<Hash>, c: nat, i: nat, n: nat)
    requires c <= i && i + 1 == n <= |p|
    ensures AllFollow(led, blocks, p, c, n) <==> AllFollow(led, blocks, p, c, i) && FollowsAt(led, blocks, p, i)
  {
  }

  lemma LastExactly<B, S, U>(led: Ledger<B, S, U>, m: Headers, g: Hash, blocks: Blocks<B>, k: Hash, p: seq<Hash>,
                             c: nat, i: nat, n: nat, s: S, sums: map<Hash, U>)
    requires WellFormed(m, g) && k in m && p == Path(m, g, k) && 1 <= c <= i && i + 1 == n <= |p| && BlocksOk(m, blocks)
    requires StandsAt(led, m, g, blocks, p, c, s, sums)
    ensures Replay(led, blocks, p, c, n, s, sums).Ok? <==>
              Replay(led, blocks, p, c, i, s, sums).Ok? && FollowsAt(led, blocks, p, i)
  {
    ReplayNext(led, blocks, p, c, i, n, s, sums);
    var r := Replay(led, blocks, p, c, i, s, sums);
    if r.Ok? && p[i] in blocks { AfterReplay(led, m, g, blocks, k, p, c, i, s, sums, r.value); }
  }

  lemma ReplayNext<B, S, U>(led: Ledger<B, S, U>, blocks: Blocks<B>, p: seq<Hash>, c: nat, i: nat, n: nat,
                            s: S, sums: map<Hash, U>)
    requires c <= i && i + 1 == n <= |p|
    ensures var r := Replay(led, blocks, p, c, i, s, sums);
      Replay(led, blocks, p, c, n, s, sums).Ok? <==>
        r.Ok? && p[i] in blocks && TakeBlock(led, r.value.0, p, r.value.1, blocks[p[i]]).Ok?
  {
  }

  lemma AfterReplay<B, S, U>(led: Ledger<B, S, U>, m: Headers, g: Hash, blocks: Blocks<B>, k: Hash, p: seq<Hash>,
                             c: nat, i: nat, s: S, sums: map<Hash, U>, x: (S, map<Hash, U>))
    requires WellFormed(m, g) && k in m && p == Path(m, g, k) && 1 <= c <= i < |p| && BlocksOk(m, blocks)
    requires StandsAt(led, m, g, blocks, p, c, s, sums) && Replay(led, blocks, p, c, i, s, sums) == Ok(x)
    requires p[i] in blocks
    ensures TakeBlock(led, x.0, p, x.1, blocks[p[i]]).Ok? <==> FollowsAt(led, blocks, p, i)
  {
    assert StandsAt(led, m, g, blocks, p, i, x.0, x.1) by {
      ReplayedState(led, blocks, p, c, i, s, sums);
      ReplayedSums(led, m, g, blocks, k, p, c, i, s, sums, x);
    }
    StepsExactly(led, m, g, blocks, k, p, i, x.0, x.1);
  }

  lemma StepsExactly<B, S, U>(led: Ledger<B, S, U>, m: Headers, g: Hash, blocks: Blocks<B>, k: Hash, p: seq<Hash>,
                              i: nat, s: S, sums: map<Hash, U>)
    requires WellFormed(m, g) && k in m && p == Path(m, g, k) && 1 <= i < |p| && BlocksOk(m, blocks) && p[i] in blocks
    requires StandsAt(led, m, g, blocks, p, i, s, sums)
    ensures TakeBlock(led, s, p, sums, blocks[p[i]]).Ok? <==> FollowsAt(led, blocks, p, i)
  {
    AlongPath(m, g, k, p, i);
    SumsGet(led, m, g, blocks, p, i, sums);
    TakesExactly(led, s, p, sums, blocks[p[i]]);
  }

  // The headers of p beyond those of the MMR may be appended, and the blocks of p beyond the body
  // chain q follow one on the other.
  ghost predicate CanMove<B, S, U>(rules: Rules, led: Ledger<B, S, U>, db: Db<B, U>, mmr: seq<Hash>,
                                   p: seq<Hash>, q: seq<Hash>)
  {
    && AppendsFrom(rules, db.hdr.headers, p, Common(p, mmr))
    && AllFollow(led, db.blocks, p, Common(q, p), |p|)
  }

  lemma MovesExactly<B, S, U>(rules: Rules, led: Ledger<B, S, U>, db: Db<B, U>, g: Hash, mmr: seq<Hash>, state: S,
                              k: Hash)
    requires BodyInv(led, db, g, state) && k in db.hdr.headers
    ensures var p, q := Path(db.hdr.headers, g, k), Path(db.hdr.headers, g, db.head.hash);
      MoveTo(rules, led, db, mmr, p, q).Some? <==> CanMove(rules, led, db, mmr, p, q)
  {
    var m := db.hdr.headers;
    var p, q := Path(m, g, k), Path(m, g, db.head.hash);
    var c := Common(q, p);
    SharesGenesis(m, g, db.head.hash, k);
    PathIn(m, g, db.head.hash);
    PrefixState(led, db.blocks, q, c, |q|);
    var s := StateAt(led, db.blocks, q, c).value;
    SharedStands(led, m, g, db.blocks, q, p, c, s, db.sums);
    ReplaysExactly(led, m, g, db.blocks, k, p, c, |p|, s, db.sums);
  }

  lemma SharesGenesis(m: Headers, g: Hash, a: Hash, b: Hash)
    requires WellFormed(m, g) && a in m && b in m
    ensures 1 <= Common(Path(m, g, a), Path(m, g, b))
  {
    PathShape(m, g, a);
    PathShape(m, g, b);
  }

  lemma SharedStands<B, S, U>(led: Ledger<B, S, U>, m: Headers, g: Hash, blocks: Blocks<B>, q: seq<Hash>, p: seq<Hash>,
                              c: nat, s: S, sums: map<Hash, U>)
    requires WellFormed(m, g) && c == Common(q, p) && StateAt(led, blocks, q, c) == Some(s)
    requires SumsOk(led, m, g, blocks, sums) && Saved(q, |q|, sums)
    ensures StandsAt(led, m, g, blocks, p, c, s, sums)
  {
    SharedPrefix(led, blocks, q, p, c);
    assert forall i :: 0 <= i < c ==> p[i] == p[..c][i] == q[..c][i] == q[i];
  }

  // The block can be taken: its parent is known, it is valid, the node can move to the path of its
  // parent, and it follows there.
  ghost predicate Admissible<B, S, U>(rules: Rules, led: Ledger<B, S, U>, db: Db<B, U>, g: Hash, mmr: seq<Hash>,
                                      b: Block<B>)
    requires WellFormed(db.hdr.headers, g) && db.head.hash in db.hdr.headers
  {
    var m, k := db.hdr.headers, b.header.prevHash;
    && k in m && led.valid(b, m[k])
    && var p := Path(m, g, k);
    && CanMove(rules, led, db, mmr, p, Path(m, g, db.head.hash))
    && Follows(led, StateAt(led, db.blocks, p, |p|), SumsAt(led, db.blocks, p, |p|), p, b)
  }

  lemma TakenExactly<B, S, U>(rules: Rules, led: Ledger<B, S, U>, db: Db<B, U>, g: Hash, mmr: seq<Hash>, state: S,
                              b: Block<B>)
    requires BodyInv(led, db, g, state)
    ensures TakeOn(rules, led, db, g, mmr, b).Some? <==> Admissible(rules, led, db, g, mmr, b)
  {
    var m, k := db.hdr.headers, b.header.prevHash;
    if k in m {
      var p, q := Path(m, g, k), Path(m, g, db.head.hash);
      MovesExactly(rules, led, db, g, mmr, state, k);
      if MoveTo(rules, led, db, mmr, p, q).Some? {
        var f := MoveTo(rules, led, db, mmr, p, q).value;
        MovedStands(rules, led, db, g, mmr, state, k);
        PathShape(m, g, k);
        SumsGet(led, m, g, db.blocks, p, |p|, f.sums);
        TakesExactly(led, f.state, p, f.sums, b);
      }
    }
  }

  // A stored block is valid and follows on the path of its own parent.
  ghost predicate SoundAt<B, S, U>(led: Ledger<B, S, U>, m: Headers, g: Hash, blocks: Blocks<B>, k: Hash)
    requires WellFormed(m, g) && k in m && k in blocks
  {
    && m[k].prevHash in m && led.valid(blocks[k], m[m[k].prevHash])
    && var p := Path(m, g, m[k].prevHash);
    Follows(led, StateAt(led, blocks, p, |p|), SumsAt(led, blocks, p, |p|), p, blocks[k])
  }

  ghost predicate AllSound<B, S, U>(led: Ledger<B, S, U>, m: Headers, g: Hash, blocks: Blocks<B>)
    requires WellFormed(m, g)
  {
    forall k {:trigger SoundAt(led, m, g, blocks, k)} ::
      k in blocks && k in m && k != g ==> SoundAt(led, m, g, blocks, k)
  }

  lemma SoundKept<B, S, U>(led: Ledger<B, S, U>, m: Headers, g: Hash, blocks: Blocks<B>, b: Block<B>, k: Hash)
    requires WellFormed(m, g) && k in m && k in blocks && SoundAt(led, m, g, blocks, k) && b.header.hash !in blocks
    ensures SoundAt(led, m, g, blocks[b.header.hash := b], k)
  {
    var p := Path(m, g, m[k].prevHash);
    StoringKeeps(led, blocks, b, p, |p|);
  }

  // A block that is taken is sound, and leaves the others so.
  lemma TakenIsSound<B, S, U>(rules: Rules, led: Ledger<B, S, U>, db: Db<B, U>, g: Hash, mmr: seq<Hash>, b: Block<B>)
    requires WellFormed(db.hdr.headers, g) && db.head.hash in db.hdr.headers
    requires AllSound(led, db.hdr.headers, g, db.blocks) && Admissible(rules, led, db, g, mmr, b)
    requires b.header.hash in db.hdr.headers && db.hdr.headers[b.header.hash] == b.header && b.header.hash !in db.blocks
    ensures AllSound(led, db.hdr.headers, g, db.blocks[b.header.hash := b])
  {
    var m, blocks' := db.hdr.headers, db.blocks[b.header.hash := b];
    forall k | k in blocks' && k in m && k != g ensures SoundAt(led, m, g, blocks', k) {
      if k == b.header.hash {
        var p := Path(m, g, b.header.prevHash);
        StoringKeeps(led, db.blocks, b, p, |p|);
      } else {
        assert SoundAt(led, m, g, db.blocks, k);
        SoundKept(led, m, g, db.blocks, b, k);
      }
    }
  }

  // ----- the invariant is kept -----

  // Storing a new block keeps state and sums of every path.
  lemma StoringKeepsStand<B, S, U>(led: Ledger<B, S, U>, m: Headers, g: Hash, blocks: Blocks<B>, b: Block<B>,
                                   p: seq<Hash>, n: nat, s: S, sums: map<Hash, U>)
    requires WellFormed(m, g) && n <= |p| && b.header.hash !in blocks
    requires StandsAt(led, m, g, blocks, p, n, s, sums)
    ensures StandsAt(led, m, g, blocks[b.header.hash := b], p, n, s, sums)
  {
    var blocks' := blocks[b.header.hash := b];
    StoringKeeps(led, blocks, b, p, n);
    forall k | k in sums
      ensures SumsAt(led, blocks', Path(m, g, k), |Path(m, g, k)|) == Some(sums[k])
    {
      StoringKeeps(led, blocks, b, Path(m, g, k), |Path(m, g, k)|);
    }
  }

  // After a successful move, state and sums belong to the new path.
  lemma MovedStands<B, S, U>(rules: Rules, led: Ledger<B, S, U>, db: Db<B, U>, g: Hash, mmr: seq<Hash>, state: S,
                             k: Hash)
    requires BodyInv(led, db, g, state) && k in db.hdr.headers
    requires MoveTo(rules, led, db, mmr, Path(db.hdr.headers, g, k), Path(db.hdr.headers, g, db.head.hash)).Some?
    ensures var m := db.hdr.headers;
      var p := Path(m, g, k);
      var f := MoveTo(rules, led, db, mmr, p, Path(m, g, db.head.hash)).value;
      f.mmr == p && StandsAt(led, m, g, db.blocks, p, |p|, f.state, f.sums)
  {
    var m := db.hdr.headers;
    var p, q := Path(m, g, k), Path(m, g, db.head.hash);
    var c := Common(q, p);
    SharedPrefix(led, db.blocks, q, p, c);
    assert forall i :: 0 <= i < c ==> p[i] == p[..c][i] == q[..c][i] == q[i];
    var s := StateAt(led, db.blocks, q, c).value;
    ReplayedState(led, db.blocks, p, c, |p|, s, db.sums);
    ReplayedSums(led, m, g, db.blocks, k, p, c, |p|, s, db.sums, Replay(led, db.blocks, p, c, |p|, s, db.sums).value);
  }

  // A block taken on its parent's path, once stored, gives the state and sums of its own path.
  lemma TakenStands<B, S, U>(rules: Rules, led: Ledger<B, S, U>, db: Db<B, U>, g: Hash, mmr: seq<Hash>, state: S,
                             b: Block<B>)
    requires BodyInv(led, db, g, state)
    requires b.header.hash in db.hdr.headers && db.hdr.headers[b.header.hash] == b.header && b.header.hash != g
    requires b.header.hash !in db.blocks
    requires TakeOn(rules, led, db, g, mmr, b).Some?
    ensures var m, t := db.hdr.headers, TakeOn(rules, led, db, g, mmr, b).value;
      var p := Path(m, g, b.header.hash);
      StandsAt(led, m, g, db.blocks[b.header.hash := b], p, |p|, t.1, t.2)
  {
    var m, k := db.hdr.headers, b.header.prevHash;
    MovedStands(rules, led, db, g, mmr, state, k);
    var f := MoveTo(rules, led, db, mmr, Path(m, g, k), Path(m, g, db.head.hash)).value;
    var q, p := Path(m, g, k), Path(m, g, b.header.hash);
    StoringKeepsStand(led, m, g, db.blocks, b, q, |q|, f.state, f.sums);
    var blocks' := db.blocks[b.header.hash := b];
    StandsOnLonger(led, m, g, blocks', q, p, f.state, f.sums);
    var t := TakeBlock(led, f.state, f.mmr, f.sums, b).value;
    TakenMovesOn(led, m, g, blocks', b, p, |q|, f.state, f.mmr, f.sums, t);
  }

  lemma StandsOnLonger<B, S, U>(led: Ledger<B, S, U>, m: Headers, g: Hash, blocks: Blocks<B>, q: seq<Hash>,
                                p: seq<Hash>, s: S, sums: map<Hash, U>)
    requires WellFormed(m, g) && |q| <= |p| && q == p[..|q|] && StandsAt(led, m, g, blocks, q, |q|, s, sums)
    ensures StandsAt(led, m, g, blocks, p, |q|, s, sums)
  {
    assert q[..|q|] == p[..|q|];
    SharedPrefix(led, blocks, q, p, |q|);
    assert forall i :: 0 <= i < |q| ==> p[i] == q[i];
  }

  lemma TakenMovesOn<B, S, U>(led: Ledger<B, S, U>, m: Headers, g: Hash, blocks: Blocks<B>, b: Block<B>, p: seq<Hash>,
                              i: nat, s: S, mmr: seq<Hash>, sums: map<Hash, U>, t: (S, map<Hash, U>))
    requires WellFormed(m, g) && b.header.hash in m && m[b.header.hash] == b.header
    requires p == Path(m, g, b.header.hash) && 0 < i && |p| == i + 1 && p[i] == b.header.hash
    requires b.header.hash in blocks && blocks[b.header.hash] == b
    requires StandsAt(led, m, g, blocks, p, i, s, sums) && TakeBlock(led, s, mmr, sums, b) == Ok(t)
    ensures StandsAt(led, m, g, blocks, p, |p|, t.0, t.1)
  {
    TakeMovesOn(led, m, g, blocks, b.header.hash, p, i, s, mmr, sums, t);
  }

  // Taking a block keeps the invariant of the body: in particular the state is always the fold
  // of the blocks on the path to the head, and the head's work never falls.
  lemma TakenKeepsBody<B, S, U>(rules: Rules, led: Ledger<B, S, U>, db: Db<B, U>, g: Hash, mmr: seq<Hash>, state: S,
                                b: Block<B>, db': Db<B, U>, state': S, tip: Option<Tip>)
    requires BodyInv(led, db, g, state)
    requires b.header.hash in db.hdr.headers && db.hdr.headers[b.header.hash] == b.header && b.header.hash != g
    requires b.header.hash !in db.blocks
    requires TakeOn(rules, led, db, g, mmr, b).Some?
    requires Taken(db, state, b, TakeOn(rules, led, db, g, mmr, b).value, db', state', tip)
    ensures BodyInv(led, db', g, state')
    ensures db'.head.work >= db.head.work
  {
    var m := db.hdr.headers;
    TakenStands(rules, led, db, g, mmr, state, b);
    var q := Path(m, g, db.head.hash);
    StoringKeepsStand(led, m, g, db.blocks, b, q, |q|, state, db.sums);
  }
}
