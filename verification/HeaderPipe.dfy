/**
 The header side of the block acceptance pipeline: validation, the header MMR, single headers and
 chunks of headers.

 `HeaderDb` is the header part of a database batch: an operation works on a copy, and the copy
 replaces the database only if the operation succeeds.  What lies outside is a parameter, gathered
 in `Rules`.
 */
module HeaderPipe {
  import opened Collections
  import opened HeaderTree

  datatype Tip = Tip(height: nat, hash: Hash, prevHash: Hash, work: nat)

  function TipOf(h: Header): Tip {
    Tip(h.height, h.hash, h.prevHash, h.work)
  }

  datatype Error =
    | Unfit
    | OldBlock
    | InvalidPow
    | NoHeader
    | Denied
    | InvalidBlockHeight
    | InvalidBlockTime
    | InvalidHeader
    | DifficultyTooLow
    | WrongDifficulty
    | InvalidRoot
    | InvalidBlock
    | NoBlock
    | NoSums
    | ImmatureCoinbase
    | InvalidUtxo
    | KernelSumMismatch
    | InvalidTxHashSet
    | IsOrphan

  datatype Result<+T> = Ok(value: T) | Err(error: Error)

  datatype Rules = Rules(
    allowed: Header -> bool,          // not on the denylist
    pow: Header -> bool,              // valid proof of work
    header: (Header, Header) -> bool, // version, sizes and weight, given the parent
    target: (Headers, Header) -> bool, // work and scaling, given the headers before
    root: seq<Hash> -> Hash)          // root of a header MMR

  datatype HeaderDb = HeaderDb(headers: Headers, headerHead: Tip)

  // Whether the header totals more work than the tip.
  predicate HasMoreWork(h: Header, tip: Tip) {
    h.work > tip.work
  }

  // ----- header rules -----

  function CheckKnown(h: Header, head: Tip, blocks: set<Hash>): Result<()> {
    if h.work > head.work then Ok(())
    else if h.hash == head.hash || h.hash == head.prevHash then Err(Unfit)
    else if h.hash in blocks then
      if h.height + 50 < head.height then Err(OldBlock) else Err(Unfit)
    else Ok(())
  }

  // A header with more work than the head always passes; one without is refused if it is the head,
  // the head's parent or stored, as an old one if more than 50 blocks below.
  lemma CheckKnownMeans(h: Header, head: Tip, blocks: set<Hash>)
    ensures var near := h.hash in {head.hash, head.prevHash};
      var aged := !near && h.hash in blocks && head.height > 50 + h.height;
      && (CheckKnown(h, head, blocks) == Ok(()) <==> h.work > head.work || (!near && h.hash !in blocks))
      && (CheckKnown(h, head, blocks) == Err(OldBlock) <==> h.work <= head.work && aged)
      && (CheckKnown(h, head, blocks) == Err(Unfit) <==>
          h.work <= head.work && !aged && (near || h.hash in blocks))
  {
  }

  function ValidateHeader(rules: Rules, m: Headers, h: Header, skipPow: bool): Result<()> {
    if !rules.allowed(h) then Err(Denied)
    else if h.prevHash !in m then Err(NoHeader)
    else
      var prev := m[h.prevHash];
      if h.height != prev.height + 1 then Err(InvalidBlockHeight)
      else if h.timestamp <= prev.timestamp then Err(InvalidBlockTime)
      else if !rules.header(h, prev) then Err(InvalidHeader)
      else if skipPow then Ok(())
      else if !rules.pow(h) then Err(InvalidPow)
      else if h.work <= prev.work then Err(DifficultyTooLow)
      else if !rules.target(m, h) then Err(WrongDifficulty)
      else Ok(())
  }

  // What any header must satisfy, given the stored headers.
  predicate Obeys(rules: Rules, m: Headers, h: Header) {
    && rules.allowed(h) && h.prevHash in m
    && h.height == m[h.prevHash].height + 1 && h.timestamp > m[h.prevHash].timestamp
    && rules.header(h, m[h.prevHash])
  }

  // What it must satisfy if proof of work is checked.
  predicate Proven(rules: Rules, m: Headers, h: Header) {
    rules.pow(h) && h.prevHash in m && h.work > m[h.prevHash].work && rules.target(m, h)
  }

  predicate Passes(rules: Rules, m: Headers, h: Header, skipPow: bool) {
    Obeys(rules, m, h) && (skipPow || Proven(rules, m, h))
  }

  // A requirement, and the error if it is not met.
  datatype Check = Check(holds: bool, error: Error)

  // The error is that of the first requirement not met.
  ghost predicate FirstFailure(checks: seq<Check>, e: Error) {
    exists i :: 0 <= i < |checks| && !checks[i].holds && checks[i].error == e &&
      forall j :: 0 <= j < i ==> checks[j].holds
  }

  // Validation accepts exactly the headers that pass, and names the first requirement not met.
  lemma ValidateIs(rules: Rules, m: Headers, h: Header, skipPow: bool)
    ensures ValidateHeader(rules, m, h, skipPow).Ok? <==> Passes(rules, m, h, skipPow)
    ensures ValidateHeader(rules, m, h, skipPow).Err? ==>
      var known := h.prevHash in m;
      FirstFailure([
        Check(rules.allowed(h), Denied),
        Check(known, NoHeader),
        Check(known ==> h.height == m[h.prevHash].height + 1, InvalidBlockHeight),
        Check(known ==> h.timestamp > m[h.prevHash].timestamp, InvalidBlockTime),
        Check(known ==> rules.header(h, m[h.prevHash]), InvalidHeader),
        Check(skipPow || rules.pow(h), InvalidPow),
        Check(skipPow || (known ==> h.work > m[h.prevHash].work), DifficultyTooLow),
        Check(skipPow || rules.target(m, h), WrongDifficulty)
      ], ValidateHeader(rules, m, h, skipPow).error)
  {
    var known := h.prevHash in m;
    var checks := [
      Check(rules.allowed(h), Denied),
      Check(known, NoHeader),
      Check(known ==> h.height == m[h.prevHash].height + 1, InvalidBlockHeight),
      Check(known ==> h.timestamp > m[h.prevHash].timestamp, InvalidBlockTime),
      Check(known ==> rules.header(h, m[h.prevHash]), InvalidHeader),
      Check(skipPow || rules.pow(h), InvalidPow),
      Check(skipPow || (known ==> h.work > m[h.prevHash].work), DifficultyTooLow),
      Check(skipPow || rules.target(m, h), WrongDifficulty)
    ];
    if ValidateHeader(rules, m, h, skipPow).Err? {
      var i := if !checks[0].holds then 0 else if !checks[1].holds then 1 else if !checks[2].holds then 2
               else if !checks[3].holds then 3 else if !checks[4].holds then 4 else if !checks[5].holds then 5
               else if !checks[6].holds then 6 else 7;
      assert !checks[i].holds && checks[i].error == ValidateHeader(rules, m, h, skipPow).error;
    }
  }

  // ----- the header MMR extension -----

  datatype HeaderExt = HeaderExt(mmr: seq<Hash>, head: Tip)

  // The extension holds the path to its head.
  ghost predicate ExtAt(m: Headers, g: Hash, ext: HeaderExt) {
    && WellFormed(m, g)
    && ext.head.hash in m && ext.head == TipOf(m[ext.head.hash])
    && ext.mmr == Path(m, g, ext.head.hash)
  }

  // Is the header of this height and hash on the chain of the extension?
  function OnChain(ext: HeaderExt, m: Headers, height: nat, hash: Hash): Result<bool> {
    if height > ext.head.height then Ok(false)
    else if height >= |ext.mmr| || ext.mmr[height] !in m then Err(NoHeader)
    else Ok(m[ext.mmr[height]].hash == hash)
  }

  lemma OnChainIs(m: Headers, g: Hash, ext: HeaderExt, height: nat, hash: Hash)
    requires ExtAt(m, g, ext)
    ensures |ext.mmr| == ext.head.height + 1
    ensures OnChain(ext, m, height, hash) == Ok(height < |ext.mmr| && ext.mmr[height] == hash)
  {
    PathShape(m, g, ext.head.hash);
    if height <= ext.head.height { PathPrefix(m, g, ext.head.hash, height); }
  }

  // The i-th header of a path may be appended to the headers before it.
  ghost predicate Appends(rules: Rules, m: Headers, p: seq<Hash>, i: nat)
    requires i < |p|
  {
    && p[i] in m
    && rules.allowed(m[p[i]])
    && (m[p[i]].height == 0 || rules.root(p[..i]) == m[p[i]].prevRoot)
  }

  ghost predicate AppendsFrom(rules: Rules, m: Headers, p: seq<Hash>, c: nat) {
    forall i :: c <= i < |p| ==> Appends(rules, m, p, i)
  }

  // One step back along the path p to some header.
  lemma StepBack(m: Headers, g: Hash, k: Hash, p: seq<Hash>, h: Header)
    requires WellFormed(m, g) && k in m && p == Path(m, g, k)
    requires h.hash in m && m[h.hash] == h && 0 < h.height < |p| && p[h.height] == h.hash
    ensures h.prevHash in m && m[h.prevHash].height == h.height - 1 && p[h.height - 1] == h.prevHash
  {
    PathShape(m, g, k);
    PathPrefix(m, g, k, h.height);
    PathShape(m, g, h.prevHash);
    assert p[h.height - 1] == p[..h.height + 1][h.height - 1];
  }

  // The header h is the last one that the paths p and q share.
  ghost predicate IsFork(m: Headers, p: seq<Hash>, q: seq<Hash>, h: Header) {
    var c := Common(p, q);
    c >= 1 && p[c - 1] in m && m[p[c - 1]] == h && h.height == c - 1
  }

  // A walk back along p that has reached `current` and met q nowhere on the way.
  ghost predicate Walked(m: Headers, p: seq<Hash>, q: seq<Hash>, current: Header) {
    && current.hash in m && m[current.hash] == current
    && current.height < |p| && p[current.height] == current.hash
    && Apart(p, q, current.height)
  }

  lemma WalkOn(m: Headers, g: Hash, k: Hash, p: seq<Hash>, q: seq<Hash>, current: Header)
    requires WellFormed(m, g) && k in m && p == Path(m, g, k)
    requires Walked(m, p, q, current) && current.height > 0
    requires !(current.height < |q| && q[current.height] == current.hash)
    ensures current.prevHash in m && Walked(m, p, q, m[current.prevHash])
    ensures m[current.prevHash].height == current.height - 1
  {
    StepBack(m, g, k, p, current);
    ApartStep(p, q, current.height);
  }

  // The same walk, with the hashes passed on the way, newest first.
  ghost predicate Walking(m: Headers, p: seq<Hash>, q: seq<Hash>, current: Header, hashes: seq<Hash>) {
    Walked(m, p, q, current) && hashes == Rev(p[current.height + 1..])
  }

  lemma WalkFurther(m: Headers, g: Hash, k: Hash, p: seq<Hash>, q: seq<Hash>, current: Header, hashes: seq<Hash>)
    requires WellFormed(m, g) && k in m && p == Path(m, g, k)
    requires Walking(m, p, q, current, hashes) && current.height > 0
    requires !(current.height < |q| && q[current.height] == current.hash)
    ensures current.prevHash in m && m[current.prevHash].height < current.height
    ensures Walking(m, p, q, m[current.prevHash], hashes + [current.hash])
  {
    WalkOn(m, g, k, p, q, current);
    RevFrom(p, current.height);
  }

  lemma WalkEnds(m: Headers, g: Hash, k: Hash, l: Hash, p: seq<Hash>, q: seq<Hash>, current: Header)
    requires WellFormed(m, g) && k in m && p == Path(m, g, k) && l in m && q == Path(m, g, l)
    requires Walked(m, p, q, current)
    requires current.height == 0 || (current.height < |q| && q[current.height] == current.hash)
    ensures IsFork(m, p, q, current)
  {
    PathShape(m, g, k);
    PathShape(m, g, l);
    CommonIs(m, g, k, l, current.height);
  }

  // Walks back from `header` to the first header on the extension's chain: the last one the two
  // paths share.  Returns it with the hashes passed on the way, oldest first.
  method FindFork(m: Headers, ghost g: Hash, ext: HeaderExt, header: Header, ghost p: seq<Hash>)
    returns (r: Result<Header>, forkHashes: seq<Hash>)
    requires ExtAt(m, g, ext) && header.hash in m && m[header.hash] == header
    requires p == Path(m, g, header.hash)
    ensures r.Ok? && IsFork(m, p, ext.mmr, r.value)
    ensures forkHashes == p[r.value.height + 1..]
  {
    PathShape(m, g, header.hash);
    var current := header;
    forkHashes := [];
    while current.height > 0
      invariant Walking(m, p, ext.mmr, current, forkHashes)
      decreases current.height
    {
      OnChainIs(m, g, ext, current.height, current.hash);
      match OnChain(ext, m, current.height, current.hash) {
        case Err(e) => return Err(e), [];
        case Ok(on) => if on { break; }
      }
      WalkFurther(m, g, header.hash, p, ext.mmr, current, forkHashes);
      forkHashes := forkHashes + [current.hash];
      current := m[current.prevHash];
    }
    WalkEnds(m, g, header.hash, ext.head.hash, p, ext.mmr, current);
    RevRev(p[current.height + 1..]);
    return Ok(current), Rev(forkHashes);
  }

  lemma RevFrom(p: seq<Hash>, i: nat)
    requires i < |p|
    ensures Rev(p[i..]) == Rev(p[i + 1..]) + [p[i]]
  {
    assert p[i..] == [p[i]] + p[i + 1..];
    RevPush(p[i + 1..], p[i]);
  }

  // Rewind the header extension to a header on its chain.
  function RewindTo(ext: HeaderExt, h: Header): HeaderExt
    requires h.height < |ext.mmr|
  {
    HeaderExt(ext.mmr[..h.height + 1], TipOf(h))
  }

  // validate_root, then push.
  function Push(rules: Rules, ext: HeaderExt, h: Header): Result<HeaderExt> {
    if h.height != 0 && rules.root(ext.mmr) != h.prevRoot then Err(InvalidRoot)
    else Ok(HeaderExt(ext.mmr + [h.hash], TipOf(h)))
  }

  // A header is pushed exactly if it names the root before it; genesis need not.
  lemma PushIs(rules: Rules, ext: HeaderExt, h: Header)
    ensures Push(rules, ext, h).Ok? <==> h.height == 0 || h.prevRoot == rules.root(ext.mmr)
    ensures Push(rules, ext, h).Ok? ==> Push(rules, ext, h).value.mmr == ext.mmr + [h.hash]
    ensures Push(rules, ext, h).Err? ==> Push(rules, ext, h).error == InvalidRoot
  {
  }

  // The hashes are those of stored headers.
  ghost predicate AllIn(m: Headers, p: seq<Hash>) {
    forall i :: 0 <= i < |p| ==> p[i] in m && m[p[i]].hash == p[i]
  }

  lemma PathIn(m: Headers, g: Hash, k: Hash)
    requires WellFormed(m, g) && k in m
    ensures AllIn(m, Path(m, g, k))
  {
    PathShape(m, g, k);
    forall i | 0 <= i < |Path(m, g, k)|
      ensures Path(m, g, k)[i] in m && m[Path(m, g, k)[i]].hash == Path(m, g, k)[i]
    {
      PathPrefix(m, g, k, i);
    }
  }

  // The header at position i is the first from c on that cannot be appended, and why.
  ghost predicate FailsAt(rules: Rules, m: Headers, p: seq<Hash>, c: nat, i: nat, e: Error)
    requires AllIn(m, p) && 1 <= c <= i < |p|
  {
    && !Appends(rules, m, p, i) && (forall j :: c <= j < i ==> Appends(rules, m, p, j))
    && e == if rules.allowed(m[p[i]]) then InvalidRoot else Denied
  }

  // Re-applies the headers of p beyond its first c, which the extension already holds.
  method ApplyHeaders(rules: Rules, m: Headers, ext: HeaderExt, hashes: seq<Hash>, ghost p: seq<Hash>, ghost c: nat)
    returns (r: Result<HeaderExt>)
    requires AllIn(m, p) && 1 <= c <= |p| && hashes == p[c..]
    requires ext.mmr == p[..c] && ext.head == TipOf(m[p[c - 1]])
    ensures r.Ok? <==> AppendsFrom(rules, m, p, c)
    ensures r.Ok? ==> r.value == HeaderExt(p, TipOf(m[p[|p| - 1]]))
    ensures r.Err? ==> exists i :: c <= i < |p| && FailsAt(rules, m, p, c, i, r.error)
  {
    var e := ext;
    for i := 0 to |hashes|
      invariant e == HeaderExt(p[..c + i], TipOf(m[p[c + i - 1]]))
      invariant forall j :: c <= j < c + i ==> Appends(rules, m, p, j)
    {
      assert hashes[i] == p[c + i];
      var h := m[hashes[i]];
      if !rules.allowed(h) {
        assert !Appends(rules, m, p, c + i);
        assert FailsAt(rules, m, p, c, c + i, Denied);
        return Err(Denied);
      }
      var next := Push(rules, e, h);
      if next.Err? {
        assert !Appends(rules, m, p, c + i);
        assert FailsAt(rules, m, p, c, c + i, next.error);
        return Err(next.error);
      }
      assert p[..c + i] + [h.hash] == p[..c + i + 1];
      e := next.value;
    }
    assert p[..|p|] == p;
    return Ok(e);
  }

  // Puts the extension in the state that ends with `header`.  It succeeds exactly if every
  // header beyond the fork is allowed and commits to the MMR before it.
  method RewindAndApplyHeaderFork(rules: Rules, m: Headers, ghost g: Hash, ext: HeaderExt, header: Header)
    returns (r: Result<HeaderExt>)
    requires ExtAt(m, g, ext) && header.hash in m && m[header.hash] == header
    ensures r.Ok? <==> AppendsFrom(rules, m, Path(m, g, header.hash), Common(Path(m, g, header.hash), ext.mmr))
    ensures r.Ok? ==> r.value == HeaderExt(Path(m, g, header.hash), TipOf(header))
  {
    ghost var p := Path(m, g, header.hash);
    PathIn(m, g, header.hash);
    PathShape(m, g, header.hash);
    var forked, forkHashes := FindFork(m, g, ext, header, p);
    if forked.Err? { return Err(NoHeader); }
    var e := RewindTo(ext, forked.value);
    r := ApplyHeaders(rules, m, e, forkHashes, p, forked.value.height + 1);
  }

  // ----- one header -----

  // The header head is a stored header and the header MMR is the path to it.
  ghost predicate HeaderInv(db: HeaderDb, g: Hash, mmr: seq<Hash>) {
    ExtAt(db.headers, g, HeaderExt(mmr, db.headerHead))
  }

  // No stored header totals more work than the header head.
  ghost predicate HeadIsBest(db: HeaderDb) {
    forall k :: k in db.headers ==> db.headers[k].work <= db.headerHead.work
  }

  // The hash names no other header.
  ghost predicate Collides(m: Headers, h: Header) {
    h.hash in m && m[h.hash] != h
  }

  // The header is accepted without further processing: its block is known, or the header is
  // and would not become the head.
  predicate Skips(db: HeaderDb, head: Tip, blocks: set<Hash>, h: Header) {
    || CheckKnown(h, head, blocks).Err?
    || (&& h.prevHash in db.headers
        && h.hash in db.headers
        && !HasMoreWork(db.headers[h.hash], db.headerHead))
  }

  // The header passes validation, and the MMR can be brought to its parent and take it.
  ghost predicate Accepts(rules: Rules, db: HeaderDb, g: Hash, mmr: seq<Hash>, h: Header, skipPow: bool)
    requires WellFormed(db.headers, g)
  {
    && Passes(rules, db.headers, h, skipPow)
    && var p := Path(db.headers, g, h.prevHash);
    && AppendsFrom(rules, db.headers, p, Common(p, mmr))
    && rules.root(p) == h.prevRoot
  }

  lemma PathOfChild(m: Headers, g: Hash, h: Header)
    requires WellFormed(m, g) && !Collides(m, h)
    requires h.prevHash in m && h.height == m[h.prevHash].height + 1
    ensures WellFormed(m[h.hash := h], g)
    ensures Path(m[h.hash := h], g, h.hash) == Path(m, g, h.prevHash) + [h.hash]
  {
    Grows(m, g, h);
    PathKept(m, g, h, h.prevHash);
  }

  method ProcessBlockHeader(rules: Rules, db: HeaderDb, ghost g: Hash, mmr: seq<Hash>,
                            head: Tip, blocks: set<Hash>, h: Header, skipPow: bool)
    returns (r: Result<()>, db': HeaderDb, mmr': seq<Hash>)
    requires HeaderInv(db, g, mmr) && !Collides(db.headers, h)
    ensures r.Err? || Skips(db, head, blocks, h) ==> db' == db && mmr' == mmr
    ensures r.Ok? <==> Skips(db, head, blocks, h) || Accepts(rules, db, g, mmr, h, skipPow)
    ensures r.Ok? && !Skips(db, head, blocks, h) ==>
              && db'.headers == db.headers[h.hash := h]
              && db'.headerHead == (if HasMoreWork(h, db.headerHead) then TipOf(h) else db.headerHead)
              && mmr' == (if HasMoreWork(h, db.headerHead) then Path(db.headers, g, h.prevHash) + [h.hash] else mmr)
    ensures HeaderInv(db', g, mmr')
    ensures CheckKnown(h, head, blocks).Ok? && h.prevHash !in db.headers ==> r == Err(NoHeader)
    ensures var valid := ValidateHeader(rules, db.headers, h, skipPow);
      !Skips(db, head, blocks, h) && h.prevHash in db.headers && valid.Err? ==> r == valid
  {
    db', mmr' := db, mmr;
    if CheckKnown(h, head, blocks).Err? { return Ok(()), db', mmr'; }
    if h.prevHash !in db.headers { return Err(NoHeader), db', mmr'; }
    var prev := db.headers[h.prevHash];
    if h.hash in db.headers && !HasMoreWork(db.headers[h.hash], db.headerHead) {
      return Ok(()), db', mmr';
    }
    ValidateIs(rules, db.headers, h, skipPow);
    var valid := ValidateHeader(rules, db.headers, h, skipPow);
    if valid.Err? { return valid, db', mmr'; }

    // Within the header extension.
    PathShape(db.headers, g, db.headerHead.hash);
    var ext := HeaderExt(mmr, TipOf(db.headers[mmr[|mmr| - 1]]));
    var atPrev := RewindAndApplyHeaderFork(rules, db.headers, g, ext, prev);
    if atPrev.Err? { return Err(atPrev.error), db', mmr'; }
    var atHeader := Push(rules, atPrev.value, h);
    if atHeader.Err? { return Err(atHeader.error), db', mmr'; }

    PathOfChild(db.headers, g, h);
    PathKept(db.headers, g, h, db.headerHead.hash);
    db' := db'.(headers := db.headers[h.hash := h]);
    if HasMoreWork(h, db.headerHead) {
      mmr' := atHeader.value.mmr;
      db' := db'.(headerHead := TipOf(h));
    }
    return Ok(()), db', mmr';
  }

  // Every header but genesis is allowed, keeps the rules given its parent, and is later than it.
  ghost predicate Lawful(rules: Rules, m: Headers, g: Hash) {
    forall k {:trigger LawfulAt(rules, m, k)} :: k in m && k != g ==> LawfulAt(rules, m, k)
  }

  ghost predicate LawfulAt(rules: Rules, m: Headers, k: Hash)
    requires k in m
  {
    && rules.allowed(m[k]) && m[k].prevHash in m
    && m[k].timestamp > m[m[k].prevHash].timestamp && rules.header(m[k], m[m[k].prevHash])
  }

  lemma HeaderIsLawful(rules: Rules, m: Headers, g: Hash, h: Header)
    requires WellFormed(m, g) && Lawful(rules, m, g) && !Collides(m, h) && Obeys(rules, m, h)
    ensures Lawful(rules, m[h.hash := h], g)
  {
    var m' := m[h.hash := h];
    forall k | k in m' && k != g ensures LawfulAt(rules, m', k) {
      if k in m { assert LawfulAt(rules, m, k); }
    }
  }

  // Whether a header has the right work depends on the headers before it only.
  ghost predicate LocalTarget(rules: Rules, g: Hash) {
    forall m, m', h: Header {:trigger rules.target(m, h), rules.target(m', h)} ::
      && WellFormed(m, g) && WellFormed(m', g) && Climbs(m, g) && Climbs(m', g) && Within(m, m')
      && h.prevHash in m ==>
        (rules.target(m, h) <==> rules.target(m', h))
  }

  ghost predicate OnTarget(rules: Rules, m: Headers, g: Hash) {
    forall k {:trigger OnTargetAt(rules, m, k)} :: k in m && k != g ==> OnTargetAt(rules, m, k)
  }

  ghost predicate OnTargetAt(rules: Rules, m: Headers, k: Hash)
    requires k in m
  {
    rules.pow(m[k]) && rules.target(m, m[k])
  }

  // Proof of work holds, and along every path timestamps and work rise, the work as it should.
  ghost predicate Rises(rules: Rules, m: Headers, g: Hash) {
    LocalTarget(rules, g) && Climbs(m, g) && OnTarget(rules, m, g)
  }

  lemma MoreOnTarget(rules: Rules, m: Headers, g: Hash, h: Header)
    requires WellFormed(m, g) && Rises(rules, m, g) && h.hash !in m && Proven(rules, m, h)
    requires WellFormed(m[h.hash := h], g) && Climbs(m[h.hash := h], g)
    ensures OnTarget(rules, m[h.hash := h], g)
  {
    var m' := m[h.hash := h];
    forall k | k in m' && k != g ensures OnTargetAt(rules, m', k) {
      if k != h.hash {
        assert OnTargetAt(rules, m, k) && m[k].prevHash in m;
      }
      SameTarget(rules, m, m', g, m'[k]);
    }
  }

  lemma SameTarget(rules: Rules, m: Headers, m': Headers, g: Hash, h: Header)
    requires LocalTarget(rules, g) && h.prevHash in m && Within(m, m')
    requires WellFormed(m, g) && Climbs(m, g) && WellFormed(m', g) && Climbs(m', g)
    ensures rules.target(m, h) <==> rules.target(m', h)
  {
  }

  // A header that passed validation with proof of work lies above its parent in time and work.
  lemma HeaderRises(rules: Rules, m: Headers, g: Hash, h: Header)
    requires WellFormed(m, g) && Rises(rules, m, g) && !Collides(m, h)
    requires Passes(rules, m, h, false) && h.hash != m[g].prevHash
    ensures Rises(rules, m[h.hash := h], g)
  {
    if h.hash in m {
      assert m[h.hash := h] == m;
    } else {
      Grows(m, g, h);
      MoreOnTarget(rules, m, g, h);
    }
  }

  // ----- a chunk of headers -----

  function AddAll(m: Headers, hs: seq<Header>): Headers {
    if hs == [] then m
    else AddAll(m, hs[..|hs| - 1])[hs[|hs| - 1].hash := hs[|hs| - 1]]
  }

  // Every header is valid once those before it are stored.
  ghost predicate ChunkOk(rules: Rules, m: Headers, hs: seq<Header>, skipPow: bool) {
    hs == [] ||
    (&& ChunkOk(rules, m, hs[..|hs| - 1], skipPow)
     && Passes(rules, AddAll(m, hs[..|hs| - 1]), hs[|hs| - 1], skipPow))
  }

  ghost predicate ChunkCollides(m: Headers, hs: seq<Header>) {
    hs != [] &&
    (ChunkCollides(m, hs[..|hs| - 1]) || Collides(AddAll(m, hs[..|hs| - 1]), hs[|hs| - 1]))
  }

  lemma {:induction false} ChunkKeeps(rules: Rules, m: Headers, g: Hash, hs: seq<Header>, skipPow: bool, k: Hash)
    requires WellFormed(m, g) && k in m
    requires ChunkOk(rules, m, hs, skipPow) && !ChunkCollides(m, hs)
    ensures var m' := AddAll(m, hs);
      WellFormed(m', g) && k in m' && m'[k] == m[k] && Path(m', g, k) == Path(m, g, k)
  {
    if hs != [] {
      var init, h := hs[..|hs| - 1], hs[|hs| - 1];
      ChunkKeeps(rules, m, g, init, skipPow, k);
      PathOfChild(AddAll(m, init), g, h);
      PathKept(AddAll(m, init), g, h, k);
    }
  }

  lemma {:induction false} ChunkStores(m: Headers, hs: seq<Header>, k: Hash)
    requires !ChunkCollides(m, hs)
    ensures k in AddAll(m, hs) <==> k in m || exists i :: 0 <= i < |hs| && hs[i].hash == k
    ensures k in m ==> AddAll(m, hs)[k] == m[k]
    ensures forall i :: 0 <= i < |hs| && hs[i].hash == k ==> AddAll(m, hs)[k] == hs[i]
  {
    if hs != [] {
      var init, h := hs[..|hs| - 1], hs[|hs| - 1];
      ChunkStores(m, init, k);
      assert forall i :: 0 <= i < |init| ==> init[i] == hs[i];
      if k in AddAll(m, hs) && k !in m && k != h.hash {
        var i :| 0 <= i < |init| && init[i].hash == k;
        assert hs[i].hash == k;
      }
    }
  }

  lemma {:induction false} ChunkIsLawful(rules: Rules, m: Headers, g: Hash, hs: seq<Header>, skipPow: bool)
    requires WellFormed(m, g) && Lawful(rules, m, g) && ChunkOk(rules, m, hs, skipPow) && !ChunkCollides(m, hs)
    ensures Lawful(rules, AddAll(m, hs), g)
  {
    if hs != [] {
      var init, h := hs[..|hs| - 1], hs[|hs| - 1];
      ChunkIsLawful(rules, m, g, init, skipPow);
      ChunkKeeps(rules, m, g, init, skipPow, g);
      HeaderIsLawful(rules, AddAll(m, init), g, h);
    }
  }

  lemma {:induction false} ChunkRises(rules: Rules, m: Headers, g: Hash, hs: seq<Header>)
    requires WellFormed(m, g) && Rises(rules, m, g) && ChunkOk(rules, m, hs, false) && !ChunkCollides(m, hs)
    requires forall i :: 0 <= i < |hs| ==> hs[i].hash != m[g].prevHash
    ensures Rises(rules, AddAll(m, hs), g)
  {
    if hs != [] {
      var init, h := hs[..|hs| - 1], hs[|hs| - 1];
      assert forall i :: 0 <= i < |init| ==> init[i] == hs[i];
      ChunkRises(rules, m, g, init);
      ChunkKeeps(rules, m, g, init, false, g);
      HeaderRises(rules, AddAll(m, init), g, h);
    }
  }

  // The headers of a chunk can be saved one by one.
  method AddHeaders(rules: Rules, m: Headers, hs: seq<Header>, skipPow: bool) returns (r: Result<Headers>)
    ensures r.Ok? <==> ChunkOk(rules, m, hs, skipPow)
    ensures r.Ok? ==> r.value == AddAll(m, hs)
  {
    var added := m;
    for i := 0 to |hs|
      invariant ChunkOk(rules, m, hs[..i], skipPow) && added == AddAll(m, hs[..i])
    {
      assert hs[..i + 1][..i] == hs[..i];
      ValidateIs(rules, added, hs[i], skipPow);
      var valid := ValidateHeader(rules, added, hs[i], skipPow);
      if valid.Err? {
        ChunkPrefix(rules, m, hs, skipPow, i + 1);
        return Err(valid.error);
      }
      added := added[hs[i].hash := hs[i]];
    }
    assert hs[..|hs|] == hs;
    return Ok(added);
  }

  lemma {:induction false} ChunkPrefix(rules: Rules, m: Headers, hs: seq<Header>, skipPow: bool, i: nat)
    requires i <= |hs|
    ensures ChunkOk(rules, m, hs, skipPow) ==> ChunkOk(rules, m, hs[..i], skipPow)
  {
    if i == |hs| {
      assert hs[..i] == hs;
    } else {
      ChunkPrefix(rules, m, hs[..|hs| - 1], skipPow, i);
      assert hs[..|hs| - 1][..i] == hs[..i];
    }
  }

  // What the whole chunk must satisfy: valid headers, and an MMR that can be brought to the last.
  ghost predicate AcceptsChunk(rules: Rules, db: HeaderDb, g: Hash, mmr: seq<Hash>, hs: seq<Header>, skipPow: bool) {
    hs != [] ==>
      && ChunkOk(rules, db.headers, hs, skipPow)
      && var m := AddAll(db.headers, hs);
      && WellFormed(m, g)
      && var p := Path(m, g, hs[|hs| - 1].hash);
      AppendsFrom(rules, m, p, Common(p, mmr))
  }

  method ProcessBlockHeaders(rules: Rules, db: HeaderDb, ghost g: Hash, mmr: seq<Hash>,
                             hs: seq<Header>, syncHead: Tip, skipPow: bool)
    returns (r: Result<Option<Tip>>, db': HeaderDb, mmr': seq<Hash>)
    requires HeaderInv(db, g, mmr) && !ChunkCollides(db.headers, hs)
    ensures r.Err? || hs == [] ==> db' == db && mmr' == mmr
    ensures r.Ok? <==> AcceptsChunk(rules, db, g, mmr, hs, skipPow)
    ensures hs == [] ==> r == Ok(None)
    ensures r.Ok? && hs != [] ==>
              var last := hs[|hs| - 1];
              && db'.headers == AddAll(db.headers, hs) && WellFormed(db'.headers, g)
              && var p := Path(db'.headers, g, last.hash);
              && db'.headerHead == (if HasMoreWork(last, db.headerHead) then TipOf(last) else db.headerHead)
              && mmr' == (if HasMoreWork(last, db.headerHead) then p else mmr)
              && (r.value == Some(TipOf(last)) || r.value == None)
              && (r.value.None? <==> syncHead.height < |p| && p[syncHead.height] == syncHead.hash
                                     && !HasMoreWork(last, syncHead))
    ensures HeaderInv(db', g, mmr')
  {
    db', mmr' := db, mmr;
    if hs == [] { return Ok(None), db', mmr'; }
    var last := hs[|hs| - 1];
    var added := AddHeaders(rules, db.headers, hs, skipPow);
    if added.Err? { return Err(added.error), db', mmr'; }
    var m := added.value;
    ChunkKeeps(rules, db.headers, g, hs, skipPow, db.headerHead.hash);

    // Within the header extension.
    PathShape(db.headers, g, db.headerHead.hash);
    var ext := HeaderExt(mmr, TipOf(m[mmr[|mmr| - 1]]));
    var atLast := RewindAndApplyHeaderFork(rules, m, g, ext, last);
    if atLast.Err? { return Err(atLast.error), db', mmr'; }
    OnChainIs(m, g, atLast.value, syncHead.height, syncHead.hash);
    var altFork;
    match OnChain(atLast.value, m, syncHead.height, syncHead.hash) {
      case Err(e) => return Err(e), db', mmr';
      case Ok(on) => altFork := !on;
    }

    db' := db'.(headers := m);
    if HasMoreWork(last, db.headerHead) {
      db' := db'.(headerHead := TipOf(last));
      mmr' := atLast.value.mmr;
    }
    if altFork || HasMoreWork(last, syncHead) {
      return Ok(Some(TipOf(last))), db', mmr';
    } else {
      return Ok(None), db', mmr';
    }
  }

  // ----- is the header head the best stored header? -----

  function HeadAfter(db: HeaderDb, hs: seq<Header>): Tip
    requires hs != []
  {
    var last := hs[|hs| - 1];
    if HasMoreWork(last, db.headerHead) then TipOf(last) else db.headerHead
  }

  // No header of the chunk outweighs both its last header and the header head.
  ghost predicate LastIsHeaviest(db: HeaderDb, hs: seq<Header>)
    requires hs != []
  {
    forall i :: 0 <= i < |hs| ==> hs[i].work <= hs[|hs| - 1].work || hs[i].work <= db.headerHead.work
  }

  // Processing a chunk looks at its last header only, so the header head stays the best stored
  // header exactly if no other header of the chunk outweighs it.
  lemma ChunkKeepsBest(db: HeaderDb, hs: seq<Header>)
    requires HeadIsBest(db) && hs != [] && !ChunkCollides(db.headers, hs)
    ensures HeadAfter(db, hs).work >= db.headerHead.work
    ensures HeadIsBest(HeaderDb(AddAll(db.headers, hs), HeadAfter(db, hs))) <==> LastIsHeaviest(db, hs)
  {
    var m, head := AddAll(db.headers, hs), HeadAfter(db, hs);
    if LastIsHeaviest(db, hs) {
      forall k | k in m
        ensures m[k].work <= head.work
      {
        ChunkStores(db.headers, hs, k);
      }
    } else {
      var i :| 0 <= i < |hs| && hs[i].work > hs[|hs| - 1].work && hs[i].work > db.headerHead.work;
      ChunkStores(db.headers, hs, hs[i].hash);
    }
  }

  ghost predicate LinkedChunk(hs: seq<Header>) {
    forall i :: 0 < i < |hs| ==> hs[i].prevHash == hs[i - 1].hash
  }

  // A chunk whose headers follow one another, with proof of work checked, is such a chunk.
  lemma {:induction false} LinkedChunkIsHeaviest(rules: Rules, m: Headers, hs: seq<Header>)
    requires ChunkOk(rules, m, hs, false) && LinkedChunk(hs)
    ensures forall i :: 0 <= i < |hs| ==> hs[i].work <= hs[|hs| - 1].work
  {
    if |hs| > 1 {
      var init, h := hs[..|hs| - 1], hs[|hs| - 1];
      assert forall i :: 0 <= i < |init| ==> init[i] == hs[i];
      LinkedChunkIsHeaviest(rules, m, init);
      assert init[|init| - 1] == hs[|hs| - 2];
      assert AddAll(m, init)[h.prevHash] == init[|init| - 1];
    }
  }

  // Without the link it can fail: two siblings, the lighter one last.
  lemma UnlinkedChunkBreaksBest()
    ensures var g := Header(0, 0, 7, 1, 0, 0, 0, false);
      var heavy := Header(1, 1, 0, 9, 0, 1, 0, false);
      var light := Header(2, 1, 0, 5, 0, 1, 0, false);
      var rules := Rules(h => true, h => true, (h, p) => true, (m, h) => true, p => 0);
      var db := HeaderDb(map[0 := g], TipOf(g));
      && HeaderInv(db, 0, [0]) && HeadIsBest(db)
      && AcceptsChunk(rules, db, 0, [0], [heavy, light], false)
      && !HeadIsBest(HeaderDb(AddAll(db.headers, [heavy, light]), HeadAfter(db, [heavy, light])))
  {
    var g := Header(0, 0, 7, 1, 0, 0, 0, false);
    var heavy := Header(1, 1, 0, 9, 0, 1, 0, false);
    var light := Header(2, 1, 0, 5, 0, 1, 0, false);
    var hs := [heavy, light];
    var m0: Headers := map[0 := g];
    var rules := Rules(h => true, h => true, (h, p) => true, (m, h) => true, p => 0);
    ChunkPush(rules, m0, [], heavy, false);
    assert [] + [heavy] == [heavy];
    ChunkPush(rules, m0, [heavy], light, false);
    assert [heavy] + [light] == hs;
    var m := AddAll(m0, hs);
    assert m == m0[1 := heavy][2 := light];
    assert Path(m, 0, 0) == [0] && Path(m, 0, 2) == [0] + [2];
    assert Common([0] + [2], [0]) == 1 by { CommonOf([0] + [2], [0], 1); }
    assert m[1].work == 9;
  }

  lemma ChunkPush(rules: Rules, m: Headers, hs: seq<Header>, h: Header, skipPow: bool)
    ensures AddAll(m, hs + [h]) == AddAll(m, hs)[h.hash := h]
    ensures ChunkOk(rules, m, hs + [h], skipPow) <==>
              ChunkOk(rules, m, hs, skipPow) && Passes(rules, AddAll(m, hs), h, skipPow)
  {
    assert (hs + [h])[..|hs|] == hs;
  }
}
