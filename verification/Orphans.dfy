/**
 The orphan pool: blocks whose parent block is not known yet, by hash, with a second index from
 height to hashes.

 A hash names one header: `named` stands for that header, so that two blocks of one hash have one
 height.  The time is a parameter.
 */
module Orphans {
  import opened Collections
  import opened HeaderTree
  import opened HeaderPipe
  import opened BlockPipe

  const MAX_ORPHAN_SIZE: nat := 200
  const MAX_ORPHAN_AGE_SECS: nat := 300

  datatype Orphan<B> = Orphan(block: Block<B>, skipPow: bool, added: nat)

  type Live<B> = map<Hash, Orphan<B>>
  type Index = map<nat, seq<Hash>>

  function HeightOf<B>(o: Orphan<B>): nat {
    o.block.header.height
  }

  function Recent<B>(live: Live<B>, now: nat): Live<B> {
    map k | k in live && now - live[k].added < MAX_ORPHAN_AGE_SECS :: live[k]
  }

  function Below<B>(live: Live<B>, h: nat): Live<B> {
    map k | k in live && HeightOf(live[k]) < h :: live[k]
  }

  function Pushed(idx: Index, h: nat, k: Hash): Index {
    idx[h := (if h in idx then idx[h] else []) + [k]]
  }

  function ListAt(idx: Index, h: nat): seq<Hash> {
    if h in idx then idx[h] else []
  }

  // A hash goes to the end of the list of its height, all other lists stay.
  lemma PushedIs(idx: Index, h: nat, k: Hash, x: nat)
    ensures ListAt(Pushed(idx, h, k), x) == ListAt(idx, x) + (if x == h then [k] else [])
    ensures x in Pushed(idx, h, k) <==> x in idx || x == h
  {
    if x != h { assert ListAt(idx, x) + [] == ListAt(idx, x); }
  }

  // Every live orphan is stored under its hash and listed at its height, and what is listed at a
  // height, live or not, is of that height.
  ghost predicate Indexed<B>(live: Live<B>, idx: Index, named: Hash -> Header) {
    && (forall k :: k in live ==> Proper(live[k], k, named) && ListedAt(idx, HeightOf(live[k]), k))
    && (forall h, k {:trigger ListedAt(idx, h, k)} :: ListedAt(idx, h, k) ==> named(k).height == h)
  }

  predicate ListedAt(idx: Index, h: nat, k: Hash) {
    h in idx && k in idx[h]
  }

  ghost predicate Proper<B>(o: Orphan<B>, k: Hash, named: Hash -> Header) {
    o.block.header.hash == k && o.block.header == named(k)
  }

  predicate HasLive<B>(live: Live<B>, hs: seq<Hash>) {
    exists k :: k in hs && k in live
  }

  // Every listed height has a live orphan in its list.
  ghost predicate Needed<B>(live: Live<B>, idx: Index) {
    forall h {:trigger HasLive(live, idx[h])} :: h in idx ==> HasLive(live, idx[h])
  }

  // The live orphans among hs, in order, each once.
  function TakeAll<B>(live: Live<B>, hs: seq<Hash>): seq<Orphan<B>> {
    if hs == [] then []
    else if hs[0] in live then [live[hs[0]]] + TakeAll(live - {hs[0]}, hs[1..])
    else TakeAll(live, hs[1..])
  }

  function RemoveAll<B>(live: Live<B>, hs: seq<Hash>): Live<B> {
    if hs == [] then live else RemoveAll(live - {hs[0]}, hs[1..])
  }

  ghost predicate ByHash<B>(live: Live<B>) {
    forall k :: k in live ==> live[k].block.header.hash == k
  }

  // Exactly the live orphans listed ...
  lemma {:induction false} TakeAllHas<B>(live: Live<B>, hs: seq<Hash>, o: Orphan<B>)
    requires ByHash(live)
    ensures var k := o.block.header.hash;
      o in TakeAll(live, hs) <==> k in live && live[k] == o && k in hs
  {
    if hs != [] {
      TakeAllHas(if hs[0] in live then live - {hs[0]} else live, hs[1..], o);
    }
  }

  // ... none twice ...
  lemma {:induction false} TakeAllOnce<B>(live: Live<B>, hs: seq<Hash>, i: nat, j: nat)
    requires ByHash(live) && i < j < |TakeAll(live, hs)|
    ensures TakeAll(live, hs)[i].block.header.hash != TakeAll(live, hs)[j].block.header.hash
  {
    if hs[0] !in live {
      TakeAllOnce(live, hs[1..], i, j);
    } else if i > 0 {
      TakeAllOnce(live - {hs[0]}, hs[1..], i - 1, j - 1);
    } else {
      TakeAllHas(live - {hs[0]}, hs[1..], TakeAll(live, hs)[j]);
    }
  }

  // ... and what is left are the others.
  lemma {:induction false} TakeAllCount<B>(live: Live<B>, hs: seq<Hash>)
    ensures |RemoveAll(live, hs)| + |TakeAll(live, hs)| == |live|
  {
    if hs != [] {
      TakeAllCount(live - {hs[0]}, hs[1..]);
      OneLess(live, hs[0]);
    }
  }

  lemma OneLess<B>(live: Live<B>, k: Hash)
    ensures |live - {k}| + (if k in live then 1 else 0) == |live|
    ensures k !in live ==> live - {k} == live
  {
    if k in live {
      assert live == (live - {k})[k := live[k]];
    } else {
      assert live - {k} == live;
    }
  }

  lemma {:induction false} RemoveAllIs<B>(live: Live<B>, hs: seq<Hash>, k: Hash)
    ensures k in RemoveAll(live, hs) <==> k in live && k !in hs
    ensures k in RemoveAll(live, hs) ==> RemoveAll(live, hs)[k] == live[k]
  {
    if hs != [] { RemoveAllIs(live - {hs[0]}, hs[1..], k); }
  }

  lemma {:induction false} HasMax(s: set<nat>) returns (top: nat)
    requires s != {}
    ensures top in s && forall k :: k in s ==> k <= top
  {
    var x :| x in s;
    top := x;
    if s != {x} {
      var h := HasMax(s - {x});
      top := if x <= h then h else x;
      assert forall k :: k in s ==> k == x || k in s - {x};
    }
  }

  // ----- adding -----

  // From this height on, every listed height has too many recent orphans below it.
  ghost predicate TooMany<B>(recent: Live<B>, idx: Index, cut: nat) {
    forall h :: h in idx && h >= cut ==> |Below(recent, h)| >= MAX_ORPHAN_SIZE
  }

  // Where eviction cuts: the highest listed height with less than the maximum of recent orphans below it.
  ghost predicate IsCut<B>(recent: Live<B>, idx: Index, cut: nat) {
    cut in idx && |Below(recent, cut)| < MAX_ORPHAN_SIZE && TooMany(recent, idx, cut + 1)
  }

  // The index below a height.
  function IndexBelow(idx: Index, h: nat): Index {
    map x | x in idx && x < h :: idx[x]
  }

  // Removing the hashes listed at the highest height left takes away the orphans of that height.
  lemma CutStep<B>(recent: Live<B>, full: Index, named: Hash -> Header, cut: nat, h: nat)
    requires Indexed(recent, full, named)
    requires h in full && h < cut && forall x :: x in full && x < cut ==> x <= h
    ensures RemoveAll(Below(recent, cut), full[h]) == Below(recent, h)
  {
    var l, r := RemoveAll(Below(recent, cut), full[h]), Below(recent, h);
    forall k
      ensures k in l <==> k in r
      ensures k in l ==> l[k] == r[k]
    {
      RemoveAllIs(Below(recent, cut), full[h], k);
      assert k in full[h] ==> ListedAt(full, h, k);
    }
  }

  // The pool and its index, cut at some height above which there were too many.
  ghost predicate CutAt<B>(recent: Live<B>, full: Index, cut: nat, live: Live<B>, idx: Index) {
    live == Below(recent, cut) && idx == IndexBelow(full, cut) && TooMany(recent, full, cut)
  }

  // One round of eviction.
  lemma EvictStep<B>(recent: Live<B>, full: Index, named: Hash -> Header, cut: nat, live: Live<B>, idx: Index, h: nat)
    requires Indexed(recent, full, named) && CutAt(recent, full, cut, live, idx)
    requires h in idx && forall x :: x in idx.Keys ==> x <= h
    ensures h in full && RemoveAll(live, idx[h]) == Below(recent, h) && idx - {h} == IndexBelow(full, h)
    ensures TooMany(recent, full, h + 1)
    ensures |Below(recent, h)| < MAX_ORPHAN_SIZE ==> IsCut(recent, full, h)
    ensures |Below(recent, h)| >= MAX_ORPHAN_SIZE ==> TooMany(recent, full, h) && IndexBelow(full, h) != map[]
  {
    IndexStep(full, cut, h);
    CutStep(recent, full, named, cut, h);
    TooManyStep(recent, full, cut, h);
    if |Below(recent, h)| >= MAX_ORPHAN_SIZE { SomeListed(recent, full, named, h); }
  }

  lemma IndexStep(full: Index, cut: nat, h: nat)
    requires h in IndexBelow(full, cut) && forall x :: x in IndexBelow(full, cut).Keys ==> x <= h
    ensures forall x :: x in full && x < cut ==> x <= h
    ensures IndexBelow(full, cut) - {h} == IndexBelow(full, h)
  {
    assert forall x :: x in full && x < cut ==> x in IndexBelow(full, cut).Keys;
  }

  lemma TooManyStep<B>(recent: Live<B>, full: Index, cut: nat, h: nat)
    requires TooMany(recent, full, cut) && forall x :: x in full && x < cut ==> x <= h
    ensures TooMany(recent, full, h + 1)
    ensures |Below(recent, h)| >= MAX_ORPHAN_SIZE ==> TooMany(recent, full, h)
  {
  }

  lemma SomeListed<B>(recent: Live<B>, full: Index, named: Hash -> Header, h: nat)
    requires Indexed(recent, full, named) && |Below(recent, h)| > 0
    ensures IndexBelow(full, h) != map[]
  {
    var k :| k in Below(recent, h);
    assert HeightOf(recent[k]) in IndexBelow(full, h);
  }

  lemma Uncut<B>(recent: Live<B>, full: Index, named: Hash -> Header) returns (cut: nat)
    requires Indexed(recent, full, named) && full != map[]
    ensures CutAt(recent, full, cut, recent, full)
  {
    var top := HasMax(full.Keys);
    cut := top + 1;
  }

  // Evicts the orphans too far ahead, the highest listed height first, until the pool is small enough.
  method EvictFar<B>(recent: Live<B>, full: Index, ghost named: Hash -> Header)
    returns (live: Live<B>, idx: Index, ghost cut: nat)
    requires Indexed(recent, full, named) && full != map[]
    ensures IsCut(recent, full, cut) && live == Below(recent, cut) && idx == IndexBelow(full, cut)
  {
    live, idx := recent, full;
    cut := Uncut(recent, full, named);
    while idx != map[]
      invariant CutAt(recent, full, cut, live, idx) && idx != map[]
      decreases |idx|
    {
      ghost var top := HasMax(idx.Keys);
      var h :| h in idx && forall x :: x in idx.Keys ==> x <= h;
      EvictStep(recent, full, named, cut, live, idx, h);
      live := RemoveAll(live, idx[h]);
      idx := idx - {h};
      cut := h;
      if |live| < MAX_ORPHAN_SIZE { break; }
    }
  }

  // What the cleanup leaves of the index.
  function Cleaned<B>(idx: Index, live: Live<B>): Index {
    map h | h in idx && HasLive(live, idx[h]) :: idx[h]
  }

  lemma CleanedIs<B>(recent: Live<B>, full: Index, named: Hash -> Header, cut: nat)
    requires Indexed(recent, full, named)
    ensures var live, idx := Below(recent, cut), Cleaned(IndexBelow(full, cut), Below(recent, cut));
      Indexed(live, idx, named) && Needed(live, idx)
  {
    var live, idx := Below(recent, cut), Cleaned(IndexBelow(full, cut), Below(recent, cut));
    assert forall h, k :: ListedAt(idx, h, k) ==> ListedAt(full, h, k);
  }

  lemma RecentIndexed<B>(live: Live<B>, now: nat, idx: Index, named: Hash -> Header)
    requires Indexed(live, idx, named)
    ensures Indexed(Recent(live, now), idx, named)
  {
  }

  lemma PushedIndexed<B>(live: Live<B>, idx: Index, named: Hash -> Header, k: Hash, o: Orphan<B>)
    requires Indexed(live, idx, named) && Needed(live, idx) && Proper(o, k, named)
    ensures Indexed(live[k := o], Pushed(idx, HeightOf(o), k), named)
    ensures Needed(live[k := o], Pushed(idx, HeightOf(o), k))
  {
    var live', idx' := live[k := o], Pushed(idx, HeightOf(o), k);
    forall x, h | ListedAt(idx', h, x) ensures named(x).height == h {
      assert ListedAt(idx, h, x) || (x == k && h == HeightOf(o));
    }
    forall x | x in live' ensures Proper(live'[x], x, named) && ListedAt(idx', HeightOf(live'[x]), x) {
      if x != k { assert ListedAt(idx, HeightOf(live[x]), x); }
    }
    forall h | h in idx' ensures HasLive(live', idx'[h]) {
      if h == HeightOf(o) {
        assert k in idx'[h];
      } else {
        assert HasLive(live, idx[h]);
      }
    }
  }

  // The pool after an insertion that led to live and idx: if it is now too large, the recent
  // orphans below the cut are left.
  ghost predicate Added<B>(live: Live<B>, idx: Index, now: nat, live': Live<B>, idx': Index) {
    if |live| <= MAX_ORPHAN_SIZE then live' == live && idx' == idx
    else exists cut ::
      && IsCut(Recent(live, now), idx, cut)
      && live' == Below(Recent(live, now), cut)
      && idx' == Cleaned(IndexBelow(idx, cut), live')
  }

  // The orphans less than 300 seconds old below a height.
  ghost function YoungBelow<B>(live: Live<B>, now: nat, h: nat): set<Hash> {
    set k | k in live && now - live[k].added < 300 && live[k].block.header.height < h
  }

  // The orphans left of a pool with too many: those less than 300 seconds old below a height, and
  // nothing else.  That height is the highest one listed with fewer than 200 of them below it, so
  // the pool could not have been cut higher.
  ghost predicate Kept<B>(live: Live<B>, idx: Index, now: nat, cut: nat, live': Live<B>) {
    && live'.Keys == YoungBelow(live, now, cut) && (forall k :: k in live' ==> live'[k] == live[k])
    && cut in idx && |YoungBelow(live, now, cut)| < 200
    && (forall h :: h in idx && h > cut ==> |YoungBelow(live, now, h)| >= 200)
  }

  // The lists below the height that still name a live orphan, unchanged.
  ghost predicate Relisted<B>(idx: Index, cut: nat, live': Live<B>, idx': Index) {
    && (forall h :: h in idx' <==> h in idx && h < cut && exists k :: k in idx[h] && k in live')
    && (forall h :: h in idx' ==> idx'[h] == idx[h])
  }

  // A pool of up to 200 orphans is left alone.
  ghost predicate Trimmed<B>(live: Live<B>, idx: Index, now: nat, live': Live<B>, idx': Index) {
    if |live| <= 200 then live' == live && idx' == idx
    else exists cut: nat :: Kept(live, idx, now, cut, live') && Relisted(idx, cut, live', idx')
  }

  lemma YoungIs<B>(live: Live<B>, now: nat, h: nat)
    ensures Below(Recent(live, now), h).Keys == YoungBelow(live, now, h)
    ensures |Below(Recent(live, now), h)| == |YoungBelow(live, now, h)|
  {
    assert Below(Recent(live, now), h).Keys == YoungBelow(live, now, h);
  }

  lemma KeptIs<B>(live: Live<B>, idx: Index, now: nat, cut: nat, live': Live<B>)
    requires IsCut(Recent(live, now), idx, cut) && live' == Below(Recent(live, now), cut)
    ensures Kept(live, idx, now, cut, live')
  {
    YoungIs(live, now, cut);
    forall h | h in idx && h > cut ensures |YoungBelow(live, now, h)| >= 200 {
      YoungIs(live, now, h);
    }
  }

  lemma RelistedIs<B>(idx: Index, cut: nat, live': Live<B>)
    ensures Relisted(idx, cut, live', Cleaned(IndexBelow(idx, cut), live'))
  {
    var idx' := Cleaned(IndexBelow(idx, cut), live');
    forall h | h in idx ensures h in idx' <==> h < cut && exists k :: k in idx[h] && k in live' {
      assert HasLive(live', idx[h]) <==> exists k :: k in idx[h] && k in live';
    }
  }

  lemma AddedIs<B>(live: Live<B>, idx: Index, now: nat, live': Live<B>, idx': Index)
    requires Added(live, idx, now, live', idx')
    ensures Trimmed(live, idx, now, live', idx')
  {
    if |live| > MAX_ORPHAN_SIZE {
      var cut: nat :| IsCut(Recent(live, now), idx, cut) && live' == Below(Recent(live, now), cut) &&
                      idx' == Cleaned(IndexBelow(idx, cut), live');
      KeptIs(live, idx, now, cut, live');
      RelistedIs(idx, cut, live');
    }
  }

  // Brings a pool that has grown too large back to size.
  method Shrink<B>(live: Live<B>, idx: Index, now: nat, ghost named: Hash -> Header)
    returns (live': Live<B>, idx': Index)
    requires Indexed(live, idx, named) && Needed(live, idx) && idx != map[]
    ensures Added(live, idx, now, live', idx') && Trimmed(live, idx, now, live', idx')
    ensures Indexed(live', idx', named) && Needed(live', idx') && |live'| <= MAX_ORPHAN_SIZE && |live'| <= |live|
  {
    live', idx' := live, idx;
    if |live| > MAX_ORPHAN_SIZE {
      RecentIndexed(live, now, idx, named);
      ghost var recent := Recent(live, now);
      live' := Recent(live, now);
      ghost var cut;
      live', idx', cut := EvictFar(live', idx, named);
      CleanedIs(recent, idx, named, cut);
      idx' := Cleaned(idx', live');
      AddedIs(live, idx, now, live', idx');
    }
  }

  function Count<B>(live: Live<B>): nat {
    |live|
  }

  // f counts the orphans.
  ghost predicate IsCount<B(!new)>(f: Live<B> -> nat) {
    forall live {:trigger Count(live)} :: f(live) == Count(live)
  }

  // What the counters need to know of an addition ...
  lemma CountAdded<B(!new)>(f: Live<B> -> nat, live: Live<B>, k: Hash, o: Orphan<B>, live': Live<B>)
    requires IsCount(f)
    ensures f(live') == |live'| && |live[k := o]| == f(live) + (if k in live then 0 else 1)
  {
    assert f(live) == Count(live) && f(live') == Count(live');
    if k in live {
      assert live[k := o].Keys == live.Keys;
    } else {
      assert live[k := o].Keys == live.Keys + {k};
    }
  }

  // ... and of a removal.
  lemma CountTaken<B(!new)>(f: Live<B> -> nat, live: Live<B>, hs: seq<Hash>)
    requires IsCount(f)
    ensures f(RemoveAll(live, hs)) + |TakeAll(live, hs)| == f(live)
  {
    TakeAllCount(live, hs);
    assert f(live) == Count(live) && f(RemoveAll(live, hs)) == Count(RemoveAll(live, hs));
  }

  // An addition to a pool: how many orphans it gains, none or one, and how many are evicted.
  method Insert<B(!new)>(live: Live<B>, idx: Index, orphan: Orphan<B>, k: Hash, now: nat,
                         ghost named: Hash -> Header, ghost f: Live<B> -> nat)
    returns (live': Live<B>, idx': Index, gained: nat, lost: nat)
    requires Indexed(live, idx, named) && Needed(live, idx) && Proper(orphan, k, named) && IsCount(f)
    ensures Added(live[k := orphan], Pushed(idx, HeightOf(orphan), k), now, live', idx')
    ensures Trimmed(live[k := orphan], Pushed(idx, HeightOf(orphan), k), now, live', idx')
    ensures Indexed(live', idx', named) && Needed(live', idx') && f(live') <= MAX_ORPHAN_SIZE
    ensures gained == (if k in live then 0 else 1) && lost == |live[k := orphan]| - |live'|
    ensures f(live) + gained == f(live') + lost
  {
    PushedIndexed(live, idx, named, k, orphan);
    live', idx' := Shrink(live[k := orphan], Pushed(idx, HeightOf(orphan), k), now, named);
    CountAdded(f, live, k, orphan, live');
    gained, lost := if k in live then 0 else 1, |live[k := orphan]| - |live'|;
  }

  class OrphanBlockPool<B(!new)> {
    var orphans: Live<B>
    var heightIdx: Index
    var evicted: nat
    ghost const named: Hash -> Header
    ghost const count: Live<B> -> nat
    ghost var inserted: nat  // orphans added so far
    ghost var taken: nat     // orphans handed out so far

    // Both indexes agree, the size is bounded, and every orphan ever added is live, was handed
    // out, or is counted as evicted.
    ghost predicate Valid()
      reads this
    {
      && Indexed(orphans, heightIdx, named) && Needed(orphans, heightIdx)
      && IsCount(count) && count(orphans) <= MAX_ORPHAN_SIZE
      && inserted == count(orphans) + taken + evicted
    }

    constructor (ghost named: Hash -> Header)
      ensures Valid() && fresh(this) && this.named == named
      ensures orphans == map[] && heightIdx == map[] && evicted == 0 && inserted == 0 && taken == 0
    {
      orphans, heightIdx, evicted := map[], map[], 0;
      this.named, inserted, taken := named, 0, 0;
      count := live => Count(live);
      new;
      assert Count(orphans) == 0;
    }

    method Add(orphan: Orphan<B>, now: nat)
      requires Valid() && orphan.block.header == named(orphan.block.header.hash)
      modifies this
      ensures Valid()
      ensures var k := orphan.block.header.hash;
        && Added(old(orphans)[k := orphan], Pushed(old(heightIdx), HeightOf(orphan), k), now, orphans, heightIdx)
        && Trimmed(old(orphans)[k := orphan], Pushed(old(heightIdx), HeightOf(orphan), k), now, orphans, heightIdx)
        && evicted == old(evicted) + |old(orphans)[k := orphan]| - |orphans|
        && inserted == old(inserted) + (if k in old(orphans) then 0 else 1) && taken == old(taken)
    {
      var k := orphan.block.header.hash;
      var live', idx', gained, lost := Insert(orphans, heightIdx, orphan, k, now, named, count);
      orphans, heightIdx, evicted, inserted := live', idx', evicted + lost, inserted + gained;
    }

    // Hands out the orphans of a height.  None if the height is not listed.
    method RemoveByHeight(height: nat) returns (r: Option<seq<Orphan<B>>>)
      requires Valid()
      modifies this
      ensures Valid()
      ensures r == (if height in old(heightIdx) then Some(TakeAll(old(orphans), old(heightIdx)[height])) else None)
      ensures heightIdx == old(heightIdx) - {height}
      ensures height in old(heightIdx) ==> orphans == Others(old(orphans), height)
      ensures height !in old(heightIdx) ==> orphans == old(orphans)
      ensures evicted == old(evicted) && inserted == old(inserted)
      ensures r.Some? ==> count(orphans) + |r.value| == count(old(orphans))
    {
      if height !in heightIdx {
        assert heightIdx == heightIdx - {height};
        return None;
      }
      var hs := heightIdx[height];
      RemovedIndexed(orphans, heightIdx, named, height);
      CountTaken(count, orphans, hs);
      var found, left := TakeAll(orphans, hs), RemoveAll(orphans, hs);
      taken := taken + |found|;
      orphans, heightIdx := left, heightIdx - {height};
      return Some(found);
    }
  }

  function Others<B>(live: Live<B>, height: nat): Live<B> {
    map k | k in live && HeightOf(live[k]) != height :: live[k]
  }

  lemma RemovedIndexed<B>(live: Live<B>, idx: Index, named: Hash -> Header, height: nat)
    requires Indexed(live, idx, named) && Needed(live, idx) && height in idx
    ensures RemoveAll(live, idx[height]) == Others(live, height)
    ensures Indexed(Others(live, height), idx - {height}, named) && Needed(Others(live, height), idx - {height})
  {
    var l, r, idx' := RemoveAll(live, idx[height]), Others(live, height), idx - {height};
    forall k
      ensures k in l <==> k in r
      ensures k in l ==> l[k] == r[k]
    {
      RemoveAllIs(live, idx[height], k);
      assert k in idx[height] ==> ListedAt(idx, height, k);
    }
    assert forall h, k :: ListedAt(idx', h, k) ==> ListedAt(idx, h, k);
    forall h | h in idx' ensures HasLive(r, idx'[h]) {
      assert HasLive(live, idx[h]);
      var k :| k in idx[h] && k in live;
      assert ListedAt(idx, h, k);
    }
  }

  // What is handed out are the live orphans of the height, each once.
  lemma HandedOut<B>(live: Live<B>, idx: Index, named: Hash -> Header, height: nat)
    requires Indexed(live, idx, named) && height in idx
    ensures var found := TakeAll(live, idx[height]);
      && (forall k :: k in live && HeightOf(live[k]) == height ==> live[k] in found)
      && (forall o :: o in found ==>
            HeightOf(o) == height && o.block.header.hash in live && live[o.block.header.hash] == o)
      && (forall i, j :: 0 <= i < j < |found| ==> found[i].block.header.hash != found[j].block.header.hash)
  {
    var found := TakeAll(live, idx[height]);
    forall k | k in live && HeightOf(live[k]) == height ensures live[k] in found {
      TakeAllHas(live, idx[height], live[k]);
    }
    forall o | o in found
      ensures HeightOf(o) == height && o.block.header.hash in live && live[o.block.header.hash] == o
    {
      TakeAllHas(live, idx[height], o);
      assert ListedAt(idx, height, o.block.header.hash);
    }
    forall i, j | 0 <= i < j < |found| ensures found[i].block.header.hash != found[j].block.header.hash {
      TakeAllOnce(live, idx[height], i, j);
    }
  }
}
