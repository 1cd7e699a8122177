/**
 What the difficulty adjustment reads: the iterator back over the headers of a chain, and the
 padded window made of it.
 */
module DifficultyHistory {
  import opened Collections
  import opened Difficulty
  import opened HeaderTree

  const WINDOW: nat := DMA_WINDOW + 1
  const INITIAL_GRAPH_WEIGHT: nat := 1856

  // Headers that passed validation with proof of work.
  ghost predicate Accepted(m: Headers, g: Hash) {
    WellFormed(m, g) && Climbs(m, g)
  }

  // A header and its ancestors, newest first.
  ghost function Ancestry(m: Headers, g: Hash, k: Hash): seq<Hash>
    requires Accepted(m, g) && k in m
    decreases m[k].height
  {
    if k == g then [k] else [k] + Ancestry(m, g, m[k].prevHash)
  }

  function Before(m: Headers, k: Hash): nat
    requires k in m
  {
    if m[k].prevHash in m then m[m[k].prevHash].work else 0
  }

  ghost function InfoOf(m: Headers, g: Hash, k: Hash): Info
    requires Accepted(m, g) && k in m
  {
    assert k != g ==> m[k].prevHash in m;
    Info(m[k].timestamp, m[k].work - Before(m, k), m[k].scaling, m[k].isSecondary)
  }

  ghost function Infos(m: Headers, g: Hash, c: seq<Hash>): seq<Info>
    requires Accepted(m, g) && forall i :: 0 <= i < |c| ==> c[i] in m
  {
    seq(|c|, i requires 0 <= i < |c| => InfoOf(m, g, c[i]))
  }

  // Every hash is that of a stored header, followed by that of its parent, down to genesis.
  ghost predicate Linked(m: Headers, g: Hash, c: seq<Hash>) {
    && c != []
    && (forall i :: 0 <= i < |c| ==> c[i] in m)
    && (forall i {:trigger m[c[i]].prevHash} :: 0 <= i < |c| - 1 ==> c[i] != g && c[i + 1] == m[c[i]].prevHash)
    && c[|c| - 1] == g
  }

  lemma {:induction false} AncestryLinked(m: Headers, g: Hash, k: Hash)
    requires Accepted(m, g) && k in m
    ensures Linked(m, g, Ancestry(m, g, k)) && Ancestry(m, g, k)[0] == k
    decreases m[k].height
  {
    if k != g {
      AncestryLinked(m, g, m[k].prevHash);
      LinkMore(m, g, k, Ancestry(m, g, m[k].prevHash));
    }
  }

  // The ancestry is the path from genesis, backwards.
  lemma {:induction false} AncestryIsPath(m: Headers, g: Hash, k: Hash)
    requires Accepted(m, g) && k in m
    ensures Ancestry(m, g, k) == Rev(Path(m, g, k))
    decreases m[k].height
  {
    if k != g {
      var p := Path(m, g, m[k].prevHash);
      AncestryIsPath(m, g, m[k].prevHash);
      assert (p + [k])[..|p|] == p;
    }
  }

  lemma LinkMore(m: Headers, g: Hash, k: Hash, rest: seq<Hash>)
    requires Linked(m, g, rest) && k in m && k != g && m[k].prevHash == rest[0]
    ensures Linked(m, g, [k] + rest)
  {
    var c := [k] + rest;
    forall i | 0 <= i < |c| - 1 ensures c[i] != g && c[i + 1] == m[c[i]].prevHash {
      if i > 0 { assert c[i] == rest[i - 1] && m[rest[i - 1]].prevHash == rest[i]; }
    }
  }

  // The parent of a header of the ancestry is the next one, and weighs less.
  lemma NextLink(m: Headers, g: Hash, c: seq<Hash>, i: nat)
    requires Accepted(m, g) && Linked(m, g, c) && i < |c|
    ensures m[c[i]].prevHash in m <==> i + 1 < |c|
    ensures i + 1 < |c| ==> m[c[i]].prevHash == c[i + 1]
    ensures Before(m, c[i]) <= m[c[i]].work
  {
  }

  // ----- the iterator -----

  // The last header returned, and the one read ahead, after pos headers.
  ghost predicate Stands(m: Headers, c: seq<Hash>, pos: nat, header: Option<Header>, prevHeader: Option<Header>,
                         prevHash: Option<Hash>)
  {
    && pos <= |c|
    && if pos == 0 then header == None
       else
         && c[pos - 1] in m && header == Some(m[c[pos - 1]])
         && prevHash == Some(m[c[pos - 1]].prevHash)
         && if pos < |c| then c[pos] in m && prevHeader == Some(m[c[pos]]) && prevHash == Some(c[pos])
            else prevHeader == None
  }

  class DifficultyIter {
    const start: Hash
    const store: Headers
    ghost const g: Hash
    ghost const c: seq<Hash>  // the ancestry of start, empty if start is not stored
    var header: Option<Header>
    var prevHeader: Option<Header>
    var prevHash: Option<Hash>
    ghost var pos: nat        // headers returned since the last (re)start

    ghost predicate Valid()
      reads this
    {
      && Accepted(store, g)
      && (if start in store then Linked(store, g, c) && c[0] == start else c == [])
      && Stands(store, c, pos, header, prevHeader, prevHash)
    }

    constructor (start: Hash, store: Headers, ghost g: Hash)
      requires Accepted(store, g)
      ensures Valid() && pos == 0 && this.start == start && this.store == store && this.g == g
      ensures c == if start in store then Ancestry(store, g, start) else []
    {
      this.start, this.store, this.g := start, store, g;
      header, prevHeader, prevHash, pos := None, None, None, 0;
      c := if start in store then Ancestry(store, g, start) else [];
      if start in store { AncestryLinked(store, g, start); }
    }

    // The headers of the ancestry one after the other, then None, and then from the start again.
    method Next() returns (r: Option<(Hash, Info)>)
      requires Valid()
      modifies this
      ensures Valid()
      ensures if old(pos) < |c|
        then pos == old(pos) + 1 && r == Some((c[old(pos)], InfoOf(store, g, c[old(pos)])))
        else pos == 0 && r == None
    {
      var curHash := Some(start);
      var cur := if start in store then Some(store[start]) else None;
      if header.Some? { cur, curHash := prevHeader, prevHash; }
      header := cur;
      if header.None? {
        pos := 0;
        return None;
      }
      ghost var at := pos;
      r, prevHeader := ReadAhead(store, g, c, at, curHash.value, cur.value);
      prevHash, pos := Some(cur.value.prevHash), at + 1;
    }
  }

  // The difficulty of a header of the ancestry, and the header before it.
  method ReadAhead(store: Headers, ghost g: Hash, ghost c: seq<Hash>, ghost at: nat, hash: Hash, h: Header)
    returns (r: Option<(Hash, Info)>, prevHeader: Option<Header>)
    requires Accepted(store, g) && Linked(store, g, c) && at < |c| && hash == c[at] && h == store[c[at]]
    ensures r == Some((c[at], InfoOf(store, g, c[at])))
    ensures Stands(store, c, at + 1, Some(h), prevHeader, Some(h.prevHash))
  {
    NextLink(store, g, c, at);
    prevHeader := if h.prevHash in store then Some(store[h.prevHash]) else None;
    var prevWork := if prevHeader.Some? then prevHeader.value.work else 0;
    r := Some((hash, Info(h.timestamp, h.work - prevWork, h.scaling, h.isSecondary)));
  }

  // ----- sums and order along the ancestry -----

  // The difficulties of the n newest headers add up to the work done since the one before them.
  lemma {:induction false} Telescopes(m: Headers, g: Hash, c: seq<Hash>, n: nat)
    requires Accepted(m, g) && Linked(m, g, c) && n <= |c|
    ensures DiffSum(Infos(m, g, c)[..n]) == m[c[0]].work - (if n < |c| then m[c[n]].work else 0)
  {
    var infos := Infos(m, g, c);
    if n > 0 {
      Telescopes(m, g, c, n - 1);
      assert infos[..n][..n - 1] == infos[..n - 1];
      assert n < |c| ==> m[c[n - 1]].prevHash == c[n];
    }
  }

  ghost predicate Falling(infos: seq<Info>) {
    forall i :: 0 < i < |infos| ==> infos[i].timestamp <= infos[i - 1].timestamp
  }

  lemma InfosFalling(m: Headers, g: Hash, c: seq<Hash>)
    requires Accepted(m, g) && Linked(m, g, c)
    ensures Falling(Infos(m, g, c))
  {
    forall i | 0 < i < |c| ensures m[c[i]].timestamp <= m[c[i - 1]].timestamp {
      assert m[c[i - 1]].prevHash == c[i];
    }
  }

  // ----- the window -----

  // Simulated headers before the oldest one, each delta earlier than the one before it.
  function Pads(ts: nat, delta: nat, difficulty: nat, n: nat): (r: seq<Info>)
    ensures |r| == n
    decreases n
  {
    if n == 0 then []
    else
      var t := if ts >= delta then ts - delta else 0;
      [Info(t, difficulty, INITIAL_GRAPH_WEIGHT, true)] + Pads(t, delta, difficulty, n - 1)
  }

  // The i-th simulated header lies i + 1 times delta before the oldest one, but not before the epoch.
  lemma {:induction false} PadAt(ts: nat, delta: nat, difficulty: nat, n: nat, i: nat)
    requires i < n
    ensures Pads(ts, delta, difficulty, n)[i].timestamp == Max(0, ts - (i + 1) * delta)
    ensures var pad := Pads(ts, delta, difficulty, n)[i];
      pad.difficulty == difficulty && pad.scaling == INITIAL_GRAPH_WEIGHT && pad.isSecondary
    decreases n
  {
    if i > 0 {
      var t := if ts >= delta then ts - delta else 0;
      PadAt(t, delta, difficulty, n - 1, i - 1);
      Distribute(i, 1, delta);
    }
  }

  function Max(a: nat, b: int): nat {
    if b > a then b else a
  }

  lemma {:induction false} PadsFalling(ts: nat, delta: nat, difficulty: nat, n: nat)
    ensures Falling(Pads(ts, delta, difficulty, n))
    ensures n > 0 ==> Pads(ts, delta, difficulty, n)[0].timestamp <= ts
  {
    if n > 0 {
      var t := if ts >= delta then ts - delta else 0;
      PadsFalling(t, delta, difficulty, n - 1);
      FallingAppend([Info(t, difficulty, INITIAL_GRAPH_WEIGHT, true)], Pads(t, delta, difficulty, n - 1));
    }
  }

  lemma {:induction false} PadsSum(ts: nat, delta: nat, difficulty: nat, n: nat)
    ensures DiffSum(Pads(ts, delta, difficulty, n)) == n * difficulty
  {
    if n > 0 {
      var t := if ts >= delta then ts - delta else 0;
      var first := Info(t, difficulty, INITIAL_GRAPH_WEIGHT, true);
      PadsSum(t, delta, difficulty, n - 1);
      DiffSumAppend([first], Pads(t, delta, difficulty, n - 1));
      DiffSumOne(first);
      Distribute(n - 1, 1, difficulty);
    }
  }

  lemma DiffSumOne(x: Info)
    ensures DiffSum([x]) == x.difficulty
  {
    assert [x][..0] == [];
  }

  lemma {:induction false} DiffSumAppend(a: seq<Info>, b: seq<Info>)
    ensures DiffSum(a + b) == DiffSum(a) + DiffSum(b)
  {
    if b == [] {
      assert a + b == a;
    } else {
      DiffSumAppend(a, b[..|b| - 1]);
      assert (a + b)[..|a + b| - 1] == a + b[..|b| - 1];
    }
  }

  lemma {:induction false} RevSum(s: seq<Info>)
    ensures DiffSum(Rev(s)) == DiffSum(s)
  {
    if s != [] {
      RevSum(s[..|s| - 1]);
      DiffSumAppend([s[|s| - 1]], Rev(s[..|s| - 1]));
      DiffSumOne(s[|s| - 1]);
    }
  }

  // The newest headers, padded to the window size, newest first.
  function Padded(taken: seq<Info>): (r: seq<Info>)
    requires 0 < |taken| <= WINDOW
    ensures |r| == WINDOW
  {
    taken + Pads(taken[|taken| - 1].timestamp, Delta(taken), taken[0].difficulty, WINDOW - |taken|)
  }

  // The time between the two newest headers.
  function Delta(taken: seq<Info>): nat {
    if |taken| <= 1 then BLOCK_TIME_SEC
    else if taken[0].timestamp >= taken[1].timestamp then taken[0].timestamp - taken[1].timestamp
    else 0
  }

  // A minute if there is one header only.
  lemma DeltaIs(taken: seq<Info>)
    ensures |taken| <= 1 ==> Delta(taken) == 60
    ensures |taken| >= 2 && taken[0].timestamp >= taken[1].timestamp ==>
              Delta(taken) == taken[0].timestamp - taken[1].timestamp
  {
  }

  lemma PaddedFalling(taken: seq<Info>)
    requires 0 < |taken| <= WINDOW && Falling(taken)
    ensures Falling(Padded(taken))
  {
    var n := |taken|;
    PadsFalling(taken[n - 1].timestamp, Delta(taken), taken[0].difficulty, WINDOW - n);
    FallingAppend(taken, Pads(taken[n - 1].timestamp, Delta(taken), taken[0].difficulty, WINDOW - n));
  }

  lemma FallingAppend(a: seq<Info>, b: seq<Info>)
    requires Falling(a) && Falling(b) && a != [] && (b != [] ==> b[0].timestamp <= a[|a| - 1].timestamp)
    ensures Falling(a + b)
  {
    var s := a + b;
    forall i | 0 < i < |s| ensures s[i].timestamp <= s[i - 1].timestamp {
      if i < |a| { assert s[i] == a[i] && s[i - 1] == a[i - 1]; }
      else if i > |a| { assert s[i] == b[i - |a|] && s[i - 1] == b[i - |a| - 1]; }
      else { assert s[i] == b[0]; }
    }
  }

  // Timestamps never fall from the oldest entry to the newest.
  ghost predicate Rising(data: seq<Info>) {
    forall i :: 0 < i < |data| ==> data[i - 1].timestamp <= data[i].timestamp
  }

  lemma RevRising(s: seq<Info>)
    requires Falling(s)
    ensures Rising(Rev(s))
  {
    RevIs(s);
  }

  lemma {:induction false} RisingEnds(data: seq<Info>, i: nat)
    requires Rising(data) && i < |data|
    ensures data[0].timestamp <= data[i].timestamp
  {
    if i > 0 { RisingEnds(data, i - 1); }
  }

  function Newest(n: nat): nat {
    if n < WINDOW then n else WINDOW
  }

  // The newest headers of a chain, padded, oldest first.
  ghost function WindowOf(m: Headers, g: Hash, c: seq<Hash>): (data: seq<Info>)
    requires Accepted(m, g) && Linked(m, g, c)
    ensures |data| == WINDOW
  {
    Rev(Padded(Infos(m, g, c)[..Newest(|c|)]))
  }

  // Collects the newest headers, pads them with simulated ones, and puts the oldest first.
  method DifficultyDataToVector(it: DifficultyIter) returns (data: seq<Info>)
    requires it.Valid() && it.pos == 0 && it.start in it.store
    modifies it
    ensures it.Valid()
    ensures data == WindowOf(it.store, it.g, it.c) && Rising(data)
  {
    var last := Collect(it);
    InfosFalling(it.store, it.g, it.c);
    var padded := Pad(last);
    RevRising(padded);
    data := Rev(padded);
  }

  method Pad(last: seq<Info>) returns (r: seq<Info>)
    requires 0 < |last| <= WINDOW && Falling(last)
    ensures r == Padded(last) && Falling(r)
  {
    PaddedFalling(last);
    r := last;
    var n := |last|;
    if WINDOW > n {
      var delta := BLOCK_TIME_SEC;
      if n > 1 { delta := last[0].timestamp - last[1].timestamp; }
      var pads := MakePads(last[n - 1].timestamp, delta, last[0].difficulty, WINDOW - n);
      r := last + pads;
    }
  }

  lemma PrefixGrows(s: seq<Info>, a: seq<Info>, x: Info)
    requires a <= s && |a| < |s| && x == s[|a|]
    ensures a + [x] <= s
  {
  }

  // The first headers of the iterator, up to the window size.
  method Collect(it: DifficultyIter) returns (last: seq<Info>)
    requires it.Valid() && it.pos == 0 && it.start in it.store
    modifies it
    ensures it.Valid()
    ensures last == Infos(it.store, it.g, it.c)[..Newest(|it.c|)]
  {
    ghost var infos := Infos(it.store, it.g, it.c);
    last := [];
    while |last| < WINDOW
      invariant it.Valid() && it.pos == |last| <= WINDOW && last <= infos
      decreases WINDOW - |last|
    {
      ghost var n := |last|;
      var x := it.Next();
      if x.None? {
        assert n == |infos|;
        break;
      }
      PrefixGrows(infos, last, x.value.1);
      last := last + [x.value.1];
    }
  }

  // Simulated headers going back from a timestamp.
  method MakePads(ts: nat, delta: nat, difficulty: nat, n: nat) returns (pads: seq<Info>)
    ensures pads == Pads(ts, delta, difficulty, n)
  {
    pads := [];
    var lastTs: nat := ts;
    for i := 0 to n
      invariant pads + Pads(lastTs, delta, difficulty, n - i) == Pads(ts, delta, difficulty, n)
    {
      lastTs := if lastTs >= delta then lastTs - delta else 0;
      pads := pads + [Info(lastTs, difficulty, INITIAL_GRAPH_WEIGHT, true)];
    }
  }

  // ----- the next difficulty of a chain -----

  // The work of the window: what was done since its oldest header, which itself does not count;
  // simulated headers have the difficulty of the newest.
  ghost function WindowWork(m: Headers, g: Hash, c: seq<Hash>): nat
    requires Accepted(m, g) && Linked(m, g, c)
  {
    if |c| >= WINDOW then WorkSince(m, g, c, DMA_WINDOW)
    else m[c[0]].work + Times(DMA_WINDOW - |c|, InfoOf(m, g, c[0]).difficulty)
  }

  ghost function WorkSince(m: Headers, g: Hash, c: seq<Hash>, n: nat): nat
    requires Accepted(m, g) && Linked(m, g, c) && n < |c|
  {
    Telescopes(m, g, c, n);
    m[c[0]].work - m[c[n]].work
  }

  function Times(n: nat, d: nat): nat {
    MulNat(n, d);
    n * d
  }

  lemma {:induction false} PadsDifficulty(ts: nat, delta: nat, difficulty: nat, n: nat, i: nat)
    requires i < n
    ensures Pads(ts, delta, difficulty, n)[i].difficulty == difficulty
  {
    if i > 0 { PadsDifficulty(if ts >= delta then ts - delta else 0, delta, difficulty, n - 1, i - 1); }
  }

  lemma AllButLast(a: seq<Info>, b: seq<Info>, s: seq<Info>, d: nat, k: nat, n: nat)
    requires |b| == k + 1 && DiffSum(b) == Times(k, d) + d && b[k].difficulty == d && s == a + b && n == |a| + k
    ensures DiffSum(s[..n]) == DiffSum(a) + Times(k, d)
  {
    DiffSumAppend(a, b);
    assert s[..|s| - 1] == s[..n];
  }

  // All of the padded window but its oldest entry.
  lemma PaddedSum(taken: seq<Info>)
    requires 0 < |taken| < WINDOW
    ensures DiffSum(Padded(taken)[..DMA_WINDOW]) == DiffSum(taken) + Times(DMA_WINDOW - |taken|, taken[0].difficulty)
  {
    var k, ts, delta, d := DMA_WINDOW - |taken|, taken[|taken| - 1].timestamp, Delta(taken), taken[0].difficulty;
    var pads := Pads(ts, delta, d, k + 1);
    PadsAre(ts, delta, d, k, pads);
    AllButLast(taken, pads, Padded(taken), d, k, DMA_WINDOW);
  }

  lemma PadsAre(ts: nat, delta: nat, d: nat, k: nat, pads: seq<Info>)
    requires pads == Pads(ts, delta, d, k + 1)
    ensures |pads| == k + 1 && DiffSum(pads) == Times(k, d) + d && pads[k].difficulty == d
  {
    PadsSum(ts, delta, d, k + 1);
    PadsDifficulty(ts, delta, d, k + 1, k);
    Distribute(k, 1, d);
  }

  lemma NewestSum(m: Headers, g: Hash, c: seq<Hash>)
    requires Accepted(m, g) && Linked(m, g, c)
    ensures DiffSum(Padded(Infos(m, g, c)[..Newest(|c|)])[..DMA_WINDOW]) == WindowWork(m, g, c)
  {
    if |c| >= WINDOW { NewestOfFull(m, g, c); } else { NewestOfPadded(m, g, c); }
  }

  lemma NewestOfFull(m: Headers, g: Hash, c: seq<Hash>)
    requires Accepted(m, g) && Linked(m, g, c) && |c| >= WINDOW
    ensures DiffSum(Padded(Infos(m, g, c)[..WINDOW])[..DMA_WINDOW]) == WorkSince(m, g, c, DMA_WINDOW)
  {
    var infos := Infos(m, g, c);
    Telescopes(m, g, c, DMA_WINDOW);
    FullWindow(infos, infos[..WINDOW]);
  }

  lemma NewestOfPadded(m: Headers, g: Hash, c: seq<Hash>)
    requires Accepted(m, g) && Linked(m, g, c) && |c| < WINDOW
    ensures DiffSum(Padded(Infos(m, g, c)[..|c|])[..DMA_WINDOW])
            == m[c[0]].work + Times(DMA_WINDOW - |c|, InfoOf(m, g, c[0]).difficulty)
  {
    var infos := Infos(m, g, c);
    assert infos[..|c|] == infos;
    Telescopes(m, g, c, |c|);
    PaddedSum(infos);
  }

  lemma FullWindow(infos: seq<Info>, taken: seq<Info>)
    requires |infos| >= WINDOW && taken == infos[..WINDOW]
    ensures Padded(taken)[..DMA_WINDOW] == infos[..DMA_WINDOW]
  {
    assert Padded(taken) == taken;
  }

  lemma WindowSum(m: Headers, g: Hash, c: seq<Hash>)
    requires Accepted(m, g) && Linked(m, g, c)
    ensures DiffSum(WindowOf(m, g, c)[1..]) == WindowWork(m, g, c)
  {
    var p := Padded(Infos(m, g, c)[..Newest(|c|)]);
    NewestSum(m, g, c);
    assert Rev(p)[1..] == Rev(p[..DMA_WINDOW]);
    RevSum(p[..DMA_WINDOW]);
  }

  // A full window spans the time between its newest header and the one 60 before it.
  lemma WindowEnds(m: Headers, g: Hash, c: seq<Hash>)
    requires Accepted(m, g) && Linked(m, g, c) && |c| >= WINDOW
    ensures WindowOf(m, g, c)[DMA_WINDOW].timestamp == m[c[0]].timestamp
    ensures WindowOf(m, g, c)[0].timestamp == m[c[DMA_WINDOW]].timestamp
  {
    RevIs(Padded(Infos(m, g, c)[..Newest(|c|)]));
  }

  method SumDifficulty(data: seq<Info>) returns (sum: nat)
    ensures sum == DiffSum(data)
  {
    sum := 0;
    for i := 0 to |data|
      invariant sum == DiffSum(data[..i])
    {
      assert data[..i + 1][..i] == data[..i];
      sum := sum + data[i].difficulty;
    }
    assert data[..|data|] == data;
  }

  // The damped moving average in terms of the chain alone.
  ghost predicate IsDma(m: Headers, g: Hash, c: seq<Hash>, height: nat, difficulty: nat, scaling: nat)
    requires Accepted(m, g) && Linked(m, g, c)
  {
    DmaOf(WindowOf(m, g, c), WindowWork(m, g, c), height, difficulty, scaling)
  }

  // The damped moving average of a window with that much work.
  ghost predicate DmaOf(data: seq<Info>, work: nat, height: nat, difficulty: nat, scaling: nat)
    requires |data| == WINDOW
  {
    && data[0].timestamp <= data[DMA_WINDOW].timestamp
    && difficulty == DmaDifficulty(work, data[DMA_WINDOW].timestamp - data[0].timestamp)
    && scaling == SecondaryScaling(height, data[1..])
  }

  // The next difficulty by the damped moving average.
  method NextDmaDifficulty(height: nat, it: DifficultyIter) returns (difficulty: nat, scaling: nat)
    requires it.Valid() && it.pos == 0 && it.start in it.store
    modifies it
    ensures it.Valid()
    ensures IsDma(it.store, it.g, it.c, height, difficulty, scaling)
  {
    var data := DifficultyDataToVector(it);
    WindowSum(it.store, it.g, it.c);
    difficulty, scaling := DmaOfWindow(height, data);
  }

  method DmaOfWindow(height: nat, data: seq<Info>) returns (difficulty: nat, scaling: nat)
    requires |data| == WINDOW && Rising(data)
    ensures DmaOf(data, DiffSum(data[1..]), height, difficulty, scaling)
  {
    scaling := SecondaryScaling(height, data[1..]);
    RisingEnds(data, DMA_WINDOW);
    var span: nat := data[DMA_WINDOW].timestamp - data[0].timestamp;
    var sum := SumDifficulty(data[1..]);
    difficulty := DmaDifficulty(sum, span);
  }

  // The next difficulty by the weighted target, from the last two headers.
  method NextWtemaDifficulty(it: DifficultyIter, min: nat) returns (difficulty: nat)
    requires it.Valid() && it.pos == 0 && |it.c| >= 2
    modifies it
    ensures it.Valid()
    ensures var last, prev := it.store[it.c[0]], it.store[it.c[1]];
      && last.timestamp > prev.timestamp && last.work > prev.work
      && difficulty == Wtema(last.work - prev.work, last.timestamp - prev.timestamp, min)
  {
    assert it.store[it.c[0]].prevHash == it.c[1];
    var last := it.Next();
    var prev := it.Next();
    difficulty := Wtema(last.value.1.difficulty, last.value.1.timestamp - prev.value.1.timestamp, min);
  }
}
