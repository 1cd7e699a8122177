/**
 What the order by buckets guarantees.
 */
module BucketOrder {
  import opened Collections
  import opened Transactions
  import opened Buckets

  // ----- aggregation and fee rates -----

  lemma UnionSize<T>(a: set<T>, b: set<T>)
    ensures |a + b| <= |a| + |b|
  {
    assert a + b == a + (b - a);
    Subset(b - a, b);
  }

  // Cut-through never adds weight, and fees add up.
  lemma AggregateWeight(raw: seq<Tx>, t: Tx, a: Tx, b: Tx)
    requires raw != [] && Aggregate(raw) == Some(a) && Aggregate(raw + [t]) == Some(b)
    ensures Weight(b) <= Weight(a) + Weight(t) && b.fee == a.fee + t.fee
  {
    AggregateTotals(raw);
    AggregateTotals(raw + [t]);
    Append(raw, [t]);
    assert [t][..0] == [] && [a][..0] == [] && [b][..0] == [];
    forall c | c in b.inputs ensures c in a.inputs + t.inputs { NetOne(raw, t, a, b, c); }
    forall c | c in b.outputs ensures c in a.outputs + t.outputs { NetOne(raw, t, a, b, c); }
    Subset(b.inputs, a.inputs + t.inputs);
    Subset(b.outputs, a.outputs + t.outputs);
    UnionSize(a.inputs, t.inputs);
    UnionSize(a.outputs, t.outputs);
    assert b.kernels == a.kernels + t.kernels;
  }

  lemma NetOne(raw: seq<Tx>, t: Tx, a: Tx, b: Tx, c: Commit)
    requires raw != [] && Aggregate(raw) == Some(a) && Aggregate(raw + [t]) == Some(b)
    ensures c in b.inputs ==> c in a.inputs + t.inputs
    ensures c in b.outputs ==> c in a.outputs + t.outputs
  {
    assert (raw + [t])[..|raw|] == raw;
    AggregateTotals(raw);
    assert [a][..0] == [];
    assert Net([a], c) == Net(raw, c);
  }

  // If neither part is below rate r, neither is the whole.
  lemma Mediant(f: nat, w: nat, g: nat, v: nat, u: nat, r: nat)
    requires w > 0 && v > 0 && 0 < u <= w + v
    requires Quotient(f, w) >= r && Quotient(g, v) >= r
    ensures Quotient(f + g, u) >= r
  {
    AtLeast(f, w, r);
    AtLeast(g, v, r);
    Scaled(r, w, v, u);
    AtLeast(f + g, u, r);
  }

  lemma AtLeast(x: nat, d: nat, r: nat)
    requires d > 0
    ensures Quotient(x, d) >= r <==> x >= r * d
  {
    var q := x / d;
    assert q * d <= x < q * d + d;
    if q >= r { Grow(r, q, d); } else { Grow(q + 1, r, d); assert (q + 1) * d == q * d + d; }
  }

  lemma Grow(a: nat, b: nat, d: nat)
    requires a <= b
    ensures a * d <= b * d
  {
  }

  lemma Scaled(r: nat, w: nat, v: nat, u: nat)
    requires u <= w + v
    ensures r * u <= r * w + r * v
  {
    assert r * w + r * v == r * (w + v);
    Grow2(u, w + v, r);
  }

  lemma Grow2(a: nat, b: nat, d: nat)
    requires a <= b
    ensures d * a <= d * b
  {
  }

  // A transaction that would lower the rate of a bucket has a rate below the bucket's.
  lemma SplitIsLower(raw: seq<Tx>, t: Tx, a: Tx, b: Tx)
    requires raw != [] && Aggregate(raw) == Some(a) && Aggregate(raw + [t]) == Some(b)
    requires Proper(a) && Proper(b) && Proper(t) && FeeRate(b) < FeeRate(a)
    ensures FeeRate(t) < FeeRate(a)
  {
    AggregateWeight(raw, t, a, b);
    if FeeRate(t) >= FeeRate(a) {
      Mediant(a.fee, Weight(a), t.fee, Weight(t), Weight(b), FeeRate(a));
    }
  }

  // ----- what the run keeps -----

  // The entries placed in the bucket at p, in order.
  ghost function Members(entries: seq<Tx>, fates: seq<Fate>, p: nat): seq<Tx>
    requires |fates| <= |entries|
  {
    if fates == [] then []
    else
      var n := |fates| - 1;
      Members(entries, fates[..n], p) + (if !fates[n].Rejected? && fates[n].pos == p then [entries[n]] else [])
  }

  lemma MembersPush(entries: seq<Tx>, fates: seq<Fate>, f: Fate, p: nat)
    requires |fates| < |entries|
    ensures Members(entries, fates + [f], p) ==
            Members(entries, fates, p) + (if !f.Rejected? && f.pos == p then [entries[|fates|]] else [])
  {
    assert (fates + [f])[..|fates|] == fates;
  }

  // Each bucket knows its position and the fee rate of its aggregate.
  ghost predicate Shaped(b: Bucket, p: nat) {
    && b.age == p && b.raw != []
    && Aggregate(b.raw).Some? && Proper(Aggregate(b.raw).value) && b.rate == FeeRate(Aggregate(b.raw).value)
  }

  ghost predicate AllShaped(buckets: seq<Bucket>) {
    forall p :: 0 <= p < |buckets| ==> Shaped(buckets[p], p)
  }

  lemma OwnShaped(t: Tx, p: nat)
    requires Proper(t)
    ensures Shaped(Own(t, p), p)
  {
  }

  lemma StepShaped(valid: Tx -> bool, book: Book, t: Tx)
    requires Proper(t) && AllShaped(book.buckets)
    ensures AllShaped(Step(valid, book, t).0.buckets)
  {
    OwnShaped(t, |book.buckets|);
    match ScanOf(book, t.inputs)
    case Under(p) =>
      if p < |book.buckets| && Aggregate(book.buckets[p].raw + [t]).Some? {
        AggregateProper(book.buckets[p].raw, t);
      }
    case _ =>
  }

  // The transaction fits the bucket: they aggregate, and the aggregate is valid.
  ghost predicate FitsIn(valid: Tx -> bool, b: Bucket, t: Tx) {
    Aggregate(b.raw + [t]).Some? && valid(Aggregate(b.raw + [t]).value)
  }

  // An entry that spends an output of a rejected entry, or several outputs in the pool, is rejected ...
  lemma RejectedFor(valid: Tx -> bool, book: Book, t: Tx)
    requires Proper(t)
    ensures t.inputs * book.rejected != {} || |Hits(book, t.inputs)| > 1 ==> Step(valid, book, t).1.Rejected?
    ensures t.inputs * book.rejected == {} && Hits(book, t.inputs) == {} ==>
              Step(valid, book, t).1 == Root(|book.buckets|)
  {
  }

  // ... and one that spends a single output there is rejected exactly if it does not fit its bucket.
  lemma RejectedUnder(valid: Tx -> bool, book: Book, t: Tx, c: Commit)
    requires Proper(t) && t.inputs !! book.rejected && c in book.index
    requires forall x :: x in t.inputs && x in book.index <==> x == c
    ensures var p := book.index[c];
      Step(valid, book, t).1.Rejected? <==> p >= |book.buckets| || !FitsIn(valid, book.buckets[p], t)
  {
    assert Hits(book, t.inputs) == {c} && t.inputs * book.rejected == {};
    assert Only({c}) == c by { assert c in {c}; }
  }

  // A bucket of several transactions is valid.
  ghost predicate BucketValid(valid: Tx -> bool, raw: seq<Tx>) {
    |raw| > 1 ==> Aggregate(raw).Some? && valid(Aggregate(raw).value)
  }

  // All buckets are, after every entry.
  lemma {:induction false} BucketsValid(valid: Tx -> bool, entries: seq<Tx>, n: nat)
    requires AllProper(entries) && n <= |entries|
    ensures forall p :: 0 <= p < |Run(valid, entries, n).0.buckets| ==>
              BucketValid(valid, Run(valid, entries, n).0.buckets[p].raw)
  {
    if n > 0 { BucketsValid(valid, entries, n - 1); }
  }

  ghost predicate InPlace(entries: seq<Tx>, fates: seq<Fate>, buckets: seq<Bucket>)
    requires |fates| <= |entries|
  {
    && (forall p :: 0 <= p < |buckets| ==> buckets[p].raw == Members(entries, fates, p))
    && (forall i :: 0 <= i < |fates| && !fates[i].Rejected? ==> fates[i].pos < |buckets|)
  }

  lemma {:induction false} NoMembers(entries: seq<Tx>, fates: seq<Fate>, p: nat)
    requires |fates| <= |entries| && forall i :: 0 <= i < |fates| && !fates[i].Rejected? ==> fates[i].pos < p
    ensures Members(entries, fates, p) == []
  {
    if fates != [] { NoMembers(entries, fates[..|fates| - 1], p); }
  }

  function RawOf(book: Book, p: nat): seq<Tx> {
    if p < |book.buckets| then book.buckets[p].raw else []
  }

  // A step adds the transaction to one bucket, or opens one for it, and leaves the others.
  lemma StepRaw(valid: Tx -> bool, book: Book, t: Tx, p: nat)
    requires Proper(t)
    ensures var (book', f) := Step(valid, book, t);
      && |book.buckets| <= |book'.buckets| <= |book.buckets| + 1
      && (!f.Rejected? ==> f.pos < |book'.buckets|)
      && (|book'.buckets| > |book.buckets| ==> !f.Rejected? && f.pos == |book.buckets|)
      && (p < |book'.buckets| ==>
            book'.buckets[p].raw == RawOf(book, p) + (if !f.Rejected? && f.pos == p then [t] else []))
  {
  }

  lemma StepInPlace(valid: Tx -> bool, entries: seq<Tx>, fates: seq<Fate>, book: Book)
    requires |fates| < |entries| && Proper(entries[|fates|]) && InPlace(entries, fates, book.buckets)
    ensures var x := Step(valid, book, entries[|fates|]);
      InPlace(entries, fates + [x.1], x.0.buckets)
  {
    var t := entries[|fates|];
    var x := Step(valid, book, t);
    StepRaw(valid, book, t, 0);
    NoMembers(entries, fates, |book.buckets|);
    forall p | 0 <= p < |x.0.buckets| ensures x.0.buckets[p].raw == Members(entries, fates + [x.1], p) {
      MembersPush(entries, fates, x.1, p);
      StepRaw(valid, book, t, p);
    }
  }

  // A bucket split off has a lower rate than the bucket it depends on, and nothing joins it.
  ghost predicate SplitsBelow(fates: seq<Fate>, book: Book) {
    && (forall i :: 0 <= i < |fates| && fates[i].Split? ==>
          && fates[i].pos < |book.buckets| && fates[i].parent < |book.buckets|
          && book.buckets[fates[i].pos].rate < book.buckets[fates[i].parent].rate)
    && (forall c, i :: c in book.index && 0 <= i < |fates| && fates[i].Split? ==> book.index[c] != fates[i].pos)
    && (forall c :: c in book.index ==> book.index[c] < |book.buckets|)
  }

  // The position of a scan comes from the index.
  lemma ScanInIndex(book: Book, inputs: set<Commit>)
    requires ScanOf(book, inputs).Under?
    ensures exists c :: c in book.index && c in inputs && book.index[c] == ScanOf(book, inputs).pos
  {
    var c := Only(Hits(book, inputs));
    assert c in Hits(book, inputs);
  }

  lemma SplitRate(valid: Tx -> bool, book: Book, t: Tx)
    requires Proper(t) && AllShaped(book.buckets) && Step(valid, book, t).1.Split?
    ensures Step(valid, book, t).1.parent < |book.buckets|
    ensures FeeRate(t) < book.buckets[Step(valid, book, t).1.parent].rate
  {
    var p := ScanOf(book, t.inputs).pos;
    var b := book.buckets[p];
    assert Shaped(b, p);
    AggregateProper(b.raw, t);
    SplitIsLower(b.raw, t, Aggregate(b.raw).value, Aggregate(b.raw + [t]).value);
  }

  lemma StepSplitsBelow(valid: Tx -> bool, book: Book, fates: seq<Fate>, t: Tx)
    requires Proper(t) && AllShaped(book.buckets) && SplitsBelow(fates, book)
    requires forall i :: 0 <= i < |fates| && !fates[i].Rejected? ==> fates[i].pos < |book.buckets|
    ensures SplitsBelow(fates + [Step(valid, book, t).1], Step(valid, book, t).0)
  {
    var (book', f) := Step(valid, book, t);
    match f {
      case Rejected =>
      case Root(_) =>
      case Joined(p) => JoinSplitsBelow(valid, book, fates, t);
      case Split(_, p) => SplitSplitsBelow(valid, book, fates, t);
    }
  }

  lemma JoinSplitsBelow(valid: Tx -> bool, book: Book, fates: seq<Fate>, t: Tx)
    requires Proper(t) && AllShaped(book.buckets) && SplitsBelow(fates, book) && Step(valid, book, t).1.Joined?
    ensures SplitsBelow(fates + [Step(valid, book, t).1], Step(valid, book, t).0)
  {
    ScanInIndex(book, t.inputs);
    var (book', f) := Step(valid, book, t);
    JoinedBelow(fates, book, book', f.pos);
  }

  // A bucket that is joined does not lose rate.
  lemma JoinedBelow(fates: seq<Fate>, book: Book, book': Book, p: nat)
    requires SplitsBelow(fates, book) && p < |book.buckets| && |book'.buckets| == |book.buckets|
    requires forall i :: 0 <= i < |book.buckets| && i != p ==> book'.buckets[i] == book.buckets[i]
    requires book'.buckets[p].rate >= book.buckets[p].rate && exists c :: c in book.index && book.index[c] == p
    requires forall c :: c in book'.index ==>
              book'.index[c] == p || (c in book.index && book'.index[c] == book.index[c])
    ensures SplitsBelow(fates + [Joined(p)], book')
  {
    var after := fates + [Joined(p)];
    var at :| at in book.index && book.index[at] == p;
    forall i | 0 <= i < |after| && after[i].Split?
      ensures after[i].pos < |book'.buckets| && after[i].parent < |book'.buckets|
      ensures book'.buckets[after[i].pos].rate < book'.buckets[after[i].parent].rate
    {
      assert after[i] == fates[i] && book.index[at] != fates[i].pos;
    }
  }

  lemma SplitSplitsBelow(valid: Tx -> bool, book: Book, fates: seq<Fate>, t: Tx)
    requires Proper(t) && AllShaped(book.buckets) && SplitsBelow(fates, book) && Step(valid, book, t).1.Split?
    requires forall i :: 0 <= i < |fates| && !fates[i].Rejected? ==> fates[i].pos < |book.buckets|
    ensures SplitsBelow(fates + [Step(valid, book, t).1], Step(valid, book, t).0)
  {
    ScanInIndex(book, t.inputs);
    SplitRate(valid, book, t);
    var (book', f) := Step(valid, book, t);
    SplitBelow(fates, book, book', f.parent);
  }

  // A bucket split off is new and has a lower rate.
  lemma SplitBelow(fates: seq<Fate>, book: Book, book': Book, p: nat)
    requires SplitsBelow(fates, book) && p < |book.buckets| && |book'.buckets| == |book.buckets| + 1
    requires forall i :: 0 <= i < |fates| && !fates[i].Rejected? ==> fates[i].pos < |book.buckets|
    requires book'.buckets[..|book.buckets|] == book.buckets
    requires book'.buckets[|book.buckets|].rate < book.buckets[p].rate
    requires exists c :: c in book.index && book.index[c] == p
    requires forall c :: c in book'.index ==>
              book'.index[c] == p || (c in book.index && book'.index[c] == book.index[c])
    ensures SplitsBelow(fates + [Split(|book.buckets|, p)], book')
  {
    var n := |book.buckets|;
    var after := fates + [Split(n, p)];
    var at :| at in book.index && book.index[at] == p;
    assert forall k :: 0 <= k < n ==> book'.buckets[k] == book'.buckets[..n][k];
    forall i | 0 <= i < |after| && after[i].Split?
      ensures after[i].pos < |book'.buckets| && after[i].parent < |book'.buckets|
      ensures book'.buckets[after[i].pos].rate < book'.buckets[after[i].parent].rate
    {
      if i < |fates| { assert after[i] == fates[i]; }
    }
    forall c, i | c in book'.index && 0 <= i < |after| && after[i].Split? ensures book'.index[c] != after[i].pos {
      if i < |fates| { assert after[i] == fates[i] && book.index[at] != fates[i].pos; }
    }
  }

  // A bucket split off holds its transaction and nothing else.
  ghost predicate SplitsAlone(entries: seq<Tx>, fates: seq<Fate>, buckets: seq<Bucket>)
    requires |fates| <= |entries|
  {
    forall i :: 0 <= i < |fates| && fates[i].Split? ==>
      fates[i].pos < |buckets| && Proper(entries[i]) && buckets[fates[i].pos] == Own(entries[i], fates[i].pos)
  }

  lemma StepSplitsAlone(valid: Tx -> bool, entries: seq<Tx>, fates: seq<Fate>, book: Book)
    requires |fates| < |entries| && Proper(entries[|fates|])
    requires SplitsBelow(fates, book) && SplitsAlone(entries, fates, book.buckets)
    ensures var x := Step(valid, book, entries[|fates|]);
      SplitsAlone(entries, fates + [x.1], x.0.buckets)
  {
    var t := entries[|fates|];
    if Step(valid, book, t).1.Joined? { ScanInIndex(book, t.inputs); }
  }

  // The commitment is an output of one of the first n entries.
  ghost predicate MadeBy(entries: seq<Tx>, n: nat, c: Commit)
    requires n <= |entries|
  {
    exists i :: 0 <= i < n && c in entries[i].outputs
  }

  ghost predicate IndexMade(entries: seq<Tx>, n: nat, index: map<Commit, nat>)
    requires n <= |entries|
  {
    forall c :: c in index ==> MadeBy(entries, n, c)
  }

  lemma StepIndexMade(valid: Tx -> bool, entries: seq<Tx>, n: nat, book: Book)
    requires n < |entries| && Proper(entries[n]) && IndexMade(entries, n, book.index)
    ensures IndexMade(entries, n + 1, Step(valid, book, entries[n]).0.index)
  {
    var index' := Step(valid, book, entries[n]).0.index;
    forall c | c in index' ensures MadeBy(entries, n + 1, c) {
      if c in entries[n].outputs {
      } else {
        assert MadeBy(entries, n, c);
      }
    }
  }

  // Entry i is the last of the first n to create the output: it is the one a spender at n spends
  // from, also where the output was created and spent before.
  ghost predicate MadeLast(entries: seq<Tx>, n: nat, i: nat, c: Commit)
    requires n <= |entries|
  {
    i < n && c in entries[i].outputs && forall k :: i < k < n ==> c !in entries[k].outputs
  }

  lemma {:induction false} LastMaker(entries: seq<Tx>, n: nat, c: Commit) returns (i: nat)
    requires n <= |entries| && MadeBy(entries, n, c)
    ensures MadeLast(entries, n, i, c)
  {
    i := n - 1;
    if c !in entries[i].outputs { i := LastMaker(entries, n - 1, c); }
  }

  // Entry j spends an output of entry i.
  ghost predicate Parent(entries: seq<Tx>, i: nat, j: nat) {
    j < |entries| && exists c :: c in entries[j].inputs && MadeLast(entries, j, i, c)
  }

  // Where the children of an entry are sent.
  function Home(f: Fate): nat
    requires !f.Rejected?
  {
    if f.Split? then f.parent else f.pos
  }

  ghost predicate KnownAs(fate: Fate, book: Book, c: Commit) {
    if fate.Rejected? then c in book.rejected else c in book.index && book.index[c] == Home(fate)
  }

  // Every output is known by its last maker: as rejected, or with the bucket its spenders are sent to.
  ghost predicate Known(entries: seq<Tx>, fates: seq<Fate>, book: Book)
    requires |fates| <= |entries|
  {
    forall i: nat, c :: MadeLast(entries, |fates|, i, c) ==> KnownAs(fates[i], book, c)
  }

  lemma StepKnown(valid: Tx -> bool, entries: seq<Tx>, fates: seq<Fate>, book: Book)
    requires |fates| < |entries| && Proper(entries[|fates|]) && Known(entries, fates, book)
    ensures var x := Step(valid, book, entries[|fates|]);
      Known(entries, fates + [x.1], x.0)
  {
    var n, t := |fates|, entries[|fates|];
    var x := Step(valid, book, t);
    forall i: nat, c | MadeLast(entries, n + 1, i, c) ensures KnownAs((fates + [x.1])[i], x.0, c) {
      if i < n {
        assert c !in t.outputs && MadeLast(entries, n, i, c);
        StepElsewhere(valid, book, t, c);
      }
    }
  }

  // A step touches no other outputs than its own.
  lemma StepElsewhere(valid: Tx -> bool, book: Book, t: Tx, c: Commit)
    requires Proper(t) && c !in t.outputs
    ensures var book' := Step(valid, book, t).0;
      && (c in book'.rejected <==> c in book.rejected)
      && (c in book'.index <==> c in book.index)
      && (c in book.index ==> book'.index[c] == book.index[c])
  {
  }

  // All of it holds after every number of entries.
  ghost predicate Kept(entries: seq<Tx>, fates: seq<Fate>, book: Book) {
    && |fates| <= |entries|
    && AllShaped(book.buckets) && InPlace(entries, fates, book.buckets) && SplitsBelow(fates, book)
    && SplitsAlone(entries, fates, book.buckets) && IndexMade(entries, |fates|, book.index)
    && Known(entries, fates, book)
  }

  lemma StepKeeps(valid: Tx -> bool, entries: seq<Tx>, fates: seq<Fate>, book: Book)
    requires |fates| < |entries| && Proper(entries[|fates|]) && Kept(entries, fates, book)
    ensures var x := Step(valid, book, entries[|fates|]);
      Kept(entries, fates + [x.1], x.0)
  {
    StepShaped(valid, book, entries[|fates|]);
    StepInPlace(valid, entries, fates, book);
    StepSplitsBelow(valid, book, fates, entries[|fates|]);
    StepSplitsAlone(valid, entries, fates, book);
    StepIndexMade(valid, entries, |fates|, book);
    StepKnown(valid, entries, fates, book);
  }

  lemma {:induction false} RunKeeps(valid: Tx -> bool, entries: seq<Tx>, n: nat)
    requires AllProper(entries) && n <= |entries|
    ensures Kept(entries, Run(valid, entries, n).1, Run(valid, entries, n).0)
  {
    if n == 0 {
      NothingKept(entries);
    } else {
      RunKeeps(valid, entries, n - 1);
      var r := Run(valid, entries, n - 1);
      StepKeeps(valid, entries, r.1, r.0);
    }
  }

  lemma NothingKept(entries: seq<Tx>)
    ensures Kept(entries, [], NOTHING)
  {
    NothingKnown(entries, []);
    NothingPlaced(entries, []);
    NothingSplit(entries, [], NOTHING);
    NothingAlone(entries, [], []);
    NothingMade(entries, map[]);
  }

  lemma NothingKnown(entries: seq<Tx>, none: seq<Fate>)
    requires none == []
    ensures Known(entries, none, NOTHING)
  {
    forall i: nat, c | MadeLast(entries, |none|, i, c) ensures false {
    }
  }

  lemma NothingPlaced(entries: seq<Tx>, none: seq<Fate>)
    requires none == []
    ensures AllShaped(NOTHING.buckets) && InPlace(entries, none, NOTHING.buckets)
  {
  }

  lemma NothingSplit(entries: seq<Tx>, none: seq<Fate>, book: Book)
    requires none == [] && forall c :: c !in book.index
    ensures SplitsBelow(none, book)
  {
  }

  lemma NothingAlone(entries: seq<Tx>, none: seq<Fate>, buckets: seq<Bucket>)
    requires none == []
    ensures SplitsAlone(entries, none, buckets)
  {
  }

  lemma NothingMade(entries: seq<Tx>, index: map<Commit, nat>)
    requires forall c :: c !in index
    ensures IndexMade(entries, 0, index)
  {
  }

  // ----- the fate of a child -----

  ghost function Fates(valid: Tx -> bool, entries: seq<Tx>): (r: seq<Fate>)
    requires AllProper(entries)
    ensures |r| == |entries|
  {
    Run(valid, entries, |entries|).1
  }

  ghost function Placed(valid: Tx -> bool, entries: seq<Tx>): seq<Bucket>
    requires AllProper(entries)
  {
    Run(valid, entries, |entries|).0.buckets
  }

  lemma {:induction false} FateKept(valid: Tx -> bool, entries: seq<Tx>, n: nat, m: nat, k: nat)
    requires AllProper(entries) && k < m <= n <= |entries|
    ensures Run(valid, entries, n).1[k] == Run(valid, entries, m).1[k]
  {
    if m < n { FateKept(valid, entries, n - 1, m, k); }
  }

  lemma FateAt(valid: Tx -> bool, entries: seq<Tx>, i: nat)
    requires AllProper(entries) && i < |entries|
    ensures Fates(valid, entries)[i] == Step(valid, Run(valid, entries, i).0, entries[i]).1
  {
    FateKept(valid, entries, |entries|, i + 1, i);
  }

  // The spender of an output goes where the output was indexed.
  lemma ScanOne(book: Book, inputs: set<Commit>, c: Commit)
    requires c in inputs
    ensures c in book.rejected ==> ScanOf(book, inputs) == Reject
    ensures c in book.index ==> ScanOf(book, inputs) in [Reject, Under(book.index[c])]
  {
    if c in book.rejected {
      assert c in inputs * book.rejected;
    } else if c in book.index {
      assert c in Hits(book, inputs);
      if |Hits(book, inputs)| == 1 { assert Only(Hits(book, inputs)) == c; }
    }
  }

  lemma StepChild(valid: Tx -> bool, book: Book, t: Tx, c: Commit)
    requires Proper(t) && c in t.inputs
    ensures var f := Step(valid, book, t).1;
      && (c in book.rejected ==> f.Rejected?)
      && (c in book.index ==> f.Rejected? || f == Joined(book.index[c]) || (f.Split? && f.parent == book.index[c]))
  {
    ScanOne(book, t.inputs, c);
  }

  lemma RunKnown(valid: Tx -> bool, entries: seq<Tx>, n: nat)
    requires AllProper(entries) && n <= |entries|
    ensures Known(entries, Run(valid, entries, n).1, Run(valid, entries, n).0)
  {
    RunKeeps(valid, entries, n);
  }

  // Where an output of an earlier entry stands when entry j comes up.
  lemma OutputKnown(valid: Tx -> bool, entries: seq<Tx>, i: nat, j: nat, c: Commit)
    requires AllProper(entries) && j <= |entries| && MadeLast(entries, j, i, c)
    ensures KnownAs(Fates(valid, entries)[i], Run(valid, entries, j).0, c)
  {
    FateKept(valid, entries, |entries|, j, i);
    RunKnown(valid, entries, j);
  }

  // Rejection is handed on to every descendant; any other child joins the home of its parent, or
  // is split off from it.
  lemma ChildFate(valid: Tx -> bool, entries: seq<Tx>, i: nat, j: nat)
    requires AllProper(entries) && Parent(entries, i, j)
    ensures var fates := Fates(valid, entries);
      && (fates[i].Rejected? ==> fates[j].Rejected?)
      && (fates[j].Rejected? || fates[j] == Joined(Home(fates[i]))
         || (fates[j].Split? && fates[j].parent == Home(fates[i])))
  {
    var c :| c in entries[j].inputs && MadeLast(entries, j, i, c);
    OutputKnown(valid, entries, i, j, c);
    FateAt(valid, entries, j);
    StepChild(valid, Run(valid, entries, j).0, entries[j], c);
  }

  lemma SplitPos(valid: Tx -> bool, book: Book, t: Tx)
    requires Proper(t) && Step(valid, book, t).1.Split?
    ensures Step(valid, book, t).1.pos == |book.buckets|
  {
  }

  lemma PosBelow(valid: Tx -> bool, entries: seq<Tx>, i: nat, j: nat)
    requires AllProper(entries) && i < j <= |entries| && !Fates(valid, entries)[i].Rejected?
    ensures Fates(valid, entries)[i].pos < |Run(valid, entries, j).0.buckets|
  {
    FateKept(valid, entries, |entries|, j, i);
    RunKeeps(valid, entries, j);
  }

  // Later splits have later positions.
  lemma SplitLater(valid: Tx -> bool, entries: seq<Tx>, i: nat, j: nat)
    requires AllProper(entries) && i < j < |entries|
    requires Fates(valid, entries)[i].Split? && Fates(valid, entries)[j].Split?
    ensures Fates(valid, entries)[i].pos < Fates(valid, entries)[j].pos
  {
    FateAt(valid, entries, j);
    SplitPos(valid, Run(valid, entries, j).0, entries[j]);
    PosBelow(valid, entries, i, j);
  }

  // ----- sorting -----

  ghost predicate InOrder(s: seq<Bucket>) {
    forall a, b :: 0 <= a < b < |s| ==> Sooner(s[a], s[b])
  }

  ghost predicate NewAge(b: Bucket, s: seq<Bucket>) {
    forall i :: 0 <= i < |s| ==> s[i].age != b.age
  }

  lemma {:induction false} InsertIs(b: Bucket, s: seq<Bucket>)
    requires InOrder(s) && NewAge(b, s)
    ensures InOrder(Insert(b, s)) && multiset(Insert(b, s)) == multiset(s) + multiset{b}
  {
    if s == [] || Sooner(b, s[0]) {
    } else {
      InsertIs(b, s[1..]);
      var rest := Insert(b, s[1..]);
      assert s == [s[0]] + s[1..];
      forall i | 0 <= i < |rest| ensures Sooner(s[0], rest[i]) {
        assert rest[i] in multiset(rest);
        assert rest[i] in multiset(s[1..]) + multiset{b};
      }
    }
  }

  ghost predicate Ages(s: seq<Bucket>) {
    forall p :: 0 <= p < |s| ==> s[p].age == p
  }

  lemma {:induction false} SortIs(s: seq<Bucket>)
    requires Ages(s)
    ensures InOrder(Sort(s)) && multiset(Sort(s)) == multiset(s)
  {
    if s != [] {
      var init, b := s[..|s| - 1], s[|s| - 1];
      SortIs(init);
      assert s == init + [b];
      forall i | 0 <= i < |Sort(init)| ensures Sort(init)[i].age != b.age {
        assert Sort(init)[i] in multiset(init);
      }
      InsertIs(b, Sort(init));
    }
  }

  // A bucket that is sooner comes first.
  lemma SortOrders(s: seq<Bucket>, p: nat, q: nat) returns (a: nat, b: nat)
    requires Ages(s) && p < |s| && q < |s| && Sooner(s[p], s[q])
    ensures a < b < |Sort(s)| && Sort(s)[a] == s[p] && Sort(s)[b] == s[q]
  {
    SortIs(s);
    assert s[p] in multiset(Sort(s)) && s[q] in multiset(Sort(s));
    a :| 0 <= a < |Sort(s)| && Sort(s)[a] == s[p];
    b :| 0 <= b < |Sort(s)| && Sort(s)[b] == s[q];
  }

  lemma SortHas(s: seq<Bucket>, p: nat) returns (a: nat)
    requires Ages(s) && p < |s|
    ensures a < |Sort(s)| && Sort(s)[a] == s[p]
  {
    SortIs(s);
    assert s[p] in multiset(Sort(s));
    a :| 0 <= a < |Sort(s)| && Sort(s)[a] == s[p];
  }

  // ----- the resulting list -----

  // x stands somewhere before y.
  ghost predicate Precedes(s: seq<Tx>, x: Tx, y: Tx) {
    exists a, b :: 0 <= a < b < |s| && s[a] == x && s[b] == y
  }

  lemma PrecedesIn(l: seq<Tx>, m: seq<Tx>, r: seq<Tx>, x: Tx, y: Tx)
    requires Precedes(m, x, y)
    ensures Precedes(l + m + r, x, y)
  {
    var a, b :| 0 <= a < b < |m| && m[a] == x && m[b] == y;
    var s := l + m + r;
    assert s[|l| + a] == x && s[|l| + b] == y;
  }

  lemma PrecedesAcross(l: seq<Tx>, r: seq<Tx>, x: Tx, y: Tx)
    requires x in l && y in r
    ensures Precedes(l + r, x, y)
  {
    var a :| 0 <= a < |l| && l[a] == x;
    var b :| 0 <= b < |r| && r[b] == y;
    assert (l + r)[a] == x && (l + r)[|l| + b] == y;
  }

  lemma {:induction false} FlatHas(s: seq<Bucket>, b: nat, y: Tx)
    requires b < |s| && y in s[b].raw
    ensures y in Flat(s)
  {
    if b > 0 { FlatHas(s[1..], b - 1, y); }
  }

  lemma {:induction false} FlatAcross(s: seq<Bucket>, a: nat, b: nat, x: Tx, y: Tx)
    requires a < b < |s| && x in s[a].raw && y in s[b].raw
    ensures Precedes(Flat(s), x, y)
  {
    if a == 0 {
      FlatHas(s[1..], b - 1, y);
      PrecedesAcross(s[0].raw, Flat(s[1..]), x, y);
    } else {
      FlatAcross(s[1..], a - 1, b - 1, x, y);
      PrecedesIn(s[0].raw, Flat(s[1..]), [], x, y);
      assert s[0].raw + Flat(s[1..]) + [] == Flat(s);
    }
  }

  lemma {:induction false} FlatInside(s: seq<Bucket>, a: nat, x: Tx, y: Tx)
    requires a < |s| && Precedes(s[a].raw, x, y)
    ensures Precedes(Flat(s), x, y)
  {
    if a == 0 {
      PrecedesIn([], s[0].raw, Flat(s[1..]), x, y);
      assert [] + s[0].raw + Flat(s[1..]) == Flat(s);
    } else {
      FlatInside(s[1..], a - 1, x, y);
      PrecedesIn(s[0].raw, Flat(s[1..]), [], x, y);
      assert s[0].raw + Flat(s[1..]) + [] == Flat(s);
    }
  }

  lemma {:induction false} MemberHas(entries: seq<Tx>, fates: seq<Fate>, i: nat)
    requires |fates| <= |entries| && i < |fates| && !fates[i].Rejected?
    ensures entries[i] in Members(entries, fates, fates[i].pos)
  {
    if i < |fates| - 1 { MemberHas(entries, fates[..|fates| - 1], i); }
  }

  lemma {:induction false} MembersInOrder(entries: seq<Tx>, fates: seq<Fate>, i: nat, j: nat)
    requires |fates| <= |entries| && i < j < |fates| && !fates[i].Rejected? && !fates[j].Rejected?
    requires fates[i].pos == fates[j].pos
    ensures Precedes(Members(entries, fates, fates[i].pos), entries[i], entries[j])
  {
    var n := |fates| - 1;
    var p := fates[i].pos;
    var init := Members(entries, fates[..n], p);
    var last := if !fates[n].Rejected? && fates[n].pos == p then [entries[n]] else [];
    if j == n {
      MemberHas(entries, fates[..n], i);
      PrecedesAcross(init, last, entries[i], entries[j]);
    } else {
      MembersInOrder(entries, fates[..n], i, j);
      PrecedesIn([], init, last, entries[i], entries[j]);
      assert [] + init + last == init + last;
    }
  }

  // ----- each chosen transaction once -----

  // The entries that were not rejected.
  ghost function Chosen(entries: seq<Tx>, fates: seq<Fate>): seq<Tx>
    requires |fates| <= |entries|
  {
    if fates == [] then []
    else
      var n := |fates| - 1;
      Chosen(entries, fates[..n]) + (if fates[n].Rejected? then [] else [entries[n]])
  }

  lemma {:induction false} FlatAppend(s: seq<Bucket>, b: Bucket)
    ensures Flat(s + [b]) == Flat(s) + b.raw
  {
    if s == [] {
      assert s + [b] == [b] && [b][1..] == [];
    } else {
      FlatAppend(s[1..], b);
      assert (s + [b])[1..] == s[1..] + [b];
    }
  }

  lemma {:induction false} FlatAround(s: seq<Bucket>, p: nat, a: seq<Bucket>, c: seq<Bucket>)
    requires p < |s| && a == s[..p] && c == s[p + 1..]
    ensures Flat(s) == Flat(a) + (s[p].raw + Flat(c))
  {
    if p == 0 {
      assert a == [];
    } else {
      var rest, a' := s[1..], a[1..];
      assert a' == rest[..p - 1] && c == rest[p..];
      FlatAround(rest, p - 1, a', c);
      assert a[0] == s[0];
    }
  }

  lemma FlatUpdate(s: seq<Bucket>, p: nat, b: Bucket, t: Tx)
    requires p < |s| && b.raw == s[p].raw + [t]
    ensures multiset(Flat(s[p := b])) == multiset(Flat(s)) + multiset{t}
  {
    var a, c := s[..p], s[p + 1..];
    FlatAround(s, p, a, c);
    FlatAround(s[p := b], p, a, c);
    BagInsert(Flat(a), s[p].raw, t, Flat(c));
  }

  lemma BagInsert(a: seq<Tx>, b: seq<Tx>, t: Tx, c: seq<Tx>)
    ensures multiset(a + ((b + [t]) + c)) == multiset(a + (b + c)) + multiset{t}
  {
  }

  lemma FlatOwn(s: seq<Bucket>, t: Tx, p: nat)
    requires Proper(t)
    ensures multiset(Flat(s + [Own(t, p)])) == multiset(Flat(s)) + multiset{t}
  {
    FlatAppend(s, Own(t, p));
  }

  // What a step does to the buckets.
  lemma StepBuckets(valid: Tx -> bool, book: Book, t: Tx)
    requires Proper(t)
    ensures var x, s := Step(valid, book, t), book.buckets;
      match x.1 {
        case Rejected => x.0.buckets == s
        case Root(_) => x.0.buckets == s + [Own(t, |s|)]
        case Split(_, _) => x.0.buckets == s + [Own(t, |s|)]
        case Joined(p) =>
          p < |x.0.buckets| == |s| && x.0.buckets[p].raw == s[p].raw + [t] && x.0.buckets == s[p := x.0.buckets[p]]
      }
  {
  }

  lemma StepFlat(valid: Tx -> bool, book: Book, t: Tx)
    requires Proper(t)
    ensures var x := Step(valid, book, t);
      multiset(Flat(x.0.buckets)) == multiset(Flat(book.buckets)) + (if x.1.Rejected? then multiset{} else multiset{t})
  {
    var x, s := Step(valid, book, t), book.buckets;
    StepBuckets(valid, book, t);
    FlatOwn(s, t, |s|);
    if x.1.Joined? {
      FlatUpdate(s, x.1.pos, x.0.buckets[x.1.pos], t);
    }
  }

  lemma {:induction false} RunFlat(valid: Tx -> bool, entries: seq<Tx>, n: nat)
    requires AllProper(entries) && n <= |entries|
    ensures multiset(Flat(Run(valid, entries, n).0.buckets)) == multiset(Chosen(entries, Run(valid, entries, n).1))
  {
    if n > 0 {
      RunFlat(valid, entries, n - 1);
      var r := Run(valid, entries, n - 1);
      var f := Step(valid, r.0, entries[n - 1]).1;
      StepFlat(valid, r.0, entries[n - 1]);
      assert (r.1 + [f])[..n - 1] == r.1;
    }
  }

  // Sorting the buckets permutes the transactions.
  lemma {:induction false} InsertFlat(b: Bucket, s: seq<Bucket>)
    ensures multiset(Flat(Insert(b, s))) == multiset(Flat(s)) + multiset(b.raw)
  {
    if s == [] || Sooner(b, s[0]) {
      assert ([b] + s)[1..] == s;
    } else {
      InsertFlat(b, s[1..]);
      assert ([s[0]] + Insert(b, s[1..]))[1..] == Insert(b, s[1..]);
    }
  }

  lemma FlatLast(s: seq<Bucket>)
    requires s != []
    ensures multiset(Flat(s)) == multiset(Flat(s[..|s| - 1])) + multiset(s[|s| - 1].raw)
  {
    var init, b := s[..|s| - 1], s[|s| - 1];
    assert Flat(s) == Flat(init) + b.raw by {
      assert s == init + [b];
      FlatAppend(init, b);
    }
    AppendCounts(Flat(init), b.raw);
  }

  lemma AppendCounts(a: seq<Tx>, b: seq<Tx>)
    ensures multiset(a + b) == multiset(a) + multiset(b)
  {
  }

  lemma {:induction false} SortFlat(s: seq<Bucket>)
    ensures multiset(Flat(Sort(s))) == multiset(Flat(s))
  {
    if s != [] {
      SortFlat(s[..|s| - 1]);
      InsertFlat(s[|s| - 1], Sort(s[..|s| - 1]));
      FlatLast(s);
    }
  }

  // The list holds each chosen entry exactly once.
  lemma OrderedOnce(valid: Tx -> bool, entries: seq<Tx>)
    requires AllProper(entries)
    ensures multiset(Ordered(valid, entries)) == multiset(Chosen(entries, Fates(valid, entries)))
  {
    RunFlat(valid, entries, |entries|);
    SortFlat(Placed(valid, entries));
  }

  ghost predicate Distinct(txs: seq<Tx>) {
    forall i, j :: 0 <= i < j < |txs| ==> txs[i] != txs[j]
  }

  lemma {:induction false} ChosenAmong(entries: seq<Tx>, fates: seq<Fate>)
    requires |fates| <= |entries|
    ensures multiset(Chosen(entries, fates)) <= multiset(entries[..|fates|])
  {
    if fates != [] {
      var n := |fates| - 1;
      ChosenAmong(entries, fates[..n]);
      assert entries[..|fates|] == entries[..n] + [entries[n]];
    }
  }

  lemma {:induction false} DistinctCount(txs: seq<Tx>, t: Tx)
    requires Distinct(txs)
    ensures multiset(txs)[t] <= 1
  {
    if txs != [] {
      var init, x := txs[..|txs| - 1], txs[|txs| - 1];
      DistinctCount(init, t);
      assert txs == init + [x];
      assert x !in init;
    }
  }

  lemma CountDistinct(txs: seq<Tx>, a: nat, b: nat)
    requires a < b < |txs| && multiset(txs)[txs[a]] <= 1
    ensures txs[a] != txs[b]
  {
    assert txs == txs[..b] + txs[b..];
    assert txs[a] in txs[..b] && txs[b] in txs[b..];
  }

  lemma OrderedDistinct(valid: Tx -> bool, entries: seq<Tx>)
    requires AllProper(entries) && Distinct(entries)
    ensures Distinct(Ordered(valid, entries))
  {
    var out := Ordered(valid, entries);
    OrderedOnce(valid, entries);
    ChosenAmong(entries, Fates(valid, entries));
    assert entries[..|entries|] == entries;
    forall a, b | 0 <= a < b < |out| ensures out[a] != out[b] {
      DistinctCount(entries, out[a]);
      CountDistinct(out, a, b);
    }
  }

  lemma NotBothWays(s: seq<Tx>, x: Tx, y: Tx)
    requires Distinct(s) && Precedes(s, x, y)
    ensures !Precedes(s, y, x)
  {
  }

  // ----- parents before children -----

  // How a chosen pair of bucket positions is ordered in the list.
  lemma BucketsApart(valid: Tx -> bool, entries: seq<Tx>, i: nat, j: nat)
    requires AllProper(entries) && i < |entries| && j < |entries|
    requires !Fates(valid, entries)[i].Rejected? && !Fates(valid, entries)[j].Rejected?
    requires var fates, bs := Fates(valid, entries), Placed(valid, entries);
      fates[i].pos < |bs| && fates[j].pos < |bs| && Sooner(bs[fates[i].pos], bs[fates[j].pos])
    ensures Precedes(Ordered(valid, entries), entries[i], entries[j])
  {
    var fates, bs := Fates(valid, entries), Placed(valid, entries);
    RunKeeps(valid, entries, |entries|);
    MemberHas(entries, fates, i);
    MemberHas(entries, fates, j);
    assert Ages(bs) by { assert forall p :: 0 <= p < |bs| ==> Shaped(bs[p], p); }
    var a, b := SortOrders(bs, fates[i].pos, fates[j].pos);
    FlatAcross(Sort(bs), a, b, entries[i], entries[j]);
  }

  lemma SameBucket(valid: Tx -> bool, entries: seq<Tx>, i: nat, j: nat)
    requires AllProper(entries) && i < j < |entries|
    requires !Fates(valid, entries)[i].Rejected? && !Fates(valid, entries)[j].Rejected?
    requires Fates(valid, entries)[i].pos == Fates(valid, entries)[j].pos
    ensures Precedes(Ordered(valid, entries), entries[i], entries[j])
  {
    var fates, bs := Fates(valid, entries), Placed(valid, entries);
    RunKeeps(valid, entries, |entries|);
    MembersInOrder(entries, fates, i, j);
    assert Ages(bs) by { assert forall p :: 0 <= p < |bs| ==> Shaped(bs[p], p); }
    var a := SortHas(bs, fates[i].pos);
    FlatInside(Sort(bs), a, entries[i], entries[j]);
  }

  // A split transaction was sent after its own parent's bucket, but its children were not.
  ghost predicate KeepsOrder(valid: Tx -> bool, entries: seq<Tx>, i: nat, j: nat)
    requires AllProper(entries) && i < |entries| && j < |entries|
  {
    Fates(valid, entries)[i].Split? ==> Fates(valid, entries)[j].Split? && FeeRate(entries[j]) <= FeeRate(entries[i])
  }

  // The bucket of a split transaction has the transaction's own rate.
  lemma SplitRateIs(valid: Tx -> bool, entries: seq<Tx>, i: nat)
    requires AllProper(entries) && i < |entries| && Fates(valid, entries)[i].Split?
    ensures var p := Fates(valid, entries)[i].pos;
      p < |Placed(valid, entries)| && Placed(valid, entries)[p].rate == FeeRate(entries[i])
  {
    RunKeeps(valid, entries, |entries|);
  }

  // A split bucket is below the bucket of its parent, still at the sort.
  lemma SplitBelowParent(valid: Tx -> bool, entries: seq<Tx>, i: nat)
    requires AllProper(entries) && i < |entries| && Fates(valid, entries)[i].Split?
    ensures var f, bs := Fates(valid, entries)[i], Placed(valid, entries);
      f.pos < |bs| && f.parent < |bs| && bs[f.pos].rate < bs[f.parent].rate
  {
    RunKeeps(valid, entries, |entries|);
  }

  // A child comes after its parent exactly if the parent was not split off, or the child was
  // split off too, with no higher rate.
  lemma ParentFirst(valid: Tx -> bool, entries: seq<Tx>, i: nat, j: nat)
    requires AllProper(entries) && Distinct(entries) && Parent(entries, i, j)
    requires !Fates(valid, entries)[i].Rejected? && !Fates(valid, entries)[j].Rejected?
    ensures Precedes(Ordered(valid, entries), entries[i], entries[j]) <==> KeepsOrder(valid, entries, i, j)
  {
    var fates, bs, out := Fates(valid, entries), Placed(valid, entries), Ordered(valid, entries);
    ChildFate(valid, entries, i, j);
    OrderedDistinct(valid, entries);
    PosBelow(valid, entries, i, |entries|);
    PosBelow(valid, entries, j, |entries|);
    if !fates[i].Split? {
      if fates[j].Joined? {
        SameBucket(valid, entries, i, j);
      } else {
        SplitBelowParent(valid, entries, j);
        BucketsApart(valid, entries, i, j);
      }
    } else {
      ChildOfSplit(valid, entries, i, j);
    }
  }

  lemma ChildOfSplit(valid: Tx -> bool, entries: seq<Tx>, i: nat, j: nat)
    requires AllProper(entries) && Distinct(entries) && Parent(entries, i, j)
    requires Fates(valid, entries)[i].Split? && !Fates(valid, entries)[j].Rejected?
    ensures Precedes(Ordered(valid, entries), entries[i], entries[j]) <==> KeepsOrder(valid, entries, i, j)
  {
    var fates, bs, out := Fates(valid, entries), Placed(valid, entries), Ordered(valid, entries);
    ChildFate(valid, entries, i, j);
    OrderedDistinct(valid, entries);
    SplitBelowParent(valid, entries, i);
    SplitRateIs(valid, entries, i);
    RunKeeps(valid, entries, |entries|);
    var p, q := fates[i].pos, fates[j].pos;
    assert Shaped(bs[p], p) && Shaped(bs[q], q);
    if fates[j].Split? {
      SplitRateIs(valid, entries, j);
      SplitLater(valid, entries, i, j);
      if bs[q].rate <= bs[p].rate {
        BucketsApart(valid, entries, i, j);
      } else {
        BucketsApart(valid, entries, j, i);
        NotBothWays(out, entries[j], entries[i]);
      }
    } else {
      BucketsApart(valid, entries, j, i);
      NotBothWays(out, entries[j], entries[i]);
    }
  }

  // If no transaction that was split off has a chosen child, parents come before children.
  lemma ParentsFirst(valid: Tx -> bool, entries: seq<Tx>)
    requires AllProper(entries) && Distinct(entries)
    requires forall i: nat, j: nat :: Parent(entries, i, j) && Fates(valid, entries)[i].Split? ==>
               Fates(valid, entries)[j].Rejected?
    ensures forall i: nat, j: nat :: Parent(entries, i, j) && !Fates(valid, entries)[j].Rejected? ==>
              Precedes(Ordered(valid, entries), entries[i], entries[j])
  {
    forall i: nat, j: nat | Parent(entries, i, j) && !Fates(valid, entries)[j].Rejected?
      ensures Precedes(Ordered(valid, entries), entries[i], entries[j])
    {
      ChildFate(valid, entries, i, j);
      ParentFirst(valid, entries, i, j);
    }
  }

  // A split transaction has a parent.
  lemma SplitHasParent(valid: Tx -> bool, entries: seq<Tx>, i: nat) returns (h: nat)
    requires AllProper(entries) && i < |entries| && Fates(valid, entries)[i].Split?
    ensures Parent(entries, h, i)
  {
    var book := Run(valid, entries, i).0;
    FateAt(valid, entries, i);
    RunKeeps(valid, entries, i);
    ScanInIndex(book, entries[i].inputs);
    var c :| c in book.index && c in entries[i].inputs;
    assert MadeBy(entries, i, c);
    h := LastMaker(entries, i, c);
  }

  // In a pool without grandchildren, where no entry that spends an output of the pool is itself
  // spent in the pool, parents come before children, whatever the fees.
  lemma ParentsFirstWithoutGrandchildren(valid: Tx -> bool, entries: seq<Tx>)
    requires AllProper(entries) && Distinct(entries)
    requires forall h: nat, i: nat, j: nat :: Parent(entries, h, i) ==> !Parent(entries, i, j)
    ensures forall i: nat, j: nat :: Parent(entries, i, j) && !Fates(valid, entries)[j].Rejected? ==>
              Precedes(Ordered(valid, entries), entries[i], entries[j])
  {
    forall i: nat, j: nat | Parent(entries, i, j) ensures !Fates(valid, entries)[i].Split? {
      if Fates(valid, entries)[i].Split? {
        var h := SplitHasParent(valid, entries, i);
      }
    }
    ParentsFirst(valid, entries);
  }

  // ----- a pool where it fails -----

  // A child that pays the least accepted by default, 500000 per weight, is split off; a grandchild
  // that pays a lot joins the first one.
  const FIRST: Tx := Tx({1}, {2}, multiset{1}, 1_250_000_000, 0)
  const CHILD: Tx := Tx({2}, {3}, multiset{2}, 12_500_000, 0)
  const GRANDCHILD: Tx := Tx({3}, {4}, multiset{3}, 12_500_000_000, 0)

  ghost function NetOf(x: Tx, y: Tx, c: Commit): int {
    Has(c in x.inputs) - Has(c in x.outputs) + Has(c in y.inputs) - Has(c in y.outputs)
  }

  lemma Pair(x: Tx, y: Tx, ins: set<Commit>, outs: set<Commit>)
    requires forall c :: -1 <= NetOf(x, y, c) <= 1
    requires forall c :: c in ins <==> NetOf(x, y, c) == 1
    requires forall c :: c in outs <==> NetOf(x, y, c) == -1
    ensures Aggregate([x] + [y]) == Some(Tx(ins, outs, x.kernels + y.kernels, x.fee + y.fee, x.offset + y.offset))
  {
    var s := [x] + [y];
    assert s[..1] == [x] && [x][..0] == [];
    forall c ensures Net(s, c) == NetOf(x, y, c) {
      assert Net([x], c) == Has(c in x.inputs) - Has(c in x.outputs);
    }
    assert Touched([x]) == x.inputs + x.outputs;
    assert Touched(s) == x.inputs + x.outputs + y.inputs + y.outputs;
    assert Kernels([x]) == x.kernels && Fees([x]) == x.fee && Offsets([x]) == x.offset;
    assert (set c | c in Touched(s) && Net(s, c) == 1) == ins;
    assert (set c | c in Touched(s) && Net(s, c) == -1) == outs;
  }

  lemma ScanSingle(book: Book, c: Commit)
    requires book.rejected == {}
    ensures ScanOf(book, {c}) == if c in book.index then Under(book.index[c]) else Alone
  {
    assert {c} * book.rejected == {};
    if c in book.index {
      assert Hits(book, {c}) == {c};
    } else {
      assert Hits(book, {c}) == {};
    }
  }

  ghost function FirstBook(): Book { Book([Own(FIRST, 0)], map[2 := 0], {}) }

  ghost function SecondBook(): Book { Book([Own(FIRST, 0), Own(CHILD, 1)], map[2 := 0, 3 := 0], {}) }

  lemma StepOne(valid: Tx -> bool)
    ensures Step(valid, NOTHING, FIRST).0 == FirstBook()
  {
    ScanSingle(NOTHING, 1);
    assert IndexAll(map[], {2}, 0) == map[2 := 0];
  }

  lemma StepTwo(valid: Tx -> bool)
    requires forall t :: valid(t)
    ensures Step(valid, FirstBook(), CHILD).0 == SecondBook()
  {
    ScanSingle(FirstBook(), 2);
    Pair(FIRST, CHILD, {1}, {3});
    assert |multiset{1} + multiset{2}| == 2;
    assert IndexAll(map[2 := 0], {3}, 0) == map[2 := 0, 3 := 0];
  }

  lemma StepThree(valid: Tx -> bool)
    requires forall t :: valid(t)
    ensures Step(valid, SecondBook(), GRANDCHILD).0.buckets
              == [Bucket([FIRST] + [GRANDCHILD], 275_000_000, 0), Own(CHILD, 1)]
  {
    var book, joined := SecondBook(), Bucket([FIRST] + [GRANDCHILD], 275_000_000, 0);
    ScanSingle(book, 3);
    JoinedRate(valid);
    assert Own(FIRST, 0).rate <= joined.rate;
    assert book.buckets[0 := joined] == [joined, Own(CHILD, 1)];
  }

  lemma JoinedRate(valid: Tx -> bool)
    requires forall t :: valid(t)
    ensures AggregateWith(valid, Own(FIRST, 0), GRANDCHILD) == Some(Bucket([FIRST] + [GRANDCHILD], 275_000_000, 0))
  {
    Pair(FIRST, GRANDCHILD, {1, 3}, {2, 4});
    assert |multiset{1} + multiset{3}| == 2;
  }

  lemma ThreeEntries(valid: Tx -> bool, entries: seq<Tx>)
    requires (forall t :: valid(t)) && entries == [FIRST, CHILD, GRANDCHILD] && AllProper(entries)
    ensures Placed(valid, entries) == [Bucket([FIRST] + [GRANDCHILD], 275_000_000, 0), Own(CHILD, 1)]
  {
    StepOne(valid);
    StepTwo(valid);
    StepThree(valid);
    assert Run(valid, entries, 1).0 == FirstBook();
    assert Run(valid, entries, 2).0 == SecondBook();
    assert Run(valid, entries, 3).0 == Step(valid, SecondBook(), GRANDCHILD).0;
  }

  lemma TwoBuckets(x: Bucket, y: Bucket)
    requires Sooner(x, y)
    ensures Flat(Sort([x, y])) == x.raw + y.raw
  {
    assert [x, y][..1] == [x] && [x][..0] == [];
    assert Sort([x]) == [x];
    assert Insert(y, [x]) == [x] + Insert(y, [x][1..]) == [x] + [y];
    assert Sort([x, y]) == [x] + [y];
    FlatAppend([x], y);
    FlatAppend([], x);
    assert [] + [x] == [x];
  }

  lemma GrandchildFirst(valid: Tx -> bool)
    requires forall t :: valid(t)
    ensures var entries := [FIRST, CHILD, GRANDCHILD];
      && AllProper(entries) && Distinct(entries) && Parent(entries, 0, 1) && Parent(entries, 1, 2)
      && Ordered(valid, entries) == [FIRST, GRANDCHILD, CHILD]
  {
    var entries := [FIRST, CHILD, GRANDCHILD];
    assert 2 in CHILD.inputs && MadeLast(entries, 1, 0, 2);
    assert 3 in GRANDCHILD.inputs && MadeLast(entries, 2, 1, 3);
    ThreeEntries(valid, [FIRST, CHILD, GRANDCHILD]);
    TwoBuckets(Bucket([FIRST] + [GRANDCHILD], 275_000_000, 0), Own(CHILD, 1));
  }
}
