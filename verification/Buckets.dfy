/**
 Ordering the transactions of a pool by buckets of dependent transactions.

 `valid` says which aggregates are valid at the weighting in force.
 */
module Buckets {
  import opened Collections
  import opened Transactions

  datatype Bucket = Bucket(raw: seq<Tx>, rate: nat, age: nat)

  // Buckets, the bucket position for each output seen, and the outputs of rejected transactions.
  datatype Book = Book(buckets: seq<Bucket>, index: map<Commit, nat>, rejected: set<Commit>)

  datatype Scan = Reject | Alone | Under(pos: nat)

  // What happened to an entry: it opened a bucket, joined one, or was split off into a bucket of
  // its own although it depends on another one.
  datatype Fate = Rejected | Root(pos: nat) | Joined(pos: nat) | Split(pos: nat, parent: nat)

  const NOTHING: Book := Book([], map[], {})

  function Hits(book: Book, inputs: set<Commit>): set<Commit> {
    set c | c in inputs && c in book.index && c !in book.rejected
  }

  ghost function Only(s: set<Commit>): (c: Commit)
    requires |s| == 1
    ensures s == {c}
  {
    OnlyOne(s);
    var c :| s == {c};
    c
  }

  lemma OnlyOne(s: set<Commit>)
    requires |s| == 1
    ensures exists c :: s == {c}
  {
    var c :| c in s;
    assert |s - {c}| == 0;
    assert s == {c};
  }

  // One parent in the pool at most, and none that was rejected.
  ghost function ScanOf(book: Book, inputs: set<Commit>): Scan {
    if inputs * book.rejected != {} || |Hits(book, inputs)| > 1 then Reject
    else if |Hits(book, inputs)| == 1 then
      var c := Only(Hits(book, inputs));
      assert c in Hits(book, inputs);
      Under(book.index[c])
    else Alone
  }

  method ScanInputs(book: Book, inputs: set<Commit>) returns (scan: Scan)
    ensures scan == ScanOf(book, inputs)
  {
    var insertPos: Option<nat> := None;
    var isRejected := false;
    var todo := inputs;
    ghost var seen: set<Commit> := {};
    while todo != {}
      invariant Parted(inputs, seen, todo)
      invariant ScanSoFar(book, seen, insertPos, isRejected)
      decreases |todo|
    {
      var c :| c in todo;
      if c in book.rejected {
        ScanRejected(book, seen, c, insertPos, isRejected);
        isRejected := true;
      } else if c in book.index {
        ScanHit(book, seen, c, insertPos, isRejected);
        if insertPos.Some? { isRejected := true; } else { insertPos := Some(book.index[c]); }
      } else {
        ScanMiss(book, seen, c, insertPos, isRejected);
      }
      Moved(inputs, seen, todo, c);
      todo, seen := todo - {c}, seen + {c};
    }
    assert seen == inputs;
    ScanDone(book, inputs, insertPos, isRejected);
    return if isRejected then Reject else if insertPos.Some? then Under(insertPos.value) else Alone;
  }

  // The inputs seen and those to be seen.
  ghost predicate Parted(inputs: set<Commit>, seen: set<Commit>, todo: set<Commit>) {
    seen + todo == inputs && seen !! todo
  }

  lemma Moved(inputs: set<Commit>, seen: set<Commit>, todo: set<Commit>, c: Commit)
    requires Parted(inputs, seen, todo) && c in todo
    ensures Parted(inputs, seen + {c}, todo - {c})
  {
  }

  // The scan of the inputs looked at so far.
  ghost predicate ScanSoFar(book: Book, seen: set<Commit>, insertPos: Option<nat>, isRejected: bool) {
    && (isRejected <==> seen * book.rejected != {} || |Hits(book, seen)| > 1)
    && (insertPos.None? <==> |Hits(book, seen)| == 0)
    && (|Hits(book, seen)| == 1 ==> forall c :: c in Hits(book, seen) ==> Some(book.index[c]) == insertPos)
  }

  lemma ScanRejected(book: Book, seen: set<Commit>, c: Commit, insertPos: Option<nat>, isRejected: bool)
    requires ScanSoFar(book, seen, insertPos, isRejected) && c in book.rejected
    ensures ScanSoFar(book, seen + {c}, insertPos, true)
  {
    assert c in (seen + {c}) * book.rejected;
    assert Hits(book, seen + {c}) == Hits(book, seen);
  }

  lemma ScanMiss(book: Book, seen: set<Commit>, c: Commit, insertPos: Option<nat>, isRejected: bool)
    requires ScanSoFar(book, seen, insertPos, isRejected) && c !in book.rejected && c !in book.index
    ensures ScanSoFar(book, seen + {c}, insertPos, isRejected)
  {
    assert (seen + {c}) * book.rejected == seen * book.rejected;
    assert Hits(book, seen + {c}) == Hits(book, seen);
  }

  lemma ScanHit(book: Book, seen: set<Commit>, c: Commit, insertPos: Option<nat>, isRejected: bool)
    requires ScanSoFar(book, seen, insertPos, isRejected) && c !in seen && c !in book.rejected && c in book.index
    ensures insertPos.Some? ==> ScanSoFar(book, seen + {c}, insertPos, true)
    ensures insertPos.None? ==> ScanSoFar(book, seen + {c}, Some(book.index[c]), isRejected)
  {
    var hits := Hits(book, seen);
    assert (seen + {c}) * book.rejected == seen * book.rejected;
    assert Hits(book, seen + {c}) == hits + {c};
    assert |hits + {c}| == |hits| + 1;
    if insertPos.None? { assert hits == {}; }
  }

  lemma ScanDone(book: Book, inputs: set<Commit>, insertPos: Option<nat>, isRejected: bool)
    requires ScanSoFar(book, inputs, insertPos, isRejected)
    ensures ScanOf(book, inputs) ==
            if isRejected then Reject else if insertPos.Some? then Under(insertPos.value) else Alone
  {
    if |Hits(book, inputs)| == 1 {
      assert Only(Hits(book, inputs)) in Hits(book, inputs);
    }
  }

  // ----- placing the entries -----

  predicate AllProper(txs: seq<Tx>) {
    forall i :: 0 <= i < |txs| ==> Proper(txs[i])
  }

  lemma AggregateProper(raw: seq<Tx>, t: Tx)
    requires Proper(t) && Aggregate(raw + [t]).Some?
    ensures Proper(Aggregate(raw + [t]).value)
  {
    if raw == [] {
      assert raw + [t] == [t];
    } else {
      assert (raw + [t])[..|raw|] == raw;
    }
  }

  function AggregateWith(valid: Tx -> bool, b: Bucket, t: Tx): Option<Bucket>
    requires Proper(t)
  {
    match Aggregate(b.raw + [t])
    case None => None
    case Some(a) =>
      AggregateProper(b.raw, t);
      if valid(a) then Some(Bucket(b.raw + [t], FeeRate(a), b.age)) else None
  }

  function Own(t: Tx, pos: nat): Bucket
    requires Proper(t)
  {
    Bucket([t], FeeRate(t), pos)
  }

  function IndexAll(index: map<Commit, nat>, outputs: set<Commit>, pos: nat): map<Commit, nat> {
    index + (map c | c in outputs :: pos)
  }

  ghost function Refuse(book: Book, t: Tx): (Book, Fate) {
    (book.(rejected := book.rejected + t.outputs), Rejected)
  }

  // The book after an entry.  A transaction that is split off leaves its outputs with the bucket
  // of its parent.
  ghost function Step(valid: Tx -> bool, book: Book, t: Tx): (Book, Fate)
    requires Proper(t)
  {
    var n := |book.buckets|;
    match ScanOf(book, t.inputs)
    case Reject => Refuse(book, t)
    case Alone => (Book(book.buckets + [Own(t, n)], IndexAll(book.index, t.outputs, n), book.rejected), Root(n))
    case Under(p) =>
      if p >= n then Refuse(book, t)
      else match AggregateWith(valid, book.buckets[p], t)
        case None => Refuse(book, t)
        case Some(b) =>
          if b.rate >= book.buckets[p].rate
          then (Book(book.buckets[p := b], IndexAll(book.index, t.outputs, p), book.rejected), Joined(p))
          else (Book(book.buckets + [Own(t, n)], IndexAll(book.index, t.outputs, p), book.rejected), Split(n, p))
  }

  ghost function Run(valid: Tx -> bool, entries: seq<Tx>, n: nat): (r: (Book, seq<Fate>))
    requires n <= |entries| && AllProper(entries)
    ensures |r.1| == n
  {
    if n == 0 then (NOTHING, [])
    else
      var (book, fates) := Run(valid, entries, n - 1);
      var (book', fate) := Step(valid, book, entries[n - 1]);
      (book', fates + [fate])
  }

  // ----- the order of the buckets -----

  // Higher rate first, then older first.
  predicate Sooner(a: Bucket, b: Bucket) {
    a.rate > b.rate || (a.rate == b.rate && a.age < b.age)
  }

  function Insert(b: Bucket, s: seq<Bucket>): seq<Bucket> {
    if s == [] || Sooner(b, s[0]) then [b] + s else [s[0]] + Insert(b, s[1..])
  }

  function Sort(s: seq<Bucket>): seq<Bucket> {
    if s == [] then [] else Insert(s[|s| - 1], Sort(s[..|s| - 1]))
  }

  function Flat(s: seq<Bucket>): seq<Tx> {
    if s == [] then [] else s[0].raw + Flat(s[1..])
  }

  // The transactions in the order in which a miner would take them.
  ghost function Ordered(valid: Tx -> bool, entries: seq<Tx>): seq<Tx>
    requires AllProper(entries)
  {
    Flat(Sort(Run(valid, entries, |entries|).0.buckets))
  }

  method BucketTransactions(valid: Tx -> bool, entries: seq<Tx>) returns (txs: seq<Tx>)
    requires AllProper(entries)
    ensures txs == Ordered(valid, entries)
  {
    var buckets: seq<Bucket> := [];
    var outputCommits: map<Commit, nat> := map[];
    var rejected: set<Commit> := {};
    for i := 0 to |entries|
      invariant Book(buckets, outputCommits, rejected) == Run(valid, entries, i).0
    {
      var t := entries[i];
      assert Proper(t);
      buckets, outputCommits, rejected := PlaceEntry(valid, buckets, outputCommits, rejected, t);
    }
    txs := Flat(Sort(buckets));
  }

  method PlaceEntry(valid: Tx -> bool, oldBuckets: seq<Bucket>, commits: map<Commit, nat>, refused: set<Commit>, t: Tx)
    returns (buckets: seq<Bucket>, outputCommits: map<Commit, nat>, rejected: set<Commit>)
    requires Proper(t)
    ensures Book(buckets, outputCommits, rejected) == Step(valid, Book(oldBuckets, commits, refused), t).0
  {
    buckets, outputCommits, rejected := oldBuckets, commits, refused;
    var scan := ScanInputs(Book(buckets, outputCommits, rejected), t.inputs);
    var isRejected := scan.Reject?;
    var insertPos := 0;
    match scan {
      case Reject =>
      case Alone =>
        insertPos := |buckets|;
        buckets := buckets + [Own(t, |buckets|)];
      case Under(pos) =>
        insertPos := pos;
        if pos >= |buckets| {
          isRejected := true;
        } else {
          var b := AggregateWith(valid, buckets[pos], t);
          if b.Some? {
            if b.value.rate >= buckets[pos].rate {
              buckets := buckets[pos := b.value];
            } else {
              buckets := buckets + [Own(t, |buckets|)];
            }
          } else {
            isRejected := true;
          }
        }
    }
    if isRejected {
      rejected := rejected + t.outputs;
    } else {
      outputCommits := IndexAll(outputCommits, t.outputs, insertPos);
    }
  }
}
