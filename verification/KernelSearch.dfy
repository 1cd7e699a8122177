/**
 Looking up a kernel and the height of the block it came with.

 `sizes` holds the kernel MMR size of every header of the header chain, by height.  `kernels` is
 the kernel MMR of the body head, None where a position is no leaf.
 */
module KernelSearch {
  import opened Collections

  datatype Result<+T> = Ok(value: T) | NoHeader

  // Every block brings a kernel.
  ghost predicate Increasing(sizes: seq<nat>) {
    forall i, j :: 0 <= i < j < |sizes| ==> sizes[i] < sizes[j]
  }

  // The index belongs to the block at this height.
  ghost predicate IsHeightOf(sizes: seq<nat>, index: nat, h: nat) {
    h < |sizes| && index <= sizes[h] && (h > 0 ==> sizes[h - 1] < index)
  }

  lemma HeightIsUnique(sizes: seq<nat>, index: nat, h: nat, h': nat)
    requires Increasing(sizes) && IsHeightOf(sizes, index, h) && IsHeightOf(sizes, index, h')
    ensures h == h'
  {
  }

  // ----- one round of the search -----

  datatype Search = Running(min: nat, max: nat) | Found(height: nat) | Failed

  function Probe(min: nat, max: nat): nat
    requires min <= max
  {
    max - (max - min) / 2
  }

  function Round(sizes: seq<nat>, index: nat, min: nat, max: nat): Search
    requires min <= max
  {
    var s := Probe(min, max);
    if s >= |sizes| then Failed
    else if s == 0 then Found(0)
    else if index > sizes[s] then Running(s, max)
    else if index < sizes[s - 1] then Running(min, s)
    else if index == sizes[s - 1] then Found(s - 1)
    else Found(s)
  }

  // After n rounds.
  ghost function Rounds(sizes: seq<nat>, index: nat, min: nat, max: nat, n: nat): Search
    requires min <= max
    decreases n
  {
    if n == 0 then Running(min, max)
    else match Round(sizes, index, min, max)
      case Running(a, b) => Rounds(sizes, index, a, b, n - 1)
      case Found(h) => Found(h)
      case Failed => Failed
  }

  // The bounds from which the search comes to an end: the index lies between them, or the first
  // probe, or one that follows, lies beyond the header chain.
  predicate Terminates(sizes: seq<nat>, index: nat, min: nat, max: nat) {
    && min <= max
    && if max < |sizes| then max == 0 || sizes[if min < max then min else max - 1] <= index <= sizes[max]
       else min >= |sizes| || sizes[min] <= index || Probe(min, max) >= |sizes|
  }

  // A round from such bounds gives a verdict or closer bounds of the same kind.  The height found
  // is the right one, except that a search bounded by height 0 does not look at the index.
  lemma RoundTerminates(sizes: seq<nat>, index: nat, min: nat, max: nat)
    requires Increasing(sizes) && Terminates(sizes, index, min, max)
    ensures match Round(sizes, index, min, max) {
        case Running(a, b) => b <= max && b - a < max - min && Terminates(sizes, index, a, b) && b > 0
        case Found(h) => IsHeightOf(sizes, index, h) || (max == 0 && h == 0)
        case Failed => max >= |sizes|
      }
  {
    var s := Probe(min, max);
    HalfWay(min, max, s);
    if s < |sizes| && s > 0 {
      if index > sizes[s] {
        Above(sizes, index, min, max, s);
      } else if index < sizes[s - 1] {
        Below(sizes, index, min, max, s);
      }
    }
  }

  lemma HalfWay(min: nat, max: nat, s: nat)
    requires min <= max && s == Probe(min, max)
    ensures min <= s <= max && (min < max ==> min < s) && max - s <= s - min
  {
  }

  // The search goes on above its probe ...
  lemma Above(sizes: seq<nat>, index: nat, min: nat, max: nat, s: nat)
    requires Increasing(sizes) && Terminates(sizes, index, min, max) && s == Probe(min, max)
    requires 0 < s < |sizes| && index > sizes[s]
    ensures max > 0 && max - s < max - min && Terminates(sizes, index, s, max)
  {
    HalfWay(min, max, s);
    if max < |sizes| {
      assert s < max;
    }
  }

  // ... or below it.
  lemma Below(sizes: seq<nat>, index: nat, min: nat, max: nat, s: nat)
    requires Increasing(sizes) && Terminates(sizes, index, min, max) && s == Probe(min, max)
    requires 0 < s < |sizes| && index < sizes[s - 1]
    ensures s - min < max - min && Terminates(sizes, index, min, s)
  {
    HalfWay(min, max, s);
    assert min < |sizes| && sizes[min] <= index;
    assert min < s - 1;
  }

  // Where the search ends.
  ghost function EndOf(sizes: seq<nat>, index: nat, min: nat, max: nat): Search
    requires Increasing(sizes) && Terminates(sizes, index, min, max)
    decreases max - min
  {
    RoundTerminates(sizes, index, min, max);
    match Round(sizes, index, min, max)
    case Running(a, b) => EndOf(sizes, index, a, b)
    case x => x
  }

  // The verdict: the right height, or none if the upper bound lies beyond the header chain.
  lemma {:induction false} EndIs(sizes: seq<nat>, index: nat, min: nat, max: nat)
    requires Increasing(sizes) && Terminates(sizes, index, min, max)
    ensures match EndOf(sizes, index, min, max) {
        case Running(_, _) => false
        case Found(h) => IsHeightOf(sizes, index, h) || (max == 0 && h == 0)
        case Failed => max >= |sizes|
      }
    decreases max - min
  {
    RoundTerminates(sizes, index, min, max);
    match Round(sizes, index, min, max)
    case Running(a, b) => EndIs(sizes, index, a, b);
    case _ =>
  }

  // It gets there in no more rounds than there are heights between the bounds.
  lemma {:induction false} EndsInTime(sizes: seq<nat>, index: nat, min: nat, max: nat, n: nat)
    requires Increasing(sizes) && Terminates(sizes, index, min, max) && n > max - min
    ensures Rounds(sizes, index, min, max, n) == EndOf(sizes, index, min, max)
    decreases n
  {
    RoundTerminates(sizes, index, min, max);
    match Round(sizes, index, min, max)
    case Running(a, b) => EndsInTime(sizes, index, a, b, n - 1);
    case _ =>
  }

  // From any other bounds it goes on for ever.
  lemma {:induction false} NeverEnds(sizes: seq<nat>, index: nat, min: nat, max: nat, n: nat)
    requires Increasing(sizes) && min <= max && !Terminates(sizes, index, min, max)
    ensures Rounds(sizes, index, min, max, n).Running?
    decreases n
  {
    if n > 0 {
      var s := Probe(min, max);
      var next := Round(sizes, index, min, max);
      assert s > 0 && (min < max ==> min < s);
      assert next.Running? && next.min <= next.max && !Terminates(sizes, index, next.min, next.max);
      NeverEnds(sizes, index, next.min, next.max, n - 1);
    }
  }

  lemma EndsExactly(sizes: seq<nat>, index: nat, min: nat, max: nat)
    requires Increasing(sizes) && min <= max
    ensures (exists n: nat :: !Rounds(sizes, index, min, max, n).Running?) <==> Terminates(sizes, index, min, max)
  {
    if Terminates(sizes, index, min, max) {
      EndsInTime(sizes, index, min, max, max - min + 1);
      EndIs(sizes, index, min, max);
    } else {
      forall n: nat ensures Rounds(sizes, index, min, max, n).Running? { NeverEnds(sizes, index, min, max, n); }
    }
  }

  // ----- the search -----

  // From these bounds the search ends with this.
  ghost predicate Heads(sizes: seq<nat>, index: nat, min: nat, max: nat, end: Search) {
    Increasing(sizes) && Terminates(sizes, index, min, max) && EndOf(sizes, index, min, max) == end
  }

  // One turn of the loop below.
  lemma Turn(sizes: seq<nat>, index: nat, min: nat, max: nat, end: Search)
    requires Heads(sizes, index, min, max, end)
    ensures match Round(sizes, index, min, max) {
        case Running(a, b) => a <= b && b - a < max - min && Heads(sizes, index, a, b, end)
        case x => end == x
      }
  {
    RoundTerminates(sizes, index, min, max);
  }

  // The body of the loop below.
  method OneRound(sizes: seq<nat>, index: nat, min: nat, max: nat) returns (r: Search)
    requires min <= max
    ensures r == Round(sizes, index, min, max)
  {
    var search := max - (max - min) / 2;
    if search >= |sizes| { return Failed; }
    if search == 0 { return Found(0); }
    if index > sizes[search] {
      return Running(search, max);
    } else if index < sizes[search - 1] {
      return Running(min, search);
    } else {
      if index == sizes[search - 1] { return Found(search - 1); }
      return Found(search);
    }
  }

  // The height of the block with a kernel, by bisection, for all bounds from which it ends.
  method GetHeaderForKernelIndex(sizes: seq<nat>, headHeight: nat, index: nat, minHeight: Option<nat>,
                                 maxHeight: Option<nat>)
    returns (r: Result<nat>)
    requires Increasing(sizes) && Terminates(sizes, index, From(minHeight), UpTo(headHeight, maxHeight))
    ensures r == Verdict(EndOf(sizes, index, From(minHeight), UpTo(headHeight, maxHeight)))
    ensures r.Ok? ==> IsHeightOf(sizes, index, r.value) || (UpTo(headHeight, maxHeight) == 0 && r.value == 0)
    ensures r.NoHeader? ==> UpTo(headHeight, maxHeight) >= |sizes|
  {
    var min: nat, max: nat := From(minHeight), UpTo(headHeight, maxHeight);
    EndIs(sizes, index, min, max);
    r := Bisect(sizes, index, min, max);
  }

  method Bisect(sizes: seq<nat>, index: nat, least: nat, most: nat) returns (r: Result<nat>)
    requires Increasing(sizes) && Terminates(sizes, index, least, most)
    ensures r == Verdict(EndOf(sizes, index, least, most))
  {
    var min, max := least, most;
    ghost var end := EndOf(sizes, index, least, most);
    while true
      invariant min <= max && Heads(sizes, index, min, max, end)
      decreases max - min
    {
      Turn(sizes, index, min, max, end);
      var round := OneRound(sizes, index, min, max);
      match round {
        case Running(a, b) => min, max := a, b;
        case Found(h) => return Ok(h);
        case Failed => return NoHeader;
      }
    }
  }

  function Verdict(end: Search): Result<nat> {
    if end.Found? then Ok(end.height) else NoHeader
  }

  // The lower bound of the search.
  function From(minHeight: Option<nat>): nat {
    match minHeight
    case None => 0
    case Some(h) => if h > 0 then h - 1 else 0
  }

  // The search starts one below the least height asked for.
  lemma FromIs(h: nat)
    ensures From(None) == 0 && From(Some(0)) == 0 && From(Some(h + 1)) == h
  {
  }

  function UpTo(headHeight: nat, maxHeight: Option<nat>): nat {
    match maxHeight
    case None => headHeight
    case Some(h) => h
  }

  predicate HoldsAt<K(==)>(kernels: seq<Option<K>>, k: K, index: nat) {
    1 <= index <= |kernels| && kernels[index - 1] == Some(k)
  }

  // The last index of the kernel between lo and hi.
  function LastIndex<K(==)>(kernels: seq<Option<K>>, k: K, lo: nat, hi: nat): (r: Option<nat>)
    ensures r.Some? ==> lo <= r.value <= hi && 1 <= r.value <= |kernels| && kernels[r.value - 1] == Some(k)
    ensures forall j: nat :: j < |kernels| && lo <= j + 1 <= hi && kernels[j] == Some(k) ==> r.Some? && j + 1 <= r.value
    ensures forall i: nat :: lo <= i <= hi && HoldsAt(kernels, k, i) ==> r.Some? && i <= r.value
    decreases hi
  {
    if hi < lo || hi == 0 then None
    else if HoldsAt(kernels, k, hi) then Some(hi)
    else LastIndex(kernels, k, lo, hi - 1)
  }

  function Lower(minIndex: Option<nat>): nat {
    if minIndex.Some? then minIndex.value else 1
  }

  method FindKernel<K(==)>(kernels: seq<Option<K>>, k: K, minIndex: Option<nat>, maxIndex: Option<nat>)
    returns (r: Option<nat>)
    requires minIndex.Some? ==> minIndex.value >= 1
    ensures r == LastIndex(kernels, k, Lower(minIndex), if maxIndex.Some? then maxIndex.value else |kernels|)
  {
    var lo := Lower(minIndex);
    var hi := if maxIndex.Some? then maxIndex.value else |kernels|;
    var index: nat := hi + 1;
    while index > lo
      invariant index <= hi + 1
      invariant index > lo ==> LastIndex(kernels, k, lo, index - 1) == LastIndex(kernels, k, lo, hi)
      invariant index <= lo ==> LastIndex(kernels, k, lo, hi) == None
    {
      index := index - 1;
      if HoldsAt(kernels, k, index) { return Some(index); }
    }
    return None;
  }

  // ----- the lookup -----

  datatype Range = Nothing | Missing | Between(lo: nat, hi: nat)

  // Which indexes to look at for the given heights.
  function RangeOf(sizes: seq<nat>, headHeight: nat, n: nat, minHeight: Option<nat>, maxHeight: Option<nat>): Range {
    var least := if minHeight.Some? then minHeight.value else 0;
    if maxHeight.Some? && least > maxHeight.value then Nothing
    else if least > headHeight then Nothing
    else if least > 0 && least >= |sizes| then Missing
    else if maxHeight.Some? && |sizes| <= maxHeight.value <= headHeight then Missing
    else Between(if least > 0 then sizes[least - 1] + 1 else 1,
                 if maxHeight.Some? && maxHeight.value <= headHeight then sizes[maxHeight.value] else n)
  }

  // The index that the lookup finds in the kernel MMR.
  function IndexOf<K(==)>(sizes: seq<nat>, headHeight: nat, kernels: seq<Option<K>>, k: K,
                          minHeight: Option<nat>, maxHeight: Option<nat>): Option<nat>
  {
    match RangeOf(sizes, headHeight, |kernels|, minHeight, maxHeight)
    case Between(lo, hi) => LastIndex(kernels, k, lo, hi)
    case _ => None
  }

  // The kernel at this index came with a block of a height within the bounds.
  ghost predicate Within(sizes: seq<nat>, index: nat, h: nat, minHeight: Option<nat>, maxHeight: Option<nat>) {
    && IsHeightOf(sizes, index, h)
    && (minHeight.Some? ==> minHeight.value <= h)
    && (maxHeight.Some? ==> h <= maxHeight.value)
  }

  // The kernel MMR is the one of the header chain at the body head's height, and genesis has a
  // kernel at most.
  ghost predicate Aligned<K>(sizes: seq<nat>, headHeight: nat, kernels: seq<Option<K>>) {
    headHeight < |sizes| && sizes[0] <= 1 && |kernels| == sizes[headHeight]
  }

  // Finds the last kernel with this excess in a block within the given heights, with its block's
  // height, whenever the search for the height ends.
  method GetKernelHeight<K(==)>(sizes: seq<nat>, headHeight: nat, kernels: seq<Option<K>>, k: K,
                                minHeight: Option<nat>, maxHeight: Option<nat>)
    returns (r: Result<Option<(nat, nat)>>)
    requires Increasing(sizes)
    requires IndexOf(sizes, headHeight, kernels, k, minHeight, maxHeight).Some? ==>
               Terminates(sizes, IndexOf(sizes, headHeight, kernels, k, minHeight, maxHeight).value,
                          From(minHeight), UpTo(headHeight, maxHeight))
    ensures r == match IndexOf(sizes, headHeight, kernels, k, minHeight, maxHeight) {
        case None => if RangeOf(sizes, headHeight, |kernels|, minHeight, maxHeight).Missing? then NoHeader else Ok(None)
        case Some(i) =>
          match EndOf(sizes, i, From(minHeight), UpTo(headHeight, maxHeight)) {
            case Found(h) => Ok(Some((h, i)))
            case _ => NoHeader
          }
      }
  {
    var range, minIndex, maxIndex := FindRange(sizes, headHeight, |kernels|, minHeight, maxHeight);
    if range.Nothing? { return Ok(None); }
    if range.Missing? { return NoHeader; }
    var found := FindKernel(kernels, k, minIndex, maxIndex);
    if found.None? { return Ok(None); }
    var header := GetHeaderForKernelIndex(sizes, headHeight, found.value, minHeight, maxHeight);
    if header.NoHeader? { return NoHeader; }
    return Ok(Some((header.value, found.value)));
  }

  // The bounds for the kernel MMR, None where there is none.
  method FindRange(sizes: seq<nat>, headHeight: nat, n: nat, minHeight: Option<nat>, maxHeight: Option<nat>)
    returns (range: Range, minIndex: Option<nat>, maxIndex: Option<nat>)
    ensures range == RangeOf(sizes, headHeight, n, minHeight, maxHeight)
    ensures minIndex.Some? ==> minIndex.value >= 1
    ensures range.Between? ==> range == Between(Lower(minIndex), if maxIndex.Some? then maxIndex.value else n)
  {
    minIndex, maxIndex := None, None;
    if minHeight.Some? && maxHeight.Some? && minHeight.value > maxHeight.value { return Nothing, minIndex, maxIndex; }
    if minHeight.Some? && minHeight.value != 0 {
      var h := minHeight.value;
      if h > headHeight { return Nothing, minIndex, maxIndex; }
      if h >= |sizes| { return Missing, minIndex, maxIndex; }
      minIndex := Some(sizes[h - 1] + 1);
    }
    if maxHeight.Some? && maxHeight.value <= headHeight {
      if maxHeight.value >= |sizes| { return Missing, minIndex, maxIndex; }
      maxIndex := Some(sizes[maxHeight.value]);
    }
    range := Between(Lower(minIndex), if maxIndex.Some? then maxIndex.value else n);
  }

  // With the body head on the header chain, the lookup always ends and finds the last kernel that
  // came with a block within the heights; it fails only if the upper height lies beyond the chain.
  lemma AlignedLookup<K>(sizes: seq<nat>, headHeight: nat, kernels: seq<Option<K>>, k: K,
                         minHeight: Option<nat>, maxHeight: Option<nat>)
    requires Increasing(sizes) && Aligned(sizes, headHeight, kernels)
    ensures !RangeOf(sizes, headHeight, |kernels|, minHeight, maxHeight).Missing?
    ensures match IndexOf(sizes, headHeight, kernels, k, minHeight, maxHeight) {
        case None => forall i: nat, h: nat :: HoldsAt(kernels, k, i) ==> !Within(sizes, i, h, minHeight, maxHeight)
        case Some(i) =>
          && HoldsAt(kernels, k, i)
          && Terminates(sizes, i, From(minHeight), UpTo(headHeight, maxHeight))
          && match EndOf(sizes, i, From(minHeight), UpTo(headHeight, maxHeight)) {
             case Found(h) => Within(sizes, i, h, minHeight, maxHeight)
             case _ => maxHeight.Some? && maxHeight.value >= |sizes|
          }
          && forall j: nat, h: nat :: HoldsAt(kernels, k, j) && Within(sizes, j, h, minHeight, maxHeight) ==> j <= i
      }
  {
    RangeIs(sizes, headHeight, |kernels|, minHeight, maxHeight);
    match IndexOf(sizes, headHeight, kernels, k, minHeight, maxHeight)
    case None =>
    case Some(i) =>
      InBounds(sizes, headHeight, |kernels|, minHeight, maxHeight, i);
      EndIs(sizes, i, From(minHeight), UpTo(headHeight, maxHeight));
      InHeights(sizes, headHeight, |kernels|, minHeight, maxHeight, i);
  }

  // The indexes of the range are those of the kernels of blocks within the heights.
  lemma RangeIs(sizes: seq<nat>, headHeight: nat, n: nat, minHeight: Option<nat>, maxHeight: Option<nat>)
    requires Increasing(sizes) && headHeight < |sizes| && sizes[0] <= 1 && n == sizes[headHeight]
    ensures match RangeOf(sizes, headHeight, n, minHeight, maxHeight) {
        case Missing => false
        case Nothing => forall i: nat, h: nat :: 1 <= i <= n ==> !Within(sizes, i, h, minHeight, maxHeight)
        case Between(lo, hi) =>
          lo >= 1 && hi <= n && forall i: nat, h: nat :: 1 <= i <= n && Within(sizes, i, h, minHeight, maxHeight) ==>
            lo <= i <= hi
      }
  {
  }

  // So the search for their height ends ...
  lemma InBounds(sizes: seq<nat>, headHeight: nat, n: nat, minHeight: Option<nat>, maxHeight: Option<nat>, i: nat)
    requires Increasing(sizes) && headHeight < |sizes| && sizes[0] <= 1 && n == sizes[headHeight]
    requires RangeOf(sizes, headHeight, n, minHeight, maxHeight).Between?
    requires var range := RangeOf(sizes, headHeight, n, minHeight, maxHeight); range.lo <= i <= range.hi
    ensures Terminates(sizes, i, From(minHeight), UpTo(headHeight, maxHeight))
    ensures UpTo(headHeight, maxHeight) == 0 ==> i <= sizes[0]
  {
  }

  // ... with a height within the heights.
  lemma InHeights(sizes: seq<nat>, headHeight: nat, n: nat, minHeight: Option<nat>, maxHeight: Option<nat>, i: nat)
    requires Increasing(sizes) && headHeight < |sizes| && sizes[0] <= 1 && n == sizes[headHeight]
    requires RangeOf(sizes, headHeight, n, minHeight, maxHeight).Between?
    requires var range := RangeOf(sizes, headHeight, n, minHeight, maxHeight); range.lo <= i <= range.hi
    ensures forall h: nat :: IsHeightOf(sizes, i, h) ==> Within(sizes, i, h, minHeight, maxHeight)
  {
  }

  // With the body head on another branch it may not end: the header chain is a heavier fork with
  // fewer kernels, and the kernel looked up is the last of the body chain.
  lemma LookupNeverEnds<K>(kernels: seq<Option<K>>, k: K)
    requires |kernels| == 8 && kernels[7] == Some(k)
    ensures var sizes := [1, 3, 4];
      && Increasing(sizes) && IndexOf(sizes, 2, kernels, k, None, None) == Some(8)
      && forall n: nat :: Rounds(sizes, 8, From(None), UpTo(2, None), n).Running?
  {
    forall n: nat ensures Rounds([1, 3, 4], 8, 0, 2, n).Running? { NeverEnds([1, 3, 4], 8, 0, 2, n); }
  }
}
