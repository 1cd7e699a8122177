/**
 Repacking bits between machine words: bytes into 11-bit words by a loop that goes from the most
 significant bit down, and back by a loop that goes from the least significant bit up.  Both
 loops are proved to preserve one flat bit string.  Bits are digits in base 2, most significant
 first.  The digest is a parameter.
 */
module BitPacking {
  import opened Numerals

  datatype Checked = Accepted(entropy: seq<nat>) | BadChecksum(expected: nat, actual: nat)

  // The first byte of the digest.
  type Hash = seq<nat> -> nat

  // ----- bits of machine words -----

  // Bit k of x: x & (1 << k) != 0.
  function Bit(x: nat, k: nat): (b: nat)
    ensures b <= 1
  {
    if k == 0 then x % 2 else Bit(x / 2, k - 1)
  }

  // x | (b << k).
  function OrBit(x: nat, k: nat, b: nat): nat {
    if k == 0 then (if b == 1 then x / 2 * 2 + 1 else x)
    else OrBit(x / 2, k - 1, b) * 2 + x % 2
  }

  // x >> k.
  function Shr(x: nat, k: nat): nat {
    if k == 0 then x else Shr(x / 2, k - 1)
  }

  // x & ((1 << k) - 1), which is also the truncating cast to k bits.
  function Low(x: nat, k: nat): nat {
    if k == 0 then 0 else Low(x / 2, k - 1) * 2 + x % 2
  }

  // The low w bits of x.
  function BitsOf(x: nat, w: nat): (s: seq<nat>)
    ensures |s| == w
  {
    if w == 0 then [] else BitsOf(x / 2, w - 1) + [x % 2]
  }

  // All bits of a sequence of w-bit words.
  function Bits(xs: seq<nat>, w: nat): (s: seq<nat>)
    ensures |s| == Times(|xs|, w)
  {
    if xs == [] then [] else BitsOf(xs[0], w) + Bits(xs[1..], w)
  }

  // The w-bit words spelled by a bit string.
  function Group(bits: seq<nat>, w: nat): seq<nat>
    requires w > 0
  {
    if |bits| < w then [] else [Val(bits[..w], 2)] + Group(bits[w..], w)
  }

  ghost predicate Whole(bits: seq<nat>, w: nat)
    requires w > 0
  {
    bits == [] || (|bits| >= w && Whole(bits[w..], w))
  }

  lemma {:induction false} BitsAreBinary(x: nat, w: nat)
    ensures Digits(BitsOf(x, w), 2)
  {
    if w > 0 { BitsAreBinary(x / 2, w - 1); }
  }

  lemma {:induction false} AllBitsAreBinary(xs: seq<nat>, w: nat)
    ensures Digits(Bits(xs, w), 2)
  {
    if xs != [] {
      BitsAreBinary(xs[0], w);
      AllBitsAreBinary(xs[1..], w);
    }
  }

  lemma {:induction false} ValOfBits(x: nat, w: nat)
    requires x < Pow(2, w)
    ensures Val(BitsOf(x, w), 2) == x
  {
    if w > 0 {
      ValOfBits(x / 2, w - 1);
      var s := BitsOf(x, w);
      assert s[..|s| - 1] == BitsOf(x / 2, w - 1);
    }
  }

  lemma BitsOfVal(s: seq<nat>)
    requires Digits(s, 2)
    ensures Val(s, 2) < Pow(2, |s|)
    ensures BitsOf(Val(s, 2), |s|) == s
  {
    ValBound(s, 2);
    ValOfBits(Val(s, 2), |s|);
    BitsAreBinary(Val(s, 2), |s|);
    ValInjective(BitsOf(Val(s, 2), |s|), s, 2);
  }

  lemma {:induction false} GroupOfBits(xs: seq<nat>, w: nat)
    requires w > 0 && Digits(xs, Pow(2, w))
    ensures Group(Bits(xs, w), w) == xs
    ensures Whole(Bits(xs, w), w)
  {
    if xs != [] {
      var s := Bits(xs, w);
      assert s[..w] == BitsOf(xs[0], w) && s[w..] == Bits(xs[1..], w);
      ValOfBits(xs[0], w);
      GroupOfBits(xs[1..], w);
      assert xs == [xs[0]] + xs[1..];
    }
  }

  lemma {:induction false} BitsOfGroup(bits: seq<nat>, w: nat)
    requires w > 0 && Digits(bits, 2) && Whole(bits, w)
    ensures Digits(Group(bits, w), Pow(2, w))
    ensures Bits(Group(bits, w), w) == bits
  {
    if bits != [] {
      BitsOfVal(bits[..w]);
      BitsOfGroup(bits[w..], w);
      assert Group(bits, w)[1..] == Group(bits[w..], w);
      SplitAt(bits, w);
    }
  }

  lemma {:induction false} BitOfBits(x: nat, w: nat, k: nat)
    requires k < w
    ensures BitsOf(x, w)[w - 1 - k] == Bit(x, k)
  {
    if k > 0 { BitOfBits(x / 2, w - 1, k - 1); }
  }

  // Or-ing one bit into a word changes that bit only.
  lemma {:induction false} OrBitOfBits(x: nat, w: nat, k: nat, b: nat)
    requires k < w && b <= 1
    ensures BitsOf(OrBit(x, k, b), w) == Raise(BitsOf(x, w), w - 1 - k, b)
  {
    var y := OrBit(x, k, b);
    if k > 0 {
      OrBitOfBits(x / 2, w - 1, k - 1, b);
      assert y / 2 == OrBit(x / 2, k - 1, b) && y % 2 == x % 2;
    } else {
      assert y / 2 == x / 2;
    }
  }

  lemma {:induction false} OrBitBound(x: nat, w: nat, k: nat, b: nat)
    requires k < w && b <= 1 && x < Pow(2, w)
    ensures OrBit(x, k, b) < Pow(2, w)
  {
    var p := Pow(2, w - 1);
    assert Pow(2, w) == 2 * p;
    if k > 0 { OrBitBound(x / 2, w - 1, k - 1, b); }
  }

  lemma {:induction false} FlatIndex(q: nat, n: nat, w: nat, r: nat)
    requires q < n && r < w
    ensures Times(q, w) + r < Times(n, w)
  {
    if q > 0 { FlatIndex(q - 1, n - 1, w, r); }
  }

  function Raise(s: seq<nat>, i: nat, b: nat): seq<nat>
    requires i < |s|
  {
    if b == 1 then s[i := 1] else s
  }

  lemma RaiseInConcat(s: seq<nat>, t: seq<nat>, i: nat, b: nat)
    ensures i < |s| ==> Raise(s + t, i, b) == Raise(s, i, b) + t
    ensures i < |t| ==> Raise(s + t, |s| + i, b) == s + Raise(t, i, b)
  {
  }

  // The same inside a sequence of words: replacing word q by itself with one bit or-ed in
  // changes exactly one bit, at position p, of the flat bit string.
  lemma {:induction false} SetBit(xs: seq<nat>, w: nat, q: nat, r: nat, b: nat, y: nat, p: nat)
    requires q < |xs| && r < w && b <= 1
    requires y == OrBit(xs[q], w - 1 - r, b) && p == Times(q, w) + r
    ensures p < |Bits(xs, w)|
    ensures Bits(xs[q := y], w) == Raise(Bits(xs, w), p, b)
  {
    FlatIndex(q, |xs|, w, r);
    if q == 0 {
      SetBitFirst(xs, w, r, b);
    } else {
      var x, rest := xs[0], xs[1..];
      SetBit(rest, w, q - 1, r, b, y, p - w);
      assert xs[q := y] == [x] + rest[q - 1 := y] && xs == [x] + rest;
      SetBitRest(x, rest, rest[q - 1 := y], w, p - w, b);
    }
  }

  lemma SetBitRest(x: nat, rest: seq<nat>, rest': seq<nat>, w: nat, i: nat, b: nat)
    requires i < |Bits(rest, w)| && Bits(rest', w) == Raise(Bits(rest, w), i, b)
    ensures w + i < |Bits([x] + rest, w)|
    ensures Bits([x] + rest', w) == Raise(Bits([x] + rest, w), w + i, b)
  {
    BitsPrepend(x, rest, w);
    BitsPrepend(x, rest', w);
    RaiseInConcat(BitsOf(x, w), Bits(rest, w), i, b);
  }

  lemma BitsPrepend(x: nat, xs: seq<nat>, w: nat)
    ensures Bits([x] + xs, w) == BitsOf(x, w) + Bits(xs, w)
  {
    assert ([x] + xs)[1..] == xs;
  }

  lemma SetBitFirst(xs: seq<nat>, w: nat, r: nat, b: nat)
    requires xs != [] && r < w && b <= 1
    ensures r < Times(|xs|, w)
    ensures Bits(xs[0 := OrBit(xs[0], w - 1 - r, b)], w) == Raise(Bits(xs, w), r, b)
  {
    OrBitOfBits(xs[0], w, w - 1 - r, b);
    assert xs[0 := OrBit(xs[0], w - 1 - r, b)][1..] == xs[1..];
    RaiseInConcat(BitsOf(xs[0], w), Bits(xs[1..], w), r, b);
  }

  lemma {:induction false} BitsAppend(xs: seq<nat>, x: nat, w: nat)
    ensures Bits(xs + [x], w) == Bits(xs, w) + BitsOf(x, w)
  {
    if xs == [] {
      assert [] + [x] == [x];
    } else {
      BitsAppend(xs[1..], x, w);
      assert (xs + [x])[1..] == xs[1..] + [x];
    }
  }

  lemma {:induction false} BitsOfZeros(n: nat, w: nat)
    ensures Bits(Zeros(n), w) == Zeros(Times(n, w))
  {
    if n > 0 {
      BitsOfZero(w);
      BitsOfZeros(n - 1, w);
      assert Zeros(n)[1..] == Zeros(n - 1);
    }
  }

  lemma {:induction false} BitsOfZero(w: nat)
    ensures BitsOf(0, w) == Zeros(w)
  {
    if w > 0 { BitsOfZero(w - 1); }
  }

  // ----- packing: from bytes to 11-bit words -----

  // Or-ing a bit into the word and place that follow the bits already packed appends it.
  lemma PutBit(xs: seq<nat>, w: nat, src: seq<nat>, k: nat, b: nat, q: nat, r: nat, y: nat)
    requires Digits(xs, Pow(2, w)) && b <= 1
    requires Bits(xs, w) == src + Zeros(k + 1)
    requires |src| == Times(q, w) + r && r < w && q < |xs|
    requires y == OrBit(xs[q], w - 1 - r, b)
    ensures y < Pow(2, w) && Bits(xs[q := y], w) == (src + [b]) + Zeros(k)
  {
    OrBitBound(xs[q], w, w - 1 - r, b);
    SetBit(xs, w, q, r, b, y, |src|);
    RaiseZero(src, k, b);
  }

  lemma RaiseZero(src: seq<nat>, k: nat, b: nat)
    requires b <= 1
    ensures Raise(src + Zeros(k + 1), |src|, b) == (src + [b]) + Zeros(k)
  {
  }

  // indexes[loc / 11] |= bit << (10 - loc % 11)
  method PackBit(xs: seq<nat>, ghost src: seq<nat>, ghost k: nat, loc: nat, bit: nat) returns (ys: seq<nat>)
    requires Digits(xs, Pow(2, 11)) && bit <= 1
    requires Bits(xs, 11) == src + Zeros(k + 1) && loc == |src|
    ensures |ys| == |xs| && Digits(ys, Pow(2, 11))
    ensures Bits(ys, 11) == (src + [bit]) + Zeros(k)
  {
    TimesIsMul(|xs|, 11);
    TimesIsMul(loc / 11, 11);
    var y := OrBit(xs[loc / 11], 10 - loc % 11, bit);
    PutBit(xs, 11, src, k, bit, loc / 11, loc % 11, y);
    return xs[loc / 11 := y];
  }

  // Packs the low `count` bits of x, the most significant of them first.
  method PackBits(xs0: seq<nat>, ghost src: seq<nat>, ghost k: nat, x: nat, count: nat, loc0: nat)
    returns (xs: seq<nat>, loc: nat)
    requires Digits(xs0, Pow(2, 11))
    requires Bits(xs0, 11) == src + Zeros(count + k) && loc0 == |src|
    ensures |xs| == |xs0| && Digits(xs, Pow(2, 11))
    ensures Bits(xs, 11) == (src + BitsOf(x, count)) + Zeros(k) && loc == loc0 + count
  {
    xs, loc := xs0, loc0;
    var i := count;
    ghost var bits, all := BitsOf(x, count), src;
    while i > 0
      invariant 0 <= i <= count && loc == |all|
      invariant |xs| == |xs0| && Digits(xs, Pow(2, 11))
      invariant all == src + bits[..count - i]
      invariant Bits(xs, 11) == all + Zeros(i + k)
    {
      i := i - 1;
      var bit := Bit(x, i);
      BitOfBits(x, count, i);
      assert bits[..count - i] == bits[..count - i - 1] + [bit];
      xs := PackBit(xs, all, i + k, loc, bit);
      all := all + [bit];
      loc := loc + 1;
    }
  }

  // ----- unpacking: from 11-bit words to bytes -----

  lemma PrependBit(xs: seq<nat>, w: nat, k: nat, src: seq<nat>, b: nat, i: nat, r: nat, y: nat)
    requires Digits(xs, Pow(2, w)) && b <= 1
    requires Bits(xs, w) == Zeros(k + 1) + src
    requires k == Times(i, w) + (w - 1 - r) && r < w && i < |xs|
    requires y == OrBit(xs[i], r, b)
    ensures y < Pow(2, w) && Bits(xs[i := y], w) == Zeros(k) + ([b] + src)
  {
    OrBitBound(xs[i], w, r, b);
    SetBit(xs, w, i, w - 1 - r, b, y, k);
    RaiseLastZero(k, src, b);
  }

  lemma RaiseLastZero(k: nat, src: seq<nat>, b: nat)
    requires b <= 1
    ensures Raise(Zeros(k + 1) + src, k, b) == Zeros(k) + ([b] + src)
  {
  }

  // entropy[datalen - loc / 8] |= bit << (loc % 8), where loc counts bits from the end and
  // datalen is the index of the last byte.
  method UnpackBit(xs: seq<nat>, ghost k: nat, ghost src: seq<nat>, loc: nat, bit: nat) returns (ys: seq<nat>)
    requires Digits(xs, Pow(2, 8)) && bit <= 1
    requires Bits(xs, 8) == Zeros(k + 1) + src && loc == |src|
    ensures |ys| == |xs| && Digits(ys, Pow(2, 8))
    ensures Bits(ys, 8) == Zeros(k) + ([bit] + src)
  {
    TimesIsMul(|xs|, 8);
    assert |Bits(xs, 8)| == k + 1 + loc;
    var datalen := |xs| - 1;
    var i := datalen - loc / 8;
    TimesIsMul(i, 8);
    var y := OrBit(xs[i], loc % 8, bit);
    PrependBit(xs, 8, k, src, bit, i, loc % 8, y);
    return xs[i := y];
  }

  lemma Shift(b: nat, s: seq<nat>, t: seq<nat>)
    ensures [b] + (s + t) == ([b] + s) + t
  {
  }

  // Unpacks the low `count` bits of x, the least significant first.
  method UnpackBits(xs0: seq<nat>, ghost k: nat, ghost src: seq<nat>, x: nat, count: nat, loc0: nat)
    returns (xs: seq<nat>, loc: nat)
    requires Digits(xs0, Pow(2, 8))
    requires Bits(xs0, 8) == Zeros(count + k) + src && loc0 == |src|
    ensures |xs| == |xs0| && Digits(xs, Pow(2, 8))
    ensures Bits(xs, 8) == Zeros(k) + (BitsOf(x, count) + src) && loc == loc0 + count
  {
    xs, loc := xs0, loc0;
    ghost var bits, all := BitsOf(x, count), src;
    for i := 0 to count
      invariant loc == |all|
      invariant |xs| == |xs0| && Digits(xs, Pow(2, 8))
      invariant all == bits[count - i..] + src
      invariant Bits(xs, 8) == Zeros(count - i + k) + all
    {
      var bit := Bit(x, i);
      BitOfBits(x, count, i);
      assert bits[count - (i + 1)..] == [bit] + bits[count - i..];
      xs := UnpackBit(xs, count - (i + 1) + k, all, loc, bit);
      Shift(bit, bits[count - i..], src);
      all := [bit] + all;
      loc := loc + 1;
    }
  }

  // ----- shifts and masks on bit strings -----

  lemma {:induction false} BitsSplit(x: nat, a: nat, c: nat)
    ensures BitsOf(x, a + c) == BitsOf(Shr(x, c), a) + BitsOf(x, c)
  {
    if c > 0 { BitsSplit(x / 2, a, c - 1); }
  }

  lemma {:induction false} LowIsVal(x: nat, c: nat)
    ensures Low(x, c) == Val(BitsOf(x, c), 2)
    ensures BitsOf(Low(x, c), c) == BitsOf(x, c)
  {
    if c > 0 {
      var half, low := x / 2, Low(x, c);
      LowIsVal(half, c - 1);
      assert BitsOf(x, c)[..c - 1] == BitsOf(half, c - 1);
      Halve(low, Low(half, c - 1), x % 2);
    }
  }

  lemma Halve(y: nat, h: nat, b: nat)
    requires y == h * 2 + b && b < 2
    ensures y / 2 == h && y % 2 == b
  {
  }

  lemma {:induction false} LowOfLow(x: nat, c: nat, d: nat)
    requires c <= d
    ensures Low(Low(x, d), c) == Low(x, c)
  {
    if c > 0 { LowOfLow(x / 2, c - 1, d - 1); }
  }

  lemma {:induction false} ShrSmall(x: nat, w: nat)
    requires x < Pow(2, w)
    ensures Shr(x, w) == 0
  {
    if w > 0 { ShrSmall(x / 2, w - 1); }
  }

  lemma TopZeros(x: nat, m: nat, w: nat)
    requires x < Pow(2, w)
    ensures BitsOf(x, m + w) == Zeros(m) + BitsOf(x, w)
  {
    BitsSplit(x, m, w);
    ShrSmall(x, w);
    BitsOfZero(m);
  }

  // The last word holds the top bits as data and its low c bits as checksum.
  lemma LastWord(last: nat, c: nat)
    requires last < Pow(2, 11) && 3 <= c <= 8
    ensures BitsOf(Low(Shr(last, c), 8), 8) == Zeros(c - 3) + BitsOf(last, 11)[..11 - c]
    ensures Low(Low(last, 8), c) == Val(BitsOf(last, 11)[11 - c..], 2)
  {
    LowIsVal(Shr(last, c), 8);
    BitsSplit(last, 8, c);
    TopZeros(last, c - 3, 11);
    assert BitsOf(last, 8 + c)[..8] == BitsOf(Shr(last, c), 8);
    assert (Zeros(c - 3) + BitsOf(last, 11))[..8] == Zeros(c - 3) + BitsOf(last, 11)[..11 - c];
    BitsSplit(last, 11 - c, c);
    LowOfLow(last, c, 8);
    LowIsVal(last, c);
  }

  lemma {:induction false} WholeIf(bits: seq<nat>, n: nat, w: nat)
    requires w > 0 && |bits| == Times(n, w)
    ensures Whole(bits, w)
  {
    if n > 0 { WholeIf(bits[w..], n - 1, w); }
  }

  // ----- the two conversions on word indexes -----
  //
  // A length of 4 m bytes goes with m checksum bits and 3 m words, where m is 4, 5, 6, 7 or 8.

  // The top m bits of the digest's first byte.
  function ChecksumOf(entropy: seq<nat>, m: nat, hash: Hash): nat
    requires m <= 8
  {
    Low(Shr(hash(entropy), 8 - m), m)
  }

  lemma Len8(xs: seq<nat>)
    ensures |Bits(xs, 8)| == 8 * |xs|
  {
    TimesIsMul(|xs|, 8);
  }

  lemma Len11(xs: seq<nat>)
    ensures |Bits(xs, 11)| == 11 * |xs|
  {
    TimesIsMul(|xs|, 11);
  }

  // The bit string that the words spell: the entropy followed by its checksum.
  function WordBits(entropy: seq<nat>, m: nat, hash: Hash): seq<nat>
    requires m <= 8
  {
    Bits(entropy, 8) + BitsOf(ChecksumOf(entropy, m, hash), m)
  }

  function Indexes(entropy: seq<nat>, m: nat, hash: Hash): seq<nat>
    requires m <= 8
  {
    Group(WordBits(entropy, m, hash), 11)
  }

  // 3 m words carry 32 m entropy bits and m checksum bits.
  function EntropyOf(idx: seq<nat>, m: nat): seq<nat>
    requires |idx| == 3 * m
  {
    Len11(idx);
    Group(Bits(idx, 11)[..32 * m], 8)
  }

  function ChecksumField(idx: seq<nat>, m: nat): nat
    requires |idx| == 3 * m
  {
    Len11(idx);
    Val(Bits(idx, 11)[32 * m..], 2)
  }

  function FromIndexes(idx: seq<nat>, m: nat, hash: Hash): Checked
    requires m <= 8 && |idx| == 3 * m
  {
    var e := EntropyOf(idx, m);
    var checksum, actual := ChecksumField(idx, m), ChecksumOf(e, m, hash);
    if actual != checksum then BadChecksum(checksum, actual) else Accepted(e)
  }

  lemma GroupBytes(bits: seq<nat>, m: nat)
    requires Digits(bits, 2) && |bits| == 32 * m
    ensures Bits(Group(bits, 8), 8) == bits
    ensures Digits(Group(bits, 8), Pow(2, 8)) && |Group(bits, 8)| == 4 * m
  {
    TimesIsMul(4 * m, 8);
    WholeIf(bits, 4 * m, 8);
    BitsOfGroup(bits, 8);
    Len8(Group(bits, 8));
  }

  lemma GroupWords(bits: seq<nat>, m: nat)
    requires Digits(bits, 2) && |bits| == 33 * m
    ensures Bits(Group(bits, 11), 11) == bits
    ensures Digits(Group(bits, 11), Pow(2, 11)) && |Group(bits, 11)| == 3 * m
  {
    TimesIsMul(3 * m, 11);
    WholeIf(bits, 3 * m, 11);
    BitsOfGroup(bits, 11);
    Len11(Group(bits, 11));
  }

  lemma EntropyShape(idx: seq<nat>, m: nat)
    requires |idx| == 3 * m
    ensures |Bits(idx, 11)| == 33 * m
    ensures Bits(EntropyOf(idx, m), 8) == Bits(idx, 11)[..32 * m]
    ensures Digits(EntropyOf(idx, m), Pow(2, 8)) && |EntropyOf(idx, m)| == 4 * m
  {
    Len11(idx);
    AllBitsAreBinary(idx, 11);
    GroupBytes(Bits(idx, 11)[..32 * m], m);
  }

  lemma IndexesShape(e: seq<nat>, m: nat, hash: Hash)
    requires m <= 8 && |e| == 4 * m
    ensures Bits(Indexes(e, m, hash), 11) == WordBits(e, m, hash)
    ensures Digits(Indexes(e, m, hash), Pow(2, 11)) && |Indexes(e, m, hash)| == 3 * m
  {
    Len8(e);
    AllBitsAreBinary(e, 8);
    BitsAreBinary(ChecksumOf(e, m, hash), m);
    GroupWords(WordBits(e, m, hash), m);
  }

  lemma SplitConcat(s: seq<nat>, t: seq<nat>, k: nat)
    requires |s| == k
    ensures (s + t)[..k] == s && (s + t)[k..] == t
  {
  }

  // Packing and unpacking restores the entropy, and its checksum is accepted.
  lemma UnpackOfPack(e: seq<nat>, m: nat, hash: Hash)
    requires m <= 8 && |e| == 4 * m && Digits(e, Pow(2, 8))
    ensures |Indexes(e, m, hash)| == 3 * m
    ensures FromIndexes(Indexes(e, m, hash), m, hash) == Accepted(e)
  {
    IndexesShape(e, m, hash);
    Len8(e);
    SplitConcat(Bits(e, 8), BitsOf(ChecksumOf(e, m, hash), m), 32 * m);
    GroupOfBits(e, 8);
    LowIsVal(Shr(hash(e), 8 - m), m);
  }

  // The entropy bits followed by the checksum field are the bits of the words.
  lemma WordsSplit(idx: seq<nat>, m: nat)
    requires |idx| == 3 * m
    ensures Bits(EntropyOf(idx, m), 8) + BitsOf(ChecksumField(idx, m), m) == Bits(idx, 11)
  {
    EntropyShape(idx, m);
    AllBitsAreBinary(idx, 11);
    BitsOfVal(Bits(idx, 11)[32 * m..]);
    SplitAt(Bits(idx, 11), 32 * m);
  }

  // Word indexes that are accepted are the packing of the entropy they unpack to.
  lemma PackOfUnpack(idx: seq<nat>, m: nat, hash: Hash)
    requires m <= 8 && |idx| == 3 * m && Digits(idx, Pow(2, 11))
    requires FromIndexes(idx, m, hash).Accepted?
    ensures FromIndexes(idx, m, hash).entropy == EntropyOf(idx, m)
    ensures |EntropyOf(idx, m)| == 4 * m && Digits(EntropyOf(idx, m), Pow(2, 8))
    ensures Indexes(EntropyOf(idx, m), m, hash) == idx
  {
    EntropyShape(idx, m);
    WordsSplit(idx, m);
    GroupOfBits(idx, 11);
  }

  // ----- the loops -----

  lemma TakeOneMore(e: seq<nat>, i: nat)
    requires i < |e|
    ensures Bits(e[..i + 1], 8) == Bits(e[..i], 8) + BitsOf(e[i], 8)
  {
    assert e[..i + 1] == e[..i] + [e[i]];
    BitsAppend(e[..i], e[i], 8);
  }

  method PackEntropy(e: seq<nat>, checksumBits: nat, hash: Hash) returns (xs: seq<nat>)
    requires checksumBits <= 8 && |e| == 4 * checksumBits
    ensures xs == Indexes(e, checksumBits, hash)
  {
    var checksum := Low(Shr(hash(e), 8 - checksumBits), checksumBits);
    var nwords := (|e| * 8 + checksumBits) / 11;
    xs := Zeros(nwords);
    var loc := 0;
    StartPacking(nwords, checksumBits);
    ghost var src := Bits([], 8);
    for i := 0 to |e|
      invariant Digits(xs, Pow(2, 11)) && loc == |src|
      invariant src == Bits(e[..i], 8)
      invariant Bits(xs, 11) == src + Zeros(8 * (|e| - i) + checksumBits)
    {
      xs, loc := PackBits(xs, src, 8 * (|e| - (i + 1)) + checksumBits, e[i], 8, loc);
      TakeOneMore(e, i);
      src := src + BitsOf(e[i], 8);
    }
    assert e[..|e|] == e;
    xs, loc := PackBits(xs, src, 0, checksum, checksumBits, loc);
    DropZeros(WordBits(e, checksumBits, hash));
    GroupOfBits(xs, 11);
  }

  lemma StartPacking(nwords: nat, m: nat)
    requires nwords == 3 * m
    ensures Digits(Zeros(nwords), Pow(2, 11))
    ensures Bits(Zeros(nwords), 11) == Bits([], 8) + Zeros(33 * m)
  {
    BitsOfZeros(nwords, 11);
    TimesIsMul(nwords, 11);
    PowPositive(2, 11);
  }

  lemma DropZeros(s: seq<nat>)
    ensures s + Zeros(0) == s
    ensures Zeros(0) + s == s
  {
  }

  method UnpackWords(idx: seq<nat>, checksumBits: nat) returns (entropy: seq<nat>)
    requires 4 <= checksumBits <= 8 && |idx| == 3 * checksumBits && Digits(idx, Pow(2, 11))
    ensures entropy == EntropyOf(idx, checksumBits)
  {
    var n := |idx| - 1;
    var last := idx[n];
    var datalen := (11 * |idx| - checksumBits) / 8 - 1;
    entropy := Zeros(datalen) + [Low(Shr(last, checksumBits), 8)];
    var loc := 11 - checksumBits;
    StartUnpacking(idx, checksumBits, last, datalen);
    LowBound(Shr(last, checksumBits), 8);
    var i := n;
    ghost var src := Tail(idx, n, checksumBits);
    while i > 0
      invariant 0 <= i <= n && loc == |src|
      invariant Digits(entropy, Pow(2, 8))
      invariant src == Tail(idx, i, checksumBits)
      invariant Bits(entropy, 8) == Zeros(11 * i) + src
    {
      i := i - 1;
      entropy, loc := UnpackBits(entropy, 11 * i, src, idx[i], 11, loc);
      TailStep(idx, i, checksumBits);
      src := Tail(idx, i, checksumBits);
    }
    DropZeros(src);
    EndUnpacking(idx, entropy, checksumBits);
  }

  method UnpackIndexes(idx: seq<nat>, checksumBits: nat, hash: Hash) returns (r: Checked)
    requires 4 <= checksumBits <= 8 && |idx| == 3 * checksumBits && Digits(idx, Pow(2, 11))
    ensures r == FromIndexes(idx, checksumBits, hash)
  {
    var checksum := Low(Low(idx[|idx| - 1], 8), checksumBits);
    var entropy := UnpackWords(idx, checksumBits);
    FieldIsLow(idx, checksumBits, idx[|idx| - 1]);
    var actual := Low(Shr(hash(entropy), 8 - checksumBits), checksumBits);
    if actual != checksum {
      return BadChecksum(checksum, actual);
    }
    return Accepted(entropy);
  }

  // The entropy bits of the words from i on, the last word without its m checksum bits.
  ghost function Tail(idx: seq<nat>, i: nat, m: nat): seq<nat>
    requires i < |idx| && m <= 11
  {
    Bits(idx[i..|idx| - 1], 11) + BitsOf(idx[|idx| - 1], 11)[..11 - m]
  }

  lemma TailStep(idx: seq<nat>, i: nat, m: nat)
    requires i + 1 < |idx| && m <= 11
    ensures Tail(idx, i, m) == BitsOf(idx[i], 11) + Tail(idx, i + 1, m)
  {
    var n := |idx| - 1;
    assert idx[i..n] == [idx[i]] + idx[i + 1..n];
    BitsPrepend(idx[i], idx[i + 1..n], 11);
  }

  lemma StartBytes(datalen: nat, last: nat, m: nat)
    requires 4 <= m <= 8 && last < Pow(2, 11)
    ensures Bits(Zeros(datalen) + [Low(Shr(last, m), 8)], 8)
         == Zeros(8 * datalen) + (Zeros(m - 3) + BitsOf(last, 11)[..11 - m])
  {
    LastWord(last, m);
    BitsAppend(Zeros(datalen), Low(Shr(last, m), 8), 8);
    BitsOfZeros(datalen, 8);
    TimesIsMul(datalen, 8);
  }

  lemma StartUnpacking(idx: seq<nat>, m: nat, last: nat, datalen: nat)
    requires 4 <= m <= 8 && |idx| == 3 * m && last == idx[3 * m - 1] && last < Pow(2, 11)
    requires datalen == 4 * m - 1
    ensures Bits(Zeros(datalen) + [Low(Shr(last, m), 8)], 8) == Zeros(11 * (3 * m - 1)) + Tail(idx, 3 * m - 1, m)
  {
    var i, t := 3 * m - 1, BitsOf(last, 11)[..11 - m];
    var tail := Tail(idx, i, m);
    StartBytes(datalen, last, m);
    assert tail == Bits([], 11) + t by { LastTail(idx, m); }
    ZerosThenTail(8 * datalen, m - 3, 11 * i, t, tail);
  }

  lemma LastTail(idx: seq<nat>, m: nat)
    requires idx != [] && m <= 11
    ensures Tail(idx, |idx| - 1, m) == Bits([], 11) + BitsOf(idx[|idx| - 1], 11)[..11 - m]
  {
    assert idx[|idx| - 1..|idx| - 1] == [];
  }

  lemma {:induction false} LowBound(x: nat, c: nat)
    ensures Low(x, c) < Pow(2, c)
  {
    if c > 0 { LowBound(x / 2, c - 1); }
  }

  lemma ZerosThenTail(a: nat, b: nat, c: nat, t: seq<nat>, tail: seq<nat>)
    requires c == a + b && tail == Bits([], 11) + t
    ensures Zeros(a) + (Zeros(b) + t) == Zeros(c) + tail
  {
    assert tail == t;
  }

  // The bits of 3 m words: those before the last one, then the last one.
  lemma LastOff(idx: seq<nat>, m: nat)
    requires 1 <= m <= 8 && |idx| == 3 * m
    ensures |Bits(idx, 11)| == 33 * m
    ensures Bits(idx, 11)[..32 * m] == Tail(idx, 0, m)
    ensures Bits(idx, 11)[32 * m..] == BitsOf(idx[3 * m - 1], 11)[11 - m..]
  {
    var n := 3 * m - 1;
    assert idx == idx[0..n] + [idx[n]];
    BitsAppend(idx[0..n], idx[n], 11);
    Len11(idx[0..n]);
  }

  lemma EndUnpacking(idx: seq<nat>, e: seq<nat>, m: nat)
    requires 1 <= m <= 8 && |idx| == 3 * m && Digits(e, Pow(2, 8))
    requires Bits(e, 8) == Tail(idx, 0, m)
    ensures e == EntropyOf(idx, m)
  {
    LastOff(idx, m);
    GroupOfBits(e, 8);
  }

  lemma FieldIsLow(idx: seq<nat>, m: nat, last: nat)
    requires 3 <= m <= 8 && |idx| == 3 * m && last == idx[3 * m - 1] && last < Pow(2, 11)
    ensures ChecksumField(idx, m) == Low(Low(last, 8), m)
  {
    LastOff(idx, m);
    LastWord(last, m);
  }
}
