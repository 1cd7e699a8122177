/**
 BIP 39 mnemonics: entropy of five lengths to sentences of words and back.
 */
module Mnemonic {
  import opened Numerals
  import opened BitPacking
  import opened WordList

  datatype Error =
    | UnknownWord(word: string)
    | WrongChecksum(expected: nat, actual: nat)
    | InvalidLength(len: nat)

  datatype Result<+T> = Ok(value: T) | Err(error: Error)

  function Verdict(c: Checked): Result<seq<nat>> {
    match c
    case Accepted(e) => Ok(e)
    case BadChecksum(expected, actual) => Err(WrongChecksum(expected, actual))
  }

  predicate EntropyLen(n: nat) {
    n == 16 || n == 20 || n == 24 || n == 28 || n == 32
  }

  predicate WordCount(n: nat) {
    n == 12 || n == 15 || n == 18 || n == 21 || n == 24
  }

  lemma Lengths(n: nat, m: nat)
    ensures EntropyLen(n) && m == n / 4 ==> n == 4 * m && 4 <= m <= 8 && WordCount(3 * m)
    ensures WordCount(n) && m == n / 3 ==> n == 3 * m && 4 <= m <= 8 && EntropyLen(4 * m)
  {
  }

  lemma WordRange(idx: seq<nat>, list: seq<string>)
    requires |list| == 2048
    ensures Digits(idx, Pow(2, 11)) <==> InRange(idx, |list|)
  {
    assert Pow(2, 11) == 2048;
  }

  // 4 m bytes to a sentence of 3 m words.
  function Write(entropy: seq<nat>, m: nat, list: seq<string>, hash: Hash): string
    requires m <= 8 && |entropy| == 4 * m && |list| == 2048
  {
    IndexesShape(entropy, m, hash);
    WordRange(Indexes(entropy, m, hash), list);
    Sentence(Indexes(entropy, m, hash), list)
  }

  // A sentence of 3 m words to 4 m bytes.
  function Read(words: seq<string>, m: nat, list: seq<string>, hash: Hash): Result<seq<nat>>
    requires m <= 8 && |words| == 3 * m
  {
    match SearchAll(words, list)
    case BadWord(w) => Err(UnknownWord(w))
    case Found(idx) => Verdict(FromIndexes(idx, m, hash))
  }

  lemma ReadOfWrite(entropy: seq<nat>, m: nat, list: seq<string>, hash: Hash)
    requires m <= 8 && |entropy| == 4 * m && IsWordList(list) && Digits(entropy, Pow(2, 8))
    ensures |SplitWords(Write(entropy, m, list, hash))| == 3 * m
    ensures Read(SplitWords(Write(entropy, m, list, hash)), m, list, hash) == Ok(entropy)
  {
    var idx := Indexes(entropy, m, hash);
    IndexesShape(entropy, m, hash);
    WordRange(idx, list);
    ReadSentence(idx, list);
    UnpackOfPack(entropy, m, hash);
  }

  lemma WriteOfRead(mnemonic: string, m: nat, list: seq<string>, hash: Hash, e: seq<nat>)
    requires m <= 8 && |SplitWords(mnemonic)| == 3 * m && |list| == 2048
    requires Read(SplitWords(mnemonic), m, list, hash) == Ok(e)
    ensures |e| == 4 * m && Digits(e, Pow(2, 8))
    ensures Write(e, m, list, hash) == Join(SplitWords(mnemonic))
  {
    WriteAgain(mnemonic, list);
    var idx := SearchAll(SplitWords(mnemonic), list).value;
    WordRange(idx, list);
    PackOfUnpack(idx, m, hash);
  }

  // ----- the public operations -----

  function MnemonicOf(entropy: seq<nat>, list: seq<string>, hash: Hash): Result<string>
    requires |list| == 2048
  {
    Lengths(|entropy|, |entropy| / 4);
    if !EntropyLen(|entropy|) then Err(InvalidLength(|entropy|))
    else Ok(Write(entropy, |entropy| / 4, list, hash))
  }

  function EntropyFrom(mnemonic: string, list: seq<string>, hash: Hash): Result<seq<nat>> {
    var words := SplitWords(mnemonic);
    Lengths(|words|, |words| / 3);
    if !WordCount(|words|) then Err(InvalidLength(|words|))
    else Read(words, |words| / 3, list, hash)
  }

  method FromEntropy(entropy: seq<nat>, list: seq<string>, hash: Hash) returns (r: Result<string>)
    requires |list| == 2048
    ensures r == MnemonicOf(entropy, list, hash)
  {
    Lengths(|entropy|, |entropy| / 4);
    if !EntropyLen(|entropy|) {
      return Err(InvalidLength(|entropy|));
    }
    var indexes := PackEntropy(entropy, |entropy| / 4, hash);
    IndexesShape(entropy, |entropy| / 4, hash);
    WordRange(indexes, list);
    return Ok(Join(WordsAt(indexes, list)));
  }

  method ToEntropy(mnemonic: string, list: seq<string>, hash: Hash) returns (r: Result<seq<nat>>)
    requires |list| == 2048 && Ordered(list)
    ensures r == EntropyFrom(mnemonic, list, hash)
  {
    var words := SplitWords(mnemonic);
    Lengths(|words|, |words| / 3);
    if !WordCount(|words|) {
      return Err(InvalidLength(|words|));
    }
    var indexes := SearchWords(words, list);
    if indexes.BadWord? { return Err(UnknownWord(indexes.word)); }
    WordsOfSearch(words, list);
    WordRange(indexes.value, list);
    var checked := UnpackIndexes(indexes.value, |words| / 3, hash);
    return Verdict(checked);
  }

  lemma FiveLengths(entropy: seq<nat>, list: seq<string>, hash: Hash)
    requires |list| == 2048
    ensures if |entropy| in {16, 20, 24, 28, 32} then MnemonicOf(entropy, list, hash).Ok?
            else MnemonicOf(entropy, list, hash) == Err(InvalidLength(|entropy|))
  {
  }

  lemma OfLength(entropy: seq<nat>, m: nat, list: seq<string>, hash: Hash)
    requires 4 <= m <= 8 && |entropy| == 4 * m && |list| == 2048
    ensures EntropyLen(|entropy|) && MnemonicOf(entropy, list, hash) == Ok(Write(entropy, m, list, hash))
  {
    assert |entropy| / 4 == m;
  }

  lemma Triples(n: nat, m: nat)
    requires 4 <= m <= 8 && n == 3 * m
    ensures WordCount(n) && n / 3 == m
  {
  }

  lemma OfWords(mnemonic: string, m: nat, list: seq<string>, hash: Hash)
    requires 4 <= m <= 8 && |SplitWords(mnemonic)| == 3 * m
    ensures EntropyFrom(mnemonic, list, hash) == Read(SplitWords(mnemonic), m, list, hash)
  {
    Triples(|SplitWords(mnemonic)|, m);
  }

  // Every entropy of one of the five lengths has a mnemonic, and the mnemonic gives it back;
  // other lengths are refused.
  lemma EntropyRoundTrip(entropy: seq<nat>, list: seq<string>, hash: Hash)
    requires IsWordList(list) && Digits(entropy, Pow(2, 8))
    ensures MnemonicOf(entropy, list, hash).Ok? <==> EntropyLen(|entropy|)
    ensures EntropyLen(|entropy|) ==>
              EntropyFrom(MnemonicOf(entropy, list, hash).value, list, hash) == Ok(entropy)
  {
    if EntropyLen(|entropy|) {
      var m := |entropy| / 4;
      Lengths(|entropy|, m);
      OfLength(entropy, m, list, hash);
      ReadOfWrite(entropy, m, list, hash);
      OfWords(Write(entropy, m, list, hash), m, list, hash);
    }
  }

  // A sentence is refused for its length, else for the first word not listed, else for a checksum
  // other than that of the entropy it spells.
  lemma RefusedFor(mnemonic: string, list: seq<string>, hash: Hash, m: nat)
    requires m == |SplitWords(mnemonic)| / 3
    ensures var words := SplitWords(mnemonic);
      var found := SearchAll(words, list);
      if |words| !in {12, 15, 18, 21, 24} then EntropyFrom(mnemonic, list, hash) == Err(InvalidLength(|words|))
      else
        && m <= 8 && |words| == 3 * m
        && match found
           case BadWord(w) => EntropyFrom(mnemonic, list, hash) == Err(UnknownWord(w))
           case Found(idx) =>
             var said, wanted := ChecksumField(idx, m), ChecksumOf(EntropyOf(idx, m), m, hash);
             EntropyFrom(mnemonic, list, hash) ==
             if said == wanted then Ok(EntropyOf(idx, m)) else Err(WrongChecksum(said, wanted))
  {
    Lengths(|SplitWords(mnemonic)|, m);
  }

  // Every accepted mnemonic is, up to white space, the mnemonic of its entropy.
  lemma MnemonicRoundTrip(mnemonic: string, list: seq<string>, hash: Hash)
    requires |list| == 2048 && EntropyFrom(mnemonic, list, hash).Ok?
    ensures MnemonicOf(EntropyFrom(mnemonic, list, hash).value, list, hash) == Ok(Join(SplitWords(mnemonic)))
  {
    var e := EntropyFrom(mnemonic, list, hash).value;
    var n := |SplitWords(mnemonic)|;
    var m := n / 3;
    Lengths(n, m);
    OfWords(mnemonic, m, list, hash);
    WriteOfRead(mnemonic, m, list, hash, e);
    OfLength(e, m, list, hash);
  }
}
