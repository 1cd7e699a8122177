/**
 Mnemonic sentences: splitting at white space, joining with single spaces, and looking words up
 in a word list.
 */
module WordList {

  datatype Lookup<+T> = Found(value: T) | BadWord(word: string)

  // Unicode white space.
  predicate IsSpace(c: char) {
    var x := c as int;
    0x9 <= x <= 0xD || x == 0x20 || x == 0x85 || x == 0xA0 || x == 0x1680 || 0x2000 <= x <= 0x200A
    || x == 0x2028 || x == 0x2029 || x == 0x202F || x == 0x205F || x == 0x3000
  }

  // The characters with the property White_Space.
  lemma SpacesAre(c: char)
    ensures IsSpace(c) <==> c as int in {
      0x9, 0xA, 0xB, 0xC, 0xD, 0x20, 0x85, 0xA0, 0x1680,
      0x2000, 0x2001, 0x2002, 0x2003, 0x2004, 0x2005, 0x2006, 0x2007, 0x2008, 0x2009, 0x200A,
      0x2028, 0x2029, 0x202F, 0x205F, 0x3000
    }
  {
  }

  function WordLen(s: string): (n: nat)
    ensures n <= |s|
  {
    if s == "" || IsSpace(s[0]) then 0 else 1 + WordLen(s[1..])
  }

  function SplitWords(s: string): seq<string>
    decreases |s|
  {
    if s == "" then []
    else if IsSpace(s[0]) then SplitWords(s[1..])
    else var n := WordLen(s); [s[..n]] + SplitWords(s[n..])
  }

  function Join(ws: seq<string>): string {
    if ws == [] then "" else if |ws| == 1 then ws[0] else ws[0] + " " + Join(ws[1..])
  }

  predicate Plain(w: string) {
    w != "" && forall i :: 0 <= i < |w| ==> !IsSpace(w[i])
  }

  lemma {:induction false} WordLenIs(w: string, rest: string)
    requires forall i :: 0 <= i < |w| ==> !IsSpace(w[i])
    requires rest == "" || IsSpace(rest[0])
    ensures WordLen(w + rest) == |w|
  {
    if w == "" {
      assert w + rest == rest;
    } else {
      assert (w + rest)[1..] == w[1..] + rest;
      WordLenIs(w[1..], rest);
    }
  }

  lemma SplitFirst(w: string, rest: string)
    requires Plain(w) && (rest == "" || IsSpace(rest[0]))
    ensures SplitWords(w + rest) == [w] + SplitWords(rest)
  {
    WordLenIs(w, rest);
    assert (w + rest)[..|w|] == w && (w + rest)[|w|..] == rest;
  }

  // A sentence of plain words splits back into them.
  lemma {:induction false} SplitOfJoin(ws: seq<string>)
    requires forall i :: 0 <= i < |ws| ==> Plain(ws[i])
    ensures SplitWords(Join(ws)) == ws
  {
    if |ws| == 1 {
      assert ws[0] + "" == ws[0];
      SplitFirst(ws[0], "");
    } else if |ws| > 1 {
      var rest := " " + Join(ws[1..]);
      assert Join(ws) == ws[0] + rest;
      SplitFirst(ws[0], rest);
      assert rest[1..] == Join(ws[1..]);
      SplitOfJoin(ws[1..]);
    }
  }

  ghost predicate IsWordList(list: seq<string>) {
    && |list| == 2048
    && (forall i, j :: 0 <= i < j < |list| ==> list[i] != list[j])
    && (forall i :: 0 <= i < |list| ==> Plain(list[i]))
  }

  // The index of a word in the list.
  function Search(word: string, list: seq<string>): (r: Lookup<nat>)
    ensures r.Found? ==> r.value < |list| && list[r.value] == word
    ensures r.BadWord? ==> word !in list && r.word == word
  {
    if list == [] then BadWord(word)
    else if list[|list| - 1] == word then Found(|list| - 1)
    else Search(word, list[..|list| - 1])
  }

  // Lexicographic order, as that of the bytes of both words.
  predicate Before(a: string, b: string) {
    if b == "" then false
    else if a == "" then true
    else a[0] < b[0] || (a[0] == b[0] && Before(a[1..], b[1..]))
  }

  lemma {:induction false} BeforeTotal(a: string, b: string)
    ensures Before(a, b) || Before(b, a) || a == b
    ensures !(Before(a, b) && Before(b, a)) && !Before(a, a)
  {
    if a != "" && b != "" {
      BeforeTotal(a[1..], b[1..]);
      assert a == [a[0]] + a[1..] && b == [b[0]] + b[1..];
    }
    if a != "" { BeforeTotal(a[1..], a[1..]); }
  }

  ghost predicate Ordered(list: seq<string>) {
    forall i, j :: 0 <= i < j < |list| ==> Before(list[i], list[j])
  }

  lemma OrderedHalves(word: string, list: seq<string>, mid: nat)
    requires Ordered(list) && mid < |list|
    ensures Before(list[mid], word) ==> forall i :: 0 <= i <= mid ==> list[i] != word
    ensures Before(word, list[mid]) ==> forall i :: mid <= i < |list| ==> list[i] != word
  {
    forall i | 0 <= i < |list| { BeforeTotal(list[i], list[mid]); }
    BeforeTotal(word, list[mid]);
  }

  // Binary search in an ordered list.
  method BinarySearch(word: string, list: seq<string>) returns (r: Lookup<nat>)
    requires Ordered(list)
    ensures r == Search(word, list)
  {
    var lo, hi := 0, |list|;
    while lo < hi
      invariant 0 <= lo <= hi <= |list|
      invariant forall i :: 0 <= i < |list| && !(lo <= i < hi) ==> list[i] != word
    {
      var mid := lo + (hi - lo) / 2;
      BeforeTotal(list[mid], word);
      OrderedHalves(word, list, mid);
      if list[mid] == word {
        OnlyOne(list, mid, word);
        return Found(mid);
      } else if Before(list[mid], word) {
        lo := mid + 1;
      } else {
        hi := mid;
      }
    }
    return BadWord(word);
  }

  lemma OnlyOne(list: seq<string>, i: nat, word: string)
    requires Ordered(list) && i < |list| && list[i] == word
    ensures Search(word, list) == Found(i)
  {
    BeforeTotal(word, word);
  }

  // The indexes of all words, or the error for the first word that is not listed.
  function SearchAll(words: seq<string>, list: seq<string>): (r: Lookup<seq<nat>>)
    ensures r.Found? ==> |r.value| == |words|
  {
    if words == [] then Found([])
    else
      var init := SearchAll(words[..|words| - 1], list);
      if init.BadWord? then init
      else match Search(words[|words| - 1], list)
        case BadWord(w) => BadWord(w)
        case Found(i) => Found(init.value + [i])
  }

  method SearchWords(words: seq<string>, list: seq<string>) returns (r: Lookup<seq<nat>>)
    requires Ordered(list)
    ensures r == SearchAll(words, list)
  {
    var indexes := [];
    for k := 0 to |words|
      invariant SearchAll(words[..k], list) == Found(indexes)
    {
      assert words[..k + 1][..k] == words[..k];
      var found := BinarySearch(words[k], list);
      match found {
        case BadWord(w) =>
          BadAt(words, list, k + 1);
          return BadWord(w);
        case Found(i) => indexes := indexes + [i];
      }
    }
    assert words[..|words|] == words;
    return Found(indexes);
  }

  // The first bad word decides.
  lemma {:induction false} BadAt(words: seq<string>, list: seq<string>, k: nat)
    requires k <= |words| && SearchAll(words[..k], list).BadWord?
    ensures SearchAll(words, list) == SearchAll(words[..k], list)
  {
    if k == |words| {
      assert words[..k] == words;
    } else {
      var init := words[..|words| - 1];
      assert init[..k] == words[..k];
      BadAt(init, list, k);
    }
  }

  predicate InRange(idx: seq<nat>, n: nat) {
    forall i :: 0 <= i < |idx| ==> idx[i] < n
  }

  function WordsAt(idx: seq<nat>, list: seq<string>): (ws: seq<string>)
    requires InRange(idx, |list|)
    ensures |ws| == |idx|
    ensures forall i :: 0 <= i < |idx| ==> ws[i] == list[idx[i]]
  {
    if idx == [] then [] else WordsAt(idx[..|idx| - 1], list) + [list[idx[|idx| - 1]]]
  }

  lemma {:induction false} SearchOfWords(idx: seq<nat>, list: seq<string>)
    requires IsWordList(list) && InRange(idx, |list|)
    ensures SearchAll(WordsAt(idx, list), list) == Found(idx)
  {
    if idx != [] {
      var init, i := idx[..|idx| - 1], idx[|idx| - 1];
      SearchOfWords(init, list);
      var words := WordsAt(idx, list);
      assert words[..|words| - 1] == WordsAt(init, list) && words[|words| - 1] == list[i];
      var r := Search(list[i], list);
      assert r.Found? && r.value == i;
      assert idx == init + [i];
    }
  }

  lemma {:induction false} WordsOfSearch(words: seq<string>, list: seq<string>)
    requires SearchAll(words, list).Found?
    ensures InRange(SearchAll(words, list).value, |list|)
    ensures WordsAt(SearchAll(words, list).value, list) == words
  {
    if words != [] {
      var init, w := words[..|words| - 1], words[|words| - 1];
      WordsOfSearch(init, list);
      WordsAtAppend(SearchAll(init, list).value, Search(w, list).value, list);
      assert words == init + [w];
    }
  }

  lemma WordsAtAppend(idx: seq<nat>, i: nat, list: seq<string>)
    requires InRange(idx, |list|) && i < |list|
    ensures InRange(idx + [i], |list|)
    ensures WordsAt(idx + [i], list) == WordsAt(idx, list) + [list[i]]
  {
    assert (idx + [i])[..|idx|] == idx;
  }

  function Sentence(idx: seq<nat>, list: seq<string>): string
    requires InRange(idx, |list|)
  {
    Join(WordsAt(idx, list))
  }

  // A sentence written from word indexes reads back as those indexes.
  lemma ReadSentence(idx: seq<nat>, list: seq<string>)
    requires IsWordList(list) && InRange(idx, |list|)
    ensures |SplitWords(Sentence(idx, list))| == |idx|
    ensures SearchAll(SplitWords(Sentence(idx, list)), list) == Found(idx)
  {
    SplitOfJoin(WordsAt(idx, list));
    SearchOfWords(idx, list);
  }

  // What was read, written again, is the sentence with single spaces.
  lemma WriteAgain(mnemonic: string, list: seq<string>)
    requires SearchAll(SplitWords(mnemonic), list).Found?
    ensures InRange(SearchAll(SplitWords(mnemonic), list).value, |list|)
    ensures Sentence(SearchAll(SplitWords(mnemonic), list).value, list) == Join(SplitWords(mnemonic))
  {
    WordsOfSearch(SplitWords(mnemonic), list);
  }
}
