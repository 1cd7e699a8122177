/**
 Small things several modules share.
 */
module Collections {

  datatype Option<+T> = None | Some(value: T)

  // A sequence from back to front.
  function Rev<T>(s: seq<T>): (r: seq<T>)
    ensures |r| == |s|
  {
    if s == [] then [] else [s[|s| - 1]] + Rev(s[..|s| - 1])
  }

  lemma {:induction false} RevIs<T>(s: seq<T>)
    ensures forall i :: 0 <= i < |s| ==> Rev(s)[i] == s[|s| - 1 - i]
  {
    if s != [] { RevIs(s[..|s| - 1]); }
  }

  lemma RevPush<T>(s: seq<T>, x: T)
    ensures Rev([x] + s) == Rev(s) + [x]
  {
    RevIs([x] + s);
    RevIs(s);
  }

  lemma RevRev<T>(s: seq<T>)
    ensures Rev(Rev(s)) == s
  {
    RevIs(Rev(s));
    RevIs(s);
  }

  lemma {:induction false} Subset<T>(a: set<T>, b: set<T>)
    requires a <= b
    ensures |a| <= |b|
  {
    if a != {} {
      var x :| x in a;
      Subset(a - {x}, b - {x});
    }
  }
}
