/**
 Positional numerals: digit sequences, most significant digit first, in an arbitrary base.
 `Convert` is base conversion that keeps leading zeros one for one, the operation behind
 Base58; `ConvertBack` proves that converting back is the identity.
 */
module Numerals {
  import opened Collections

  function Pow(b: nat, e: nat): nat {
    if e == 0 then 1 else b * Pow(b, e - 1)
  }

  predicate Digits(s: seq<nat>, b: nat) {
    forall i :: 0 <= i < |s| ==> s[i] < b
  }

  function Val(s: seq<nat>, b: nat): nat {
    if s == [] then 0 else Val(s[..|s| - 1], b) * b + s[|s| - 1]
  }

  // The shortest numeral for n: no leading zero, empty for zero.
  function ToBase(n: nat, b: nat): seq<nat>
    requires b >= 2
  {
    if n == 0 then [] else
      assert n / b < n by { DivShrinks(n, b); }
      ToBase(n / b, b) + [n % b]
  }

  function Zeros(k: nat): seq<nat> {
    seq(k, _ => 0)
  }

  function Lead(s: seq<nat>): (k: nat)
    ensures k <= |s|
    ensures s[..k] == Zeros(k)
    ensures k < |s| ==> s[k] != 0
  {
    if s == [] || s[0] != 0 then 0 else
      var k := Lead(s[1..]);
      assert s[..1 + k] == [0] + s[1..][..k];
      1 + k
  }

  function Convert(s: seq<nat>, a: nat, b: nat): seq<nat>
    requires b >= 2
  {
    Zeros(Lead(s)) + ToBase(Val(s, a), b)
  }

  // ----- arithmetic -----

  lemma MulLe(a: nat, b: nat, c: nat)
    requires a <= b
    ensures a * c <= b * c
  {
  }

  lemma MulLeMul(a: nat, b: nat, c: nat, d: nat)
    requires a <= b && c <= d
    ensures a * c <= b * d
  {
    MulLe(a, b, c);
    MulLe(c, d, b);
  }

  lemma DivShrinks(n: nat, b: nat)
    requires n > 0 && b >= 2
    ensures n / b < n
  {
    var q := n / b;
    MulLe(2, b, q);
    assert n == b * q + n % b;
  }

  lemma DivModUnique(q: nat, d: nat, b: nat)
    requires d < b
    ensures (q * b + d) / b == q && (q * b + d) % b == d
  {
    var n := q * b + d;
    var q', d' := n / b, n % b;
    assert n == q' * b + d';
    assert q' + 1 <= q ==> (q' + 1) * b <= q * b;
    assert q + 1 <= q' ==> (q + 1) * b <= q' * b;
  }

  lemma MulAssoc(a: nat, b: nat, c: nat)
    ensures a * (b * c) == (a * b) * c
  {
  }

  lemma {:induction false} PowAdd(b: nat, e: nat, f: nat)
    ensures Pow(b, e + f) == Pow(b, e) * Pow(b, f)
  {
    if e > 0 {
      PowAdd(b, e - 1, f);
      MulAssoc(b, Pow(b, e - 1), Pow(b, f));
    }
  }

  lemma {:induction false} PowMono(a: nat, b: nat, e: nat)
    requires a <= b
    ensures Pow(a, e) <= Pow(b, e)
  {
    if e > 0 {
      PowMono(a, b, e - 1);
      MulLe(a, b, Pow(a, e - 1));
      MulLe(Pow(a, e - 1), Pow(b, e - 1), b);
    }
  }

  lemma {:induction false} PowPositive(b: nat, e: nat)
    requires b >= 1
    ensures Pow(b, e) >= 1
  {
    if e > 0 { PowPositive(b, e - 1); }
  }

  lemma {:induction false} PowOfPow(b: nat, e: nat, f: nat)
    ensures Pow(Pow(b, e), f) == Pow(b, e * f)
  {
    if f > 0 {
      PowOfPow(b, e, f - 1);
      assert e + e * (f - 1) == e * f;
      PowAdd(b, e, e * (f - 1));
    }
  }

  // Multiplication as repeated addition.  Statements that multiply two unknowns are phrased
  // with it so that only the lemmas about it do nonlinear arithmetic.
  function Times(a: nat, p: nat): nat {
    if a == 0 then 0 else Times(a - 1, p) + p
  }

  lemma {:induction false} TimesIsMul(a: nat, p: nat)
    ensures Times(a, p) == a * p
  {
    if a > 0 { TimesIsMul(a - 1, p); }
  }

  lemma {:induction false} TimesAdd(c: nat, a: nat, b: nat, p: nat)
    requires c == a + b
    ensures Times(c, p) == Times(a, p) + Times(b, p)
  {
    if b > 0 { TimesAdd(c - 1, a, b - 1, p); }
  }

  lemma TimesScale(k: nat, a: nat, p: nat, ka: nat, kp: nat)
    requires ka == k * a && kp == k * p
    ensures Times(ka, p) == k * Times(a, p) == Times(a, kp)
  {
    TimesIsMul(ka, p);
    TimesIsMul(a, kp);
    TimesIsMul(a, p);
    MulAssoc(k, a, p);
    MulAssoc(a, k, p);
  }

  // ----- values of digit sequences -----

  lemma {:induction false} ValPrepend(x: nat, t: seq<nat>, b: nat)
    ensures Val([x] + t, b) == x * Pow(b, |t|) + Val(t, b)
  {
    var s := [x] + t;
    if t == [] {
      assert s[..|s| - 1] == [];
    } else {
      var init, d := t[..|t| - 1], t[|t| - 1];
      assert s[..|s| - 1] == [x] + init;
      ValPrepend(x, init, b);
      var p := Pow(b, |init|);
      assert Pow(b, |t|) == b * p;
      assert (x * p + Val(init, b)) * b + d == x * (b * p) + (Val(init, b) * b + d);
    }
  }

  lemma ValPrependTimes(x: nat, t: seq<nat>, b: nat)
    ensures Val([x] + t, b) == Times(x, Pow(b, |t|)) + Val(t, b)
  {
    ValPrepend(x, t, b);
    TimesIsMul(x, Pow(b, |t|));
  }

  lemma {:induction false} ValZeros(k: nat, t: seq<nat>, b: nat)
    ensures Val(Zeros(k) + t, b) == Val(t, b)
  {
    if k == 0 {
      assert Zeros(0) + t == t;
    } else {
      assert Zeros(k) + t == [0] + (Zeros(k - 1) + t);
      ValZeros(k - 1, t, b);
      ValPrepend(0, Zeros(k - 1) + t, b);
    }
  }

  lemma DigitBound(v: nat, d: nat, p: nat, b: nat)
    requires v < p && d < b
    ensures v * b + d < b * p
  {
    MulLe(v + 1, p, b);
  }

  lemma {:induction false} ValBound(s: seq<nat>, b: nat)
    requires Digits(s, b)
    ensures Val(s, b) < Pow(b, |s|)
  {
    if s != [] {
      var init := s[..|s| - 1];
      ValBound(init, b);
      DigitBound(Val(init, b), s[|s| - 1], Pow(b, |init|), b);
    }
  }

  lemma DivModBack(n: nat, b: nat)
    requires b >= 2
    ensures n == (n / b) * b + n % b && n % b < b
  {
  }

  lemma {:induction false} ToBaseCanonical(n: nat, b: nat)
    requires b >= 2
    ensures Val(ToBase(n, b), b) == n
    ensures Digits(ToBase(n, b), b)
    ensures n > 0 ==> ToBase(n, b) != [] && ToBase(n, b)[0] != 0
    decreases n
  {
    if n > 0 {
      DivShrinks(n, b);
      var s, init := ToBase(n, b), ToBase(n / b, b);
      ToBaseCanonical(n / b, b);
      assert s[..|s| - 1] == init && s[|s| - 1] == n % b;
      DivModBack(n, b);
      if n / b == 0 { assert s[0] == n % b; } else { assert s[0] == init[0]; }
    }
  }

  lemma {:induction false} LeadIs(k: nat, t: seq<nat>)
    requires t == [] || t[0] != 0
    ensures Lead(Zeros(k) + t) == k
  {
    var s := Zeros(k) + t;
    if k == 0 {
      assert s == t;
    } else {
      assert s[1..] == Zeros(k - 1) + t;
      LeadIs(k - 1, t);
    }
  }

  lemma ToBaseAppend(n: nat, v: nat, d: nat, b: nat)
    requires b >= 2 && d < b && n == v * b + d && n > 0
    ensures ToBase(n, b) == ToBase(v, b) + [d]
  {
    DivModUnique(v, d, b);
  }

  // Every numeral is its leading zeros followed by the shortest numeral of its value.
  lemma {:induction false} Canonical(s: seq<nat>, b: nat)
    requires b >= 2 && Digits(s, b)
    ensures s == Convert(s, b, b)
  {
    if s != [] {
      var t, d := s[..|s| - 1], s[|s| - 1];
      Canonical(t, b);
      assert s == t + [d];
      var n := Val(s, b);
      if n > 0 {
        ToBaseAppend(n, Val(t, b), d, b);
        ToBaseCanonical(n, b);
        LeadOfSplit(s, Lead(t), ToBase(n, b));
      } else {
        ZeroDigits(Val(t, b), d, b);
        LeadOfSplit(s, Lead(t) + 1, []);
      }
    }
  }

  lemma LeadOfSplit(s: seq<nat>, k: nat, t: seq<nat>)
    requires s == Zeros(k) + t
    requires t == [] || t[0] != 0
    ensures s == Zeros(Lead(s)) + t
  {
    LeadIs(k, t);
  }

  lemma ZeroDigits(v: nat, d: nat, b: nat)
    requires b >= 2 && v * b + d == 0
    ensures v == 0 && d == 0
  {
  }

  // Converting to another base and back restores every digit sequence, leading zeros included.
  lemma ConvertBack(s: seq<nat>, a: nat, b: nat)
    requires a >= 2 && b >= 2 && Digits(s, a)
    ensures Digits(Convert(s, a, b), b)
    ensures Convert(Convert(s, a, b), b, a) == s
  {
    var n, k := Val(s, a), Lead(s);
    ToBaseCanonical(n, b);
    LeadIs(k, ToBase(n, b));
    ValZeros(k, ToBase(n, b), b);
    Canonical(s, a);
  }

  // Equal-length numerals with equal values are equal.
  lemma ValInjective(s: seq<nat>, t: seq<nat>, b: nat)
    requires b >= 2 && Digits(s, b) && Digits(t, b)
    requires |s| == |t| && Val(s, b) == Val(t, b)
    ensures s == t
  {
    Canonical(s, b);
    Canonical(t, b);
  }

  // A numeral without leading zeros is the shortest one.
  lemma ShortestIsToBase(s: seq<nat>, b: nat)
    requires b >= 2 && Digits(s, b)
    requires s == [] || s[0] != 0
    ensures s == ToBase(Val(s, b), b)
  {
    Canonical(s, b);
  }

  // How to recognise a conversion: same leading zeros, same value, no zero after them.
  lemma ConvertIs(s: seq<nat>, a: nat, k: nat, t: seq<nat>, b: nat)
    requires b >= 2 && Digits(t, b)
    requires k <= |s| && s[..k] == Zeros(k) && (k < |s| ==> s[k] != 0)
    requires t != [] ==> t[0] != 0
    requires Val(t, b) == Val(s, a)
    ensures Convert(s, a, b) == Zeros(k) + t
  {
    ShortestIsToBase(t, b);
    assert s == Zeros(k) + s[k..];
    LeadIs(k, s[k..]);
  }

  lemma RevZeros(s: seq<nat>, k: nat)
    ensures Rev(s + Zeros(k)) == Zeros(k) + Rev(s)
  {
    RevIs(s + Zeros(k));
    RevIs(s);
  }

  lemma SplitAt(s: seq<nat>, k: nat)
    requires k <= |s|
    ensures s == s[..k] + s[k..]
  {
  }
}
