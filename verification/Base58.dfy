/**
 Base58 and Base58Check.  The two conversion loops work in place on digits; each is proved
 equal to `Numerals.Convert`, whose round trips then give the round trips of the encoding.
 Strings are sequences of bytes.  The hash is a parameter.
 */
module Base58 {
  import opened Collections
  import opened Numerals

  datatype Error =
    | BadByte(byte: nat)
    | BadChecksum(expected: nat, actual: nat)
    | TooShort(len: nat)

  datatype Result<+T> = Ok(value: T) | Err(error: Error)

  type Hash = h: seq<nat> -> seq<nat> | forall x :: |h(x)| == 32 && Digits(h(x), 256)
    witness x => Zeros(32)

  // ----- the alphabet -----

  const DECIMALS := "123456789"
  const CAPITALS := "ABCDEFGHJKLMNPQRSTUVWXYZ"
  const SMALLS := "abcdefghijkmnopqrstuvwxyz"
  const CHARS := DECIMALS + CAPITALS + SMALLS

  // The character for a digit.
  function CharOf(d: nat): (c: nat)
    requires d < 58
    ensures c < 128
  {
    if d < 9 then '1' as int + d
    else if d < 17 then 'A' as int + d - 9
    else if d < 22 then 'J' as int + d - 17
    else if d < 33 then 'P' as int + d - 22
    else if d < 44 then 'a' as int + d - 33
    else 'm' as int + d - 44
  }

  // The 128-entry table from bytes to digits.
  function DigitOf(c: nat): (d: Option<nat>)
    requires c < 128
    ensures d.Some? ==> d.value < 58
  {
    if '1' as int <= c <= '9' as int then Some(c - '1' as int)
    else if 'A' as int <= c <= 'H' as int then Some(c - 'A' as int + 9)
    else if 'J' as int <= c <= 'N' as int then Some(c - 'J' as int + 17)
    else if 'P' as int <= c <= 'Z' as int then Some(c - 'P' as int + 22)
    else if 'a' as int <= c <= 'k' as int then Some(c - 'a' as int + 33)
    else if 'm' as int <= c <= 'z' as int then Some(c - 'm' as int + 44)
    else None
  }

  lemma DecimalAt(i: nat)
    requires i < 9 == |DECIMALS|
    ensures DECIMALS[i] as int == CharOf(i)
  {
  }

  lemma CapitalAt(i: nat)
    requires i < 24 == |CAPITALS|
    ensures CAPITALS[i] as int == CharOf(9 + i)
  {
  }

  lemma SmallAt(i: nat)
    requires i < 25 == |SMALLS|
    ensures SMALLS[i] as int == CharOf(33 + i)
  {
  }

  lemma CharIn(a: string, b: string, c: string, d: nat)
    requires |a| == 9 && |b| == 24 && |c| == 25 && d < 58
    ensures (a + b + c)[d] == if d < 9 then a[d] else if d < 33 then b[d - 9] else c[d - 33]
  {
  }

  // `CharOf` reads the alphabet string.
  lemma CharOfIsAlphabet(d: nat)
    requires d < 58
    ensures |CHARS| == 58 && CHARS[d] as int == CharOf(d)
  {
    assert |DECIMALS| == 9 && |CAPITALS| == 24 && |SMALLS| == 25;
    CharIn(DECIMALS, CAPITALS, SMALLS, d);
    if d < 9 { DecimalAt(d); } else if d < 33 { CapitalAt(d - 9); } else { SmallAt(d - 33); }
  }

  lemma DigitCharInverse(c: nat, d: nat)
    requires c < 128 && d < 58
    ensures DigitOf(c) == Some(d) <==> c == CharOf(d)
  {
  }

  predicate InAlphabet(c: nat) {
    c < 128 && DigitOf(c).Some?
  }

  predicate OverAlphabet(s: seq<nat>) {
    forall i :: 0 <= i < |s| ==> s[i] < 128 && DigitOf(s[i]).Some?
  }

  function ToDigits(s: seq<nat>): (ds: seq<nat>)
    requires OverAlphabet(s)
    ensures |ds| == |s| && Digits(ds, 58)
    ensures forall i :: 0 <= i < |s| ==> ds[i] == DigitOf(s[i]).value
  {
    seq(|s|, i requires 0 <= i < |s| => DigitOf(s[i]).value)
  }

  function ToChars(ds: seq<nat>): (s: seq<nat>)
    requires Digits(ds, 58)
    ensures |s| == |ds|
    ensures forall i :: 0 <= i < |ds| ==> s[i] == CharOf(ds[i])
  {
    seq(|ds|, i requires 0 <= i < |ds| => CharOf(ds[i]))
  }

  // ----- strings are UTF-8 -----

  predicate Continuation(c: nat) { 0x80 <= c < 0xC0 }

  predicate Utf8(s: seq<nat>) {
    if s == [] then true
    else if s[0] < 0x80 then Utf8(s[1..])
    else if 0xC2 <= s[0] < 0xE0 then |s| >= 2 && Continuation(s[1]) && Utf8(s[2..])
    else if 0xE0 <= s[0] < 0xF0 then
      |s| >= 3 && Continuation(s[1]) && Continuation(s[2]) && Utf8(s[3..])
    else if 0xF0 <= s[0] < 0xF5 then
      |s| >= 4 && Continuation(s[1]) && Continuation(s[2]) && Continuation(s[3]) && Utf8(s[4..])
    else false
  }

  // The bytes of a character.
  function Char(c: nat): seq<nat>
    requires c < 0x11_0000
  {
    if c < 0x80 then [c]
    else if c < 0x800 then [0xC0 + c / 0x40, 0x80 + c % 0x40]
    else if c < 0x1_0000 then [0xE0 + c / 0x1000, 0x80 + c / 0x40 % 0x40, 0x80 + c % 0x40]
    else [0xF0 + c / 0x4_0000, 0x80 + c / 0x1000 % 0x40, 0x80 + c / 0x40 % 0x40, 0x80 + c % 0x40]
  }

  predicate Chars(text: seq<nat>) {
    forall i :: 0 <= i < |text| ==> text[i] < 0x11_0000
  }

  function Text(text: seq<nat>): seq<nat>
    requires Chars(text)
  {
    if text == [] then [] else Char(text[0]) + Text(text[1..])
  }

  // Every text is covered, whatever its characters.
  lemma {:induction false} TextIsUtf8(text: seq<nat>)
    requires Chars(text)
    ensures Utf8(Text(text))
  {
    if text != [] {
      TextIsUtf8(text[1..]);
      CharIsUtf8(text[0], Text(text[1..]));
    }
  }

  lemma CharIsUtf8(c: nat, rest: seq<nat>)
    requires c < 0x11_0000 && Utf8(rest)
    ensures Utf8(Char(c) + rest)
  {
    assert (Char(c) + rest)[|Char(c)|..] == rest;
    assert forall i :: 0 < i < |Char(c)| ==> Continuation(Char(c)[i]);
  }

  // The first byte that is not ASCII starts a character, so it is never 0x80: the decoder's
  // table lookup stays inside the table although its guard admits the index 128.
  lemma {:induction false} FirstNonAscii(s: seq<nat>, i: nat)
    requires Utf8(s) && i < |s|
    requires forall j :: 0 <= j < i ==> s[j] < 0x80
    ensures s[i] < 0x80 || 0xC2 <= s[i] < 0xF5
  {
    if i > 0 {
      assert s[1..][i - 1] == s[i];
      FirstNonAscii(s[1..], i - 1);
    }
  }

  lemma {:induction false} AsciiIsUtf8(s: seq<nat>)
    requires forall i :: 0 <= i < |s| ==> s[i] < 0x80
    ensures Utf8(s)
  {
    if s != [] { AsciiIsUtf8(s[1..]); }
  }

  // ----- what the coders compute -----

  function FirstBad(s: seq<nat>): (i: nat)
    ensures i <= |s|
    ensures forall j :: 0 <= j < i ==> InAlphabet(s[j])
    ensures i < |s| ==> !InAlphabet(s[i])
  {
    if s == [] || !InAlphabet(s[0]) then 0 else 1 + FirstBad(s[1..])
  }

  function Decoded(s: seq<nat>): Result<seq<nat>> {
    var i := FirstBad(s);
    if i < |s| then Err(BadByte(s[i])) else
      assert forall j :: 0 <= j < |s| ==> InAlphabet(s[j]);
      Ok(Convert(ToDigits(s), 58, 256))
  }

  function Encoded(data: seq<nat>): seq<nat>
    requires Digits(data, 256)
  {
    ConvertBack(data, 256, 58);
    ToChars(Convert(data, 256, 58))
  }

  // Every byte string survives encoding and decoding.
  lemma DecodeOfEncode(data: seq<nat>)
    requires Digits(data, 256)
    ensures Decoded(Encoded(data)) == Ok(data)
    ensures Utf8(Encoded(data))
  {
    var ds := Convert(data, 256, 58);
    ConvertBack(data, 256, 58);
    CharsOfDigits(ds);
    AsciiIsUtf8(ToChars(ds));
  }

  lemma CharsOfDigits(ds: seq<nat>)
    requires Digits(ds, 58)
    ensures OverAlphabet(ToChars(ds))
    ensures ToDigits(ToChars(ds)) == ds
  {
    forall i | 0 <= i < |ds|
      ensures InAlphabet(ToChars(ds)[i]) && DigitOf(ToChars(ds)[i]).value == ds[i]
    {
      DigitCharInverse(CharOf(ds[i]), ds[i]);
    }
  }

  // Every string over the alphabet decodes, and encoding the result gives the string back.
  lemma EncodeOfDecode(s: seq<nat>)
    requires OverAlphabet(s)
    ensures Decoded(s).Ok? && Digits(Decoded(s).value, 256)
    ensures Encoded(Decoded(s).value) == s
  {
    assert FirstBad(s) == |s|;
    var ds := ToDigits(s);
    ConvertBack(ds, 58, 256);
    forall i | 0 <= i < |s|
      ensures ToChars(ds)[i] == s[i]
    {
      DigitCharInverse(s[i], ds[i]);
    }
  }

  // ----- the scratch buffer is long enough -----

  lemma {:induction false} ByFours(j: nat)
    ensures Pow(58, 4 * j) <= Pow(256, 3 * j)
  {
    if j > 0 {
      assert Pow(58, 4) <= Pow(256, 3);
      ByFours(j - 1);
      ProductLe(58, 4, 4 * (j - 1), 256, 3, 3 * (j - 1));
    }
  }

  lemma SmallPowers(n: nat)
    requires n < 15
    ensures Pow(58, n) <= Pow(256, 1 + n * 11 / 15)
  {
    var j, k := n / 4, n % 4;
    ByFours(j);
    PowMono(58, 256, k);
    ProductLe(58, 4 * j, k, 256, 3 * j, k);
    PowMonoExp(256, 3 * j + k, 1 + n * 11 / 15);
  }

  lemma FifteenDigits()
    ensures Pow(58, 15) <= Pow(256, 11)
  {
    assert Pow(58, 5) == 656356768 && Pow(256, 4) == 0x1_0000_0000 && Pow(256, 3) == 0x100_0000;
    PowAdd(58, 5, 5);
    PowAdd(58, 10, 5);
    PowAdd(256, 4, 4);
    PowAdd(256, 8, 3);
  }

  // 58^n never exceeds 256^(1 + floor(11 n / 15)).
  lemma {:induction false} ScratchSuffices(n: nat)
    ensures Pow(58, n) <= Pow(256, 1 + n * 11 / 15)
  {
    if n < 15 {
      SmallPowers(n);
    } else {
      var m := n - 15;
      var k := 1 + m * 11 / 15;
      assert 1 + n * 11 / 15 == 11 + k;
      ScratchSuffices(m);
      FifteenDigits();
      ProductLe(58, 15, m, 256, 11, k);
    }
  }

  lemma ProductLe(a: nat, e: nat, f: nat, b: nat, g: nat, h: nat)
    requires Pow(a, e) <= Pow(b, g) && Pow(a, f) <= Pow(b, h)
    ensures Pow(a, e + f) <= Pow(b, g + h)
  {
    PowAdd(a, e, f);
    PowAdd(b, g, h);
    MulLeMul(Pow(a, e), Pow(b, g), Pow(a, f), Pow(b, h));
  }

  // ----- decoding -----

  lemma CarryDown(vNew: nat, carry: nat, p: nat, vOld: nat, digit: nat, x: nat, q: nat, r: nat)
    requires vNew + Times(carry, p) == vOld * 58 + digit
    requires carry + 58 * x == 256 * q + r
    ensures (Times(r, p) + vNew) + Times(q, 256 * p) == (Times(x, p) + vOld) * 58 + digit
  {
    var c, x58, q256 := carry + 58 * x, 58 * x, 256 * q;
    TimesAdd(c, carry, x58, p);
    TimesScale(58, x, p, x58, 58 * p);
    TimesAdd(c, q256, r, p);
    TimesScale(256, q, p, q256, 256 * p);
  }

  // One step of the inner loop: `low` and `wasLow` are the digits below position j after and
  // before, x the digit at j.
  lemma CarryThrough(low: seq<nat>, wasLow: seq<nat>, carry: nat, digit: nat, x: nat, c: nat)
    requires |low| == |wasLow|
    requires Val(low, 256) + Times(carry, Pow(256, |low|)) == Val(wasLow, 256) * 58 + digit
    requires c == carry + x * 58
    ensures Val([c % 256] + low, 256) + Times(c / 256, Pow(256, |low| + 1))
         == Val([x] + wasLow, 256) * 58 + digit
  {
    CarryDown(Val(low, 256), carry, Pow(256, |low|), Val(wasLow, 256), digit, x, c / 256, c % 256);
    ValPrependTimes(c % 256, low, 256);
    ValPrependTimes(x, wasLow, 256);
  }

  // X = X * 58 + digit on the base-256 digits, least significant digit last.
  method MulAdd(scratch: array<nat>, digit: nat) returns (carry: nat)
    requires Digits(scratch[..], 256) && digit < 58
    modifies scratch
    ensures Digits(scratch[..], 256)
    ensures Val(scratch[..], 256) + Times(carry, Pow(256, scratch.Length))
         == Val(old(scratch[..]), 256) * 58 + digit
  {
    ghost var was := scratch[..];
    ghost var low: seq<nat>, wasLow: seq<nat> := [], [];
    var n, j := scratch.Length, scratch.Length;
    carry := digit;
    TimesIsMul(digit, 1);
    while j > 0
      invariant 0 <= j <= n
      invariant carry <= 58
      invariant Digits(low, 256) && |low| == |wasLow|
      invariant Upper(scratch[..], was, j, low) && Upper(was, was, j, wasLow)
      invariant Val(low, 256) + Times(carry, Pow(256, |low|)) == Val(wasLow, 256) * 58 + digit
    {
      j := j - 1;
      var x := scratch[j];
      var c := carry + x * 58;
      CarryThrough(low, wasLow, carry, digit, x, c);
      ghost var now := scratch[..];
      scratch[j], carry := c % 256, c / 256;
      UpperStep(now, was, j, low, c % 256, scratch[..]);
      UpperStep(was, was, j, wasLow, x, was);
      low, wasLow := [c % 256] + low, [x] + wasLow;
    }
    assert scratch[..] == low && was == wasLow;
  }

  // From position j on the digits are those of low, below it they are as they were.
  ghost predicate Upper(s: seq<nat>, was: seq<nat>, j: nat, low: seq<nat>) {
    j <= |s| == |was| && s[..j] == was[..j] && s[j..] == low
  }

  lemma UpperStep(s: seq<nat>, was: seq<nat>, j: nat, low: seq<nat>, d: nat, s': seq<nat>)
    requires j < |s| && Upper(s, was, j + 1, low) && s' == s[j := d]
    ensures Upper(s', was, j, [d] + low)
  {
    assert s'[..j] == s[..j + 1][..j] && was[..j] == was[..j + 1][..j];
    assert s'[j..] == [d] + s[j + 1..];
  }

  lemma NoCarry(v: nat, carry: nat, p: nat)
    requires v + Times(carry, p) < p
    ensures carry == 0
  {
  }

  lemma {:induction false} PowMonoExp(b: nat, e: nat, f: nat)
    requires b >= 1 && e <= f
    ensures Pow(b, e) <= Pow(b, f)
  {
    if e < f {
      PowMonoExp(b, e, f - 1);
      MulLe(1, b, Pow(b, f - 1));
    }
  }

  // The number of characters '1' a string starts with.
  function LeadingOnes(s: seq<nat>): nat {
    if s == [] || s[0] != CharOf(0) then 0 else 1 + LeadingOnes(s[1..])
  }

  lemma {:induction false} LeadingOnesAreZeros(s: seq<nat>)
    requires OverAlphabet(s)
    ensures LeadingOnes(s) == Lead(ToDigits(s))
  {
    if s != [] {
      DigitCharInverse(s[0], 0);
      assert ToDigits(s)[1..] == ToDigits(s[1..]);
      LeadingOnesAreZeros(s[1..]);
    }
  }

  // Takes in the next digit; the buffer is long enough, so no carry is left over.
  method PushDigit(scratch: array<nat>, ghost ds: seq<nat>, digit: nat)
    requires Digits(scratch[..], 256) && Digits(ds, 58) && digit < 58
    requires Val(scratch[..], 256) == Val(ds, 58)
    requires Pow(58, |ds| + 1) <= Pow(256, scratch.Length)
    modifies scratch
    ensures Digits(scratch[..], 256) && Val(scratch[..], 256) == Val(ds + [digit], 58)
  {
    var carry := MulAdd(scratch, digit);
    ghost var all := ds + [digit];
    assert all[..|all| - 1] == ds;
    ValBound(all, 58);
    NoCarry(Val(scratch[..], 256), carry, Pow(256, scratch.Length));
    assert carry == 0;
  }

  // The guard and the table lookup for the byte at i, all earlier bytes being good.
  method LookUp(data: seq<nat>, i: nat) returns (r: Result<nat>)
    requires Utf8(data) && i < |data| && OverAlphabet(data[..i])
    ensures r.Ok? ==> InAlphabet(data[i]) && Some(r.value) == DigitOf(data[i])
    ensures r.Err? ==> Decoded(data) == Err(r.error)
  {
    var d58 := data[i];
    assert forall j :: 0 <= j < i ==> data[j] == data[..i][j];
    FirstNonAscii(data, i);
    if d58 > 128 {
      FirstBadAt(data, i);
      return Err(BadByte(d58));
    }
    match DigitOf(d58) {
      case Some(d) => return Ok(d);
      case None =>
        FirstBadAt(data, i);
        return Err(BadByte(d58));
    }
  }

  lemma OneMoreDigit(s: seq<nat>, i: nat)
    requires i < |s| && OverAlphabet(s[..i]) && InAlphabet(s[i])
    ensures OverAlphabet(s[..i + 1])
    ensures ToDigits(s[..i + 1]) == ToDigits(s[..i]) + [DigitOf(s[i]).value]
  {
    assert s[..i + 1] == s[..i] + [s[i]];
  }

  method From(data: seq<nat>) returns (r: Result<seq<nat>>)
    requires Utf8(data)
    ensures r == Decoded(data)
  {
    var scratch := new nat[1 + |data| * 11 / 15](_ => 0);
    ZeroScratch(scratch[..]);
    ScratchSuffices(|data|);
    ghost var ds: seq<nat> := [];
    for i := 0 to |data|
      invariant OverAlphabet(data[..i]) && ds == ToDigits(data[..i])
      invariant Digits(scratch[..], 256) && Val(scratch[..], 256) == Val(ds, 58)
    {
      var digit := LookUp(data, i);
      if digit.Err? { return Err(digit.error); }
      PowMonoExp(58, i + 1, |data|);
      PushDigit(scratch, ds, digit.value);
      ds := ds + [digit.value];
      OneMoreDigit(data, i);
    }
    assert data[..|data|] == data;
    var digits := scratch[..];
    DecodedIs(data, digits);
    return Ok(Zeros(LeadingOnes(data)) + digits[Lead(digits)..]);
  }

  lemma DecodedIs(s: seq<nat>, digits: seq<nat>)
    requires OverAlphabet(s) && Digits(digits, 256)
    requires Val(digits, 256) == Val(ToDigits(s), 58)
    ensures Decoded(s) == Ok(Zeros(LeadingOnes(s)) + digits[Lead(digits)..])
  {
    assert s[..|s|] == s;
    FirstBadAt(s, |s|);
    LeadingOnesAreZeros(s);
    Canonical(digits, 256);
  }

  lemma {:induction false} FirstBadAt(s: seq<nat>, i: nat)
    requires i <= |s| && OverAlphabet(s[..i])
    requires i < |s| ==> !InAlphabet(s[i])
    ensures FirstBad(s) == i
  {
    var k := FirstBad(s);
    assert forall j :: 0 <= j < i ==> s[..i][j] == s[j];
    assert i <= k && k <= i;
  }

  lemma ZeroScratch(s: seq<nat>)
    requires forall i :: 0 <= i < |s| ==> s[i] == 0
    ensures Digits(s, 256) && Val(s, 256) == 0
  {
    assert s == Zeros(|s|) + [];
    ValZeros(|s|, [], 256);
  }

  // ----- encoding -----

  lemma CarryUp(vNew: nat, carry: nat, p: nat, vOld: nat, byte: nat, x: nat, q: nat, r: nat)
    requires vNew + Times(carry, p) == vOld * 256 + byte
    requires 256 * x + carry == 58 * q + r
    ensures (Times(r, p) + vNew) + Times(q, 58 * p) == (Times(x, p) + vOld) * 256 + byte
  {
    var c, x256, q58 := 256 * x + carry, 256 * x, 58 * q;
    TimesAdd(c, x256, carry, p);
    TimesScale(256, x, p, x256, 256 * p);
    TimesAdd(c, q58, r, p);
    TimesScale(58, q, p, q58, 58 * p);
  }

  // Value of digits stored least significant first.
  function LittleVal(s: seq<nat>): nat {
    Val(Rev(s), 58)
  }

  lemma LittleAppend(s: seq<nat>, x: nat)
    ensures LittleVal(s + [x]) == Times(x, Pow(58, |s|)) + LittleVal(s)
  {
    assert (s + [x])[..|s|] == s;
    assert Rev(s + [x]) == [x] + Rev(s);
    ValPrependTimes(x, Rev(s), 58);
  }

  lemma CarryOn(done: seq<nat>, wasDone: seq<nat>, carry: nat, byte: nat, x: nat, c: nat)
    requires |done| == |wasDone| && c == x * 256 + carry
    requires LittleVal(done) + Times(carry, Pow(58, |done|)) == LittleVal(wasDone) * 256 + byte
    ensures LittleVal(done + [c % 58]) + Times(c / 58, Pow(58, |done| + 1))
         == LittleVal(wasDone + [x]) * 256 + byte
  {
    var p, u, v := Pow(58, |done|), LittleVal(done), LittleVal(wasDone);
    CarryUp(u, carry, p, v, byte, x, c / 58, c % 58);
    LittleAppend(done, c % 58);
    LittleAppend(wasDone, x);
    assert Pow(58, |done| + 1) == 58 * p;
  }

  // Multiplies the base-58 digits (least significant first) by 256 and adds a byte.
  method MulAddLittle(ret0: seq<nat>, byte: nat) returns (ret: seq<nat>, carry: nat)
    requires byte < 256 && Digits(ret0, 58)
    requires ret0 != [] ==> ret0[|ret0| - 1] != 0
    ensures |ret| == |ret0| && Digits(ret, 58)
    ensures ret0 != [] ==> carry > 0
    ensures LittleVal(ret) + Times(carry, Pow(58, |ret|)) == LittleVal(ret0) * 256 + byte
  {
    ret, carry := ret0, byte;
    TimesIsMul(byte, 1);
    for i := 0 to |ret|
      invariant |ret| == |ret0| && Digits(ret, 58) && ret[i..] == ret0[i..]
      invariant carry < 256
      invariant 0 < i == |ret| ==> carry > 0
      invariant LittleVal(ret[..i]) + Times(carry, Pow(58, i)) == LittleVal(ret0[..i]) * 256 + byte
    {
      ghost var done := ret[..i];
      assert ret[i] == ret0[i] && ret0[..i + 1] == ret0[..i] + [ret0[i]];
      var newCh := ret[i] * 256 + carry;
      CarryOn(done, ret0[..i], carry, byte, ret[i], newCh);
      ret := ret[i := newCh % 58];
      carry := newCh / 58;
      assert ret[..i + 1] == done + [newCh % 58];
    }
    assert ret[..|ret|] == ret && ret0[..|ret0|] == ret0;
  }

  // The whole step: the remaining carry becomes new top digits, the topmost never zero.
  method AddByte(ret0: seq<nat>, byte: nat) returns (ret: seq<nat>)
    requires byte < 256 && Digits(ret0, 58)
    requires ret0 != [] ==> ret0[|ret0| - 1] != 0
    ensures Digits(ret, 58)
    ensures ret != [] ==> ret[|ret| - 1] != 0
    ensures LittleVal(ret) == LittleVal(ret0) * 256 + byte
  {
    var carry;
    ret, carry := MulAddLittle(ret0, byte);
    while carry > 0
      invariant Digits(ret, 58)
      invariant carry == 0 && ret != [] ==> ret[|ret| - 1] != 0
      invariant LittleVal(ret) + Times(carry, Pow(58, |ret|)) == LittleVal(ret0) * 256 + byte
    {
      SplitCarry(ret, carry);
      ret := ret + [carry % 58];
      carry := carry / 58;
    }
  }

  lemma SplitCarry(ret: seq<nat>, carry: nat)
    ensures LittleVal(ret + [carry % 58]) + Times(carry / 58, Pow(58, |ret| + 1))
         == LittleVal(ret) + Times(carry, Pow(58, |ret|))
  {
    var q, r, p := carry / 58, carry % 58, Pow(58, |ret|);
    LittleAppend(ret, r);
    TimesAdd(carry, 58 * q, r, p);
    TimesScale(58, q, p, 58 * q, 58 * p);
    assert Pow(58, |ret| + 1) == 58 * p;
  }

  method EncodeIter(data: seq<nat>) returns (s: seq<nat>)
    requires Digits(data, 256)
    ensures s == Encoded(data)
  {
    var ret: seq<nat> := [];
    var leadingZeroCount, leadingZeroes := 0, true;
    for i := 0 to |data|
      invariant Digits(ret, 58)
      invariant ret != [] ==> ret[|ret| - 1] != 0
      invariant LittleVal(ret) == Val(data[..i], 256)
      invariant leadingZeroCount <= i && data[..leadingZeroCount] == Zeros(leadingZeroCount)
      invariant leadingZeroes ==> leadingZeroCount == i
      invariant !leadingZeroes ==> leadingZeroCount < i && data[leadingZeroCount] != 0
    {
      assert data[..i + 1][..i] == data[..i];
      if leadingZeroes && data[i] == 0 {
        leadingZeroCount := leadingZeroCount + 1;
      } else {
        leadingZeroes := false;
      }
      ret := AddByte(ret, data[i]);
    }
    assert data[..|data|] == data;
    EncodedIs(data, ret, leadingZeroCount);
    ret := ret + Zeros(leadingZeroCount);
    return ToChars(Rev(ret));
  }

  lemma EncodedIs(data: seq<nat>, ret: seq<nat>, k: nat)
    requires Digits(data, 256) && Digits(ret, 58)
    requires ret != [] ==> ret[|ret| - 1] != 0
    requires LittleVal(ret) == Val(data, 256)
    requires k <= |data| && data[..k] == Zeros(k) && (k < |data| ==> data[k] != 0)
    ensures Digits(Rev(ret + Zeros(k)), 58)
    ensures Encoded(data) == ToChars(Rev(ret + Zeros(k)))
  {
    RevIs(ret);
    ConvertIs(data, 256, k, Rev(ret), 58);
    RevZeros(ret, k);
  }

  // ----- the checked form -----

  // Reading four bytes, or the low half of eight bytes, little end first.
  function Le32(b: seq<nat>): nat
    requires |b| == 4
  {
    b[0] + 0x100 * b[1] + 0x1_0000 * b[2] + 0x100_0000 * b[3]
  }

  function Le64(b: seq<nat>): nat
    requires |b| == 8
  {
    Le32(b[..4]) + 0x1_0000_0000 * Le32(b[4..])
  }

  lemma Le32Injective(a: seq<nat>, b: seq<nat>)
    requires |a| == |b| == 4 && Digits(a, 256) && Digits(b, 256)
    ensures Le32(a) == Le32(b) <==> a == b
  {
    if Le32(a) == Le32(b) {
      FourBytes(a[0], a[1], a[2], a[3], b[0], b[1], b[2], b[3]);
    }
  }

  lemma FourBytes(a0: nat, a1: nat, a2: nat, a3: nat, b0: nat, b1: nat, b2: nat, b3: nat)
    requires a0 < 256 && a1 < 256 && a2 < 256 && b0 < 256 && b1 < 256 && b2 < 256
    requires a0 + 0x100 * a1 + 0x1_0000 * a2 + 0x100_0000 * a3
          == b0 + 0x100 * b1 + 0x1_0000 * b2 + 0x100_0000 * b3
    ensures a0 == b0 && a1 == b1 && a2 == b2 && a3 == b3
  {
    assert a3 == b3;
    assert a2 == b2;
    assert a1 == b1;
  }

  function CheckEncoded(data: seq<nat>, hash: Hash): seq<nat>
    requires Digits(data, 256)
  {
    Encoded(data + hash(data)[..4])
  }

  function CheckDecoded(s: seq<nat>, hash: Hash): Result<seq<nat>> {
    var r := Decoded(s);
    if r.Err? then r
    else if |r.value| < 4 then Err(TooShort(|r.value|))
    else
      var n := |r.value| - 4;
      var expected, actual := Le32(hash(r.value[..n])[..4]), Le32(r.value[n..]);
      if expected != actual then Err(BadChecksum(expected, actual)) else Ok(r.value[..n])
  }

  method CheckEncodeSlice(data: seq<nat>, hash: Hash) returns (s: seq<nat>)
    requires Digits(data, 256)
    ensures s == CheckEncoded(data, hash)
  {
    var checksum := hash(data);
    s := EncodeIter(data + checksum[0..4]);
  }

  method FromCheck(s: seq<nat>, hash: Hash) returns (r: Result<seq<nat>>)
    requires Utf8(s)
    ensures r == CheckDecoded(s, hash)
  {
    r := From(s);
    if r.Err? { return; }
    var ret := r.value;
    if |ret| < 4 { return Err(TooShort(|ret|)); }
    var ckStart := |ret| - 4;
    var h := hash(ret[..ckStart]);
    var expected := Expected(h);
    FourBytesLeft(ret, ckStart, ckStart + 4);
    var actual := Le32(ret[ckStart..ckStart + 4]);
    if expected != actual { return Err(BadChecksum(expected, actual)); }
    return Ok(ret[..ckStart]);
  }

  lemma FourBytesLeft(s: seq<nat>, i: nat, n: nat)
    requires i <= n == |s|
    ensures s[i..n] == s[i..]
  {
  }

  method Expected(h: seq<nat>) returns (x: nat)
    requires |h| == 32 && Digits(h, 256)
    ensures x == Le32(h[..4])
  {
    LowHalf(h);
    x := Le64(h[0..8]) % 0x1_0000_0000;
  }

  lemma LowHalf(h: seq<nat>)
    requires |h| == 32 && Digits(h, 256)
    ensures Le64(h[0..8]) % 0x1_0000_0000 == Le32(h[..4])
  {
    assert h[0..8][..4] == h[..4];
  }

  lemma ChecksumFollows(v: seq<nat>, n: nat, sum: seq<nat>)
    requires |v| == n + 4 && Digits(v, 256) && |sum| == 4 && Digits(sum, 256)
    requires Le32(sum) == Le32(v[n..])
    ensures v == v[..n] + sum
  {
    Le32Injective(sum, v[n..]);
  }

  // Splitting off a four-byte checksum.
  lemma SplitChecksum(data: seq<nat>, sum: seq<nat>)
    requires |sum| == 4
    ensures var all := data + sum; all[..|all| - 4] == data && all[|all| - 4..] == sum
  {
  }

  lemma CheckAcceptsEncoded(data: seq<nat>, hash: Hash)
    requires Digits(data, 256)
    ensures CheckDecoded(CheckEncoded(data, hash), hash) == Ok(data)
  {
    var sum := hash(data)[..4];
    DecodeOfEncode(data + sum);
    SplitChecksum(data, sum);
  }

  lemma CheckAcceptsOnlyEncoded(s: seq<nat>, hash: Hash)
    requires CheckDecoded(s, hash).Ok?
    ensures var data := CheckDecoded(s, hash).value;
      Digits(data, 256) && s == CheckEncoded(data, hash)
  {
    assert OverAlphabet(s);
    EncodeOfDecode(s);
    var v := Decoded(s).value;
    var n := |v| - 4;
    var data := v[..n];
    ChecksumFollows(v, n, hash(data)[..4]);
    assert v == data + hash(data)[..4];
  }

  // Whatever the hash, checking accepts exactly the strings that checked encoding produces,
  // and gives back the data they were made from.
  lemma CheckRoundTrip(data: seq<nat>, s: seq<nat>, hash: Hash)
    requires Digits(data, 256)
    ensures CheckDecoded(s, hash) == Ok(data) <==> s == CheckEncoded(data, hash)
  {
    CheckAcceptsEncoded(data, hash);
    if CheckDecoded(s, hash).Ok? { CheckAcceptsOnlyEncoded(s, hash); }
  }
}
