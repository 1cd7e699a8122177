/**
 Difficulty adjustment: the damped moving average with the secondary scaling, and the weighted
 target exponential moving average.
 */
module Difficulty {

  const BLOCK_TIME_SEC: nat := 60
  const DMA_WINDOW: nat := 60
  const BLOCK_TIME_WINDOW: nat := 3600
  const CLAMP_FACTOR: nat := 2
  const DMA_DAMP_FACTOR: nat := 3
  const AR_SCALE_DAMP_FACTOR: nat := 13
  const MIN_DMA_DIFFICULTY: nat := 3
  const MIN_AR_SCALE: nat := 13
  const WTEMA_HALF_LIFE: nat := 14400
  const YEAR_HEIGHT: nat := 524_160
  const MAINNET_MIN_WTEMA: nat := 16384
  const TESTNET_MIN_WTEMA: nat := 1856

  datatype Info = Info(timestamp: nat, difficulty: nat, scaling: nat, isSecondary: bool)

  function Max(a: nat, b: nat): nat { if a >= b then a else b }

  function Min(a: nat, b: nat): nat { if a <= b then a else b }

  function Div(a: nat, b: nat): nat
    requires b > 0
  {
    a / b
  }

  // Moves a value linearly toward a goal.
  function Damp(actual: nat, goal: nat, factor: nat): nat
    requires factor > 0
  {
    MulNat(factor - 1, goal);
    Div(actual + (factor - 1) * goal, factor)
  }

  lemma MulNat(a: nat, b: nat)
    ensures a * b >= 0
  {
  }

  // Limits a value to within some factor of a goal.
  function Clamp(actual: nat, goal: nat, factor: nat): nat
    requires factor > 0
  {
    MulNat(goal, factor);
    Max(Div(goal, factor), Min(actual, goal * factor))
  }

  // A value within the limits stays, any other becomes the limit it is beyond.
  lemma ClampIs(actual: nat, goal: nat, factor: nat)
    requires factor > 0 && goal / factor <= goal * factor
    ensures goal / factor <= actual <= goal * factor ==> Clamp(actual, goal, factor) == actual
    ensures actual < goal / factor ==> Clamp(actual, goal, factor) == goal / factor
    ensures actual > goal * factor ==> Clamp(actual, goal, factor) == goal * factor
  {
  }

  // ----- damped moving average -----

  function AdjustedSpan(delta: nat): nat {
    Clamp(Damp(delta, BLOCK_TIME_WINDOW, DMA_DAMP_FACTOR), BLOCK_TIME_WINDOW, CLAMP_FACTOR)
  }

  // A third of the way from two hours to the time taken, at most two hours: damping alone keeps the
  // span above the lower clamp.
  lemma LowerClampUnreachable(delta: nat)
    ensures 2400 <= AdjustedSpan(delta) <= 7200
    ensures delta < 14400 ==> 3 * AdjustedSpan(delta) <= delta + 7200 < 3 * AdjustedSpan(delta) + 3
    ensures delta >= 14400 ==> AdjustedSpan(delta) == 7200
  {
  }

  function DiffSum(data: seq<Info>): nat {
    if data == [] then 0 else DiffSum(data[..|data| - 1]) + data[|data| - 1].difficulty
  }

  function DmaDifficulty(diffSum: nat, delta: nat): nat {
    LowerClampUnreachable(delta);
    Max(MIN_DMA_DIFFICULTY, Div(diffSum * BLOCK_TIME_SEC, AdjustedSpan(delta)))
  }

  // Quotients fall as the divisor grows and grow with the dividend.
  lemma DivMono(a: nat, a': nat, b: nat, b': nat)
    requires a <= a' && 0 < b' <= b
    ensures a / b <= a' / b'
  {
    var q, q' := a / b, a' / b';
    assert q * b <= a;
    assert a' < (q' + 1) * b';
    if q > q' {
      MulMono(q' + 1, q, b', b);
      assert false;
    }
  }

  lemma MulMono(a: nat, a': nat, b: nat, b': nat)
    requires a <= a' && b <= b'
    ensures a * b <= a' * b'
  {
  }

  // The result is between half and one and a half times the window's average, up to rounding and
  // the minimum.
  lemma DmaBounds(diffSum: nat, delta: nat)
    ensures var r := DmaDifficulty(diffSum, delta);
      && 2 * DMA_WINDOW * (r + 1) > diffSum
      && r >= diffSum / (2 * DMA_WINDOW)
      && (r == MIN_DMA_DIFFICULTY || 2 * DMA_WINDOW * r <= 3 * diffSum)
  {
    LowerClampUnreachable(delta);
    DivMono(diffSum * BLOCK_TIME_SEC, diffSum * BLOCK_TIME_SEC, 7200, AdjustedSpan(delta));
    DivMono(diffSum * BLOCK_TIME_SEC, diffSum * BLOCK_TIME_SEC, AdjustedSpan(delta), 2400);
  }

  // A longer span never gives a higher difficulty, a larger sum never a lower one.
  lemma DmaMonotone(diffSum: nat, diffSum': nat, delta: nat, delta': nat)
    requires diffSum >= diffSum' && delta <= delta'
    ensures DmaDifficulty(diffSum, delta) >= DmaDifficulty(diffSum', delta')
  {
    LowerClampUnreachable(delta);
    LowerClampUnreachable(delta');
    DivMono(diffSum' * BLOCK_TIME_SEC, diffSum * BLOCK_TIME_SEC, AdjustedSpan(delta'), AdjustedSpan(delta));
  }

  // On schedule the result is the average.
  lemma DmaOnSchedule(diffSum: nat)
    ensures DmaDifficulty(diffSum, BLOCK_TIME_WINDOW) == Max(MIN_DMA_DIFFICULTY, diffSum / DMA_WINDOW)
  {
  }

  // A window at least 3 k seconds short of the hour raises the difficulty above the average, if the
  // average is large enough for the rounding ...
  lemma DmaShort(diffSum: nat, delta: nat, k: nat)
    requires 1 <= k <= 1200 && delta + 3 * k <= BLOCK_TIME_WINDOW && diffSum * k >= 60 * (3600 - k)
    ensures DmaDifficulty(diffSum, delta) > diffSum / DMA_WINDOW
  {
    LowerClampUnreachable(delta);
    var a, avg := AdjustedSpan(delta), diffSum / DMA_WINDOW;
    ShortQuotient(diffSum, 3600 - k, k, avg);
    DivMono(diffSum * BLOCK_TIME_SEC, diffSum * BLOCK_TIME_SEC, 3600 - k, a);
  }

  lemma ShortQuotient(s: nat, d: nat, k: nat, avg: nat)
    requires d > 0 && d + k == 3600 && s * k >= 60 * d && avg == s / 60
    ensures s * 60 / d >= avg + 1
  {
    assert avg * 60 <= s;
    MulMono(avg * 60, s, d, d);
    Assoc(avg, 60, d);
    assert s * d + s * k == s * 3600;
    assert (avg + 1) * (60 * d) <= s * 3600;
    AtLeast(s * 60, d, avg + 1);
  }

  lemma Quotient(x: nat, d: nat, q: nat)
    requires d > 0 && q == x / d
    ensures q * d <= x
  {
  }

  lemma AtLeast(x: nat, d: nat, q: nat)
    requires d > 0 && q * (60 * d) <= x * 60
    ensures x / d >= q
  {
    var e := x / d;
    assert x < (e + 1) * d;
    Assoc(q, d, 60);
    if e < q { MulMono(e + 1, q, d, d); }
  }

  // ... and one as much too long lowers it, down to the minimum.
  lemma DmaLong(diffSum: nat, delta: nat, k: nat)
    requires 1 <= k <= 3600 && delta >= BLOCK_TIME_WINDOW + 3 * k && diffSum * k >= 60 * (3600 + k)
    ensures DmaDifficulty(diffSum, delta) == MIN_DMA_DIFFICULTY || DmaDifficulty(diffSum, delta) < diffSum / DMA_WINDOW
  {
    LowerClampUnreachable(delta);
    var a, avg := AdjustedSpan(delta), diffSum / DMA_WINDOW;
    LongQuotient(diffSum, 3600 + k, k, avg);
    DivMono(diffSum * BLOCK_TIME_SEC, diffSum * BLOCK_TIME_SEC, a, 3600 + k);
  }

  lemma LongQuotient(s: nat, d: nat, k: nat, avg: nat)
    requires d == 3600 + k && s * k >= 60 * d && avg == s / 60
    ensures s * 60 / d < avg
  {
    var q := s * 60 / d;
    Quotient(s * 60, d, q);
    var sd, ad := s * d, avg * d;
    assert sd >= 3600 * s + 60 * d by { Distribute(3600, k, s); }
    assert sd <= 60 * ad + 59 * d by {
      MulMono(s, 60 * avg + 59, d, d);
      Distribute(60 * avg, 59, d);
      Assoc(60, avg, d);
    }
    if q >= avg { MulMono(avg, q, d, d); }
  }

  // ----- secondary scaling -----

  function SecondaryRatio(height: nat): nat {
    var p := height / (2 * YEAR_HEIGHT / 90);
    if p >= 90 then 0 else 90 - p
  }

  // The ratio falls by one every 11648 blocks, from 90 at genesis to zero after two years.
  lemma RatioIsZeroAfterTwoYears(height: nat)
    ensures SecondaryRatio(height) == 0 <==> height >= 2 * YEAR_HEIGHT
    ensures SecondaryRatio(height) <= 90
    ensures height < 2 * YEAR_HEIGHT ==>
              11648 * (90 - SecondaryRatio(height)) <= height < 11648 * (91 - SecondaryRatio(height))
  {
  }

  function SecondaryCount(data: seq<Info>): nat {
    if data == [] then 0
    else SecondaryCount(data[..|data| - 1]) + (if data[|data| - 1].isSecondary then 1 else 0)
  }

  function SecondaryAt(data: seq<Info>): set<nat> {
    set i: nat | i < |data| && data[i].isSecondary
  }

  // What is counted are the secondary blocks of the window.
  lemma {:induction false} SecondaryCountIs(data: seq<Info>)
    ensures SecondaryCount(data) == |SecondaryAt(data)|
  {
    if data != [] {
      var init, n := data[..|data| - 1], |data| - 1;
      SecondaryCountIs(init);
      assert SecondaryAt(data) == SecondaryAt(init) + (if data[n].isSecondary then {n} else {});
    }
  }

  // The scalings of two windows in a row add up, and one block counts its own.
  lemma {:induction false} ScaleSumIs(a: seq<Info>, b: seq<Info>, x: Info)
    ensures ScaleSum(a + b) == ScaleSum(a) + ScaleSum(b) && ScaleSum([x]) == x.scaling
  {
    assert [x][..0] == [];
    if b == [] {
      assert a + b == a;
    } else {
      ScaleSumIs(a, b[..|b| - 1], x);
      assert (a + b)[..|a + b| - 1] == a + b[..|b| - 1];
    }
  }

  function ScaleSum(data: seq<Info>): nat {
    if data == [] then 0 else ScaleSum(data[..|data| - 1]) + data[|data| - 1].scaling
  }

  function AdjustedCount(count: nat, pct: nat): nat {
    var target := DMA_WINDOW * pct;
    Clamp(Damp(100 * count, target, AR_SCALE_DAMP_FACTOR), target, CLAMP_FACTOR)
  }

  // The scale before it is cut to 32 bits.
  function Scale(scaleSum: nat, count: nat, pct: nat): nat {
    MulNat(scaleSum, pct);
    Max(MIN_AR_SCALE, Div(scaleSum * pct, Max(1, AdjustedCount(count, pct))))
  }

  function SecondaryScaling(height: nat, data: seq<Info>): nat {
    Scale(ScaleSum(data), SecondaryCount(data), SecondaryRatio(height)) % 0x1_0000_0000
  }

  // A thirteenth of the way from the wanted share to the count, at most twice the share.
  lemma CountBounds(count: nat, pct: nat)
    requires pct > 0
    ensures 55 * pct <= AdjustedCount(count, pct) <= 120 * pct
    ensures 100 * count < 840 * pct ==>
              13 * AdjustedCount(count, pct) <= 100 * count + 720 * pct < 13 * AdjustedCount(count, pct) + 13
    ensures 100 * count >= 840 * pct ==> AdjustedCount(count, pct) == 120 * pct
  {
  }

  // While some secondary blocks are wanted, the scale is between half and 12/11 of the window's
  // average, up to rounding and the minimum.
  lemma ScaleBounds(scaleSum: nat, count: nat, pct: nat)
    requires pct > 0
    ensures var r := Scale(scaleSum, count, pct);
      && r >= scaleSum / (2 * DMA_WINDOW)
      && (r == MIN_AR_SCALE || 11 * DMA_WINDOW * r <= 12 * scaleSum)
  {
    CountBounds(count, pct);
    var adj := AdjustedCount(count, pct);
    assert adj >= 1;
    DivMono(scaleSum * pct, scaleSum * pct, 120 * pct, adj);
    DivMono(scaleSum * pct, scaleSum * pct, adj, 55 * pct);
    CancelFactor(scaleSum, 120, pct);
    CancelFactor(scaleSum, 55, pct);
  }

  // More secondary blocks in the window never give a higher scale.
  lemma ScaleAntitone(scaleSum: nat, count: nat, count': nat, pct: nat)
    requires count <= count'
    ensures Scale(scaleSum, count, pct) >= Scale(scaleSum, count', pct)
  {
    DivMono(100 * count + 12 * (DMA_WINDOW * pct), 100 * count' + 12 * (DMA_WINDOW * pct), 13, 13);
    MulNat(scaleSum, pct);
    DivMono(scaleSum * pct, scaleSum * pct, Max(1, AdjustedCount(count', pct)), Max(1, AdjustedCount(count, pct)));
  }

  // The wanted share of secondary blocks gives the average.
  lemma ScaleOnTarget(scaleSum: nat, count: nat, pct: nat)
    requires pct > 0 && 100 * count == DMA_WINDOW * pct
    ensures Scale(scaleSum, count, pct) == Max(MIN_AR_SCALE, scaleSum / DMA_WINDOW)
  {
    assert AdjustedCount(count, pct) == DMA_WINDOW * pct;
    CancelFactor(scaleSum, DMA_WINDOW, pct);
  }

  lemma CancelFactor(a: nat, b: nat, c: nat)
    requires b > 0 && c > 0
    ensures b * c > 0 && (a * c) / (b * c) == a / b
  {
    var q, r := a / b, a % b;
    MulPos(b, c);
    assert a == q * b + r;
    calc {
      a * c;
      (q * b + r) * c;
      { Distribute(q * b, r, c); }
      (q * b) * c + r * c;
      { Assoc(q, b, c); }
      q * (b * c) + r * c;
    }
    MulLess(r, b, c);
    QuotientIs(a * c, b * c, q, r * c);
  }

  lemma MulPos(b: nat, c: nat)
    requires b > 0 && c > 0
    ensures b * c > 0
  {
  }

  lemma Distribute(a: nat, b: nat, c: nat)
    ensures (a + b) * c == a * c + b * c
  {
  }

  lemma Assoc(a: nat, b: nat, c: nat)
    ensures (a * b) * c == a * (b * c)
  {
  }

  lemma MulLess(r: nat, b: nat, c: nat)
    requires r < b && c > 0
    ensures r * c < b * c
  {
  }

  lemma QuotientIs(x: nat, d: nat, q: nat, r: nat)
    requires d > 0 && x == q * d + r && r < d
    ensures x / d == q
  {
    var q' := x / d;
    assert q' * d <= x < q' * d + d;
    if q < q' { MulMono(q + 1, q', d, d); } else if q' < q { MulMono(q' + 1, q, d, d); }
  }

  // Once no secondary blocks are wanted, the window is ignored.
  lemma ScaleWithoutTarget(scaleSum: nat, count: nat)
    ensures Scale(scaleSum, count, 0) == MIN_AR_SCALE
  {
  }

  // The cut to 32 bits changes nothing unless the scale reaches 2^32.
  lemma ScalingFits(height: nat, data: seq<Info>)
    requires SecondaryRatio(height) > 0 && 12 * ScaleSum(data) < 11 * DMA_WINDOW * 0x1_0000_0000
    ensures SecondaryScaling(height, data) == Scale(ScaleSum(data), SecondaryCount(data), SecondaryRatio(height))
  {
    ScaleFits(ScaleSum(data), SecondaryCount(data), SecondaryRatio(height));
  }

  lemma ScaleFits(scaleSum: nat, count: nat, pct: nat)
    requires pct > 0 && 12 * scaleSum < 11 * DMA_WINDOW * 0x1_0000_0000
    ensures Scale(scaleSum, count, pct) % 0x1_0000_0000 == Scale(scaleSum, count, pct)
  {
    ScaleBounds(scaleSum, count, pct);
    SmallRemainder(Scale(scaleSum, count, pct));
  }

  lemma SmallRemainder(x: nat)
    requires x < 0x1_0000_0000
    ensures x % 0x1_0000_0000 == x
  {
  }

  // ----- weighted target exponential moving average -----

  function Wtema(last: nat, blockTime: nat, min: nat): nat {
    Max(min, Div(last * WTEMA_HALF_LIFE, WTEMA_HALF_LIFE - BLOCK_TIME_SEC + blockTime))
  }

  // A block on time keeps the difficulty, a late one lowers it.
  lemma WtemaOnTime(last: nat, min: nat)
    requires last >= min
    ensures Wtema(last, 60, min) == last
  {
  }

  lemma WtemaLate(last: nat, t: nat, min: nat)
    requires last >= min && t > 60
    ensures Wtema(last, t, min) <= last
    ensures last > min ==> Wtema(last, t, min) < last
  {
    var d := 14340 + t;
    var q := last * 14400 / d;
    assert q * d <= last * 14400;
    if q >= last && last > 0 {
      MulMono(last, q, 14401, d);
      assert false;
    }
  }

  // An early block raises the difficulty exactly if it is large enough for the rounding.
  lemma WtemaEarly(last: nat, t: nat, min: nat)
    requires last >= min && t < 60
    ensures Wtema(last, t, min) >= last
    ensures Wtema(last, t, min) > last <==> last * (60 - t) >= 14340 + t
  {
    EarlyQuotient(last, 14340 + t, 60 - t, Div(last * WTEMA_HALF_LIFE, 14340 + t));
  }

  lemma EarlyQuotient(last: nat, d: nat, gap: nat, q: nat)
    requires d > 0 && d + gap == 14400 && q == Div(last * 14400, d)
    ensures q >= last && (q > last <==> last * gap >= d)
  {
    QuotientBounds(last * 14400, d, q);
    Split(last, d, gap);
    MulNat(last, gap);
    RoundedUp(last, d, q, last * gap);
  }

  lemma QuotientBounds(x: nat, d: nat, q: nat)
    requires d > 0 && q == x / d
    ensures q * d <= x < q * d + d
  {
  }

  lemma Split(last: nat, d: nat, e: nat)
    requires d + e == 14400
    ensures last * d + last * e == last * 14400
  {
  }

  // q is last * d + e divided by d, rounded down.
  lemma RoundedUp(last: nat, d: nat, q: nat, e: nat)
    requires d > 0 && q * d <= last * d + e < q * d + d
    ensures q >= last && (q > last <==> e >= d)
  {
    if q < last {
      Gap(q, last, d);
    } else if q > last {
      Gap(last, q, d);
    }
  }

  lemma Gap(a: nat, b: nat, d: nat)
    requires a < b
    ensures a * d + d <= b * d
  {
    MulMono(a + 1, b, d, d);
    Distribute(a, 1, d);
  }

  // Every block of 59 seconds or less raises the difficulty exactly from 14399 on.
  lemma WtemaRaises(last: nat, min: nat)
    requires last >= min
    ensures (forall t: nat :: t < 60 ==> Wtema(last, t, min) > last) <==> last >= 14399
  {
    WtemaEarly(last, 59, min);
    assert Wtema(last, 59, min) > last <==> last >= 14399;
    if last >= 14399 {
      forall t: nat | t < 60 ensures Wtema(last, t, min) > last {
        WtemaEarly(last, t, min);
        MulMono(14399, last, 60 - t, 60 - t);
      }
    }
  }

  // So always on mainnet, but not at the minimum of the testnet.
  lemma WtemaMainnetRaises(last: nat, t: nat)
    requires last >= MAINNET_MIN_WTEMA && t < 60
    ensures Wtema(last, t, MAINNET_MIN_WTEMA) > last
  {
    WtemaRaises(last, MAINNET_MIN_WTEMA);
  }

  lemma WtemaTestnetStuck()
    ensures Wtema(TESTNET_MIN_WTEMA, 59, TESTNET_MIN_WTEMA) == TESTNET_MIN_WTEMA
  {
  }

  // ----- runs -----

  // The difficulty after blocks with these times.
  function WtemaRun(start: nat, times: seq<nat>, min: nat): nat {
    if times == [] then start else Wtema(WtemaRun(start, times[..|times| - 1], min), times[|times| - 1], min)
  }

  ghost function Spans(times: seq<nat>): nat {
    if times == [] then 1 else Spans(times[..|times| - 1]) * (WTEMA_HALF_LIFE - BLOCK_TIME_SEC + times[|times| - 1])
  }

  ghost function Goals(n: nat): nat {
    if n == 0 then 1 else Goals(n - 1) * WTEMA_HALF_LIFE
  }

  // The minimum did not come into play.
  ghost predicate Unclamped(start: nat, times: seq<nat>, min: nat) {
    times == [] ||
    (&& Unclamped(start, times[..|times| - 1], min)
     && WtemaRun(start, times, min) ==
        WtemaRun(start, times[..|times| - 1], min) * WTEMA_HALF_LIFE
        / (WTEMA_HALF_LIFE - BLOCK_TIME_SEC + times[|times| - 1]))
  }

  // Over any run the difficulty stays below what the elapsed times justify.
  lemma {:induction false} WtemaRunBound(start: nat, times: seq<nat>, min: nat)
    requires Unclamped(start, times, min)
    ensures WtemaRun(start, times, min) * Spans(times) <= start * Goals(|times|)
  {
    if times != [] {
      var init, t := times[..|times| - 1], times[|times| - 1];
      WtemaRunBound(start, init, min);
      var d, d' := WtemaRun(start, init, min), WtemaRun(start, times, min);
      RunStep(d', 14340 + t, Spans(init), d, start, Goals(|init|));
    }
  }

  lemma RunStep(d': nat, s: nat, spans: nat, d: nat, start: nat, goals: nat)
    requires s > 0 && d' == d * 14400 / s && d * spans <= start * goals
    ensures d' * (spans * s) <= start * (goals * 14400)
  {
    assert d' * s <= d * 14400;
    MulMono(d' * s, d * 14400, spans, spans);
    Assoc(d', s, spans);
    assert spans * s == s * spans;
    MulMono(d * spans, start * goals, 14400, 14400);
    Assoc(start, goals, 14400);
    assert (d * 14400) * spans == (d * spans) * 14400;
  }
}
