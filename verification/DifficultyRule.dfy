/**
 The rule that a header's work exceeds its parent's by exactly the next difficulty, and what it
 means for every path of accepted headers.

 `from` is the first height of the weighted target, `min` its minimum.
 */
module DifficultyRule {
  import opened Collections
  import opened HeaderTree
  import opened HeaderPipe
  import opened Difficulty
  import opened DifficultyHistory

  // ----- the rule -----

  // The difficulty of a header: its work less that of its parent.
  ghost function Gain(m: Headers, g: Hash, h: Header): nat
    requires Accepted(m, g) && h.prevHash in m && h.work > m[h.prevHash].work
  {
    h.work - m[h.prevHash].work
  }

  // The same for a stored header.
  ghost function GainOf(m: Headers, g: Hash, k: Hash): nat
    requires Accepted(m, g) && k in m && k != g
  {
    assert m[k].prevHash in m;
    Gain(m, g, m[k])
  }

  // The time header k took.
  ghost function Took(m: Headers, g: Hash, k: Hash): nat
    requires Accepted(m, g) && k in m && k != g
  {
    assert m[k].prevHash in m;
    m[k].timestamp - m[m[k].prevHash].timestamp
  }

  // Difficulty and scaling are those computed from the headers before.
  ghost predicate Meets(m: Headers, g: Hash, h: Header, from: nat, min: nat) {
    && Accepted(m, g) && h.prevHash in m && h.work > m[h.prevHash].work
    && if h.height < from then DmaTarget(m, g, h) else WtemaTarget(m, g, h, min)
  }

  ghost predicate WtemaTarget(m: Headers, g: Hash, h: Header, min: nat)
    requires Accepted(m, g) && h.prevHash in m && h.work > m[h.prevHash].work
  {
    var k := h.prevHash;
    k != g && Gain(m, g, h) == Wtema(GainOf(m, g, k), Took(m, g, k), min)
  }

  ghost predicate DmaTarget(m: Headers, g: Hash, h: Header)
    requires Accepted(m, g) && h.prevHash in m && h.work > m[h.prevHash].work
  {
    var c := Ancestry(m, g, h.prevHash);
    Linked(m, g, c) && IsDma(m, g, c, h.height, Gain(m, g, h), h.scaling)
  }

  // ----- the rule depends on the headers before only -----

  lemma {:induction false} AncestryWithin(m: Headers, m': Headers, g: Hash, k: Hash)
    requires Accepted(m, g) && Accepted(m', g) && Within(m, m') && k in m
    ensures k in m' && Ancestry(m', g, k) == Ancestry(m, g, k)
    decreases m[k].height
  {
    if k != g { AncestryWithin(m, m', g, m[k].prevHash); }
  }

  lemma InfosWithin(m: Headers, m': Headers, g: Hash, c: seq<Hash>)
    requires Accepted(m, g) && Accepted(m', g) && Within(m, m') && Linked(m, g, c)
    ensures Linked(m', g, c) && Infos(m', g, c) == Infos(m, g, c)
  {
    forall i | 0 <= i < |c| ensures c[i] in m' && InfoOf(m', g, c[i]) == InfoOf(m, g, c[i]) {
      InfoWithin(m, m', g, c[i]);
    }
    LinkedWithin(m, m', g, c);
  }

  lemma LinkedWithin(m: Headers, m': Headers, g: Hash, c: seq<Hash>)
    requires Within(m, m') && Linked(m, g, c)
    ensures Linked(m', g, c)
  {
    forall i | 0 <= i < |c| - 1 ensures c[i] != g && c[i + 1] == m'[c[i]].prevHash {
      assert m[c[i]].prevHash == c[i + 1];
    }
  }

  lemma InfoWithin(m: Headers, m': Headers, g: Hash, k: Hash)
    requires Accepted(m, g) && Accepted(m', g) && Within(m, m') && k in m
    ensures k in m' && InfoOf(m', g, k) == InfoOf(m, g, k)
  {
    if k != g { assert m[k].prevHash in m; }
  }

  lemma DmaWithin(m: Headers, m': Headers, g: Hash, c: seq<Hash>, height: nat, difficulty: nat, scaling: nat)
    requires Accepted(m, g) && Accepted(m', g) && Within(m, m') && Linked(m, g, c)
    ensures Linked(m', g, c)
    ensures IsDma(m', g, c, height, difficulty, scaling) <==> IsDma(m, g, c, height, difficulty, scaling)
  {
    InfosWithin(m, m', g, c);
    WorkWithin(m, m', g, c);
  }

  lemma WorkWithin(m: Headers, m': Headers, g: Hash, c: seq<Hash>)
    requires Accepted(m, g) && Accepted(m', g) && Within(m, m') && Linked(m, g, c) && Linked(m', g, c)
    ensures WindowWork(m', g, c) == WindowWork(m, g, c)
  {
    InfoWithin(m, m', g, c[0]);
  }

  lemma MeetsWithin(m: Headers, m': Headers, g: Hash, h: Header, from: nat, min: nat)
    requires Accepted(m, g) && Accepted(m', g) && Within(m, m') && h.prevHash in m
    ensures Meets(m', g, h, from, min) <==> Meets(m, g, h, from, min)
  {
    var k := h.prevHash;
    if h.work > m[k].work {
      if h.height < from {
        TargetWithin(m, m', g, h);
      } else if k != g {
        assert m[k].prevHash in m;
      }
    }
  }

  lemma TargetWithin(m: Headers, m': Headers, g: Hash, h: Header)
    requires Accepted(m, g) && Accepted(m', g) && Within(m, m') && h.prevHash in m && h.work > m[h.prevHash].work
    ensures DmaTarget(m', g, h) <==> DmaTarget(m, g, h)
  {
    var k := h.prevHash;
    var c, d := Ancestry(m, g, k), Gain(m, g, h);
    assert Ancestry(m', g, k) == c && Linked(m, g, c) by {
      AncestryWithin(m, m', g, k);
      AncestryLinked(m, g, k);
    }
    DmaWithin(m, m', g, c, h.height, d, h.scaling);
    assert Gain(m', g, h) == d;
  }

  // The pipeline is given this rule.
  ghost predicate IsRule(rules: Rules, g: Hash, from: nat, min: nat) {
    forall m, h {:trigger rules.target(m, h)} :: rules.target(m, h) <==> Meets(m, g, h, from, min)
  }

  lemma RuleIsLocal(rules: Rules, g: Hash, from: nat, min: nat)
    requires IsRule(rules, g, from, min)
    ensures LocalTarget(rules, g)
  {
    forall m, m', h: Header | WellFormed(m, g) && WellFormed(m', g) && Climbs(m, g) && Climbs(m', g) && Within(m, m')
                              && h.prevHash in m
      ensures rules.target(m, h) <==> rules.target(m', h)
    {
      MeetsWithin(m, m', g, h, from, min);
    }
  }

  // All headers but genesis meet the rule.
  ghost predicate OnRule(m: Headers, g: Hash, from: nat, min: nat) {
    Accepted(m, g) && forall k {:trigger MeetsAt(m, g, k, from, min)} :: k in m && k != g ==>
      MeetsAt(m, g, k, from, min)
  }

  ghost predicate MeetsAt(m: Headers, g: Hash, k: Hash, from: nat, min: nat)
    requires k in m
  {
    Meets(m, g, m[k], from, min)
  }

  lemma RisesOnRule(rules: Rules, m: Headers, g: Hash, from: nat, min: nat)
    requires WellFormed(m, g) && Rises(rules, m, g) && IsRule(rules, g, from, min)
    ensures OnRule(m, g, from, min)
  {
    forall k | k in m && k != g ensures MeetsAt(m, g, k, from, min) {
      assert OnTargetAt(rules, m, k);
    }
  }

  // ----- bounds -----

  // Before the weighted target: the difficulty of a header is between half and one and a half
  // times the average of its window, up to rounding and the minimum.  Once there are headers
  // enough the window is the 60 headers before.
  lemma DmaOnPath(m: Headers, g: Hash, k: Hash, from: nat, min: nat)
    requires OnRule(m, g, from, min) && k in m && k != g && m[k].height < from
    ensures MeetsAt(m, g, k, from, min)
    ensures var d, c := Gain(m, g, m[k]), Ancestry(m, g, m[k].prevHash);
      && Linked(m, g, c)
      && var w := WindowWork(m, g, c);
      && 2 * DMA_WINDOW * (d + 1) > w && (d == MIN_DMA_DIFFICULTY || 2 * DMA_WINDOW * d <= 3 * w)
      && (m[k].height > DMA_WINDOW ==> |c| > DMA_WINDOW && w == m[c[0]].work - m[c[DMA_WINDOW]].work)
  {
    assert MeetsAt(m, g, k, from, min);
    var c := Ancestry(m, g, m[k].prevHash);
    AncestryLength(m, g, m[k].prevHash);
    WithinBounds(WindowOf(m, g, c), WindowWork(m, g, c), m[k].height, Gain(m, g, m[k]), m[k].scaling);
  }

  lemma WithinBounds(data: seq<Info>, w: nat, height: nat, d: nat, scaling: nat)
    requires |data| == WINDOW && DmaOf(data, w, height, d, scaling)
    ensures 2 * DMA_WINDOW * (d + 1) > w && (d == MIN_DMA_DIFFICULTY || 2 * DMA_WINDOW * d <= 3 * w)
  {
    DmaBounds(w, data[DMA_WINDOW].timestamp - data[0].timestamp);
  }

  lemma {:induction false} AncestryLength(m: Headers, g: Hash, k: Hash)
    requires Accepted(m, g) && k in m
    ensures |Ancestry(m, g, k)| == m[k].height + 1
    decreases m[k].height
  {
    if k != g { AncestryLength(m, g, m[k].prevHash); }
  }

  // The n-th header before k.
  ghost function Back(m: Headers, g: Hash, k: Hash, n: nat): Hash
    requires Accepted(m, g) && k in m && n <= m[k].height
    ensures Back(m, g, k, n) in m && m[Back(m, g, k, n)].height == m[k].height - n
    decreases n
  {
    if n == 0 then k else Back(m, g, m[k].prevHash, n - 1)
  }

  // The times taken by the n headers before k, oldest first.
  ghost function TimesBefore(m: Headers, g: Hash, k: Hash, n: nat): (times: seq<nat>)
    requires Accepted(m, g) && k in m && n < m[k].height
    ensures |times| == n
    decreases n
  {
    if n == 0 then [] else
      var prev := m[k].prevHash;
      TimesBefore(m, g, prev, n - 1) + [Took(m, g, prev)]
  }

  // From then on: the difficulties along a path are a run of the weighted target over the times
  // its headers took ...
  lemma {:induction false} PathIsRun(m: Headers, g: Hash, k: Hash, from: nat, min: nat, n: nat)
    requires OnRule(m, g, from, min) && k in m && n < m[k].height && (n > 0 ==> from <= m[k].height - n + 1)
    ensures Back(m, g, k, n) != g
    ensures GainOf(m, g, k) == WtemaRun(GainOf(m, g, Back(m, g, k, n)), TimesBefore(m, g, k, n), min)
    decreases n
  {
    if n > 0 {
      var prev := m[k].prevHash;
      assert MeetsAt(m, g, k, from, min);
      PathIsRun(m, g, prev, from, min, n - 1);
      var times := TimesBefore(m, g, k, n);
      assert times[..n - 1] == TimesBefore(m, g, prev, n - 1);
    }
  }

  // ... so while the minimum does not come into play the difficulty stays below what the times
  // justify.
  lemma WtemaOnPath(m: Headers, g: Hash, k: Hash, from: nat, min: nat, n: nat)
    requires OnRule(m, g, from, min) && k in m && n < m[k].height && (n > 0 ==> from <= m[k].height - n + 1)
    requires Back(m, g, k, n) != g && Unclamped(GainOf(m, g, Back(m, g, k, n)), TimesBefore(m, g, k, n), min)
    ensures GainOf(m, g, k) * Spans(TimesBefore(m, g, k, n)) <= GainOf(m, g, Back(m, g, k, n)) * Goals(n)
  {
    PathIsRun(m, g, k, from, min, n);
    WtemaRunBound(GainOf(m, g, Back(m, g, k, n)), TimesBefore(m, g, k, n), min);
  }

  // Every header adds at least the minimum.
  lemma {:induction false} WorkGrows(m: Headers, g: Hash, k: Hash, from: nat, min: nat)
    requires OnRule(m, g, from, min) && k in m && min >= MIN_DMA_DIFFICULTY
    ensures m[k].work >= m[g].work + MIN_DMA_DIFFICULTY * m[k].height
    decreases m[k].height
  {
    if k != g {
      assert MeetsAt(m, g, k, from, min);
      WorkGrows(m, g, m[k].prevHash, from, min);
    }
  }
}
