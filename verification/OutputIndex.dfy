/**
 The index from commitments to output positions, kept beside the output MMR when blocks are applied
 and rewound.

 An entry may be stale: a look-up also reads the MMR.  An output commitment may be used again once
 it is spent, so rewinding must bring back the older position.
 */
module OutputIndex {
  import opened Collections
  import opened Conservation

  type Positions<C> = map<C, nat>

  // The index leads to every unspent output.
  ghost predicate Leads<C>(leaves: seq<C>, live: set<nat>, index: Positions<C>) {
    forall i :: i in live ==> i < |leaves| && leaves[i] in index && index[leaves[i]] == i
  }

  // No commitment is unspent twice.
  ghost predicate Distinct<C>(leaves: seq<C>, live: set<nat>) {
    forall i, j :: i in live && j in live && i < |leaves| && j < |leaves| && leaves[i] == leaves[j] ==> i == j
  }

  // An index that leads to all unspent outputs shows that they differ.
  lemma LeadsDistinct<C>(leaves: seq<C>, live: set<nat>, index: Positions<C>)
    requires Leads(leaves, live, index)
    ensures Distinct(leaves, live)
  {
  }

  // The output at a position, unless it is spent.
  function GetData<C>(leaves: seq<C>, live: set<nat>, pos: nat): Option<C> {
    if pos < |leaves| && pos in live then Some(leaves[pos]) else None
  }

  function LookUp<C(==)>(leaves: seq<C>, live: set<nat>, index: Positions<C>, c: C): Option<nat> {
    if c in index && GetData(leaves, live, index[c]) == Some(c) then Some(index[c]) else None
  }

  // The look-up finds what a search of the whole MMR would find.
  lemma LookUpIs<C>(leaves: seq<C>, live: set<nat>, index: Positions<C>, c: C)
    requires Leads(leaves, live, index)
    ensures LookUp(leaves, live, index, c) == FindLive(leaves, live, c, |leaves|)
  {
  }

  // ----- applying a block -----

  lemma PushLeads<C>(leaves: seq<C>, live: set<nat>, index: Positions<C>, c: C)
    requires Leads(leaves, live, index) && FindLive(leaves, live, c, |leaves|).None?
    ensures Leads(leaves + [c], live + {|leaves|}, index[c := |leaves|])
  {
  }

  // Pushes the outputs and lists their positions; refuses one that is unspent already.
  method ApplyOutputs<C(==)>(leaves: seq<C>, live: set<nat>, index: Positions<C>, outputs: seq<C>)
    returns (ok: bool, leaves': seq<C>, live': set<nat>, index': Positions<C>)
    requires Leads(leaves, live, index)
    ensures PushOutputs(leaves, live, outputs) == if ok then Some((leaves', live')) else None
    ensures ok ==> Leads(leaves', live', index')
  {
    leaves', live', index' := leaves, live, index;
    for k := 0 to |outputs|
      invariant Leads(leaves', live', index')
      invariant PushOutputs(leaves, live, outputs[..k]) == Some((leaves', live'))
    {
      var c := outputs[k];
      LookUpIs(leaves', live', index', c);
      assert outputs[..k + 1][..k] == outputs[..k];
      if LookUp(leaves', live', index', c).Some? {
        RefusedEarly(leaves, live, outputs, k + 1);
        return false, leaves', live', index';
      }
      PushLeads(leaves', live', index', c);
      leaves', live', index' := leaves' + [c], live' + {|leaves'|}, index'[c := |leaves'|];
    }
    assert outputs[..|outputs|] == outputs;
    ok := true;
  }

  // Outputs of which some are refused are refused.
  lemma {:induction false} RefusedEarly<C>(leaves: seq<C>, live: set<nat>, outputs: seq<C>, k: nat)
    requires k <= |outputs| && PushOutputs(leaves, live, outputs[..k]).None?
    ensures PushOutputs(leaves, live, outputs).None?
  {
    if k == |outputs| {
      assert outputs[..k] == outputs;
    } else {
      assert outputs[..|outputs| - 1][..k] == outputs[..k];
      RefusedEarly(leaves, live, outputs[..|outputs| - 1], k);
    }
  }

  lemma {:induction false} SpentEarly<C>(leaves: seq<C>, live: set<nat>, inputs: seq<C>, k: nat)
    requires k <= |inputs| && Spend(leaves, live, inputs[..k]).None?
    ensures Spend(leaves, live, inputs).None?
  {
    if k == |inputs| {
      assert inputs[..k] == inputs;
    } else {
      assert inputs[..|inputs| - 1][..k] == inputs[..k];
      SpentEarly(leaves, live, inputs[..|inputs| - 1], k);
    }
  }

  // All inputs are found unspent.
  ghost predicate AllFound<C>(leaves: seq<C>, live: set<nat>, inputs: seq<C>) {
    forall i :: 0 <= i < |inputs| ==> FindLive(leaves, live, inputs[i], |leaves|).Some?
  }

  // The positions hold the inputs.
  ghost predicate Hold<C>(leaves: seq<C>, inputs: seq<C>, positions: seq<nat>) {
    && |positions| == |inputs|
    && forall i :: 0 <= i < |inputs| ==> positions[i] < |leaves| && leaves[positions[i]] == inputs[i]
  }

  // Looks up all inputs before any is spent.
  method ValidateInputs<C(==)>(leaves: seq<C>, live: set<nat>, index: Positions<C>, inputs: seq<C>)
    returns (r: Option<seq<nat>>)
    requires Leads(leaves, live, index)
    ensures r.Some? <==> AllFound(leaves, live, inputs)
    ensures r.Some? ==> Hold(leaves, inputs, r.value) && forall i :: 0 <= i < |inputs| ==> r.value[i] in live
  {
    var positions := [];
    for k := 0 to |inputs|
      invariant |positions| == k && AllFound(leaves, live, inputs[..k])
      invariant forall i :: 0 <= i < k ==>
        positions[i] in live && positions[i] < |leaves| && leaves[positions[i]] == inputs[i]
    {
      LookUpIs(leaves, live, index, inputs[k]);
      match LookUp(leaves, live, index, inputs[k]) {
        case None => return None;
        case Some(i) => positions := positions + [i];
      }
    }
    assert inputs[..|inputs|] == inputs;
    return Some(positions);
  }

  // Spending one after the other needs every input to be found at first.
  lemma {:induction false} SpendFinds<C>(leaves: seq<C>, live: set<nat>, inputs: seq<C>)
    requires Spend(leaves, live, inputs).Some?
    ensures AllFound(leaves, live, inputs)
  {
    if inputs != [] {
      var init, c := inputs[..|inputs| - 1], inputs[|inputs| - 1];
      SpendFinds(leaves, live, init);
      SpendIs(leaves, live, init);
      FindMore(leaves, Spend(leaves, live, init).value, live, c);
      forall i | 0 <= i < |inputs| ensures FindLive(leaves, live, inputs[i], |leaves|).Some? {
        if i < |init| { assert inputs[i] == init[i]; }
      }
    }
  }

  lemma FindMore<C>(leaves: seq<C>, live: set<nat>, live': set<nat>, c: C)
    requires live <= live' && FindLive(leaves, live, c, |leaves|).Some?
    ensures FindLive(leaves, live', c, |leaves|).Some?
  {
  }

  lemma SpendLeads<C>(leaves: seq<C>, live: set<nat>, index: Positions<C>, i: nat)
    requires Leads(leaves, live, index) && i in live
    ensures Leads(leaves, live - {i}, index - {leaves[i]})
  {
  }

  lemma FindIs<C>(leaves: seq<C>, live: set<nat>, index: Positions<C>, live': set<nat>, i: nat)
    requires Leads(leaves, live, index) && live' <= live && i in live
    ensures FindLive(leaves, live', leaves[i], |leaves|) == if i in live' then Some(i) else None
  {
  }

  // Removes the outputs at the positions found; refuses one that is gone already, which is an
  // input given twice.
  method ApplyInputs<C(==)>(leaves: seq<C>, live: set<nat>, index: Positions<C>, inputs: seq<C>, positions: seq<nat>)
    returns (ok: bool, live': set<nat>, index': Positions<C>)
    requires Leads(leaves, live, index) && Hold(leaves, inputs, positions)
    requires forall i :: 0 <= i < |inputs| ==> positions[i] in live
    ensures Spend(leaves, live, inputs) == if ok then Some(live') else None
    ensures ok ==> Leads(leaves, live', index')
    ensures ok ==> live' == live - (set p | p in positions)
  {
    live', index' := live, index;
    for k := 0 to |inputs|
      invariant live' <= live && Leads(leaves, live', index')
      invariant Spend(leaves, live, inputs[..k]) == Some(live')
      invariant live' == live - (set p | p in positions[..k])
    {
      var i := positions[k];
      FindIs(leaves, live, index, live', i);
      assert inputs[..k + 1][..k] == inputs[..k];
      if i !in live' {
        SpentEarly(leaves, live, inputs, k + 1);
        return false, live', index';
      }
      SpendLeads(leaves, live', index', i);
      assert positions[..k + 1] == positions[..k] + [i];
      live', index' := live' - {i}, index' - {inputs[k]};
    }
    assert positions[..|positions|] == positions && inputs[..|inputs|] == inputs;
    ok := true;
  }

  // Applying a block with the index beside the MMRs does what applying it without does, and the
  // index leads to the unspent outputs again.
  method ApplyIndexed<C(==)>(t: State<C>, index: Positions<C>, b: Body<C>)
    returns (ok: bool, t': Trees<C>, index': Positions<C>, spent: seq<nat>)
    requires Leads(t.leaves, t.live, index)
    ensures Apply(t, b) == if ok then Some(t') else None
    ensures ok ==> Leads(t'.leaves, t'.live, index') && SpentBy(t', spent)
  {
    t', spent := t, [];
    var leaves, live, live2, positions;
    ok, leaves, live, index' := ApplyOutputs(t.leaves, t.live, index, b.outputs);
    if !ok { return; }
    positions := ValidateInputs(leaves, live, index', b.inputs);
    if positions.None? {
      if Spend(leaves, live, b.inputs).Some? { SpendFinds(leaves, live, b.inputs); }
      return false, t', index', spent;
    }
    spent := positions.value;
    ok, live2, index' := ApplyInputs(leaves, live, index', b.inputs, spent);
    if !ok { return; }
    assert live - live2 == set p | p in spent;
    t' := Trees(leaves, live2, t.kernels + b.kernels, t.marks + [Mark(|t.leaves|, live - live2, |t.kernels|)]);
  }

  // The positions are those the last block spent.
  ghost predicate SpentBy<C>(t: Trees<C>, spent: seq<nat>) {
    t.marks != [] && t.marks[|t.marks| - 1].spent == set p | p in spent
  }

  // ----- rewinding a block -----

  // What must hold of the index before it is brought back: it leads to what was not spent.
  ghost predicate LeadsBut<C>(leaves: seq<C>, live: set<nat>, index: Positions<C>, spent: seq<nat>) {
    forall i :: i in live && i !in spent ==> i < |leaves| && leaves[i] in index && index[leaves[i]] == i
  }

  // Drops the entries of the outputs.
  method DropOutputs<C(==)>(index: Positions<C>, outputs: seq<C>) returns (index': Positions<C>)
    ensures index' == map c | c in index && c !in outputs :: index[c]
  {
    index' := index;
    for k := 0 to |outputs|
      invariant index' == map c | c in index && c !in outputs[..k] :: index[c]
    {
      assert outputs[..k + 1] == outputs[..k] + [outputs[k]];
      index' := index' - {outputs[k]};
    }
    assert outputs[..|outputs|] == outputs;
  }

  // Lists the spent positions again.
  method Unspend<C(==)>(leaves: seq<C>, live: set<nat>, index: Positions<C>, spent: seq<nat>)
    returns (index': Positions<C>)
    requires Distinct(leaves, live) && LeadsBut(leaves, live, index, spent)
    requires forall i :: i in live ==> i < |leaves|
    ensures Leads(leaves, live, index')
  {
    index' := index;
    for k := 0 to |spent|
      invariant LeadsBut(leaves, live, index', spent[k..])
    {
      var pos := spent[k];
      assert spent[k..] == [pos] + spent[k + 1..];
      match GetData(leaves, live, pos) {
        case None =>
        case Some(c) => index' := index'[c := pos];
      }
    }
  }

  // The commitment of an unspent output is not among the outputs of the next block.
  lemma {:induction false} PushedAreNew<C>(leaves: seq<C>, live: set<nat>, outputs: seq<C>, i: nat)
    requires PushOutputs(leaves, live, outputs).Some? && i in live && i < |leaves|
    ensures leaves[i] !in outputs
  {
    if outputs != [] {
      var init := outputs[..|outputs| - 1];
      PushedAreNew(leaves, live, init, i);
      PushOutputsIs(leaves, live, init);
      assert (leaves + init)[i] == leaves[i];
    }
  }

  // Rewinding a block brings back the state before it, with an index that leads to its unspent
  // outputs, also where the block used a spent commitment again.
  method UndoIndexed<C(==)>(t': Trees<C>, index': Positions<C>, b: Body<C>, spent: seq<nat>, ghost t: State<C>)
    returns (back: Trees<C>, index: Positions<C>)
    requires Apply(t, b) == Some(t') && Leads(t'.leaves, t'.live, index') && SpentBy(t', spent)
    requires Distinct(t.leaves, t.live)
    ensures back == t && Leads(t.leaves, t.live, index)
  {
    UndoOfApply(t, b);
    back := Undo(t');
    index := DropOutputs(index', b.outputs);
    StillLeads(t, t', index', b, spent, index);
    index := Unspend(back.leaves, back.live, index, spent);
  }

  lemma StillLeads<C>(t: State<C>, t': Trees<C>, index': Positions<C>, b: Body<C>, spent: seq<nat>, index: Positions<C>)
    requires Apply(t, b) == Some(t') && Leads(t'.leaves, t'.live, index') && SpentBy(t', spent)
    requires index == map c | c in index' && c !in b.outputs :: index'[c]
    ensures LeadsBut(t.leaves, t.live, index, spent)
  {
    PushOutputsIs(t.leaves, t.live, b.outputs);
    var x := PushOutputs(t.leaves, t.live, b.outputs).value;
    SpendIs(x.0, x.1, b.inputs);
    assert (set p | p in spent) == x.1 - t'.live;
    forall i | i in t.live && i !in spent
      ensures t.leaves[i] in index && index[t.leaves[i]] == i
    {
      assert i in x.1 && i !in x.1 - t'.live;
      assert t'.leaves[i] == t.leaves[i];
      PushedAreNew(t.leaves, t.live, b.outputs, i);
    }
  }

  // ----- any number of blocks -----

  // A block that was applied, with the positions it spent.
  datatype Applied<C> = Applied(body: Body<C>, spent: seq<nat>)

  // The state after blocks are applied one after the other.
  ghost function StateAfter<C>(origin: State<C>, blocks: seq<Applied<C>>): Option<State<C>> {
    if blocks == [] then Some(origin)
    else match StateAfter(origin, blocks[..|blocks| - 1])
      case None => None
      case Some(t) => ApplyState(t, blocks[|blocks| - 1].body)
  }

  // The positions kept for every block are those it spent.
  ghost predicate Recorded<C>(origin: State<C>, blocks: seq<Applied<C>>) {
    blocks == [] ||
    (&& Recorded(origin, blocks[..|blocks| - 1])
     && StateAfter(origin, blocks).Some?
     && SpentBy(StateAfter(origin, blocks).value, blocks[|blocks| - 1].spent))
  }

  lemma {:induction false} PushDistinct<C>(leaves: seq<C>, live: set<nat>, outputs: seq<C>)
    requires Distinct(leaves, live) && PushOutputs(leaves, live, outputs).Some?
    requires forall i :: i in live ==> i < |leaves|
    ensures var x := PushOutputs(leaves, live, outputs).value;
      Distinct(x.0, x.1) && forall i :: i in x.1 ==> i < |x.0|
  {
    if outputs != [] {
      PushDistinct(leaves, live, outputs[..|outputs| - 1]);
    }
  }

  lemma ApplyDistinct<C>(t: State<C>, b: Body<C>)
    requires Distinct(t.leaves, t.live) && Apply(t, b).Some?
    ensures Distinct(Apply(t, b).value.leaves, Apply(t, b).value.live)
  {
    PushDistinct(t.leaves, t.live, b.outputs);
    var x := PushOutputs(t.leaves, t.live, b.outputs).value;
    SpendIs(x.0, x.1, b.inputs);
  }

  lemma {:induction false} DistinctAfter<C>(origin: State<C>, blocks: seq<Applied<C>>)
    requires Distinct(origin.leaves, origin.live) && StateAfter(origin, blocks).Some?
    ensures Distinct(StateAfter(origin, blocks).value.leaves, StateAfter(origin, blocks).value.live)
  {
    if blocks != [] {
      var init := blocks[..|blocks| - 1];
      DistinctAfter(origin, init);
      ApplyDistinct(StateAfter(origin, init).value, blocks[|blocks| - 1].body);
    }
  }

  // The outputs and kernels with the position index beside them, and the blocks applied so far.
  class Extension<C(==)> {
    ghost const origin: State<C>
    var trees: Trees<C>
    var index: Positions<C>
    var blocks: seq<Applied<C>>

    // The trees are what the blocks make of the origin, and the index leads to every unspent output.
    ghost predicate Valid()
      reads this
    {
      && Distinct(origin.leaves, origin.live)
      && Sane(trees) && StateAfter(origin, blocks) == Some(trees) && Recorded(origin, blocks)
      && Leads(trees.leaves, trees.live, index)
    }

    constructor (origin: State<C>, index: Positions<C>)
      requires Leads(origin.leaves, origin.live, index)
      ensures Valid() && blocks == [] && trees == origin
    {
      this.origin, trees, this.index, blocks := origin, origin, index, [];
      LeadsDistinct(origin.leaves, origin.live, index);
    }

    // Applies a block, or refuses it and changes nothing.
    method ApplyBlock(b: Body<C>) returns (ok: bool)
      requires Valid()
      modifies this
      ensures Valid()
      ensures ok <==> Apply(old(trees), b).Some?
      ensures ok ==> Apply(old(trees), b) == Some(trees) && Bodies(blocks) == Bodies(old(blocks)) + [b]
      ensures !ok ==> trees == old(trees) && index == old(index) && blocks == old(blocks)
    {
      var t', index', spent;
      ok, t', index', spent := ApplyIndexed(trees, index, b);
      if ok {
        UndoOfApply(trees, b);
        OneApplied(origin, blocks, trees, b, spent, t');
        trees, index, blocks := t', index', blocks + [Applied(b, spent)];
      }
    }

    // Rewinds the last block.
    method RewindBlock()
      requires Valid() && blocks != []
      modifies this
      ensures Valid() && blocks == old(blocks)[..|old(blocks)| - 1]
    {
      var init, last := blocks[..|blocks| - 1], blocks[|blocks| - 1];
      ghost var before := StateAfter(origin, init).value;
      DistinctAfter(origin, init);
      var back;
      back, index := UndoIndexed(trees, index, last.body, last.spent, before);
      trees, blocks := back, init;
    }

    method Rewind(n: nat)
      requires Valid() && n <= |blocks|
      modifies this
      ensures Valid() && blocks == old(blocks)[..|old(blocks)| - n]
    {
      ghost var was := blocks;
      for i := 0 to n
        invariant Valid() && i <= |was| && blocks == was[..|was| - i]
      {
        RewindBlock();
      }
    }

    method ApplyBlocks(bs: seq<Body<C>>) returns (ok: bool)
      requires Valid()
      modifies this
      ensures Valid()
      ensures ok ==> Bodies(blocks) == Bodies(old(blocks)) + bs
      ensures ok <==> AllApply(old(trees), bs, |bs|).Some?
      ensures ok ==> AllApply(old(trees), bs, |bs|) == Some(trees)
    {
      ghost var start, was := trees, Bodies(blocks);
      for i := 0 to |bs|
        invariant Valid() && Reaches(start, was, bs, i)
      {
        var done := ApplyNext(bs, i, start, was);
        if !done { return false; }
      }
      assert bs[..|bs|] == bs;
      return true;
    }

    // The first i of the blocks have been applied.
    ghost predicate Reaches(start: Trees<C>, was: seq<Body<C>>, bs: seq<Body<C>>, i: nat)
      requires i <= |bs|
      reads this
    {
      Bodies(blocks) == was + bs[..i] && AllApply(start, bs, i) == Some(trees)
    }

    method ApplyNext(bs: seq<Body<C>>, i: nat, ghost start: Trees<C>, ghost was: seq<Body<C>>) returns (ok: bool)
      requires Valid() && i < |bs| && Reaches(start, was, bs, i)
      modifies this
      ensures Valid()
      ensures ok ==> Reaches(start, was, bs, i + 1)
      ensures !ok ==> AllApply(start, bs, |bs|).None?
    {
      ok := ApplyBlock(bs[i]);
      NextTaken(bs, i, was);
      if !ok { Refused(start, bs, i + 1); }
    }

    // Leaves a number of blocks for others.  If one of them is refused, everything is as it was.
    method Reorg(n: nat, bs: seq<Body<C>>) returns (ok: bool)
      requires Valid() && n <= |blocks|
      modifies this
      ensures Valid()
      ensures ok ==> Bodies(blocks) == Bodies(old(blocks))[..|old(blocks)| - n] + bs
      ensures !ok ==> trees == old(trees) && index == old(index) && blocks == old(blocks)
      ensures var at := StateAfter(origin, old(blocks)[..|old(blocks)| - n]);
        at.Some? && AllApply(at.value, bs, |bs|) == if ok then Some(trees) else None
    {
      var t, i, was := trees, index, blocks;
      Rewind(n);
      BodiesTake(was, |was| - n);
      ok := ApplyBlocks(bs);
      if !ok { trees, index, blocks := t, i, was; }
    }

    // A re-org as far as it is possible: not beyond the origin, and to blocks that can all be applied.
    method TryReorg(n: nat, bs: seq<Body<C>>)
      requires Valid()
      modifies this
      ensures Valid() && Bodies(blocks) == Moved(origin, Bodies(old(blocks)), n, bs)
    {
      if n <= |blocks| {
        ghost var was, keep := blocks, |blocks| - n;
        var _ := Reorg(n, bs);
        ReorgIs(origin, was, keep, bs);
      }
    }

    // Over any number of re-orgs, none further back than the origin, the blocks are those of the
    // last one that was possible, and the index leads to every unspent output, so that a look-up
    // finds what a search of the outputs would find.
    method Run(ops: seq<(nat, seq<Body<C>>)>)
      requires Valid()
      modifies this
      ensures Valid()
      ensures Bodies(blocks) == BranchAfter(origin, Bodies(old(blocks)), ops)
      ensures AllApply(origin, Bodies(blocks), |blocks|) == Some(trees)
      ensures forall c :: LookUp(trees.leaves, trees.live, index, c)
                == FindLive(trees.leaves, trees.live, c, |trees.leaves|)
    {
      ghost var start := Bodies(blocks);
      for i := 0 to |ops|
        invariant Valid() && Bodies(blocks) == BranchAfter(origin, start, ops[..i])
      {
        assert ops[..i + 1][..i] == ops[..i];
        TryReorg(ops[i].0, ops[i].1);
      }
      assert ops[..|ops|] == ops;
      StateIsFold(origin, blocks);
      forall c
        ensures LookUp(trees.leaves, trees.live, index, c) == FindLive(trees.leaves, trees.live, c, |trees.leaves|)
      {
        LookUpIs(trees.leaves, trees.live, index, c);
      }
    }
  }

  ghost function Bodies<C>(blocks: seq<Applied<C>>): (bs: seq<Body<C>>)
    ensures |bs| == |blocks|
  {
    seq(|blocks|, i requires 0 <= i < |blocks| => blocks[i].body)
  }

  lemma BodiesTake<C>(blocks: seq<Applied<C>>, n: nat)
    requires n <= |blocks|
    ensures Bodies(blocks[..n]) == Bodies(blocks)[..n]
  {
  }

  lemma NextTaken<C>(bs: seq<Body<C>>, i: nat, was: seq<Body<C>>)
    requires i < |bs|
    ensures was + bs[..i + 1] == (was + bs[..i]) + [bs[i]]
  {
  }

  // The first n blocks applied one after the other.
  ghost function AllApply<C>(t: Trees<C>, bs: seq<Body<C>>, n: nat): Option<Trees<C>>
    requires n <= |bs|
  {
    if n == 0 then Some(t)
    else match AllApply(t, bs, n - 1)
      case None => None
      case Some(x) => Apply(x, bs[n - 1])
  }

  // The blocks after leaving the last n for others, if that is possible.
  ghost function Moved<C>(origin: State<C>, bodies: seq<Body<C>>, n: nat, bs: seq<Body<C>>): seq<Body<C>> {
    if n > |bodies| then bodies
    else
      var branch := bodies[..|bodies| - n] + bs;
      if AllApply(origin, branch, |branch|).Some? then branch else bodies
  }

  ghost function BranchAfter<C>(origin: State<C>, bodies: seq<Body<C>>, ops: seq<(nat, seq<Body<C>>)>): seq<Body<C>> {
    if ops == [] then bodies
    else
      var op := ops[|ops| - 1];
      Moved(origin, BranchAfter(origin, bodies, ops[..|ops| - 1]), op.0, op.1)
  }

  // The state after blocks is that of applying their bodies in turn.
  lemma {:induction false} StateIsFold<C>(origin: State<C>, blocks: seq<Applied<C>>)
    ensures AllApply(origin, Bodies(blocks), |blocks|) == StateAfter(origin, blocks)
  {
    if blocks != [] {
      var n := |blocks| - 1;
      StateIsFold(origin, blocks[..n]);
      BodiesTake(blocks, n);
      FoldPrefix(origin, Bodies(blocks), Bodies(blocks[..n]), n);
    }
  }

  lemma {:induction false} FoldPrefix<C>(t: Trees<C>, a: seq<Body<C>>, b: seq<Body<C>>, n: nat)
    requires n <= |a| && n <= |b| && a[..n] == b[..n]
    ensures AllApply(t, a, n) == AllApply(t, b, n)
  {
    if n > 0 {
      assert a[n - 1] == a[..n][n - 1] == b[..n][n - 1] == b[n - 1];
      assert a[..n - 1] == a[..n][..n - 1] && b[..n - 1] == b[..n][..n - 1];
      FoldPrefix(t, a, b, n - 1);
    }
  }

  // Applying one branch and then another is applying both at once.
  lemma {:induction false} FoldBoth<C>(t: Trees<C>, a: seq<Body<C>>, b: seq<Body<C>>, n: nat, x: Option<Trees<C>>)
    requires n <= |b| && x == AllApply(t, a, |a|)
    ensures AllApply(t, a + b, |a| + n) == if x.Some? then AllApply(x.value, b, n) else None
  {
    if n == 0 {
      assert (a + b)[..|a|] == a[..|a|];
      FoldPrefix(t, a + b, a, |a|);
    } else {
      FoldBoth(t, a, b, n - 1, x);
    }
  }

  lemma ReorgIs<C>(origin: State<C>, was: seq<Applied<C>>, keep: nat, bs: seq<Body<C>>)
    requires keep <= |was| && StateAfter(origin, was[..keep]).Some?
    ensures var branch := Bodies(was)[..keep] + bs;
      AllApply(origin, branch, |branch|) == AllApply(StateAfter(origin, was[..keep]).value, bs, |bs|)
  {
    StateIsFold(origin, was[..keep]);
    BodiesTake(was, keep);
    FoldBoth(origin, Bodies(was)[..keep], bs, |bs|, StateAfter(origin, was[..keep]));
  }

  lemma {:induction false} Refused<C>(t: Trees<C>, bs: seq<Body<C>>, n: nat)
    requires n <= |bs| && AllApply(t, bs, n).None?
    ensures AllApply(t, bs, |bs|).None?
    decreases |bs| - n
  {
    if n < |bs| { Refused(t, bs, n + 1); }
  }

  lemma OneApplied<C>(origin: State<C>, blocks: seq<Applied<C>>, t: State<C>, b: Body<C>, spent: seq<nat>, t': Trees<C>)
    requires StateAfter(origin, blocks) == Some(t) && Recorded(origin, blocks)
    requires Apply(t, b) == Some(t') && SpentBy(t', spent)
    ensures Sane(t') && StateAfter(origin, blocks + [Applied(b, spent)]) == Some(t')
    ensures Recorded(origin, blocks + [Applied(b, spent)])
    ensures Bodies(blocks + [Applied(b, spent)]) == Bodies(blocks) + [b]
  {
    UndoOfApply(t, b);
    assert (blocks + [Applied(b, spent)])[..|blocks|] == blocks;
  }
}
