/**
  Some mutators that report progress add instructions.  Still, every mutation reported as changing the
  size lowers one measure: block parameters, then instructions with several results, then instructions,
  then instructions outside the entry block, compared in this order.
 */
module Measure {
  import opened Options
  import opened Layouts
  import opened Clif
  import opened Mutators
  import opened Invariants
  import opened MutatorsKeep
  import opened BlockMutatorsKeep

  /** The laid-out instructions with two or more results. */
  function Multi(f: Func): set<Inst> {
    set i | i in Flatten(f.layout) && |ResultsOf(f.results, i)| >= 2
  }

  datatype Size = Size(params: nat, multi: nat, insts: nat, outsideEntry: nat)

  function SizeOf(f: Func): Size {
    Size(|AllParams(f)|, |Multi(f)|, |Flatten(f.layout)|, if f.layout == [] then 0 else |Flatten(f.layout[1..])|)
  }

  predicate Smaller(a: Size, b: Size) {
    || a.params < b.params
    || (a.params == b.params && a.multi < b.multi)
    || (a.params == b.params && a.multi == b.multi && a.insts < b.insts)
    || (a.params == b.params && a.multi == b.multi && a.insts == b.insts && a.outsideEntry < b.outsideEntry)
  }

  lemma SubsetSize<T>(a: set<T>, b: set<T>)
    requires a <= b
    ensures |a| <= |b| && (a != b ==> |a| < |b|)
  {
    assert b == a + (b - a);
    if a != b {
      assert b - a != {};
    }
  }

  lemma SubSeqSize<T>(a: seq<T>, b: seq<T>)
    requires multiset(a) <= multiset(b)
    ensures |a| <= |b|
  {
    assert multiset(b) == multiset(a) + (multiset(b) - multiset(a));
    assert |multiset(b)| == |multiset(a)| + |multiset(b) - multiset(a)|;
  }

  lemma FewerBy<T>(a: seq<T>, b: seq<T>, c: seq<T>)
    requires multiset(b) == multiset(a) + multiset(c)
    ensures |b| == |a| + |c|
  {
    assert |multiset(b)| == |multiset(a)| + |multiset(c)|;
  }

  /** Losing instructions without gaining parameters, results or other instructions. */
  lemma {:induction false} FewerInsts(f: Func, g: Func, lost: seq<Inst>)
    requires multiset(Flatten(f.layout)) == multiset(Flatten(g.layout)) + multiset(lost) && lost != []
    requires multiset(AllParams(g)) <= multiset(AllParams(f)) && g.results == f.results
    ensures Smaller(SizeOf(g), SizeOf(f))
  {
    FewerBy(Flatten(g.layout), Flatten(f.layout), lost);
    SubSeqSize(AllParams(g), AllParams(f));
    forall i | i in Multi(g) ensures i in Multi(f) {
      SubIn(Flatten(g.layout), Flatten(f.layout), i);
    }
    SubsetSize(Multi(g), Multi(f));
  }

  lemma {:induction false} RemoveInstLowers(block: Block, inst: Inst, f: Func)
    requires Inv(f) && CursorAt(f.layout, block, inst)
    ensures var s := MutateRemoveInst(block, inst, f); s.outcome.Mutated? ==> Smaller(SizeOf(s.outcome.func), SizeOf(f))
  {
    hide Inv, Flatten, Once, NextInstRetPrev, Layouts.RemoveInst, DropIfEmpty, SizeOf, ParamsIn, DeletedAt;
    var l := f.layout;
    var b: nat, k: nat :| At(l, b, k, inst) && l[b].id == block;
    AdvanceAt(f, b, k);
    InvLayout(f);
    RemoveInstAt(l, b, k);
    DeletedCount(l, b, k);
    DeleteKeepsParams(f.params, l, b, k);
    assert multiset([inst]) == multiset{inst};
    FewerInsts(f, f.(layout := DeletedAt(l, b, k)), [inst]);
  }

  lemma {:induction false} InsertedNotMulti(f: Func, g: Func, b: nat, k: nat)
    requires Inv(f) && Inserted(f, g, b, k)
    ensures Multi(g) == Multi(f) && AllParams(g) == AllParams(f)
  {
    hide Once;
    var s := Fresh(f.nextInst, g.nextInst);
    SpliceFlatten(f.layout, b, k, s);
    forall i: Inst ensures i in Multi(g) <==> i in Multi(f) {
      FreshOnce(f.nextInst, g.nextInst, i);
      assert i in Flatten(f.layout) <==> i in multiset(Flatten(f.layout));
      assert i in Flatten(g.layout) <==> i in multiset(Flatten(g.layout));
      assert i < f.nextInst ==> ResultsOf(g.results, i) == ResultsOf(f.results, i);
      assert f.nextInst <= i < g.nextInst ==> |ResultsOf(g.results, i)| == 1;
    }
    ParamsSameIds(f.params, g.layout, f.layout);
  }

  /** Clearing the results of `inst` and then removing it. */
  lemma {:induction false} OneLessMulti(f: Func, g: Func, h: Func, inst: Inst, b: nat, k: nat)
    requires inst in Multi(f) && Multi(g) == Multi(f.(results := f.results[inst := []]))
    requires b < |g.layout| && k < |g.layout[b].insts| && h == g.(layout := DeletedAt(g.layout, b, k))
    ensures Multi(h) < Multi(f)
  {
    hide DeletedAt;
    DeletedCount(g.layout, b, k);
    forall i | i in Multi(h) ensures i in Multi(f) && i != inst {
      SubIn(Flatten(h.layout), Flatten(g.layout), i);
      assert i in Multi(g);
    }
  }

  lemma {:induction false} ReplaceByConstsLowers(f: Func, b: nat, k: nat)
    requires Inv(f) && b < |f.layout| && k < |f.layout[b].insts|
    requires |ResultsOf(f.results, f.layout[b].insts[k])| >= 2
    ensures Smaller(SizeOf(ReplaceByConsts(f, f.layout[b].insts[k])), SizeOf(f))
  {
    hide Inv, Flatten, Once, ReplaceByConsts, InsertConsts, TablesGrow, DeletedAt, ParamsIn, SpliceAt;
    var inst := f.layout[b].insts[k];
    var f0 := f.(results := f.results[inst := []]);
    var g := InsertConsts(f0, ResultsOf(f.results, inst), inst);
    var h := ReplaceByConsts(f, inst);
    ReplaceByConstsAt(f, b, k);
    InFlatten(f.layout, b, k);
    ClearResultsKeepsInv(f, inst);
    InsertedNotMulti(f0, g, b, k);
    var k' := k + g.nextInst - f.nextInst;
    SpliceBounds(f.layout, b, k, Fresh(f.nextInst, g.nextInst));
    OneLessMulti(f, g, h, inst, b, k');
    SubsetSize(Multi(h), Multi(f));
    DeleteKeepsParams(g.params, g.layout, b, k');
    SubSeqSize(AllParams(h), AllParams(g));
  }

  lemma SpliceBounds(l: Layout, b: nat, k: nat, s: seq<Inst>)
    requires b < |l| && k < |l[b].insts|
    ensures var m := SpliceAt(l, b, k, s); |m| == |l| && |m[b].insts| == |l[b].insts| + |s|
  {
  }

  lemma {:induction false} ReplaceInstWithConstLowers(block: Block, inst: Inst, f: Func)
    requires Inv(f) && CursorAt(f.layout, block, inst)
    ensures var s := MutateReplaceInstWithConst(block, inst, f);
            s.outcome.Mutated? && s.outcome.status == ExpandedOrShrinked ==> Smaller(SizeOf(s.outcome.func), SizeOf(f))
  {
    hide Inv, Flatten, ReplaceByConsts, SizeOf, NextInstRetPrev;
    var b: nat, k: nat :| At(f.layout, b, k, inst) && f.layout[b].id == block;
    if |ResultsOf(f.results, inst)| >= 2 {
      ReplaceByConstsLowers(f, b, k);
    }
  }

  lemma {:induction false} MovedLowers(f: Func, b: nat, k: nat)
    requires Inv(f) && 0 < b < |f.layout| && k + 1 < |f.layout[b].insts|
    ensures f.layout[0].insts != []
    ensures Smaller(SizeOf(f.(layout := MovedLayout(f.layout, b, k))), SizeOf(f))
  {
    hide Flatten, ParamsIn, Once, AliasFree, AllArityOk, TerminatorsOk;
    var l, m := f.layout, MovedLayout(f.layout, b, k);
    var g := f.(layout := m);
    MovedFlatten(l, b, k);
    assert |Flatten(m)| == |multiset(Flatten(m))| == |Flatten(l)|;
    ParamsSameIds(f.params, m, l);
    forall i ensures i in Flatten(m) <==> i in Flatten(l) {
      assert i in Flatten(m) <==> i in multiset(Flatten(m));
    }
    assert Multi(g) == Multi(f);
    MovedOutside(l, b, k);
  }

  lemma {:induction false} MovedOutside(l: Layout, b: nat, k: nat)
    requires 0 < b < |l| && k + 1 < |l[b].insts| && l[0].insts != []
    ensures |Flatten(MovedLayout(l, b, k)[1..])| == |Flatten(l[1..])| - 1
  {
    hide Flatten;
    var rest := l[1..];
    assert rest[b - 1] == l[b];
    assert MovedLayout(l, b, k)[1..] == DeletedAt(rest, b - 1, k);
    FlattenDeletedAt(rest, b - 1, k);
  }

  lemma {:induction false} MoveInstLowers(block: Block, inst: Inst, f: Func)
    requires Inv(f) && CursorAt(f.layout, block, inst)
    ensures var s := MutateMoveInst(block, inst, f);
            s.outcome.Mutated? && s.outcome.status == ExpandedOrShrinked ==> Smaller(SizeOf(s.outcome.func), SizeOf(f))
  {
    hide Inv, Flatten, NextInstRetPrev, Layouts.RemoveInst, InsertInst, SizeOf, MovedLayout, Once;
    var l := f.layout;
    var b: nat, k: nat :| At(l, b, k, inst) && l[b].id == block;
    AdvanceAt(f, b, k);
    InvLayout(f);
    if b > 0 && NextPlace(l, b, k).0 == b {
      MovedAt(l, b, k);
      MovedLowers(f, b, k);
    }
  }

  lemma {:induction false} RemoveBlockLowers(block: Block, f: Func)
    requires Inv(f)
    ensures var s := MutateRemoveBlock(block, f); s.outcome.Mutated? ==> Smaller(SizeOf(s.outcome.func), SizeOf(f))
  {
    hide Inv, Flatten, SizeOf, ParamsIn, Once;
    InvLayout(f);
    if NextBlock(f.layout, block).Some? {
      NextBlockAt(f.layout, block);
      var j := BlockIndex(f.layout, NextBlock(f.layout, block).value).value;
      RemovedFlatten(f.layout, j);
      ParamsRemoveBlock(f.params, f.layout, j);
      FewerInsts(f, f.(layout := f.layout[..j] + f.layout[j + 1..]), f.layout[j].insts);
    }
  }

  lemma {:induction false} ReplaceParamLowers(block: Block, remaining: nat, f: Func)
    requires Inv(f) && CursorOk(ReplaceBlockParamWithConst(block, remaining), f)
    ensures var s := MutateReplaceParam(block, remaining, f);
            s.outcome.Mutated? ==> Smaller(SizeOf(s.outcome.func), SizeOf(f))
  {
    hide Inv, Flatten, ParamByConst, InsertConst, TablesGrow, SeekParam, ParamsIn, Once, Multi;
    SeekParamAt(f, block, remaining);
    match SeekParam(f, block, remaining)
    case None =>
    case Some((b, r)) =>
      var c :| 0 <= c < |f.layout| && f.layout[c].id == b;
      InvLayout(f);
      BlockIndexAt(f.layout, c);
      ParamByConstAt(f, c, r - 1);
      var g := ParamByConst(f, b, r - 1, f.layout[c].insts[0]);
      assert multiset([ParamsOf(f.params, b)[r - 1]]) == multiset{ParamsOf(f.params, b)[r - 1]};
      FewerBy(AllParams(g), AllParams(f), [ParamsOf(f.params, b)[r - 1]]);
      forall s ensures AllParams(g.(sigParams := s)) == AllParams(g) {
      }
  }

  lemma {:induction false} MergeBlocksLowers(block: Block, prev: Option<Block>, f: Func)
    requires Inv(f)
    ensures var s := MutateMergeBlocks(block, prev, f);
            s.outcome.Mutated? && s.outcome.status == ExpandedOrShrinked ==> Smaller(SizeOf(s.outcome.func), SizeOf(f))
  {
    hide Inv, Flatten, MergedLayout, Preds, AliasParams, Once, SizeOf, ParamsIn;
    InvLayout(f);
    var s := MutateMergeBlocks(block, prev, f);
    if s.outcome.Mutated? && s.outcome.status == ExpandedOrShrinked {
      NextBlockAt(f.layout, block);
      var b := NextBlock(f.layout, block).value;
      var pred, g := Preds(f, b)[0], s.outcome.func;
      MergedLayoutOk(f, b);
      ParamsElsewhere(f.params, g.layout, b, []);
      assert multiset([pred.inst]) == multiset{pred.inst};
      FewerInsts(f, g, [pred.inst]);
    }
  }

  /** Every mutation reported as changing the size makes the function smaller. */
  lemma ShrinkLowers(m: Mutator, f: Func)
    requires Inv(f) && CursorOk(m, f)
    ensures var s := Mutate(m, f);
            s.outcome.Mutated? && s.outcome.status == ExpandedOrShrinked ==> Smaller(SizeOf(s.outcome.func), SizeOf(f))
  {
    hide Inv, SizeOf, Smaller, MutateRemoveInst, MutateReplaceInstWithConst, MutateMoveInst;
    hide MutateRemoveBlock, MutateReplaceParam, MutateMergeBlocks;
    match m
    case RemoveInst(b, i) => RemoveInstLowers(b, i, f);
    case ReplaceInstWithConst(b, i) => ReplaceInstWithConstLowers(b, i, f);
    case ReplaceInstWithTrap(b, i) =>
    case MoveInstToEntryBlock(b, i) => MoveInstLowers(b, i, f);
    case RemoveBlock(b) => RemoveBlockLowers(b, f);
    case ReplaceBlockParamWithConst(b, r) => ReplaceParamLowers(b, r, f);
    case RemoveUnusedEntities(k) =>
    case MergeBlocks(b, p) => MergeBlocksLowers(b, p, f);
  }
}
