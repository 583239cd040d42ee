/**
  Every mutator keeps the invariant of the function and leaves a cursor that is good both for the old
  function, if the mutation is discarded, and for the new one, if it is kept.
 */
module MutatorsKeep {
  import opened Options
  import opened Layouts
  import opened Clif
  import opened Mutators
  import opened Invariants

  /** A cursor the mutator can go on from in `f`.  Nothing is asked of the cursors over blocks alone. */
  ghost predicate CursorOk(m: Mutator, f: Func) {
    match m
    case RemoveInst(b, i) => CursorAt(f.layout, b, i)
    case ReplaceInstWithConst(b, i) => CursorAt(f.layout, b, i)
    case ReplaceInstWithTrap(b, i) => CursorAt(f.layout, b, i)
    case MoveInstToEntryBlock(b, i) => CursorAt(f.layout, b, i)
    case ReplaceBlockParamWithConst(b, r) =>
      r <= |ParamsOf(f.params, b)| && exists k :: 0 <= k < |f.layout| && f.layout[k].id == b
    case RemoveBlock(_) => true
    case RemoveUnusedEntities(_) => true
    case MergeBlocks(_, _) => true
  }

  /** `b`, which is not the entry block, has one predecessor. */
  ghost predicate HasSolePred(f: Func, b: Block) {
    BlockIndex(f.layout, b).Some? && BlockIndex(f.layout, b).value > 0 && |Preds(f, b)| == 1
  }

  /** That is the block itself, and there is more in it than the branch. */
  ghost predicate OwnPred(f: Func, b: Block) {
    HasSolePred(f, b) && Preds(f, b)[0].block == b && |InstsOf(f.layout, b)| > 1
  }

  ghost predicate SelfLooped(f: Func) {
    exists b :: OwnPred(f, b)
  }

  /** What is passed for parameter `k`, which is `p`, is not `p` and stands for a value in `knot`. */
  ghost predicate PassesAt(aliases: map<Value, Value>, params: seq<Value>, args: seq<BlockArg>, knot: set<Value>, p: Value, k: nat) {
    && k < |params| == |args| && params[k] == p
    && args[k].ValueArg? && args[k].value != p && Root(aliases, args[k].value) in knot
  }

  ghost predicate Passed(aliases: map<Value, Value>, params: seq<Value>, args: seq<BlockArg>, knot: set<Value>, p: Value) {
    exists k :: PassesAt(aliases, params, args, knot, p, k)
  }

  /** Parameters that are passed for one another, and so come round in a circle. */
  ghost predicate Knot(aliases: map<Value, Value>, params: seq<Value>, args: seq<BlockArg>, knot: set<Value>) {
    knot != {} && forall p :: p in knot ==> Passed(aliases, params, args, knot, p)
  }

  /** The only predecessor of `b` passes `b` its own parameters in a circle. */
  ghost predicate TangledAt(f: Func, b: Block) {
    && HasSolePred(f, b) && |Data(f.insts, Preds(f, b)[0].inst).dests| == 1
    && exists knot :: Knot(f.aliases, ParamsOf(f.params, b), Data(f.insts, Preds(f, b)[0].inst).dests[0].args, knot)
  }

  ghost predicate Tangled(f: Func) {
    exists b :: TangledAt(f, b)
  }

  /** The faults that the invariant does not exclude, and when they occur. */
  ghost predicate Excusable(e: Fault, f: Func) {
    || (e == SignatureIndex && !EntryMatches(f))
    || (e == AliasLoop && Tangled(f))
    || (e == SelfMerge && SelfLooped(f))
  }

  ghost predicate GoodStep(s: Step, f: Func) {
    && CursorOk(s.next, f)
    && (s.outcome.Faulted? ==> Excusable(s.outcome.fault, f))
    && (s.outcome.Mutated? ==>
          && Inv(s.outcome.func)
          && (s.outcome.status == Skip ==> s.outcome.func == f)
          && (s.outcome.status != Skip ==> DidCrash(s.next).Ok? && CursorOk(DidCrash(s.next).value, s.outcome.func)))
  }

  // ----- Instruction cursors -----

  lemma AdvanceAt(f: Func, b: nat, k: nat)
    requires Inv(f) && b < |f.layout| && k < |f.layout[b].insts|
    ensures var p := NextPlace(f.layout, b, k);
            var a := NextInstRetPrev(f.layout, f.layout[b].id, f.layout[b].insts[k]);
            if p.0 < |f.layout|
            then a == Advanced(f.layout[p.0].id, f.layout[p.0].insts[p.1]) && CursorAt(f.layout, a.block, a.inst)
            else a == End
  {
    NextInstRetPrevAt(f.layout, b, k);
    var p := NextPlace(f.layout, b, k);
    if p.0 < |f.layout| {
      assert At(f.layout, p.0, p.1, f.layout[p.0].insts[p.1]);
    }
  }

  /** Where the cursor's instruction is once the instruction before it is gone. */
  lemma DeletedCursor(l: Layout, b: nat, k: nat)
    requires b < |l| && k < |l[b].insts| && NextPlace(l, b, k).0 < |l| && NoEmptyBlock(l)
    ensures var p := NextPlace(l, b, k); CursorAt(DeletedAt(l, b, k), l[p.0].id, l[p.0].insts[p.1])
  {
    var p := NextPlace(l, b, k);
    var b' := if p.0 == b || |l[b].insts| == 1 then b else b + 1;
    var k' := if p.0 == b then k else 0;
    assert At(DeletedAt(l, b, k), b', k', l[p.0].insts[p.1]);
  }

  lemma {:induction false} KeepsRemoveInst(block: Block, inst: Inst, f: Func)
    requires Inv(f) && CursorAt(f.layout, block, inst)
    ensures GoodStep(MutateRemoveInst(block, inst, f), f)
  {
    hide Inv, Flatten, NextInstRetPrev, Layouts.RemoveInst, DropIfEmpty, Once;
    var l := f.layout;
    var b: nat, k: nat :| At(l, b, k, inst) && l[b].id == block;
    AdvanceAt(f, b, k);
    if NextPlace(l, b, k).0 < |l| {
      InvLayout(f);
      RemoveInstAt(l, b, k);
      DeleteKeepsInv(f, b, k);
      DeletedCursor(l, b, k);
    }
  }

  lemma ClearResultsKeepsInv(f: Func, inst: Inst)
    requires Inv(f) && inst in Flatten(f.layout)
    ensures Inv(f.(results := f.results[inst := []]))
  {
    assert AllParams(f.(results := f.results[inst := []])) == AllParams(f);
  }

  lemma {:induction false} ReplaceByConstsAt(f: Func, b: nat, k: nat)
    requires Inv(f) && b < |f.layout| && k < |f.layout[b].insts|
    requires ResultsOf(f.results, f.layout[b].insts[k]) != []
    ensures var inst := f.layout[b].insts[k];
            var f0 := f.(results := f.results[inst := []]);
            var g := InsertConsts(f0, ResultsOf(f.results, inst), inst);
            && Inserted(f0, g, b, k) && g.nextInst > f.nextInst
            && ReplaceByConsts(f, inst) == g.(layout := DeletedAt(g.layout, b, k + g.nextInst - f.nextInst))
            && Inv(ReplaceByConsts(f, inst))
  {
    hide Inv, Flatten, Once, InsertConsts, Inserted, WfLayout, DeletedAt, Layouts.RemoveInst;
    var inst := f.layout[b].insts[k];
    var f0 := f.(results := f.results[inst := []]);
    InFlatten(f.layout, b, k);
    ClearResultsKeepsInv(f, inst);
    var rs := ResultsOf(f.results, inst);
    var g := InsertConsts(f0, rs, inst);
    InsertConstsInserted(f0, rs, b, k);
    InsertedKeepsInv(f0, g, b, k);
    InvLayout(g);
    InsertedBefore(f0, g, b, k);
    var k' := k + g.nextInst - f.nextInst;
    RemoveInstAt(g.layout, b, k');
    DeletedIsRemoved(g.layout, b, k');
    DeleteKeepsInv(g, b, k');
  }

  /** The instruction that others were inserted before is still there, further on. */
  lemma InsertedBefore(f: Func, g: Func, b: nat, k: nat)
    requires Inserted(f, g, b, k) && g.nextInst > f.nextInst
    ensures var k' := k + g.nextInst - f.nextInst;
            && b < |g.layout| && 0 <= k' < |g.layout[b].insts| && |g.layout[b].insts| > 1
            && g.layout[b].insts[k'] == f.layout[b].insts[k]
  {
    hide TablesGrow;
  }

  lemma DeletedIsRemoved(l: Layout, b: nat, k: nat)
    requires b < |l| && k < |l[b].insts| && |l[b].insts| > 1
    ensures DeletedAt(l, b, k) == WithInsts(l, b, Without(l[b].insts, k))
  {
  }

  lemma {:induction false} ReplacedCursor(l: Layout, b: nat, k: nat, s: seq<Inst>)
    requires b < |l| && k < |l[b].insts| && s != [] && NextPlace(l, b, k).0 < |l| && NoEmptyBlock(l)
    ensures var p := NextPlace(l, b, k);
            CursorAt(DeletedAt(SpliceAt(l, b, k, s), b, k + |s|), l[p.0].id, l[p.0].insts[p.1])
  {
    var p := NextPlace(l, b, k);
    var m := DeletedAt(SpliceAt(l, b, k, s), b, k + |s|);
    assert At(m, p.0, if p.0 == b then k + |s| else 0, l[p.0].insts[p.1]);
  }

  lemma {:induction false} ReplaceByConstsCursor(f: Func, b: nat, k: nat)
    requires Inv(f) && b < |f.layout| && k < |f.layout[b].insts| && NextPlace(f.layout, b, k).0 < |f.layout|
    requires ResultsOf(f.results, f.layout[b].insts[k]) != []
    ensures var p := NextPlace(f.layout, b, k);
            var h := ReplaceByConsts(f, f.layout[b].insts[k]);
            Inv(h) && CursorAt(h.layout, f.layout[p.0].id, f.layout[p.0].insts[p.1])
  {
    hide Inv, Flatten, TablesGrow, InsertConsts, ReplaceByConsts, DeletedAt, SpliceAt, CursorAt, Once;
    ReplaceByConstsAt(f, b, k);
    InvLayout(f);
    var s := Fresh(f.nextInst, ReplaceByConsts(f, f.layout[b].insts[k]).nextInst);
    ReplacedCursor(f.layout, b, k, s);
  }

  lemma {:induction false} KeepsReplaceInstWithConst(block: Block, inst: Inst, f: Func)
    requires Inv(f) && CursorAt(f.layout, block, inst)
    ensures GoodStep(MutateReplaceInstWithConst(block, inst, f), f)
  {
    hide Inv, Flatten, ReplaceByConsts, NextInstRetPrev;
    var b: nat, k: nat :| At(f.layout, b, k, inst) && f.layout[b].id == block;
    AdvanceAt(f, b, k);
    if NextPlace(f.layout, b, k).0 < |f.layout| && !AlreadyConst(f, inst) {
      ReplaceByConstsCursor(f, b, k);
    }
  }

  lemma {:induction false} TrapKeepsInv(f: Func, inst: Inst)
    requires Inv(f) && inst in Flatten(f.layout)
    ensures Inv(f.(insts := f.insts[inst := TrapData]))
  {
    var g := f.(insts := f.insts[inst := TrapData]);
    forall c | 0 <= c < |f.layout| ensures BranchesLast(g.insts, f.layout[c].insts) {
      assert BranchesLast(f.insts, f.layout[c].insts);
    }
    assert AllParams(g) == AllParams(f);
  }

  lemma {:induction false} KeepsReplaceInstWithTrap(block: Block, inst: Inst, f: Func)
    requires Inv(f) && CursorAt(f.layout, block, inst)
    ensures GoodStep(MutateReplaceInstWithTrap(block, inst, f), f)
  {
    hide Inv;
    var l := f.layout;
    var b: nat, k: nat :| At(l, b, k, inst) && l[b].id == block;
    AdvanceAt(f, b, k);
    InFlatten(l, b, k);
    TrapKeepsInv(f, inst);
  }

  // ----- Moving to the entry block -----

  function MovedLayout(l: Layout, b: nat, k: nat): Layout
    requires 0 < b < |l| && k < |l[b].insts| && l[0].insts != []
  {
    SpliceAt(WithInsts(l, b, Without(l[b].insts, k)), 0, |l[0].insts| - 1, [l[b].insts[k]])
  }

  lemma {:induction false} MovedAt(l: Layout, b: nat, k: nat)
    requires WfLayout(l) && 0 < b < |l| && k < |l[b].insts| && |l[b].insts| > 1
    ensures var inst, last := l[b].insts[k], l[0].insts[|l[0].insts| - 1];
            LastInst(l, l[0].id) == Some(last) &&
            InsertInst(Layouts.RemoveInst(l, inst), inst, last) == MovedLayout(l, b, k)
  {
    hide Flatten, Once, BlockIndex, Locate, Layouts.RemoveInst, InsertInst, DeletedAt;
    var m := WithInsts(l, b, Without(l[b].insts, k));
    RemoveInstAt(l, b, k);
    BlockIndexAt(l, 0);
    RemainsOnce(l, b, k);
    InsertInstAt(m, 0, |l[0].insts| - 1, l[b].insts[k]);
  }

  lemma RemainsOnce(l: Layout, b: nat, k: nat)
    requires Once(Flatten(l)) && b < |l| && k < |l[b].insts| && |l[b].insts| > 1
    ensures Once(Flatten(WithInsts(l, b, Without(l[b].insts, k))))
  {
    hide Flatten, Once;
    DeletedCount(l, b, k);
    OnceSub(Flatten(WithInsts(l, b, Without(l[b].insts, k))), Flatten(l));
  }

  lemma {:induction false} MovedFlatten(l: Layout, b: nat, k: nat)
    requires 0 < b < |l| && k < |l[b].insts| && |l[b].insts| > 1 && l[0].insts != []
    ensures multiset(Flatten(MovedLayout(l, b, k))) == multiset(Flatten(l))
  {
    DeletedCount(l, b, k);
    SpliceFlatten(WithInsts(l, b, Without(l[b].insts, k)), 0, |l[0].insts| - 1, [l[b].insts[k]]);
  }

  lemma {:induction false} MovedTerminators(f: Func, b: nat, k: nat)
    requires WfLayout(f.layout) && TerminatorsOk(f) && 0 < b < |f.layout| && k + 1 < |f.layout[b].insts|
    ensures TerminatorsOk(f.(layout := MovedLayout(f.layout, b, k)))
  {
    var l, m := f.layout, MovedLayout(f.layout, b, k);
    assert BranchesLast(f.insts, l[b].insts) && BranchesLast(f.insts, l[0].insts);
    forall c | 0 <= c < |m| ensures BranchesLast(f.insts, m[c].insts) {
      if c != 0 && c != b {
        assert m[c] == l[c];
      }
    }
  }

  lemma {:induction false} MovedKeepsInv(f: Func, b: nat, k: nat)
    requires Inv(f) && 0 < b < |f.layout| && k + 1 < |f.layout[b].insts|
    ensures Inv(f.(layout := MovedLayout(f.layout, b, k)))
    ensures CursorAt(MovedLayout(f.layout, b, k), f.layout[b].id, f.layout[b].insts[k + 1])
  {
    hide Flatten, ParamsIn, AllArityOk, AliasFree, Once;
    var g := f.(layout := MovedLayout(f.layout, b, k));
    MovedFlatten(f.layout, b, k);
    MovedTerminators(f, b, k);
    ParamsSameIds(f.params, g.layout, f.layout);
    SmallerLayout(f, g);
    assert At(g.layout, b, k, f.layout[b].insts[k + 1]);
  }

  lemma {:induction false} KeepsMoveInst(block: Block, inst: Inst, f: Func)
    requires Inv(f) && CursorAt(f.layout, block, inst)
    ensures GoodStep(MutateMoveInst(block, inst, f), f)
  {
    hide Inv, Flatten, NextInstRetPrev, Layouts.RemoveInst, InsertInst;
    var l := f.layout;
    var b: nat, k: nat :| At(l, b, k, inst) && l[b].id == block;
    AdvanceAt(f, b, k);
    InvLayout(f);
    if b > 0 && NextPlace(l, b, k).0 == b {
      MovedAt(l, b, k);
      MovedKeepsInv(f, b, k);
    }
  }

  // ----- Removing a block -----

  lemma {:induction false} RemovedTerminators(f: Func, j: nat)
    requires TerminatorsOk(f) && j < |f.layout|
    ensures TerminatorsOk(f.(layout := f.layout[..j] + f.layout[j + 1..]))
  {
    var l := f.layout;
    var m := l[..j] + l[j + 1..];
    forall c | 0 <= c < |m| ensures BranchesLast(f.insts, m[c].insts) {
      assert m[c] == l[if c < j then c else c + 1];
    }
  }

  lemma {:induction false} RemovedFlatten(l: Layout, j: nat)
    requires j < |l|
    ensures multiset(Flatten(l)) == multiset(Flatten(l[..j] + l[j + 1..])) + multiset(l[j].insts)
  {
    FlattenSplit(l, j);
    FlattenRemoveBlock(l, j);
  }

  lemma {:induction false} RemovedBlock(f: Func, j: nat)
    requires Inv(f) && 0 < j < |f.layout|
    ensures Inv(f.(layout := f.layout[..j] + f.layout[j + 1..]))
  {
    hide Flatten, ParamsIn, AllArityOk, AliasFree, Once;
    RemovedFlatten(f.layout, j);
    ParamsRemoveBlock(f.params, f.layout, j);
    RemovedTerminators(f, j);
    SmallerLayout(f, f.(layout := f.layout[..j] + f.layout[j + 1..]));
  }

  lemma NextBlockAt(l: Layout, block: Block)
    requires DistinctIds(l) && NextBlock(l, block).Some?
    ensures var j := BlockIndex(l, NextBlock(l, block).value); j.Some? && j.value > 0
  {
    BlockIndexAt(l, BlockIndex(l, block).value + 1);
  }

  lemma KeepsRemoveBlock(block: Block, f: Func)
    requires Inv(f)
    ensures GoodStep(MutateRemoveBlock(block, f), f)
  {
    if NextBlock(f.layout, block).Some? {
      NextBlockAt(f.layout, block);
      RemovedBlock(f, BlockIndex(f.layout, NextBlock(f.layout, block).value).value);
    }
  }
}
