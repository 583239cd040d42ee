/**
  Functions without loops.  Every mutator keeps that every branch leads to a block of a higher rank, and then no
  block is its own predecessor.
 */
module Acyclic {
  import opened Options
  import opened Layouts
  import opened Clif
  import opened Mutators
  import opened Invariants
  import opened MutatorsKeep
  import opened BlockMutatorsKeep
  import opened Reduction
  import opened ReductionTheorems

  ghost predicate BlockRanked(insts: map<Inst, InstData>, x: LBlock, rank: Block -> nat) {
    forall i, t :: i in x.insts && Targets(Data(insts, i), t) ==> rank(x.id) < rank(t)
  }

  /** Every branch in the layout leads up. */
  ghost predicate Ranked(f: Func, rank: Block -> nat) {
    forall c :: 0 <= c < |f.layout| ==> BlockRanked(f.insts, f.layout[c], rank)
  }

  // ----- Blocks that only lose branches -----

  ghost predicate FewerTargets(f: Func, g: Func, i: Inst) {
    forall t :: Targets(Data(g.insts, i), t) ==> Targets(Data(f.insts, i), t)
  }

  /** Whatever branches in `x` does so in `y` too. */
  ghost predicate Covers(f: Func, g: Func, y: LBlock, x: LBlock) {
    x.id == y.id && forall i :: i in x.insts ==> Data(g.insts, i).dests == [] || (i in y.insts && FewerTargets(f, g, i))
  }

  lemma CoveredRanked(f: Func, g: Func, y: LBlock, x: LBlock, rank: Block -> nat)
    requires BlockRanked(f.insts, y, rank) && Covers(f, g, y, x)
    ensures BlockRanked(g.insts, x, rank)
  {
  }

  /** Blocks keep their places, and lose branches at most. */
  lemma {:induction false} SamePlacesRanked(f: Func, g: Func, rank: Block -> nat)
    requires Ranked(f, rank) && |g.layout| == |f.layout|
    requires forall c :: 0 <= c < |f.layout| ==> Covers(f, g, f.layout[c], g.layout[c])
    ensures Ranked(g, rank)
  {
    hide BlockRanked, Covers;
    forall c | 0 <= c < |g.layout| ensures BlockRanked(g.insts, g.layout[c], rank) {
      CoveredRanked(f, g, f.layout[c], g.layout[c], rank);
    }
  }

  lemma RemovedRanked(f: Func, j: nat, rank: Block -> nat)
    requires Ranked(f, rank) && j < |f.layout|
    ensures Ranked(f.(layout := f.layout[..j] + f.layout[j + 1..]), rank)
  {
    hide BlockRanked;
    var l := f.layout;
    var m := l[..j] + l[j + 1..];
    forall c | 0 <= c < |m| ensures BlockRanked(f.insts, m[c], rank) {
      assert m[c] == l[if c < j then c else c + 1];
    }
  }

  lemma {:induction false} DeletedRanked(f: Func, b: nat, k: nat, rank: Block -> nat)
    requires Ranked(f, rank) && b < |f.layout| && k < |f.layout[b].insts|
    ensures Ranked(f.(layout := DeletedAt(f.layout, b, k)), rank)
  {
    if |f.layout[b].insts| == 1 {
      RemovedRanked(f, b, rank);
    } else {
      var g := f.(layout := DeletedAt(f.layout, b, k));
      forall c | 0 <= c < |f.layout| ensures Covers(f, g, f.layout[c], g.layout[c]) {
        forall i | i in g.layout[c].insts ensures i in f.layout[c].insts {
          if c == b {
            WithoutIn(f.layout[b].insts, k, i);
          }
        }
      }
      SamePlacesRanked(f, g, rank);
    }
  }

  lemma WithoutIn(s: seq<Inst>, k: nat, i: Inst)
    requires k < |s| && i in Without(s, k)
    ensures i in s
  {
    assert i in multiset(Without(s, k));
    assert i in multiset(s);
  }

  lemma {:induction false} InsertedRanked(f: Func, g: Func, b: nat, k: nat, rank: Block -> nat)
    requires Inv(f) && Inserted(f, g, b, k) && Ranked(f, rank)
    ensures Ranked(g, rank)
  {
    hide Ranked, BlockRanked, Covers;
    forall c | 0 <= c < |f.layout| ensures Covers(f, g, f.layout[c], g.layout[c]) {
      InsertedCovers(f, g, b, k, c);
    }
    SamePlacesRanked(f, g, rank);
  }

  lemma {:induction false} InsertedCovers(f: Func, g: Func, b: nat, k: nat, c: nat)
    requires Inv(f) && Inserted(f, g, b, k) && c < |f.layout|
    ensures |g.layout| == |f.layout| && Covers(f, g, f.layout[c], g.layout[c])
  {
    hide Once, AliasFree, AllArityOk, TerminatorsOk;
    var s := f.layout[c].insts;
    forall i | i in g.layout[c].insts ensures Data(g.insts, i).dests == [] || (i in s && FewerTargets(f, g, i)) {
      if i in s {
        var j :| 0 <= j < |s| && s[j] == i;
        InFlatten(f.layout, c, j);
        assert Data(g.insts, i) == Data(f.insts, i);
      } else {
        assert c == b && i in Fresh(f.nextInst, g.nextInst);
      }
    }
  }

  // ----- Each mutator -----

  lemma {:induction false} RemoveInstRanked(block: Block, inst: Inst, f: Func, rank: Block -> nat)
    requires Inv(f) && CursorAt(f.layout, block, inst) && Ranked(f, rank)
    ensures var s := MutateRemoveInst(block, inst, f); s.outcome.Mutated? ==> Ranked(s.outcome.func, rank)
  {
    hide Inv, Flatten, NextInstRetPrev, Layouts.RemoveInst, DropIfEmpty, Once, Ranked, DeletedAt;
    var l := f.layout;
    var b: nat, k: nat :| At(l, b, k, inst) && l[b].id == block;
    AdvanceAt(f, b, k);
    InvLayout(f);
    RemoveInstAt(l, b, k);
    DeletedRanked(f, b, k, rank);
  }

  lemma {:induction false} ConstRanked(block: Block, inst: Inst, f: Func, rank: Block -> nat)
    requires Inv(f) && CursorAt(f.layout, block, inst) && Ranked(f, rank)
    ensures var s := MutateReplaceInstWithConst(block, inst, f); s.outcome.Mutated? ==> Ranked(s.outcome.func, rank)
  {
    hide Inv, Flatten, NextInstRetPrev, Once, Ranked, DeletedAt, Inserted, InsertConsts, ReplaceByConsts;
    var b: nat, k: nat :| At(f.layout, b, k, inst) && f.layout[b].id == block;
    AdvanceAt(f, b, k);
    if !AlreadyConst(f, inst) {
      ReplaceByConstsAt(f, b, k);
      var f0 := f.(results := f.results[inst := []]);
      var g := InsertConsts(f0, ResultsOf(f.results, inst), inst);
      InFlatten(f.layout, b, k);
      ClearResultsKeepsInv(f, inst);
      SameRanked(f, f0, rank);
      InsertedRanked(f0, g, b, k, rank);
      InsertedBefore(f0, g, b, k);
      DeletedRanked(g, b, k + g.nextInst - f.nextInst, rank);
    }
  }

  lemma SameRanked(f: Func, g: Func, rank: Block -> nat)
    requires Ranked(f, rank) && g.layout == f.layout && g.insts == f.insts
    ensures Ranked(g, rank)
  {
  }

  lemma {:induction false} TrapRanked(f: Func, inst: Inst, rank: Block -> nat)
    requires Ranked(f, rank)
    ensures Ranked(f.(insts := f.insts[inst := TrapData]), rank)
  {
    SamePlacesRanked(f, f.(insts := f.insts[inst := TrapData]), rank);
  }

  lemma {:induction false} MoveRanked(block: Block, inst: Inst, f: Func, rank: Block -> nat)
    requires Inv(f) && CursorAt(f.layout, block, inst) && Ranked(f, rank)
    ensures var s := MutateMoveInst(block, inst, f); s.outcome.Mutated? ==> Ranked(s.outcome.func, rank)
  {
    hide Inv, Flatten, NextInstRetPrev, Layouts.RemoveInst, InsertInst, Ranked, MovedLayout;
    var l := f.layout;
    var b: nat, k: nat :| At(l, b, k, inst) && l[b].id == block;
    AdvanceAt(f, b, k);
    InvLayout(f);
    if b > 0 && NextPlace(l, b, k).0 == b {
      MovedAt(l, b, k);
      MovedRanked(f, b, k, rank);
    }
  }

  lemma {:induction false} MovedRanked(f: Func, b: nat, k: nat, rank: Block -> nat)
    requires Inv(f) && 0 < b < |f.layout| && k + 1 < |f.layout[b].insts| && Ranked(f, rank)
    ensures f.layout[0].insts != [] && Ranked(f.(layout := MovedLayout(f.layout, b, k)), rank)
  {
    hide Ranked, Flatten, Once, AliasFree, AllArityOk;
    var l := f.layout;
    var g := f.(layout := MovedLayout(l, b, k));
    assert BranchesLast(f.insts, l[b].insts);
    assert Data(f.insts, l[b].insts[k]).dests == [];
    forall c | 0 <= c < |l| ensures Covers(f, g, l[c], g.layout[c]) {
      forall i | i in g.layout[c].insts ensures i in l[c].insts || i == l[b].insts[k] {
        if c == b {
          WithoutIn(l[b].insts, k, i);
        }
      }
    }
    SamePlacesRanked(f, g, rank);
  }

  lemma {:induction false} ParamRanked(block: Block, remaining: nat, f: Func, rank: Block -> nat)
    requires Inv(f) && CursorOk(ReplaceBlockParamWithConst(block, remaining), f) && Ranked(f, rank)
    ensures var s := MutateReplaceParam(block, remaining, f); s.outcome.Mutated? ==> Ranked(s.outcome.func, rank)
  {
    hide Inv, Flatten, ParamByConst, SeekParam, FirstInst, InsertConst, Ranked, Inserted, DropArgs;
    SeekParamAt(f, block, remaining);
    match SeekParam(f, block, remaining)
    case None =>
    case Some((b, r)) =>
      var c :| 0 <= c < |f.layout| && f.layout[c].id == b;
      ReplaceParamAt(f, c, r);
      ParamByConstAt(f, c, r - 1);
      var first := f.layout[c].insts[0];
      var h := InsertConst(f, ParamsOf(f.params, b)[r - 1], first);
      InsertedRanked(f, h, c, 0, rank);
      DropArgsRanked(h, Preds(h, b), b, r - 1, rank);
      var g := ParamByConst(f, b, r - 1, first);
      SameRanked(DropArgs(h, Preds(h, b), b, r - 1), g, rank);
      forall s ensures Ranked(g.(sigParams := s), rank) {
        SameRanked(g, g.(sigParams := s), rank);
      }
      assert g == g.(sigParams := g.sigParams);
  }

  lemma {:induction false} DropArgsRanked(f: Func, preds: seq<Pred>, b: Block, k: nat, rank: Block -> nat)
    requires Ranked(f, rank)
    ensures Ranked(DropArgs(f, preds, b, k), rank)
  {
    hide Ranked;
    var g := DropArgs(f, preds, b, k);
    forall i ensures FewerTargets(f, g, i) {
      DropArgsTargets(f, preds, b, k, i);
    }
    SamePlacesRanked(f, g, rank);
  }

  lemma DropArgsTargets(f: Func, preds: seq<Pred>, b: Block, k: nat, i: Inst)
    ensures FewerTargets(f, DropArgs(f, preds, b, k), i)
  {
    var d, e := Data(f.insts, i), Data(DropArgs(f, preds, b, k).insts, i);
    assert |e.dests| == |d.dests| && forall j :: 0 <= j < |d.dests| ==> e.dests[j].block == d.dests[j].block;
  }

  lemma {:induction false} EntitiesRanked(kind: nat, f: Func, rank: Block -> nat)
    requires Ranked(f, rank)
    ensures var s := MutateEntities(kind, f); s.outcome.Mutated? ==> Ranked(s.outcome.func, rank)
  {
    hide Ranked, Flatten, Renumber, Keep, UsedBy, SignaturesUsed, RenumberInsts;
    if MutateEntities(kind, f).outcome.Mutated? {
      match kind
      case 0 => RenumberedRanked(f, CompactExtFuncs(f), {Call, FuncAddr}, UsedBy(f, {Call, FuncAddr}), |f.extFuncs|, rank);
      case 1 => RenumberedRanked(f, CompactSignatures(f), {CallIndirect}, SignaturesUsed(f), |f.signatures|, rank);
      case 2 => RenumberedRanked(f, CompactStackSlots(f), {StackLoad, StackStore}, UsedBy(f, {StackLoad, StackStore}), |f.stackSlots|, rank);
      case _ => RenumberedRanked(f, CompactGlobals(f), {UnaryGlobalValue}, UsedBy(f, {UnaryGlobalValue}), |f.globals|, rank);
    }
  }

  lemma {:induction false} RenumberedRanked(f: Func, g: Func, formats: set<Format>, used: set<nat>, n: nat, rank: Block -> nat)
    requires Ranked(f, rank) && g.layout == f.layout && g.insts == RenumberInsts(f, formats, used, n)
    ensures Ranked(g, rank)
  {
    hide Ranked, Flatten, RenumberInsts;
    RenumberInstsShape(f, formats, used, n);
    assert forall i :: Data(g.insts, i).dests == Data(f.insts, i).dests;
    SamePlacesRanked(f, g, rank);
  }

  /** The merged block branches to where the block branched, which is higher than the block itself. */
  lemma {:induction false} MergedRanked(f: Func, pi: nat, bi: nat, rank: Block -> nat)
    requires Ranked(f, rank) && pi < |f.layout| && bi < |f.layout| && pi != bi && f.layout[pi].insts != []
    requires Targets(Data(f.insts, f.layout[pi].insts[|f.layout[pi].insts| - 1]), f.layout[bi].id)
    ensures Ranked(f.(layout := MergedAt(f.layout, pi, bi)), rank)
  {
    var l := f.layout;
    var s, t := l[pi].insts, l[bi].insts;
    assert BlockRanked(f.insts, l[pi], rank) && s[|s| - 1] in s;
    assert rank(l[pi].id) < rank(l[bi].id);
    var g := f.(layout := WithInsts(l, pi, s[..|s| - 1] + t));
    assert BlockRanked(f.insts, l[bi], rank);
    forall c | 0 <= c < |l| ensures BlockRanked(f.insts, g.layout[c], rank) {
      if c != pi {
        assert g.layout[c] == l[c];
      } else {
        forall i, u | i in s[..|s| - 1] + t && Targets(Data(f.insts, i), u) ensures rank(l[pi].id) < rank(u) {
          assert i in s || i in t;
        }
      }
    }
    RemovedRanked(g, bi, rank);
  }

  lemma {:induction false} MergeRanked(block: Block, prev: Option<Block>, f: Func, rank: Block -> nat)
    requires Inv(f) && Ranked(f, rank)
    ensures var s := MutateMergeBlocks(block, prev, f); s.outcome.Mutated? ==> Ranked(s.outcome.func, rank)
  {
    hide Inv, Flatten, MergedLayout, AliasParams, Once, AliasFree, Ranked, PredsIn;
    InvLayout(f);
    match NextBlock(f.layout, block)
    case None =>
    case Some(b) =>
      NextBlockAt(f.layout, block);
      var preds := Preds(f, b);
      if |preds| == 1 {
        var l, bi := f.layout, BlockIndex(f.layout, b).value;
        var pi := PredsSound(f.insts, l, b, preds[0]);
        NotOwnPred(f, b, rank);
        MergedLayoutAt(l, pi, bi);
        MergedRanked(f, pi, bi, rank);
        var g := f.(layout := MergedAt(l, pi, bi));
        forall aliases, params ensures Ranked(g.(aliases := aliases, params := params), rank) {
          SameRanked(g, g.(aliases := aliases, params := params), rank);
        }
      }
  }

  /** A block is not its own predecessor, because no branch leads to a block of the same rank. */
  lemma {:induction false} NotOwnPred(f: Func, b: Block, rank: Block -> nat)
    requires Inv(f) && Ranked(f, rank) && |Preds(f, b)| == 1
    ensures Preds(f, b)[0].block != b
  {
    hide Inv, PredsIn;
    var p := Preds(f, b)[0];
    var c := PredsSound(f.insts, f.layout, b, p);
    assert BlockRanked(f.insts, f.layout[c], rank) && p.inst in f.layout[c].insts;
  }

  lemma {:induction false} MutateRanked(m: Mutator, f: Func, rank: Block -> nat)
    requires Inv(f) && CursorOk(m, f) && Ranked(f, rank)
    ensures Mutate(m, f).outcome.Mutated? ==> Ranked(Mutate(m, f).outcome.func, rank)
  {
    hide Inv, Ranked, MutateRemoveInst, MutateReplaceInstWithConst, MutateMoveInst;
    hide MutateReplaceParam, MutateEntities, MutateMergeBlocks;
    match m
    case RemoveInst(b, i) => RemoveInstRanked(b, i, f, rank);
    case ReplaceInstWithConst(b, i) => ConstRanked(b, i, f, rank);
    case ReplaceInstWithTrap(b, i) => TrapRanked(f, i, rank);
    case MoveInstToEntryBlock(b, i) => MoveRanked(b, i, f, rank);
    case RemoveBlock(b) =>
      if NextBlock(f.layout, b).Some? {
        InvLayout(f);
        NextBlockAt(f.layout, b);
        RemovedRanked(f, BlockIndex(f.layout, NextBlock(f.layout, b).value).value, rank);
      }
    case ReplaceBlockParamWithConst(b, r) => ParamRanked(b, r, f, rank);
    case RemoveUnusedEntities(k) => EntitiesRanked(k, f, rank);
    case MergeBlocks(b, p) => MergeRanked(b, p, f, rank);
  }

  // ----- Whole reductions -----

  lemma {:induction false} WholeRanked(f: Func, rank: Block -> nat)
    requires Ranked(f, rank)
    ensures Ranked(ResolveAllAliases(f), rank) && Ranked(f.(srclocs := map[]), rank)
  {
    hide Ranked, Root;
    var g := ResolveAllAliases(f);
    forall i ensures FewerTargets(f, g, i) {
      var d, e := Data(f.insts, i), Data(g.insts, i);
      assert |e.dests| == |d.dests| && forall j :: 0 <= j < |d.dests| ==> e.dests[j].block == d.dests[j].block;
    }
    SamePlacesRanked(f, g, rank);
    SameRanked(f, f.(srclocs := map[]), rank);
  }

  /**
    From a function without loops, no reduction gets into the endless merge: every function on the way is
    without loops by the same ranks, and so is the one that comes out.
   */
  lemma AcyclicKeeps(crash: Func -> bool, f: Func, rank: Block -> nat)
    requires Inv(f) && Ranked(f, rank)
    ensures var r := Reduce(crash, f);
            && (r.Result? ==> Ranked(r.func, rank) && Ranked(r.start, rank))
            && (r.ReduceBroken? ==> r.fault != SelfMerge && Ranked(r.at, rank) && crash(r.at) && Excusable(r.fault, r.at))
  {
    hide Inv, Ranked, Mutate, ResolveAllAliases, Reduce, Excusable;
    ghost var keep := (h: Func) => Ranked(h, rank);
    forall m, h | Inv(h) && CursorOk(m, h) && keep(h) && Mutate(m, h).outcome.Mutated? ensures keep(Mutate(m, h).outcome.func) {
      MutateRanked(m, h, rank);
    }
    forall h | Inv(h) && keep(h) ensures KeptWhole(keep, h) {
      WholeRanked(h, rank);
    }
    ReduceCarries(crash, keep, f);
    var r := Reduce(crash, f);
    if r.ReduceBroken? {
      RankedNotSelfLooped(r.at, rank);
    }
  }

  lemma RankedNotSelfLooped(f: Func, rank: Block -> nat)
    requires Inv(f) && Ranked(f, rank)
    ensures !SelfLooped(f) && !Excusable(SelfMerge, f)
  {
    hide Inv, Ranked, Preds;
    forall b ensures !OwnPred(f, b) {
      if HasSolePred(f, b) {
        NotOwnPred(f, b, rank);
      }
    }
  }
}
