/**
  How the merger walks: what it does at each block, where it goes on when the merge is kept and when it is thrown away,
  and that one phase merges a whole chain of jumps into one block.
 */
module MergeWalk {
  import opened Options
  import opened Layouts
  import opened Clif
  import opened Mutators
  import opened MutatorsKeep
  import opened BlockMutatorsKeep
  import opened Reduction

  // ----- One block -----

  /** `b` has one predecessor, which branches to it alone. */
  ghost predicate OneWayIn(f: Func, b: Block) {
    HasSolePred(f, b) && |Data(f.insts, Preds(f, b)[0].inst).dests| == 1
  }

  /** The block before the one at `bi` in a merge, and where it is. */
  ghost predicate PredAt(f: Func, bi: nat, pi: nat) {
    && bi < |f.layout| && pi < |f.layout| && |Preds(f, f.layout[bi].id)| == 1 && f.layout[pi].insts != []
    && Preds(f, f.layout[bi].id)[0] == Pred(f.layout[pi].id, f.layout[pi].insts[|f.layout[pi].insts| - 1])
  }

  lemma {:induction false} PredIndex(f: Func, bi: nat) returns (pi: nat)
    requires Inv(f) && bi < |f.layout| && |Preds(f, f.layout[bi].id)| == 1
    ensures PredAt(f, bi, pi)
  {
    hide Inv, PredsIn;
    pi := PredsSound(f.insts, f.layout, f.layout[bi].id, Preds(f, f.layout[bi].id)[0]);
  }

  /**
    At the block with index `c` the merger looks at the one after it.  It passes by one with more than one way in, and
    fails on parameters in a circle and on a block that is its own predecessor and has more than its branch; any other
    it merges, and the predecessor has its instructions then in place of the branch.
   */
  lemma {:induction false} MergeExactly(c: nat, prev: Option<Block>, f: Func) returns (pi: nat)
    requires Inv(f) && c < |f.layout|
    ensures var s := MutateMergeBlocks(f.layout[c].id, prev, f);
            if c + 1 == |f.layout| then s.outcome == Done
            else
              var b := f.layout[c + 1].id;
              && s.next.MergeBlocks? && s.next.block == b
              && if !OneWayIn(f, b) then s == Step(MergeBlocks(b, prev), Mutated(f, Skip))
                 else if TangledAt(f, b) then s.outcome == Faulted(AliasLoop)
                 else if OwnPred(f, b) then s.outcome == Faulted(SelfMerge)
                 else
                   && PredAt(f, c + 1, pi) && s.next == MergeBlocks(b, Some(f.layout[pi].id))
                   && s.outcome.Mutated? && s.outcome.status == ExpandedOrShrinked
                   && var g := s.outcome.func;
                      && g == f.(aliases := g.aliases, params := f.params[b := []], layout := g.layout)
                      && |ParamsOf(f.params, b)| == |Data(f.insts, Preds(f, b)[0].inst).dests[0].args|
                      && AliasParams(f.aliases, ParamsOf(f.params, b), Data(f.insts, Preds(f, b)[0].inst).dests[0].args) == Ok(g.aliases)
                      && g.layout == if pi == c + 1 then f.layout[..c + 1] + f.layout[c + 2..] else MergedAt(f.layout, pi, c + 1)
  {
    hide Inv, Flatten, MergedLayout, Preds, AliasParams, Once, AliasFree, BlockIndex, MergedAt, Knot;
    InvLayout(f);
    BlockIndexAt(f.layout, c);
    pi := 0;
    if c + 1 < |f.layout| {
      var b := f.layout[c + 1].id;
      BlockIndexAt(f.layout, c + 1);
      if OneWayIn(f, b) {
        MergeStep(f, b);
        pi := PredIndex(f, c + 1);
        if Preds(f, b)[0].block == b {
          MoreThanBranch(f, b);
        }
        if !OwnPred(f, b) {
          MergedThere(f, c + 1, pi);
        }
      }
    }
  }

  /** Where the instructions go. */
  lemma {:induction false} MergedThere(f: Func, bi: nat, pi: nat)
    requires Inv(f) && 0 < bi < |f.layout| && PredAt(f, bi, pi) && !OwnPred(f, f.layout[bi].id)
    ensures MergedLayout(f.layout, Preds(f, f.layout[bi].id)[0], f.layout[bi].id) ==
            if pi == bi then f.layout[..bi] + f.layout[bi + 1..] else MergedAt(f.layout, pi, bi)
  {
    hide Inv, Flatten, MergedLayout, Preds, Once, AliasFree, BlockIndex, MergedAt;
    InvLayout(f);
    if pi == bi {
      AloneThere(f, bi);
      SelfMergedLayout(f.layout, bi);
    } else {
      MergedLayoutAt(f.layout, pi, bi);
    }
  }

  lemma AloneThere(f: Func, bi: nat)
    requires Inv(f) && 0 < bi < |f.layout| && PredAt(f, bi, bi) && !OwnPred(f, f.layout[bi].id)
    ensures |f.layout[bi].insts| == 1
  {
    hide Flatten, Once, PredsIn, BlockIndex, AllArityOk, TerminatorsOk, AliasFree;
    InvLayout(f);
    BlockIndexAt(f.layout, bi);
  }

  lemma SamePlace(f: Func, bi: nat, pi: nat)
    requires Inv(f) && bi < |f.layout| && pi < |f.layout|
    ensures f.layout[pi].id == f.layout[bi].id <==> pi == bi
  {
    hide Flatten, Once, AllArityOk, TerminatorsOk, AliasFree, ParamsIn;
  }

  // ----- Where it goes on -----

  /** The merger is on a block of the function. */
  ghost predicate OnBlock(m: Mutator, f: Func) {
    m.MergeBlocks? && BlockIndex(f.layout, m.block).Some?
  }

  /** The block after the one at `pi` once the one at `bi` is gone. */
  function NextWithout(l: Layout, pi: nat, bi: nat): Option<Block> {
    var k := if pi + 1 == bi then pi + 2 else pi + 1;
    if k < |l| then Some(l[k].id) else None
  }

  lemma {:induction false} MergedNext(l: Layout, pi: nat, bi: nat)
    requires NoEmptyBlock(l) && DistinctIds(l) && pi < |l| && bi < |l| && pi != bi
    ensures var m := MergedAt(l, pi, bi); BlockIndex(m, l[pi].id).Some? && NextBlock(m, l[pi].id) == NextWithout(l, pi, bi)
  {
    hide BlockIndex;
    var m := MergedAt(l, pi, bi);
    MergedAtBlocks(l, pi, bi);
    var k := if pi < bi then pi else pi - 1;
    assert m[k].id == l[pi].id;
    BlockIndexAt(m, k);
  }

  /**
    Of two different blocks: if the merge is thrown away the merger is on the block it looked at, and if it is kept on
    the one that this was merged into, and looks at the block that follows it then.
   */
  lemma {:induction false} MergerMoves(c: nat, prev: Option<Block>, f: Func) returns (pi: nat)
    requires Inv(f) && c < |f.layout|
    ensures var s := MutateMergeBlocks(f.layout[c].id, prev, f);
            s.outcome.Mutated? ==>
              && OnBlock(s.next, f) && c + 1 < |f.layout| && s.next.block == f.layout[c + 1].id
              && (s.outcome.status != Skip ==>
                    && PredAt(f, c + 1, pi)
                    && (pi != c + 1 ==>
                          && DidCrash(s.next).Ok? && OnBlock(DidCrash(s.next).value, s.outcome.func)
                          && DidCrash(s.next).value.block == f.layout[pi].id
                          && NextBlock(s.outcome.func.layout, f.layout[pi].id) == NextWithout(f.layout, pi, c + 1)))
  {
    hide Inv, Flatten, Once, MutateMergeBlocks, MergedAt, Preds, BlockIndex, TangledAt, NextBlock;
    pi := MergeExactly(c, prev, f);
    if MutateMergeBlocks(f.layout[c].id, prev, f).outcome.Mutated? {
      InvLayout(f);
      BlockIndexAt(f.layout, c + 1);
      if pi != c + 1 && MutateMergeBlocks(f.layout[c].id, prev, f).outcome.status != Skip {
        MergedNext(f.layout, pi, c + 1);
      }
    }
  }

  // ----- Chains -----

  function LastData(f: Func, k: nat): InstData
    requires k < |f.layout|
  {
    var s := f.layout[k].insts;
    if s == [] then Nop else Data(f.insts, s[|s| - 1])
  }

  /** Each block but the last branches to the next one alone, and the last to none but the first. */
  ghost predicate Chain(f: Func) {
    && f.layout != []
    && (forall k :: 0 <= k < |f.layout| - 1 ==> |LastData(f, k).dests| == 1 && LastData(f, k).dests[0].block == f.layout[k + 1].id)
    && (forall k :: 0 < k < |f.layout| ==> !Targets(LastData(f, |f.layout| - 1), f.layout[k].id))
  }

  /** The instructions of all blocks without the branches between them. */
  function Joined(l: Layout): seq<Inst> {
    if |l| <= 1 then Flatten(l)
    else (if l[0].insts == [] then [] else l[0].insts[..|l[0].insts| - 1]) + Joined(l[1..])
  }

  lemma {:induction false} NoPredsFrom(f: Func, b: Block, from: nat)
    requires from <= |f.layout|
    requires forall k :: from <= k < |f.layout| ==> !Targets(LastData(f, k), b)
    ensures PredsIn(f.insts, f.layout[from..], b) == []
    decreases |f.layout| - from
  {
    var l := f.layout[from..];
    if l != [] {
      assert l[1..] == f.layout[from + 1..] && l[0] == f.layout[from];
      assert !Targets(LastData(f, from), b);
      NoPredsFrom(f, b, from + 1);
    }
  }

  /** In a chain the second block has one way in, from the first. */
  lemma {:induction false} SecondHasOneWayIn(f: Func)
    requires Inv(f) && Chain(f) && |f.layout| > 1
    ensures f.layout[0].insts != []
    ensures Preds(f, f.layout[1].id) == [Pred(f.layout[0].id, f.layout[0].insts[|f.layout[0].insts| - 1])]
    ensures OneWayIn(f, f.layout[1].id)
  {
    hide Flatten, Once, AllArityOk, TerminatorsOk, AliasFree, ParamsIn, BlockIndex;
    var b := f.layout[1].id;
    InvLayout(f);
    BlockIndexAt(f.layout, 1);
    forall k | 1 <= k < |f.layout| ensures !Targets(LastData(f, k), b) {
      if k < |f.layout| - 1 {
        assert f.layout[k + 1].id != b;
      }
    }
    NoPredsFrom(f, b, 1);
    assert LastData(f, 0).dests[0].block == b;
    assert Targets(LastData(f, 0), b);
  }

  lemma {:induction false} MergedChain(f: Func, g: Func)
    requires Inv(f) && Chain(f) && |f.layout| > 1 && f.layout[0].insts != []
    requires g == f.(aliases := g.aliases, params := g.params, layout := MergedAt(f.layout, 0, 1))
    ensures |g.layout| == |f.layout| - 1 && g.layout[0].id == f.layout[0].id && Chain(g) && Joined(g.layout) == Joined(f.layout)
  {
    hide Inv, Joined;
    var l, m := f.layout, g.layout;
    InvLayout(f);
    assert |m| == |l| - 1 && m[0] == LBlock(l[0].id, l[0].insts[..|l[0].insts| - 1] + l[1].insts);
    assert forall k :: 1 <= k < |m| ==> m[k] == l[k + 1];
    assert l[1].insts != [];
    forall k | 0 <= k < |m| ensures LastData(g, k) == LastData(f, k + 1) {
    }
    MergedJoined(l, m);
  }

  lemma {:induction false} MergedJoined(l: Layout, m: Layout)
    requires |l| > 1 && l[0].insts != [] && l[1].insts != []
    requires m == [LBlock(l[0].id, l[0].insts[..|l[0].insts| - 1] + l[1].insts)] + l[2..]
    ensures Joined(m) == Joined(l)
  {
    hide Flatten;
    var s, t := l[0].insts[..|l[0].insts| - 1], l[1].insts;
    assert m[1..] == l[2..] && l[1..][1..] == l[2..];
    if |l| == 2 {
      assert l[1..] == [l[1]] && l[2..] == [];
      FlattenOne(l[1]);
      FlattenOne(m[0]);
      assert m == [m[0]];
    } else {
      var rest := Joined(l[2..]);
      assert Joined(l) == s + (t[..|t| - 1] + rest);
      assert (s + t)[..|s + t| - 1] == s + t[..|t| - 1];
      assert Joined(m) == s + t[..|t| - 1] + rest;
    }
  }

  lemma FlattenOne(b: LBlock)
    ensures Flatten([b]) == b.insts
  {
    assert [b][1..] == [];
  }

  /** It keeps every merge. */
  ghost predicate KeepsMerges(crash: Func -> bool) {
    forall f, b, p :: MutateMergeBlocks(b, p, f).outcome.Mutated? ==> crash(MutateMergeBlocks(b, p, f).outcome.func)
  }

  ghost predicate OnlyEntryParams(f: Func) {
    forall k :: 0 < k < |f.layout| ==> ParamsOf(f.params, f.layout[k].id) == []
  }

  lemma {:induction false} FirstMerge(f: Func, prev: Option<Block>) returns (g: Func)
    requires Inv(f) && Chain(f) && |f.layout| > 1
    ensures var s := MutateMergeBlocks(f.layout[0].id, prev, f);
            || s.outcome == Faulted(AliasLoop)
            || (&& s == Step(MergeBlocks(f.layout[1].id, Some(f.layout[0].id)), Mutated(g, ExpandedOrShrinked))
                && Inv(g) && Chain(g) && |g.layout| == |f.layout| - 1 && g.layout[0].id == f.layout[0].id
                && Joined(g.layout) == Joined(f.layout) && (OnlyEntryParams(f) ==> OnlyEntryParams(g)))
    ensures OnlyEntryParams(f) ==> MutateMergeBlocks(f.layout[0].id, prev, f).outcome.Mutated?
  {
    hide Inv, Flatten, Once, MutateMergeBlocks, MergedAt, Preds, BlockIndex, Chain, Joined, GoodStep;
    SecondHasOneWayIn(f);
    var pi := MergeExactly(0, prev, f);
    var s := MutateMergeBlocks(f.layout[0].id, prev, f);
    g := if s.outcome.Mutated? then s.outcome.func else f;
    SamePlace(f, 0, 1);
    NotTangledWithout(f, f.layout[1].id);
    if s.outcome.Mutated? {
      SamePlace(f, 0, pi);
      KeptByMerge(f, prev);
      MergedChain(f, g);
      MergedFirst(f, g);
    }
  }

  lemma KeptByMerge(f: Func, prev: Option<Block>)
    requires Inv(f) && f.layout != []
    ensures var s := MutateMergeBlocks(f.layout[0].id, prev, f); s.outcome.Mutated? ==> Inv(s.outcome.func)
  {
    hide Inv, MutateMergeBlocks;
    KeepsMergeBlocks(f.layout[0].id, prev, f);
  }

  lemma NotTangledWithout(f: Func, b: Block)
    ensures ParamsOf(f.params, b) == [] ==> !TangledAt(f, b)
  {
    hide Preds;
    if ParamsOf(f.params, b) == [] {
      forall args, knot ensures !Knot(f.aliases, ParamsOf(f.params, b), args, knot) {
        NoKnot(f.aliases, ParamsOf(f.params, b), args, knot);
      }
    }
  }

  lemma MergedFirst(f: Func, g: Func)
    requires |f.layout| > 1 && f.layout[0].insts != [] && f.layout[0].id != f.layout[1].id
    requires g == f.(aliases := g.aliases, params := f.params[f.layout[1].id := []], layout := MergedAt(f.layout, 0, 1))
    ensures OnlyEntryParams(f) ==> OnlyEntryParams(g)
  {
    forall k | 0 < k < |g.layout| ensures g.layout[k] == f.layout[k + 1] {
    }
  }

  /**
    A phase of merging, with an oracle that keeps all merges and enough tries, makes one block of a chain, with all
    instructions in order but the branches in between; only a loop of aliases, which needs parameters, can stop it.
   */
  lemma {:induction false} ChainMerges(crash: Func -> bool, f: Func, prev: Option<Block>, tries: nat)
    requires Inv(f) && Chain(f) && KeepsMerges(crash) && |f.layout| <= tries
    ensures var r := RunPhase(crash, MergeBlocks(f.layout[0].id, prev), f, tries);
            && (r.PhaseEnd? ==> r.func.layout == [LBlock(f.layout[0].id, Joined(f.layout))] && (r.shrank <==> |f.layout| > 1))
            && (r.PhaseBroken? ==> r.fault == AliasLoop)
            && (OnlyEntryParams(f) ==> r.PhaseEnd?)
    decreases tries
  {
    hide Inv, Flatten, Once, MutateMergeBlocks, MergedAt, Preds, BlockIndex, Chain, Joined, OnlyEntryParams, KeepsMerges;
    assert f.layout != [] by {
      InvLayout(f);
    }
    var m := MergeBlocks(f.layout[0].id, prev);
    if |f.layout| == 1 {
      var _ := MergeExactly(0, prev, f);
      assert Mutate(m, f).outcome == Done;
      JoinedOne(f.layout);
    } else {
      var g := FirstMerge(f, prev);
      var s := MutateMergeBlocks(f.layout[0].id, prev, f);
      assert Mutate(m, f) == s;
      if s.outcome.Mutated? {
        assert crash(g) by {
          KeptMerge(crash, f, prev);
        }
        ChainMerges(crash, g, Some(f.layout[0].id), tries - 1);
      }
    }
  }

  lemma KeptMerge(crash: Func -> bool, f: Func, prev: Option<Block>)
    requires KeepsMerges(crash) && f.layout != [] && MutateMergeBlocks(f.layout[0].id, prev, f).outcome.Mutated?
    ensures crash(MutateMergeBlocks(f.layout[0].id, prev, f).outcome.func)
  {
    hide MutateMergeBlocks;
  }

  lemma JoinedOne(l: Layout)
    requires |l| == 1
    ensures l == [LBlock(l[0].id, Joined(l))]
  {
    assert l == [l[0]];
    FlattenOne(l[0]);
  }

  /** The last phase of a pass does so from the entry block, for up to 10000 blocks. */
  lemma {:induction false} MergePhase(crash: Func -> bool, f: Func)
    requires Inv(f) && Chain(f) && KeepsMerges(crash) && OnlyEntryParams(f) && |f.layout| <= MaxTries
    ensures NewMutator(7, f).Ok?
    ensures var r := RunPhase(crash, NewMutator(7, f).value, f, MaxTries);
            r.PhaseEnd? && r.func.layout == [LBlock(f.layout[0].id, Joined(f.layout))]
  {
    hide RunPhase, Joined, Inv, Chain, KeepsMerges;
    assert f.layout != [] by {
      InvLayout(f);
    }
    ChainMerges(crash, f, None, MaxTries);
  }
}
