/**
  What the CLIF verifier and reachability rule out: in a function whose blocks can all be reached and in which
  uses of parameters are dominated by their blocks, merging neither loops nor tangles aliases.
 */
module MergeScopes {
  import opened Options
  import opened Layouts
  import opened Clif
  import opened Mutators
  import opened MutatorsKeep
  import opened BlockMutatorsKeep
  import opened Semantics
  import opened MergeSemantics
  import opened MergeSimulation
  import opened Reduction
  import opened ReductionTheorems

  // ----- Reachability and dominance -----

  ghost predicate PathTo(f: Func, path: seq<Block>, c: Block) {
    IsPath(f, path) && path[|path| - 1] == c
  }

  ghost predicate Reachable(f: Func, c: Block) {
    exists path :: PathTo(f, path, c)
  }

  ghost predicate AllReachable(f: Func) {
    forall c :: 0 <= c < |f.layout| ==> Reachable(f, f.layout[c].id)
  }

  /** A use of a parameter is dominated by the block of the parameter. */
  ghost predicate UsesDominated(f: Func) {
    forall b, c, i, v :: UsesParam(f, b, c, i, v) ==> Dominates(f, b, c)
  }

  /** Instruction `i` in block `c` uses, as `v`, a parameter of `b`. */
  ghost predicate UsesParam(f: Func, b: Block, c: Block, i: Inst, v: Value) {
    && BlockIndex(f.layout, b).Some? && i in InstsOf(f.layout, c)
    && Uses(Data(f.insts, i), v) && Root(f.aliases, v) in ParamsOf(f.params, b)
  }

  /** A block whose only predecessor is itself cannot be reached. */
  lemma {:induction false} ReachableNotSelfLooped(f: Func)
    requires Inv(f) && AllReachable(f)
    ensures !SelfLooped(f)
  {
    hide Inv, Preds, IsPath;
    forall b ensures !OwnPred(f, b) {
      if HasSolePred(f, b) {
        var c := BlockIndex(f.layout, b).value;
        assert Reachable(f, f.layout[c].id);
        var path :| PathTo(f, path, b);
        PathEnds(f, path);
        ComesFromElsewhere(f, b, path);
      }
    }
  }

  lemma {:induction false} ComesFromElsewhere(f: Func, b: Block, path: seq<Block>)
    requires Inv(f) && HasSolePred(f, b) && IsPath(f, path) && b in path
    ensures Preds(f, b)[0].block != b
  {
    hide Inv, Preds, IsPath;
    var j := FirstVisit(f, b, path);
    assert path[..j][j - 1] == path[j - 1] && path[..j][j - 1] in path[..j];
  }

  lemma PathEnds(f: Func, path: seq<Block>)
    requires IsPath(f, path)
    ensures path != [] && path[|path| - 1] in path
  {
  }

  lemma {:induction false} DominatedNotTangled(f: Func)
    requires Inv(f) && AllReachable(f) && UsesDominated(f)
    ensures !Tangled(f)
  {
    hide Inv, Preds, IsPath, Root, UsesDominated, AllReachable, Uses;
    forall b ensures !TangledAt(f, b) {
      if HasSolePred(f, b) && |Data(f.insts, Preds(f, b)[0].inst).dests| == 1 {
        var ps, args := ParamsOf(f.params, b), Data(f.insts, Preds(f, b)[0].inst).dests[0].args;
        forall k: nat | k < |args| && args[k].ValueArg? ensures Root(f.aliases, args[k].value) !in ps {
          ArgOutOfScope(f, b, args[k].value);
        }
        forall knot ensures !Knot(f.aliases, ps, args, knot) {
          if Knot(f.aliases, ps, args, knot) {
            var k := KnotNames(f.aliases, ps, args, knot);
          }
        }
      }
    }
  }

  /** What the only predecessor of a block passes to it is not a parameter of the block. */
  lemma {:induction false} ArgOutOfScope(f: Func, b: Block, v: Value)
    requires Inv(f) && AllReachable(f) && UsesDominated(f) && HasSolePred(f, b)
    requires |Data(f.insts, Preds(f, b)[0].inst).dests| == 1 && ValueArg(v) in Data(f.insts, Preds(f, b)[0].inst).dests[0].args
    ensures Root(f.aliases, v) !in ParamsOf(f.params, b)
  {
    hide Inv, Preds, IsPath, Root, InstsOf;
    PredLaidOut(f, b);
    var pred := Preds(f, b)[0];
    PredInst(f, b);
    assert Uses(Data(f.insts, pred.inst), v);
    var c := BlockIndex(f.layout, pred.block).value;
    assert Reachable(f, f.layout[c].id);
    var path :| PathTo(f, path, pred.block);
    var q := PathToPred(f, b, path);
    assert !Dominates(f, b, pred.block);
    assert !UsesParam(f, b, pred.block, pred.inst, v);
  }

  lemma PredLaidOut(f: Func, b: Block)
    requires Inv(f) && HasSolePred(f, b)
    ensures BlockIndex(f.layout, Preds(f, b)[0].block).Some?
  {
    hide PredsIn, BlockIndex, Flatten, Once, AliasFree, AllArityOk;
    var c := PredsSound(f.insts, f.layout, b, Preds(f, b)[0]);
    BlockIndexAt(f.layout, c);
  }

  /** An oracle that accepts only such functions never breaks a reduction. */
  lemma WellScopedNeverBreaks(crash: Func -> bool, f: Func)
    requires Inv(f) && forall h :: crash(h) ==> EntryMatches(h) && AllReachable(h) && UsesDominated(h)
    ensures !Reduce(crash, f).ReduceBroken?
  {
    hide Inv, Reduce, Tangled, SelfLooped, AllReachable, UsesDominated, EntryMatches;
    ReduceKeeps(crash, f);
    var r := Reduce(crash, f);
    if r.ReduceBroken? {
      ReachableNotSelfLooped(r.at);
      DominatedNotTangled(r.at);
    }
  }

  // ----- Branches that are not jumps -----

  const Attempt := InstData(TryCall, OtherOp(4), [], [BlockCall(1, [])], 0)
  const Leave := InstData(PlainFormat, Return, [], [], 0)

  /** `block0: try_call fn0(), block1` with no handlers, and `block1: return`. */
  const Calls := Func([LBlock(0, [0]), LBlock(1, [1])], map[0 := Attempt, 1 := Leave], map[], map[], map[], map[],
                      [], [ExtFunc(0, 0)], [0], [], [], map[], 2, 0)

  /** The same without the call. */
  const Silent := Calls.(layout := [LBlock(0, [1])], params := map[1 := []])

  /** The world counts calls. */
  function Counting(i: Inst, args: seq<int>, calls: int): Effect<int> {
    if i == 0 then Branch(0, [], calls + 1) else Stop([], calls)
  }

  lemma CallsFlat()
    ensures WfLayout(Calls.layout) && Flatten(Calls.layout) == [0, 1]
  {
    var l := Calls.layout;
    assert l[1..] == [LBlock(1, [1])] && l[1..][1..] == [];
    assert Flatten(l[1..]) == [1] + Flatten([]);
    var all: seq<Inst> := [0, 1];
    assert Flatten(l) == [0] + ([1] + []) == all;
    assert multiset(all) == multiset{0, 1};
    hide Flatten;
  }

  lemma CallsLayout()
    ensures forall c :: InstsOf(Calls.layout, c) == if c == 0 then [0] else if c == 1 then [1] else []
    ensures BlockIndex(Calls.layout, 0) == Some(0) && BlockIndex(Calls.layout, 1) == Some(1)
  {
    var l := Calls.layout;
    hide BlockIndex;
    assert DistinctIds(l);
    BlockIndexAt(l, 0);
    BlockIndexAt(l, 1);
    forall c ensures InstsOf(l, c) == if c == 0 then [0] else if c == 1 then [1] else [] {
      if c > 1 {
        assert BlockIndex(l, c).None?;
      }
    }
  }

  lemma CallsInv()
    ensures Inv(Calls)
  {
    CallsFlat();
    hide WfLayout, Flatten;
    var l := Calls.layout;
    assert l[1..] == [LBlock(1, [1])] && l[1..][1..] == [];
    assert ParamsIn(Calls.params, []) == [];
    assert ParamsIn(Calls.params, l[1..]) == [] + ParamsIn(Calls.params, []);
    assert AllParams(Calls) == [] + ParamsIn(Calls.params, l[1..]);
    assert AllParams(Calls) == [];
    assert BranchesLast(Calls.insts, [0]) && BranchesLast(Calls.insts, [1]);
  }

  lemma CallsTerminated()
    ensures Terminated(Calls) && Terminated(Silent)
  {
    assert EndsOnce(Calls.insts, [0]) && EndsOnce(Calls.insts, [1]);
    hide EndsOnce;
  }

  lemma CallsPreds()
    ensures Preds(Calls, 1) == [Pred(0, 0)]
  {
    var l := Calls.layout;
    assert l[1..] == [LBlock(1, [1])] && l[1..][1..] == [];
    assert Attempt.dests[0].block == 1 && Targets(Attempt, 1) && !Targets(Leave, 1);
    assert PredsIn(Calls.insts, l[1..], 1) == [] + [];
    assert Preds(Calls, 1) == [Pred(0, 0)] + [];
  }

  /** All that merging asks for holds, except that the branch is a plain jump. */
  lemma CallsMergeable()
    ensures MergeableBranch(Calls, 1) && !Mergeable(Calls, 1)
  {
    hide Calls, Inv, Preds, InstsOf, BlockIndex, Dominates, Uses, Defines;
    CallsInv();
    CallsPreds();
    CallsLayout();
    CallsData();
  }

  lemma CallsMerge()
    ensures MutateMergeBlocks(0, None, Calls).outcome == Mutated(Silent, ExpandedOrShrinked)
  {
    CallsLayout();
    CallsPreds();
    CallsData();
    MergedCalls();
    hide Preds, WfLayout, Flatten, InstsOf, BlockIndex, MergedLayout, AliasParams, Layouts.RemoveInst;
    assert NextBlock(Calls.layout, 0) == Some(1);
  }

  lemma CallsData()
    ensures Data(Calls.insts, 0) == Attempt && ParamsOf(Calls.params, 1) == [] && AliasParams(Calls.aliases, [], []) == Ok(Calls.aliases)
  {
  }

  lemma MergedCalls()
    ensures MergedLayout(Calls.layout, Pred(0, 0), 1) == [LBlock(0, [1])]
  {
    CallsFlat();
    hide WfLayout, Flatten, InstsOf, BlockIndex;
    var l := Calls.layout;
    MergedLayoutAt(l, 0, 1);
    assert l[0].insts[..0] + l[1].insts == [1];
    var m := WithInsts(l, 0, [1]);
    assert m[..1] + m[2..] == [LBlock(0, [1])];
  }

  lemma CallsRun(w: int)
    ensures Run(Calls, Counting, 0, [], map[], w, 2) == Some(Returned([], w + 1))
  {
    CallsLayout();
    hide WfLayout, Flatten, InstsOf, BlockIndex;
    assert Bind(map[], [], []) == map[];
    assert RunInsts(Calls, Counting, [1], map[], w + 1) == Halt([], w + 1);
    assert RunBlock(Calls, Counting, 1, [], map[], w + 1) == Halt([], w + 1);
    assert Run(Calls, Counting, 1, [], map[], w + 1, 1) == Some(Returned([], w + 1));
    assert ReadArgs(Calls, map[], [], []) == [];
    assert RunInsts(Calls, Counting, [0], map[], w) == Goto(1, [], map[], w + 1);
    assert RunBlock(Calls, Counting, 0, [], map[], w) == Goto(1, [], map[], w + 1);
  }

  lemma SilentRun(w: int)
    ensures Run(Silent, Counting, 0, [], map[], w, 1) == Some(Returned([], w))
  {
    assert InstsOf(Silent.layout, 0) == [1];
    assert Bind(map[], [], []) == map[];
    assert RunInsts(Silent, Counting, [1], map[], w) == Halt([], w);
    assert RunBlock(Silent, Counting, 0, [], map[], w) == Halt([], w);
  }

  /**
    A `try_call` without handlers has one destination and is merged like a jump, and the call is gone: the
    original always makes one call, what the mutator returns makes none.
   */
  lemma TryCallIsMergedAway()
    ensures Terminated(Calls) && Terminated(Silent)
    ensures MergeableBranch(Calls, 1) && !Mergeable(Calls, 1)
    ensures MutateMergeBlocks(0, None, Calls).outcome == Mutated(Silent, ExpandedOrShrinked)
    ensures Produces(Calls, Counting, [], 0, Returned([], 1)) && !Produces(Calls, Counting, [], 0, Returned([], 0))
    ensures Produces(Silent, Counting, [], 0, Returned([], 0))
  {
    CallsTerminated();
    CallsMergeable();
    CallsMerge();
    CallsRun(0);
    SilentRun(0);
    hide Terminated, Run, MergeableBranch, MutateMergeBlocks;
    assert Calls.layout[0].id == 0 && Silent.layout[0].id == 0;
    forall n: nat ensures Run(Calls, Counting, 0, [], map[], 0, n) != Some(Returned([], 0)) {
      if Run(Calls, Counting, 0, [], map[], 0, n).Some? {
        OneOutcome(n);
      }
    }
  }

  lemma OneOutcome(n: nat)
    requires Run(Calls, Counting, 0, [], map[], 0, n).Some?
    ensures Run(Calls, Counting, 0, [], map[], 0, n) == Some(Returned([], 1))
  {
    CallsRun(0);
    hide Run;
    if n <= 2 {
      MoreFuel(Calls, Counting, 0, [], map[], 0, n, 2);
    } else {
      MoreFuel(Calls, Counting, 0, [], map[], 0, 2, n);
    }
  }
}
