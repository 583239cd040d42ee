/**
  A block that is its own only predecessor.  Merging it moves its instructions behind themselves for ever,
  unless it consists of nothing but the branch.
 */
module SelfMerging {
  import opened Options
  import opened Bits
  import opened Layouts
  import opened Clif
  import opened Mutators
  import opened Invariants
  import opened MutatorsKeep
  import opened BlockMutatorsKeep

  // ----- The loop -----

  /** One round: the first instruction is taken out and put at the end of the same block. */
  function Round(l: Layout, b: Block): Layout {
    match FirstInst(l, b)
    case None => l
    case Some(i) => AppendInst(Layouts.RemoveInst(l, i), i, b)
  }

  function Rounds(l: Layout, b: Block, n: nat): Layout {
    if n == 0 then l else Round(Rounds(l, b, n - 1), b)
  }

  function Rotated(s: seq<Inst>, n: nat): seq<Inst>
    requires s != []
  {
    s[n % |s|..] + s[..n % |s|]
  }

  lemma RotatedNext(s: seq<Inst>, n: nat)
    requires s != []
    ensures var r := Rotated(s, n); |r| == |s| && multiset(r) == multiset(s) && Rotated(s, n + 1) == r[1..] + [r[0]]
  {
    var j := n % |s|;
    assert s == s[..j] + s[j..];
    NextMod(n, |s|);
    if j + 1 == |s| {
      assert s[j..] == [s[j]] && s == s[..j] + [s[j]];
    } else {
      assert s[..j + 1] == s[..j] + [s[j]];
    }
  }

  lemma NextMod(n: nat, m: nat)
    requires m > 0
    ensures (n + 1) % m == if n % m + 1 == m then 0 else n % m + 1
  {
    var q, r := n / m, n % m;
    assert n == q * m + r;
    if r + 1 == m {
      assert n + 1 == (q + 1) * m;
      DivModUnique(n + 1, m, q + 1, 0);
    } else {
      DivModUnique(n + 1, m, q, r + 1);
    }
  }

  lemma {:induction false} RoundRotates(l: Layout, k: nat)
    requires DistinctIds(l) && Once(Flatten(l)) && k < |l| && l[k].insts != []
    ensures var s := l[k].insts; Round(l, l[k].id) == WithInsts(l, k, s[1..] + [s[0]])
  {
    hide Flatten, Once, BlockIndex, Locate;
    var s, b := l[k].insts, l[k].id;
    LocateAt(l, k, 0);
    BlockIndexAt(l, k);
    assert Without(s, 0) == s[1..];
    var m := WithInsts(l, k, s[1..]);
    BlockIndexAt(m, k);
    assert WithInsts(m, k, s[1..] + [s[0]]) == WithInsts(l, k, s[1..] + [s[0]]);
  }

  /** After any number of rounds the block is its instructions, rotated; the loop never finds it empty. */
  lemma {:induction false} RoundsRotate(l: Layout, k: nat, n: nat)
    requires DistinctIds(l) && Once(Flatten(l)) && k < |l| && l[k].insts != []
    ensures Rounds(l, l[k].id, n) == WithInsts(l, k, Rotated(l[k].insts, n))
    ensures FirstInst(Rounds(l, l[k].id, n), l[k].id).Some?
  {
    hide Flatten, Once, BlockIndex, Round, Rotated;
    var s, b := l[k].insts, l[k].id;
    if n == 0 {
      RotatedNone(s);
      assert WithInsts(l, k, s) == l;
    } else {
      RoundsRotate(l, k, n - 1);
      var m := Rounds(l, b, n - 1);
      RotatedNext(s, n - 1);
      SameOnce(l, k, Rotated(s, n - 1));
      RoundRotates(m, k);
      RotatedNext(s, n);
      var r := Rotated(s, n);
      assert WithInsts(m, k, r) == WithInsts(l, k, r);
    }
    RotatedNext(s, n);
    BlockIndexAt(Rounds(l, b, n), k);
  }

  lemma RotatedNone(s: seq<Inst>)
    requires s != []
    ensures Rotated(s, 0) == s
  {
    assert s[0..] + s[..0] == s;
  }

  lemma SameOnce(l: Layout, k: nat, s: seq<Inst>)
    requires Once(Flatten(l)) && k < |l| && multiset(s) == multiset(l[k].insts)
    ensures Once(Flatten(WithInsts(l, k, s)))
  {
    hide Flatten;
    FlattenWithInsts(l, k, s);
    FlattenSplit(l, k);
    assert multiset(Flatten(WithInsts(l, k, s))) == multiset(Flatten(l));
  }

  // ----- When it happens -----

  /**
    Merging gets into that loop exactly if the next block is its own only predecessor, along its only
    destination, has more than the branch, and does not pass itself its own parameters in a circle.
   */
  lemma {:induction false} SelfMergeIff(block: Block, prev: Option<Block>, f: Func)
    requires Inv(f)
    ensures MutateMergeBlocks(block, prev, f).outcome == Faulted(SelfMerge) <==>
            NextBlock(f.layout, block).Some? &&
            var b := NextBlock(f.layout, block).value;
            OwnPred(f, b) && |Data(f.insts, Preds(f, b)[0].inst).dests| == 1 && !TangledAt(f, b)
  {
    hide Inv, Flatten, MergedLayout, Preds, AliasParams, Once, AliasFree;
    InvLayout(f);
    match NextBlock(f.layout, block)
    case None =>
    case Some(b) =>
      NextBlockAt(f.layout, block);
      var preds := Preds(f, b);
      if |preds| == 1 && |Data(f.insts, preds[0].inst).dests| == 1 {
        MergeStep(f, b);
        if preds[0].block == b {
          MoreThanBranch(f, b);
        }
      }
  }

  /** And then the loop is that of `Rounds`, from a block that is not empty. */
  lemma {:induction false} SelfMergeLoops(f: Func, b: Block, n: nat)
    requires Inv(f) && OwnPred(f, b)
    ensures var l := Layouts.RemoveInst(f.layout, Preds(f, b)[0].inst); FirstInst(Rounds(l, b, n), b).Some?
  {
    hide Flatten, Once, BlockIndex, Layouts.RemoveInst, PredsIn, AllArityOk, AliasFree, TerminatorsOk, Rounds;
    var l, pred := f.layout, Preds(f, b)[0];
    var k := PredsSound(f.insts, l, b, pred);
    BlockIndexAt(l, k);
    var s := l[k].insts;
    RemoveInstAt(l, k, |s| - 1);
    var left := Without(s, |s| - 1);
    WithInstsIds(l, k, left);
    LostOnce(l, k, |s| - 1);
    RoundsRotate(WithInsts(l, k, left), k, n);
  }

  lemma LostOnce(l: Layout, k: nat, j: nat)
    requires Once(Flatten(l)) && k < |l| && j < |l[k].insts|
    ensures Once(Flatten(WithInsts(l, k, Without(l[k].insts, j))))
  {
    hide Flatten, Once;
    var s := Without(l[k].insts, j);
    FlattenWithInsts(l, k, s);
    FlattenSplit(l, k);
    OnceSub(Flatten(WithInsts(l, k, s)), Flatten(l));
  }

  // ----- An input -----

  const ReturnData := InstData(PlainFormat, Return, [], [], 0)
  const LoopData := InstData(Jump, OtherOp(2), [], [BlockCall(1, [])], 0)

  /** `block0: return` and `block1: nop; jump block1`. */
  const Spin := Func([LBlock(0, [0]), LBlock(1, [1, 2])], map[0 := ReturnData, 2 := LoopData], map[], map[], map[], map[],
                     [], [], [], [], [], map[], 3, 0)

  lemma SpinLayout()
    ensures WfLayout(Spin.layout) && Flatten(Spin.layout) == [0, 1, 2]
  {
    var l := Spin.layout;
    assert l[1..] == [LBlock(1, [1, 2])] && l[1..][1..] == [];
    assert Flatten(l[1..]) == [1, 2] + Flatten([]);
    var all: seq<Inst> := [0, 1, 2];
    assert Flatten(l) == [0] + ([1, 2] + []) == all;
    assert multiset(all) == multiset{0, 1, 2};
    hide Flatten;
  }

  lemma SpinParams()
    ensures AllParams(Spin) == []
  {
    var l := Spin.layout;
    assert l[1..] == [LBlock(1, [1, 2])] && l[1..][1..] == [];
    assert ParamsIn(Spin.params, l[1..]) == [] + ParamsIn(Spin.params, []);
    assert AllParams(Spin) == [] + ParamsIn(Spin.params, l[1..]);
  }

  lemma SpinShape()
    ensures AllArityOk(Spin) && TerminatorsOk(Spin)
  {
    hide Flatten;
    assert BranchesLast(Spin.insts, [0]) && BranchesLast(Spin.insts, [1, 2]);
    hide BranchesLast;
  }

  lemma SpinInv()
    ensures Inv(Spin)
  {
    SpinLayout();
    SpinParams();
    SpinShape();
    hide WfLayout, Flatten, AllArityOk, TerminatorsOk, ParamsIn;
  }

  lemma SpinPreds()
    ensures Preds(Spin, 1) == [Pred(1, 2)]
  {
    var l := Spin.layout;
    assert l[1..] == [LBlock(1, [1, 2])] && l[1..][1..] == [];
    assert LoopData.dests[0].block == 1 && Targets(LoopData, 1) && !Targets(ReturnData, 1);
    assert PredsIn(Spin.insts, l[1..], 1) == [Pred(1, 2)] + [];
    assert Preds(Spin, 1) == [] + ([Pred(1, 2)] + []);
  }

  lemma SpinBlocks()
    ensures NextBlock(Spin.layout, 0) == Some(1) && InstsOf(Spin.layout, 1) == [1, 2]
    ensures BlockIndex(Spin.layout, 1) == Some(1)
  {
    hide BlockIndex;
    assert DistinctIds(Spin.layout);
    BlockIndexAt(Spin.layout, 0);
    BlockIndexAt(Spin.layout, 1);
  }

  lemma SpinTerminated()
    ensures Terminated(Spin)
  {
    assert EndsOnce(Spin.insts, [0]) && EndsOnce(Spin.insts, [1, 2]);
    hide EndsOnce;
  }

  lemma SpinData()
    ensures Data(Spin.insts, 2) == LoopData && ParamsOf(Spin.params, 1) == []
    ensures AliasParams(Spin.aliases, [], []).Ok?
  {
  }

  /** A function on which the merger never returns. */
  lemma SpinLoops(n: nat)
    ensures Inv(Spin) && Terminated(Spin) && OwnPred(Spin, 1)
    ensures MutateMergeBlocks(0, None, Spin).outcome == Faulted(SelfMerge)
    ensures FirstInst(Rounds(Layouts.RemoveInst(Spin.layout, 2), 1, n), 1).Some?
  {
    hide Spin, Inv, Terminated, Preds, BlockIndex, NextBlock, InstsOf, MutateMergeBlocks, Rounds, FirstInst, AliasParams, Layouts.RemoveInst;
    SpinInv();
    SpinTerminated();
    SpinPreds();
    SpinBlocks();
    SpinData();
    SelfMergeIff(0, None, Spin);
    SelfMergeLoops(Spin, 1, n);
  }
}
