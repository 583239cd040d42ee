/** A function that the merging theorem applies to, and what the mutator makes of it. */
module MergeExample {
  import opened Options
  import opened Layouts
  import opened Clif
  import opened Mutators
  import opened MergeSemantics
  import opened MergeSimulation

  /** A value is computed and passed to a second block, which uses its parameter. */
  const Two: Layout := [LBlock(0, [0, 1]), LBlock(1, [2])]
  const Compute := InstData(PlainFormat, OtherOp(1), [], [], 0)
  const Pass := InstData(Jump, OtherOp(2), [], [BlockCall(1, [ValueArg(7)])], 0)
  const Use := InstData(PlainFormat, OtherOp(3), [8], [], 0)

  const Example := Func(Two, map[0 := Compute, 1 := Pass, 2 := Use], map[0 := [7]], map[1 := [8]],
                        map[], map[], [], [], [], [], [], map[], 3, 9)

  lemma TwoFlat()
    ensures WfLayout(Two) && Flatten(Two) == [0, 1, 2]
  {
    assert Two[1..] == [LBlock(1, [2])] && Two[1..][1..] == [];
    assert Flatten(Two[1..]) == [2] + Flatten([]) == [2];
    assert Flatten(Two) == [0, 1] + [2];
    var all: seq<Inst> := [0, 1, 2];
    assert [0, 1] + [2] == all;
    assert multiset(all) == multiset{0, 1, 2};
    hide Flatten;
  }

  lemma TwoIs()
    ensures BlockIndex(Two, 0) == Some(0) && BlockIndex(Two, 1) == Some(1)
    ensures forall c :: InstsOf(Two, c) == if c == 0 then [0, 1] else if c == 1 then [2] else []
  {
    hide BlockIndex;
    assert DistinctIds(Two);
    BlockIndexAt(Two, 0);
    BlockIndexAt(Two, 1);
    forall c ensures InstsOf(Two, c) == if c == 0 then [0, 1] else if c == 1 then [2] else [] {
      if c > 1 {
        assert BlockIndex(Two, c).None?;
      }
    }
  }

  lemma PredsIs()
    ensures Preds(Example, 1) == [Pred(0, 1)]
  {
    assert Two[1..] == [LBlock(1, [2])] && Two[1..][1..] == [];
    assert Pass.dests[0].block == 1 && Targets(Pass, 1);
    assert !Targets(Use, 1);
    assert PredsIn(Example.insts, Two[1..], 1) == [];
    assert Preds(Example, 1) == [Pred(0, 1)] + [];
  }

  lemma ExampleParams()
    ensures AllParams(Example) == [8] && Once(AllParams(Example))
  {
    assert Two[1..] == [LBlock(1, [2])] && Two[1..][1..] == [];
    assert ParamsIn(Example.params, []) == [];
    assert ParamsIn(Example.params, Two[1..]) == [8] + [];
    assert AllParams(Example) == [] + ([8] + []);
    var all: seq<Value> := [8];
    assert [] + ([8] + []) == all;
    assert multiset(all) == multiset{8};
  }

  lemma ExampleData()
    ensures Data(Example.insts, 0) == Compute && Data(Example.insts, 1) == Pass && Data(Example.insts, 2) == Use
    ensures ArityOk(Example.params, Compute) && ArityOk(Example.params, Pass) && ArityOk(Example.params, Use)
    ensures WfData(Compute) && WfData(Pass) && WfData(Use)
    ensures BranchesLast(Example.insts, [0, 1]) && BranchesLast(Example.insts, [2])
  {
  }

  lemma ExampleInv()
    ensures Inv(Example)
  {
    TwoFlat();
    ExampleParams();
    ExampleData();
    hide WfLayout, Flatten, Once, AllParams, ArityOk, WfData, BranchesLast;
  }

  lemma ExampleMergeable()
    ensures Mergeable(Example, 1)
  {
    TwoIs();
    PredsIs();
    ExampleInv();
    hide Inv, WfLayout, Flatten, InstsOf, Preds, BlockIndex, Dominates;
    var f := Example;
    forall c, p | p in ParamsOf(f.params, 1) ensures Untouched(f, InstsOf(f.layout, c), p) {
      assert p == 8;
    }
    forall c, i, v | i in InstsOf(f.layout, c) && Uses(Data(f.insts, i), v) && Root(f.aliases, v) in ParamsOf(f.params, 1)
      ensures Dominates(f, 1, c)
    {
      assert v == 8 && i == 2 && c == 1;
      Itself(f, 1);
    }
    forall c, a | a in Pass.dests[0].args && Defines(f, c, Root(f.aliases, a.value)) ensures Dominates(f, c, 0) {
      assert a == ValueArg(7) && c == 0;
      Itself(f, 0);
    }
  }

  lemma Itself(f: Func, c: Block)
    ensures Dominates(f, c, c)
  {
  }

  lemma ExampleArgs()
    ensures |Preds(Example, 1)| == 1 && Preds(Example, 1)[0].block == 0
    ensures |Data(Example.insts, Preds(Example, 1)[0].inst).dests| == 1
    ensures JumpArgs(Example, 1) == [ValueArg(7)] && ParamsOf(Example.params, 1) == [8] && Example.aliases == map[]
    ensures IsPath(Example, [0]) && NextBlock(Example.layout, 0) == Some(1)
  {
    TwoIs();
    PredsIs();
    hide Preds, BlockIndex, InstsOf, Edge;
  }

  lemma ExampleAlias()
    ensures AliasParams(map[], [8], [ValueArg(7)]) == Ok(map[8 := 7]) && Root(map[8 := 7], 8) == 7
  {
    assert Root(map[8 := 7], 8) == Root(map[8 := 7] - {8}, 7) == 7;
  }

  /** The mutator merges the second block of the example into the first one. */
  lemma ExampleMerges()
    ensures var s := MutateMergeBlocks(0, None, Example);
            s.outcome.Mutated? && IsMerge(Example, 1, s.outcome.func) && Root(s.outcome.func.aliases, 8) == 7
  {
    hide Example, Mergeable, Inv, Preds, MergedLayout, MutateMergeBlocks, IsPath, NextBlock, AliasParams, Root, JumpArgs;
    ExampleArgs();
    ExampleMergeable();
    ExampleAlias();
    MutatorMerges(Example, 0, None, 1, [0]);
  }
}
