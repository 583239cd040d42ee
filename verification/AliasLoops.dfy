/**
  When merging finds a loop of aliases, at which a debug assertion fails: exactly if the only predecessor of the
  block passes it its own parameters in a circle.
 */
module AliasLoops {
  import opened Options
  import opened Layouts
  import opened Clif
  import opened Mutators
  import opened Invariants
  import opened MutatorsKeep
  import opened BlockMutatorsKeep

  lemma {:induction false} AliasLoopIff(block: Block, prev: Option<Block>, f: Func)
    requires Inv(f)
    ensures MutateMergeBlocks(block, prev, f).outcome == Faulted(AliasLoop) <==>
            NextBlock(f.layout, block).Some? && TangledAt(f, NextBlock(f.layout, block).value)
  {
    hide Inv, Flatten, MergedLayout, Preds, AliasParams, Once, AliasFree, Knot;
    InvLayout(f);
    match NextBlock(f.layout, block)
    case None =>
    case Some(b) =>
      NextBlockAt(f.layout, block);
      var preds := Preds(f, b);
      if |preds| == 1 && |Data(f.insts, preds[0].inst).dests| == 1 {
        MergeStep(f, b);
      }
  }

  // ----- What the aliases are then -----

  /** The parameter is made an alias of what is passed for it. */
  predicate IsAliased(params: seq<Value>, args: seq<BlockArg>, k: nat)
    requires k < |params| == |args|
  {
    args[k].ValueArg? && args[k].value != params[k]
  }

  /**
    Each parameter then stands for what the value that is passed for it stands for, or for itself; values that stood
    for no parameter stand for what they did.
   */
  lemma {:induction false} AliasesExactly(aliases: map<Value, Value>, params: seq<Value>, args: seq<BlockArg>)
    requires |params| == |args| && AliasFree(aliases) && Once(params) && forall v :: v in params ==> v !in aliases
    requires AliasParams(aliases, params, args).Ok?
    ensures var more := AliasParams(aliases, params, args).value;
            && (forall v :: Root(more, v) == Root(more, Root(aliases, v)))
            && (forall v :: v !in aliases && v !in params ==> Root(more, v) == v)
            && (forall k: nat :: k < |params| ==>
                  Root(more, params[k]) == if IsAliased(params, args, k) then Root(more, args[k].value) else params[k])
    decreases |params|
  {
    hide Root, AliasFree;
    if params == [] {
      NoChain(aliases);
    } else {
      var p, rest, others := params[0], params[1..], args[1..];
      assert params == [p] + rest;
      OnceSub(rest, params);
      NotTwice(params, rest, p);
      if IsAliased(params, args, 0) {
        var r := Root(aliases, args[0].value);
        RootIsFree(aliases, args[0].value);
        AliasFreeUpdate(aliases, p, r);
        AliasesExactly(aliases[p := r], rest, others);
        forall v ensures Root(aliases[p := r], v) == if Root(aliases, v) == p then r else Root(aliases, v) {
          RootUpdate(aliases, p, r, v);
        }
        NoChain(aliases);
        TailAliased(params, args);
        OneMoreAlias(aliases, p, r, args[0].value, AliasParams(aliases, params, args).value);
      } else {
        AliasesExactly(aliases, rest, others);
        TailAliased(params, args);
      }
      forall k: nat | k < |params|
        ensures var more := AliasParams(aliases, params, args).value;
                Root(more, params[k]) == if IsAliased(params, args, k) then Root(more, args[k].value) else params[k]
      {
        if k > 0 {
          assert rest[k - 1] == params[k];
        }
      }
    }
  }

  lemma TailAliased(params: seq<Value>, args: seq<BlockArg>)
    requires |params| == |args| > 0
    ensures forall k: nat :: 0 < k < |params| ==>
              (IsAliased(params, args, k) <==> IsAliased(params[1..], args[1..], k - 1)) && args[1..][k - 1] == args[k]
  {
  }

  lemma {:induction false} NoChain(aliases: map<Value, Value>)
    requires AliasFree(aliases)
    ensures forall v :: Root(aliases, Root(aliases, v)) == Root(aliases, v)
    ensures forall v :: v !in aliases ==> Root(aliases, v) == v
  {
    forall v ensures Root(aliases, Root(aliases, v)) == Root(aliases, v) {
      RootIsFree(aliases, v);
    }
  }

  lemma OneMoreAlias(aliases: map<Value, Value>, p: Value, r: Value, a: Value, more: map<Value, Value>)
    requires r == Root(aliases, a) != p && Root(aliases, p) == p
    requires forall v :: Root(more, v) == Root(more, if Root(aliases, v) == p then r else Root(aliases, v))
    requires forall v :: Root(aliases, Root(aliases, v)) == Root(aliases, v)
    ensures forall v :: Root(more, v) == Root(more, Root(aliases, v))
    ensures Root(more, p) == Root(more, a)
  {
    hide Root;
    assert Root(more, a) == Root(more, r) && Root(more, p) == Root(more, r);
  }

  // ----- Inputs -----

  /** Two parameters passed for each other are a knot. */
  lemma SwapIsKnot(params: seq<Value>, args: seq<BlockArg>)
    requires params == [0, 1] && args == [ValueArg(1), ValueArg(0)]
    ensures Knot(map[], params, args, {0, 1}) && AliasParams(map[], params, args) == Err(AliasLoop)
  {
    var knot: set<Value>, none: map<Value, Value> := {0, 1}, map[];
    assert PassesAt(none, params, args, knot, 0, 0) && PassesAt(none, params, args, knot, 1, 1);
    FirstAlias(none[0 := 1]);
  }

  /** One passed for both of them is none, although it stands for a parameter. */
  lemma SameIsNoKnot(params: seq<Value>, args: seq<BlockArg>)
    requires params == [0, 1] && args == [ValueArg(1), ValueArg(1)]
    ensures AliasParams(map[], params, args).Ok?
  {
    var none: map<Value, Value> := map[];
    var rest, others := params[1..], args[1..];
    assert Root(none, 1) == 1;
    assert AliasParams(none, params, args) == AliasParams(none[0 := 1], rest, others);
    assert rest[0] == 1 && others[0] == ValueArg(1) && rest[1..] == [];
    assert AliasParams(none[0 := 1], rest, others) == AliasParams(none[0 := 1], rest[1..], others[1..]) == Ok(none[0 := 1]);
  }

  lemma FirstAlias(one: map<Value, Value>)
    requires one == map[0 := 1]
    ensures Root(one, 0) == 1
  {
    assert 1 !in one - {0};
  }

  const Stop := InstData(PlainFormat, Return, [], [], 0)
  const Swap := InstData(Jump, OtherOp(2), [], [BlockCall(1, [ValueArg(1), ValueArg(0)])], 0)

  /** `block0: return` and `block1(v0, v1): jump block1(v1, v0)`. */
  const Swapping := Func([LBlock(0, [0]), LBlock(1, [1])], map[0 := Stop, 1 := Swap], map[], map[1 := [0, 1]], map[], map[],
                         [], [], [], [], [], map[], 2, 2)

  lemma SwappingLayout()
    ensures WfLayout(Swapping.layout) && Flatten(Swapping.layout) == [0, 1]
  {
    var l := Swapping.layout;
    assert l[1..] == [LBlock(1, [1])] && l[1..][1..] == [];
    assert Flatten(l[1..]) == [1] + Flatten([]);
    var all: seq<Inst> := [0, 1];
    assert Flatten(l) == [0] + ([1] + []) == all;
    assert multiset(all) == multiset{0, 1};
    hide Flatten;
  }

  lemma SwappingParams()
    ensures AllParams(Swapping) == [0, 1] && Once(AllParams(Swapping))
  {
    var l, ps := Swapping.layout, Swapping.params;
    assert l[1..] == [LBlock(1, [1])] && l[1..][1..] == [];
    assert ParamsIn(ps, l[1..]) == [0, 1] + ParamsIn(ps, []);
    var all: seq<Value> := [0, 1];
    assert AllParams(Swapping) == [] + ([0, 1] + []) == all;
    assert multiset(all) == multiset{0, 1};
  }

  lemma SwappingArity()
    ensures AllArityOk(Swapping) && TerminatorsOk(Swapping) && Terminated(Swapping)
  {
    SwappingLayout();
    hide Flatten;
    assert BranchesLast(Swapping.insts, [0]) && BranchesLast(Swapping.insts, [1]);
    assert EndsOnce(Swapping.insts, [0]) && EndsOnce(Swapping.insts, [1]);
    forall i | i in Flatten(Swapping.layout) ensures ArityOk(Swapping.params, Data(Swapping.insts, i)) {
      assert i in {0, 1};
    }
  }

  lemma SwappingInv()
    ensures Inv(Swapping)
  {
    SwappingLayout();
    SwappingParams();
    SwappingArity();
    hide WfLayout, Flatten, AllArityOk, TerminatorsOk, Terminated, ParamsIn, Once;
  }

  lemma SwappingPreds()
    ensures Preds(Swapping, 1) == [Pred(1, 1)]
  {
    var l := Swapping.layout;
    assert l[1..] == [LBlock(1, [1])] && l[1..][1..] == [];
    assert Swap.dests[0].block == 1 && Targets(Swap, 1) && !Targets(Stop, 1);
    assert PredsIn(Swapping.insts, l[1..], 1) == [Pred(1, 1)] + [];
    assert Preds(Swapping, 1) == [] + ([Pred(1, 1)] + []);
  }

  lemma SwappingBlocks()
    ensures NextBlock(Swapping.layout, 0) == Some(1) && BlockIndex(Swapping.layout, 1) == Some(1)
  {
    hide BlockIndex;
    assert DistinctIds(Swapping.layout);
    BlockIndexAt(Swapping.layout, 0);
    BlockIndexAt(Swapping.layout, 1);
  }

  lemma SwappingData()
    ensures Data(Swapping.insts, 1) == Swap && ParamsOf(Swapping.params, 1) == [0, 1] && Swapping.aliases == map[]
    ensures |Swap.dests| == 1 && Swap.dests[0].args == [ValueArg(1), ValueArg(0)]
  {
  }

  /** A function on which the assertion fails. */
  lemma SwappingFails()
    ensures Inv(Swapping) && Terminated(Swapping) && TangledAt(Swapping, 1)
    ensures MutateMergeBlocks(0, None, Swapping).outcome == Faulted(AliasLoop)
  {
    hide Swapping, Swap, Inv, Terminated, Preds, BlockIndex, NextBlock, MutateMergeBlocks, Knot, AllArityOk, TerminatorsOk;
    SwappingInv();
    SwappingArity();
    SwappingPreds();
    SwappingBlocks();
    SwappingData();
    SwapIsKnot(ParamsOf(Swapping.params, 1), Swap.dests[0].args);
    AliasLoopIff(0, None, Swapping);
  }
}
