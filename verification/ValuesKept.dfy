/**
  Every mutator keeps single definitions, and the two that put in constants keep all definitions: what was defined by
  the instruction or the parameter that goes is defined by a zero of its type in its place.
 */
module ValuesKept {
  import opened Options
  import opened Layouts
  import opened Clif
  import opened Mutators
  import opened Invariants
  import opened MutatorsKeep
  import opened BlockMutatorsKeep
  import opened Reduction
  import opened ReductionTheorems
  import opened Values

  // ----- Definitions that go -----

  lemma {:induction false} FewerDefs(f: Func, g: Func)
    requires Ssa(f) && multiset(Defs(g)) <= multiset(Defs(f)) && g.nextValue == f.nextValue && g.aliases == f.aliases
    ensures Ssa(g)
  {
    hide Defs;
    OnceSub(Defs(g), Defs(f));
    forall v | v in Defs(g) ensures v in Defs(f) {
      SubIn(Defs(g), Defs(f), v);
    }
  }

  lemma {:induction false} SmallerSsa(f: Func, l: Layout)
    requires Ssa(f) && multiset(Flatten(l)) <= multiset(Flatten(f.layout))
    requires multiset(ParamsIn(f.params, l)) <= multiset(AllParams(f))
    ensures Ssa(f.(layout := l))
  {
    hide Flatten, ParamsIn, ResultsIn, Ssa;
    ResultsSub(f.results, Flatten(l), Flatten(f.layout));
    var g := f.(layout := l);
    assert multiset(Defs(g)) == multiset(ParamsIn(f.params, l)) + multiset(ResultsIn(f.results, Flatten(l)));
    assert multiset(Defs(f)) == multiset(AllParams(f)) + multiset(ResultsIn(f.results, Flatten(f.layout)));
    FewerDefs(f, g);
  }

  lemma {:induction false} MoreDefs(f: Func, g: Func, lows: seq<Value>)
    requires Ssa(f) && multiset(Defs(g)) == multiset(Defs(f)) + multiset(lows) && g.aliases == f.aliases
    requires f.nextValue <= g.nextValue && Once(lows) && forall v :: v in lows ==> f.nextValue <= v < g.nextValue
    ensures Ssa(g) && forall v :: v in Defs(f) ==> v in Defs(g)
  {
    hide Defs;
    forall v ensures multiset(Defs(g))[v] <= 1 && (v in Defs(g) <==> v in Defs(f) || v in lows) {
      assert (v in Defs(g) <==> v in multiset(Defs(g))) && (v in Defs(f) <==> v in multiset(Defs(f)));
      assert v in lows <==> v in multiset(lows);
    }
  }

  lemma ResultNumbered(f: Func, i: Inst)
    requires Ssa(f) && i in Flatten(f.layout)
    ensures forall v :: v in ResultsOf(f.results, i) ==> v < f.nextValue && v in Defs(f)
  {
    hide Flatten, ResultsIn, ParamsIn;
    forall v | v in ResultsOf(f.results, i) ensures v in Defs(f) {
      ResultsAt(f.results, Flatten(f.layout), i, v);
    }
  }

  lemma ParamNumbered(f: Func, c: nat, k: nat)
    requires Ssa(f) && c < |f.layout| && k < |ParamsOf(f.params, f.layout[c].id)|
    ensures ParamsOf(f.params, f.layout[c].id)[k] < f.nextValue && ParamsOf(f.params, f.layout[c].id)[k] in Defs(f)
  {
    hide Flatten, ResultsIn, ParamsIn, Once;
    var v := ParamsOf(f.params, f.layout[c].id)[k];
    InParams(f.params, f.layout, c, v);
    assert v in AllParams(f) && v in Defs(f);
  }

  // ----- The mutators that put in constants -----

  /**
    Replacing an instruction does nothing to the last one, skips one without results and what looks like a constant
    already, and otherwise puts zeros for its results in its place.
   */
  lemma {:induction false} ConstsInPlace(block: Block, inst: Inst, f: Func) returns (b: nat, k: nat, lows: seq<Value>)
    requires Inv(f) && Ssa(f) && CursorAt(f.layout, block, inst)
    ensures At(f.layout, b, k, inst) && f.layout[b].id == block
    ensures var s, rs := MutateReplaceInstWithConst(block, inst, f), ResultsOf(f.results, inst);
            if NextPlace(f.layout, b, k).0 == |f.layout| then s.outcome == Done
            else if AlreadyConst(f, inst) then
              s.outcome == Mutated(f, Skip) && (rs == [] || Data(f.insts, inst).opcode in {Iconst, F32const, F64const, Uextend})
            else
              && s.outcome.Mutated? && s.outcome.status == (if |rs| == 1 then Changed else ExpandedOrShrinked)
              && var g := s.outcome.func;
                 && ZeroesFor(f, g, rs, lows) && SameBut(f, g, inst) && ValuesGrow(f, g)
                 && g.layout == WithInsts(f.layout, b,
                      f.layout[b].insts[..k] + Fresh(f.nextInst, g.nextInst) + f.layout[b].insts[k + 1..])
                 && Ssa(g) && (forall v :: v in Defs(f) ==> v in Defs(g))
    ensures var s, p := MutateReplaceInstWithConst(block, inst, f), NextPlace(f.layout, b, k);
            s.outcome.Mutated? ==>
              && p.0 < |f.layout| && p.1 < |f.layout[p.0].insts|
              && s.next == ReplaceInstWithConst(f.layout[p.0].id, f.layout[p.0].insts[p.1])
  {
    hide Inv, Flatten, NextInstRetPrev, AlreadyConst, ReplaceByConsts, ZeroesFor, SameBut, ValuesGrow, Ssa, Defs, Once;
    b, k :| At(f.layout, b, k, inst) && f.layout[b].id == block;
    lows := [];
    AdvanceAt(f, b, k);
    InvLayout(f);
    InFlatten(f.layout, b, k);
    ResultNumbered(f, inst);
    LooksConst(f, inst);
    if NextPlace(f.layout, b, k).0 < |f.layout| && !AlreadyConst(f, inst) {
      NotConst(f, inst);
      lows := ReplacedInPlace(f, b, k);
      var lows' := ReplacedDefs(f, b, k);
      OnlyBuilds(f, ReplaceByConsts(f, inst), inst);
      MoreDefs(f, ReplaceByConsts(f, inst), lows');
    }
  }

  lemma OnlyBuilds(f: Func, g: Func, inst: Inst)
    requires SameBut(f, g, inst)
    ensures g.aliases == f.aliases
  {
  }

  lemma LooksConst(f: Func, i: Inst)
    ensures AlreadyConst(f, i) ==> ResultsOf(f.results, i) == [] || Data(f.insts, i).opcode in {Iconst, F32const, F64const, Uextend}
  {
  }

  lemma NotConst(f: Func, i: Inst)
    requires !AlreadyConst(f, i)
    ensures ResultsOf(f.results, i) != []
  {
  }

  /** The parameter is defined by a zero at the start of its block. */
  lemma {:induction false} ParamConstInPlace(block: Block, remaining: nat, f: Func) returns (c: nat, k: nat, lows: seq<Value>)
    requires Inv(f) && Ssa(f) && CursorOk(ReplaceBlockParamWithConst(block, remaining), f)
    ensures var s := MutateReplaceParam(block, remaining, f);
            s.outcome.Mutated? ==>
              && c < |f.layout| && k < |ParamsOf(f.params, f.layout[c].id)| && s.outcome.status == ExpandedOrShrinked
              && s.next == ReplaceBlockParamWithConst(f.layout[c].id, k)
              && var b, g := f.layout[c].id, s.outcome.func;
                 && ZeroesFor(f, g, [ParamsOf(f.params, b)[k]], lows) && ValuesGrow(f, g)
                 && (forall i: Inst :: i < f.nextInst ==> ResultsOf(g.results, i) == ResultsOf(f.results, i))
                 && g.layout == WithInsts(f.layout, c, Fresh(f.nextInst, g.nextInst) + f.layout[c].insts)
                 && g == f.(layout := g.layout, insts := g.insts, results := g.results, params := g.params, sigParams := g.sigParams,
                            types := g.types, nextInst := g.nextInst, nextValue := g.nextValue)
                 && g.params == f.params[b := Without(ParamsOf(f.params, b), k)]
                 && Ssa(g) && (forall v :: v in Defs(f) ==> v in Defs(g))
  {
    hide Inv, Flatten, SeekParam, ParamByConst, FirstInst, ZeroesFor, ValuesGrow, Ssa, Defs, Once;
    c, k, lows := 0, 0, [];
    SeekParamAt(f, block, remaining);
    match SeekParam(f, block, remaining)
    case None =>
    case Some((b, r)) =>
      var c' :| 0 <= c' < |f.layout| && f.layout[c'].id == b;
      c, k := c', r - 1;
      ReplaceParamAt(f, c, r);
      ParamNumbered(f, c, k);
      lows := ParamInPlace(f, c, k);
      var lows' := ParamDefs(f, c, k);
      var g := ParamByConst(f, b, k, f.layout[c].insts[0]);
      MoreDefs(f, g, lows');
      forall s ensures Ssa(g.(sigParams := s)) && Defs(g.(sigParams := s)) == Defs(g) && ZeroesFor(f, g.(sigParams := s), [ParamsOf(f.params, b)[k]], lows)
                       && ValuesGrow(f, g.(sigParams := s))
      {
        OtherSignature(f, g, s, [ParamsOf(f.params, b)[k]], lows);
      }
      assert g == g.(sigParams := g.sigParams);
  }

  lemma OtherSignature(f: Func, g: Func, s: seq<Type>, vs: seq<Value>, lows: seq<Value>)
    requires Ssa(g) && ZeroesFor(f, g, vs, lows) && ValuesGrow(f, g)
    ensures var h := g.(sigParams := s); Ssa(h) && Defs(h) == Defs(g) && ZeroesFor(f, h, vs, lows) && ValuesGrow(f, h)
  {
    hide Flatten, Once;
    var h := g.(sigParams := s);
    assert Defs(h) == Defs(g);
    SameTypes(f, f, g, h);
    SameZeros(f, f, g, h, vs, lows);
  }

  // ----- All mutators -----

  lemma {:induction false} RemoveInstSsa(block: Block, inst: Inst, f: Func)
    requires Inv(f) && Ssa(f) && CursorAt(f.layout, block, inst)
    ensures var s := MutateRemoveInst(block, inst, f); s.outcome.Mutated? ==> Ssa(s.outcome.func)
  {
    hide Inv, Flatten, NextInstRetPrev, Layouts.RemoveInst, DropIfEmpty, Once, Ssa, DeletedAt;
    var b: nat, k: nat :| At(f.layout, b, k, inst) && f.layout[b].id == block;
    AdvanceAt(f, b, k);
    InvLayout(f);
    RemoveInstAt(f.layout, b, k);
    DeletedCount(f.layout, b, k);
    DeleteKeepsParams(f.params, f.layout, b, k);
    SmallerSsa(f, DeletedAt(f.layout, b, k));
  }

  lemma {:induction false} MoveSsa(block: Block, inst: Inst, f: Func)
    requires Inv(f) && Ssa(f) && CursorAt(f.layout, block, inst)
    ensures var s := MutateMoveInst(block, inst, f); s.outcome.Mutated? ==> Ssa(s.outcome.func)
  {
    hide Inv, Flatten, NextInstRetPrev, Layouts.RemoveInst, InsertInst, Ssa, Once, MovedLayout;
    var l := f.layout;
    var b: nat, k: nat :| At(l, b, k, inst) && l[b].id == block;
    AdvanceAt(f, b, k);
    InvLayout(f);
    if b > 0 && NextPlace(l, b, k).0 == b {
      MovedAt(l, b, k);
      MovedFlatten(l, b, k);
      MovedIds(l, b, k);
      ParamsSameIds(f.params, MovedLayout(l, b, k), l);
      SmallerSsa(f, MovedLayout(l, b, k));
    }
  }

  lemma MovedIds(l: Layout, b: nat, k: nat)
    requires 0 < b < |l| && k < |l[b].insts| && l[0].insts != []
    ensures |MovedLayout(l, b, k)| == |l| && forall c :: 0 <= c < |l| ==> MovedLayout(l, b, k)[c].id == l[c].id
  {
  }

  lemma {:induction false} RemoveBlockSsa(block: Block, f: Func)
    requires Inv(f) && Ssa(f)
    ensures var s := MutateRemoveBlock(block, f); s.outcome.Mutated? ==> Ssa(s.outcome.func)
  {
    hide Flatten, Ssa, Once, ParamsIn;
    if NextBlock(f.layout, block).Some? {
      NextBlockAt(f.layout, block);
      var j := BlockIndex(f.layout, NextBlock(f.layout, block).value).value;
      RemovedFlatten(f.layout, j);
      ParamsRemoveBlock(f.params, f.layout, j);
      SmallerSsa(f, f.layout[..j] + f.layout[j + 1..]);
    }
  }

  lemma SameDefs(f: Func, g: Func)
    requires Ssa(f) && g.layout == f.layout && g.results == f.results && g.params == f.params
    requires g.nextValue == f.nextValue && (g.aliases == f.aliases || g.aliases == map[])
    ensures Ssa(g)
  {
    hide Flatten, Once;
    assert Defs(g) == Defs(f);
  }

  lemma {:induction false} MergedDefs(f: Func, g: Func, b: Block)
    requires Inv(f) && Ssa(f) && BlockIndex(f.layout, b).Some? && HasSolePred(f, b)
    requires MergeLayoutOk(f, g.layout, b, Preds(f, b)[0].inst)
    requires g == f.(aliases := g.aliases, params := f.params[b := []], layout := g.layout)
    requires forall v :: v in g.aliases ==> v in f.aliases || v in ParamsOf(f.params, b)
    ensures Ssa(g)
  {
    hide Inv, Flatten, Once, ParamsIn, ResultsIn;
    var ps := ParamsOf(f.params, b);
    ParamsElsewhere(f.params, g.layout, b, []);
    ResultsSub(f.results, Flatten(g.layout), Flatten(f.layout));
    assert multiset(Defs(g)) == multiset(AllParams(g)) + multiset(ResultsIn(f.results, Flatten(g.layout)));
    assert multiset(Defs(f)) == multiset(AllParams(f)) + multiset(ResultsIn(f.results, Flatten(f.layout)));
    assert multiset(Defs(g)) + multiset(ps) <= multiset(Defs(f));
    OnceSub(Defs(g), Defs(f));
    forall v | v in Defs(g) ensures v in Defs(f) && v !in ps {
      SubIn(Defs(g), Defs(f), v);
      OnceApartFrom(Defs(g), ps, Defs(f), v);
    }
    forall v | v in ps ensures v in Defs(f) {
      assert v in multiset(ps);
      assert v in multiset(Defs(f));
    }
  }

  lemma OnceApartFrom<T(!new)>(a: seq<T>, b: seq<T>, whole: seq<T>, x: T)
    requires Once(whole) && multiset(a) + multiset(b) <= multiset(whole) && x in a
    ensures x !in b
  {
    assert multiset(whole)[x] <= 1 && (multiset(a) + multiset(b))[x] <= multiset(whole)[x];
    assert (x in a <==> x in multiset(a)) && (x in b <==> x in multiset(b));
  }

  lemma {:induction false} MergeSsa(block: Block, prev: Option<Block>, f: Func)
    requires Inv(f) && Ssa(f)
    ensures var s := MutateMergeBlocks(block, prev, f); s.outcome.Mutated? ==> Ssa(s.outcome.func)
  {
    hide Inv, Flatten, MergedLayout, Preds, AliasParams, Once, AliasFree, Ssa, MergeLayoutOk;
    InvLayout(f);
    match NextBlock(f.layout, block)
    case None =>
    case Some(b) =>
      NextBlockAt(f.layout, block);
      var s := MutateMergeBlocks(block, prev, f);
      if s.outcome.Mutated? && s.outcome.status != Skip {
        MergeStep(f, b);
        MergedLayoutOk(f, b);
        AliasKeys(f, b);
        MergedDefs(f, s.outcome.func, b);
      }
  }

  lemma AliasKeys(f: Func, b: Block)
    requires Inv(f) && HasSolePred(f, b) && |Data(f.insts, Preds(f, b)[0].inst).dests| == 1
    requires |ParamsOf(f.params, b)| == |Data(f.insts, Preds(f, b)[0].inst).dests[0].args|
    ensures var r := AliasParams(f.aliases, ParamsOf(f.params, b), Data(f.insts, Preds(f, b)[0].inst).dests[0].args);
            r.Ok? ==> forall v :: v in r.value ==> v in f.aliases || v in ParamsOf(f.params, b)
  {
    hide Preds, Flatten, Once, AliasFree, AllArityOk, TerminatorsOk, AliasParams;
    ParamsOfLaidOut(f, BlockIndex(f.layout, b).value);
    AliasParamsOk(f.aliases, ParamsOf(f.params, b), Data(f.insts, Preds(f, b)[0].inst).dests[0].args);
  }

  lemma TrapSsa(block: Block, inst: Inst, f: Func)
    requires Ssa(f)
    ensures var s := MutateReplaceInstWithTrap(block, inst, f); s.outcome.Mutated? ==> Ssa(s.outcome.func)
  {
    hide Ssa, NextInstRetPrev;
    if MutateReplaceInstWithTrap(block, inst, f).outcome.Mutated? {
      SameDefs(f, MutateReplaceInstWithTrap(block, inst, f).outcome.func);
    }
  }

  lemma EntitiesSsa(kind: nat, f: Func)
    requires Ssa(f)
    ensures var s := MutateEntities(kind, f); s.outcome.Mutated? ==> Ssa(s.outcome.func)
  {
    hide Ssa, MutateEntities;
    if MutateEntities(kind, f).outcome.Mutated? {
      EntitiesOnly(kind, f);
      SameDefs(f, MutateEntities(kind, f).outcome.func);
    }
  }

  lemma EntitiesOnly(kind: nat, f: Func)
    requires MutateEntities(kind, f).outcome.Mutated?
    ensures var g := MutateEntities(kind, f).outcome.func;
            g == f.(insts := g.insts, extFuncs := g.extFuncs, signatures := g.signatures, stackSlots := g.stackSlots, globals := g.globals)
  {
    hide UsedBy, Keep, RenumberInsts, SignaturesUsed, OnlySimpleGlobals, Renumber;
  }

  lemma {:induction false} MutateSsa(m: Mutator, f: Func)
    requires Inv(f) && CursorOk(m, f) && Ssa(f)
    ensures Mutate(m, f).outcome.Mutated? ==> Ssa(Mutate(m, f).outcome.func)
  {
    hide Inv, Ssa, MutateRemoveInst, MutateReplaceInstWithConst, MutateMoveInst, MutateRemoveBlock, MutateReplaceParam, MutateMergeBlocks;
    hide MutateReplaceInstWithTrap, MutateEntities, Defs, ZeroesFor, SameBut, ValuesGrow;
    match m
    case RemoveInst(b, i) => RemoveInstSsa(b, i, f);
    case ReplaceInstWithConst(b, i) => var _, _, _ := ConstsInPlace(b, i, f);
    case ReplaceInstWithTrap(b, i) => TrapSsa(b, i, f);
    case MoveInstToEntryBlock(b, i) => MoveSsa(b, i, f);
    case RemoveBlock(b) => RemoveBlockSsa(b, f);
    case ReplaceBlockParamWithConst(b, r) => var _, _, _ := ParamConstInPlace(b, r, f);
    case RemoveUnusedEntities(k) => EntitiesSsa(k, f);
    case MergeBlocks(b, p) => MergeSsa(b, p, f);
  }

  /** Over whole reductions, whatever the oracle: what comes out has single definitions if what went in had. */
  lemma ReduceKeepsSsa(crash: Func -> bool, f: Func)
    requires Inv(f) && Ssa(f)
    ensures var r := Reduce(crash, f);
            && (r.Result? ==> Ssa(r.func) && Ssa(r.start))
            && (r.ReduceBroken? ==> Ssa(r.at))
  {
    hide Inv, Ssa, Mutate, ResolveAllAliases, Reduce, Excusable, FaultsOn;
    ghost var keep := (h: Func) => Ssa(h);
    forall m, h | Inv(h) && CursorOk(m, h) && keep(h) && Mutate(m, h).outcome.Mutated? ensures keep(Mutate(m, h).outcome.func) {
      MutateSsa(m, h);
    }
    forall h | Inv(h) && keep(h) ensures KeptWhole(keep, h) {
      WholeSsa(h);
    }
    ReduceCarries(crash, keep, f);
  }

  lemma WholeSsa(f: Func)
    requires Ssa(f)
    ensures Ssa(ResolveAllAliases(f)) && Ssa(f.(srclocs := map[]))
  {
    hide Ssa;
    SameDefs(f, ResolveAllAliases(f));
    SameDefs(f, f.(srclocs := map[]));
  }

  // ----- What looks like a constant -----

  /** `v`, or what it is an alias of, is a result of an integer constant. */
  ghost predicate FromIconst(f: Func, v: Value) {
    exists i :: Data(f.insts, i).opcode == Iconst && Root(f.aliases, v) in ResultsOf(f.results, i)
  }

  /** What is passed by: no result, a scalar constant, or a 128-bit value extended from an integer constant. */
  lemma SkippedIff(f: Func, i: Inst)
    ensures var d, rs := Data(f.insts, i), ResultsOf(f.results, i);
            AlreadyConst(f, i) <==>
            || rs == [] || d.opcode.Iconst? || d.opcode.F32const? || d.opcode.F64const?
            || (d.opcode.Uextend? && TypeOf(f, rs[0]) == I128 && d.args != [] && FromIconst(f, d.args[0]))
  {
    hide Root;
  }

  /** Constants are not replaced again, except those of vectors: nothing that was put in is tried twice. */
  lemma {:induction false} ZerosAreSkipped(f: Func, g: Func, v: Value, p: nat)
    requires Ssa(g) && f.nextInst <= g.nextInst && ValuesGrow(f, g) && v < f.nextValue
    requires var s := Fresh(f.nextInst, g.nextInst); ZeroAt(f, g, s, v, p) && forall i :: i in s ==> i in Flatten(g.layout)
    ensures AlreadyConst(g, Fresh(f.nextInst, g.nextInst)[p]) <==> TypeOf(f, v) != Vector
    ensures TypeOf(f, v) == I128 ==> AlreadyConst(g, Fresh(f.nextInst, g.nextInst)[p - 1])
  {
    hide Flatten, ResultsIn, ParamsIn, Once;
    var s := Fresh(f.nextInst, g.nextInst);
    assert TypeOf(g, v) == TypeOf(f, v);
    if TypeOf(f, v) == I128 {
      var low :| LowHalf(f, g, s[p - 1], low) && Data(g.insts, s[p]) == InstData(PlainFormat, Uextend, [low], [], 0);
      assert s[p - 1] in s;
      ResultNumbered(g, s[p - 1]);
      assert low !in g.aliases && Root(g.aliases, low) == low;
      assert s[p - 1] in g.insts;
    }
  }
}
