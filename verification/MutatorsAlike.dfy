/** What the mutators do to two functions that are alike is alike. */
module MutatorsAlike {
  import opened Layouts
  import opened Clif
  import opened Mutators
  import opened MutatorsKeep
  import opened Entities
  import opened BlindOracles

  // ----- New instructions and other layouts -----

  ghost predicate SameTables(f: Func, g: Func) {
    g.extFuncs == f.extFuncs && g.signatures == f.signatures && g.stackSlots == f.stackSlots && g.globals == f.globals
  }

  /** An instruction that both have, each as before or both the same new one. */
  ghost predicate CarriedOver(f: Func, g: Func, f': Func, g': Func, i: Inst) {
    || (Data(f'.insts, i) == Data(f.insts, i) && Data(g'.insts, i) == Data(g.insts, i))
    || (Data(g'.insts, i) == Data(f'.insts, i) && !Refers(Data(f'.insts, i)))
  }

  lemma {:induction false} CarryAlike(f: Func, g: Func, f': Func, g': Func)
    requires Alike(f, g) && SameFrame(f', g') && SameTables(f, f') && SameTables(g, g')
    requires forall i :: CarriedOver(f, g, f', g', i)
    requires forall i :: i in Flatten(f'.layout) ==>
               i in Flatten(f.layout) || (Data(g'.insts, i) == Data(f'.insts, i) && !Refers(Data(f'.insts, i)))
    ensures Alike(f', g')
  {
    hide Flatten, IsTerminator, MeaningOf;
    forall i
      ensures TrappedTo(Data(f'.insts, i), Data(g'.insts, i)) || SameShape(Data(f'.insts, i), Data(g'.insts, i))
      ensures i in Flatten(f'.layout) ==> TrappedTo(Data(f'.insts, i), Data(g'.insts, i)) || SameRef(f', g', i)
    {
      assert CarriedOver(f, g, f', g', i);
      MeaningMoves(f, f', Data(f.insts, i));
      MeaningMoves(g, g', Data(g.insts, i));
    }
  }

  lemma WithInstsIn(l: Layout, k: nat, s: seq<Inst>, i: Inst)
    requires k < |l| && i in Flatten(WithInsts(l, k, s))
    ensures i in Flatten(l) || i in s
  {
    hide Flatten;
    FlattenWithInsts(l, k, s);
    FlattenSplit(l, k);
  }

  lemma InsertedIn(l: Layout, n: Inst, before: Inst, i: Inst)
    requires i in Flatten(InsertInst(l, n, before))
    ensures i in Flatten(l) || i == n
  {
    hide Flatten, Locate;
    if Locate(l, before).Some? {
      var (b, k) := Locate(l, before).value;
      var s := l[b].insts[..k] + [n] + l[b].insts[k..];
      WithInstsIn(l, b, s, i);
      FlattenSplit(l, b);
    }
  }

  lemma RemovedIn(l: Layout, x: Inst, i: Inst)
    requires i in Flatten(Layouts.RemoveInst(l, x))
    ensures i in Flatten(l)
  {
    hide Flatten, Locate;
    if Locate(l, x).Some? {
      var (b, k) := Locate(l, x).value;
      WithInstsIn(l, b, Without(l[b].insts, k), i);
      FlattenSplit(l, b);
    }
  }

  lemma BlockRemovedIn(l: Layout, b: Block, i: Inst)
    requires i in Flatten(Layouts.RemoveBlock(l, b))
    ensures i in Flatten(l)
  {
    hide Flatten, BlockIndex;
    if BlockIndex(l, b).Some? {
      var k := BlockIndex(l, b).value;
      FlattenRemoveBlock(l, k);
      FlattenSplit(l, k);
    }
  }

  lemma {:induction false} BuildAlike(f: Func, g: Func, opcode: Opcode, args: seq<Value>, result: Value, before: Inst)
    requires Alike(f, g)
    ensures Alike(Build(f, ConstData(opcode, args), result, before), Build(g, ConstData(opcode, args), result, before))
  {
    hide Flatten, InsertInst, IsTerminator, MeaningOf;
    var d := ConstData(opcode, args);
    var f', g' := Build(f, d, result, before), Build(g, d, result, before);
    forall i | i in Flatten(f'.layout) ensures i in Flatten(f.layout) || i == f.nextInst {
      InsertedIn(f.layout, f.nextInst, before, i);
    }
    CarryAlike(f, g, f', g');
  }

  lemma ValuesAlike(f: Func, g: Func, next: Value, types: map<Value, Type>)
    requires Alike(f, g)
    ensures Alike(f.(nextValue := next, types := types), g.(nextValue := next, types := types))
  {
    hide Alike;
    AlikeFrame(f, g);
    CarryAlike(f, g, f.(nextValue := next, types := types), g.(nextValue := next, types := types));
  }

  lemma AlikeFrame(f: Func, g: Func)
    requires Alike(f, g)
    ensures SameFrame(f, g)
  {
  }

  lemma {:induction false} ConstAlike(f: Func, g: Func, v: Value, before: Inst)
    requires Alike(f, g)
    ensures Alike(InsertConst(f, v, before), InsertConst(g, v, before))
  {
    hide Build, Alike;
    AlikeFrame(f, g);
    match TypeOf(f, v)
    case F32 => BuildAlike(f, g, F32const, [], v, before);
    case F64 => BuildAlike(f, g, F64const, [], v, before);
    case Vector => BuildAlike(f, g, Vconst, [], v, before);
    case I128 =>
      var low := f.nextValue;
      BuildAlike(f, g, Iconst, [], low, before);
      var a, b := Build(f, ConstData(Iconst, []), low, before), Build(g, ConstData(Iconst, []), low, before);
      ValuesAlike(a, b, low + 1, f.types[low := I64]);
      BuildAlike(a.(nextValue := low + 1, types := f.types[low := I64]), b.(nextValue := low + 1, types := f.types[low := I64]),
                 Uextend, [low], v, before);
    case _ => BuildAlike(f, g, Iconst, [], v, before);
  }

  lemma {:induction false} ConstsAlike(f: Func, g: Func, vs: seq<Value>, before: Inst)
    requires Alike(f, g)
    ensures Alike(InsertConsts(f, vs, before), InsertConsts(g, vs, before))
    decreases |vs|
  {
    hide InsertConst, Alike;
    if vs != [] {
      ConstAlike(f, g, vs[0], before);
      ConstsAlike(InsertConst(f, vs[0], before), InsertConst(g, vs[0], before), vs[1..], before);
    }
  }

  lemma {:induction false} LayoutAlike(f: Func, g: Func, l: Layout)
    requires Alike(f, g) && forall i :: i in Flatten(l) ==> i in Flatten(f.layout)
    ensures Alike(f.(layout := l), g.(layout := l))
  {
    hide Alike, Flatten;
    AlikeFrame(f, g);
    CarryAlike(f, g, f.(layout := l), g.(layout := l));
  }

  lemma ResultsAlike(f: Func, g: Func, results: map<Inst, seq<Value>>)
    requires Alike(f, g)
    ensures Alike(f.(results := results), g.(results := results))
  {
    hide Alike;
    AlikeFrame(f, g);
    CarryAlike(f, g, f.(results := results), g.(results := results));
  }

  lemma {:induction false} ReplacedAlike(f: Func, g: Func, i: Inst)
    requires Alike(f, g)
    ensures Alike(ReplaceByConsts(f, i), ReplaceByConsts(g, i))
  {
    hide InsertConsts, Layouts.RemoveInst, Alike, Flatten;
    AlikeFrame(f, g);
    var rs, results := ResultsOf(f.results, i), f.results[i := []];
    ResultsAlike(f, g, results);
    ConstsAlike(f.(results := results), g.(results := results), rs, i);
    var f', g' := InsertConsts(f.(results := results), rs, i), InsertConsts(g.(results := results), rs, i);
    AlikeFrame(f', g');
    forall x | x in Flatten(Layouts.RemoveInst(f'.layout, i)) ensures x in Flatten(f'.layout) {
      RemovedIn(f'.layout, i, x);
    }
    LayoutAlike(f', g', Layouts.RemoveInst(f'.layout, i));
  }

  // ----- Steps -----

  /** What a mutator makes of two functions that are alike. */
  ghost predicate SameStep(a: Step, b: Step) {
    && a.next == b.next && (a.outcome.Done? <==> b.outcome.Done?) && (a.outcome.Mutated? <==> b.outcome.Mutated?)
    && (a.outcome.Mutated? ==> a.outcome.status == b.outcome.status && Alike(a.outcome.func, b.outcome.func))
  }

  ghost predicate SameDests(f: Func, g: Func) {
    forall i :: Data(g.insts, i).dests == Data(f.insts, i).dests
  }

  lemma {:induction false} SamePreds(f: Func, g: Func, l: Layout, b: Block)
    requires SameDests(f, g)
    ensures PredsIn(g.insts, l, b) == PredsIn(f.insts, l, b)
  {
    if l != [] {
      SamePreds(f, g, l[1..], b);
    }
  }

  lemma BuildDests(f: Func, g: Func, d: InstData, result: Value, before: Inst)
    requires SameDests(f, g) && g.nextInst == f.nextInst
    ensures SameDests(Build(f, d, result, before), Build(g, d, result, before))
  {
    hide InsertInst;
    var f', g' := Build(f, d, result, before), Build(g, d, result, before);
    forall i ensures Data(g'.insts, i).dests == Data(f'.insts, i).dests {
      assert Data(g.insts, i).dests == Data(f.insts, i).dests;
    }
  }

  lemma {:induction false} ConstDests(f: Func, g: Func, v: Value, before: Inst)
    requires SameDests(f, g) && SameFrame(f, g)
    ensures SameDests(InsertConst(f, v, before), InsertConst(g, v, before))
  {
    hide InsertInst, SameDests;
    match TypeOf(f, v)
    case F32 => BuildDests(f, g, ConstData(F32const, []), v, before);
    case F64 => BuildDests(f, g, ConstData(F64const, []), v, before);
    case Vector => BuildDests(f, g, ConstData(Vconst, []), v, before);
    case I128 =>
      var low := f.nextValue;
      BuildDests(f, g, ConstData(Iconst, []), low, before);
      var a, b := Build(f, ConstData(Iconst, []), low, before), Build(g, ConstData(Iconst, []), low, before);
      OnlyInsts(a, b, a.(nextValue := low + 1, types := f.types[low := I64]), b.(nextValue := low + 1, types := f.types[low := I64]));
      BuildDests(a.(nextValue := low + 1, types := f.types[low := I64]), b.(nextValue := low + 1, types := f.types[low := I64]),
                 ConstData(Uextend, [low]), v, before);
    case _ => BuildDests(f, g, ConstData(Iconst, []), v, before);
  }

  lemma OnlyInsts(f: Func, g: Func, f': Func, g': Func)
    requires SameDests(f, g) && f'.insts == f.insts && g'.insts == g.insts
    ensures SameDests(f', g')
  {
  }

  lemma {:induction false} DropArgsAlike(f: Func, g: Func, preds: seq<Pred>, b: Block, k: nat)
    requires Alike(f, g) && SameDests(f, g)
    ensures Alike(DropArgs(f, preds, b, k), DropArgs(g, preds, b, k))
  {
    hide Flatten, MeaningOf;
    var f', g' := DropArgs(f, preds, b, k), DropArgs(g, preds, b, k);
    forall i
      ensures TrappedTo(Data(f'.insts, i), Data(g'.insts, i)) || SameShape(Data(f'.insts, i), Data(g'.insts, i))
      ensures i in Flatten(f.layout) ==> TrappedTo(Data(f'.insts, i), Data(g'.insts, i)) || SameRef(f', g', i)
    {
      DroppedAt(f, preds, b, k, i);
      DroppedAt(g, preds, b, k, i);
      MeaningDropped(f, f', i, b, k);
      MeaningDropped(g, g', i, b, k);
    }
  }

  lemma DroppedAt(f: Func, preds: seq<Pred>, b: Block, k: nat, i: Inst)
    ensures var d, e := Data(f.insts, i), Data(DropArgs(f, preds, b, k).insts, i);
            e == if exists p :: p in preds && p.inst == i then DropArg(d, b, k) else d
  {
    assert DropArg(Nop, b, k) == Nop;
  }

  lemma MeaningDropped(f: Func, g: Func, i: Inst, b: Block, k: nat)
    requires SameTables(f, g)
    ensures MeaningOf(g, Data(f.insts, i)) == MeaningOf(f, Data(f.insts, i)) == MeaningOf(g, DropArg(Data(f.insts, i), b, k))
  {
  }

  lemma ParamsAlike(f: Func, g: Func, params: map<Block, seq<Value>>)
    requires Alike(f, g)
    ensures Alike(f.(params := params), g.(params := params))
  {
    hide Alike;
    AlikeFrame(f, g);
    CarryAlike(f, g, f.(params := params), g.(params := params));
  }

  lemma {:induction false} ParamAlike(f: Func, g: Func, b: Block, k: nat, first: Inst)
    requires Alike(f, g) && SameDests(f, g) && k < |ParamsOf(f.params, b)|
    ensures ParamsOf(g.params, b) == ParamsOf(f.params, b) && Alike(ParamByConst(f, b, k, first), ParamByConst(g, b, k, first))
  {
    hide InsertConst, DropArgs, Alike, SameDests;
    AlikeFrame(f, g);
    var ps := ParamsOf(f.params, b);
    var fewer := f.params[b := Without(ps, k)];
    var f1, g1 := f.(params := fewer), g.(params := fewer);
    ParamsAlike(f, g, fewer);
    OnlyInsts(f, g, f1, g1);
    ConstAlike(f1, g1, ps[k], first);
    ConstDests(f1, g1, ps[k], first);
    var f2, g2 := InsertConst(f1, ps[k], first), InsertConst(g1, ps[k], first);
    AlikeFrame(f2, g2);
    SamePreds(f2, g2, f2.layout, b);
    DropArgsAlike(f2, g2, Preds(f2, b), b, k);
  }

  lemma {:induction false} SeekAlike(f: Func, g: Func, block: Block, remaining: nat)
    requires SameFrame(f, g)
    ensures SeekParam(f, block, remaining) == SeekParam(g, block, remaining)
    decreases match BlockIndex(f.layout, block) case None => 0 case Some(k) => |f.layout| - k
  {
    hide BlockIndex;
    if remaining == 0 && NextBlock(f.layout, block).Some? {
      var b := NextBlock(f.layout, block).value;
      var k, j := BlockIndex(f.layout, block).value, BlockIndex(f.layout, b);
      if j.Some? && j.value > k {
        SeekAlike(f, g, b, |ParamsOf(f.params, b)|);
      }
    }
  }

  lemma SignatureAlike(f: Func, g: Func, s: seq<Type>)
    requires Alike(f, g)
    ensures Alike(f.(sigParams := s), g.(sigParams := s))
  {
    hide Alike;
    AlikeFrame(f, g);
    CarryAlike(f, g, f.(sigParams := s), g.(sigParams := s));
  }

  lemma {:induction false} ParamStepAlike(block: Block, remaining: nat, f: Func, g: Func)
    requires Alike(f, g) && SameDests(f, g)
    ensures SameStep(MutateReplaceParam(block, remaining, f), MutateReplaceParam(block, remaining, g))
  {
    hide ParamByConst, SeekParam, FirstInst, Alike, SameDests;
    AlikeFrame(f, g);
    SeekAlike(f, g, block, remaining);
    match SeekParam(f, block, remaining)
    case None =>
    case Some((b, r)) =>
      if r - 1 < |ParamsOf(f.params, b)| && FirstInst(f.layout, b).Some? {
        var first := FirstInst(f.layout, b).value;
        ParamAlike(f, g, b, r - 1, first);
        var f', g' := ParamByConst(f, b, r - 1, first), ParamByConst(g, b, r - 1, first);
        AlikeFrame(f', g');
        if r - 1 < |f'.sigParams| {
          SignatureAlike(f', g', Without(f'.sigParams, r - 1));
        }
      }
  }

  lemma {:induction false} MoveStepAlike(block: Block, inst: Inst, f: Func, g: Func)
    requires Alike(f, g) && inst in Flatten(f.layout)
    ensures SameStep(MutateMoveInst(block, inst, f), MutateMoveInst(block, inst, g))
  {
    hide NextInstRetPrev, InsertInst, Layouts.RemoveInst, LastInst, EntryBlock, Flatten, Alike;
    AlikeFrame(f, g);
    if LastInst(f.layout, block).Some? || EntryBlock(f.layout).Some? {
      forall last ensures Alike(f.(layout := InsertInst(Layouts.RemoveInst(f.layout, inst), inst, last)),
                                g.(layout := InsertInst(Layouts.RemoveInst(f.layout, inst), inst, last))) {
        MovedAlike(f, g, inst, last);
      }
    }
  }

  lemma MovedAlike(f: Func, g: Func, inst: Inst, last: Inst)
    requires Alike(f, g) && inst in Flatten(f.layout)
    ensures var l := InsertInst(Layouts.RemoveInst(f.layout, inst), inst, last); Alike(f.(layout := l), g.(layout := l))
  {
    hide InsertInst, Layouts.RemoveInst, Flatten, Alike;
    var l := InsertInst(Layouts.RemoveInst(f.layout, inst), inst, last);
    forall i | i in Flatten(l) ensures i in Flatten(f.layout) {
      InsertedIn(Layouts.RemoveInst(f.layout, inst), inst, last, i);
      if i != inst {
        RemovedIn(f.layout, inst, i);
      }
    }
    LayoutAlike(f, g, l);
  }

  lemma {:induction false} BlockStepAlike(block: Block, f: Func, g: Func)
    requires Alike(f, g)
    ensures SameStep(MutateRemoveBlock(block, f), MutateRemoveBlock(block, g))
  {
    hide NextBlock, Layouts.RemoveBlock, Flatten, Alike;
    AlikeFrame(f, g);
    if NextBlock(f.layout, block).Some? {
      var l := Layouts.RemoveBlock(f.layout, NextBlock(f.layout, block).value);
      forall i | i in Flatten(l) ensures i in Flatten(f.layout) {
        BlockRemovedIn(f.layout, NextBlock(f.layout, block).value, i);
      }
      LayoutAlike(f, g, l);
    }
  }

  predicate MovesOrDrops(m: Mutator) {
    m.MoveInstToEntryBlock? || m.RemoveBlock? || m.ReplaceBlockParamWithConst?
  }

  lemma {:induction false} StepAlike(m: Mutator, f: Func, g: Func)
    requires Alike(f, g) && SameDests(f, g) && MovesOrDrops(m) && CursorOk(m, f)
    ensures SameStep(Mutate(m, f), Mutate(m, g)) && MovesOrDrops(Mutate(m, f).next)
  {
    hide SameStep, NextInstRetPrev, ParamByConst, SeekParam, Flatten, Alike, SameDests;
    match m
    case MoveInstToEntryBlock(b, i) =>
      var c: nat, k: nat :| At(f.layout, c, k, i) && f.layout[c].id == b;
      InFlatten(f.layout, c, k);
      MoveStepAlike(b, i, f, g);
    case RemoveBlock(b) => BlockStepAlike(b, f, g);
    case ReplaceBlockParamWithConst(b, r) => ParamStepAlike(b, r, f, g);
  }
}
