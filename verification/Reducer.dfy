/**
  The reducer as it runs: a mutator object whose cursor moves at every call, and the nested loops over
  passes, phases and tries.  All of it computes the functions of `Mutators` and `Reduction`.
 */
module Reducer {
  import opened Options
  import opened Layouts
  import opened Clif
  import opened Mutators
  import opened Invariants
  import opened MutatorsKeep
  import opened BlockMutatorsKeep
  import opened MutatorLoops
  import opened EntityLoops
  import opened Reduction
  import opened ReductionTheorems

  // ----- The mutators with loops -----

  method ReplaceWithConsts(f: Func, inst: Inst) returns (g: Func)
    ensures g == ReplaceByConsts(f, inst)
  {
    var rs := ResultsOf(f.results, inst);
    g := f.(results := f.results[inst := []]);
    g := InsertConstsLoop(g, rs, inst);
    g := g.(layout := Layouts.RemoveInst(g.layout, inst));
  }

  method ReplaceInst(block: Block, inst: Inst, f: Func) returns (s: Step)
    ensures s == MutateReplaceInstWithConst(block, inst, f)
  {
    var a := NextInstRetPrev(f.layout, block, inst);
    match a {
      case End => return Step(ReplaceInstWithConst(block, inst), Done);
      case Stuck(e) => return Step(ReplaceInstWithConst(block, inst), Faulted(e));
      case Advanced(b, i) =>
        if AlreadyConst(f, inst) {
          return Step(ReplaceInstWithConst(b, i), Mutated(f, Skip));
        }
        var g := ReplaceWithConsts(f, inst);
        var status := if |ResultsOf(f.results, inst)| == 1 then Changed else ExpandedOrShrinked;
        s := Step(ReplaceInstWithConst(b, i), Mutated(g, status));
    }
  }

  method TakeBlockOut(block: Block, f: Func) returns (s: Step)
    requires Inv(f)
    ensures s == MutateRemoveBlock(block, f)
  {
    InvLayout(f);
    hide Inv, WfLayout;
    var next := NextBlock(f.layout, block);
    if next.None? {
      return Step(RemoveBlock(block), Done);
    }
    NextBlockFound(f.layout, block);
    var l := EmptyAndRemoveBlock(f.layout, next.value);
    s := Step(RemoveBlock(next.value), Mutated(f.(layout := l), ExpandedOrShrinked));
  }

  lemma NextBlockFound(l: Layout, block: Block)
    requires WfLayout(l) && NextBlock(l, block).Some?
    ensures BlockIndex(l, NextBlock(l, block).value).Some? && BlockIndex(l, NextBlock(l, block).value).value > 0
  {
    hide Flatten, Once;
    NextBlockAt(l, block);
  }

  /** Before the edges into `b` lose an argument. */
  lemma {:induction false} EdgesKnown(f: Func, c: nat, k: nat)
    requires Inv(f) && c < |f.layout| && k < |ParamsOf(f.params, f.layout[c].id)|
    ensures f.layout[c].insts != []
    ensures var b, ps := f.layout[c].id, ParamsOf(f.params, f.layout[c].id);
            var g := InsertConst(f.(params := f.params[b := Without(ps, k)]), ps[k], f.layout[c].insts[0]);
            DistinctPreds(Preds(g, b)) && forall p :: p in Preds(g, b) ==> p.inst in g.insts
  {
    hide Flatten, TablesGrow, InsertConst, Once, AliasFree, AllArityOk, DistinctPreds;
    var b, ps := f.layout[c].id, ParamsOf(f.params, f.layout[c].id);
    InvLayout(f);
    ParamByConstAt(f, c, k);
    InsertConstIgnoresParams(f, f.params[b := Without(ps, k)], ps[k], f.layout[c].insts[0]);
    var h := InsertConst(f, ps[k], f.layout[c].insts[0]);
    PredsDistinct(h.insts, h.layout, b);
    assert forall p :: p in PredsIn(h.insts, h.layout, b) ==> Targets(Data(h.insts, p.inst), b);
  }

  method TakeParamOut(block: Block, remaining: nat, f: Func) returns (s: Step)
    requires Inv(f) && CursorOk(ReplaceBlockParamWithConst(block, remaining), f)
    ensures s == MutateReplaceParam(block, remaining, f)
  {
    hide Inv, InsertConst, DropArgs, Preds, SeekParam, BlockIndex;
    SeekParamAt(f, block, remaining);
    var sought := SeekParamLoop(f, block, remaining);
    if sought.None? {
      return Step(ReplaceBlockParamWithConst(block, remaining), Done);
    }
    var b, k := sought.value.0, sought.value.1 - 1;
    var next := ReplaceBlockParamWithConst(b, k);
    var ps := ParamsOf(f.params, b);
    ghost var c :| 0 <= c < |f.layout| && f.layout[c].id == b;
    ReplaceParamAt(f, c, k + 1);
    EdgesKnown(f, c, k);
    var first := FirstInst(f.layout, b).value;
    var g := InsertConst(f.(params := f.params[b := Without(ps, k)]), ps[k], first);
    g := DropArgsLoop(g, Preds(g, b), b, k);
    if EntryBlock(g.layout) == Some(b) {
      if k >= |g.sigParams| {
        return Step(next, Faulted(SignatureIndex));
      }
      g := g.(sigParams := Without(g.sigParams, k));
    }
    s := Step(next, Mutated(g, ExpandedOrShrinked));
  }

  method Compact(kind: nat, f: Func) returns (s: Step)
    ensures s == MutateEntities(kind, f)
  {
    hide Flatten, Keep, Renumber, RenumberInsts, UsedBy;
    if kind > 3 || (kind == 3 && !OnlySimpleGlobals(f)) {
      return Step(RemoveUnusedEntities(kind), Done);
    }
    var g := f;
    match kind {
      case 0 =>
        var insts, kept, _ := CompactTable(f, {Call, FuncAddr}, f.extFuncs, []);
        NoOthers(f, {Call, FuncAddr});
        g := f.(insts := insts, extFuncs := kept);
      case 1 =>
        var others := seq(|f.extFuncs|, k requires 0 <= k < |f.extFuncs| => f.extFuncs[k].signature);
        var insts, kept, renamed := CompactTable(f, {CallIndirect}, f.signatures, others);
        OthersAreSignatures(f, others);
        var funcs := seq(|f.extFuncs|, k requires 0 <= k < |f.extFuncs| && |renamed| == |f.extFuncs| =>
          f.extFuncs[k].(signature := renamed[k]));
        g := f.(insts := insts, signatures := kept, extFuncs := funcs);
        assert funcs == CompactSignatures(f).extFuncs;
      case 2 =>
        var insts, kept, _ := CompactTable(f, {StackLoad, StackStore}, f.stackSlots, []);
        NoOthers(f, {StackLoad, StackStore});
        g := f.(insts := insts, stackSlots := kept);
      case _ =>
        var insts, kept, _ := CompactTable(f, {UnaryGlobalValue}, f.globals, []);
        NoOthers(f, {UnaryGlobalValue});
        g := f.(insts := insts, globals := kept);
    }
    s := Step(RemoveUnusedEntities(kind + 1), Mutated(g, Changed));
  }

  lemma NoOthers(f: Func, formats: set<Format>)
    ensures var none: seq<nat> := [];
            UsedBy(f, formats) + (set k | 0 <= k < |none| :: none[k]) == UsedBy(f, formats)
  {
    hide UsedBy;
  }

  lemma OthersAreSignatures(f: Func, others: seq<nat>)
    requires |others| == |f.extFuncs| && forall k :: 0 <= k < |others| ==> others[k] == f.extFuncs[k].signature
    ensures UsedBy(f, {CallIndirect}) + (set k | 0 <= k < |others| :: others[k]) == SignaturesUsed(f)
  {
    hide UsedBy;
    var a := set k | 0 <= k < |others| :: others[k];
    var b := set k | 0 <= k < |f.extFuncs| :: f.extFuncs[k].signature;
    assert forall x :: x in a <==> x in b;
  }

  method MergeIntoPred(block: Block, prev: Option<Block>, f: Func) returns (s: Step)
    requires Inv(f)
    ensures s == MutateMergeBlocks(block, prev, f)
  {
    hide Inv, Preds, AliasParams, MergedLayout;
    var next := NextBlock(f.layout, block);
    if next.None? {
      return Step(MergeBlocks(block, prev), Done);
    }
    var b := next.value;
    InvLayout(f);
    NextBlockFound(f.layout, block);
    var preds := Preds(f, b);
    if |preds| != 1 {
      return Step(MergeBlocks(b, prev), Mutated(f, Skip));
    }
    var pred := preds[0];
    var dests := Data(f.insts, pred.inst).dests;
    if |dests| != 1 {
      return Step(MergeBlocks(b, prev), Mutated(f, Skip));
    }
    MergeStep(f, b);
    var aliases := AliasParamsLoop(f.aliases, ParamsOf(f.params, b), dests[0].args);
    if aliases.Err? {
      return Step(MergeBlocks(b, prev), Faulted(aliases.fault));
    }
    var l := Layouts.RemoveInst(f.layout, pred.inst);
    MovingStarts(f, b);
    if pred.block == b && InstsOf(l, b) != [] {
      return Step(MergeBlocks(b, prev), Faulted(SelfMerge));
    }
    if pred.block != b {
      l := MoveInsts(l, b, pred.block);
    }
    l := Layouts.RemoveBlock(l, b);
    MovingEnds(f, b);
    var g := f.(aliases := aliases.value, params := f.params[b := []], layout := l);
    s := Step(MergeBlocks(b, Some(pred.block)), Mutated(g, ExpandedOrShrinked));
  }

  lemma {:induction false} MovingStarts(f: Func, b: Block)
    requires Inv(f) && |Preds(f, b)| == 1 && BlockIndex(f.layout, b).Some?
    ensures var pred := Preds(f, b)[0];
            var l := Layouts.RemoveInst(f.layout, pred.inst);
            DistinctIds(l) && Once(Flatten(l)) && BlockIndex(l, b).Some? && BlockIndex(l, pred.block).Some?
  {
    hide Flatten, Once, PredsIn, AliasFree, AllArityOk, BlockIndex, Layouts.RemoveInst;
    var l, pred := f.layout, Preds(f, b)[0];
    var pi := PredsSound(f.insts, l, b, pred);
    var n := |l[pi].insts| - 1;
    RemoveInstAt(l, pi, n);
    WithInstsIds(l, pi, Without(l[pi].insts, n));
    assert Without(l[pi].insts, n) == l[pi].insts[..n];
    PrefixOnce(l, pi, n);
  }

  lemma {:induction false} MovingEnds(f: Func, b: Block)
    requires Inv(f) && |Preds(f, b)| == 1 && BlockIndex(f.layout, b).Some?
    ensures var pred := Preds(f, b)[0];
            var l := Layouts.RemoveInst(f.layout, pred.inst);
            && BlockIndex(l, b).Some? && BlockIndex(l, pred.block).Some?
            && var k, j := BlockIndex(l, b).value, BlockIndex(l, pred.block).value;
               MergedLayout(f.layout, pred, b) ==
               if pred.block == b && l[k].insts == [] then Layouts.RemoveBlock(l, b)
               else if pred.block == b then MergedLayout(f.layout, pred, b)
               else Layouts.RemoveBlock(WithInsts(WithInsts(l, j, l[j].insts + l[k].insts), k, []), b)
  {
    hide Inv, Preds, Layouts.RemoveInst, Flatten, Once, BlockIndex, DistinctIds;
    MovingStarts(f, b);
    var pred := Preds(f, b)[0];
    var l := Layouts.RemoveInst(f.layout, pred.inst);
    var k, j := BlockIndex(l, b).value, BlockIndex(l, pred.block).value;
    var grown := WithInsts(l, j, l[j].insts + l[k].insts);
    WithInstsIds(l, j, l[j].insts + l[k].insts);
    WithInstsIds(grown, k, []);
    var m := WithInsts(grown, k, []);
    assert m[..k] + m[k + 1..] == grown[..k] + grown[k + 1..];
    if pred.block == b && l[k].insts == [] {
      assert grown == l;
    }
  }

  // ----- The mutator object -----

  class MutatorBox {
    var cursor: Mutator

    /** The mutator of a phase, at the start of the function. */
    constructor (phase: nat, f: Func)
      requires phase < 8 && NewMutator(phase, f).Ok?
      ensures cursor == NewMutator(phase, f).value
    {
      cursor := NewMutator(phase, f).value;
    }

    /** Tries one mutation; the function it is given is a copy. */
    method Mutate(f: Func) returns (o: Outcome)
      requires Inv(f) && CursorOk(cursor, f)
      modifies this
      ensures Step(cursor, o) == Mutators.Mutate(old(cursor), f)
    {
      hide Inv;
      var s: Step;
      match cursor {
        case RemoveInst(b, i) => s := MutateRemoveInst(b, i, f);
        case ReplaceInstWithConst(b, i) => s := ReplaceInst(b, i, f);
        case ReplaceInstWithTrap(b, i) => s := MutateReplaceInstWithTrap(b, i, f);
        case MoveInstToEntryBlock(b, i) => s := MutateMoveInst(b, i, f);
        case RemoveBlock(b) => s := TakeBlockOut(b, f);
        case ReplaceBlockParamWithConst(b, r) => s := TakeParamOut(b, r, f);
        case RemoveUnusedEntities(k) => s := Compact(k, f);
        case MergeBlocks(b, p) => s := MergeIntoPred(b, p, f);
      }
      cursor := s.next;
      o := s.outcome;
    }

    method DidCrash() returns (ok: bool)
      modifies this
      ensures ok == Mutators.DidCrash(old(cursor)).Ok?
      ensures cursor == if ok then Mutators.DidCrash(old(cursor)).value else old(cursor)
    {
      var moved := Mutators.DidCrash(cursor);
      ok := moved.Ok?;
      if ok {
        cursor := moved.value;
      }
    }
  }

  // ----- The loops -----

  function Also(e: PhaseEnd, shrank: bool): PhaseEnd {
    match e
    case PhaseEnd(f, s) => PhaseEnd(f, s || shrank)
    case PhaseBroken(_, _) => e
  }

  method TryAll(crash: Func -> bool, m: MutatorBox, f: Func) returns (r: PhaseEnd)
    requires Inv(f) && CursorOk(m.cursor, f)
    modifies m
    ensures r == RunPhase(crash, old(m.cursor), f, MaxTries)
  {
    hide Inv, CursorOk, Mutators.Mutate, Mutators.DidCrash;
    var func, shrank := f, false;
    for n := 0 to MaxTries
      invariant Inv(func) && CursorOk(m.cursor, func)
      invariant Also(RunPhase(crash, m.cursor, func, MaxTries - n), shrank) == RunPhase(crash, old(m.cursor), f, MaxTries)
    {
      MutateKeeps(m.cursor, func);
      var o := m.Mutate(func);
      match o {
        case Done => return PhaseEnd(func, shrank);
        case Faulted(e) => return PhaseBroken(e, func);
        case Mutated(g, status) =>
          if status == Skip {
            continue;
          }
          if crash(g) {
            func := g;
            var ok := m.DidCrash();
            if !ok {
              return PhaseBroken(NoPrevBlock, func);
            }
            if status == ExpandedOrShrinked {
              shrank := true;
            }
          }
      }
    }
    r := PhaseEnd(func, shrank);
  }

  method AllPhases(crash: Func -> bool, f: Func) returns (r: PhaseEnd)
    requires Inv(f) && crash(f)
    ensures r == RunPass(crash, f, 0)
  {
    hide Inv, CursorOk, RunPhase, NewMutator;
    var func, shrank := f, false;
    for phase := 0 to 8
      invariant Inv(func) && crash(func)
      invariant Also(RunPass(crash, func, phase), shrank) == RunPass(crash, f, 0)
    {
      NewMutatorOk(phase, func);
      var m := new MutatorBox(phase, func);
      AnythingCarried();
      PhaseKeeps(crash, Anything, m.cursor, func, MaxTries);
      PhaseCrashes(crash, m.cursor, func, MaxTries);
      var e := TryAll(crash, m, func);
      if e.PhaseBroken? {
        return e;
      }
      func := e.func;
      shrank := shrank || e.shrank;
    }
    r := PhaseEnd(func, shrank);
  }

  method AllPasses(crash: Func -> bool, f: Func) returns (r: Passes)
    requires Inv(f) && crash(f)
    ensures r == RunPasses(crash, f, MaxPasses)
  {
    hide Inv, RunPass;
    var func, start := f, f;
    for pass := 0 to MaxPasses
      invariant Inv(func) && crash(func)
      invariant pass < MaxPasses ==> RunPasses(crash, func, MaxPasses - pass) == RunPasses(crash, f, MaxPasses)
      invariant pass == MaxPasses ==> Passes(func, start, false) == RunPasses(crash, f, MaxPasses)
    {
      start := func;
      AnythingCarried();
      PassKeeps(crash, Anything, func, 0);
      PassCrashes(crash, func, 0);
      var e := AllPhases(crash, func);
      if e.PhaseBroken? {
        return PassesBroken(e.fault, e.at);
      }
      func := e.func;
      if !e.shrank {
        return Passes(func, start, true);
      }
    }
    r := Passes(func, start, false);
  }

  /** The whole reduction. */
  method ReduceFunction(crash: Func -> bool, f: Func) returns (r: Reduced)
    requires Inv(f)
    ensures r == Reduce(crash, f)
  {
    hide Inv, RunPasses, ResolveAllAliases;
    if !crash(f) {
      return NotCrashing;
    }
    var func := f;
    var resolved := TryResolveAliases(crash, func);
    if resolved.Err? {
      return ReduceBroken(resolved.fault, func);
    }
    ResolveKeepsInv(f);
    SrclocsKeepInv(resolved.value);
    func := TryRemoveSrclocs(crash, resolved.value);
    var passes := AllPasses(crash, func);
    if passes.PassesBroken? {
      return ReduceBroken(passes.fault, passes.at);
    }
    resolved := TryResolveAliases(crash, passes.func);
    if resolved.Err? {
      return ReduceBroken(resolved.fault, passes.func);
    }
    func := resolved.value;
    if !crash(func) {
      return StoppedCrashing;
    }
    r := Result(func, passes.start, passes.settled);
  }
}
