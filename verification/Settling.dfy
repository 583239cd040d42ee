/**
  When a pass that kept no change of size is final.  It is if it came back to the function that it started from,
  and it does exactly if everything it tried on that function was refused.
 */
module Settling {
  import opened Layouts
  import opened Clif
  import opened Mutators
  import opened Invariants
  import opened MutatorsKeep
  import opened Reduction
  import opened ReductionTheorems
  import opened Minimality
  import opened Entities

  // ----- Nothing is kept -----

  /** A mutation that is not tried, refused, or kept without being one. */
  ghost predicate Unkept(crash: Func -> bool, f: Func, s: Step)
    requires s.outcome.Mutated?
  {
    s.outcome.status == Skip || !crash(s.outcome.func) || (s.outcome.status == Changed && s.outcome.func == f)
  }

  /** So it is with every mutation that `m` makes of `f` while it moves on. */
  ghost predicate Refuses(crash: Func -> bool, m: Mutator, f: Func, tries: nat)
    decreases tries
  {
    tries == 0 ||
    var s := Mutate(m, f);
    s.outcome.Done? || (s.outcome.Mutated? && Unkept(crash, f, s) && Refuses(crash, s.next, f, tries - 1))
  }

  ghost predicate PhaseRefuses(crash: Func -> bool, f: Func, phase: nat)
    requires phase < 8
  {
    NewMutator(phase, f).Ok? && Refuses(crash, NewMutator(phase, f).value, f, MaxTries)
  }

  /** Everything that a pass from `f` would try on `f` is refused. */
  ghost predicate AllRefused(crash: Func -> bool, f: Func, from: nat) {
    forall phase :: from <= phase < 8 ==> PhaseRefuses(crash, f, phase)
  }

  lemma ChangedStays(m: Mutator, f: Func)
    requires Mutate(m, f).outcome.Mutated? && Mutate(m, f).outcome.status == Changed
    ensures DidCrash(Mutate(m, f).next) == Ok(Mutate(m, f).next)
  {
    hide NextInstRetPrev, ReplaceByConsts, AlreadyConst, ParamByConst, SeekParam;
  }

  lemma {:induction false} RefusesEnds(crash: Func -> bool, m: Mutator, f: Func, tries: nat)
    requires Refuses(crash, m, f, tries)
    ensures RunPhase(crash, m, f, tries) == PhaseEnd(f, false)
    decreases tries
  {
    hide Mutate, DidCrash;
    if tries > 0 {
      var s := Mutate(m, f);
      if s.outcome.Mutated? {
        if s.outcome.status == Changed {
          ChangedStays(m, f);
        }
        RefusesEnds(crash, s.next, f, tries - 1);
      }
    }
  }

  // ----- Changes lead away -----

  function Untrapped(f: Func): set<Inst> {
    set i | i in Flatten(f.layout) && Data(f.insts, i).opcode != Trap
  }

  function TableSize(f: Func): nat {
    |f.extFuncs| + |f.signatures| + |f.stackSlots| + |f.globals|
  }

  /** New instructions, or more traps, or smaller tables. */
  ghost predicate Further(f: Func, g: Func) {
    || f.nextInst < g.nextInst
    || (f.nextInst == g.nextInst && |Untrapped(g)| < |Untrapped(f)|)
    || (f.nextInst == g.nextInst && |Untrapped(g)| == |Untrapped(f)| && TableSize(g) < TableSize(f))
  }

  lemma {:induction false} ConstFurther(block: Block, inst: Inst, f: Func)
    requires Inv(f) && CursorAt(f.layout, block, inst)
    ensures var s := MutateReplaceInstWithConst(block, inst, f);
            s.outcome.Mutated? && s.outcome.status == Changed ==> Further(f, s.outcome.func)
  {
    hide Inv, Flatten, NextInstRetPrev, Once, DeletedAt, Inserted, InsertConsts, ReplaceByConsts;
    var b: nat, k: nat :| At(f.layout, b, k, inst) && f.layout[b].id == block;
    if !AlreadyConst(f, inst) {
      ReplaceByConstsAt(f, b, k);
    }
  }

  lemma {:induction false} TrapFurther(inst: Inst, f: Func)
    requires inst in Flatten(f.layout) && Data(f.insts, inst).opcode != Trap
    ensures Further(f, f.(insts := f.insts[inst := TrapData]))
  {
    hide Flatten;
    var g := f.(insts := f.insts[inst := TrapData]);
    assert Untrapped(g) == Untrapped(f) - {inst};
  }

  /** A table from which nothing goes stays as it is, and so do the references to it. */
  lemma {:induction false} FullTable<T>(table: seq<T>, used: set<nat>)
    ensures |Keep(table, used)| <= |table|
    ensures |Keep(table, used)| == |table| ==> Keep(table, used) == table && forall r: nat :: Renumber(used, |table|, r) == r
  {
    assert Rank(used, 0) == 0;
    hide Keep, Rank;
    KeepSize(table, used);
    RankMonotone(used, 0, |table|);
    if |Keep(table, used)| == |table| {
      RankGap(used, |table|);
      KeepAll(table, used);
      forall r: nat ensures Renumber(used, |table|, r) == r {
        if r < |table| {
          RankAll(used, r);
        }
      }
    }
  }

  /** Compaction takes something away, or does nothing. */
  lemma {:induction false} CompactFurther<T>(f: Func, g: Func, formats: set<Format>, table: seq<T>, used: set<nat>)
    requires g.insts == RenumberInsts(f, formats, used, |table|) && g.layout == f.layout && g.nextInst == f.nextInst
    requires TableSize(g) + |table| == TableSize(f) + |Keep(table, used)|
    ensures Further(f, g) || (Keep(table, used) == table && g.insts == f.insts && forall r: nat :: Renumber(used, |table|, r) == r)
  {
    FullTable(table, used);
    SameOpcodes(f, g, formats, used, |table|);
    hide Keep, Renumber, Flatten;
    if |Keep(table, used)| == |table| {
      assert RenumberInsts(f, formats, used, |table|) == f.insts;
    }
  }

  lemma SameOpcodes(f: Func, g: Func, formats: set<Format>, used: set<nat>, n: nat)
    requires g.insts == RenumberInsts(f, formats, used, n) && g.layout == f.layout
    ensures Untrapped(g) == Untrapped(f)
  {
    hide Renumber, Flatten;
  }

  lemma {:induction false} EntitiesFurther(kind: nat, f: Func)
    ensures var s := MutateEntities(kind, f); s.outcome.Mutated? ==> s.outcome.func == f || Further(f, s.outcome.func)
  {
    hide Keep, Renumber, Flatten, RenumberInsts, UsedBy, Further;
    if MutateEntities(kind, f).outcome.Mutated? {
      match kind
      case 0 => CompactFurther(f, CompactExtFuncs(f), {Call, FuncAddr}, f.extFuncs, UsedBy(f, {Call, FuncAddr}));
      case 1 => SignaturesFurther(f);
      case 2 => CompactFurther(f, CompactStackSlots(f), {StackLoad, StackStore}, f.stackSlots, UsedBy(f, {StackLoad, StackStore}));
      case _ => CompactFurther(f, CompactGlobals(f), {UnaryGlobalValue}, f.globals, UsedBy(f, {UnaryGlobalValue}));
    }
  }

  lemma {:induction false} SignaturesFurther(f: Func)
    ensures CompactSignatures(f) == f || Further(f, CompactSignatures(f))
  {
    hide Keep, Renumber, Flatten, RenumberInsts, UsedBy, Further, SignaturesUsed;
    var g := CompactSignatures(f);
    CompactFurther(f, g, {CallIndirect}, f.signatures, SignaturesUsed(f));
    if !Further(f, g) {
      assert g.extFuncs == f.extFuncs;
    }
  }

  lemma {:induction false} ChangedFurther(m: Mutator, f: Func)
    requires Inv(f) && CursorOk(m, f) && Mutate(m, f).outcome.Mutated? && Mutate(m, f).outcome.status == Changed
    ensures Mutate(m, f).outcome.func == f || Further(f, Mutate(m, f).outcome.func)
  {
    hide Inv, Further, MutateReplaceInstWithConst, MutateEntities, NextInstRetPrev, ParamByConst, SeekParam, Flatten;
    match m
    case ReplaceInstWithConst(b, i) => ConstFurther(b, i, f);
    case ReplaceInstWithTrap(b, i) =>
      var c: nat, k: nat :| At(f.layout, c, k, i) && f.layout[c].id == b;
      InFlatten(f.layout, c, k);
      TrapFurther(i, f);
    case RemoveUnusedEntities(k) => EntitiesFurther(k, f);
    case _ =>
  }

  // ----- Passes -----

  /** A phase that kept no change of size refused everything, or led away from where it started. */
  lemma {:induction false} QuietPhaseLeads(crash: Func -> bool, m: Mutator, f: Func, tries: nat)
    requires Inv(f) && CursorOk(m, f) && RunPhase(crash, m, f, tries).PhaseEnd? && !RunPhase(crash, m, f, tries).shrank
    ensures var h := RunPhase(crash, m, f, tries).func;
            Inv(h) && ((h == f && Refuses(crash, m, f, tries)) || Further(f, h))
    decreases tries
  {
    hide Mutate, Inv, CursorOk, DidCrash, Further, Excusable;
    if tries > 0 {
      MutateKeeps(m, f);
      var s := Mutate(m, f);
      if s.outcome.Mutated? {
        var g := s.outcome.func;
        if s.outcome.status == Skip || !crash(g) {
          QuietPhaseLeads(crash, s.next, f, tries - 1);
        } else {
          ChangedFurther(m, f);
          ChangedStays(m, f);
          QuietPhaseLeads(crash, s.next, g, tries - 1);
          if g != f {
            FurtherOn(f, g, RunPhase(crash, s.next, g, tries - 1).func);
          }
        }
      }
    }
  }

  lemma FurtherOn(f: Func, g: Func, h: Func)
    requires Further(f, g) && (h == g || Further(g, h))
    ensures Further(f, h)
  {
    hide Untrapped, TableSize;
  }

  lemma {:induction false} QuietPassLeads(crash: Func -> bool, f: Func, phase: nat)
    requires Inv(f) && phase <= 8 && RunPass(crash, f, phase).PhaseEnd? && !RunPass(crash, f, phase).shrank
    ensures var h := RunPass(crash, f, phase).func;
            Inv(h) && ((h == f && AllRefused(crash, f, phase)) || Further(f, h))
    decreases 8 - phase
  {
    hide RunPhase, NewMutator, Inv, Further, CursorOk, Refuses;
    if phase < 8 {
      NewMutatorOk(phase, f);
      var m := NewMutator(phase, f).value;
      QuietPhaseLeads(crash, m, f, MaxTries);
      var g := RunPhase(crash, m, f, MaxTries).func;
      QuietPassLeads(crash, g, phase + 1);
      if g != f {
        FurtherOn(f, g, RunPass(crash, g, phase + 1).func);
      }
    }
  }

  lemma {:induction false} RefusedPass(crash: Func -> bool, f: Func, phase: nat)
    requires phase <= 8 && AllRefused(crash, f, phase)
    ensures RunPass(crash, f, phase) == PhaseEnd(f, false)
    decreases 8 - phase
  {
    hide RunPhase, NewMutator, Refuses;
    if phase < 8 {
      assert PhaseRefuses(crash, f, phase);
      RefusesEnds(crash, NewMutator(phase, f).value, f, MaxTries);
      RefusedPass(crash, f, phase + 1);
    }
  }

  /** A pass comes back to where it started, without a change of size, exactly if everything tried there is refused. */
  lemma FixedIff(crash: Func -> bool, f: Func)
    requires Inv(f)
    ensures RunPass(crash, f, 0) == PhaseEnd(f, false) <==> AllRefused(crash, f, 0)
  {
    hide RunPass, Inv, AllRefused;
    if RunPass(crash, f, 0) == PhaseEnd(f, false) {
      QuietPassLeads(crash, f, 0);
    }
    if AllRefused(crash, f, 0) {
      RefusedPass(crash, f, 0);
    }
  }

  /** And then nothing will ever be found: all passes come back to it, and no instruction but the last can be deleted. */
  lemma FixedIsFinal(crash: Func -> bool, f: Func, passes: nat)
    requires Inv(f) && AllRefused(crash, f, 0) && passes > 0
    ensures RunPasses(crash, f, passes) == Passes(f, f, true)
    ensures |Flatten(f.layout)| <= MaxTries + 1 ==> OneMinimal(crash, f)
  {
    hide RunPass, Inv, OneMinimal, Flatten, AllRefused;
    FixedIff(crash, f);
    if |Flatten(f.layout)| <= MaxTries + 1 {
      QuietPass(crash, f);
    }
  }

  /** A reduction that settles where everything is refused returns that function, or it with its aliases resolved. */
  lemma SettledOnStart(crash: Func -> bool, f: Func)
    requires Inv(f)
    requires var r := Reduce(crash, f); r.Result? && r.settled && AllRefused(crash, r.start, 0)
    ensures var r := Reduce(crash, f); r.func == r.start || r.func == ResolveAllAliases(r.start)
  {
    hide RunPasses, RunPass, Inv, AllRefused, ResolveAllAliases, AliasFree;
    ReduceKeeps(crash, f);
    var r := Reduce(crash, f);
    SettledPass(crash, TryRemoveSrclocs(crash, TryResolveAliases(crash, f).value), MaxPasses);
    FixedIff(crash, r.start);
  }

  // ----- Deletions -----

  lemma {:induction false} MinimalRefuses(crash: Func -> bool, block: Block, inst: Inst, f: Func, n: nat, tries: nat)
    requires Inv(f) && FlatAt(f.layout, block, inst, n) && OneMinimal(crash, f)
    ensures Refuses(crash, RemoveInst(block, inst), f, tries)
    decreases tries
  {
    hide Inv, Flatten, FlatAt, StrikeLayout, DidCrash, MutateRemoveInst;
    TryAt(f, block, inst, n);
    if tries > 0 && n + 1 < |Flatten(f.layout)| {
      var s := Mutate(RemoveInst(block, inst), f);
      assert !crash(DeleteInst(f, Flatten(f.layout)[n]));
      MinimalRefuses(crash, s.next.block, s.next.inst, f, n + 1, tries - 1);
    }
  }

  /**
    For every function, of at most 10001 instructions: no instruction but the last can be deleted exactly if the
    first phase of another pass would refuse everything.
   */
  lemma OneMinimalIff(crash: Func -> bool, f: Func)
    requires Inv(f) && |Flatten(f.layout)| <= MaxTries + 1
    ensures OneMinimal(crash, f) <==> PhaseRefuses(crash, f, 0)
  {
    hide Inv, FlatAt, NewMutator, RunPhase, Refuses;
    FirstIsFlat(f);
    var m := NewMutator(0, f).value;
    if OneMinimal(crash, f) {
      MinimalRefuses(crash, m.block, m.inst, f, 0, MaxTries);
    }
    if PhaseRefuses(crash, f, 0) {
      RefusesEnds(crash, m, f, MaxTries);
      QuietPhase(crash, m.block, m.inst, f, 0, MaxTries);
    }
  }
}
