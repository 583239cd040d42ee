/**
  Oracles that accept only functions in which every block ends in its only terminator, and that see neither which
  terminators were replaced by traps nor how the tables are numbered.  For these a pass that kept no change of size
  and no constant is final.
 */
module BlindPasses {
  import opened Layouts
  import opened Clif
  import opened Mutators
  import opened Invariants
  import opened MutatorsKeep
  import opened Reduction
  import opened ReductionTheorems
  import opened Minimality
  import opened Entities
  import opened Settling
  import opened BlindOracles
  import opened MutatorsAlike

  ghost predicate Blind(crash: Func -> bool) {
    (forall h :: crash(h) ==> Terminated(h)) && TrapBlind(crash) && TableBlind(crash)
  }

  lemma {:induction false} CrashesAlike(crash: Func -> bool, f: Func, g: Func)
    requires Blind(crash) && Alike(f, g)
    ensures crash(g) == crash(f)
  {
    hide Alike, Terminated, TrapBlind, TableBlind;
    AlikeTerminated(f, g);
    if Terminated(f) {
      FailsAlike(crash, f, g);
    }
  }

  // ----- Constants -----

  lemma {:induction false} AlreadyAlike(f: Func, g: Func, i: Inst)
    requires Inv(f) && Alike(f, g) && AlreadyConst(f, i)
    ensures AlreadyConst(g, i)
  {
    hide Flatten, AliasFree, Root, Once, ParamsIn, SameRef, AllArityOk, TerminatorsOk;
    forall x | x in f.insts && f.insts[x].opcode in {Iconst, F32const, F64const, Uextend}
      ensures x in g.insts && g.insts[x].opcode == f.insts[x].opcode && g.insts[x].args == f.insts[x].args
    {
      assert WfData(f.insts[x]);
      assert SameShape(Data(f.insts, x), Data(g.insts, x));
    }
  }

  lemma {:induction false} ConstsGrow(f: Func, i: Inst)
    requires Inv(f) && i in Flatten(f.layout) && ResultsOf(f.results, i) != []
    ensures ReplaceByConsts(f, i) != f
  {
    hide Inv, Flatten, ReplaceByConsts, Inserted, DeletedAt, InsertConsts;
    var b, k := InFlattenAt(f.layout, i);
    ReplaceByConstsAt(f, b, k);
  }

  lemma {:induction false} ConstRefuses(crash: Func -> bool, m: Mutator, f: Func, g: Func, tries: nat)
    requires Blind(crash) && Inv(f) && CursorOk(m, f) && m.ReplaceInstWithConst? && Alike(f, g) && Refuses(crash, m, f, tries)
    ensures Refuses(crash, m, g, tries)
    decreases tries
  {
    hide Blind, Inv, ReplaceByConsts, AlreadyConst, DidCrash, Flatten, Excusable, Alike, NextInstRetPrev;
    if tries > 0 {
      MutateKeeps(m, f);
      AlikeFrame(f, g);
      var s := Mutate(m, f);
      if s.outcome.Mutated? {
        var c: nat, k: nat :| At(f.layout, c, k, m.inst) && f.layout[c].id == m.block;
        InFlatten(f.layout, c, k);
        if AlreadyConst(f, m.inst) {
          AlreadyAlike(f, g, m.inst);
        } else {
          HasResults(f, m.inst);
          ConstsGrow(f, m.inst);
          ReplacedAlike(f, g, m.inst);
          CrashesAlike(crash, ReplaceByConsts(f, m.inst), ReplaceByConsts(g, m.inst));
        }
        ConstRefuses(crash, s.next, f, g, tries - 1);
      }
    }
  }

  lemma HasResults(f: Func, i: Inst)
    requires !AlreadyConst(f, i)
    ensures ResultsOf(f.results, i) != []
  {
  }

  // ----- Traps -----

  /** From index `n` on, and but for the last instruction, all terminators are traps. */
  ghost predicate TrappedFrom(f: Func, n: nat) {
    forall j :: n <= j < |Flatten(f.layout)| - 1 ==>
      var d := Data(f.insts, Flatten(f.layout)[j]); d.opcode == Trap || !IsTerminator(d)
  }

  lemma {:induction false} TrapAtFlat(f: Func, block: Block, inst: Inst, n: nat)
    requires Inv(f) && FlatAt(f.layout, block, inst, n)
    ensures n < |Flatten(f.layout)| && Flatten(f.layout)[n] == inst
    ensures var s := MutateReplaceInstWithTrap(block, inst, f);
            if n + 1 == |Flatten(f.layout)| then s.outcome == Done
            else
              && s.next.ReplaceInstWithTrap? && DidCrash(s.next) == Ok(s.next)
              && FlatAt(f.layout, s.next.block, s.next.inst, n + 1)
              && s.outcome == if Data(f.insts, inst).opcode == Trap then Mutated(f, Skip) else Mutated(TrappedAt(f, inst), Changed)
  {
    hide Inv, Flatten, NextInstRetPrev, Once;
    var l := f.layout;
    var b: nat, k: nat :| At(l, b, k, inst) && l[b].id == block && n == |Flatten(l[..b])| + k;
    InvLayout(f);
    FlatBounds(l, b, k);
    NextFlat(l, b, k);
    NextInstRetPrevAt(l, b, k);
    var p := NextPlace(l, b, k);
    if p.0 < |l| {
      assert At(l, p.0, p.1, l[p.0].insts[p.1]);
    }
  }

  /** A trap is kept exactly for a terminator. */
  lemma {:induction false} TrapKeptIff(crash: Func -> bool, f: Func, i: Inst)
    requires Blind(crash) && crash(f) && i in Flatten(f.layout)
    ensures crash(TrappedAt(f, i)) <==> IsTerminator(Data(f.insts, i))
  {
    hide Flatten, Alike, IsTerminator, TrapBlind, TableBlind, Terminated;
    if IsTerminator(Data(f.insts, i)) {
      TrapAlike(f, i);
      CrashesAlike(crash, f, TrappedAt(f, i));
    } else if Terminated(TrappedAt(f, i)) {
      TrapsTerminator(f, i);
    }
  }

  lemma {:induction false} TrapPhase(crash: Func -> bool, block: Block, inst: Inst, f: Func, n: nat, tries: nat)
    requires Inv(f) && FlatAt(f.layout, block, inst, n) && |Flatten(f.layout)| <= tries + n + 1
    requires Blind(crash) && crash(f)
    ensures var r := RunPhase(crash, ReplaceInstWithTrap(block, inst), f, tries);
            r.PhaseEnd? && r.func.layout == f.layout && TrappedFrom(r.func, n) && TrapsMore(f, r.func)
    decreases tries
  {
    hide Blind, Inv, Flatten, FlatAt, DidCrash, MutateReplaceInstWithTrap, TrappedFrom, TrapsMore, IsTerminator;
    TrapAtFlat(f, block, inst, n);
    if n + 1 < |Flatten(f.layout)| {
      var s := Mutate(ReplaceInstWithTrap(block, inst), f);
      assert inst in Flatten(f.layout);
      TrapKeptIff(crash, f, inst);
      TrapKeepsInv(f, inst);
      var d := Data(f.insts, inst);
      var g := if d.opcode == Trap || !IsTerminator(d) then f else TrappedAt(f, inst);
      assert crash(g);
      TrapPhase(crash, s.next.block, s.next.inst, g, n + 1, tries - 1);
      var h := RunPhase(crash, s.next, g, tries - 1).func;
      assert RunPhase(crash, ReplaceInstWithTrap(block, inst), f, tries).func == h;
      OneMoreTrap(f, inst, g, h, n);
    } else {
      LastIsLeft(f, n);
    }
  }

  /** Traps stay, and so does what is no terminator. */
  ghost predicate TrapsMore(f: Func, g: Func) {
    forall i :: (Data(f.insts, i).opcode == Trap ==> Data(g.insts, i).opcode == Trap) &&
                (!IsTerminator(Data(f.insts, i)) ==> !IsTerminator(Data(g.insts, i)))
  }

  lemma OneMoreTrap(f: Func, inst: Inst, g: Func, h: Func, n: nat)
    requires var d := Data(f.insts, inst); g == if d.opcode == Trap || !IsTerminator(d) then f else TrappedAt(f, inst)
    requires TrapsMore(g, h)
    requires h.layout == f.layout && n < |Flatten(f.layout)| && Flatten(f.layout)[n] == inst && TrappedFrom(h, n + 1)
    ensures TrapsMore(f, h) && TrappedFrom(h, n)
  {
    hide Flatten;
    var e := Data(g.insts, inst);
    assert e.opcode == Trap || !IsTerminator(e);
    assert forall i :: i != inst ==> Data(g.insts, i) == Data(f.insts, i);
  }

  lemma LastIsLeft(f: Func, n: nat)
    requires n + 1 >= |Flatten(f.layout)|
    ensures TrappedFrom(f, n) && TrapsMore(f, f)
  {
    hide Flatten;
  }

  lemma {:induction false} TrapRefuses(crash: Func -> bool, block: Block, inst: Inst, f: Func, n: nat, tries: nat)
    requires Blind(crash) && crash(f) && Inv(f) && FlatAt(f.layout, block, inst, n) && TrappedFrom(f, n)
    ensures Refuses(crash, ReplaceInstWithTrap(block, inst), f, tries)
    decreases tries
  {
    hide Blind, Inv, Flatten, FlatAt, DidCrash, MutateReplaceInstWithTrap, IsTerminator;
    TrapAtFlat(f, block, inst, n);
    if tries > 0 && n + 1 < |Flatten(f.layout)| {
      var s := Mutate(ReplaceInstWithTrap(block, inst), f);
      assert inst in Flatten(f.layout);
      TrapKeptIff(crash, f, inst);
      TrapRefuses(crash, s.next.block, s.next.inst, f, n + 1, tries - 1);
    }
  }

  lemma FirstTrapIsFlat(f: Func)
    requires Inv(f)
    ensures NewMutator(2, f).Ok? && NewMutator(2, f).value.ReplaceInstWithTrap?
    ensures FlatAt(f.layout, NewMutator(2, f).value.block, NewMutator(2, f).value.inst, 0)
  {
    InvLayout(f);
    BlockIndexAt(f.layout, 0);
    assert f.layout[..0] == [] && At(f.layout, 0, 0, f.layout[0].insts[0]);
  }

  lemma {:induction false} RenamedTraps(f: Func, g: Func)
    requires Renamed(f, g) && TrappedFrom(f, 0)
    ensures TrappedFrom(g, 0)
  {
    hide Flatten, SameRef;
    forall j | 0 <= j < |Flatten(g.layout)| - 1
      ensures var d := Data(g.insts, Flatten(g.layout)[j]); d.opcode == Trap || !IsTerminator(d)
    {
      assert SameShape(Data(f.insts, Flatten(f.layout)[j]), Data(g.insts, Flatten(f.layout)[j]));
    }
  }

  // ----- Tables -----

  lemma {:induction false} EntitiesRefused(crash: Func -> bool, kind: nat, g: Func, tries: nat)
    requires forall k: nat :: MutateEntities(k, g).outcome.Mutated? ==> MutateEntities(k, g).outcome.func == g
    ensures Refuses(crash, RemoveUnusedEntities(kind), g, tries)
    decreases tries
  {
    hide OnlySimpleGlobals, CompactExtFuncs, CompactSignatures, CompactStackSlots, CompactGlobals;
    if tries > 0 && Mutate(RemoveUnusedEntities(kind), g).outcome.Mutated? {
      EntitiesRefused(crash, kind + 1, g, tries - 1);
    }
  }

  lemma RenamedTwice(f: Func, g: Func, h: Func)
    requires Renamed(f, g) && Renamed(g, h)
    ensures Renamed(f, h)
  {
    hide Flatten, MeaningOf;
    forall i
      ensures SameShape(Data(f.insts, i), Data(h.insts, i))
      ensures i in Flatten(f.layout) ==> SameRef(f, h, i)
    {
      assert SameShape(Data(f.insts, i), Data(g.insts, i));
    }
  }

  /** One compaction, which is kept. */
  lemma KeepsOne(crash: Func -> bool, kind: nat, f: Func, tries: nat)
    requires Blind(crash) && crash(f) && tries > 0
    ensures var s := MutateEntities(kind, f);
            && (s.outcome.Done? ==> RunPhase(crash, RemoveUnusedEntities(kind), f, tries) == PhaseEnd(f, false))
            && (s.outcome.Mutated? ==>
                  && crash(s.outcome.func) && Renamed(f, s.outcome.func)
                  && RunPhase(crash, RemoveUnusedEntities(kind), f, tries) ==
                     RunPhase(crash, RemoveUnusedEntities(kind + 1), s.outcome.func, tries - 1))
  {
    hide CompactExtFuncs, CompactSignatures, CompactStackSlots, CompactGlobals, OnlySimpleGlobals, Blind, Alike, Renamed;
    if MutateEntities(kind, f).outcome.Mutated? {
      CompactRenamed(kind, f);
      RenamedAlike(f, MutateEntities(kind, f).outcome.func);
      CrashesAlike(crash, f, MutateEntities(kind, f).outcome.func);
    }
  }

  lemma {:induction false} EntitiesPhase(crash: Func -> bool, f: Func)
    requires Blind(crash) && crash(f)
    ensures RunPhase(crash, RemoveUnusedEntities(0), f, MaxTries) == PhaseEnd(CompactAll(f), false)
    ensures Renamed(f, CompactAll(f)) && crash(CompactAll(f))
  {
    hide CompactExtFuncs, CompactSignatures, CompactStackSlots, CompactGlobals, OnlySimpleGlobals, RunPhase, Renamed, Blind;
    var a := CompactExtFuncs(f);
    var b := CompactSignatures(a);
    var c := CompactStackSlots(b);
    KeepsOne(crash, 0, f, MaxTries);
    KeepsOne(crash, 1, a, MaxTries - 1);
    KeepsOne(crash, 2, b, MaxTries - 2);
    KeepsOne(crash, 3, c, MaxTries - 3);
    RenamedTwice(f, a, b);
    RenamedTwice(f, b, c);
    if OnlySimpleGlobals(c) {
      RenamedTwice(f, c, CompactGlobals(c));
      KeepsOne(crash, 4, CompactGlobals(c), MaxTries - 4);
    }
  }

  // ----- Phases that change the size -----

  /** The mutators whose mutations always change the size. */
  predicate Resizes(m: Mutator) {
    m.RemoveInst? || m.MoveInstToEntryBlock? || m.RemoveBlock? || m.ReplaceBlockParamWithConst? || m.MergeBlocks?
  }

  lemma ResizesStep(m: Mutator, f: Func)
    requires Resizes(m)
    ensures Resizes(Mutate(m, f).next)
    ensures Mutate(m, f).outcome.Mutated? ==> Mutate(m, f).outcome.status != Changed
  {
    hide NextInstRetPrev, ParamByConst, SeekParam, Preds, AliasParams, MergedLayout;
  }

  lemma {:induction false} ResizesRefuses(crash: Func -> bool, m: Mutator, f: Func, tries: nat)
    requires Resizes(m) && RunPhase(crash, m, f, tries).PhaseEnd? && !RunPhase(crash, m, f, tries).shrank
    ensures RunPhase(crash, m, f, tries).func == f && Refuses(crash, m, f, tries)
    decreases tries
  {
    hide Mutate, DidCrash, Resizes;
    if tries > 0 {
      ResizesStep(m, f);
      var s := Mutate(m, f);
      if s.outcome.Mutated? {
        ResizesRefuses(crash, s.next, f, tries - 1);
      }
    }
  }

  /** Such a phase leaves everything as it is. */
  lemma {:induction false} QuietResize(crash: Func -> bool, f: Func, phase: nat)
    requires phase in {0, 3, 4, 5, 7} && RunPass(crash, f, phase).PhaseEnd? && !RunPass(crash, f, phase).shrank
    ensures PhaseRefuses(crash, f, phase) && RunPass(crash, f, phase) == RunPass(crash, f, phase + 1)
  {
    hide RunPhase, RunPass, Refuses, FirstInst, EntryBlock;
    QuietStep(crash, f, phase);
    ResizesRefuses(crash, NewMutator(phase, f).value, f, MaxTries);
  }

  lemma {:induction false} RefusesAlike(crash: Func -> bool, m: Mutator, f: Func, g: Func, tries: nat)
    requires Blind(crash) && Inv(f) && CursorOk(m, f) && Alike(f, g) && SameDests(f, g)
    requires MovesOrDrops(m) && Refuses(crash, m, f, tries)
    ensures Refuses(crash, m, g, tries)
    decreases tries
  {
    hide Blind, Inv, CursorOk, Mutate, Alike, SameDests, MovesOrDrops, Excusable, DidCrash;
    if tries > 0 {
      MutateKeeps(m, f);
      StepAlike(m, f, g);
      var s, t := Mutate(m, f), Mutate(m, g);
      if s.outcome.Mutated? {
        CrashesAlike(crash, s.outcome.func, t.outcome.func);
        NoChange(m, f);
        RefusesAlike(crash, s.next, f, g, tries - 1);
      }
    }
  }

  lemma NoChange(m: Mutator, f: Func)
    requires MovesOrDrops(m)
    ensures Mutate(m, f).outcome.Mutated? ==> Mutate(m, f).outcome.status != Changed
  {
    hide Mutate;
    ResizesStep(m, f);
  }

  lemma {:induction false} PhaseAlike(crash: Func -> bool, f: Func, g: Func, phase: nat)
    requires Blind(crash) && Inv(f) && Renamed(f, g) && phase in {3, 4, 5} && PhaseRefuses(crash, f, phase)
    ensures PhaseRefuses(crash, g, phase)
  {
    hide Blind, Inv, Refuses, FirstInst, EntryBlock, Alike, CursorOk;
    RenamedAlike(f, g);
    AlikeFrame(f, g);
    NewMutatorOk(phase, f);
    assert SameDests(f, g) by {
      RenamedDests(f, g);
    }
    RefusesAlike(crash, NewMutator(phase, f).value, f, g, MaxTries);
  }

  lemma RenamedDests(f: Func, g: Func)
    requires Renamed(f, g)
    ensures SameDests(f, g)
  {
    hide SameRef, Flatten;
    forall i ensures Data(g.insts, i).dests == Data(f.insts, i).dests {
      assert SameShape(Data(f.insts, i), Data(g.insts, i));
    }
  }

  // ----- The theorem -----

  lemma {:induction false} ConstPhase(crash: Func -> bool, f: Func, g: Func)
    requires Blind(crash) && Inv(f) && Alike(f, g) && PhaseRefuses(crash, f, 1)
    ensures PhaseRefuses(crash, g, 1)
  {
    hide Blind, Inv, Refuses, FirstInst, EntryBlock, Alike, CursorOk;
    AlikeFrame(f, g);
    NewMutatorOk(1, f);
    ConstRefuses(crash, NewMutator(1, f).value, f, g, MaxTries);
  }

  lemma {:induction false} MinimalAfter(crash: Func -> bool, f: Func, g: Func)
    requires Blind(crash) && Alike(f, g) && OneMinimal(crash, f)
    ensures OneMinimal(crash, g)
  {
    hide Blind, Flatten, StrikeLayout, Alike;
    AlikeFrame(f, g);
    forall j | 0 <= j < |Flatten(g.layout)| - 1 ensures !crash(DeleteInst(g, Flatten(g.layout)[j])) {
      DeleteAlike(f, g, Flatten(f.layout)[j]);
      CrashesAlike(crash, DeleteInst(f, Flatten(f.layout)[j]), DeleteInst(g, Flatten(g.layout)[j]));
    }
  }

  lemma SixIsEntities(f: Func)
    ensures NewMutator(6, f) == Ok(RemoveUnusedEntities(0))
  {
  }

  /** The phases that change instructions and tables, once they have changed all they can. */
  lemma {:induction false} FinalPhases(crash: Func -> bool, h: Func)
    requires Blind(crash) && Inv(CompactAll(h)) && crash(CompactAll(h)) && TrappedFrom(CompactAll(h), 0)
    ensures PhaseRefuses(crash, CompactAll(h), 2) && PhaseRefuses(crash, CompactAll(h), 6)
  {
    hide Blind, Inv, Flatten, NewMutator, Refuses, CompactAll, FlatAt, TrappedFrom, MutateEntities;
    var g := CompactAll(h);
    FirstTrapIsFlat(g);
    TrapRefuses(crash, NewMutator(2, g).value.block, NewMutator(2, g).value.inst, g, 0, MaxTries);
    SixIsEntities(g);
    forall k: nat ensures MutateEntities(k, g).outcome.Mutated? ==> MutateEntities(k, g).outcome.func == g {
      CompactAllFixed(h, k);
    }
    EntitiesRefused(crash, 0, g, MaxTries);
  }

  /** What such a pass does: it traps all terminators but the last instruction, and compacts all tables. */
  lemma {:induction false} QuietBlindPass(crash: Func -> bool, f: Func) returns (h: Func)
    requires Blind(crash) && Inv(f) && crash(f) && |Flatten(f.layout)| <= MaxTries + 1 && PhaseRefuses(crash, f, 1)
    requires RunPass(crash, f, 0).PhaseEnd? && !RunPass(crash, f, 0).shrank
    ensures Inv(h) && Alike(f, h) && TrappedFrom(h, 0) && Renamed(h, CompactAll(h)) && crash(CompactAll(h))
    ensures PhaseRefuses(crash, h, 3) && PhaseRefuses(crash, h, 4) && PhaseRefuses(crash, h, 5)
    ensures PhaseRefuses(crash, CompactAll(h), 7)
    ensures RunPass(crash, f, 0) == PhaseEnd(CompactAll(h), false)
  {
    hide Blind, Inv, RunPass, RunPhase, Flatten, NewMutator, Refuses, Alike, CompactAll, FlatAt, TrappedFrom, Renamed, CursorOk, Terminated, PhaseRefuses;
    assert forall x :: crash(x) ==> Terminated(x) by {
      BlindTerminated(crash);
    }
    QuietResize(crash, f, 0);
    QuietRefused(crash, f, 1);
    FirstTrapIsFlat(f);
    var m := NewMutator(2, f).value;
    QuietStep(crash, f, 2);
    NewMutatorOk(2, f);
    QuietPhaseAlike(crash, m, f, MaxTries);
    TrapPhase(crash, m.block, m.inst, f, 0, MaxTries);
    h := RunPhase(crash, m, f, MaxTries).func;
    QuietResize(crash, h, 3);
    QuietResize(crash, h, 4);
    QuietResize(crash, h, 5);
    QuietStep(crash, h, 6);
    SixIsEntities(h);
    EntitiesPhase(crash, h);
    QuietResize(crash, CompactAll(h), 7);
    PassIsOver(crash, CompactAll(h));
  }

  lemma BlindTerminated(crash: Func -> bool)
    requires Blind(crash)
    ensures forall h :: crash(h) ==> Terminated(h)
  {
    hide Terminated;
  }

  /**
    A pass that kept no change of size, for such an oracle, and no constant: from what it ends on no instruction but
    the last can be deleted, and every further pass comes back to it.
   */
  lemma {:induction false} BlindIsFinal(crash: Func -> bool, f: Func)
    requires Blind(crash) && Inv(f) && crash(f) && |Flatten(f.layout)| <= MaxTries + 1 && PhaseRefuses(crash, f, 1)
    requires RunPass(crash, f, 0).PhaseEnd? && !RunPass(crash, f, 0).shrank
    ensures var g := RunPass(crash, f, 0).func; Inv(g) && OneMinimal(crash, g) && AllRefused(crash, g, 0)
  {
    hide Blind, Inv, RunPass, Flatten, OneMinimal, PhaseRefuses, Alike, CompactAll, TrappedFrom, Renamed;
    QuietPass(crash, f);
    var h := QuietBlindPass(crash, f);
    var g := CompactAll(h);
    QuietPassLeads(crash, f, 0);
    RenamedAlike(h, g);
    AlikeTwice(f, h, g);
    AlikeFrame(f, g);
    MinimalAfter(crash, f, g);
    OneMinimalIff(crash, g);
    ConstPhase(crash, f, g);
    RenamedTraps(h, g);
    PhaseAlike(crash, h, g, 3);
    PhaseAlike(crash, h, g, 4);
    PhaseAlike(crash, h, g, 5);
    FinalPhases(crash, h);
  }
}
