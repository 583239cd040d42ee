/**
  What a pass that kept no change of size leaves, where the check is a verifier and then a compiler, and the
  compiler's failure depends neither on which terminators were replaced by traps nor on how the tables are
  numbered.  Then a deletion still crashes afterwards exactly if only the verifier had refused it before.
 */
module BlindOracles {
  import opened Layouts
  import opened Clif
  import opened Mutators
  import opened MutatorsKeep
  import opened Reduction
  import opened ReductionTheorems
  import opened Minimality
  import opened Entities
  import opened Settling

  // ----- Functions that are alike -----

  function TrappedAt(f: Func, i: Inst): Func {
    f.(insts := f.insts[i := TrapData])
  }

  /** Formats whose references the mutator renumbers. */
  predicate Refers(d: InstData) {
    d.format in {Call, FuncAddr, CallIndirect, StackLoad, StackStore, UnaryGlobalValue}
  }

  ghost predicate SameShape(d: InstData, e: InstData) {
    e == d.(entity := e.entity)
  }

  /** The same instruction, which refers to the same thing by what may be another number. */
  ghost predicate SameRef(f: Func, g: Func, i: Inst) {
    var d, e := Data(f.insts, i), Data(g.insts, i);
    && SameShape(d, e)
    && (Refers(d) ==> MeaningOf(g, e) == MeaningOf(f, d))
    && (d.format in {TryCall, TryCallIndirect} ==> e == d)
  }

  /** Another version of `f`, with instructions and tables of its own. */
  ghost predicate SameFrame(f: Func, g: Func) {
    g == f.(insts := g.insts, extFuncs := g.extFuncs, signatures := g.signatures, stackSlots := g.stackSlots, globals := g.globals)
  }

  /** The same function with its tables numbered otherwise. */
  ghost predicate Renamed(f: Func, g: Func) {
    && SameFrame(f, g)
    && (forall i :: SameShape(Data(f.insts, i), Data(g.insts, i)))
    && (forall i :: i in Flatten(f.layout) ==> SameRef(f, g, i))
  }

  ghost predicate TrappedTo(d: InstData, e: InstData) {
    IsTerminator(d) && SameShape(TrapData, e)
  }

  /** The same with, besides, some terminators replaced by traps. */
  ghost predicate Alike(f: Func, g: Func) {
    && SameFrame(f, g)
    && (forall i :: TrappedTo(Data(f.insts, i), Data(g.insts, i)) || SameShape(Data(f.insts, i), Data(g.insts, i)))
    && (forall i :: i in Flatten(f.layout) ==> TrappedTo(Data(f.insts, i), Data(g.insts, i)) || SameRef(f, g, i))
  }

  lemma AlikeTwice(f: Func, g: Func, h: Func)
    requires Alike(f, g) && Alike(g, h)
    ensures Alike(f, h)
  {
    hide Flatten, MeaningOf;
    forall i
      ensures TrappedTo(Data(f.insts, i), Data(h.insts, i)) || SameShape(Data(f.insts, i), Data(h.insts, i))
      ensures i in Flatten(f.layout) ==> TrappedTo(Data(f.insts, i), Data(h.insts, i)) || SameRef(f, h, i)
    {
      assert TrappedTo(Data(g.insts, i), Data(h.insts, i)) || SameShape(Data(g.insts, i), Data(h.insts, i));
    }
  }

  lemma RenamedAlike(f: Func, g: Func)
    requires Renamed(f, g)
    ensures Alike(f, g)
  {
    hide Flatten, SameRef;
  }

  lemma SameTerminators(f: Func, g: Func)
    requires Alike(f, g)
    ensures g.layout == f.layout && forall i :: IsTerminator(Data(g.insts, i)) <==> IsTerminator(Data(f.insts, i))
  {
    hide Flatten, SameRef;
  }

  lemma AlikeTerminated(f: Func, g: Func)
    requires Alike(f, g)
    ensures Terminated(f) <==> Terminated(g)
  {
    hide Alike, IsTerminator;
    SameTerminators(f, g);
    if Terminated(f) {
      forall b | 0 <= b < |g.layout| ensures EndsOnce(g.insts, g.layout[b].insts) {
        assert EndsOnce(f.insts, f.layout[b].insts);
      }
    }
    if Terminated(g) {
      forall b | 0 <= b < |f.layout| ensures EndsOnce(f.insts, f.layout[b].insts) {
        assert EndsOnce(g.insts, g.layout[b].insts);
      }
    }
  }

  /** Where every block ends in its only terminator, a trap for anything else would not leave it so. */
  lemma {:induction false} TrapsTerminator(f: Func, i: Inst)
    requires i in Flatten(f.layout) && Terminated(f) && Terminated(TrappedAt(f, i))
    ensures IsTerminator(Data(f.insts, i))
  {
    hide Flatten;
    var b, k := InFlattenAt(f.layout, i);
    assert EndsOnce(f.insts, f.layout[b].insts) && EndsOnce(TrappedAt(f, i).insts, f.layout[b].insts);
    assert Data(TrappedAt(f, i).insts, i) == TrapData;
  }

  lemma {:induction false} InFlattenAt(l: Layout, i: Inst) returns (b: nat, k: nat)
    requires i in Flatten(l)
    ensures b < |l| && k < |l[b].insts| && l[b].insts[k] == i
  {
    if i in l[0].insts {
      b := 0;
      k :| k < |l[0].insts| && l[0].insts[k] == i;
    } else {
      b, k := InFlattenAt(l[1..], i);
      b := b + 1;
    }
  }

  lemma TrapAlike(f: Func, i: Inst)
    requires IsTerminator(Data(f.insts, i))
    ensures Alike(f, TrappedAt(f, i))
  {
    hide Flatten, IsTerminator;
    SameMeaning(f, TrappedAt(f, i));
  }

  lemma SameMeaning(f: Func, g: Func)
    requires g == f.(insts := g.insts)
    ensures forall i :: Data(g.insts, i) == Data(f.insts, i) ==> SameRef(f, g, i)
  {
  }

  lemma AlikeSelf(f: Func)
    ensures Alike(f, f)
  {
    hide Flatten;
  }

  // ----- Compaction -----

  lemma {:induction false} CompactRenamed(kind: nat, f: Func)
    requires MutateEntities(kind, f).outcome.Mutated?
    ensures Renamed(f, MutateEntities(kind, f).outcome.func)
  {
    hide Flatten, Keep, UsedBy, SignaturesUsed, RenumberInsts, Renumber, OnlySimpleGlobals, MeaningOf;
    var g := MutateEntities(kind, f).outcome.func;
    match kind {
      case 0 => Renumbered(f, {Call, FuncAddr}, UsedBy(f, {Call, FuncAddr}), |f.extFuncs|);
      case 1 => Renumbered(f, {CallIndirect}, SignaturesUsed(f), |f.signatures|);
      case 2 => Renumbered(f, {StackLoad, StackStore}, UsedBy(f, {StackLoad, StackStore}), |f.stackSlots|);
      case _ => Renumbered(f, {UnaryGlobalValue}, UsedBy(f, {UnaryGlobalValue}), |f.globals|);
    }
    forall i | i in Flatten(f.layout) ensures SameRef(f, g, i) {
      if Refers(Data(f.insts, i)) {
        CompactKeepsMeaning(f, kind, i);
      }
    }
  }

  lemma Renumbered(f: Func, formats: set<Format>, used: set<nat>, n: nat)
    requires formats <= {Call, FuncAddr, CallIndirect, StackLoad, StackStore, UnaryGlobalValue}
    ensures var r := RenumberInsts(f, formats, used, n);
            && (forall i :: SameShape(Data(f.insts, i), Data(r, i)))
            && (forall i :: !Refers(Data(f.insts, i)) ==> Data(r, i) == Data(f.insts, i))
  {
    hide Flatten, Renumber;
  }

  // ----- What does not see the difference -----

  /** A trap for an instruction changes nothing where every block still ends in its only terminator. */
  ghost predicate TrapBlind(fails: Func -> bool) {
    forall f, i :: Terminated(f) && Terminated(TrappedAt(f, i)) ==> fails(TrappedAt(f, i)) == fails(f)
  }

  /** The numbers in the tables, and what is not referred to, change nothing. */
  ghost predicate TableBlind(fails: Func -> bool) {
    forall f, g :: Terminated(f) && Renamed(f, g) ==> fails(g) == fails(f)
  }

  function TrapAll(f: Func, s: set<Inst>): Func {
    f.(insts := map i | i in f.insts.Keys + s :: if i in s then TrapData else f.insts[i])
  }

  lemma TrapAllAt(f: Func, s: set<Inst>, i: Inst)
    ensures Data(TrapAll(f, s).insts, i) == if i in s then TrapData else Data(f.insts, i)
  {
  }

  lemma {:induction false} TrapAllAlike(f: Func, s: set<Inst>)
    requires forall i :: i in s ==> IsTerminator(Data(f.insts, i))
    ensures Alike(f, TrapAll(f, s))
  {
    hide Flatten, IsTerminator, TrapAll, MeaningOf;
    var g := TrapAll(f, s);
    assert g == f.(insts := g.insts) by {
      TrapAllFrame(f, s);
    }
    forall i ensures Data(g.insts, i) == if i in s then TrapData else Data(f.insts, i) {
      TrapAllAt(f, s, i);
    }
    SameMeaning(f, g);
  }

  lemma TrapAllFrame(f: Func, s: set<Inst>)
    ensures TrapAll(f, s) == f.(insts := TrapAll(f, s).insts)
    ensures TrapAll(f, {}) == f
  {
    assert TrapAll(f, {}).insts == f.insts;
  }

  lemma TrapOneMore(f: Func, s: set<Inst>, i: Inst)
    requires i in s
    ensures TrapAll(f, s) == TrappedAt(TrapAll(f, s - {i}), i)
  {
    assert f.insts.Keys + s == f.insts.Keys + (s - {i}) + {i};
    assert TrapAll(f, s).insts == TrapAll(f, s - {i}).insts[i := TrapData];
  }

  lemma {:induction false} TrapAllSame(fails: Func -> bool, f: Func, s: set<Inst>)
    requires TrapBlind(fails) && Terminated(f) && forall i :: i in s ==> IsTerminator(Data(f.insts, i))
    ensures fails(TrapAll(f, s)) == fails(f)
    decreases |s|
  {
    hide TrapAll, Terminated, IsTerminator, Alike;
    if s == {} {
      TrapAllFrame(f, s);
    } else {
      var i :| i in s;
      var t := s - {i};
      TrapAllSame(fails, f, t);
      TrapOneMore(f, s, i);
      TrapAllAlike(f, t);
      TrapAllAlike(f, s);
      AlikeTerminated(f, TrapAll(f, t));
      AlikeTerminated(f, TrapAll(f, s));
    }
  }

  /** So functions that are alike fail alike. */
  lemma {:induction false} FailsAlike(fails: Func -> bool, f: Func, g: Func)
    requires TrapBlind(fails) && TableBlind(fails) && Alike(f, g) && Terminated(f)
    ensures fails(g) == fails(f)
  {
    var s := set i | i in g.insts && TrappedTo(Data(f.insts, i), g.insts[i]);
    TrapAllSame(fails, f, s);
    TrapAllAlike(f, s);
    AlikeTerminated(f, TrapAll(f, s));
    RenamedFromTraps(f, g, s);
  }

  lemma {:induction false} RenamedFromTraps(f: Func, g: Func, s: set<Inst>)
    requires Alike(f, g) && s == set i | i in g.insts && TrappedTo(Data(f.insts, i), g.insts[i])
    ensures Renamed(TrapAll(f, s), g)
  {
    hide Flatten, IsTerminator, TrapAll;
    var h := TrapAll(f, s);
    TrapAllFrame(f, s);
    forall i
      ensures SameShape(Data(h.insts, i), Data(g.insts, i))
      ensures i in Flatten(f.layout) ==> SameRef(h, g, i)
    {
      TrapAllAt(f, s, i);
    }
  }

  // ----- A pass that keeps no change of size -----

  /** What such a phase keeps is alike, unless it puts in constants. */
  lemma {:induction false} QuietPhaseAlike(crash: Func -> bool, m: Mutator, f: Func, tries: nat)
    requires Inv(f) && CursorOk(m, f) && !m.ReplaceInstWithConst? && crash(f) && forall h :: crash(h) ==> Terminated(h)
    requires RunPhase(crash, m, f, tries).PhaseEnd? && !RunPhase(crash, m, f, tries).shrank
    ensures var h := RunPhase(crash, m, f, tries).func; Inv(h) && crash(h) && Alike(f, h)
    decreases tries
  {
    hide Mutate, Inv, CursorOk, DidCrash, Excusable, Alike, Terminated;
    AlikeSelf(f);
    if tries > 0 {
      MutateKeeps(m, f);
      var s := Mutate(m, f);
      if s.outcome.Mutated? {
        SameKind(m, f);
        var g := s.outcome.func;
        if s.outcome.status == Skip || !crash(g) {
          QuietPhaseAlike(crash, s.next, f, tries - 1);
        } else {
          ChangedStays(m, f);
          ChangedAlike(m, f);
          QuietPhaseAlike(crash, s.next, g, tries - 1);
          AlikeTwice(f, g, RunPhase(crash, s.next, g, tries - 1).func);
        }
      }
    }
  }

  lemma SameKind(m: Mutator, f: Func)
    ensures Mutate(m, f).next.ReplaceInstWithConst? <==> m.ReplaceInstWithConst?
  {
    hide NextInstRetPrev, ReplaceByConsts, AlreadyConst, ParamByConst, SeekParam, AliasParams, MergedLayout, Preds;
  }

  lemma {:induction false} ChangedAlike(m: Mutator, f: Func)
    requires CursorOk(m, f) && !m.ReplaceInstWithConst? && Terminated(f)
    requires var s := Mutate(m, f); s.outcome.Mutated? && s.outcome.status == Changed && Terminated(s.outcome.func)
    ensures Alike(f, Mutate(m, f).outcome.func)
  {
    hide MutateEntities, NextInstRetPrev, ParamByConst, SeekParam, Flatten, Terminated, Alike, IsTerminator, Renamed;
    match m
    case ReplaceInstWithTrap(b, i) =>
      var c: nat, k: nat :| At(f.layout, c, k, i) && f.layout[c].id == b;
      InFlatten(f.layout, c, k);
      TrapsTerminator(f, i);
      TrapAlike(f, i);
    case RemoveUnusedEntities(k) =>
      CompactRenamed(k, f);
      RenamedAlike(f, MutateEntities(k, f).outcome.func);
    case _ =>
  }

  lemma {:induction false} QuietStep(crash: Func -> bool, f: Func, phase: nat)
    requires phase < 8 && RunPass(crash, f, phase).PhaseEnd? && !RunPass(crash, f, phase).shrank
    ensures NewMutator(phase, f).Ok?
    ensures var r := RunPhase(crash, NewMutator(phase, f).value, f, MaxTries);
            r.PhaseEnd? && !r.shrank && RunPass(crash, f, phase) == RunPass(crash, r.func, phase + 1)
  {
    hide RunPhase, NewMutator;
  }

  lemma QuietRefused(crash: Func -> bool, f: Func, phase: nat)
    requires phase < 8 && PhaseRefuses(crash, f, phase) && RunPass(crash, f, phase).PhaseEnd? && !RunPass(crash, f, phase).shrank
    ensures RunPass(crash, f, phase) == RunPass(crash, f, phase + 1)
  {
    hide RunPass, RunPhase, Refuses, NewMutator;
    QuietStep(crash, f, phase);
    RefusesEnds(crash, NewMutator(phase, f).value, f, MaxTries);
  }

  lemma KindOf(phase: nat, f: Func)
    requires phase < 8 && NewMutator(phase, f).Ok?
    ensures NewMutator(phase, f).value.ReplaceInstWithConst? <==> phase == 1
  {
  }

  lemma {:induction false} QuietPassAlike(crash: Func -> bool, f: Func, phase: nat)
    requires phase <= 8 && Inv(f) && crash(f) && (forall h :: crash(h) ==> Terminated(h)) && (phase <= 1 ==> PhaseRefuses(crash, f, 1))
    requires RunPass(crash, f, phase).PhaseEnd? && !RunPass(crash, f, phase).shrank
    requires phase == 0 ==> PhaseRefuses(crash, f, 0)
    ensures var g := RunPass(crash, f, phase).func; Inv(g) && crash(g) && Alike(f, g)
    decreases 8 - phase
  {
    hide RunPhase, RunPass, NewMutator, Inv, CursorOk, PhaseRefuses, Alike, Terminated;
    if phase == 8 {
      PassIsOver(crash, f);
      AlikeSelf(f);
    } else if phase <= 1 {
      QuietRefused(crash, f, phase);
      QuietPassAlike(crash, f, phase + 1);
    } else {
      QuietStep(crash, f, phase);
      NewMutatorOk(phase, f);
      KindOf(phase, f);
      var m := NewMutator(phase, f).value;
      QuietPhaseAlike(crash, m, f, MaxTries);
      var h := RunPhase(crash, m, f, MaxTries).func;
      QuietPassAlike(crash, h, phase + 1);
      AlikeTwice(f, h, RunPass(crash, h, phase + 1).func);
    }
  }

  lemma PassIsOver(crash: Func -> bool, f: Func)
    ensures RunPass(crash, f, 8) == PhaseEnd(f, false)
  {
  }

  // ----- Deletions -----

  lemma {:induction false} StruckIn(l: Layout, x: Inst, i: Inst)
    requires i in Flatten(StrikeLayout(l, x))
    ensures i in Flatten(l)
  {
    if l != [] {
      var s, rest := Strike(l[0].insts, x), StrikeLayout(l[1..], x);
      FlattenConcat(if s == [] then [] else [LBlock(l[0].id, s)], rest);
      assert Flatten([LBlock(l[0].id, s)]) == s;
      if i in s {
        StrikeIn(l[0].insts, x, i);
      } else {
        StruckIn(l[1..], x, i);
      }
    }
  }

  lemma {:induction false} StrikeIn(s: seq<Inst>, x: Inst, i: Inst)
    requires i in Strike(s, x)
    ensures i in s
  {
    if i !in (if s[0] == x then [] else [s[0]]) {
      StrikeIn(s[1..], x, i);
    }
  }

  lemma {:induction false} DeleteAlike(f: Func, g: Func, x: Inst)
    requires Alike(f, g)
    ensures Alike(DeleteInst(f, x), DeleteInst(g, x))
  {
    hide Flatten, StrikeLayout, IsTerminator, MeaningOf;
    var f', g' := DeleteInst(f, x), DeleteInst(g, x);
    forall i | i in Flatten(f'.layout)
      ensures TrappedTo(Data(f'.insts, i), Data(g'.insts, i)) || SameRef(f', g', i)
    {
      StruckIn(f.layout, x, i);
      MeaningMoves(f, f', Data(f.insts, i));
      MeaningMoves(g, g', Data(g.insts, i));
    }
  }

  lemma MeaningMoves(f: Func, g: Func, d: InstData)
    requires g.extFuncs == f.extFuncs && g.signatures == f.signatures && g.stackSlots == f.stackSlots && g.globals == f.globals
    ensures MeaningOf(g, d) == MeaningOf(f, d)
  {
  }

  /** The compiler fails without `i`; the verifier refused to do without it in `f`, and does not in `g`. */
  ghost predicate Released(verifies: Func -> bool, fails: Func -> bool, f: Func, g: Func, i: Inst) {
    verifies(DeleteInst(g, i)) && !verifies(DeleteInst(f, i)) && fails(DeleteInst(f, i))
  }

  /**
    A pass that kept no change of size and no constant: from what it ends on an instruction, other than the last,
    can be deleted exactly if the compiler fails without it too and the verifier, which refused that deletion in
    the function that the pass started from, does not do so any more.
   */
  lemma {:induction false} DeletionsAfter(verifies: Func -> bool, fails: Func -> bool, crash: Func -> bool, f: Func)
    requires (forall h :: crash(h) <==> verifies(h) && fails(h)) && forall h :: verifies(h) ==> Terminated(h)
    requires TrapBlind(fails) && TableBlind(fails)
    requires Inv(f) && crash(f) && |Flatten(f.layout)| <= MaxTries + 1 && PhaseRefuses(crash, f, 1)
    requires RunPass(crash, f, 0).PhaseEnd? && !RunPass(crash, f, 0).shrank
    ensures var g := RunPass(crash, f, 0).func;
            && Inv(g) && crash(g) && Alike(f, g)
            && (forall j :: 0 <= j < |Flatten(f.layout)| - 1 ==>
                  var i := Flatten(f.layout)[j]; crash(DeleteInst(g, i)) <==> Released(verifies, fails, f, g, i))
  {
    hide Inv, RunPass, Flatten, TrapBlind, TableBlind, PhaseRefuses, Alike, Terminated, DeleteInst;
    QuietPass(crash, f);
    OneMinimalIff(crash, f);
    QuietPassAlike(crash, f, 0);
    var g := RunPass(crash, f, 0).func;
    forall j | 0 <= j < |Flatten(f.layout)| - 1
      ensures var i := Flatten(f.layout)[j]; crash(DeleteInst(g, i)) <==> Released(verifies, fails, f, g, i)
    {
      var i := Flatten(f.layout)[j];
      assert !crash(DeleteInst(f, i));
      var f', g' := DeleteInst(f, i), DeleteInst(g, i);
      DeleteAlike(f, g, i);
      AlikeTerminated(f', g');
      if Terminated(f') {
        FailsAlike(fails, f', g');
      }
    }
  }

  /** So it is 1-minimal exactly if nothing was released. */
  lemma MinimalAfterIff(verifies: Func -> bool, fails: Func -> bool, crash: Func -> bool, f: Func)
    requires (forall h :: crash(h) <==> verifies(h) && fails(h)) && forall h :: verifies(h) ==> Terminated(h)
    requires TrapBlind(fails) && TableBlind(fails)
    requires Inv(f) && crash(f) && |Flatten(f.layout)| <= MaxTries + 1 && PhaseRefuses(crash, f, 1)
    requires RunPass(crash, f, 0).PhaseEnd? && !RunPass(crash, f, 0).shrank
    ensures var g := RunPass(crash, f, 0).func;
            OneMinimal(crash, g) <==>
            forall j :: 0 <= j < |Flatten(f.layout)| - 1 ==> !Released(verifies, fails, f, g, Flatten(f.layout)[j])
  {
    hide Inv, RunPass, Flatten, TrapBlind, TableBlind, PhaseRefuses, Terminated, DeleteInst, Released;
    DeletionsAfter(verifies, fails, crash, f);
    SameTerminators(f, RunPass(crash, f, 0).func);
  }
}
