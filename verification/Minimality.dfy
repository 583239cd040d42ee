/**
  The first phase of every pass tries to delete each instruction but the last, once, in layout order;
  so a pass that keeps nothing shows that none of these deletions alone keeps the crash.
 */
module Minimality {
  import opened Layouts
  import opened Clif
  import opened Mutators
  import opened Invariants
  import opened Reduction
  import opened ReductionTheorems

  // ----- Deleting an instruction, as a reader would define it -----

  function Strike(s: seq<Inst>, i: Inst): seq<Inst> {
    if s == [] then [] else (if s[0] == i then [] else [s[0]]) + Strike(s[1..], i)
  }

  /** Strikes `i` out everywhere and drops the blocks that this empties. */
  function StrikeLayout(l: Layout, i: Inst): Layout {
    if l == [] then []
    else
      var s := Strike(l[0].insts, i);
      (if s == [] then [] else [LBlock(l[0].id, s)]) + StrikeLayout(l[1..], i)
  }

  function DeleteInst(f: Func, i: Inst): Func {
    f.(layout := StrikeLayout(f.layout, i))
  }

  lemma {:induction false} StrikeAbsent(s: seq<Inst>, i: Inst)
    requires i !in s
    ensures Strike(s, i) == s
  {
    if s != [] {
      StrikeAbsent(s[1..], i);
    }
  }

  lemma {:induction false} StrikeConcat(a: seq<Inst>, b: seq<Inst>, i: Inst)
    ensures Strike(a + b, i) == Strike(a, i) + Strike(b, i)
  {
    if a == [] {
      assert a + b == b;
    } else {
      assert (a + b)[1..] == a[1..] + b;
      StrikeConcat(a[1..], b, i);
    }
  }

  lemma {:induction false} OncePieces(a: seq<Inst>, s: seq<Inst>, b: seq<Inst>, k: nat)
    requires Once(a + s + b) && k < |s|
    ensures Once(s) && s[k] !in a && s[k] !in b
  {
    forall x ensures multiset(s)[x] <= 1 {
      assert multiset(a + s + b)[x] <= 1;
    }
    assert multiset(a + s + b)[s[k]] == multiset(a)[s[k]] + multiset(s)[s[k]] + multiset(b)[s[k]];
    assert s[k] in multiset(s);
    assert s[k] in a <==> s[k] in multiset(a);
    assert s[k] in b <==> s[k] in multiset(b);
  }

  lemma {:induction false} StrikeMiddle(a: seq<Inst>, x: Inst, b: seq<Inst>)
    requires x !in a && x !in b
    ensures Strike(a + [x] + b, x) == a + b
  {
    StrikeAbsent(a, x);
    StrikeAbsent(b, x);
    calc {
      Strike(a + [x] + b, x);
      { StrikeConcat(a + [x], b, x); }
      Strike(a + [x], x) + b;
      { StrikeConcat(a, [x], x); }
      a + Strike([x], x) + b;
      { assert Strike([x], x) == [] && a + [] == a; }
      a + b;
    }
  }

  lemma {:induction false} StrikeOne(s: seq<Inst>, k: nat)
    requires Once(s) && k < |s|
    ensures Strike(s, s[k]) == Without(s, k)
  {
    hide Once, Strike;
    assert s == s[..k] + [s[k]] + s[k + 1..];
    OncePieces(s[..k], [s[k]], s[k + 1..], 0);
    StrikeMiddle(s[..k], s[k], s[k + 1..]);
  }

  lemma {:induction false} StrikeLayoutConcat(a: Layout, b: Layout, i: Inst)
    ensures StrikeLayout(a + b, i) == StrikeLayout(a, i) + StrikeLayout(b, i)
  {
    if a == [] {
      assert a + b == b;
    } else {
      assert (a + b)[1..] == a[1..] + b;
      StrikeLayoutConcat(a[1..], b, i);
    }
  }

  lemma {:induction false} StrikeLayoutAbsent(l: Layout, i: Inst)
    requires NoEmptyBlock(l) && i !in Flatten(l)
    ensures StrikeLayout(l, i) == l
  {
    if l != [] {
      StrikeAbsent(l[0].insts, i);
      StrikeLayoutAbsent(l[1..], i);
    }
  }

  lemma {:induction false} StrikeLayoutMiddle(a: Layout, x: LBlock, b: Layout, i: Inst)
    requires NoEmptyBlock(a) && NoEmptyBlock(b) && i !in Flatten(a) && i !in Flatten(b)
    ensures StrikeLayout(a + [x] + b, i) ==
            a + (if Strike(x.insts, i) == [] then [] else [LBlock(x.id, Strike(x.insts, i))]) + b
  {
    StrikeLayoutAbsent(a, i);
    StrikeLayoutAbsent(b, i);
    StrikeLayoutConcat(a, [x], i);
    StrikeLayoutConcat(a + [x], b, i);
  }

  /** The mutator's deletion is that one. */
  lemma {:induction false} DeletedIsStruck(l: Layout, b: nat, k: nat)
    requires WfLayout(l) && b < |l| && k < |l[b].insts|
    ensures StrikeLayout(l, l[b].insts[k]) == DeletedAt(l, b, k)
  {
    hide Once, Flatten, StrikeLayout, Strike;
    var s, i := l[b].insts, l[b].insts[k];
    FlattenSplit(l, b);
    OncePieces(Flatten(l[..b]), s, Flatten(l[b + 1..]), k);
    StrikeOne(s, k);
    assert l == l[..b] + [l[b]] + l[b + 1..];
    StrikeLayoutMiddle(l[..b], l[b], l[b + 1..], i);
    if |s| > 1 {
      assert DeletedAt(l, b, k) == l[..b] + [LBlock(l[b].id, Without(s, k))] + l[b + 1..];
    }
  }

  // ----- The cursor as an index into the flattened layout -----

  ghost predicate FlatAt(l: Layout, block: Block, inst: Inst, n: nat) {
    exists b: nat, k: nat :: At(l, b, k, inst) && l[b].id == block && n == |Flatten(l[..b])| + k
  }

  lemma {:induction false} FlatBounds(l: Layout, b: nat, k: nat)
    requires b < |l| && k < |l[b].insts|
    ensures |Flatten(l[..b])| + k < |Flatten(l)| && Flatten(l)[|Flatten(l[..b])| + k] == l[b].insts[k]
  {
    hide Flatten;
    FlattenSplit(l, b);
    assert (Flatten(l[..b]) + l[b].insts + Flatten(l[b + 1..]))[|Flatten(l[..b])| + k] == l[b].insts[k];
  }

  /** The next place is the next index; there is none exactly at the last one. */
  lemma {:induction false} NextFlat(l: Layout, b: nat, k: nat)
    requires NoEmptyBlock(l) && b < |l| && k < |l[b].insts|
    ensures var p := NextPlace(l, b, k);
            if p.0 < |l| then |Flatten(l[..p.0])| + p.1 == |Flatten(l[..b])| + k + 1 < |Flatten(l)|
            else |Flatten(l)| == |Flatten(l[..b])| + k + 1
  {
    var p := NextPlace(l, b, k);
    FlattenSplit(l, b);
    if p.0 == b + 1 {
      assert l[..b + 1] == l[..b] + [l[b]];
      FlattenConcat(l[..b], [l[b]]);
      if b + 1 < |l| {
        FlatBounds(l, b + 1, 0);
      } else {
        assert l[b + 1..] == [];
      }
    } else {
      FlatBounds(l, b, k + 1);
    }
  }

  lemma {:induction false} FlatDeleted(l: Layout, b: nat, k: nat)
    requires NoEmptyBlock(l) && b < |l| && k < |l[b].insts| && NextPlace(l, b, k).0 < |l|
    ensures var p := NextPlace(l, b, k);
            FlatAt(DeletedAt(l, b, k), l[p.0].id, l[p.0].insts[p.1], |Flatten(l[..b])| + k)
  {
    var p, m := NextPlace(l, b, k), DeletedAt(l, b, k);
    var i := l[p.0].insts[p.1];
    if p.0 == b {
      assert m[..b] == l[..b] && At(m, b, k, i);
    } else if |l[b].insts| == 1 {
      assert m[..b] == l[..b] && At(m, b, 0, i);
    } else {
      assert m[..b + 1] == l[..b] + [m[b]];
      FlattenConcat(l[..b], [m[b]]);
      assert At(m, b + 1, 0, i);
    }
  }

  /** One try: it deletes the instruction under the cursor and moves on by one index. */
  lemma {:induction false} TryAt(f: Func, block: Block, inst: Inst, n: nat)
    requires Inv(f) && FlatAt(f.layout, block, inst, n)
    ensures n < |Flatten(f.layout)| && Flatten(f.layout)[n] == inst
    ensures var s := MutateRemoveInst(block, inst, f);
            if n + 1 == |Flatten(f.layout)| then s.outcome == Done
            else
              var g := DeleteInst(f, inst);
              && s.outcome == Mutated(g, ExpandedOrShrinked)
              && s.next.RemoveInst? && DidCrash(s.next) == Ok(s.next)
              && FlatAt(f.layout, s.next.block, s.next.inst, n + 1)
              && Inv(g) && Flatten(g.layout) == Without(Flatten(f.layout), n)
              && FlatAt(g.layout, s.next.block, s.next.inst, n)
  {
    hide Inv, Flatten, StrikeLayout, NextInstRetPrev, Layouts.RemoveInst, DropIfEmpty, Once, DeletedAt;
    var l := f.layout;
    var b: nat, k: nat :| At(l, b, k, inst) && l[b].id == block && n == |Flatten(l[..b])| + k;
    InvLayout(f);
    FlatBounds(l, b, k);
    NextFlat(l, b, k);
    NextInstRetPrevAt(l, b, k);
    var p := NextPlace(l, b, k);
    if p.0 < |l| {
      RemoveInstAt(l, b, k);
      DeletedIsStruck(l, b, k);
      FlatDeleted(l, b, k);
      FlattenDeletedAt(l, b, k);
      DeleteKeepsInv(f, b, k);
      assert At(l, p.0, p.1, l[p.0].insts[p.1]);
    }
  }

  // ----- The whole phase -----

  /** One mutation put to the oracle. */
  datatype Attempt = Attempt(before: Func, candidate: Func, kept: bool)

  function After(a: Attempt): Func {
    if a.kept then a.candidate else a.before
  }

  /** What a phase puts to the oracle, in order. */
  function PhaseLog(crash: Func -> bool, m: Mutator, f: Func, tries: nat): seq<Attempt>
    decreases tries
  {
    if tries == 0 then []
    else
      var s := Mutate(m, f);
      if !s.outcome.Mutated? then []
      else if s.outcome.status == Skip then PhaseLog(crash, s.next, f, tries - 1)
      else
        var g := s.outcome.func;
        [Attempt(f, g, crash(g))] +
        if !crash(g) then PhaseLog(crash, s.next, f, tries - 1)
        else if DidCrash(s.next).Err? then []
        else PhaseLog(crash, DidCrash(s.next).value, g, tries - 1)
  }

  /** Each attempt starts from what the one before left, and is kept exactly if it crashes. */
  ghost predicate Follows(log: seq<Attempt>, crash: Func -> bool, f: Func) {
    && (log != [] ==> log[0].before == f)
    && (forall j :: 0 <= j < |log| ==> log[j].kept == crash(log[j].candidate))
    && (forall j :: 0 <= j < |log| - 1 ==> log[j + 1].before == After(log[j]))
  }

  /** The attempts delete exactly the given instructions, in this order. */
  ghost predicate Deletes(log: seq<Attempt>, insts: seq<Inst>) {
    && |log| == |insts|
    && forall j :: 0 <= j < |log| ==> log[j].candidate == DeleteInst(log[j].before, insts[j])
  }

  lemma EmptyLog(crash: Func -> bool, f: Func)
    ensures Follows([], crash, f) && Deletes([], [])
  {
  }

  lemma {:induction false} LogCons(a: Attempt, rest: seq<Attempt>, crash: Func -> bool, i: Inst, insts: seq<Inst>)
    requires a.kept == crash(a.candidate) && a.candidate == DeleteInst(a.before, i)
    requires Follows(rest, crash, After(a)) && Deletes(rest, insts)
    ensures Follows([a] + rest, crash, a.before) && Deletes([a] + rest, [i] + insts)
  {
    hide DeleteInst;
  }

  lemma {:induction false} PhaseFrom(crash: Func -> bool, block: Block, inst: Inst, f: Func, n: nat, tries: nat)
    requires Inv(f) && FlatAt(f.layout, block, inst, n) && n < |Flatten(f.layout)| <= tries + n + 1
    ensures var log := PhaseLog(crash, RemoveInst(block, inst), f, tries);
            Follows(log, crash, f) && Deletes(log, Flatten(f.layout)[n..|Flatten(f.layout)| - 1])
    decreases tries
  {
    hide Inv, Flatten, FlatAt, DeleteInst, DidCrash, MutateRemoveInst, Follows, Deletes;
    TryAt(f, block, inst, n);
    var s, all := Mutate(RemoveInst(block, inst), f), Flatten(f.layout);
    if n + 1 < |all| {
      var g := s.outcome.func;
      var rest := if crash(g) then PhaseLog(crash, s.next, g, tries - 1) else PhaseLog(crash, s.next, f, tries - 1);
      if crash(g) {
        PhaseFrom(crash, s.next.block, s.next.inst, g, n, tries - 1);
        assert Flatten(g.layout)[n..|all| - 2] == all[n + 1..|all| - 1];
      } else {
        PhaseFrom(crash, s.next.block, s.next.inst, f, n + 1, tries - 1);
      }
      assert all[n..|all| - 1] == [inst] + all[n + 1..|all| - 1];
      assert PhaseLog(crash, RemoveInst(block, inst), f, tries) == [Attempt(f, g, crash(g))] + rest;
      LogCons(Attempt(f, g, crash(g)), rest, crash, inst, all[n + 1..|all| - 1]);
    } else {
      EmptyLog(crash, f);
      assert all[n..|all| - 1] == [];
    }
  }

  lemma {:induction false} FirstIsFlat(f: Func)
    requires Inv(f)
    ensures NewMutator(0, f).Ok? && NewMutator(0, f).value.RemoveInst?
    ensures FlatAt(f.layout, NewMutator(0, f).value.block, NewMutator(0, f).value.inst, 0)
  {
    InvLayout(f);
    BlockIndexAt(f.layout, 0);
    assert f.layout[..0] == [] && At(f.layout, 0, 0, f.layout[0].insts[0]);
  }

  /**
    Whatever the oracle answers: on at most 10001 instructions, the first phase tries to delete every
    instruction but the last of the layout exactly once, in layout order.
   */
  lemma RemoveInstPhase(crash: Func -> bool, f: Func)
    requires Inv(f) && |Flatten(f.layout)| <= MaxTries + 1
    ensures Flatten(f.layout) != []
    ensures NewMutator(0, f).Ok?
    ensures var log := PhaseLog(crash, NewMutator(0, f).value, f, MaxTries);
            Follows(log, crash, f) && Deletes(log, Flatten(f.layout)[..|Flatten(f.layout)| - 1])
  {
    hide Inv, Flatten, FlatAt, NewMutator, PhaseLog;
    FirstIsFlat(f);
    var m := NewMutator(0, f).value;
    TryAt(f, m.block, m.inst, 0);
    PhaseFrom(crash, m.block, m.inst, f, 0, MaxTries);
    assert Flatten(f.layout)[0..|Flatten(f.layout)| - 1] == Flatten(f.layout)[..|Flatten(f.layout)| - 1];
  }

  // ----- One-minimality -----

  /** No deletion of one instruction other than the last keeps the crash. */
  ghost predicate OneMinimal(crash: Func -> bool, f: Func) {
    forall j :: 0 <= j < |Flatten(f.layout)| - 1 ==> !crash(DeleteInst(f, Flatten(f.layout)[j]))
  }

  lemma {:induction false} QuietPhase(crash: Func -> bool, block: Block, inst: Inst, f: Func, n: nat, tries: nat)
    requires Inv(f) && FlatAt(f.layout, block, inst, n) && |Flatten(f.layout)| <= tries + n + 1
    requires var r := RunPhase(crash, RemoveInst(block, inst), f, tries); r.PhaseEnd? && !r.shrank
    ensures RunPhase(crash, RemoveInst(block, inst), f, tries).func == f
    ensures forall j :: n <= j < |Flatten(f.layout)| - 1 ==> !crash(DeleteInst(f, Flatten(f.layout)[j]))
    decreases tries
  {
    hide Inv, Flatten, FlatAt, StrikeLayout, DidCrash, MutateRemoveInst;
    TryAt(f, block, inst, n);
    if n + 1 < |Flatten(f.layout)| {
      var s := Mutate(RemoveInst(block, inst), f);
      assert !crash(s.outcome.func);
      QuietPhase(crash, s.next.block, s.next.inst, f, n + 1, tries - 1);
    }
  }

  lemma QuietPass(crash: Func -> bool, f: Func)
    requires Inv(f) && |Flatten(f.layout)| <= MaxTries + 1
    requires var r := RunPass(crash, f, 0); r.PhaseEnd? && !r.shrank
    ensures OneMinimal(crash, f)
  {
    hide Inv, FlatAt, NewMutator, RunPhase;
    FirstIsFlat(f);
    var m := NewMutator(0, f).value;
    QuietPhase(crash, m.block, m.inst, f, 0, MaxTries);
  }

  lemma {:induction false} SettledPass(crash: Func -> bool, f: Func, passes: nat)
    requires var r := RunPasses(crash, f, passes); r.Passes? && r.settled
    ensures var r := RunPasses(crash, f, passes); RunPass(crash, r.start, 0) == PhaseEnd(r.func, false)
    decreases passes
  {
    hide RunPass;
    var r := RunPass(crash, f, 0);
    if r.shrank {
      SettledPass(crash, r.func, passes - 1);
    }
  }

  /**
    If the reduction stops because a pass kept no change of size, the function that pass started from
    crashes, and no deletion of a single instruction but the last does.
   */
  lemma ReduceIsOneMinimal(crash: Func -> bool, f: Func)
    requires Inv(f)
    requires var r := Reduce(crash, f); r.Result? && r.settled && |Flatten(r.start.layout)| <= MaxTries + 1
    ensures var r := Reduce(crash, f); crash(r.start) && OneMinimal(crash, r.start) && crash(r.func)
  {
    hide RunPasses, RunPass, Inv, OneMinimal;
    ReduceStillCrashes(crash, f);
    ReduceKeeps(crash, f);
    var r := Reduce(crash, f);
    SettledPass(crash, TryRemoveSrclocs(crash, TryResolveAliases(crash, f).value), MaxPasses);
    QuietPass(crash, r.start);
  }
}
