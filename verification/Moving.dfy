/** When an instruction is moved to the entry block, and where it is then. */
module Moving {
  import opened Layouts
  import opened Clif
  import opened Mutators
  import opened Invariants
  import opened MutatorsKeep

  /** The entry block with `inst` in front of its last instruction, and the block at `b` without it. */
  ghost predicate MovedTo(l: Layout, m: Layout, b: nat, k: nat) {
    && 0 < b < |l| && k < |l[b].insts| && l[0].insts != [] && |m| == |l|
    && (forall c :: 0 <= c < |l| ==> m[c].id == l[c].id)
    && (var n := |l[0].insts| - 1; m[0].insts == l[0].insts[..n] + [l[b].insts[k], l[0].insts[n]])
    && m[b].insts == l[b].insts[..k] + l[b].insts[k + 1..]
    && forall c :: 0 < c < |l| && c != b ==> m[c] == l[c]
  }

  /**
    The last instruction of the function ends the phase; one of the entry block or at the end of its block is passed
    by; any other one is moved in front of the last instruction of the entry block.
   */
  lemma {:induction false} MovesExactly(block: Block, inst: Inst, f: Func) returns (b: nat, k: nat)
    requires Inv(f) && CursorAt(f.layout, block, inst)
    ensures At(f.layout, b, k, inst) && f.layout[b].id == block
    ensures var s, p := MutateMoveInst(block, inst, f), NextPlace(f.layout, b, k);
            if p.0 == |f.layout| then s.outcome == Done
            else
              && p.1 < |f.layout[p.0].insts| && s.next == MoveInstToEntryBlock(f.layout[p.0].id, f.layout[p.0].insts[p.1])
              && if b == 0 || k + 1 == |f.layout[b].insts| then s.outcome == Mutated(f, Skip)
                 else
                   && s.outcome.Mutated? && s.outcome.status == ExpandedOrShrinked
                   && s.outcome.func == f.(layout := s.outcome.func.layout)
                   && MovedTo(f.layout, s.outcome.func.layout, b, k)
  {
    hide Inv, Flatten, NextInstRetPrev, Layouts.RemoveInst, InsertInst, Once, MovedTo;
    var l := f.layout;
    b, k :| At(l, b, k, inst) && l[b].id == block;
    AdvanceAt(f, b, k);
    InvLayout(f);
    BlockIndexAt(l, 0);
    DifferentIds(l, b);
    if b > 0 && NextPlace(l, b, k).0 == b {
      MovedAt(l, b, k);
      MovedIsThere(l, b, k);
    } else if b + 1 < |l| {
      assert l[b + 1].id != l[b].id;
    }
  }

  lemma DifferentIds(l: Layout, b: nat)
    requires DistinctIds(l) && b < |l|
    ensures l[b].id == l[0].id <==> b == 0
    ensures b + 1 < |l| ==> l[b + 1].id != l[b].id
  {
  }

  lemma MovedIsThere(l: Layout, b: nat, k: nat)
    requires NoEmptyBlock(l) && 0 < b < |l| && k < |l[b].insts|
    ensures MovedTo(l, MovedLayout(l, b, k), b, k)
  {
    var n, s := |l[0].insts| - 1, l[0].insts;
    assert s[..n] + [l[b].insts[k]] + s[n..] == s[..n] + [l[b].insts[k], s[n]];
  }
}
