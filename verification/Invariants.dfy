/**
  What every mutator keeps, whatever the oracle answers: the invariant of the function, a usable
  cursor, and the absence of the panics that the invariant rules out.
 */
module Invariants {
  import opened Layouts
  import opened Clif
  import opened Mutators

  // ----- The cursor -----

  ghost predicate CursorAt(l: Layout, block: Block, inst: Inst) {
    exists b: nat, k: nat :: At(l, b, k, inst) && l[b].id == block
  }

  /** The place after `(b, k)` in layout order. */
  function NextPlace(l: Layout, b: nat, k: nat): (nat, nat)
    requires b < |l|
  {
    if k + 1 < |l[b].insts| then (b, k + 1) else (b + 1, 0)
  }

  lemma NextInstRetPrevAt(l: Layout, b: nat, k: nat)
    requires WfLayout(l) && b < |l| && k < |l[b].insts|
    ensures var p := NextPlace(l, b, k);
            NextInstRetPrev(l, l[b].id, l[b].insts[k]) ==
            if p.0 < |l| then Advanced(l[p.0].id, l[p.0].insts[p.1]) else End
  {
    LocateAt(l, b, k);
    BlockIndexAt(l, b);
    if b + 1 < |l| {
      BlockIndexAt(l, b + 1);
    }
  }

  // ----- Layouts that only lose something -----

  lemma OnceSub<T(!new)>(a: seq<T>, b: seq<T>)
    requires Once(b) && multiset(a) <= multiset(b)
    ensures Once(a)
  {
    forall x ensures multiset(a)[x] <= 1 {
      assert multiset(b)[x] <= 1;
    }
  }

  lemma SubIn<T>(a: seq<T>, b: seq<T>, x: T)
    requires multiset(a) <= multiset(b) && x in a
    ensures x in b
  {
    assert x in multiset(a);
  }

  /** Losing instructions, blocks or parameters keeps the invariant as long as no block is left empty. */
  lemma SmallerLayout(f: Func, g: Func)
    requires Inv(f) && g == f.(layout := g.layout)
    requires g.layout != [] && NoEmptyBlock(g.layout) && DistinctIds(g.layout)
    requires multiset(Flatten(g.layout)) <= multiset(Flatten(f.layout))
    requires multiset(AllParams(g)) <= multiset(AllParams(f))
    requires TerminatorsOk(g)
    ensures Inv(g)
  {
    OnceSub(Flatten(g.layout), Flatten(f.layout));
    OnceSub(AllParams(g), AllParams(f));
    forall i | i in Flatten(g.layout) ensures i in Flatten(f.layout) {
      SubIn(Flatten(g.layout), Flatten(f.layout), i);
    }
    forall v | v in AllParams(g) ensures v in AllParams(f) {
      SubIn(AllParams(g), AllParams(f), v);
    }
  }

  // ----- Removing one instruction -----

  /** The layout without the instruction at `(b, k)`, and without its block if that was its only one. */
  function DeletedAt(l: Layout, b: nat, k: nat): Layout
    requires b < |l| && k < |l[b].insts|
  {
    if |l[b].insts| == 1 then l[..b] + l[b + 1..] else WithInsts(l, b, Without(l[b].insts, k))
  }

  lemma RemoveInstAt(l: Layout, b: nat, k: nat)
    requires WfLayout(l) && b < |l| && k < |l[b].insts|
    ensures Layouts.RemoveInst(l, l[b].insts[k]) == WithInsts(l, b, Without(l[b].insts, k))
    ensures DropIfEmpty(Layouts.RemoveInst(l, l[b].insts[k]), l[b].id) == DeletedAt(l, b, k)
  {
    hide Flatten, Once, Locate, BlockIndex, Without;
    LocateAt(l, b, k);
    DropIfEmptyAt(l, b, k);
  }

  lemma DropIfEmptyAt(l: Layout, b: nat, k: nat)
    requires DistinctIds(l) && b < |l| && k < |l[b].insts|
    ensures DropIfEmpty(WithInsts(l, b, Without(l[b].insts, k)), l[b].id) == DeletedAt(l, b, k)
  {
    hide BlockIndex;
    var m := WithInsts(l, b, Without(l[b].insts, k));
    BlockIndexAt(m, b);
    if |l[b].insts| == 1 {
      assert m[..b] + m[b + 1..] == l[..b] + l[b + 1..];
    }
  }

  lemma WithoutMiddle<T>(pre: seq<T>, s: seq<T>, post: seq<T>, k: nat)
    requires k < |s|
    ensures Without(pre + s + post, |pre| + k) == pre + Without(s, k) + post
  {
  }

  lemma {:induction false} FlattenDeletedAt(l: Layout, b: nat, k: nat)
    requires b < |l| && k < |l[b].insts|
    ensures |Flatten(l[..b])| + k < |Flatten(l)|
    ensures Flatten(l)[|Flatten(l[..b])| + k] == l[b].insts[k]
    ensures Flatten(DeletedAt(l, b, k)) == Without(Flatten(l), |Flatten(l[..b])| + k)
  {
    hide Flatten;
    var pre, s, post := Flatten(l[..b]), l[b].insts, Flatten(l[b + 1..]);
    FlattenSplit(l, b);
    WithoutMiddle(pre, s, post, k);
    assert (pre + s + post)[|pre| + k] == s[k];
    if |s| == 1 {
      FlattenRemoveBlock(l, b);
      assert pre + Without(s, k) + post == pre + post;
    } else {
      FlattenWithInsts(l, b, Without(s, k));
    }
  }

  lemma {:induction false} DeletedCount(l: Layout, b: nat, k: nat)
    requires b < |l| && k < |l[b].insts|
    ensures multiset(Flatten(l)) == multiset(Flatten(DeletedAt(l, b, k))) + multiset{l[b].insts[k]}
  {
    hide Flatten, DeletedAt;
    FlattenDeletedAt(l, b, k);
  }

  lemma ParamsWithInsts(params: map<Block, seq<Value>>, l: Layout, b: nat, s: seq<Inst>)
    requires b < |l|
    ensures ParamsIn(params, WithInsts(l, b, s)) == ParamsIn(params, l)
  {
    ParamsSameIds(params, WithInsts(l, b, s), l);
  }

  lemma ParamsRemoveBlock(params: map<Block, seq<Value>>, l: Layout, b: nat)
    requires b < |l|
    ensures multiset(ParamsIn(params, l)) ==
            multiset(ParamsIn(params, l[..b] + l[b + 1..])) + multiset(ParamsOf(params, l[b].id))
  {
    ParamsSplit(params, l, b);
    ParamsConcat(params, l[..b], l[b + 1..]);
  }

  lemma {:induction false} DeleteKeepsTerminators(f: Func, b: nat, k: nat)
    requires TerminatorsOk(f) && b < |f.layout| && k < |f.layout[b].insts|
    ensures TerminatorsOk(f.(layout := DeletedAt(f.layout, b, k)))
  {
    var l, m := f.layout, DeletedAt(f.layout, b, k);
    forall c | 0 <= c < |m| ensures BranchesLast(f.insts, m[c].insts) {
      if |l[b].insts| == 1 {
        assert m[c] == l[if c < b then c else c + 1];
      } else if c == b {
        assert BranchesLast(f.insts, l[b].insts);
      } else {
        assert m[c] == l[c];
      }
    }
  }

  lemma {:induction false} DeleteKeepsBlocks(l: Layout, b: nat, k: nat)
    requires NoEmptyBlock(l) && DistinctIds(l) && b < |l| && k < |l[b].insts|
    requires |l| > 1 || |l[b].insts| > 1
    ensures var m := DeletedAt(l, b, k); m != [] && NoEmptyBlock(m) && DistinctIds(m)
  {
  }

  lemma {:induction false} DeleteKeepsParams(params: map<Block, seq<Value>>, l: Layout, b: nat, k: nat)
    requires b < |l| && k < |l[b].insts|
    ensures multiset(ParamsIn(params, DeletedAt(l, b, k))) <= multiset(ParamsIn(params, l))
  {
    if |l[b].insts| == 1 {
      ParamsRemoveBlock(params, l, b);
    } else {
      ParamsWithInsts(params, l, b, Without(l[b].insts, k));
    }
  }

  lemma {:induction false} DeleteKeepsInv(f: Func, b: nat, k: nat)
    requires Inv(f) && b < |f.layout| && k < |f.layout[b].insts|
    requires |f.layout| > 1 || |f.layout[b].insts| > 1
    ensures Inv(f.(layout := DeletedAt(f.layout, b, k)))
  {
    var l := f.layout;
    var g := f.(layout := DeletedAt(l, b, k));
    DeletedCount(l, b, k);
    DeleteKeepsTerminators(f, b, k);
    DeleteKeepsBlocks(l, b, k);
    DeleteKeepsParams(f.params, l, b, k);
    SmallerLayout(f, g);
  }

  // ----- Inserting constants -----

  function Fresh(from: Inst, to: Inst): seq<Inst>
    requires from <= to
  {
    seq(to - from, j requires 0 <= j => from + j)
  }

  function SpliceAt(l: Layout, b: nat, k: nat, s: seq<Inst>): Layout
    requires b < |l| && k <= |l[b].insts|
  {
    WithInsts(l, b, l[b].insts[..k] + s + l[b].insts[k..])
  }

  /** The instruction tables only gained entries, each a plain instruction with one result. */
  ghost predicate TablesGrow(f: Func, g: Func) {
    && f.nextInst <= g.nextInst
    && (forall i :: i in f.insts && i < f.nextInst ==> i in g.insts && g.insts[i] == f.insts[i])
    && (forall i :: i in g.insts && i < f.nextInst ==> i in f.insts)
    && (forall i: Inst :: i < f.nextInst ==> ResultsOf(g.results, i) == ResultsOf(f.results, i))
    && (forall i: Inst :: f.nextInst <= i < g.nextInst ==> Data(g.insts, i).dests == [] && |ResultsOf(g.results, i)| == 1)
    && (forall i :: i in g.insts && i >= f.nextInst ==> WfData(g.insts[i]) && i < g.nextInst)
    && (forall i :: i in g.results && i !in f.results ==> i < g.nextInst)
  }

  /** `g` is `f` with new constants in front of place `(b, k)`. */
  ghost predicate Inserted(f: Func, g: Func, b: nat, k: nat) {
    && b < |f.layout| && k < |f.layout[b].insts|
    && TablesGrow(f, g)
    && g.layout == SpliceAt(f.layout, b, k, Fresh(f.nextInst, g.nextInst))
    && g.params == f.params && g.aliases == f.aliases && g.sigParams == f.sigParams
  }

  lemma {:induction false} InsertInstAt(l: Layout, b: nat, k: nat, n: Inst)
    requires Once(Flatten(l)) && b < |l| && k < |l[b].insts|
    ensures InsertInst(l, n, l[b].insts[k]) == SpliceAt(l, b, k, [n])
  {
    LocateAt(l, b, k);
  }

  lemma {:induction false} SpliceFlatten(l: Layout, b: nat, k: nat, s: seq<Inst>)
    requires b < |l| && k <= |l[b].insts|
    ensures multiset(Flatten(SpliceAt(l, b, k, s))) == multiset(Flatten(l)) + multiset(s)
  {
    var t := l[b].insts;
    FlattenSplit(l, b);
    FlattenWithInsts(l, b, t[..k] + s + t[k..]);
    assert t == t[..k] + t[k..];
  }

  lemma FreshOnce(from: Inst, to: Inst, x: Inst)
    requires from <= to
    ensures multiset(Fresh(from, to))[x] == if from <= x < to then 1 else 0
  {
    if from == to {
    } else {
      FreshOnce(from, to - 1, x);
      assert Fresh(from, to) == Fresh(from, to - 1) + [to - 1];
    }
  }

  lemma {:induction false} SpliceOnce(l: Layout, b: nat, k: nat, from: Inst, to: Inst)
    requires b < |l| && k <= |l[b].insts| && from <= to
    requires Once(Flatten(l)) && forall i :: i in Flatten(l) ==> i < from
    ensures Once(Flatten(SpliceAt(l, b, k, Fresh(from, to))))
    ensures forall i :: i in Flatten(SpliceAt(l, b, k, Fresh(from, to))) ==> i in Flatten(l) || from <= i < to
  {
    var m := SpliceAt(l, b, k, Fresh(from, to));
    SpliceFlatten(l, b, k, Fresh(from, to));
    forall x: Inst
      ensures multiset(Flatten(m))[x] <= 1
      ensures x in Flatten(m) ==> x in Flatten(l) || from <= x < to
    {
      FreshOnce(from, to, x);
      assert x in Flatten(l) <==> x in multiset(Flatten(l));
      assert x in Flatten(m) <==> x in multiset(Flatten(m));
    }
  }

  lemma {:induction false} InsertedTerminators(f: Func, g: Func, b: nat, k: nat)
    requires Inserted(f, g, b, k) && TerminatorsOk(f)
    requires forall i :: i in Flatten(f.layout) ==> i < f.nextInst
    ensures TerminatorsOk(g)
  {
    var l, m := f.layout, g.layout;
    forall c | 0 <= c < |m| ensures BranchesLast(g.insts, m[c].insts) {
      forall j | 0 <= j < |m[c].insts| - 1 ensures Data(g.insts, m[c].insts[j]).dests == [] {
        var n := g.nextInst - f.nextInst;
        if c == b && k <= j < k + n {
          assert m[c].insts[j] == f.nextInst + (j - k);
        } else {
          var o := if c == b && j >= k then j - n else j;
          assert m[c].insts[j] == l[c].insts[o];
          InFlatten(l, c, o);
          assert BranchesLast(f.insts, l[c].insts);
        }
      }
    }
  }

  lemma {:induction false} InsertedKeepsInv(f: Func, g: Func, b: nat, k: nat)
    requires Inv(f) && Inserted(f, g, b, k)
    ensures Inv(g)
  {
    SpliceOnce(f.layout, b, k, f.nextInst, g.nextInst);
    InsertedTerminators(f, g, b, k);
    ParamsSameIds(f.params, g.layout, f.layout);
    assert AllParams(g) == AllParams(f);
  }

  lemma {:induction false} BuildInserted(f: Func, d: InstData, result: Value, b: nat, k: nat)
    requires Inv(f) && b < |f.layout| && k < |f.layout[b].insts|
    requires WfData(d) && d.dests == []
    ensures Inserted(f, Build(f, d, result, f.layout[b].insts[k]), b, k)
  {
    hide Flatten, InsertInst;
    InsertInstAt(f.layout, b, k, f.nextInst);
    assert Fresh(f.nextInst, f.nextInst + 1) == [f.nextInst];
  }

  lemma {:induction false} TablesGrowTwice(f: Func, g: Func, h: Func)
    requires TablesGrow(f, g) && TablesGrow(g, h)
    ensures TablesGrow(f, h)
  {
    forall i: Inst | f.nextInst <= i < h.nextInst
      ensures Data(h.insts, i).dests == [] && |ResultsOf(h.results, i)| == 1
    {
      if i < g.nextInst {
        assert Data(h.insts, i) == Data(g.insts, i);
        assert ResultsOf(h.results, i) == ResultsOf(g.results, i);
      }
    }
    forall i: Inst | i < f.nextInst ensures ResultsOf(h.results, i) == ResultsOf(f.results, i) {
      assert ResultsOf(g.results, i) == ResultsOf(f.results, i);
    }
  }

  lemma {:induction false} InsertedTwice(f: Func, g: Func, h: Func, b: nat, k: nat)
    requires Inserted(f, g, b, k) && Inserted(g, h, b, k + g.nextInst - f.nextInst)
    ensures Inserted(f, h, b, k)
  {
    TablesGrowTwice(f, g, h);
    var s := f.layout[b].insts;
    var n := g.nextInst - f.nextInst;
    var t := s[..k] + Fresh(f.nextInst, g.nextInst) + s[k..];
    assert t[..k + n] == s[..k] + Fresh(f.nextInst, g.nextInst) && t[k + n..] == s[k..];
    assert Fresh(f.nextInst, h.nextInst) == Fresh(f.nextInst, g.nextInst) + Fresh(g.nextInst, h.nextInst);
    assert s[..k] + Fresh(f.nextInst, h.nextInst) + s[k..] == t[..k + n] + Fresh(g.nextInst, h.nextInst) + t[k + n..];
  }

  lemma InsertedIgnoresValues(f: Func, g: Func, b: nat, k: nat, types: map<Value, Type>, next: Value)
    requires Inserted(f, g, b, k)
    ensures Inserted(f, g.(nextValue := next, types := types), b, k)
  {
  }

  lemma {:induction false} InsertWideConstInserted(f: Func, v: Value, b: nat, k: nat)
    requires Inv(f) && b < |f.layout| && k < |f.layout[b].insts| && TypeOf(f, v) == I128
    ensures Inserted(f, InsertConst(f, v, f.layout[b].insts[k]), b, k)
    ensures InsertConst(f, v, f.layout[b].insts[k]).nextInst > f.nextInst
  {
    hide Inv, Flatten, TablesGrow, InsertInst;
    var before, low := f.layout[b].insts[k], f.nextValue;
    var g0 := Build(f, ConstData(Iconst, []), low, before);
    var g := g0.(nextValue := low + 1, types := f.types[low := I64]);
    BuildInserted(f, ConstData(Iconst, []), low, b, k);
    InsertedIgnoresValues(f, g0, b, k, f.types[low := I64], low + 1);
    InsertedKeepsInv(f, g, b, k);
    assert g.layout[b].insts[k + 1] == before;
    BuildInserted(g, ConstData(Uextend, [low]), v, b, k + 1);
    InsertedTwice(f, g, Build(g, ConstData(Uextend, [low]), v, before), b, k);
  }

  lemma {:induction false} InsertConstInserted(f: Func, v: Value, b: nat, k: nat)
    requires Inv(f) && b < |f.layout| && k < |f.layout[b].insts|
    ensures Inserted(f, InsertConst(f, v, f.layout[b].insts[k]), b, k)
    ensures InsertConst(f, v, f.layout[b].insts[k]).nextInst > f.nextInst
  {
    match TypeOf(f, v)
    case I128 => InsertWideConstInserted(f, v, b, k);
    case F32 => BuildInserted(f, ConstData(F32const, []), v, b, k);
    case F64 => BuildInserted(f, ConstData(F64const, []), v, b, k);
    case Vector => BuildInserted(f, ConstData(Vconst, []), v, b, k);
    case _ => BuildInserted(f, ConstData(Iconst, []), v, b, k);
  }

  lemma TablesGrowNot(f: Func)
    requires Inv(f)
    ensures TablesGrow(f, f)
  {
  }

  lemma {:induction false} InsertConstsInserted(f: Func, vs: seq<Value>, b: nat, k: nat)
    requires Inv(f) && b < |f.layout| && k < |f.layout[b].insts|
    ensures Inserted(f, InsertConsts(f, vs, f.layout[b].insts[k]), b, k)
    ensures vs != [] ==> InsertConsts(f, vs, f.layout[b].insts[k]).nextInst > f.nextInst
    decreases |vs|
  {
    hide Inv, Flatten, TablesGrow, InsertConst;
    var before := f.layout[b].insts[k];
    if vs == [] {
      TablesGrowNot(f);
      assert Fresh(f.nextInst, f.nextInst) == [];
      assert f.layout[b].insts == f.layout[b].insts[..k] + [] + f.layout[b].insts[k..];
    } else {
      var g := InsertConst(f, vs[0], before);
      InsertConstInserted(f, vs[0], b, k);
      InsertedKeepsInv(f, g, b, k);
      var k' := k + g.nextInst - f.nextInst;
      assert g.layout[b].insts[k'] == before;
      InsertConstsInserted(g, vs[1..], b, k');
      InsertedTwice(f, g, InsertConsts(g, vs[1..], before), b, k);
    }
  }
}
