/**
  The loops inside the mutators, step by step as the reducer runs them, each proved to compute the
  function that stands for it elsewhere.
 */
module MutatorLoops {
  import opened Options
  import opened Layouts
  import opened Clif
  import opened Mutators
  import opened Invariants
  import opened MutatorsKeep
  import opened BlockMutatorsKeep

  // ----- Emptying and moving blocks -----

  /** Empties block `b` from the back and takes it out of the layout. */
  method EmptyAndRemoveBlock(l: Layout, b: Block) returns (r: Layout)
    requires WfLayout(l) && BlockIndex(l, b).Some?
    ensures r == Layouts.RemoveBlock(l, b)
  {
    ghost var k := BlockIndex(l, b).value;
    r := l;
    ghost var n: nat := |l[k].insts|;
    assert l[k].insts[..n] == l[k].insts;
    while LastInst(r, b).Some?
      invariant n <= |l[k].insts| && r == WithInsts(l, k, l[k].insts[..n])
      decreases n
    {
      EmptyStep(l, k, n);
      r := Layouts.RemoveInst(r, LastInst(r, b).value);
      n := n - 1;
    }
    EmptyEnd(l, k, n);
    r := Layouts.RemoveBlock(r, b);
  }

  lemma {:induction false} PrefixOnce(l: Layout, k: nat, n: nat)
    requires Once(Flatten(l)) && k < |l| && n <= |l[k].insts|
    ensures Once(Flatten(WithInsts(l, k, l[k].insts[..n])))
  {
    hide Flatten, Once;
    var s := l[k].insts;
    FlattenSplit(l, k);
    FlattenWithInsts(l, k, s[..n]);
    assert s == s[..n] + s[n..];
    var pre, post := Flatten(l[..k]), Flatten(l[k + 1..]);
    assert multiset(pre + s + post) == multiset(pre + s[..n] + post) + multiset(s[n..]);
    OnceSub(pre + s[..n] + post, Flatten(l));
  }

  lemma {:induction false} EmptyStep(l: Layout, k: nat, n: nat)
    requires WfLayout(l) && k < |l| && n <= |l[k].insts|
    requires LastInst(WithInsts(l, k, l[k].insts[..n]), l[k].id).Some?
    ensures n > 0
    ensures var m := WithInsts(l, k, l[k].insts[..n]);
            Layouts.RemoveInst(m, LastInst(m, l[k].id).value) == WithInsts(l, k, l[k].insts[..n - 1])
  {
    hide Flatten, Once;
    var s := l[k].insts;
    var m := WithInsts(l, k, s[..n]);
    WithInstsIds(l, k, s[..n]);
    PrefixOnce(l, k, n);
    LocateAt(m, k, n - 1);
    assert Without(s[..n], n - 1) == s[..n - 1];
  }

  lemma {:induction false} EmptyEnd(l: Layout, k: nat, n: nat)
    requires WfLayout(l) && k < |l| && n <= |l[k].insts|
    requires LastInst(WithInsts(l, k, l[k].insts[..n]), l[k].id).None?
    ensures Layouts.RemoveBlock(WithInsts(l, k, l[k].insts[..n]), l[k].id) == Layouts.RemoveBlock(l, l[k].id)
  {
    hide Flatten, Once;
    WithInstsIds(l, k, l[k].insts[..n]);
    BlockIndexAt(l, k);
  }

  /** Appends the instructions of block `b` one by one to another block, from the front. */
  method MoveInsts(l: Layout, b: Block, to: Block) returns (r: Layout)
    requires DistinctIds(l) && Once(Flatten(l)) && BlockIndex(l, b).Some? && BlockIndex(l, to).Some? && b != to
    ensures var k, j := BlockIndex(l, b).value, BlockIndex(l, to).value;
            r == WithInsts(WithInsts(l, j, l[j].insts + l[k].insts), k, [])
  {
    ghost var k, j := BlockIndex(l, b).value, BlockIndex(l, to).value;
    r := l;
    ghost var n: nat := 0;
    MovedZero(l, k, j);
    while FirstInst(r, b).Some?
      invariant n <= |l[k].insts| && r == Moved(l, k, j, n)
      decreases |l[k].insts| - n
    {
      MoveStep(l, k, j, n);
      var inst := FirstInst(r, b).value;
      r := Layouts.RemoveInst(r, inst);
      r := AppendInst(r, inst, to);
      n := n + 1;
    }
    MoveEnd(l, k, j, n);
  }

  /** The first `n` instructions of block `k` are at the end of block `j`. */
  function Moved(l: Layout, k: nat, j: nat, n: nat): Layout
    requires k < |l| && j < |l| && n <= |l[k].insts|
  {
    WithInsts(WithInsts(l, j, l[j].insts + l[k].insts[..n]), k, l[k].insts[n..])
  }

  lemma MovedZero(l: Layout, k: nat, j: nat)
    requires k < |l| && j < |l| && k != j
    ensures Moved(l, k, j, 0) == l
  {
    assert l[j].insts + l[k].insts[..0] == l[j].insts;
    assert l[k].insts[0..] == l[k].insts;
  }

  lemma {:induction false} MovedOnce(l: Layout, k: nat, j: nat, n: nat)
    requires k < |l| && j < |l| && k != j && n <= |l[k].insts|
    ensures multiset(Flatten(Moved(l, k, j, n))) == multiset(Flatten(l))
  {
    hide Flatten;
    var s, t := l[k].insts, l[j].insts;
    var m := WithInsts(l, k, s[n..]);
    var z := Moved(l, k, j, n);
    assert z == WithInsts(m, j, t + s[..n]);
    FlattenSplit(l, k);
    FlattenWithInsts(l, k, s[n..]);
    assert s == s[..n] + s[n..];
    FlattenSplit(m, j);
    FlattenWithInsts(m, j, t + s[..n]);
    assert m[j].insts == t;
    var p1, p2 := Flatten(l[..k]), Flatten(l[k + 1..]);
    var q1, q2 := Flatten(m[..j]), Flatten(m[j + 1..]);
    assert multiset(p1 + s + p2) == multiset(p1 + s[n..] + p2) + multiset(s[..n]);
    assert multiset(q1 + (t + s[..n]) + q2) == multiset(q1 + t + q2) + multiset(s[..n]);
  }

  lemma {:induction false} MoveStep(l: Layout, k: nat, j: nat, n: nat)
    requires DistinctIds(l) && Once(Flatten(l)) && k < |l| && j < |l| && k != j && n <= |l[k].insts|
    requires FirstInst(Moved(l, k, j, n), l[k].id).Some?
    ensures n < |l[k].insts|
    ensures var m := Moved(l, k, j, n);
            var i := FirstInst(m, l[k].id).value;
            AppendInst(Layouts.RemoveInst(m, i), i, l[j].id) == Moved(l, k, j, n + 1)
  {
    hide Flatten, Once, DistinctIds, BlockIndex, Locate;
    var s, t, m := l[k].insts, l[j].insts, Moved(l, k, j, n);
    var grown := WithInsts(l, j, t + s[..n]);
    WithInstsIds(l, j, t + s[..n]);
    WithInstsIds(grown, k, s[n..]);
    assert InstsOf(m, l[k].id) == s[n..];
    MovedOnce(l, k, j, n);
    OnceSub(Flatten(m), Flatten(l));
    LocateAt(m, k, 0);
    assert Without(s[n..], 0) == s[n + 1..];
    var m1 := WithInsts(grown, k, s[n + 1..]);
    assert Layouts.RemoveInst(m, s[n]) == m1;
    WithInstsIds(grown, k, s[n + 1..]);
    assert m1[j].insts == t + s[..n];
    assert t + s[..n + 1] == (t + s[..n]) + [s[n]];
  }

  lemma {:induction false} MoveEnd(l: Layout, k: nat, j: nat, n: nat)
    requires DistinctIds(l) && k < |l| && j < |l| && k != j && n <= |l[k].insts|
    requires FirstInst(Moved(l, k, j, n), l[k].id).None?
    ensures Moved(l, k, j, n) == WithInsts(WithInsts(l, j, l[j].insts + l[k].insts), k, [])
  {
    BlockIndexAt(Moved(l, k, j, n), k);
    assert l[k].insts[..|l[k].insts|] == l[k].insts;
  }

  // ----- Block parameters -----

  method SeekParamLoop(f: Func, block: Block, remaining: nat) returns (r: Option<(Block, nat)>)
    requires Inv(f) && CursorOk(ReplaceBlockParamWithConst(block, remaining), f)
    ensures r == SeekParam(f, block, remaining)
  {
    hide Inv;
    var b: Block, left: nat := block, remaining;
    while left == 0
      invariant CursorOk(ReplaceBlockParamWithConst(b, left), f)
      invariant SeekParam(f, b, left) == SeekParam(f, block, remaining)
      decreases match BlockIndex(f.layout, b) case None => 0 case Some(k) => |f.layout| - k
    {
      InvLayout(f);
      var next := NextBlock(f.layout, b);
      if next.None? {
        return None;
      }
      ghost var k := BlockIndex(f.layout, b).value;
      BlockIndexAt(f.layout, k + 1);
      b := next.value;
      left := |ParamsOf(f.params, b)|;
    }
    return Some((b, left));
  }

  /** Drops argument `k` on each branch of one instruction that goes to `b`. */
  method DropArgLoop(d: InstData, b: Block, k: nat) returns (r: InstData)
    ensures r == DropArg(d, b, k)
  {
    var dests := d.dests;
    for j := 0 to |dests|
      invariant |dests| == |d.dests|
      invariant forall m :: 0 <= m < |dests| ==> dests[m] == if m < j then DropArg(d, b, k).dests[m] else d.dests[m]
    {
      if dests[j].block == b && k < |dests[j].args| {
        dests := dests[j := BlockCall(b, Without(dests[j].args, k))];
      }
    }
    r := d.(dests := dests);
    assert r.dests == DropArg(d, b, k).dests;
  }

  ghost predicate DistinctPreds(preds: seq<Pred>) {
    forall i, j :: 0 <= i < j < |preds| ==> preds[i].inst != preds[j].inst
  }

  lemma ConsDistinct(p: Pred, rest: seq<Pred>)
    requires DistinctPreds(rest) && forall q :: q in rest ==> q.inst != p.inst
    ensures DistinctPreds([p] + rest)
  {
  }

  lemma FlattenHead(l: Layout)
    requires l != []
    ensures multiset(Flatten(l)) == multiset(Flatten(l[1..])) + multiset(l[0].insts)
  {
  }

  lemma {:induction false} PredsDistinct(insts: map<Inst, InstData>, l: Layout, b: Block)
    requires Once(Flatten(l))
    ensures DistinctPreds(PredsIn(insts, l, b))
  {
    hide Once, Targets, Data, Flatten, DistinctPreds;
    if l != [] {
      FlattenHead(l);
      OnceSub(Flatten(l[1..]), Flatten(l));
      PredsDistinct(insts, l[1..], b);
      var rest, s := PredsIn(insts, l[1..], b), l[0].insts;
      assert [] + rest == rest;
      if s != [] {
        forall p | p in rest ensures p.inst != s[|s| - 1] {
          OnceDisjoint(Flatten(l), Flatten(l[1..]), s, p.inst);
        }
        ConsDistinct(Pred(l[0].id, s[|s| - 1]), rest);
      }
    } else {
      assert DistinctPreds([]) by {
        NoPreds();
      }
    }
  }

  lemma NoPreds()
    ensures DistinctPreds([])
  {
  }

  /** One predecessor after the other; each branch instruction is listed once. */
  method DropArgsLoop(f: Func, preds: seq<Pred>, b: Block, k: nat) returns (g: Func)
    requires DistinctPreds(preds) && forall p :: p in preds ==> p.inst in f.insts
    ensures g == DropArgs(f, preds, b, k)
  {
    g := f;
    for n := 0 to |preds|
      invariant g == DropArgs(f, preds[..n], b, k)
    {
      var i := preds[n].inst;
      assert preds[..n + 1] == preds[..n] + [preds[n]];
      assert preds[n] in preds;
      assert g.insts[i] == f.insts[i];
      var d := DropArgLoop(g.insts[i], b, k);
      g := g.(insts := g.insts[i := d]);
      DropArgsOneMore(f, preds, b, k, n);
    }
    assert preds[..|preds|] == preds;
  }

  lemma {:induction false} DropArgsOneMore(f: Func, preds: seq<Pred>, b: Block, k: nat, n: nat)
    requires n < |preds| && DistinctPreds(preds) && preds[n].inst in f.insts
    ensures var i := preds[n].inst;
            var g := DropArgs(f, preds[..n], b, k);
            DropArgs(f, preds[..n + 1], b, k) == g.(insts := g.insts[i := DropArg(f.insts[i], b, k)])
  {
    hide DropArg;
    var i := preds[n].inst;
    var g, h := DropArgs(f, preds[..n], b, k), DropArgs(f, preds[..n + 1], b, k);
    var want := g.insts[i := DropArg(f.insts[i], b, k)];
    forall x | x in f.insts ensures h.insts[x] == want[x] {
      if x == i {
        assert preds[..n + 1][n] in preds[..n + 1];
      } else {
        assert forall p :: p in preds[..n + 1] ==> p in preds[..n] || p == preds[n];
        assert forall p :: p in preds[..n] ==> p in preds[..n + 1];
      }
    }
    assert h.insts == want;
  }

  /** Makes the parameters aliases of the arguments, in order. */
  method AliasParamsLoop(aliases: map<Value, Value>, params: seq<Value>, args: seq<BlockArg>)
    returns (r: Fallible<map<Value, Value>>)
    requires |params| == |args|
    ensures r == AliasParams(aliases, params, args)
  {
    var now: map<Value, Value> := aliases;
    for k := 0 to |params|
      invariant AliasParams(now, params[k..], args[k..]) == AliasParams(aliases, params, args)
    {
      if args[k].ValueArg? && params[k] != args[k].value {
        var original := Root(now, args[k].value);
        if original == params[k] {
          return Err(AliasLoop);
        }
        now := now[params[k] := original];
      }
      assert params[k..][1..] == params[k + 1..] && args[k..][1..] == args[k + 1..];
    }
    return Ok(now);
  }

  /** One constant for every value, each before the same instruction. */
  method InsertConstsLoop(f: Func, vs: seq<Value>, before: Inst) returns (g: Func)
    ensures g == InsertConsts(f, vs, before)
  {
    g := f;
    for k := 0 to |vs|
      invariant InsertConsts(g, vs[k..], before) == InsertConsts(f, vs, before)
    {
      assert vs[k..][1..] == vs[k + 1..];
      g := InsertConst(g, vs[k], before);
    }
  }
}
