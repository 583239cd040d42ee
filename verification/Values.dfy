/**
  What defines a value, and that the constants put in for results and parameters define exactly those.
 */
module Values {
  import opened Layouts
  import opened Clif
  import opened Mutators
  import opened Invariants
  import opened MutatorsKeep
  import opened BlockMutatorsKeep

  // ----- Definitions -----

  function ResultsIn(results: map<Inst, seq<Value>>, s: seq<Inst>): seq<Value> {
    if s == [] then [] else ResultsOf(results, s[0]) + ResultsIn(results, s[1..])
  }

  /** All definitions: the parameters of the laid-out blocks and the results of the laid-out instructions. */
  function Defs(f: Func): seq<Value> {
    AllParams(f) + ResultsIn(f.results, Flatten(f.layout))
  }

  /** No value has two definitions or is defined and an alias, and all of them are numbered. */
  ghost predicate Ssa(f: Func) {
    && Once(Defs(f))
    && (forall v :: v in Defs(f) ==> v < f.nextValue && v !in f.aliases)
    && (forall v :: v in f.aliases ==> v < f.nextValue)
  }

  lemma {:induction false} ResultsConcat(results: map<Inst, seq<Value>>, a: seq<Inst>, b: seq<Inst>)
    ensures ResultsIn(results, a + b) == ResultsIn(results, a) + ResultsIn(results, b)
  {
    if a == [] {
      assert a + b == b;
    } else {
      assert (a + b)[1..] == a[1..] + b;
      ResultsConcat(results, a[1..], b);
    }
  }

  lemma {:induction false} ResultsWithout(results: map<Inst, seq<Value>>, s: seq<Inst>, k: nat)
    requires k < |s|
    ensures multiset(ResultsIn(results, s)) == multiset(ResultsIn(results, Without(s, k))) + multiset(ResultsOf(results, s[k]))
  {
    var pre, post := s[..k], s[k + 1..];
    assert s == pre + ([s[k]] + post) && ([s[k]] + post)[1..] == post;
    ResultsConcat(results, pre, [s[k]] + post);
    ResultsConcat(results, pre, post);
  }

  /** Fewer instructions have fewer results, in whatever order. */
  lemma {:induction false} ResultsSub(results: map<Inst, seq<Value>>, a: seq<Inst>, b: seq<Inst>)
    requires multiset(a) <= multiset(b)
    ensures multiset(ResultsIn(results, a)) <= multiset(ResultsIn(results, b))
  {
    if a != [] {
      var x := a[0];
      assert a == [x] + a[1..];
      SubIn(a, b, x);
      var j :| 0 <= j < |b| && b[j] == x;
      var rest := Without(b, j);
      var tail := a[1..];
      assert multiset(a) == multiset(tail) + multiset{x};
      forall y ensures multiset(tail)[y] <= multiset(rest)[y] {
        assert multiset(a)[y] <= multiset(b)[y];
      }
      ResultsSub(results, tail, rest);
      ResultsWithout(results, b, j);
    }
  }

  lemma {:induction false} ResultsSame(r1: map<Inst, seq<Value>>, r2: map<Inst, seq<Value>>, s: seq<Inst>)
    requires forall i :: i in s ==> ResultsOf(r1, i) == ResultsOf(r2, i)
    ensures ResultsIn(r1, s) == ResultsIn(r2, s)
  {
    if s != [] {
      ResultsSame(r1, r2, s[1..]);
    }
  }

  lemma {:induction false} ResultsAt(results: map<Inst, seq<Value>>, s: seq<Inst>, i: Inst, v: Value)
    requires i in s && v in ResultsOf(results, i)
    ensures v in ResultsIn(results, s)
  {
    if i != s[0] {
      ResultsAt(results, s[1..], i, v);
    }
  }

  // ----- Constants -----

  /** The opcode of a zero of type `t`. */
  function ZeroOpcode(t: Type): Opcode {
    match t
    case F32 => F32const
    case F64 => F64const
    case Vector => Vconst
    case I128 => Uextend
    case _ => Iconst
  }

  /** A 64-bit zero that defines a new value, `low`. */
  ghost predicate LowHalf(f: Func, g: Func, i: Inst, low: Value) {
    && ResultsOf(g.results, i) == [low] && f.nextValue <= low < g.nextValue
    && Data(g.insts, i) == InstData(PlainFormat, Iconst, [], [], 0) && TypeOf(g, low) == I64
  }

  /** Among the instructions `s`, the one at `p` is a zero of the type of `v` and defines `v`. */
  ghost predicate ZeroAt(f: Func, g: Func, s: seq<Inst>, v: Value, p: nat) {
    && p < |s| && ResultsOf(g.results, s[p]) == [v]
    && if TypeOf(f, v) == I128
       then p > 0 && exists low :: LowHalf(f, g, s[p - 1], low) && Data(g.insts, s[p]) == InstData(PlainFormat, Uextend, [low], [], 0)
       else Data(g.insts, s[p]) == InstData(PlainFormat, ZeroOpcode(TypeOf(f, v)), [], [], 0)
  }

  /** What is left of the types and values that were there. */
  ghost predicate ValuesGrow(f: Func, g: Func) {
    f.nextValue <= g.nextValue && forall v: Value :: v < f.nextValue ==> TypeOf(g, v) == TypeOf(f, v)
  }

  /** The new instructions define `vs` and, for wide ones, new values of their own. */
  ghost predicate Defining(f: Func, g: Func, vs: seq<Value>, lows: seq<Value>) {
    && f.nextInst <= g.nextInst
    && multiset(ResultsIn(g.results, Fresh(f.nextInst, g.nextInst))) == multiset(vs) + multiset(lows)
    && Once(lows) && forall v :: v in lows ==> f.nextValue <= v < g.nextValue
  }

  lemma ZeroStays(f: Func, g: Func, h: Func, s: seq<Inst>, t: seq<Inst>, v: Value, p: nat)
    requires ZeroAt(f, g, s, v, p) && s <= t && ValuesGrow(g, h)
    requires forall i :: i in s ==> Data(h.insts, i) == Data(g.insts, i) && ResultsOf(h.results, i) == ResultsOf(g.results, i)
    ensures ZeroAt(f, h, t, v, p)
  {
    if TypeOf(f, v) == I128 {
      var low :| LowHalf(f, g, s[p - 1], low) && Data(g.insts, s[p]) == InstData(PlainFormat, Uextend, [low], [], 0);
      assert s[p - 1] in s && LowHalf(f, h, t[p - 1], low);
    }
  }

  lemma ZeroLater(f: Func, g: Func, h: Func, s: seq<Inst>, pre: seq<Inst>, v: Value, p: nat)
    requires ZeroAt(g, h, s, v, p) && ValuesGrow(f, g) && v < f.nextValue
    ensures ZeroAt(f, h, pre + s, v, |pre| + p)
  {
    if TypeOf(f, v) == I128 {
      var low :| LowHalf(g, h, s[p - 1], low) && Data(h.insts, s[p]) == InstData(PlainFormat, Uextend, [low], [], 0);
      assert LowHalf(f, h, (pre + s)[|pre| + p - 1], low);
    }
  }

  /** The new instructions of `g` have a zero for `v`, at `p`, and otherwise define `lows`. */
  ghost predicate OneZero(f: Func, g: Func, v: Value, lows: seq<Value>, p: nat) {
    Defining(f, g, [v], lows) && ZeroAt(f, g, Fresh(f.nextInst, g.nextInst), v, p) && ValuesGrow(f, g)
  }

  lemma OnlyNew(i: Inst)
    ensures Fresh(i, i + 1) == [i] && Fresh(i, i + 2) == [i, i + 1]
  {
  }

  lemma NarrowZero(f: Func, d: InstData, v: Value, before: Inst)
    requires d == InstData(PlainFormat, ZeroOpcode(TypeOf(f, v)), [], [], 0) && TypeOf(f, v) != I128
    ensures OneZero(f, Build(f, d, v, before), v, [], 0)
  {
    hide InsertInst;
    OnlyNew(f.nextInst);
    var g := Build(f, d, v, before);
    assert ResultsIn(g.results, [f.nextInst]) == [v] + [];
    assert multiset([v]) == multiset([v]) + multiset([]);
  }

  /** A wide zero is two instructions. */
  lemma WideParts(f: Func, v: Value, before: Inst)
    requires TypeOf(f, v) == I128
    ensures var g, i, low := InsertConst(f, v, before), f.nextInst, f.nextValue;
            && g.nextInst == i + 2 && g.nextValue == low + 1 && g.types == f.types[low := I64]
            && Data(g.insts, i) == InstData(PlainFormat, Iconst, [], [], 0) && ResultsOf(g.results, i) == [low]
            && Data(g.insts, i + 1) == InstData(PlainFormat, Uextend, [low], [], 0) && ResultsOf(g.results, i + 1) == [v]
  {
    hide InsertInst;
  }

  lemma {:induction false} WideZero(f: Func, v: Value, before: Inst)
    requires TypeOf(f, v) == I128
    ensures OneZero(f, InsertConst(f, v, before), v, [f.nextValue], 1)
  {
    hide InsertConst, ResultsOf;
    WideParts(f, v, before);
    OnlyNew(f.nextInst);
    var g, i := InsertConst(f, v, before), f.nextInst;
    var lows: seq<Value> := [f.nextValue];
    TwoResults(g.results, i, lows, [v]);
    hide ResultsIn, Fresh;
    assert LowHalf(f, g, i, f.nextValue);
    assert multiset(lows + [v]) == multiset([v]) + multiset(lows);
    assert multiset(lows) == multiset{f.nextValue};
  }

  lemma TwoResults(r: map<Inst, seq<Value>>, i: Inst, a: seq<Value>, b: seq<Value>)
    requires ResultsOf(r, i) == a && ResultsOf(r, i + 1) == b
    ensures ResultsIn(r, [i, i + 1]) == a + b
  {
    assert [i, i + 1][1..] == [i + 1] && [i + 1][1..] == [];
    assert ResultsIn(r, [i + 1]) == b + [];
  }

  /** One constant: a zero of its type that defines the value. */
  lemma {:induction false} InsertConstZero(f: Func, v: Value, before: Inst) returns (lows: seq<Value>, p: nat)
    ensures OneZero(f, InsertConst(f, v, before), v, lows, p)
  {
    hide Build, OneZero;
    lows, p := [], 0;
    match TypeOf(f, v)
    case I128 =>
      lows, p := [f.nextValue], 1;
      WideZero(f, v, before);
    case F32 => NarrowZero(f, ConstData(F32const, []), v, before);
    case F64 => NarrowZero(f, ConstData(F64const, []), v, before);
    case Vector => NarrowZero(f, ConstData(Vconst, []), v, before);
    case _ => NarrowZero(f, ConstData(Iconst, []), v, before);
  }

  lemma FreshConcat(a: Inst, b: Inst, c: Inst)
    requires a <= b <= c
    ensures Fresh(a, c) == Fresh(a, b) + Fresh(b, c)
  {
  }

  lemma FreshBelow(a: Inst, b: Inst)
    requires a <= b
    ensures forall i :: i in Fresh(a, b) ==> a <= i < b
  {
  }

  lemma OldStays(f: Func, g: Func, i: Inst)
    requires TablesGrow(f, g) && i < f.nextInst
    ensures Data(g.insts, i) == Data(f.insts, i) && ResultsOf(g.results, i) == ResultsOf(f.results, i)
  {
  }

  /** The new instructions of `g` and then those of `h` define both lots of values. */
  lemma {:induction false} DefiningTwice(f: Func, g: Func, h: Func, v: Value, rest: seq<Value>, l1: seq<Value>, l2: seq<Value>)
    requires Defining(f, g, [v], l1) && Defining(g, h, rest, l2) && ValuesGrow(f, g) && ValuesGrow(g, h) && TablesGrow(g, h)
    ensures Defining(f, h, [v] + rest, l1 + l2)
  {
    hide TablesGrow, Once, ResultsIn;
    var s, t := Fresh(f.nextInst, g.nextInst), Fresh(g.nextInst, h.nextInst);
    FreshConcat(f.nextInst, g.nextInst, h.nextInst);
    FreshBelow(f.nextInst, g.nextInst);
    hide Fresh;
    ResultsConcat(h.results, s, t);
    forall i | i in s ensures ResultsOf(h.results, i) == ResultsOf(g.results, i) {
      OldStays(g, h, i);
    }
    ResultsSame(h.results, g.results, s);
    OnceApart(l1, l2, g.nextValue);
  }

  lemma OnceApart(a: seq<Value>, b: seq<Value>, n: Value)
    requires Once(a) && Once(b) && (forall v :: v in a ==> v < n) && forall v :: v in b ==> n <= v
    ensures Once(a + b)
  {
    forall x ensures multiset(a + b)[x] <= 1 {
      assert x in a <==> x in multiset(a);
      assert x in b <==> x in multiset(b);
    }
  }

  /** Constants for several values: each is defined by a zero of its type. */
  lemma {:induction false} InsertConstsZeros(f: Func, vs: seq<Value>, b: nat, k: nat) returns (lows: seq<Value>)
    requires Inv(f) && b < |f.layout| && k < |f.layout[b].insts| && forall v :: v in vs ==> v < f.nextValue
    ensures var g := InsertConsts(f, vs, f.layout[b].insts[k]);
            && ValuesGrow(f, g) && Defining(f, g, vs, lows)
            && forall v :: v in vs ==> exists p: nat :: ZeroAt(f, g, Fresh(f.nextInst, g.nextInst), v, p)
    decreases |vs|
  {
    hide Inv, Flatten, TablesGrow, InsertConst, ZeroAt, Defining;
    var before := f.layout[b].insts[k];
    if vs == [] {
      lows := [];
      NoneDefined(f);
    } else {
      var g := InsertConst(f, vs[0], before);
      var l1, p := InsertConstZero(f, vs[0], before);
      InsertConstInserted(f, vs[0], b, k);
      InsertedKeepsInv(f, g, b, k);
      var k' := k + g.nextInst - f.nextInst;
      assert g.layout[b].insts[k'] == before;
      assert forall v :: v in vs[1..] ==> v in vs;
      var l2 := InsertConstsZeros(g, vs[1..], b, k');
      InsertConstsInserted(g, vs[1..], b, k');
      var h := InsertConsts(g, vs[1..], before);
      lows := l1 + l2;
      assert vs == [vs[0]] + vs[1..];
      DefiningTwice(f, g, h, vs[0], vs[1..], l1, l2);
      var s, t := Fresh(f.nextInst, g.nextInst), Fresh(g.nextInst, h.nextInst);
      FreshConcat(f.nextInst, g.nextInst, h.nextInst);
      forall i | i in s ensures Data(h.insts, i) == Data(g.insts, i) && ResultsOf(h.results, i) == ResultsOf(g.results, i) {
        OldStays(g, h, i);
      }
      ZeroStays(f, g, h, s, s + t, vs[0], p);
      forall v | v in vs[1..] ensures exists q: nat :: ZeroAt(f, h, s + t, v, q) {
        var q: nat :| ZeroAt(g, h, t, v, q);
        ZeroLater(f, g, h, t, s, v, q);
      }
    }
  }

  lemma NoneDefined(f: Func)
    ensures Defining(f, f, [], [])
  {
    assert Fresh(f.nextInst, f.nextInst) == [];
  }

  // ----- Replacing an instruction -----

  /** Everything but instructions, results and types is as before, and so are all instructions but the new ones. */
  ghost predicate SameBut(f: Func, g: Func, inst: Inst) {
    && g == f.(layout := g.layout, insts := g.insts, results := g.results, types := g.types, nextInst := g.nextInst, nextValue := g.nextValue)
    && forall i: Inst :: i < f.nextInst ==>
         Data(g.insts, i) == Data(f.insts, i) && (i != inst ==> ResultsOf(g.results, i) == ResultsOf(f.results, i))
  }

  lemma {:induction false} BuildsOnly(f: Func, vs: seq<Value>, before: Inst)
    ensures var g := InsertConsts(f, vs, before);
            g == f.(layout := g.layout, insts := g.insts, results := g.results, types := g.types, nextInst := g.nextInst, nextValue := g.nextValue)
    decreases |vs|
  {
    hide InsertInst;
    if vs != [] {
      BuildsOnly(InsertConst(f, vs[0], before), vs[1..], before);
    }
  }

  /** Where a result or a parameter used to be defined there are zeros that define it. */
  ghost predicate ZeroesFor(f: Func, g: Func, vs: seq<Value>, lows: seq<Value>) {
    && Defining(f, g, vs, lows)
    && forall v :: v in vs ==> exists p: nat :: ZeroAt(f, g, Fresh(f.nextInst, g.nextInst), v, p)
  }

  /**
    Replacing an instruction by constants puts, in its place, zeros that define each of its results and nothing
    else but the low halves of wide ones.
   */
  lemma {:induction false} ReplacedInPlace(f: Func, b: nat, k: nat) returns (lows: seq<Value>)
    requires Inv(f) && b < |f.layout| && k < |f.layout[b].insts| && ResultsOf(f.results, f.layout[b].insts[k]) != []
    requires forall v :: v in ResultsOf(f.results, f.layout[b].insts[k]) ==> v < f.nextValue
    ensures var inst := f.layout[b].insts[k];
            var g := ReplaceByConsts(f, inst);
            && ZeroesFor(f, g, ResultsOf(f.results, inst), lows) && SameBut(f, g, inst) && ValuesGrow(f, g)
            && g.layout == WithInsts(f.layout, b,
                 f.layout[b].insts[..k] + Fresh(f.nextInst, g.nextInst) + f.layout[b].insts[k + 1..])
  {
    hide Inv, Flatten, Once, InsertConsts, DeletedAt, TablesGrow, ZeroAt, Defining;
    var inst := f.layout[b].insts[k];
    var rs := ResultsOf(f.results, inst);
    var f0 := f.(results := f.results[inst := []]);
    var h := InsertConsts(f0, rs, inst);
    InFlatten(f.layout, b, k);
    ClearResultsKeepsInv(f, inst);
    ReplaceByConstsAt(f, b, k);
    lows := InsertConstsZeros(f0, rs, b, k);
    BuildsOnly(f0, rs, inst);
    var g := ReplaceByConsts(f, inst);
    forall i: Inst | i < f.nextInst
      ensures Data(g.insts, i) == Data(f.insts, i) && (i != inst ==> ResultsOf(g.results, i) == ResultsOf(f.results, i))
    {
      OldStays(f0, h, i);
    }
    CutOut(f0, h, b, k);
    SameZeros(f, f0, h, g, rs, lows);
    SameTypes(f, f0, h, g);
  }

  lemma SameTypes(f: Func, f0: Func, h: Func, g: Func)
    requires ValuesGrow(f0, h) && f0.types == f.types && f0.nextValue == f.nextValue && g.types == h.types && g.nextValue == h.nextValue
    ensures ValuesGrow(f, g)
  {
    forall v: Value | v < f.nextValue ensures TypeOf(g, v) == TypeOf(f, v) {
      assert TypeOf(h, v) == TypeOf(f0, v);
    }
  }

  lemma CutOut(f: Func, h: Func, b: nat, k: nat)
    requires Inserted(f, h, b, k) && h.nextInst > f.nextInst
    ensures var k' := k + h.nextInst - f.nextInst;
            && b < |h.layout| && 0 <= k' < |h.layout[b].insts|
            && DeletedAt(h.layout, b, k') ==
               WithInsts(f.layout, b, f.layout[b].insts[..k] + Fresh(f.nextInst, h.nextInst) + f.layout[b].insts[k + 1..])
  {
    hide TablesGrow;
    var s, zeros, k' := f.layout[b].insts, Fresh(f.nextInst, h.nextInst), k + h.nextInst - f.nextInst;
    InsertedBefore(f, h, b, k);
    DeletedIsRemoved(h.layout, b, k');
    assert Without(s[..k] + zeros + s[k..], k') == s[..k] + zeros + s[k + 1..];
  }

  /** What matters for zeros is the same. */
  lemma SameZeros(f: Func, f0: Func, h: Func, g: Func, vs: seq<Value>, lows: seq<Value>)
    requires ZeroesFor(f0, h, vs, lows)
    requires f0.nextInst == f.nextInst && f0.nextValue == f.nextValue && f0.types == f.types
    requires g.nextInst == h.nextInst && g.nextValue == h.nextValue && g.types == h.types && g.insts == h.insts && g.results == h.results
    ensures ZeroesFor(f, g, vs, lows)
  {
    forall v | v in vs ensures exists p: nat :: ZeroAt(f, g, Fresh(f.nextInst, g.nextInst), v, p) {
      var p: nat :| ZeroAt(f0, h, Fresh(f0.nextInst, h.nextInst), v, p);
      if TypeOf(f, v) == I128 {
        var s := Fresh(f.nextInst, g.nextInst);
        var low :| LowHalf(f0, h, s[p - 1], low) && Data(h.insts, s[p]) == InstData(PlainFormat, Uextend, [low], [], 0);
        assert LowHalf(f, g, s[p - 1], low);
      }
      assert ZeroAt(f, g, Fresh(f.nextInst, g.nextInst), v, p);
    }
  }

  /** Replacing a parameter puts such zeros first in its block. */
  lemma {:induction false} ParamInPlace(f: Func, c: nat, k: nat) returns (lows: seq<Value>)
    requires Inv(f) && c < |f.layout| && k < |ParamsOf(f.params, f.layout[c].id)| && ParamsOf(f.params, f.layout[c].id)[k] < f.nextValue
    ensures f.layout[c].insts != []
    ensures var b, v := f.layout[c].id, ParamsOf(f.params, f.layout[c].id)[k];
            var g := ParamByConst(f, b, k, f.layout[c].insts[0]);
            && ZeroesFor(f, g, [v], lows) && ValuesGrow(f, g)
            && (forall i: Inst :: i < f.nextInst ==> ResultsOf(g.results, i) == ResultsOf(f.results, i))
            && g.layout == WithInsts(f.layout, c, Fresh(f.nextInst, g.nextInst) + f.layout[c].insts)
            && g == f.(layout := g.layout, insts := g.insts, results := g.results, params := g.params, types := g.types,
                       nextInst := g.nextInst, nextValue := g.nextValue)
            && g.params == f.params[b := Without(ParamsOf(f.params, b), k)]
  {
    hide Inv, Flatten, Once, InsertConst, TablesGrow, ZeroAt, Defining, DropArgs, ParamByConst;
    var b, ps, first := f.layout[c].id, ParamsOf(f.params, f.layout[c].id), f.layout[c].insts;
    ParamByConstAt(f, c, k);
    var h, g := InsertConst(f, ps[k], first[0]), ParamByConst(f, b, k, first[0]);
    var p: nat;
    lows, p := InsertConstZero(f, ps[k], first[0]);
    forall i: Inst | i < f.nextInst ensures ResultsOf(h.results, i) == ResultsOf(f.results, i) {
      OldStays(f, h, i);
    }
    DropArgsOnly(h, Preds(h, b), b, k);
    BuildsOnly(f, [ps[k]], first[0]);
    BuildsOne(f, ps[k], first[0]);
    DroppedZeros(f, h, g, b, k, ps[k], lows, p);
    assert first[..0] + Fresh(f.nextInst, h.nextInst) + first[0..] == Fresh(f.nextInst, h.nextInst) + first;
  }

  lemma BuildsOne(f: Func, v: Value, before: Inst)
    ensures InsertConsts(f, [v], before) == InsertConst(f, v, before)
  {
    hide InsertConst;
    assert [v][1..] == [];
  }

  lemma DropArgsOnly(f: Func, preds: seq<Pred>, b: Block, k: nat)
    ensures var g := DropArgs(f, preds, b, k);
            g == f.(insts := g.insts) && forall i :: Data(f.insts, i).dests == [] ==> Data(g.insts, i) == Data(f.insts, i)
  {
    forall i | Data(f.insts, i).dests == [] ensures DropArg(Data(f.insts, i), b, k) == Data(f.insts, i) {
    }
  }

  /** Dropping arguments of branches leaves the zeros. */
  lemma {:induction false} DroppedZeros(f: Func, h: Func, g: Func, b: Block, k: nat, v: Value, lows: seq<Value>, p: nat)
    requires Defining(f, h, [v], lows) && ZeroAt(f, h, Fresh(f.nextInst, h.nextInst), v, p) && ValuesGrow(f, h)
    requires g == h.(insts := g.insts, params := g.params)
    requires forall i :: Data(h.insts, i).dests == [] ==> Data(g.insts, i) == Data(h.insts, i)
    ensures ZeroesFor(f, g, [v], lows) && ValuesGrow(f, g)
  {
    hide Fresh;
    var s := Fresh(f.nextInst, g.nextInst);
    if TypeOf(f, v) == I128 {
      var low :| LowHalf(f, h, s[p - 1], low) && Data(h.insts, s[p]) == InstData(PlainFormat, Uextend, [low], [], 0);
      assert LowHalf(f, g, s[p - 1], low);
    }
    assert ZeroAt(f, g, s, v, p);
    SameTypes(f, f, h, g);
  }

  // ----- Definitions are kept -----

  lemma {:induction false} ResultsSwapped(r1: map<Inst, seq<Value>>, r2: map<Inst, seq<Value>>, l: Layout, b: nat, k: nat, j: nat, t: seq<Inst>)
    requires b < |l| && k <= j <= |l[b].insts|
    requires forall i :: i in Flatten(l) && i !in l[b].insts[k..j] ==> ResultsOf(r2, i) == ResultsOf(r1, i)
    requires Once(Flatten(l))
    ensures var s := l[b].insts;
            multiset(ResultsIn(r2, Flatten(WithInsts(l, b, s[..k] + t + s[j..])))) + multiset(ResultsIn(r1, s[k..j])) ==
            multiset(ResultsIn(r1, Flatten(l))) + multiset(ResultsIn(r2, t))
  {
    hide Flatten, Once, ResultsIn, ResultsOf;
    var s := l[b].insts;
    var pre, a, m, z, post := Flatten(l[..b]), s[..k], s[k..j], s[j..], Flatten(l[b + 1..]);
    FlattenSplit(l, b);
    FlattenWithInsts(l, b, a + t + z);
    assert s == a + m + z;
    assert Flatten(l) == pre + (a + m + z) + post;
    SwappedParts(r1, r2, pre, a, m, t, z, post);
  }

  lemma {:induction false} SwappedParts(r1: map<Inst, seq<Value>>, r2: map<Inst, seq<Value>>,
                                        pre: seq<Inst>, a: seq<Inst>, m: seq<Inst>, t: seq<Inst>, z: seq<Inst>, post: seq<Inst>)
    requires Once(pre + (a + m + z) + post)
    requires forall i :: i in pre + (a + m + z) + post && i !in m ==> ResultsOf(r2, i) == ResultsOf(r1, i)
    ensures multiset(ResultsIn(r2, pre + (a + t + z) + post)) + multiset(ResultsIn(r1, m)) ==
            multiset(ResultsIn(r1, pre + (a + m + z) + post)) + multiset(ResultsIn(r2, t))
  {
    hide Once, ResultsIn, ResultsOf;
    ThreeParts(r1, pre, a, m, z, post);
    ThreeParts(r2, pre, a, t, z, post);
    forall i | i in pre || i in a || i in z || i in post ensures ResultsOf(r2, i) == ResultsOf(r1, i) {
      NotInMiddle(pre, a, m, z, post, i);
      assert i in pre + (a + m + z) + post;
    }
    ResultsSame(r1, r2, pre);
    ResultsSame(r1, r2, a);
    ResultsSame(r1, r2, z);
    ResultsSame(r1, r2, post);
  }

  lemma {:induction false} ThreeParts(r: map<Inst, seq<Value>>, pre: seq<Inst>, a: seq<Inst>, m: seq<Inst>, z: seq<Inst>, post: seq<Inst>)
    ensures ResultsIn(r, pre + (a + m + z) + post) ==
            ResultsIn(r, pre) + (ResultsIn(r, a) + ResultsIn(r, m) + ResultsIn(r, z)) + ResultsIn(r, post)
  {
    ResultsConcat(r, pre + (a + m + z), post);
    ResultsConcat(r, pre, a + m + z);
    ResultsConcat(r, a + m, z);
    ResultsConcat(r, a, m);
  }

  lemma NotInMiddle<T(!new)>(pre: seq<T>, a: seq<T>, m: seq<T>, z: seq<T>, post: seq<T>, i: T)
    requires Once(pre + (a + m + z) + post) && (i in pre || i in a || i in z || i in post)
    ensures i !in m
  {
    var all := pre + (a + m + z) + post;
    assert multiset(all)[i] == multiset(pre)[i] + multiset(a)[i] + multiset(m)[i] + multiset(z)[i] + multiset(post)[i];
    assert i in m <==> i in multiset(m);
    assert (i in pre <==> i in multiset(pre)) && (i in a <==> i in multiset(a)) && (i in z <==> i in multiset(z)) && (i in post <==> i in multiset(post));
  }

  /** Constants for the results of an instruction: all definitions are kept, and the low halves are new ones. */
  lemma {:induction false} ReplacedDefs(f: Func, b: nat, k: nat) returns (lows: seq<Value>)
    requires Inv(f) && b < |f.layout| && k < |f.layout[b].insts| && ResultsOf(f.results, f.layout[b].insts[k]) != []
    requires forall v :: v in ResultsOf(f.results, f.layout[b].insts[k]) ==> v < f.nextValue
    ensures var g := ReplaceByConsts(f, f.layout[b].insts[k]);
            && multiset(Defs(g)) == multiset(Defs(f)) + multiset(lows) && f.nextValue <= g.nextValue
            && Once(lows) && forall v :: v in lows ==> f.nextValue <= v < g.nextValue
  {
    hide Inv, Flatten, Once, ReplaceByConsts, ParamsIn, ResultsIn;
    lows := ReplacedInPlace(f, b, k);
    var inst, s := f.layout[b].insts[k], f.layout[b].insts;
    var g := ReplaceByConsts(f, inst);
    InvLayout(f);
    assert s[k..k + 1] == [inst];
    forall i | i in Flatten(f.layout) && i !in s[k..k + 1] ensures ResultsOf(g.results, i) == ResultsOf(f.results, i) {
      Laid(f, i);
    }
    ResultsSwapped(f.results, g.results, f.layout, b, k, k + 1, Fresh(f.nextInst, g.nextInst));
    ResultsOne(f.results, inst);
    ParamsSameIds(f.params, g.layout, f.layout);
    Cancel(ResultsIn(g.results, Flatten(g.layout)), ResultsIn(f.results, Flatten(f.layout)),
           ResultsOf(f.results, inst), ResultsIn(g.results, Fresh(f.nextInst, g.nextInst)), lows);
    assert multiset(Defs(g)) == multiset(AllParams(g)) + multiset(ResultsIn(g.results, Flatten(g.layout)));
    assert multiset(Defs(f)) == multiset(AllParams(f)) + multiset(ResultsIn(f.results, Flatten(f.layout)));
  }

  lemma Cancel(a: seq<Value>, b: seq<Value>, r: seq<Value>, n: seq<Value>, l: seq<Value>)
    requires multiset(a) + multiset(r) == multiset(b) + multiset(n) && multiset(n) == multiset(r) + multiset(l)
    ensures multiset(a) == multiset(b) + multiset(l)
  {
    forall x ensures multiset(a)[x] == (multiset(b) + multiset(l))[x] {
      assert (multiset(a) + multiset(r))[x] == (multiset(b) + multiset(n))[x];
    }
  }

  lemma Laid(f: Func, i: Inst)
    requires Inv(f) && i in Flatten(f.layout)
    ensures i < f.nextInst
  {
  }

  lemma ResultsOne(r: map<Inst, seq<Value>>, i: Inst)
    ensures ResultsIn(r, [i]) == ResultsOf(r, i) && ResultsIn(r, []) == []
  {
    assert [i][1..] == [];
  }

  /** A constant for a parameter: the parameter is defined by it instead. */
  lemma {:induction false} ParamDefs(f: Func, c: nat, k: nat) returns (lows: seq<Value>)
    requires Inv(f) && c < |f.layout| && k < |ParamsOf(f.params, f.layout[c].id)| && ParamsOf(f.params, f.layout[c].id)[k] < f.nextValue
    ensures f.layout[c].insts != []
    ensures var g := ParamByConst(f, f.layout[c].id, k, f.layout[c].insts[0]);
            && multiset(Defs(g)) == multiset(Defs(f)) + multiset(lows) && f.nextValue <= g.nextValue && g.aliases == f.aliases
            && Once(lows) && forall v :: v in lows ==> f.nextValue <= v < g.nextValue
  {
    hide Inv, Flatten, Once, ParamByConst, ParamsIn, ResultsIn, ResultsOf;
    lows := ParamInPlace(f, c, k);
    var s := f.layout[c].insts;
    var g := ParamByConst(f, f.layout[c].id, k, s[0]);
    InvLayout(f);
    assert s[..0] + Fresh(f.nextInst, g.nextInst) + s[0..] == Fresh(f.nextInst, g.nextInst) + s && s[0..0] == [];
    forall i | i in Flatten(f.layout) ensures ResultsOf(g.results, i) == ResultsOf(f.results, i) {
      Laid(f, i);
    }
    ResultsSwapped(f.results, g.results, f.layout, c, 0, 0, Fresh(f.nextInst, g.nextInst));
    ResultsOne(f.results, 0);
    ParamByConstAt(f, c, k);
    var v := ParamsOf(f.params, f.layout[c].id)[k];
    assert multiset([v]) == multiset{v};
    assert multiset(AllParams(f)) == multiset(AllParams(g)) + multiset{v};
    assert multiset(ResultsIn(g.results, Flatten(g.layout))) == multiset(ResultsIn(f.results, Flatten(f.layout))) + (multiset{v} + multiset(lows));
    assert multiset(Defs(g)) == multiset(AllParams(g)) + multiset(ResultsIn(g.results, Flatten(g.layout)));
    assert multiset(Defs(f)) == multiset(AllParams(f)) + multiset(ResultsIn(f.results, Flatten(f.layout)));
  }
}
