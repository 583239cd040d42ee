/**
  The phase that replaces block parameters tries every parameter exactly once: blocks in layout order, and the
  parameters of each from the last to the first.
 */
module ParamPhase {
  import opened Options
  import opened Layouts
  import opened Clif
  import opened Mutators
  import opened Invariants
  import opened BlockMutatorsKeep
  import opened Reduction
  import opened Minimality

  // ----- The next parameter -----

  /** With none left in its block, the cursor goes to the next block that has any, and past all that have none. */
  lemma {:induction false} SeekExactly(f: Func, c: nat, remaining: nat) returns (d: nat)
    requires Inv(f) && c < |f.layout|
    ensures var r := SeekParam(f, f.layout[c].id, remaining);
            if remaining > 0 then r == Some((f.layout[c].id, remaining)) && d == c
            else
              && c < d <= |f.layout| && (forall e :: c < e < d ==> ParamsOf(f.params, f.layout[e].id) == [])
              && if d == |f.layout| then r == None
                 else ParamsOf(f.params, f.layout[d].id) != [] && r == Some((f.layout[d].id, |ParamsOf(f.params, f.layout[d].id)|))
    decreases |f.layout| - c
  {
    hide Inv, Flatten, Once;
    InvLayout(f);
    BlockIndexAt(f.layout, c);
    d := c;
    if remaining == 0 {
      if c + 1 < |f.layout| {
        BlockIndexAt(f.layout, c + 1);
        var n := |ParamsOf(f.params, f.layout[c + 1].id)|;
        d := SeekExactly(f, c + 1, n);
      } else {
        d := c + 1;
      }
    }
  }

  // ----- What is left to try -----

  function Backwards(s: seq<Value>): seq<Value> {
    if s == [] then [] else [s[|s| - 1]] + Backwards(s[..|s| - 1])
  }

  /** All parameters of the blocks from `c` on. */
  function From(f: Func, c: nat): seq<Value>
    decreases |f.layout| - c
  {
    if c >= |f.layout| then [] else Backwards(ParamsOf(f.params, f.layout[c].id)) + From(f, c + 1)
  }

  /** The first `remaining` parameters of block `c` and all those after it. */
  function Todo(f: Func, c: nat, remaining: nat): seq<Value>
    requires c < |f.layout| && remaining <= |ParamsOf(f.params, f.layout[c].id)|
  {
    Backwards(ParamsOf(f.params, f.layout[c].id)[..remaining]) + From(f, c + 1)
  }

  lemma {:induction false} FromSkips(f: Func, c: nat, d: nat)
    requires c <= d <= |f.layout| && forall e :: c <= e < d ==> ParamsOf(f.params, f.layout[e].id) == []
    ensures From(f, c) == From(f, d)
    decreases d - c
  {
    if c < d {
      FromSkips(f, c + 1, d);
    }
  }

  lemma {:induction false} FromSame(f: Func, g: Func, c: nat, d: nat)
    requires |g.layout| == |f.layout| && c < d
    requires forall e :: c < e < |f.layout| ==> ParamsOf(g.params, g.layout[e].id) == ParamsOf(f.params, f.layout[e].id)
    ensures From(g, d) == From(f, d)
    decreases |f.layout| - d
  {
    if d < |f.layout| {
      FromSame(f, g, c, d + 1);
    }
  }

  // ----- One try -----

  /** `v` is a parameter before, and none after; all others stay. */
  ghost predicate TakesOut(a: Attempt, v: Value) {
    multiset(AllParams(a.before)) == multiset(AllParams(a.candidate)) + multiset{v}
  }

  /** Cursor `m` is at parameter `remaining - 1` of block `c`, or where that is none, past block `c`. */
  ghost predicate CursorIs(m: Mutator, f: Func, c: nat, remaining: nat) {
    c < |f.layout| && remaining <= |ParamsOf(f.params, f.layout[c].id)| && m == ReplaceBlockParamWithConst(f.layout[c].id, remaining)
  }

  lemma {:induction false} OneTry(m: Mutator, f: Func, c: nat, remaining: nat) returns (c': nat, left: nat)
    requires Inv(f) && EntryMatches(f) && CursorIs(m, f, c, remaining)
    ensures var s, todo := Mutate(m, f), Todo(f, c, remaining);
            if todo == [] then s.outcome == Done
            else
              && s.outcome.Mutated? && s.outcome.status == ExpandedOrShrinked && DidCrash(s.next) == Ok(s.next)
              && var g := s.outcome.func;
                 && Inv(g) && EntryMatches(g) && TakesOut(Attempt(f, g, true), todo[0])
                 && CursorIs(s.next, f, c', left) && Todo(f, c', left) == todo[1..]
                 && CursorIs(s.next, g, c', left) && Todo(g, c', left) == todo[1..]
  {
    hide Inv, Flatten, Once, ParamByConst, SeekParam, EntryMatches, TakesOut, MutateReplaceParam, Todo;
    c', left := NextTodo(f, c, remaining);
    if Todo(f, c, remaining) != [] {
      TryAtParam(f, f.layout[c].id, remaining, c', left);
      OneLess(f, c', left);
    } else {
      NoneTried(f, f.layout[c].id, remaining);
    }
  }

  /** What the cursor finds is the first of what is to be tried, and leaves the others. */
  lemma {:induction false} NextTodo(f: Func, c: nat, remaining: nat) returns (d: nat, k: nat)
    requires Inv(f) && c < |f.layout| && remaining <= |ParamsOf(f.params, f.layout[c].id)|
    ensures Todo(f, c, remaining) == [] ==> SeekParam(f, f.layout[c].id, remaining).None?
    ensures Todo(f, c, remaining) != [] ==>
              && d < |f.layout| && k < |ParamsOf(f.params, f.layout[d].id)|
              && SeekParam(f, f.layout[c].id, remaining) == Some((f.layout[d].id, k + 1))
              && Todo(f, c, remaining) == Todo(f, d, k + 1)
  {
    hide Inv, SeekParam, Backwards, From;
    d := SeekExactly(f, c, remaining);
    k := 0;
    BackwardsNone();
    if remaining > 0 {
      k := remaining - 1;
      BackwardsUnfolds(ParamsOf(f.params, f.layout[c].id)[..remaining]);
    } else {
      FromSkips(f, c + 1, d);
      assert ParamsOf(f.params, f.layout[c].id)[..0] == [];
      if d < |f.layout| {
        var ps := ParamsOf(f.params, f.layout[d].id);
        k := |ps| - 1;
        FromUnfolds(f, d);
        BackwardsUnfolds(ps);
        assert ps[..|ps|] == ps;
      } else {
        FromEnds(f, d);
      }
    }
  }

  lemma {:induction false} OneLess(f: Func, d: nat, k: nat)
    requires d < |f.layout| && k < |ParamsOf(f.params, f.layout[d].id)|
    ensures Todo(f, d, k + 1) == [ParamsOf(f.params, f.layout[d].id)[k]] + Todo(f, d, k)
  {
    hide Backwards, From;
    var ps := ParamsOf(f.params, f.layout[d].id);
    BackwardsUnfolds(ps[..k + 1]);
    assert ps[..k + 1][..k] == ps[..k];
  }

  lemma NoneTried(f: Func, block: Block, remaining: nat)
    requires SeekParam(f, block, remaining).None?
    ensures MutateReplaceParam(block, remaining, f).outcome == Done
  {
    hide SeekParam;
  }

  /** The mutation at parameter `k` of block `d`. */
  lemma {:induction false} TryAtParam(f: Func, block: Block, remaining: nat, d: nat, k: nat)
    requires Inv(f) && EntryMatches(f) && d < |f.layout| && k < |ParamsOf(f.params, f.layout[d].id)|
    requires SeekParam(f, block, remaining) == Some((f.layout[d].id, k + 1))
    ensures var s := MutateReplaceParam(block, remaining, f);
            && s.next == ReplaceBlockParamWithConst(f.layout[d].id, k)
            && s.outcome.Mutated? && s.outcome.status == ExpandedOrShrinked
            && var g := s.outcome.func;
               && Inv(g) && EntryMatches(g) && TakesOut(Attempt(f, g, true), ParamsOf(f.params, f.layout[d].id)[k])
               && d < |g.layout| && g.layout[d].id == f.layout[d].id
               && k <= |ParamsOf(g.params, g.layout[d].id)| && Todo(g, d, k) == Todo(f, d, k)
  {
    hide Inv, Flatten, Once, ParamByConst, SeekParam, FirstInst, EntryBlock, ParamsIn, Backwards, From, EntryMatches, Todo;
    var b := f.layout[d].id;
    InvLayout(f);
    ReplaceParamAt(f, d, k + 1);
    ParamByConstAt(f, d, k);
    var g := ParamByConst(f, b, k, f.layout[d].insts[0]);
    SameIds(f, g, d);
    InvLayout(g);
    GoneFrom(f, g, d, k);
    EntryStays(f, g, d, k);
    SignatureOnly(g, d, k);
    assert g == g.(sigParams := g.sigParams);
  }

  lemma SameIds(f: Func, g: Func, d: nat)
    requires Inv(f) && d < |f.layout|
    requires exists h :: Inserted(f, h, d, 0) && g.layout == h.layout
    ensures |g.layout| == |f.layout| && forall e :: 0 <= e < |f.layout| ==> g.layout[e].id == f.layout[e].id
  {
    hide TablesGrow, Inv;
  }

  lemma BackwardsNone()
    ensures Backwards([]) == []
  {
  }

  lemma BackwardsUnfolds(s: seq<Value>)
    requires s != []
    ensures Backwards(s) == [s[|s| - 1]] + Backwards(s[..|s| - 1])
  {
  }

  lemma FromUnfolds(f: Func, c: nat)
    requires c < |f.layout|
    ensures From(f, c) == Backwards(ParamsOf(f.params, f.layout[c].id)) + From(f, c + 1)
  {
  }

  lemma FromEnds(f: Func, c: nat)
    requires c >= |f.layout|
    ensures From(f, c) == []
  {
  }

  /** Taking parameter `k` of block `d` out leaves what is to be tried after it. */
  lemma {:induction false} GoneFrom(f: Func, g: Func, d: nat, k: nat)
    requires WfLayout(f.layout) && d < |f.layout| && k < |ParamsOf(f.params, f.layout[d].id)|
    requires |g.layout| == |f.layout| && forall e :: 0 <= e < |f.layout| ==> g.layout[e].id == f.layout[e].id
    requires g.params == f.params[f.layout[d].id := Without(ParamsOf(f.params, f.layout[d].id), k)]
    ensures k <= |ParamsOf(g.params, f.layout[d].id)| && Todo(g, d, k) == Todo(f, d, k)
  {
    hide Flatten, Once, Backwards, From;
    var ps, qs := ParamsOf(f.params, f.layout[d].id), ParamsOf(g.params, f.layout[d].id);
    assert qs == Without(ps, k) && qs[..k] == ps[..k];
    forall e | d < e < |f.layout| ensures ParamsOf(g.params, g.layout[e].id) == ParamsOf(f.params, f.layout[e].id) {
      assert f.layout[e].id != f.layout[d].id;
    }
    FromSame(f, g, d, d + 1);
  }

  lemma {:induction false} EntryStays(f: Func, g: Func, d: nat, k: nat)
    requires Inv(f) && EntryMatches(f) && d < |f.layout| && k < |ParamsOf(f.params, f.layout[d].id)|
    requires g.sigParams == f.sigParams && g.layout != [] && g.layout[0].id == f.layout[0].id
    requires DistinctIds(g.layout)
    requires g.params == f.params[f.layout[d].id := Without(ParamsOf(f.params, f.layout[d].id), k)]
    ensures EntryBlock(g.layout) == Some(f.layout[d].id) <==> d == 0
    ensures d == 0 ==> k < |g.sigParams| && EntryMatches(g.(sigParams := Without(g.sigParams, k)))
    ensures d > 0 ==> EntryMatches(g)
  {
    hide Flatten, Once, AllArityOk, TerminatorsOk, AliasFree, ParamsIn;
    assert d > 0 ==> f.layout[d].id != f.layout[0].id;
  }

  lemma SignatureOnly(g: Func, d: nat, k: nat)
    requires d < |g.layout| && k <= |ParamsOf(g.params, g.layout[d].id)|
    ensures forall s :: AllParams(g.(sigParams := s)) == AllParams(g)
    ensures forall s :: Todo(g.(sigParams := s), d, k) == Todo(g, d, k)
  {
    hide Backwards, From;
    forall s ensures Todo(g.(sigParams := s), d, k) == Todo(g, d, k) {
      FromSame(g, g.(sigParams := s), d, d + 1);
    }
  }

  // ----- The phase -----

  lemma {:induction false} PhaseFrom(crash: Func -> bool, m: Mutator, f: Func, c: nat, remaining: nat, tries: nat)
    requires Inv(f) && EntryMatches(f) && CursorIs(m, f, c, remaining) && |Todo(f, c, remaining)| <= tries
    ensures var log, todo := PhaseLog(crash, m, f, tries), Todo(f, c, remaining);
            Follows(log, crash, f) && |log| == |todo| && forall j :: 0 <= j < |log| ==> TakesOut(log[j], todo[j])
    decreases tries
  {
    hide Inv, EntryMatches, Mutate, DidCrash, Todo, Follows, TakesOut;
    EmptyLog(crash, f);
    if tries > 0 {
      var todo := Todo(f, c, remaining);
      var s := Mutate(m, f);
      var c', left := OneTry(m, f, c, remaining);
      if todo != [] {
        var g := s.outcome.func;
        var h := if crash(g) then g else f;
        PhaseFrom(crash, s.next, h, c', left, tries - 1);
        var rest := PhaseLog(crash, s.next, h, tries - 1);
        var a := Attempt(f, g, crash(g));
        assert PhaseLog(crash, m, f, tries) == [a] + rest;
        FollowsCons(a, rest, crash);
        TakesOutAlso(a, todo[0]);
        forall j | 0 <= j < |rest| + 1 ensures TakesOut(([a] + rest)[j], todo[j]) {
          if j > 0 {
            assert TakesOut(rest[j - 1], todo[1..][j - 1]);
          }
        }
      }
    }
  }

  lemma TakesOutAlso(a: Attempt, v: Value)
    requires TakesOut(Attempt(a.before, a.candidate, true), v)
    ensures TakesOut(a, v)
  {
  }

  lemma FollowsCons(a: Attempt, rest: seq<Attempt>, crash: Func -> bool)
    requires a.kept == crash(a.candidate) && Follows(rest, crash, After(a))
    ensures Follows([a] + rest, crash, a.before)
  {
  }

  /**
    Whatever the oracle answers: if the entry block matches the signature and there are at most 10000 parameters, each
    is tried once, in this order, each try starting from what the ones before left.
   */
  lemma {:induction false} EveryParamOnce(crash: Func -> bool, f: Func)
    requires Inv(f) && EntryMatches(f) && |From(f, 0)| <= MaxTries
    ensures NewMutator(5, f).Ok?
    ensures var log, todo := PhaseLog(crash, NewMutator(5, f).value, f, MaxTries), From(f, 0);
            Follows(log, crash, f) && |log| == |todo| && forall j :: 0 <= j < |log| ==> TakesOut(log[j], todo[j])
  {
    hide Inv, EntryMatches, PhaseLog, Backwards, From, Follows, TakesOut;
    InvLayout(f);
    FromUnfolds(f, 0);
    var n := |ParamsOf(f.params, f.layout[0].id)|;
    assert ParamsOf(f.params, f.layout[0].id)[..n] == ParamsOf(f.params, f.layout[0].id);
    PhaseFrom(crash, NewMutator(5, f).value, f, 0, n, MaxTries);
  }
}
