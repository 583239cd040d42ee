/**
  What a CLIF function does when it runs.  The effect of every instruction other than a plain jump is a
  parameter, so the results hold for any instruction set.
 */
module Semantics {
  import opened Options
  import opened Layouts
  import opened Clif

  /** Going on with results, taking branch `index`, or leaving the function. */
  datatype Effect<W> =
    | Next(results: seq<int>, world: W)
    | Branch(index: nat, extras: seq<int>, world: W)
    | Stop(answer: seq<int>, world: W)

  type Sem<!W> = (Inst, seq<int>, W) -> Effect<W>

  type Env = map<Value, int>

  function Val(env: Env, v: Value): int {
    if v in env then env[v] else 0
  }

  /** The value of an operand: aliases are followed first. */
  function Read(f: Func, env: Env, v: Value): int {
    Val(env, Root(f.aliases, v))
  }

  function ReadAll(f: Func, env: Env, vs: seq<Value>): seq<int> {
    seq(|vs|, k requires 0 <= k < |vs| => Read(f, env, vs[k]))
  }

  function ReadArg(f: Func, env: Env, a: BlockArg, extras: seq<int>): int {
    match a
    case ValueArg(v) => Read(f, env, v)
    case TryCallRet(k) => if k < |extras| then extras[k] else 0
    case TryCallExn(k) => if k < |extras| then extras[k] else 0
  }

  function ReadArgs(f: Func, env: Env, args: seq<BlockArg>, extras: seq<int>): seq<int> {
    seq(|args|, k requires 0 <= k < |args| => ReadArg(f, env, args[k], extras))
  }

  function Bind(env: Env, vs: seq<Value>, xs: seq<int>): Env
    decreases |vs|
  {
    if vs == [] then env
    else Bind(env[vs[0] := if xs == [] then 0 else xs[0]], vs[1..], if xs == [] then [] else xs[1..])
  }

  datatype BlockEnd<W> =
    | Goto(block: Block, args: seq<int>, env: Env, world: W)
    | Halt(answer: seq<int>, world: W)
    | FellOff(env: Env, world: W)
    | NoSuchBranch(world: W)

  /** Instructions in sequence, up to the first that leaves the block. */
  function RunInsts<W>(f: Func, sem: Sem<W>, s: seq<Inst>, env: Env, w: W): BlockEnd<W>
    decreases |s|
  {
    if s == [] then FellOff(env, w)
    else
      var d := Data(f.insts, s[0]);
      if d.format.Jump? && d.dests != [] then
        Goto(d.dests[0].block, ReadArgs(f, env, d.dests[0].args, []), env, w)
      else match sem(s[0], ReadAll(f, env, d.args), w)
        case Next(rs, w') => RunInsts(f, sem, s[1..], Bind(env, ResultsOf(f.results, s[0]), rs), w')
        case Stop(answer, w') => Halt(answer, w')
        case Branch(k, extras, w') =>
          if k < |d.dests| then Goto(d.dests[k].block, ReadArgs(f, env, d.dests[k].args, extras), env, w')
          else NoSuchBranch(w')
  }

  /** Entering a block binds its parameters. */
  function RunBlock<W>(f: Func, sem: Sem<W>, b: Block, args: seq<int>, env: Env, w: W): BlockEnd<W> {
    RunInsts(f, sem, InstsOf(f.layout, b), Bind(env, ParamsOf(f.params, b), args), w)
  }

  datatype Outcome<W> = Returned(answer: seq<int>, world: W) | RanOut(world: W) | BadBranch(world: W)

  /** The outcome, if it is reached within `fuel` blocks. */
  function Run<W>(f: Func, sem: Sem<W>, b: Block, args: seq<int>, env: Env, w: W, fuel: nat): Option<Outcome<W>>
    decreases fuel
  {
    if fuel == 0 then None
    else match RunBlock(f, sem, b, args, env, w)
      case Halt(answer, w') => Some(Returned(answer, w'))
      case FellOff(_, w') => Some(RanOut(w'))
      case NoSuchBranch(w') => Some(BadBranch(w'))
      case Goto(b', args', env', w') => Run(f, sem, b', args', env', w', fuel - 1)
  }

  /** A run of `f` from its entry block comes to the outcome `o`. */
  ghost predicate Produces<W(!new)>(f: Func, sem: Sem<W>, args: seq<int>, w: W, o: Outcome<W>) {
    f.layout != [] && exists fuel: nat :: Run(f, sem, f.layout[0].id, args, map[], w, fuel) == Some(o)
  }

  lemma {:induction false} MoreFuel<W>(f: Func, sem: Sem<W>, b: Block, args: seq<int>, env: Env, w: W, n: nat, m: nat)
    requires n <= m && Run(f, sem, b, args, env, w, n).Some?
    ensures Run(f, sem, b, args, env, w, m) == Run(f, sem, b, args, env, w, n)
    decreases n
  {
    var e := RunBlock(f, sem, b, args, env, w);
    if e.Goto? {
      MoreFuel(f, sem, e.block, e.args, e.env, e.world, n - 1, m - 1);
    }
  }

  lemma {:induction false} BindAt(env: Env, vs: seq<Value>, xs: seq<int>, k: nat)
    requires Once(vs) && |vs| == |xs| && k < |vs|
    ensures Val(Bind(env, vs, xs), vs[k]) == xs[k]
    decreases |vs|
  {
    if k == 0 {
      assert vs == [vs[0]] + vs[1..];
      if vs[0] in vs[1..] {
        var j :| 0 <= j < |vs[1..]| && vs[1..][j] == vs[0];
        CountTwice(vs, 0, j + 1);
      }
      BindOther(env[vs[0] := xs[0]], vs[1..], xs[1..], vs[0]);
    } else {
      OnceTail(vs);
      BindAt(env[vs[0] := xs[0]], vs[1..], xs[1..], k - 1);
    }
  }

  lemma OnceTail(vs: seq<Value>)
    requires Once(vs) && vs != []
    ensures Once(vs[1..])
  {
    assert vs == [vs[0]] + vs[1..];
    forall x ensures multiset(vs[1..])[x] <= 1 {
      assert multiset(vs)[x] <= 1;
    }
  }

  lemma {:induction false} BindOther(env: Env, vs: seq<Value>, xs: seq<int>, v: Value)
    requires v !in vs
    ensures Val(Bind(env, vs, xs), v) == Val(env, v)
    decreases |vs|
  {
    if vs != [] {
      BindOther(env[vs[0] := if xs == [] then 0 else xs[0]], vs[1..], if xs == [] then [] else xs[1..], v);
    }
  }

  /** Binding the same values to two environments keeps them equal wherever they were. */
  lemma {:induction false} BindBoth(e1: Env, e2: Env, vs: seq<Value>, xs: seq<int>, v: Value)
    requires v in vs || Val(e1, v) == Val(e2, v)
    ensures Val(Bind(e1, vs, xs), v) == Val(Bind(e2, vs, xs), v)
    decreases |vs|
  {
    if vs != [] {
      var x := if xs == [] then 0 else xs[0];
      BindBoth(e1[vs[0] := x], e2[vs[0] := x], vs[1..], if xs == [] then [] else xs[1..], v);
    }
  }
}
