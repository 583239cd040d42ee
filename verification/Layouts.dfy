/**
  The order of blocks and instructions in a CLIF function.

  A layout is a sequence of blocks, each with its sequence of instructions.  The operations are the
  ones the reducer calls; the linked-list representation behind them is not modelled.
 */
module Layouts {
  import opened Options

  type Block = nat
  type Inst = nat

  datatype LBlock = LBlock(id: Block, insts: seq<Inst>)
  type Layout = seq<LBlock>

  // ----- Sequences -----

  /** `s` without the element at index `k`. */
  function Without<T>(s: seq<T>, k: nat): (r: seq<T>)
    requires k < |s|
    ensures |r| == |s| - 1
    ensures multiset(s) == multiset(r) + multiset{s[k]}
  {
    assert s == s[..k] + [s[k]] + s[k + 1..];
    s[..k] + s[k + 1..]
  }

  /** No element occurs twice. */
  ghost predicate Once<T(!new)>(s: seq<T>) {
    forall x :: multiset(s)[x] <= 1
  }

  function IndexOf<T(==)>(s: seq<T>, x: T): (r: Option<nat>)
    ensures r.Some? ==> r.value < |s| && s[r.value] == x
    ensures r.None? ==> x !in s
  {
    if s == [] then None
    else if s[0] == x then Some(0)
    else match IndexOf(s[1..], x)
      case None => None
      case Some(k) => Some(k + 1)
  }

  lemma CountAt<T>(s: seq<T>, k: nat)
    requires k < |s|
    ensures multiset(s)[s[k]] >= 1
  {
    assert s[k] in multiset(s);
  }

  lemma CountTwice<T>(s: seq<T>, j: nat, k: nat)
    requires j < k < |s| && s[j] == s[k]
    ensures multiset(s)[s[j]] >= 2
  {
    assert s == s[..k] + s[k..];
    CountAt(s[..k], j);
    CountAt(s[k..], 0);
  }

  // ----- Reading a layout -----

  /** All instructions, in layout order. */
  function Flatten(l: Layout): (r: seq<Inst>) {
    if l == [] then [] else l[0].insts + Flatten(l[1..])
  }

  lemma {:induction false} FlattenConcat(a: Layout, b: Layout)
    ensures Flatten(a + b) == Flatten(a) + Flatten(b)
  {
    if a == [] {
      assert a + b == b;
    } else {
      assert (a + b)[1..] == a[1..] + b;
      FlattenConcat(a[1..], b);
    }
  }

  /** A layout around its block `k`. */
  lemma FlattenSplit(l: Layout, k: nat)
    requires k < |l|
    ensures Flatten(l) == Flatten(l[..k]) + l[k].insts + Flatten(l[k + 1..])
  {
    assert l == l[..k] + l[k..];
    FlattenConcat(l[..k], l[k..]);
    assert l[k..][1..] == l[k + 1..];
  }

  function BlockIndex(l: Layout, b: Block): (r: Option<nat>)
    ensures r.Some? ==> r.value < |l| && l[r.value].id == b
    ensures r.None? ==> forall k :: 0 <= k < |l| ==> l[k].id != b
  {
    if l == [] then None
    else if l[0].id == b then Some(0)
    else match BlockIndex(l[1..], b)
      case None => assert forall k :: 1 <= k < |l| ==> l[k] == l[1..][k - 1]; None
      case Some(k) => Some(k + 1)
  }

  /** The block index and the index within it of an instruction. */
  function Locate(l: Layout, i: Inst): (r: Option<(nat, nat)>)
    ensures r.Some? ==> r.value.0 < |l| && r.value.1 < |l[r.value.0].insts| && l[r.value.0].insts[r.value.1] == i
    ensures r.None? ==> forall b :: 0 <= b < |l| ==> i !in l[b].insts
  {
    if l == [] then None
    else match IndexOf(l[0].insts, i)
      case Some(k) => Some((0, k))
      case None =>
        match Locate(l[1..], i)
        case None => assert forall b :: 1 <= b < |l| ==> l[b] == l[1..][b - 1]; None
        case Some(p) => Some((p.0 + 1, p.1))
  }

  function EntryBlock(l: Layout): Option<Block> {
    if l == [] then None else Some(l[0].id)
  }

  function NextBlock(l: Layout, b: Block): Option<Block> {
    match BlockIndex(l, b)
    case None => None
    case Some(k) => if k + 1 < |l| then Some(l[k + 1].id) else None
  }

  function InstsOf(l: Layout, b: Block): seq<Inst> {
    match BlockIndex(l, b)
    case None => []
    case Some(k) => l[k].insts
  }

  function FirstInst(l: Layout, b: Block): Option<Inst> {
    var s := InstsOf(l, b);
    if s == [] then None else Some(s[0])
  }

  function LastInst(l: Layout, b: Block): Option<Inst> {
    var s := InstsOf(l, b);
    if s == [] then None else Some(s[|s| - 1])
  }

  function NextInst(l: Layout, i: Inst): Option<Inst> {
    match Locate(l, i)
    case None => None
    case Some(p) => if p.1 + 1 < |l[p.0].insts| then Some(l[p.0].insts[p.1 + 1]) else None
  }

  // ----- Editing a layout -----

  function WithInsts(l: Layout, k: nat, s: seq<Inst>): Layout
    requires k < |l|
  {
    l[k := LBlock(l[k].id, s)]
  }

  function RemoveInst(l: Layout, i: Inst): Layout {
    match Locate(l, i)
    case None => l
    case Some(p) => WithInsts(l, p.0, Without(l[p.0].insts, p.1))
  }

  function RemoveBlock(l: Layout, b: Block): Layout {
    match BlockIndex(l, b)
    case None => l
    case Some(k) => l[..k] + l[k + 1..]
  }

  function InsertInst(l: Layout, i: Inst, before: Inst): Layout {
    match Locate(l, before)
    case None => l
    case Some(p) => WithInsts(l, p.0, l[p.0].insts[..p.1] + [i] + l[p.0].insts[p.1..])
  }

  function AppendInst(l: Layout, i: Inst, b: Block): Layout {
    match BlockIndex(l, b)
    case None => l
    case Some(k) => WithInsts(l, k, l[k].insts + [i])
  }

  // ----- Well-formed layouts -----

  ghost predicate DistinctIds(l: Layout) {
    forall j, k :: 0 <= j < k < |l| ==> l[j].id != l[k].id
  }

  ghost predicate NoEmptyBlock(l: Layout) {
    forall k :: 0 <= k < |l| ==> l[k].insts != []
  }

  /** What the reducer relies on: at least one block, none of them empty, nothing laid out twice. */
  ghost predicate WfLayout(l: Layout) {
    && l != []
    && NoEmptyBlock(l)
    && DistinctIds(l)
    && Once(Flatten(l))
  }

  ghost predicate At(l: Layout, b: nat, k: nat, i: Inst) {
    b < |l| && k < |l[b].insts| && l[b].insts[k] == i
  }

  lemma BlockIndexAt(l: Layout, k: nat)
    requires DistinctIds(l) && k < |l|
    ensures BlockIndex(l, l[k].id) == Some(k)
  {
  }

  lemma InFlatten(l: Layout, b: nat, k: nat)
    requires b < |l| && k < |l[b].insts|
    ensures l[b].insts[k] in Flatten(l)
  {
    FlattenSplit(l, b);
  }

  lemma {:induction false} FlattenIn(l: Layout, i: Inst) returns (b: nat, k: nat)
    requires i in Flatten(l)
    ensures At(l, b, k, i)
  {
    if i in l[0].insts {
      b := 0;
      k :| 0 <= k < |l[0].insts| && l[0].insts[k] == i;
    } else {
      b, k := FlattenIn(l[1..], i);
      b := b + 1;
    }
  }

  lemma {:induction false} OnceAcrossBlocks(l: Layout, lo: nat, k: nat, hi: nat, m: nat)
    requires lo < hi < |l| && k < |l[lo].insts| && m < |l[hi].insts|
    requires l[lo].insts[k] == l[hi].insts[m]
    ensures !Once(Flatten(l))
  {
    var i := l[lo].insts[k];
    FlattenSplit(l, hi);
    InFlatten(l[..hi], lo, k);
    assert multiset(Flatten(l[..hi]))[i] >= 1;
    CountAt(l[hi].insts, m);
    assert multiset(Flatten(l)) ==
           multiset(Flatten(l[..hi])) + multiset(l[hi].insts) + multiset(Flatten(l[hi + 1..]));
    assert multiset(Flatten(l))[i] >= 2;
  }

  lemma {:induction false} OnceWithinBlock(l: Layout, b: nat, j: nat, k: nat)
    requires b < |l| && j < k < |l[b].insts| && l[b].insts[j] == l[b].insts[k]
    ensures !Once(Flatten(l))
  {
    var s := l[b].insts;
    FlattenSplit(l, b);
    CountTwice(s, j, k);
    assert multiset(Flatten(l)) == multiset(Flatten(l[..b])) + multiset(s) + multiset(Flatten(l[b + 1..]));
    assert multiset(Flatten(l))[s[j]] >= 2;
  }

  /** In a layout without repetition an instruction has one place, and the search finds it. */
  lemma {:induction false} LocateAt(l: Layout, b: nat, k: nat)
    requires Once(Flatten(l)) && b < |l| && k < |l[b].insts|
    ensures Locate(l, l[b].insts[k]) == Some((b, k))
  {
    var i := l[b].insts[k];
    var r := Locate(l, i);
    assert i in l[b].insts;
    var c, m := r.value.0, r.value.1;
    if c < b {
      OnceAcrossBlocks(l, c, m, b, k);
    } else if b < c {
      OnceAcrossBlocks(l, b, k, c, m);
    } else if m < k {
      OnceWithinBlock(l, b, m, k);
    } else if k < m {
      OnceWithinBlock(l, b, k, m);
    }
  }

  /** Replacing the instructions of one block replaces one stretch of the flattened layout. */
  lemma FlattenWithInsts(l: Layout, k: nat, s: seq<Inst>)
    requires k < |l|
    ensures Flatten(WithInsts(l, k, s)) == Flatten(l[..k]) + s + Flatten(l[k + 1..])
  {
    var m := WithInsts(l, k, s);
    FlattenSplit(m, k);
    assert m[..k] == l[..k] && m[k + 1..] == l[k + 1..];
  }

  /** Taking one block out takes its instructions out of the flattened layout. */
  lemma FlattenRemoveBlock(l: Layout, k: nat)
    requires k < |l|
    ensures Flatten(l[..k] + l[k + 1..]) == Flatten(l[..k]) + Flatten(l[k + 1..])
  {
    FlattenConcat(l[..k], l[k + 1..]);
  }
}
