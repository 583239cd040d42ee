/**
  Attributing samples to functions and to offsets in them, and walking a function's instructions to show
  them.
 */
module Profiler {
  import opened Options
  import opened Bits
  import opened Profile

  datatype Func = Func(addr: nat, hits: nat, name: seq<Byte>, body: seq<Byte>, instructions: map<nat, nat>)

  /** The functions by address, and how many samples were counted. */
  datatype Tally = Tally(functions: map<nat, Func>, total: nat)

  /** Why the program stops: an assertion, an `unwrap`, or arithmetic that overflows. */
  datatype Panic =
    | DuplicateFunction | NoFunction | OutsideBody
    | AddressOverflow | TotalOverflow | HitsOverflow | OffsetOverflow | CountOverflow

  datatype Outcome = Fine(tally: Tally) | Panics(panic: Panic)

  /** The total is a signed 32-bit number. */
  const MaxTotal := 0x7fff_ffff

  // ----- Counting -----

  /** The greatest address at or below `pc` that a function was recorded at. */
  function Floor(functions: map<nat, Func>, pc: nat): (r: Option<nat>)
    ensures r.Some? ==> r.value in functions && r.value <= pc && forall k :: r.value < k <= pc ==> k !in functions
    ensures r.None? ==> forall k :: 0 <= k <= pc ==> k !in functions
  {
    if pc in functions then Some(pc) else if pc == 0 then None else Floor(functions, pc - 1)
  }

  function CountAt(m: map<nat, nat>, offset: nat): nat {
    if offset in m then m[offset] else 0
  }

  /** `f` with one more sample at `offset`. */
  function Hit(f: Func, offset: nat): Func {
    f.(hits := f.hits + 1, instructions := f.instructions[offset := CountAt(f.instructions, offset) + 1])
  }

  function Charge(t: Tally, pc: nat): Outcome {
    match Floor(t.functions, pc)
    case None => Panics(NoFunction)
    case Some(k) =>
      var f := t.functions[k];
      if pc < f.addr then Panics(OutsideBody)
      else if f.addr + |f.body| >= Limit(8) then Panics(AddressOverflow)
      else if pc >= f.addr + |f.body| then Panics(OutsideBody)
      else if t.total >= MaxTotal then Panics(TotalOverflow)
      else if f.hits + 1 >= Limit(8) then Panics(HitsOverflow)
      else if pc - f.addr >= Limit(4) then Panics(OffsetOverflow)
      else if CountAt(f.instructions, pc - f.addr) + 1 >= Limit(4) then Panics(CountOverflow)
      else Fine(Tally(t.functions[k := Hit(f, pc - f.addr)], t.total + 1))
  }

  function ChargeAll(t: Tally, pcs: seq<nat>): Outcome
    decreases |pcs|
  {
    if pcs == [] then Fine(t)
    else
      match Charge(t, pcs[0])
      case Fine(t') => ChargeAll(t', pcs[1..])
      case Panics(p) => Panics(p)
  }

  function Insert(t: Tally, addr: nat, name: seq<Byte>, body: seq<Byte>): Outcome {
    if addr in t.functions then Panics(DuplicateFunction)
    else Fine(t.(functions := t.functions[addr := Func(addr, 0, name, body, map[])]))
  }

  function Take(t: Tally, e: Event): Outcome {
    match e
    case Function(addr, name, body) => Insert(t, addr, name, body)
    case Samples(pcs) => ChargeAll(t, pcs)
  }

  function TakeAll(t: Tally, es: seq<Event>): Outcome
    decreases |es|
  {
    if es == [] then Fine(t)
    else
      match Take(t, es[0])
      case Fine(t') => TakeAll(t', es[1..])
      case Panics(p) => Panics(p)
  }

  // ----- Sums -----

  ghost function SumCounts(m: map<nat, nat>, n: nat): nat {
    if n == 0 then 0 else CountAt(m, n - 1) + SumCounts(m, n - 1)
  }

  function HitsAt(functions: map<nat, Func>, k: nat): nat {
    if k in functions then functions[k].hits else 0
  }

  ghost function SumHits(functions: map<nat, Func>, n: nat): nat {
    if n == 0 then 0 else HitsAt(functions, n - 1) + SumHits(functions, n - 1)
  }

  lemma {:induction false} SumCountsBump(m: map<nat, nat>, offset: nat, n: nat)
    ensures var m' := m[offset := CountAt(m, offset) + 1];
            SumCounts(m', n) == SumCounts(m, n) + if offset < n then 1 else 0
  {
    if n > 0 {
      SumCountsBump(m, offset, n - 1);
    }
  }

  lemma {:induction false} CountInSum(m: map<nat, nat>, offset: nat, n: nat)
    requires offset < n
    ensures CountAt(m, offset) <= SumCounts(m, n)
  {
    if offset < n - 1 {
      CountInSum(m, offset, n - 1);
    }
  }

  lemma {:induction false} SumNoCounts(n: nat)
    ensures SumCounts(map[], n) == 0
  {
    if n > 0 {
      SumNoCounts(n - 1);
    }
  }

  lemma {:induction false} SumHitsUpdate(functions: map<nat, Func>, k: nat, f: Func, n: nat)
    ensures SumHits(functions[k := f], n) == SumHits(functions, n) + if k < n then f.hits - HitsAt(functions, k) else 0
  {
    if n > 0 {
      SumHitsUpdate(functions, k, f, n - 1);
    }
  }

  lemma {:induction false} HitsInSum(functions: map<nat, Func>, k: nat, n: nat)
    requires k < n
    ensures HitsAt(functions, k) <= SumHits(functions, n)
  {
    if k < n - 1 {
      HitsInSum(functions, k, n - 1);
    }
  }

  // ----- What every run keeps -----

  /** A function's hits are the sum of its counts, all of them inside its body. */
  ghost predicate FuncOk(k: nat, f: Func) {
    && f.addr == k < Limit(8) && |f.body| < Limit(4)
    && (forall offset :: offset in f.instructions ==> offset < |f.body| && f.instructions[offset] > 0)
    && f.hits == SumCounts(f.instructions, |f.body|)
  }

  /** The total is the sum of the hits. */
  ghost predicate TallyOk(t: Tally) {
    && (forall k :: k in t.functions ==> FuncOk(k, t.functions[k]))
    && t.total == SumHits(t.functions, Limit(8)) <= MaxTotal
  }

  lemma {:induction false} HitOk(k: nat, f: Func, offset: nat)
    requires FuncOk(k, f) && offset < |f.body|
    ensures FuncOk(k, Hit(f, offset))
  {
    hide Limit;
    SumCountsBump(f.instructions, offset, |f.body|);
  }

  /** A count is at most the hits of its function, which are at most the total: neither can overflow. */
  lemma {:induction false} CountsBelowTotal(t: Tally, k: nat, offset: nat)
    requires TallyOk(t) && k in t.functions && offset < |t.functions[k].body|
    ensures CountAt(t.functions[k].instructions, offset) <= t.functions[k].hits <= t.total
  {
    hide SumCounts, SumHits, Limit;
    var f := t.functions[k];
    assert FuncOk(k, f);
    CountInSum(f.instructions, offset, |f.body|);
    HitsInSum(t.functions, k, Limit(8));
  }

  /**
    In a state that adds up, a sample is refused for one of four reasons only, and one that is accepted is
    counted in exactly one place.
   */
  lemma {:induction false} ChargeKeeps(t: Tally, pc: nat)
    requires TallyOk(t)
    ensures var r := Charge(t, pc);
            match r
            case Panics(p) => p in {NoFunction, OutsideBody, AddressOverflow, TotalOverflow}
            case Fine(t') =>
              && TallyOk(t') && t'.total == t.total + 1 && t'.functions.Keys == t.functions.Keys
              && exists k :: ChargedTo(t, pc, k) && t'.functions == t.functions[k := Hit(t.functions[k], pc - k)]
  {
    Limits();
    hide SumCounts, SumHits, Limit, FuncOk;
    var floor := Floor(t.functions, pc);
    if floor.Some? {
      var k := floor.value;
      var f := t.functions[k];
      assert FuncOk(k, f);
      FuncFits(k, f);
      if pc < f.addr + |f.body| {
        CountsBelowTotal(t, k, pc - k);
        if Charge(t, pc).Fine? {
          assert ChargedTo(t, pc, k);
          HitOk(k, f, pc - k);
          SumHitsUpdate(t.functions, k, Hit(f, pc - k), Limit(8));
        }
      }
    }
  }

  lemma FuncFits(k: nat, f: Func)
    requires FuncOk(k, f)
    ensures f.addr == k < Limit(8) && |f.body| < Limit(4)
  {
  }

  /** The function at `k` is the last that starts at or below `pc`, and `pc` is in its body. */
  predicate ChargedTo(t: Tally, pc: nat, k: nat) {
    k in t.functions && k <= pc < k + |t.functions[k].body| && forall j :: k < j <= pc ==> j !in t.functions
  }

  lemma {:induction false} InsertKeeps(t: Tally, addr: nat, name: seq<Byte>, body: seq<Byte>)
    requires TallyOk(t) && addr < Limit(8) && |body| < Limit(4) && addr !in t.functions
    ensures Insert(t, addr, name, body).Fine? && TallyOk(Insert(t, addr, name, body).tally)
  {
    hide SumCounts, SumHits, Limit;
    SumNoCounts(|body|);
    SumHitsUpdate(t.functions, addr, Func(addr, 0, name, body, map[]), Limit(8));
  }

  // ----- Functions that do not overlap -----

  predicate Contains(f: Func, pc: nat) {
    f.addr <= pc < f.addr + |f.body|
  }

  /** Bodies that are not empty, end below the end of memory, and have no address in common. */
  ghost predicate Disjoint(functions: map<nat, Func>) {
    && (forall k :: k in functions ==> functions[k].addr == k && functions[k].body != [] && k + |functions[k].body| < Limit(8))
    && (forall j, k :: j in functions && k in functions && j < k ==> j + |functions[j].body| <= k)
  }

  ghost predicate Covered(functions: map<nat, Func>, pc: nat) {
    exists k :: k in functions && Contains(functions[k], pc)
  }

  /** The function that contains `pc` is the only one, and is the one found. */
  lemma FloorContains(functions: map<nat, Func>, pc: nat, k: nat)
    requires Disjoint(functions) && k in functions && Contains(functions[k], pc)
    ensures Floor(functions, pc) == Some(k)
    ensures forall j :: j in functions && Contains(functions[j], pc) ==> j == k
  {
    hide Limit;
    var j := Floor(functions, pc).value;
    assert j in functions && k <= j <= pc;
  }

  /**
    With functions that do not overlap, a sample is counted exactly if it is inside one and the total has
    room; and it is then counted for that function, at its offset.
   */
  lemma {:induction false} ChargeIff(t: Tally, pc: nat)
    requires TallyOk(t) && Disjoint(t.functions)
    ensures Charge(t, pc).Fine? <==> Covered(t.functions, pc) && t.total < MaxTotal
    ensures forall k :: k in t.functions && Contains(t.functions[k], pc) && t.total < MaxTotal ==>
                          Charge(t, pc) == Fine(Tally(t.functions[k := Hit(t.functions[k], pc - k)], t.total + 1))
  {
    hide SumCounts, SumHits, Limit, FuncOk;
    ChargeKeeps(t, pc);
    var r := Charge(t, pc);
    if r.Fine? {
      assert Contains(t.functions[Floor(t.functions, pc).value], pc);
    }
    forall k | k in t.functions && Contains(t.functions[k], pc) && t.total < MaxTotal
      ensures r == Fine(Tally(t.functions[k := Hit(t.functions[k], pc - k)], t.total + 1))
    {
      FloorContains(t.functions, pc, k);
    }
  }

  // ----- What the counts mean -----

  /** The count at each offset of each function is the number of samples at that address. */
  ghost predicate CountsAre(functions: map<nat, Func>, pcs: multiset<nat>) {
    forall k, offset: nat :: k in functions && offset < |functions[k].body| ==>
                               CountAt(functions[k].instructions, offset) == pcs[k + offset]
  }

  ghost predicate AllCovered(functions: map<nat, Func>, pcs: multiset<nat>) {
    forall pc :: pc in pcs ==> Covered(functions, pc)
  }

  /** Every sample is in a function, counted at its address, and nothing else is counted. */
  ghost predicate Exact(t: Tally, pcs: multiset<nat>) {
    AllCovered(t.functions, pcs) && CountsAre(t.functions, pcs) && t.total == |pcs|
  }

  lemma {:induction false} MoreCovered(a: map<nat, Func>, b: map<nat, Func>, pcs: multiset<nat>)
    requires AllCovered(a, pcs) && Bodies(a, b)
    ensures AllCovered(b, pcs)
  {
    forall pc | pc in pcs ensures Covered(b, pc) {
      var k :| k in a && Contains(a[k], pc);
      assert Contains(b[k], pc);
    }
  }

  lemma {:induction false} HitCounts(functions: map<nat, Func>, pcs: multiset<nat>, pc: nat, k: nat)
    requires Disjoint(functions) && CountsAre(functions, pcs) && k in functions && Contains(functions[k], pc)
    ensures CountsAre(functions[k := Hit(functions[k], pc - k)], pcs + multiset{pc})
  {
    hide Limit, Disjoint, Floor;
    KeyIsAddr(functions, k);
    var functions' := functions[k := Hit(functions[k], pc - k)];
    forall j, offset: nat | j in functions' && offset < |functions'[j].body|
      ensures CountAt(functions'[j].instructions, offset) == (pcs + multiset{pc})[j + offset]
    {
      HitCountAt(functions, pc, k, j, offset);
    }
  }

  /** A hit adds one to the count at its address, and to no other. */
  lemma HitCountAt(functions: map<nat, Func>, pc: nat, k: nat, j: nat, offset: nat)
    requires Disjoint(functions) && k in functions && Contains(functions[k], pc) && functions[k].addr == k
    requires j in functions && offset < |functions[j].body|
    ensures CountAt(functions[k := Hit(functions[k], pc - k)][j].instructions, offset) ==
            CountAt(functions[j].instructions, offset) + if j + offset == pc then 1 else 0
  {
    hide Limit, Disjoint, Floor;
    KeyIsAddr(functions, j);
    FloorContains(functions, pc, k);
    assert Contains(functions[j], j + offset);
  }

  lemma KeyIsAddr(functions: map<nat, Func>, k: nat)
    requires Disjoint(functions) && k in functions
    ensures functions[k].addr == k
  {
  }

  lemma {:induction false} ChargeExact(t: Tally, pcs: multiset<nat>, pc: nat)
    requires TallyOk(t) && Disjoint(t.functions) && Exact(t, pcs) && Charge(t, pc).Fine?
    ensures var t' := Charge(t, pc).tally; TallyOk(t') && Disjoint(t'.functions) && Exact(t', pcs + multiset{pc})
  {
    hide SumCounts, SumHits, Limit, TallyOk, Disjoint, Charge, CountsAre, Hit;
    ChargeIff(t, pc);
    ChargeKeeps(t, pc);
    ChargeBodies(t, pc);
    var t' := Charge(t, pc).tally;
    FewerDisjoint(t'.functions, t.functions);
    MoreCovered(t.functions, t'.functions, pcs);
    var k :| k in t.functions && Contains(t.functions[k], pc);
    KeyIsAddr(t.functions, k);
    assert t' == Tally(t.functions[k := Hit(t.functions[k], pc - k)], t.total + 1);
    HitCounts(t.functions, pcs, pc, k);
    assert Contains(t'.functions[k], pc);
  }

  lemma {:induction false} ChargeAllExact(t: Tally, pcs: multiset<nat>, more: seq<nat>)
    requires TallyOk(t) && Disjoint(t.functions) && Exact(t, pcs) && ChargeAll(t, more).Fine?
    ensures var t' := ChargeAll(t, more).tally;
            && TallyOk(t') && Disjoint(t'.functions) && Exact(t', pcs + multiset(more))
            && SameBodies(t.functions, t'.functions)
    decreases |more|
  {
    hide TallyOk, Disjoint, Exact, Charge;
    if more != [] {
      var t1 := Charge(t, more[0]).tally;
      ChargeExact(t, pcs, more[0]);
      ChargeBodies(t, more[0]);
      ChargeAllExact(t1, pcs + multiset{more[0]}, more[1..]);
      assert more == [more[0]] + more[1..];
      assert pcs + multiset{more[0]} + multiset(more[1..]) == pcs + multiset(more);
    } else {
      assert pcs + multiset([]) == pcs;
    }
  }

  ghost predicate SameBodies(a: map<nat, Func>, b: map<nat, Func>) {
    && a.Keys == b.Keys
    && forall k :: k in a ==> a[k].addr == b[k].addr && a[k].body == b[k].body
  }

  lemma ChargeBodies(t: Tally, pc: nat)
    requires Charge(t, pc).Fine?
    ensures SameBodies(t.functions, Charge(t, pc).tally.functions)
  {
  }

  lemma {:induction false} ChargeAllBodies(t: Tally, pcs: seq<nat>)
    requires ChargeAll(t, pcs).Fine?
    ensures SameBodies(t.functions, ChargeAll(t, pcs).tally.functions)
    decreases |pcs|
  {
    hide Charge;
    if pcs != [] {
      ChargeBodies(t, pcs[0]);
      ChargeAllBodies(Charge(t, pcs[0]).tally, pcs[1..]);
    }
  }

  /** A new function has no samples yet, because every sample is in another. */
  lemma {:induction false} InsertExact(t: Tally, pcs: multiset<nat>, addr: nat, name: seq<Byte>, body: seq<Byte>)
    requires Exact(t, pcs) && Insert(t, addr, name, body).Fine? && Disjoint(Insert(t, addr, name, body).tally.functions)
    ensures Disjoint(t.functions) && Exact(Insert(t, addr, name, body).tally, pcs)
  {
    hide Limit, Disjoint, CountsAre, AllCovered;
    var functions, functions' := t.functions, Insert(t, addr, name, body).tally.functions;
    FewerDisjoint(functions, functions');
    MoreCovered(functions, functions', pcs);
    KeyIsAddr(functions', addr);
    NewCounts(functions, functions', pcs, addr);
  }

  lemma {:induction false} NewCounts(functions: map<nat, Func>, functions': map<nat, Func>, pcs: multiset<nat>, addr: nat)
    requires Disjoint(functions') && addr !in functions && AllCovered(functions, pcs) && CountsAre(functions, pcs)
    requires addr in functions' && functions'[addr].instructions == map[] && functions' == functions[addr := functions'[addr]]
    ensures CountsAre(functions', pcs)
  {
    hide Disjoint;
    KeyIsAddr(functions', addr);
    forall pc | pc in pcs ensures !Contains(functions'[addr], pc) {
      var k :| k in functions && Contains(functions[k], pc);
      FloorContains(functions', pc, k);
    }
    forall k, offset: nat | k in functions' && offset < |functions'[k].body|
      ensures CountAt(functions'[k].instructions, offset) == pcs[k + offset]
    {
      if k == addr {
        assert Contains(functions'[addr], k + offset);
      } else {
        assert k in functions;
      }
    }
  }

  /** The samples of a profile. */
  function AllPcs(es: seq<Event>): seq<nat> {
    if es == [] then [] else (if es[0].Samples? then es[0].pcs else []) + AllPcs(es[1..])
  }

  ghost predicate Bodies(a: map<nat, Func>, b: map<nat, Func>) {
    forall k :: k in a ==> k in b && a[k].addr == b[k].addr && a[k].body == b[k].body
  }

  lemma TakeBodies(t: Tally, e: Event)
    requires Take(t, e).Fine?
    ensures Bodies(t.functions, Take(t, e).tally.functions)
  {
    hide ChargeAll;
    if e.Samples? {
      ChargeAllBodies(t, e.pcs);
    }
  }

  lemma {:induction false} TakeAllBodies(t: Tally, es: seq<Event>)
    requires TakeAll(t, es).Fine?
    ensures Bodies(t.functions, TakeAll(t, es).tally.functions)
    decreases |es|
  {
    hide Take;
    if es != [] {
      TakeBodies(t, es[0]);
      TakeAllBodies(Take(t, es[0]).tally, es[1..]);
    }
  }

  lemma FewerDisjoint(a: map<nat, Func>, b: map<nat, Func>)
    requires Disjoint(b) && Bodies(a, b)
    ensures Disjoint(a)
  {
    hide Limit;
  }

  /**
    A profile whose functions do not overlap and that is taken without a panic: every sample is in exactly
    one function, each count is the number of samples at its address, each function's hits are the sum of
    its counts, and the total is the sum of the hits and the number of samples.
   */
  lemma {:induction false} TakeAllExact(t: Tally, pcs: multiset<nat>, es: seq<Event>)
    requires TallyOk(t) && Exact(t, pcs) && EventsOk(es) && TakeAll(t, es).Fine?
    requires Disjoint(TakeAll(t, es).tally.functions)
    ensures var t' := TakeAll(t, es).tally; TallyOk(t') && Exact(t', pcs + multiset(AllPcs(es)))
    decreases |es|
  {
    hide TallyOk, Disjoint, Exact, Limit, Utf8;
    if es == [] {
      assert pcs + multiset([]) == pcs;
    } else {
      var t1 := Take(t, es[0]).tally;
      TakeAllBodies(t1, es[1..]);
      FewerDisjoint(t1.functions, TakeAll(t, es).tally.functions);
      TakeBodies(t, es[0]);
      FewerDisjoint(t.functions, t1.functions);
      assert EventOk(es[0]);
      match es[0] {
        case Function(addr, name, body) =>
          InsertKeeps(t, addr, name, body);
          InsertExact(t, pcs, addr, name, body);
          TakeAllExact(t1, pcs, es[1..]);
          assert [] + AllPcs(es[1..]) == AllPcs(es[1..]);
        case Samples(more) =>
          ChargeAllExact(t, pcs, more);
          TakeAllExact(t1, pcs + multiset(more), es[1..]);
          assert pcs + multiset(more) + multiset(AllPcs(es[1..])) == pcs + multiset(more + AllPcs(es[1..]));
      }
    }
  }

  // ----- When a profile is taken -----

  function Add(functions: map<nat, Func>, e: Event): map<nat, Func> {
    match e
    case Function(addr, name, body) => functions[addr := Func(addr, 0, name, body, map[])]
    case Samples(_) => functions
  }

  /** Every function is new where it is recorded, and every sample is in a function recorded before it. */
  ghost predicate Placed(functions: map<nat, Func>, es: seq<Event>)
    decreases |es|
  {
    es == [] ||
    (&& (es[0].Function? ==> es[0].addr !in functions)
     && (es[0].Samples? ==> forall k :: 0 <= k < |es[0].pcs| ==> Covered(functions, es[0].pcs[k]))
     && Placed(Add(functions, es[0]), es[1..]))
  }

  /** At no point do recorded functions overlap. */
  ghost predicate AlwaysDisjoint(functions: map<nat, Func>, es: seq<Event>)
    decreases |es|
  {
    Disjoint(functions) && (es != [] ==> AlwaysDisjoint(Add(functions, es[0]), es[1..]))
  }

  lemma SameCovered(a: map<nat, Func>, b: map<nat, Func>, pc: nat)
    requires SameBodies(a, b)
    ensures Covered(a, pc) <==> Covered(b, pc)
  {
    if k :| k in a && Contains(a[k], pc) {
      assert Contains(b[k], pc);
    }
    if k :| k in b && Contains(b[k], pc) {
      assert Contains(a[k], pc);
    }
  }

  /** Both depend on where functions are, not on what was counted. */
  lemma {:induction false} SamePlaced(a: map<nat, Func>, b: map<nat, Func>, es: seq<Event>)
    requires SameBodies(a, b)
    ensures Placed(a, es) <==> Placed(b, es)
    ensures AlwaysDisjoint(a, es) <==> AlwaysDisjoint(b, es)
    decreases |es|
  {
    hide Covered, Disjoint, SameBodies;
    SameDisjoint(a, b);
    if es != [] {
      SameKeys(a, b, es[0]);
      SamePlaced(Add(a, es[0]), Add(b, es[0]), es[1..]);
      if es[0].Samples? {
        forall k | 0 <= k < |es[0].pcs| ensures Covered(a, es[0].pcs[k]) <==> Covered(b, es[0].pcs[k]) {
          SameCovered(a, b, es[0].pcs[k]);
        }
      }
    }
  }

  lemma SameKeys(a: map<nat, Func>, b: map<nat, Func>, e: Event)
    requires SameBodies(a, b)
    ensures a.Keys == b.Keys && SameBodies(Add(a, e), Add(b, e))
  {
  }

  lemma SameDisjoint(a: map<nat, Func>, b: map<nat, Func>)
    requires SameBodies(a, b)
    ensures Disjoint(a) <==> Disjoint(b)
  {
    hide Limit;
    if Disjoint(a) {
      FewerDisjoint(b, a);
    } else if Disjoint(b) {
      FewerDisjoint(a, b);
    }
  }

  lemma {:induction false} ChargeAllKeeps(t: Tally, pcs: seq<nat>)
    requires TallyOk(t) && ChargeAll(t, pcs).Fine?
    ensures var t' := ChargeAll(t, pcs).tally; TallyOk(t') && t'.total == t.total + |pcs|
    decreases |pcs|
  {
    hide TallyOk, Charge;
    if pcs != [] {
      ChargeKeeps(t, pcs[0]);
      ChargeAllKeeps(Charge(t, pcs[0]).tally, pcs[1..]);
    }
  }

  lemma {:induction false} ChargeAllIff(t: Tally, pcs: seq<nat>)
    requires TallyOk(t) && Disjoint(t.functions)
    ensures ChargeAll(t, pcs).Fine? <==>
            (forall k :: 0 <= k < |pcs| ==> Covered(t.functions, pcs[k])) && t.total + |pcs| <= MaxTotal
    ensures ChargeAll(t, pcs).Fine? ==>
              var t' := ChargeAll(t, pcs).tally;
              TallyOk(t') && SameBodies(t.functions, t'.functions) && t'.total == t.total + |pcs|
    decreases |pcs|
  {
    TotalFits(t);
    hide TallyOk, Disjoint, Charge, Covered, Hit, SameBodies;
    if pcs != [] {
      ChargeIff(t, pcs[0]);
      ChargeKeeps(t, pcs[0]);
      if Charge(t, pcs[0]).Fine? {
        var t1 := Charge(t, pcs[0]).tally;
        ChargeBodies(t, pcs[0]);
        SameDisjoint(t.functions, t1.functions);
        ChargeAllIff(t1, pcs[1..]);
        CoveredTail(t.functions, t1.functions, pcs);
      }
    }
    if ChargeAll(t, pcs).Fine? {
      ChargeAllKeeps(t, pcs);
      ChargeAllBodies(t, pcs);
    }
  }

  lemma TotalFits(t: Tally)
    requires TallyOk(t)
    ensures t.total <= MaxTotal
  {
  }

  lemma CoveredTail(a: map<nat, Func>, b: map<nat, Func>, pcs: seq<nat>)
    requires SameBodies(a, b) && pcs != [] && Covered(a, pcs[0])
    ensures (forall k :: 0 <= k < |pcs| ==> Covered(a, pcs[k])) <==> forall k :: 0 <= k < |pcs[1..]| ==> Covered(b, pcs[1..][k])
  {
    hide Covered, SameBodies;
    forall k | 0 <= k < |pcs| ensures Covered(a, pcs[k]) <==> Covered(b, pcs[k]) {
      SameCovered(a, b, pcs[k]);
    }
    if forall k :: 0 <= k < |pcs[1..]| ==> Covered(b, pcs[1..][k]) {
      forall k | 0 <= k < |pcs| ensures Covered(a, pcs[k]) {
        assert k > 0 ==> pcs[k] == pcs[1..][k - 1];
      }
    }
  }

  /**
    A profile whose functions do not overlap is taken without a panic exactly if every function is new
    where it is recorded, every sample is in a function recorded before it, and the samples are no more
    than the total can count.
   */
  lemma {:induction false} TakeAllIff(t: Tally, es: seq<Event>)
    requires TallyOk(t) && EventsOk(es) && AlwaysDisjoint(t.functions, es)
    ensures TakeAll(t, es).Fine? <==> Placed(t.functions, es) && t.total + |AllPcs(es)| <= MaxTotal
    decreases |es|
  {
    TotalFits(t);
    hide TallyOk, Disjoint, Covered, Limit, Utf8, ChargeAll;
    if es != [] {
      assert EventOk(es[0]);
      match es[0] {
        case Function(addr, name, body) =>
          if addr !in t.functions {
            InsertKeeps(t, addr, name, body);
            TakeAllIff(Insert(t, addr, name, body).tally, es[1..]);
          }
        case Samples(pcs) =>
          ChargeAllIff(t, pcs);
          if ChargeAll(t, pcs).Fine? {
            var t1 := ChargeAll(t, pcs).tally;
            SamePlaced(t.functions, t1.functions, es[1..]);
            TakeAllIff(t1, es[1..]);
          }
      }
    }
  }

  /** The profile of nothing. */
  lemma NothingTaken()
    ensures var t := Tally(map[], 0); TallyOk(t) && Disjoint(t.functions) && Exact(t, multiset{})
  {
    hide Limit;
    NoHits(Limit(8));
  }

  /** The same for a whole profile, from nothing on. */
  lemma WholeProfileExact(es: seq<Event>)
    requires EventsOk(es) && TakeAll(Tally(map[], 0), es).Fine?
    requires Disjoint(TakeAll(Tally(map[], 0), es).tally.functions)
    ensures var t := TakeAll(Tally(map[], 0), es).tally; TallyOk(t) && Exact(t, multiset(AllPcs(es)))
  {
    hide TallyOk, Disjoint, Exact, TakeAll, EventsOk;
    NothingTaken();
    TakeAllExact(Tally(map[], 0), multiset{}, es);
    assert multiset{} + multiset(AllPcs(es)) == multiset(AllPcs(es));
  }

  lemma {:induction false} NoHits(n: nat)
    ensures SumHits(map[], n) == 0
  {
    if n > 0 {
      NoHits(n - 1);
    }
  }

  /** A function with an empty body, inside another one, hides what comes after it from the lookup. */
  lemma EmptyBodyHidesFunction()
    ensures var es := [Function(0, [], [0, 0]), Function(1, [], []), Samples([1])];
            EventsOk(es) && TakeAll(Tally(map[], 0), es) == Panics(OutsideBody)
  {
    Limits();
    hide Limit;
    var es := [Function(0, [], [0, 0]), Function(1, [], []), Samples([1])];
    var f, g := Func(0, 0, [], [0, 0], map[]), Func(1, 0, [], [], map[]);
    var t := Tally(map[0 := f, 1 := g], 0);
    assert Floor(t.functions, 1) == Some(1);
    assert Charge(t, 1) == Panics(OutsideBody);
    assert ChargeAll(t, [1]) == Panics(OutsideBody);
    assert es[1..][1..] == [Samples([1])];
    assert TakeAll(t, [Samples([1])]) == Panics(OutsideBody);
    assert map[0 := f][1 := g] == map[0 := f, 1 := g];
    assert TakeAll(Tally(map[0 := f], 0), es[1..]) == Panics(OutsideBody);
  }
}
