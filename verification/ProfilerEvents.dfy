/** What a taken profile knows of each function, and which panic a refused sample or record gives. */
module ProfilerEvents {
  import opened Bits
  import opened Profile
  import opened Profiler

  // ----- Functions -----

  /** The function at `addr` is the one of the record `e`. */
  ghost predicate IsFrom(functions: map<nat, Func>, addr: nat, e: Event) {
    && e.Function? && e.addr == addr && addr in functions
    && functions[addr].addr == addr && functions[addr].name == e.name && functions[addr].body == e.body
  }

  ghost predicate SamePlaces(a: map<nat, Func>, b: map<nat, Func>) {
    && a.Keys == b.Keys
    && forall k :: k in a ==> a[k].addr == b[k].addr && a[k].name == b[k].name && a[k].body == b[k].body
  }

  lemma {:induction false} ChargeAllPlaces(t: Tally, pcs: seq<nat>)
    requires ChargeAll(t, pcs).Fine?
    ensures SamePlaces(t.functions, ChargeAll(t, pcs).tally.functions)
    decreases |pcs|
  {
    if pcs != [] {
      ChargePlaces(t, pcs[0]);
      ChargeAllPlaces(Charge(t, pcs[0]).tally, pcs[1..]);
    }
  }

  lemma ChargePlaces(t: Tally, pc: nat)
    requires Charge(t, pc).Fine?
    ensures SamePlaces(t.functions, Charge(t, pc).tally.functions)
  {
    hide Limit;
  }

  lemma TakePlaces(t: Tally, e: Event)
    requires Take(t, e).Fine?
    ensures var t' := Take(t, e).tally;
            if e.Samples? then SamePlaces(t.functions, t'.functions)
            else e.addr !in t.functions && IsFrom(t'.functions, e.addr, e)
                 && t'.functions == t.functions[e.addr := t'.functions[e.addr]]
  {
    hide ChargeAll;
    if e.Samples? {
      ChargeAllPlaces(t, e.pcs);
    }
  }

  /** One record, at most, is that of the function at an address: the functions are those before and those recorded. */
  lemma {:induction false} TakeAllPlaces(t: Tally, es: seq<Event>)
    requires TakeAll(t, es).Fine?
    ensures var f := TakeAll(t, es).tally.functions;
            && (forall k :: k in f <==> k in t.functions || exists e :: e in es && e.Function? && e.addr == k)
            && (forall k :: k in t.functions ==>
                              f[k].addr == t.functions[k].addr && f[k].name == t.functions[k].name && f[k].body == t.functions[k].body)
            && (forall e :: e in es && e.Function? ==> IsFrom(f, e.addr, e))
    decreases |es|
  {
    hide Take;
    if es != [] {
      TakePlaces(t, es[0]);
      TakeAllPlaces(Take(t, es[0]).tally, es[1..]);
      assert forall e :: e in es <==> e == es[0] || e in es[1..];
    }
  }

  /** A profile that is taken knows exactly the functions recorded in it, each with its name and body. */
  lemma FunctionsAreRecorded(es: seq<Event>)
    requires TakeAll(Tally(map[], 0), es).Fine?
    ensures var f := TakeAll(Tally(map[], 0), es).tally.functions;
            && (forall e :: e in es && e.Function? ==> IsFrom(f, e.addr, e))
            && (forall k :: k in f ==> exists e :: e in es && IsFrom(f, k, e))
  {
    hide TakeAll;
    TakeAllPlaces(Tally(map[], 0), es);
  }

  // ----- Panics -----

  /** The function at `k` is the last that starts at or below `pc`. */
  ghost predicate LastAt(functions: map<nat, Func>, pc: nat, k: nat) {
    k in functions && k <= pc && forall j :: k < j <= pc ==> j !in functions
  }

  /** Each panic exactly in its case: by the last function that starts at or below the sample, if there is one. */
  lemma {:induction false} ChargePanics(t: Tally, pc: nat)
    requires TallyOk(t)
    ensures Charge(t, pc) == Panics(NoFunction) <==> forall k :: k in t.functions ==> pc < k
    ensures forall k: nat :: LastAt(t.functions, pc, k) ==>
                          var end := k + |t.functions[k].body|;
                          && (Charge(t, pc) == Panics(AddressOverflow) <==> end >= 0x1_0000_0000_0000_0000)
                          && (Charge(t, pc) == Panics(OutsideBody) <==> end < 0x1_0000_0000_0000_0000 && end <= pc)
                          && (Charge(t, pc) == Panics(TotalOverflow) <==>
                              pc < end < 0x1_0000_0000_0000_0000 && t.total == 0x7fff_ffff)
  {
    Limits();
    hide SumCounts, SumHits, Limit, FuncOk, TallyOk;
    ChargeKeeps(t, pc);
    var floor := Floor(t.functions, pc);
    if floor.Some? {
      FuncAt(t, floor.value);
    }
  }

  lemma FuncAt(t: Tally, k: nat)
    requires TallyOk(t) && k in t.functions
    ensures t.functions[k].addr == k < Limit(8) && |t.functions[k].body| < Limit(4) && t.total <= MaxTotal
  {
    hide SumCounts, SumHits, Limit;
    assert FuncOk(k, t.functions[k]);
  }
}
