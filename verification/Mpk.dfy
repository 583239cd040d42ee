/** Searching for the largest number of memory slots that can be allocated: doubling, then halving. */
module Mpk {
  import opened Options
  import opened Bits

  /** What an attempt to build an engine gives: the bytes it mapped, or nothing. */
  datatype Answer = Mapped(bytes: nat) | Refused

  datatype Search = Search(growing: bool, last: nat, next: nat)

  const Word: nat := 0x1_0000_0000

  // ----- The search -----

  predicate Done(s: Search) {
    s.last == s.next
  }

  /** `None` where 32-bit arithmetic overflows. */
  function Recorded(s: Search, success: bool): Option<Search> {
    if s.next < s.last then None
    else
      var growing := s.growing && success;
      var gap := s.next - s.last;
      if (if growing then 2 * gap else gap + 1) >= Word then None
      else
        var diff := if growing then 2 * gap else (gap + 1) / 2;
        if success then if s.next + diff >= Word then None else Some(Search(growing, s.next, s.next + diff))
        else if s.next < diff then None
        else Some(Search(growing, s.last, s.next - diff))
  }

  class ExponentialSearch {
    var growing: bool
    var last: nat
    var next: nat

    function View(): Search
      reads this
    {
      Search(growing, last, next)
    }

    constructor ()
      ensures View() == Search(true, 0, 1)
    {
      growing, last, next := true, 0, 1;
    }

    /** The lower bound stays below the upper one, and an overflow is reported. */
    method Record(success: bool) returns (ok: bool)
      requires last <= next < Word
      modifies this
      ensures ok <==> Recorded(old(View()), success).Some?
      ensures ok ==> Recorded(old(View()), success) == Some(View()) && last <= next < Word
    {
      if !success {
        growing := false;
      }
      var diff;
      if growing {
        diff := (next - last) * 2;
      } else {
        diff := (next - last + 1) / 2;
      }
      if (if growing then diff else next - last + 1) >= Word {
        return false;
      }
      if success {
        if next + diff >= Word {
          return false;
        }
        last := next;
        next := next + diff;
      } else {
        next := next - diff;
      }
      return true;
    }
  }

  // ----- Runs -----

  datatype Attempt = Attempt(value: nat, answer: Answer)

  datatype Probing = Probing(search: Search, mapped: nat, attempts: seq<Attempt>)

  const Start := Probing(Search(true, 0, 1), 0, [])

  /** One attempt with the answer that the machine gives to it. */
  function Probe(p: Probing, a: Answer): Option<Probing> {
    match Recorded(p.search, a.Mapped?)
    case None => None
    case Some(s) => Some(Probing(s, if a.Mapped? then a.bytes else p.mapped, p.attempts + [Attempt(p.search.next, a)]))
  }

  /** The state after `n` attempts, or at the end if that comes first.  Answers may depend on anything. */
  function After(oracle: (nat, nat) -> Answer, n: nat): Option<Probing> {
    if n == 0 then Some(Start)
    else
      match After(oracle, n - 1)
      case None => None
      case Some(p) => if Done(p.search) then Some(p) else Probe(p, oracle(n - 1, p.search.next))
  }

  /** The last attempt that succeeded. */
  function LastSuccess(attempts: seq<Attempt>): Option<Attempt> {
    if attempts == [] then None
    else
      var n := |attempts| - 1;
      if attempts[n].answer.Mapped? then Some(attempts[n]) else LastSuccess(attempts[..n])
  }

  /** The lower bound and the mapped bytes are those of the last success; the end is a failure just above. */
  ghost predicate Sound(p: Probing) {
    && p.search.last <= p.search.next < Word
    && (match LastSuccess(p.attempts)
        case None => p.search.last == 0 && p.mapped == 0
        case Some(a) => a == Attempt(p.search.last, Mapped(p.mapped)))
    && (Done(p.search) ==> p.attempts != [] && p.attempts[|p.attempts| - 1] == Attempt(p.search.last + 1, Refused))
  }

  lemma ProbeSound(p: Probing, a: Answer)
    requires Sound(p) && !Done(p.search)
    ensures Probe(p, a).Some? ==> Sound(Probe(p, a).value)
  {
    var attempts := p.attempts + [Attempt(p.search.next, a)];
    assert attempts[..|attempts| - 1] == p.attempts;
  }

  /** Whatever the machine answers, every state of every run is sound. */
  lemma {:induction false} AlwaysSound(oracle: (nat, nat) -> Answer, n: nat)
    ensures After(oracle, n).Some? ==> Sound(After(oracle, n).value)
  {
    if n > 0 {
      AlwaysSound(oracle, n - 1);
      var before := After(oracle, n - 1);
      if before.Some? && !Done(before.value.search) {
        ProbeSound(before.value, oracle(n - 1, before.value.search.next));
      }
    }
  }

  // ----- A machine with a limit -----

  /** Exactly the values up to `limit` succeed. */
  ghost predicate Threshold(oracle: (nat, nat) -> Answer, limit: nat) {
    forall i: nat, v: nat :: oracle(i, v).Mapped? <==> v <= limit
  }

  /** `2^m - 1` is the first value of the growing phase above the limit. */
  ghost predicate FirstAbove(limit: nat, m: nat) {
    m > 0 && Pow2(m - 1) - 1 <= limit < Pow2(m) - 1
  }

  /** Doubling: `k` attempts have succeeded. */
  ghost predicate Growing(s: Search, n: nat, limit: nat, m: nat, k: nat) {
    s == Search(true, Pow2(k) - 1, Pow2(k + 1) - 1) && n == k < m
  }

  /** Halving: the limit is within two gaps of the lower bound, and the gap is `2^j`. */
  ghost predicate Halving(s: Search, n: nat, limit: nat, m: nat, j: nat) {
    && !s.growing && s.next == s.last + Pow2(j)
    && s.last <= limit < s.last + 2 * Pow2(j) < Pow2(m)
    && n + j + 2 == 2 * m
  }

  /** The last attempt before the end, or the end. */
  ghost predicate Closing(s: Search, n: nat, limit: nat, m: nat) {
    !s.growing && s.last == limit && ((s.next == limit + 1 && n < 2 * m) || (s.next == limit && n <= 2 * m))
  }

  ghost predicate InPhase(s: Search, n: nat, limit: nat, m: nat) {
    && s.last <= limit
    && ((exists k: nat :: Growing(s, n, limit, m, k)) || (exists j: nat :: Halving(s, n, limit, m, j)) || Closing(s, n, limit, m))
  }

  lemma {:induction false} Pow2Increases(a: nat, b: nat)
    requires a <= b
    ensures Pow2(a) <= Pow2(b)
  {
    if a < b {
      Pow2Increases(a, b - 1);
    }
  }

  lemma Word32()
    ensures Pow2(31) == 0x8000_0000 && Pow2(32) == Word
  {
    assert Pow2(8) == 256;
    assert Pow2(16) == 0x1_0000;
    assert Pow2(24) == 0x100_0000;
  }

  /** A limit below the greatest word is passed after at most 32 doublings. */
  lemma {:induction false} FewDoublings(limit: nat, m: nat)
    requires limit < Word - 1 && FirstAbove(limit, m)
    ensures m <= 32 && Pow2(m) <= Word
  {
    Word32();
    hide Pow2;
    if m > 32 {
      Pow2Increases(32, m - 1);
    }
    Pow2Increases(m, 32);
  }

  lemma {:induction false} GrowingStep(s: Search, n: nat, limit: nat, m: nat, k: nat)
    requires limit < Word - 1 && FirstAbove(limit, m) && Growing(s, n, limit, m, k) && s.last <= limit
    ensures var r := Recorded(s, s.next <= limit); r.Some? && InPhase(r.value, n + 1, limit, m)
  {
    FewDoublings(limit, m);
    Pow2Increases(k + 1, m);
    assert Pow2(k + 1) == 2 * Pow2(k) && Pow2(k + 2) == 2 * Pow2(k + 1);
    var r := Recorded(s, s.next <= limit);
    if s.next <= limit {
      assert k + 1 != m;
      Pow2Increases(k + 2, m);
      hide Pow2;
      assert r == Some(Search(true, Pow2(k + 1) - 1, Pow2(k + 2) - 1));
      assert Growing(r.value, n + 1, limit, m, k + 1);
    } else {
      GrowthEnds(limit, m, k);
      if k == 0 {
        assert Pow2(0) == 1;
        assert r == Some(Search(false, 0, 0));
        assert Closing(r.value, n + 1, limit, m);
      } else {
        assert Pow2(k) == 2 * Pow2(k - 1);
        assert r == Some(Search(false, s.last, s.last + Pow2(k - 1)));
        assert Halving(r.value, n + 1, limit, m, k - 1);
      }
    }
  }

  /** The attempt that fails is the last one of the growing phase. */
  lemma {:induction false} GrowthEnds(limit: nat, m: nat, k: nat)
    requires FirstAbove(limit, m) && k < m && limit < Pow2(k + 1) - 1
    ensures k + 1 == m
  {
    if k + 1 < m {
      Pow2Increases(k + 1, m - 1);
    }
  }

  lemma {:induction false} HalvingStep(s: Search, n: nat, limit: nat, m: nat, j: nat)
    requires limit < Word - 1 && FirstAbove(limit, m) && Halving(s, n, limit, m, j) && s.next < Word
    ensures var r := Recorded(s, s.next <= limit); r.Some? && InPhase(r.value, n + 1, limit, m)
  {
    FewDoublings(limit, m);
    var r := Recorded(s, s.next <= limit);
    if j == 0 {
      assert Pow2(0) == 1;
      assert r.Some? && Closing(r.value, n + 1, limit, m);
    } else {
      var half := Pow2(j - 1);
      assert Pow2(j) == 2 * half;
      assert r.Some? && Halving(r.value, n + 1, limit, m, j - 1);
    }
  }

  lemma ClosingStep(s: Search, n: nat, limit: nat, m: nat)
    requires limit < Word - 1 && Closing(s, n, limit, m) && !Done(s)
    ensures var r := Recorded(s, s.next <= limit); r.Some? && InPhase(r.value, n + 1, limit, m)
  {
    assert Recorded(s, false) == Some(Search(false, limit, limit));
    assert Closing(Search(false, limit, limit), n + 1, limit, m);
  }

  ghost predicate GapIs(s: Search, g: nat) {
    s.next == s.last + Pow2(g)
  }

  /** The gap is a power of two until it is zero. */
  lemma InPhaseGap(s: Search, n: nat, limit: nat, m: nat)
    requires InPhase(s, n, limit, m)
    ensures Done(s) || exists g: nat :: GapIs(s, g)
    ensures Done(s) ==> s.last == limit && n <= 2 * m
    ensures !Done(s) ==> n < 2 * m
  {
    assert Pow2(0) == 1;
    if k: nat :| Growing(s, n, limit, m, k) {
      assert GapIs(s, k);
    }
    if j: nat :| Halving(s, n, limit, m, j) {
      assert GapIs(s, j);
    }
    if Closing(s, n, limit, m) && !Done(s) {
      assert GapIs(s, 0);
    }
  }

  /**
    On a machine with a limit below the greatest word, no state overflows, every gap is a power of two until
    the search is done, it is done at exactly the limit, and after at most `2m` attempts.
   */
  lemma {:induction false} AlwaysInPhase(oracle: (nat, nat) -> Answer, limit: nat, m: nat, n: nat)
    requires limit < Word - 1 && Threshold(oracle, limit) && FirstAbove(limit, m)
    ensures After(oracle, n).Some?
    ensures var p := After(oracle, n).value;
            && |p.attempts| <= n && InPhase(p.search, |p.attempts|, limit, m)
            && (!Done(p.search) ==> |p.attempts| == n)
  {
    hide Pow2, Recorded;
    if n == 0 {
      assert Growing(Start.search, 0, limit, m, 0) by {
        PowersStart();
      }
    } else {
      var i := n - 1;
      AlwaysInPhase(oracle, limit, m, i);
      var s := After(oracle, i).value.search;
      if !Done(s) {
        AlwaysSound(oracle, i);
        if k: nat :| Growing(s, i, limit, m, k) {
          GrowingStep(s, i, limit, m, k);
        } else if j: nat :| Halving(s, i, limit, m, j) {
          HalvingStep(s, i, limit, m, j);
        } else {
          ClosingStep(s, i, limit, m);
        }
      }
    }
  }

  lemma PowersStart()
    ensures Pow2(0) == 1 && Pow2(1) == 2
  {
    assert Pow2(1) == 2 * Pow2(0);
  }

  /** What `AlwaysInPhase` means for whole runs. */
  lemma FindsLimit(oracle: (nat, nat) -> Answer, limit: nat, m: nat, n: nat)
    requires limit < Word - 1 && Threshold(oracle, limit) && FirstAbove(limit, m)
    ensures After(oracle, n).Some?
    ensures var p := After(oracle, n).value;
            && (Done(p.search) || exists g: nat :: GapIs(p.search, g))
            && (Done(p.search) ==> p.search.last == limit && |p.attempts| <= 2 * m)
            && (n >= 2 * m ==> Done(p.search))
  {
    AlwaysInPhase(oracle, limit, m, n);
    var p := After(oracle, n).value;
    InPhaseGap(p.search, |p.attempts|, limit, m);
  }

  /** There is such an `m` for every limit. */
  lemma {:induction false} FirstAboveExists(limit: nat) returns (m: nat)
    ensures FirstAbove(limit, m)
  {
    m := 1;
    assert Pow2(0) == 1 && Pow2(1) == 2;
    while Pow2(m) - 1 <= limit
      invariant m > 0 && Pow2(m - 1) - 1 <= limit && m <= Pow2(m) - 1
      decreases limit - Pow2(m) + 2
    {
      m := m + 1;
      assert Pow2(m) == 2 * Pow2(m - 1);
    }
  }

  lemma {:induction false} GrowsOn(oracle: (nat, nat) -> Answer, limit: nat, n: nat)
    requires limit >= Word - 1 && Threshold(oracle, limit) && n <= 31
    ensures After(oracle, n).Some? && After(oracle, n).value.search == Search(true, Pow2(n) - 1, Pow2(n + 1) - 1)
  {
    hide Pow2, Recorded;
    PowersStart();
    if n > 0 {
      var i := n - 1;
      GrowsOn(oracle, limit, i);
      var p := After(oracle, i).value;
      Pow2Step(i);
      Pow2Step(n);
      Word32();
      Pow2Increases(n + 1, 32);
      GrowthIs(Pow2(i));
      assert Probe(p, oracle(i, p.search.next)).Some?;
    }
  }

  lemma Pow2Step(k: nat)
    ensures Pow2(k + 1) == 2 * Pow2(k)
  {
  }

  lemma GrowthIs(last: nat)
    requires 0 < last && 4 * last <= Word
    ensures Recorded(Search(true, last - 1, 2 * last - 1), true) == Some(Search(true, 2 * last - 1, 4 * last - 1))
  {
  }

  /** The bound on the limit is exact: a machine that refuses nothing makes the search overflow. */
  lemma OverflowsWithoutLimit(oracle: (nat, nat) -> Answer, limit: nat)
    requires limit >= Word - 1 && Threshold(oracle, limit)
    ensures After(oracle, 32).None?
  {
    GrowsOn(oracle, limit, 31);
    Word32();
    hide Pow2;
    var p := After(oracle, 31).value;
    assert oracle(31, p.search.next).Mapped?;
    assert Probe(p, oracle(31, p.search.next)).None?;
  }

  // ----- The loop -----

  function Gap(s: Search): nat {
    if s.growing || s.next < s.last then 0 else s.next - s.last
  }

  /** Growing ends, a gap above one shrinks, and a gap of one moves up or closes. */
  lemma RecordedShrinks(s: Search, success: bool)
    requires s.last < s.next < Word
    ensures Recorded(s, success).Some? ==>
            var s' := Recorded(s, success).value;
            || (s.growing && !s'.growing)
            || (s.growing == s'.growing && Gap(s') < Gap(s))
            || (s.growing == s'.growing && Gap(s') == Gap(s) && s.next < s'.next < Word)
  {
  }

  datatype Pool = Pool(numMemories: nat, mappedBytes: nat)

  /**
    The loop ends for every machine, because a gap above one shrinks and a gap of one moves up; it gives the
    last value that succeeded and what that one mapped, or overflows.
   */
  method ProbeEngineSize(oracle: (nat, nat) -> Answer) returns (r: Option<Pool>, n: nat)
    ensures r.None? ==> After(oracle, n).None?
    ensures r.Some? ==>
              After(oracle, n).Some? &&
              var p := After(oracle, n).value;
              Sound(p) && Done(p.search) && r.value == Pool(p.search.last, p.mapped)
  {
    hide Recorded, Sound;
    var search := new ExponentialSearch();
    var mapped := 0;
    ghost var attempts: seq<Attempt> := [];
    n := 0;
    while search.last != search.next
      invariant After(oracle, n) == Some(Probing(search.View(), mapped, attempts))
      invariant search.last <= search.next < Word
      invariant n == |attempts|
      decreases search.growing, Gap(search.View()), Word - search.next
    {
      RecordedShrinks(search.View(), true);
      RecordedShrinks(search.View(), false);
      var answer := oracle(n, search.next);
      attempts := attempts + [Attempt(search.next, answer)];
      var ok;
      match answer {
        case Mapped(bytes) =>
          mapped := bytes;
          ok := search.Record(true);
        case Refused =>
          ok := search.Record(false);
      }
      n := n + 1;
      if !ok {
        return None, n;
      }
    }
    AlwaysSound(oracle, n);
    r := Some(Pool(search.next, mapped));
  }
}
