/** The order of benchmark runs: every ordering of the three states, shuffled anew for every six trials. */
module Schedule {
  import opened Options

  type Block = seq<string>

  const Disabled := "disabled"
  const Cold := "cold"
  const Warm := "warm"

  const States: seq<string> := [Disabled, Cold, Warm]

  /** All orderings of the states. */
  const Orderings: seq<Block> :=
    [[Disabled, Cold, Warm], [Disabled, Warm, Cold], [Cold, Disabled, Warm],
     [Cold, Warm, Disabled], [Warm, Disabled, Cold], [Warm, Cold, Disabled]]

  /** A block runs every state and no other. */
  ghost predicate ValidBlock(b: Block) {
    forall s :: s in b <==> s in States
  }

  /** What shuffling can give: the same orderings in any order, for cycle after cycle. */
  ghost predicate Shuffles(shuffle: nat -> seq<Block>) {
    forall i: nat :: multiset(shuffle(i)) == multiset(Orderings)
  }

  function Cycles(shuffle: nat -> seq<Block>, k: nat): seq<Block> {
    if k == 0 then [] else Cycles(shuffle, k - 1) + shuffle(k - 1)
  }

  /** Whole cycles until there are enough, cut to the number of trials; no schedule for fewer than one. */
  method BalancedSchedule(trials: int, shuffle: nat -> seq<Block>) returns (r: Option<seq<Block>>)
    requires Shuffles(shuffle)
    ensures r.None? <==> trials < 1
    ensures r.Some? ==> |r.value| == trials && Balanced(r.value) && forall k :: 0 <= k < trials ==> ValidBlock(r.value[k])
    ensures r.Some? ==> SixesDiffer(r.value)
  {
    hide *;
    if trials < 1 {
      return None;
    }
    CyclesUnroll(shuffle, 0);
    var schedule: seq<Block> := [];
    var k := 0;
    while |schedule| < trials
      invariant schedule == Cycles(shuffle, k) && |schedule| == 6 * k
      decreases trials - |schedule|
    {
      var cycle := shuffle(k);
      CyclesUnroll(shuffle, k);
      CycleLength(shuffle, k);
      schedule := schedule + cycle;
      k := k + 1;
    }
    Cut(shuffle, k, trials);
    r := Some(schedule[..trials]);
  }

  lemma Cut(shuffle: nat -> seq<Block>, k: nat, n: nat)
    requires Shuffles(shuffle) && n <= |Cycles(shuffle, k)| == 6 * k
    ensures var s := Cycles(shuffle, k)[..n]; Balanced(s) && SixesDiffer(s) && forall i :: 0 <= i < n ==> ValidBlock(s[i])
  {
    hide *;
    CutBalanced(shuffle, k, n);
    CutSixes(shuffle, k, n);
    CutValid(shuffle, k, n);
  }

  lemma CyclesUnroll(shuffle: nat -> seq<Block>, k: nat)
    ensures Cycles(shuffle, 0) == []
    ensures Cycles(shuffle, k + 1) == Cycles(shuffle, k) + shuffle(k)
  {
  }

  lemma CycleLength(shuffle: nat -> seq<Block>, i: nat)
    requires Shuffles(shuffle)
    ensures |shuffle(i)| == 6
  {
    assert |multiset(shuffle(i))| == |multiset(Orderings)|;
  }

  // ----- Balance -----

  /** Over `6q + r` trials, with `r` below six, each ordering occurs `q` or `q + 1` times and nothing else does. */
  ghost predicate Balanced(schedule: seq<Block>) {
    forall b: Block ::
      if b in Orderings then |schedule| / 6 <= multiset(schedule)[b] <= (|schedule| + 5) / 6
      else multiset(schedule)[b] == 0
  }

  lemma OrderingsOnce(b: Block)
    ensures multiset(Orderings)[b] == if b in Orderings then 1 else 0
  {
    var o := Orderings;
    OrderingsDiffer();
    hide Orderings;
    assert o == [o[0], o[1], o[2], o[3], o[4], o[5]];
    assert multiset(o) == multiset{o[0], o[1], o[2], o[3], o[4], o[5]};
  }

  lemma OrderingsDiffer()
    ensures |Orderings| == 6 && forall i, j :: 0 <= i < j < 6 ==> Orderings[i] != Orderings[j]
  {
    var o := Orderings;
    assert Disabled[0] == 'd' && Cold[0] == 'c' && Warm[0] == 'w';
    assert forall i, j :: 0 <= i < j < 6 ==> o[i][0][0] != o[j][0][0] || o[i][1][0] != o[j][1][0];
  }

  lemma {:induction false} CyclesCount(shuffle: nat -> seq<Block>, k: nat, b: Block)
    requires Shuffles(shuffle)
    ensures |Cycles(shuffle, k)| == 6 * k
    ensures multiset(Cycles(shuffle, k))[b] == if b in Orderings then k else 0
  {
    hide Orderings;
    if k > 0 {
      CyclesCount(shuffle, k - 1, b);
      CycleLength(shuffle, k - 1);
      OrderingsOnce(b);
      assert multiset(shuffle(k - 1)) == multiset(Orderings);
    }
  }

  lemma {:induction false} CyclesPrefix(shuffle: nat -> seq<Block>, j: nat, k: nat)
    requires Shuffles(shuffle) && j <= k
    ensures |Cycles(shuffle, j)| == 6 * j && |Cycles(shuffle, k)| == 6 * k
    ensures Cycles(shuffle, k)[..6 * j] == Cycles(shuffle, j)
  {
    hide Shuffles;
    CyclesCount(shuffle, j, []);
    CyclesCount(shuffle, k, []);
    if j < k {
      CyclesPrefix(shuffle, j, k - 1);
      CycleLength(shuffle, k - 1);
    }
  }

  lemma {:induction false} CutBalanced(shuffle: nat -> seq<Block>, k: nat, n: nat)
    requires Shuffles(shuffle) && n <= 6 * k
    ensures |Cycles(shuffle, k)| == 6 * k
    ensures Balanced(Cycles(shuffle, k)[..n])
  {
    hide Shuffles, Orderings, Cycles;
    var q := n / 6;
    CyclesPrefix(shuffle, q, k);
    var all := Cycles(shuffle, k);
    var cut := all[..n];
    forall b: Block
      ensures if b in Orderings then |cut| / 6 <= multiset(cut)[b] <= (|cut| + 5) / 6 else multiset(cut)[b] == 0
    {
      CyclesCount(shuffle, q, b);
      assert all[..n] == all[..6 * q] + all[6 * q..n];
      if n == 6 * q {
        assert cut == Cycles(shuffle, q);
      } else {
        CyclesPrefix(shuffle, q + 1, k);
        CyclesCount(shuffle, q + 1, b);
        assert all[..6 * (q + 1)] == all[..n] + all[n..6 * (q + 1)];
        assert all[..6 * (q + 1)] == Cycles(shuffle, q + 1);
      }
    }
  }

  // ----- Six consecutive trials -----

  /** Of six consecutive trials, counted from the start of the schedule, no two run the same ordering. */
  ghost predicate SixesDiffer(schedule: seq<Block>) {
    forall i, j :: 0 <= i < j < |schedule| && i / 6 == j / 6 ==> schedule[i] != schedule[j]
  }

  /** Trial `i` is in cycle `i / 6`. */
  lemma {:induction false} CyclesAt(shuffle: nat -> seq<Block>, k: nat, i: nat)
    requires Shuffles(shuffle) && i < 6 * k
    ensures |Cycles(shuffle, k)| == 6 * k && |shuffle(i / 6)| == 6
    ensures Cycles(shuffle, k)[i] == shuffle(i / 6)[i % 6]
  {
    hide Shuffles;
    CyclesCount(shuffle, k, []);
    CyclesCount(shuffle, k - 1, []);
    CycleLength(shuffle, i / 6);
    CycleLength(shuffle, k - 1);
    if i < 6 * (k - 1) {
      CyclesAt(shuffle, k - 1, i);
    } else {
      assert i == 6 * (k - 1) + i % 6 && i / 6 == k - 1;
    }
  }

  lemma CycleDiffers(shuffle: nat -> seq<Block>, c: nat, i: nat, j: nat)
    requires Shuffles(shuffle) && i < j < |shuffle(c)|
    ensures shuffle(c)[i] != shuffle(c)[j]
  {
    hide Orderings;
    OrderingsOnce(shuffle(c)[i]);
    CountedTwice(shuffle(c), i, j);
    assert multiset(shuffle(c)) == multiset(Orderings);
  }

  lemma CountedTwice(s: seq<Block>, i: nat, j: nat)
    requires i < j < |s|
    ensures s[i] == s[j] ==> multiset(s)[s[i]] >= 2
  {
    assert s == s[..j] + s[j..] && s[i] == s[..j][i] && s[j] == s[j..][0];
    assert s[i] in multiset(s[..j]) && s[j] in multiset(s[j..]);
    assert multiset(s) == multiset(s[..j]) + multiset(s[j..]);
  }

  lemma {:induction false} CutSixes(shuffle: nat -> seq<Block>, k: nat, n: nat)
    requires Shuffles(shuffle) && n <= |Cycles(shuffle, k)|
    ensures SixesDiffer(Cycles(shuffle, k)[..n])
  {
    hide Shuffles, Orderings, Cycles;
    CyclesCount(shuffle, k, []);
    forall i, j | 0 <= i < j < n && i / 6 == j / 6 ensures Cycles(shuffle, k)[i] != Cycles(shuffle, k)[j] {
      CyclesAt(shuffle, k, i);
      CyclesAt(shuffle, k, j);
      CycleDiffers(shuffle, i / 6, i % 6, j % 6);
    }
  }

  /** The orderings, and in the cycles after the first the last of them first. */
  function LastFirst(i: nat): seq<Block> {
    if i == 0 then Orderings else [Orderings[5]] + Orderings[..5]
  }

  /** Six trials that start elsewhere may run an ordering twice: here the sixth and the seventh trial are alike. */
  lemma SixesElsewhereMayRepeat()
    ensures Shuffles(LastFirst)
    ensures |Cycles(LastFirst, 2)| == 12 && Cycles(LastFirst, 2)[5] == Cycles(LastFirst, 2)[6]
  {
    OrderingsDiffer();
    hide Orderings;
    var o := Orderings;
    assert o == o[..5] + [o[5]];
    forall i: nat ensures multiset(LastFirst(i)) == multiset(o) {
      assert multiset([o[5]] + o[..5]) == multiset(o[..5] + [o[5]]);
    }
    CyclesAt(LastFirst, 2, 5);
    CyclesAt(LastFirst, 2, 6);
    CyclesCount(LastFirst, 2, []);
  }

  lemma OrderingsValid()
    ensures forall b :: b in Orderings ==> ValidBlock(b)
  {
  }

  /** They are all the orderings there are. */
  lemma OrderingsComplete(b: Block)
    requires |b| == 3 && ValidBlock(b)
    ensures b in Orderings
  {
    assert Disabled[0] == 'd' && Cold[0] == 'c' && Warm[0] == 'w';
    assert b == [b[0], b[1], b[2]];
    assert b[0] in b && b[1] in b && b[2] in b;
    assert Disabled in States && Cold in States && Warm in States;
    assert b in [Orderings[0], Orderings[1], Orderings[2], Orderings[3], Orderings[4], Orderings[5]];
  }

  lemma {:induction false} CutValid(shuffle: nat -> seq<Block>, k: nat, n: nat)
    requires Shuffles(shuffle) && n <= |Cycles(shuffle, k)|
    ensures forall i :: 0 <= i < n ==> ValidBlock(Cycles(shuffle, k)[i])
  {
    hide ValidBlock, Orderings, Shuffles, Cycles;
    OrderingsValid();
    var all := Cycles(shuffle, k);
    forall i | 0 <= i < n ensures ValidBlock(all[i]) {
      CyclesCount(shuffle, k, all[i]);
      assert all[i] in multiset(all);
    }
  }
}
