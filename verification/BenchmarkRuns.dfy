/** The runs of a benchmark and their directories, and when validation accepts all of them. */
module BenchmarkRuns {
  import opened Options
  import opened Schedule
  import opened Manifest

  // ----- Directories -----

  /** The parts between slashes. */
  function Split(s: string): (r: seq<string>)
    ensures |r| > 0
  {
    if s == "" then [""]
    else
      var rest := Split(s[1..]);
      if s[0] == '/' then [""] + rest else [[s[0]] + rest[0]] + rest[1..]
  }

  function Meaningful(parts: seq<string>): seq<string> {
    if parts == [] then []
    else (if parts[0] == "" || parts[0] == "." then [] else [parts[0]]) + Meaningful(parts[1..])
  }

  /** The components of a relative path; empty ones and dots do not count. */
  function Components(name: string): Path {
    Meaningful(Split(name))
  }

  function Digit(n: nat): (c: char)
    requires n < 10
    ensures '0' <= c <= '9'
  {
    '0' + n as char
  }

  function Decimal(n: nat): (s: string)
    ensures s != ""
  {
    if n < 10 then [Digit(n)] else Decimal(n / 10) + [Digit(n % 10)]
  }

  /** At least two digits. */
  function Pad(n: nat): string {
    if n < 10 then ['0'] + Decimal(n) else Decimal(n)
  }

  function PopulationPath(w: string): Path {
    ["population"] + Components(w)
  }

  function RunPath(w: string, trial: nat, order: nat, state: string): Path {
    ["runs"] + Components(w) + ["trial-" + Pad(trial), Pad(order) + "-" + state]
  }

  // ----- The runs -----

  function Population(w: string, wall: Key -> int): Run {
    Run(w, 0, Cold, 0, true, Some(PopulationPath(w)), wall(Key(w, 0, Cold, 0, true)))
  }

  function TrialRun(w: string, t: nat, states: Block, o: nat, wall: Key -> int): Run
    requires o < |states|
  {
    Run(w, t + 1, states[o], o + 1, false, Some(RunPath(w, t + 1, o + 1, states[o])), wall(Key(w, t + 1, states[o], o + 1, false)))
  }

  function TrialRuns(w: string, t: nat, states: Block, wall: Key -> int): seq<Run> {
    seq(|states|, o requires 0 <= o < |states| => TrialRun(w, t, states, o, wall))
  }

  function TrialsRuns(w: string, schedule: seq<Block>, n: nat, wall: Key -> int): seq<Run>
    requires n <= |schedule|
  {
    if n == 0 then [] else TrialsRuns(w, schedule, n - 1, wall) + TrialRuns(w, n - 1, schedule[n - 1], wall)
  }

  function WorkloadRuns(w: string, schedule: seq<Block>, wall: Key -> int): seq<Run> {
    [Population(w, wall)] + TrialsRuns(w, schedule, |schedule|, wall)
  }

  function RunsOf(workloads: seq<string>, n: nat, schedule: seq<Block>, wall: Key -> int): seq<Run>
    requires n <= |workloads|
  {
    if n == 0 then [] else RunsOf(workloads, n - 1, schedule, wall) + WorkloadRuns(workloads[n - 1], schedule, wall)
  }

  // ----- The order of the runs, and what each carries -----

  /** A run is recorded with the time and the directory of its own key. */
  ghost predicate RecordedAs(r: Run, k: Key, wall: Key -> int) {
    && KeyOf(r) == k && r.wallNs == wall(k)
    && r.directory == Some(if k.population then ["population"] + Components(k.workload)
                           else if k.trial >= 0 && k.order >= 0 then RunPath(k.workload, k.trial, k.order, k.state) else [])
  }

  lemma {:induction false} TrialAt(w: string, schedule: seq<Block>, n: nat, wall: Key -> int, t: nat, o: nat)
    requires t < n <= |schedule| && o < 3 && forall i :: 0 <= i < n ==> |schedule[i]| == 3
    ensures |TrialsRuns(w, schedule, n, wall)| == 3 * n
    ensures RecordedAs(TrialsRuns(w, schedule, n, wall)[3 * t + o], Key(w, t + 1, schedule[t][o], o + 1, false), wall)
    decreases n
  {
    hide RunPath;
    TrialsSize(w, schedule, n - 1, wall);
    var last := TrialRuns(w, n - 1, schedule[n - 1], wall);
    assert |last| == 3;
    if t < n - 1 {
      TrialAt(w, schedule, n - 1, wall, t, o);
    } else {
      assert TrialsRuns(w, schedule, n, wall)[3 * t + o] == last[o];
    }
  }

  lemma {:induction false} TrialsSize(w: string, schedule: seq<Block>, n: nat, wall: Key -> int)
    requires n <= |schedule| && forall i :: 0 <= i < n ==> |schedule[i]| == 3
    ensures |TrialsRuns(w, schedule, n, wall)| == 3 * n
    decreases n
  {
    if n > 0 {
      TrialsSize(w, schedule, n - 1, wall);
    }
  }

  lemma {:induction false} RunsSize(workloads: seq<string>, n: nat, schedule: seq<Block>, wall: Key -> int)
    requires n <= |workloads| && forall i :: 0 <= i < |schedule| ==> |schedule[i]| == 3
    ensures |RunsOf(workloads, n, schedule, wall)| == n * (3 * |schedule| + 1)
    decreases n
  {
    hide TrialsRuns;
    if n > 0 {
      RunsSize(workloads, n - 1, schedule, wall);
      TrialsSize(workloads[n - 1], schedule, |schedule|, wall);
      assert (n - 1) * (3 * |schedule| + 1) + (3 * |schedule| + 1) == n * (3 * |schedule| + 1);
    }
  }

  /** What is recorded for one workload: its population, and then the three states of every trial in order. */
  ghost predicate WorkloadRecorded(runs: seq<Run>, w: string, schedule: seq<Block>, wall: Key -> int) {
    && |runs| == 3 * |schedule| + 1
    && RecordedAs(runs[0], Key(w, 0, Cold, 0, true), wall)
    && forall t: nat, o: nat :: t < |schedule| && o < 3 && o < |schedule[t]| ==>
         RecordedAs(runs[1 + 3 * t + o], Key(w, t + 1, schedule[t][o], o + 1, false), wall)
  }

  lemma {:induction false} WorkloadInOrder(w: string, schedule: seq<Block>, wall: Key -> int)
    requires forall t :: 0 <= t < |schedule| ==> |schedule[t]| == 3
    ensures WorkloadRecorded(WorkloadRuns(w, schedule, wall), w, schedule, wall)
  {
    hide TrialsRuns, RecordedAs;
    TrialsSize(w, schedule, |schedule|, wall);
    PopulationRecorded(w, wall);
    var runs := WorkloadRuns(w, schedule, wall);
    assert runs[0] == Population(w, wall);
    forall t: nat, o: nat | t < |schedule| && o < 3
      ensures RecordedAs(runs[1 + 3 * t + o], Key(w, t + 1, schedule[t][o], o + 1, false), wall)
    {
      TrialAt(w, schedule, |schedule|, wall, t, o);
      assert runs[1 + 3 * t + o] == TrialsRuns(w, schedule, |schedule|, wall)[3 * t + o];
    }
  }

  lemma PopulationRecorded(w: string, wall: Key -> int)
    ensures RecordedAs(Population(w, wall), Key(w, 0, Cold, 0, true), wall)
  {
  }

  /**
    The runs of a workload follow those of the ones before it: population first, then the states of every trial in the
    order of the schedule, each with the time and the directory of its own key.
   */
  lemma {:induction false} RunsInOrder(workloads: seq<string>, n: nat, schedule: seq<Block>, wall: Key -> int, i: nat)
    requires i < n <= |workloads| && forall t :: 0 <= t < |schedule| ==> |schedule[t]| == 3
    ensures var runs, size := RunsOf(workloads, n, schedule, wall), 3 * |schedule| + 1;
            && |runs| == n * size && 0 <= i * size <= i * size + size <= |runs|
            && WorkloadRecorded(runs[i * size..i * size + size], workloads[i], schedule, wall)
    decreases n
  {
    hide WorkloadRuns, WorkloadRecorded;
    var size := 3 * |schedule| + 1;
    RunsSize(workloads, n, schedule, wall);
    RunsSize(workloads, n - 1, schedule, wall);
    WorkloadInOrder(workloads[n - 1], schedule, wall);
    var before, last := RunsOf(workloads, n - 1, schedule, wall), WorkloadRuns(workloads[n - 1], schedule, wall);
    WorkloadSize(workloads[n - 1], schedule, wall);
    if i < n - 1 {
      RunsInOrder(workloads, n - 1, schedule, wall, i);
      InFront(before, last, i * size, size);
    } else {
      Behind(before, last);
    }
  }

  lemma WorkloadSize(w: string, schedule: seq<Block>, wall: Key -> int)
    requires forall t :: 0 <= t < |schedule| ==> |schedule[t]| == 3
    ensures |WorkloadRuns(w, schedule, wall)| == 3 * |schedule| + 1
  {
    hide TrialsRuns;
    TrialsSize(w, schedule, |schedule|, wall);
  }

  lemma InFront(a: seq<Run>, b: seq<Run>, k: nat, size: nat)
    requires k + size <= |a|
    ensures (a + b)[k..k + size] == a[k..k + size]
  {
  }

  lemma Behind(a: seq<Run>, b: seq<Run>)
    ensures (a + b)[|a|..|a| + |b|] == b
  {
  }

  // ----- Directories differ -----

  function Parse(s: string): int {
    if s == "" then 0 else 10 * Parse(s[..|s| - 1]) + (s[|s| - 1] as int - '0' as int)
  }

  lemma {:induction false} ParseDecimal(n: nat)
    ensures Parse(Decimal(n)) == n
    decreases n
  {
    if n < 10 {
      assert Decimal(n)[..0] == "";
    } else {
      ParseDecimal(n / 10);
      var front := Decimal(n / 10);
      assert Decimal(n)[..|front|] == front;
    }
  }

  lemma {:induction false} ParseZero(s: string)
    ensures Parse(['0'] + s) == Parse(s)
    decreases |s|
  {
    var all := ['0'] + s;
    var n := |s|;
    if s == "" {
      assert all[..0] == "";
    } else {
      ParseZero(s[..n - 1]);
      assert all[..n] == ['0'] + s[..n - 1];
    }
  }

  lemma ParsePad(n: nat)
    ensures Parse(Pad(n)) == n
  {
    ParseDecimal(n);
    ParseZero(Decimal(n));
  }

  lemma {:induction false} DecimalDigits(n: nat)
    ensures forall c :: c in Decimal(n) ==> '0' <= c <= '9'
    decreases n
  {
    if n >= 10 {
      DecimalDigits(n / 10);
    }
  }

  lemma PadDigits(n: nat)
    ensures forall c :: c in Pad(n) ==> '0' <= c <= '9'
  {
    DecimalDigits(n);
  }

  /** The part before the first dash is determined. */
  lemma BeforeDash(a: string, s: string, b: string, s': string)
    requires '-' !in a && '-' !in b && a + "-" + s == b + "-" + s'
    ensures a == b
  {
    var x := a + "-" + s;
    assert x[|a|] == '-' && x[|b|] == '-';
    assert x[..|a|] == a && x[..|b|] == b;
  }

  lemma {:induction false} RunPathsDiffer(w: string, t: nat, o: nat, s: string, w': string, t': nat, o': nat, s': string)
    requires RunPath(w, t, o, s) == RunPath(w', t', o', s')
    ensures Components(w) == Components(w') && t == t' && o == o'
  {
    hide Components, Pad;
    var p, p' := RunPath(w, t, o, s), RunPath(w', t', o', s');
    var n := |Components(w)|;
    assert p[1..1 + n] == Components(w) && p'[1..1 + n] == Components(w');
    assert p[1 + n] == "trial-" + Pad(t) && p'[1 + n] == "trial-" + Pad(t');
    assert p[2 + n] == Pad(o) + "-" + s && p'[2 + n] == Pad(o') + "-" + s';
    assert ("trial-" + Pad(t))[6..] == Pad(t) && ("trial-" + Pad(t'))[6..] == Pad(t');
    PadDigits(o);
    PadDigits(o');
    BeforeDash(Pad(o), s, Pad(o'), s');
    ParsePad(t);
    ParsePad(t');
    ParsePad(o);
    ParsePad(o');
  }

  lemma {:induction false} PopulationPathsDiffer(w: string, w': string, t: nat, o: nat, s: string)
    ensures PopulationPath(w) == PopulationPath(w') <==> Components(w) == Components(w')
    ensures PopulationPath(w) != RunPath(w', t, o, s)
  {
    hide Components, Pad;
    var p, p' := PopulationPath(w), PopulationPath(w');
    assert p[1..] == Components(w) && p'[1..] == Components(w');
    assert p[0][0] == 'p' && RunPath(w', t, o, s)[0][0] == 'r';
  }

  // ----- What is written -----

  /** Where a run is: its workload's directory, its trial and its place in the trial. */
  datatype Place = Place(path: Path, trial: int, order: int)

  function PlaceOf(r: Run): Place {
    Place(Components(r.workload), r.trial, r.order)
  }

  function Places(runs: seq<Run>): seq<Place> {
    seq(|runs|, i requires 0 <= i < |runs| => PlaceOf(runs[i]))
  }

  /** A run that is written: its directory belongs to it. */
  ghost predicate Written(r: Run) {
    || (r.population && r.trial == 0 && r.order == 0 && r.directory == Some(PopulationPath(r.workload)))
    || (!r.population && r.trial > 0 && r.order > 0 && r.directory == Some(RunPath(r.workload, r.trial, r.order, r.state)))
  }

  lemma {:induction false} WrittenDiffer(r: Run, r': Run)
    requires Written(r) && Written(r')
    ensures r.directory == r'.directory ==> PlaceOf(r) == PlaceOf(r')
    ensures KeyOf(r) == KeyOf(r') ==> PlaceOf(r) == PlaceOf(r')
  {
    hide Components, RunPath, PopulationPath;
    if r.directory == r'.directory {
      if r.population {
        if r'.population {
          PopulationPathsDiffer(r.workload, r'.workload, 0, 0, "");
        } else {
          PopulationPathsDiffer(r.workload, r'.workload, r'.trial, r'.order, r'.state);
        }
      } else if r'.population {
        PopulationPathsDiffer(r'.workload, r.workload, r.trial, r.order, r.state);
      } else {
        RunPathsDiffer(r.workload, r.trial, r.order, r.state, r'.workload, r'.trial, r'.order, r'.state);
      }
    }
  }

  ghost predicate AllWritten(runs: seq<Run>) {
    forall i :: 0 <= i < |runs| ==> Written(runs[i])
  }

  /** Runs in different places have different keys and directories. */
  lemma {:induction false} PlacesDecide(runs: seq<Run>)
    requires AllWritten(runs) && Distinct(Places(runs))
    ensures Distinct(Keys(runs)) && Distinct(Directories(runs)) && None !in Directories(runs)
  {
    hide Written, PlaceOf;
    forall i, j | 0 <= i < j < |runs|
      ensures Keys(runs)[i] != Keys(runs)[j] && Directories(runs)[i] != Directories(runs)[j]
    {
      assert Places(runs)[i] != Places(runs)[j];
      WrittenDiffer(runs[i], runs[j]);
    }
    forall i | 0 <= i < |runs| ensures Directories(runs)[i] != None {
      WrittenHasDirectory(runs[i]);
    }
  }

  lemma WrittenHasDirectory(r: Run)
    requires Written(r)
    ensures r.directory.Some?
  {
  }

  lemma DistinctConcat<T(!new)>(a: seq<T>, b: seq<T>)
    ensures Distinct(a + b) <==> Distinct(a) && Distinct(b) && forall x :: x in a ==> x !in b
  {
    var all := a + b;
    if Distinct(all) {
      forall i, j | 0 <= i < j < |a| ensures a[i] != a[j] {
        assert all[i] != all[j];
      }
      forall i, j | 0 <= i < j < |b| ensures b[i] != b[j] {
        assert all[|a| + i] != all[|a| + j];
      }
      forall i, j | 0 <= i < |a| && 0 <= j < |b| ensures a[i] != b[j] {
        assert all[i] != all[|a| + j];
      }
    }
    if Distinct(a) && Distinct(b) && forall x :: x in a ==> x !in b {
      forall i, j | 0 <= i < j < |all| ensures all[i] != all[j] {
        if j < |a| {
          assert all[i] == a[i] && all[j] == a[j];
        } else if i < |a| {
          assert all[i] == a[i] && all[j] == b[j - |a|];
          assert a[i] in a && b[j - |a|] in b;
        } else {
          assert all[i] == b[i - |a|] && all[j] == b[j - |a|];
        }
      }
    }
  }

  lemma PlacesConcat(a: seq<Run>, b: seq<Run>)
    ensures Places(a + b) == Places(a) + Places(b)
    ensures Keys(a + b) == Keys(a) + Keys(b)
    ensures Directories(a + b) == Directories(a) + Directories(b)
  {
    hide PlaceOf, KeyOf;
  }

  lemma {:induction false} TrialsPlaces(w: string, schedule: seq<Block>, n: nat, wall: Key -> int)
    requires n <= |schedule|
    ensures var runs := TrialsRuns(w, schedule, n, wall);
            && AllWritten(runs) && Distinct(Places(runs))
            && forall p :: p in Places(runs) ==> p.path == Components(w) && 1 <= p.trial <= n
  {
    hide Components, RunPath;
    if n > 0 {
      var a, b := TrialsRuns(w, schedule, n - 1, wall), TrialRuns(w, n - 1, schedule[n - 1], wall);
      TrialsPlaces(w, schedule, n - 1, wall);
      PlacesConcat(a, b);
      DistinctConcat(Places(a), Places(b));
    }
  }

  lemma {:induction false} WorkloadPlaces(w: string, schedule: seq<Block>, wall: Key -> int)
    ensures var runs := WorkloadRuns(w, schedule, wall);
            && AllWritten(runs) && Distinct(Places(runs))
            && forall p :: p in Places(runs) ==> p.path == Components(w)
  {
    hide Components, RunPath, PopulationPath, TrialsRuns;
    var first, rest := [Population(w, wall)], TrialsRuns(w, schedule, |schedule|, wall);
    TrialsPlaces(w, schedule, |schedule|, wall);
    PlacesConcat(first, rest);
    DistinctConcat(Places(first), Places(rest));
  }

  function AllComponents(workloads: seq<string>): seq<Path> {
    seq(|workloads|, i requires 0 <= i < |workloads| => Components(workloads[i]))
  }

  lemma {:induction false} RunsPlaces(workloads: seq<string>, n: nat, schedule: seq<Block>, wall: Key -> int)
    requires n <= |workloads| && Distinct(AllComponents(workloads))
    ensures var runs := RunsOf(workloads, n, schedule, wall);
            && AllWritten(runs) && Distinct(Places(runs))
            && forall p :: p in Places(runs) ==> p.path in AllComponents(workloads)[..n]
    decreases n
  {
    hide Components, WorkloadRuns, Written;
    if n > 0 {
      var a, b := RunsOf(workloads, n - 1, schedule, wall), WorkloadRuns(workloads[n - 1], schedule, wall);
      RunsPlaces(workloads, n - 1, schedule, wall);
      WorkloadPlaces(workloads[n - 1], schedule, wall);
      PlacesConcat(a, b);
      var paths := AllComponents(workloads);
      assert paths[n - 1] !in paths[..n - 1];
      DistinctConcat(Places(a), Places(b));
    }
  }

  // ----- What validation expects -----

  lemma {:induction false} TrialKeys(m: Metadata, w: string, t: nat, wall: Key -> int, k: Key)
    requires t < |m.schedule|
    ensures k in Keys(TrialRuns(w, t, m.schedule[t], wall)) <==> InTrial(m, w, t, |m.schedule[t]|, k)
  {
    hide RunPath;
    var runs := TrialRuns(w, t, m.schedule[t], wall);
    if o :| 0 <= o < |runs| && Keys(runs)[o] == k {
      assert k == Key(w, t + 1, m.schedule[t][o], o + 1, false);
    }
    if o :| 0 <= o < |m.schedule[t]| && k == Key(w, t + 1, m.schedule[t][o], o + 1, false) {
      assert Keys(runs)[o] == k;
    }
  }

  lemma {:induction false} TrialsKeys(m: Metadata, w: string, n: nat, wall: Key -> int, k: Key)
    requires n <= |m.schedule|
    ensures k in Keys(TrialsRuns(w, m.schedule, n, wall)) <==> exists j :: 0 <= j < n && InTrial(m, w, j, |m.schedule[j]|, k)
  {
    hide TrialRuns, InTrial, KeyOf;
    if n > 0 {
      TrialsKeys(m, w, n - 1, wall, k);
      TrialKeys(m, w, n - 1, wall, k);
      PlacesConcat(TrialsRuns(w, m.schedule, n - 1, wall), TrialRuns(w, n - 1, m.schedule[n - 1], wall));
    }
  }

  lemma {:induction false} WorkloadKeys(m: Metadata, w: string, wall: Key -> int, k: Key)
    ensures k in Keys(WorkloadRuns(w, m.schedule, wall)) <==> InWorkload(m, w, |m.schedule|, k)
  {
    hide TrialsRuns, InTrial, PopulationPath;
    TrialsKeys(m, w, |m.schedule|, wall, k);
    PlacesConcat([Population(w, wall)], TrialsRuns(w, m.schedule, |m.schedule|, wall));
    assert Keys([Population(w, wall)]) == [Key(w, 0, Cold, 0, true)];
  }

  lemma {:induction false} RunsKeys(m: Metadata, n: nat, wall: Key -> int, k: Key)
    requires n <= |m.workloads|
    ensures k in Keys(RunsOf(m.workloads, n, m.schedule, wall)) <==>
            exists i :: 0 <= i < n && InWorkload(m, m.workloads[i], |m.schedule|, k)
    decreases n
  {
    hide WorkloadRuns, InWorkload, KeyOf;
    if n > 0 {
      RunsKeys(m, n - 1, wall, k);
      WorkloadKeys(m, m.workloads[n - 1], wall, k);
      PlacesConcat(RunsOf(m.workloads, n - 1, m.schedule, wall), WorkloadRuns(m.workloads[n - 1], m.schedule, wall));
    }
  }

  /** The directory in which a workload is populated is among those that were written. */
  lemma {:induction false} PopulationWritten(workloads: seq<string>, i: nat, n: nat, schedule: seq<Block>, wall: Key -> int)
    requires i < n <= |workloads|
    ensures Some(PopulationPath(workloads[i])) in Directories(RunsOf(workloads, n, schedule, wall))
    decreases n
  {
    hide PopulationPath, TrialsRuns;
    var a, b := RunsOf(workloads, n - 1, schedule, wall), WorkloadRuns(workloads[n - 1], schedule, wall);
    PlacesConcat(a, b);
    if i < n - 1 {
      PopulationWritten(workloads, i, n - 1, schedule, wall);
    } else {
      assert Directories(b)[0] == Some(PopulationPath(workloads[i]));
    }
  }

  lemma {:induction false} RunsPrefix(workloads: seq<string>, j: nat, n: nat, schedule: seq<Block>, wall: Key -> int)
    requires j <= n <= |workloads| && Distinct(Directories(RunsOf(workloads, n, schedule, wall)))
    ensures Distinct(Directories(RunsOf(workloads, j, schedule, wall)))
    decreases n
  {
    hide WorkloadRuns, Distinct;
    if j < n {
      var a, b := RunsOf(workloads, n - 1, schedule, wall), WorkloadRuns(workloads[n - 1], schedule, wall);
      PlacesConcat(a, b);
      DistinctConcat(Directories(a), Directories(b));
      RunsPrefix(workloads, j, n - 1, schedule, wall);
    }
  }

  /** Two workloads in one directory are found out. */
  lemma {:induction false} CollisionRejected(workloads: seq<string>, i: nat, j: nat, schedule: seq<Block>, wall: Key -> int)
    requires i < j < |workloads| && Components(workloads[i]) == Components(workloads[j])
    ensures !Distinct(Directories(RunsOf(workloads, |workloads|, schedule, wall)))
  {
    hide Components, TrialsRuns;
    var a, b := RunsOf(workloads, j, schedule, wall), WorkloadRuns(workloads[j], schedule, wall);
    PopulationWritten(workloads, i, j, schedule, wall);
    PopulationPathsDiffer(workloads[i], workloads[j], 0, 0, "");
    assert Directories(b)[0] == Some(PopulationPath(workloads[i]));
    PlacesConcat(a, b);
    DistinctConcat(Directories(a), Directories(b));
    if Distinct(Directories(RunsOf(workloads, |workloads|, schedule, wall))) {
      RunsPrefix(workloads, j + 1, |workloads|, schedule, wall);
      assert false;
    }
  }

  /** What all runs make up is accepted exactly if no two workloads have the same path. */
  lemma {:induction false} RunsAcceptedIff(m: Metadata, wall: Key -> int)
    requires m.trials >= 1 && |m.schedule| == m.trials && forall t :: 0 <= t < |m.schedule| ==> ValidBlock(m.schedule[t])
    ensures Accepted(m, RunsOf(m.workloads, |m.workloads|, m.schedule, wall)) <==> Distinct(AllComponents(m.workloads))
  {
    hide ValidBlock, Expected, InWorkload, RunsOf, Components, Keys, Directories;
    var runs := RunsOf(m.workloads, |m.workloads|, m.schedule, wall);
    forall k: Key ensures k in Keys(runs) <==> Expected(m, k) {
      RunsKeys(m, |m.workloads|, wall, k);
      WorkloadIsExpected(m, k);
    }
    if Distinct(AllComponents(m.workloads)) {
      RunsPlaces(m.workloads, |m.workloads|, m.schedule, wall);
      PlacesDecide(runs);
    } else {
      var paths := AllComponents(m.workloads);
      var i, j :| 0 <= i < j < |paths| && paths[i] == paths[j];
      CollisionRejected(m.workloads, i, j, m.schedule, wall);
    }
  }

  // ----- Plain names -----

  lemma {:induction false} SplitPlain(w: string)
    requires '/' !in w
    ensures Split(w) == [w]
  {
    if w != "" {
      SplitPlain(w[1..]);
      assert w == [w[0]] + w[1..];
    }
  }

  /** Names that differ only in a dot are one path. */
  lemma DotCollides()
    ensures Components("x") == Components("./x") == ["x"]
  {
    SplitPlain("x");
    assert "./x"[1..] == "/x" && "/x"[1..] == "x";
    assert Split("/x") == [""] + ["x"];
    assert Split("./x") == [['.'] + ""] + ["x"];
    assert ['.'] + "" == ".";
    assert Meaningful(["x"]) == ["x"] + Meaningful(["x"][1..]) == ["x"];
    assert Meaningful([".", "x"]) == [] + Meaningful([".", "x"][1..]);
    assert [".", "x"][1..] == ["x"];
  }
}
