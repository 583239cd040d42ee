/**
  The loop that runs the benchmark.  It makes a directory for every run and stops where one is there already;
  what it has appended when it ends is accepted.
 */
module BenchmarkLoop {
  import opened Options
  import opened Schedule
  import opened Manifest
  import opened BenchmarkRuns

  // ----- Directories in the file system -----

  /** A directory, from the output directory: so many levels up, and then down. */
  datatype Dir = Dir(ups: nat, names: Path)

  function Enter(d: Dir, name: string): Dir {
    if name != ".." then d.(names := d.names + [name])
    else if d.names == [] then d.(ups := d.ups + 1)
    else d.(names := d.names[..|d.names| - 1])
  }

  function Resolve(p: Path): Dir {
    if p == [] then Dir(0, []) else Enter(Resolve(p[..|p| - 1]), p[|p| - 1])
  }

  /** What is made on the way to a path. */
  function Parents(p: Path): set<Dir> {
    set k | 1 <= k < |p| :: Resolve(p[..k])
  }

  /** What a run writes into its directory; that of the population gets the manifest of the seed besides. */
  function FileNames(p: Path): set<string> {
    {"system-before.json", "stdout.log", "stderr.log", "system-after.json", "stats.json", "result.json"}
    + if p != [] && p[0] == "population" then {"seed-manifest.json"} else {}
  }

  function FilesOf(p: Path): set<Dir> {
    set name | name in FileNames(p) :: Enter(Resolve(p), name)
  }

  /** What the loop has put into the file system. */
  datatype Disk = Disk(dirs: set<Dir>, files: set<Dir>)

  /**
    Makes the directory of a run with its parents, and then its files; `None` if the directory is there, was made
    before, is one of its own parents, or if it or a parent is a file.
   */
  function MakeDir(there: Dir -> bool, disk: Disk, p: Path): Option<Disk> {
    var d := Resolve(p);
    if there(d) || d in disk.dirs || d in Parents(p) || !(disk.files !! Parents(p) + {d}) then None
    else Some(Disk(disk.dirs + Parents(p) + {d}, disk.files + FilesOf(p)))
  }

  function MakeAll(there: Dir -> bool, ps: seq<Path>): Option<Disk> {
    if ps == [] then Some(Disk({}, {}))
    else
      match MakeAll(there, ps[..|ps| - 1])
      case None => None
      case Some(disk) => MakeDir(there, disk, ps[|ps| - 1])
  }

  function PathOf(r: Run): Path {
    if r.directory.Some? then r.directory.value else []
  }

  function Paths(runs: seq<Run>): seq<Path> {
    seq(|runs|, i requires 0 <= i < |runs| => PathOf(runs[i]))
  }

  // ----- The loop -----

  /** A name that leads out of the output directory, to which its path is not relative then. */
  predicate Absolute(w: string) {
    w != "" && w[0] == '/'
  }

  predicate NoneAbsolute(workloads: seq<string>) {
    forall i :: 0 <= i < |workloads| ==> !Absolute(workloads[i])
  }

  /** All runs, in the order in which they are made. */
  function Plan(workloads: seq<string>, schedule: seq<Block>, wall: Key -> int): seq<Run> {
    RunsOf(workloads, |workloads|, schedule, wall)
  }

  /** The directories of all runs are below the output directory and can be made one after the other. */
  predicate Finishes(workloads: seq<string>, schedule: seq<Block>, there: Dir -> bool, wall: Key -> int) {
    NoneAbsolute(workloads) && MakeAll(there, Paths(Plan(workloads, schedule, wall))).Some?
  }

  /** Each workload is populated and then run in every state of every trial; what a run takes is up to `wall`. */
  method RunBenchmark(workloads: seq<string>, schedule: seq<Block>, there: Dir -> bool, wall: Key -> int) returns (r: Option<seq<Run>>)
    ensures r == if Finishes(workloads, schedule, there, wall) then Some(Plan(workloads, schedule, wall)) else None
  {
    hide WorkloadRuns, MakeAll, Paths;
    ghost var plan := Plan(workloads, schedule, wall);
    var manifest: seq<Run>, made, ok := [], Disk({}, {}), true;
    NothingMade(there);
    for i := 0 to |workloads|
      invariant manifest == RunsOf(workloads, i, schedule, wall) && MakeAll(there, Paths(manifest)) == Some(made)
      invariant forall j :: 0 <= j < i ==> !Absolute(workloads[j])
    {
      if Absolute(workloads[i]) {
        return None;
      }
      PlanPrefix(workloads, i + 1, |workloads|, schedule, wall);
      ok, manifest, made := RunWorkload(workloads[i], schedule, there, wall, manifest, made, plan);
      if !ok {
        return None;
      }
    }
    return Some(manifest);
  }

  method RunWorkload(w: string, schedule: seq<Block>, there: Dir -> bool, wall: Key -> int, manifest: seq<Run>, made: Disk, ghost plan: seq<Run>)
    returns (ok: bool, manifest': seq<Run>, made': Disk)
    requires MakeAll(there, Paths(manifest)) == Some(made) && manifest + WorkloadRuns(w, schedule, wall) <= plan
    ensures ok ==> manifest' == manifest + WorkloadRuns(w, schedule, wall) && MakeAll(there, Paths(manifest')) == Some(made')
    ensures !ok ==> MakeAll(there, Paths(plan)).None?
  {
    hide Population, TrialRuns, MakeAll, Paths;
    ghost var all, rest := manifest + WorkloadRuns(w, schedule, wall), TrialsRuns(w, schedule, |schedule|, wall);
    Regroup(manifest, [Population(w, wall)], rest);
    ok, manifest', made' := RunOne(there, manifest, made, Population(w, wall), plan);
    ghost var before := manifest + [Population(w, wall)];
    assert ok ==> manifest' == before + [];
    for t := 0 to |schedule|
      invariant ok ==> manifest' == before + TrialsRuns(w, schedule, t, wall) && MakeAll(there, Paths(manifest')) == Some(made')
      invariant !ok ==> MakeAll(there, Paths(plan)).None?
    {
      if ok {
        TrialsPrefix(w, schedule, t + 1, |schedule|, wall);
        PrefixAfter(before, TrialsRuns(w, schedule, t + 1, wall), rest);
        PrefixTwice(before + TrialsRuns(w, schedule, t + 1, wall), all, plan);
        Regroup(before, TrialsRuns(w, schedule, t, wall), TrialRuns(w, t, schedule[t], wall));
        ok, manifest', made' := RunTrial(w, t, schedule[t], there, wall, manifest', made', plan);
      }
    }
  }

  /** The states of one trial, in their order. */
  method RunTrial(w: string, t: nat, states: Block, there: Dir -> bool, wall: Key -> int, manifest: seq<Run>, made: Disk, ghost plan: seq<Run>)
    returns (ok: bool, manifest': seq<Run>, made': Disk)
    requires MakeAll(there, Paths(manifest)) == Some(made) && manifest + TrialRuns(w, t, states, wall) <= plan
    ensures ok ==> manifest' == manifest + TrialRuns(w, t, states, wall) && MakeAll(there, Paths(manifest')) == Some(made')
    ensures !ok ==> MakeAll(there, Paths(plan)).None?
  {
    hide TrialRun, MakeAll, Paths;
    ok, manifest', made' := true, manifest, made;
    for o := 0 to |states|
      invariant ok ==> manifest' == manifest + TrialRuns(w, t, states, wall)[..o] && MakeAll(there, Paths(manifest')) == Some(made')
      invariant !ok ==> MakeAll(there, Paths(plan)).None?
    {
      if ok {
        TrialNext(w, t, states, o, wall);
        ok, manifest', made' := RunOne(there, manifest', made', TrialRun(w, t, states, o, wall), plan);
      }
    }
  }

  /** The directory of a run is made first; the run is appended after it. */
  method RunOne(there: Dir -> bool, manifest: seq<Run>, made: Disk, run: Run, ghost plan: seq<Run>)
    returns (ok: bool, manifest': seq<Run>, made': Disk)
    requires MakeAll(there, Paths(manifest)) == Some(made) && manifest + [run] <= plan
    ensures ok ==> manifest' == manifest + [run] && MakeAll(there, Paths(manifest')) == Some(made')
    ensures !ok ==> MakeAll(there, Paths(plan)).None?
  {
    hide MakeAll, MakeDir, Paths;
    MakeNext(there, manifest, run, plan);
    match MakeDir(there, made, PathOf(run))
    case None => return false, manifest, made;
    case Some(more) => return true, manifest + [run], more;
  }

  lemma Regroup(a: seq<Run>, b: seq<Run>, c: seq<Run>)
    ensures a + (b + c) == a + b + c
  {
  }

  lemma NothingMade(there: Dir -> bool)
    ensures MakeAll(there, Paths([])) == Some(Disk({}, {}))
  {
  }

  /** One more directory; where it cannot be made, the whole plan cannot. */
  lemma MakeNext(there: Dir -> bool, manifest: seq<Run>, run: Run, plan: seq<Run>)
    requires manifest + [run] <= plan && MakeAll(there, Paths(manifest)).Some?
    ensures MakeAll(there, Paths(manifest + [run])) == MakeDir(there, MakeAll(there, Paths(manifest)).value, PathOf(run))
    ensures MakeAll(there, Paths(manifest + [run])).None? ==> MakeAll(there, Paths(plan)).None?
  {
    hide MakeDir, PathOf;
    var ps := Paths(manifest + [run]);
    assert ps[..|ps| - 1] == Paths(manifest);
    assert Paths(plan)[..|ps|] == ps;
    MakePrefix(there, Paths(plan), |ps|);
  }

  lemma {:induction false} MakePrefix(there: Dir -> bool, ps: seq<Path>, n: nat)
    requires n <= |ps|
    ensures MakeAll(there, ps).Some? ==> MakeAll(there, ps[..n]).Some?
    decreases |ps|
  {
    hide MakeDir;
    if n < |ps| {
      MakePrefix(there, ps[..|ps| - 1], n);
      assert ps[..|ps| - 1][..n] == ps[..n];
    } else {
      assert ps[..n] == ps;
    }
  }

  lemma {:induction false} PlanPrefix(workloads: seq<string>, i: nat, n: nat, schedule: seq<Block>, wall: Key -> int)
    requires i <= n <= |workloads|
    ensures RunsOf(workloads, i, schedule, wall) <= RunsOf(workloads, n, schedule, wall)
    decreases n
  {
    hide WorkloadRuns;
    if i < n {
      PlanPrefix(workloads, i, n - 1, schedule, wall);
    }
  }

  lemma {:induction false} TrialsPrefix(w: string, schedule: seq<Block>, t: nat, n: nat, wall: Key -> int)
    requires t <= n <= |schedule|
    ensures TrialsRuns(w, schedule, t, wall) <= TrialsRuns(w, schedule, n, wall)
    decreases n
  {
    hide TrialRuns;
    if t < n {
      TrialsPrefix(w, schedule, t, n - 1, wall);
    }
  }

  lemma TrialNext(w: string, t: nat, states: Block, o: nat, wall: Key -> int)
    requires o < |states|
    ensures TrialRuns(w, t, states, wall)[..o + 1] == TrialRuns(w, t, states, wall)[..o] + [TrialRun(w, t, states, o, wall)]
  {
    hide TrialRun;
  }

  lemma PrefixAfter(a: seq<Run>, x: seq<Run>, y: seq<Run>)
    requires x <= y
    ensures a + x <= a + y
  {
  }

  lemma PrefixTwice(x: seq<Run>, y: seq<Run>, z: seq<Run>)
    requires x <= y <= z
    ensures x <= z
  {
  }

  // ----- When directories can be made -----

  /** Once `p` is made, `q` cannot be: it is made, or it or one of its parents is a file. */
  ghost predicate Clash(p: Path, q: Path) {
    Resolve(q) == Resolve(p) || Resolve(q) in Parents(p) || !(FilesOf(p) !! Parents(q) + {Resolve(q)})
  }

  /** No path is there at the start, is one of its own parents, or clashes with an earlier one. */
  ghost predicate NoneTaken(there: Dir -> bool, ps: seq<Path>) {
    && (forall i :: 0 <= i < |ps| ==> !there(Resolve(ps[i])) && Resolve(ps[i]) !in Parents(ps[i]))
    && (forall i, j :: 0 <= i < j < |ps| ==> !Clash(ps[i], ps[j]))
  }

  ghost predicate DirOf(ps: seq<Path>, d: Dir, i: nat) {
    i < |ps| && (d == Resolve(ps[i]) || d in Parents(ps[i]))
  }

  ghost predicate FileOf(ps: seq<Path>, d: Dir, i: nat) {
    i < |ps| && d in FilesOf(ps[i])
  }

  ghost predicate Holds(disk: Disk, ps: seq<Path>) {
    && (forall d :: d in disk.dirs <==> exists i :: DirOf(ps, d, i))
    && (forall d :: d in disk.files <==> exists i :: FileOf(ps, d, i))
  }

  lemma {:induction false} MakeAllIff(there: Dir -> bool, ps: seq<Path>)
    ensures MakeAll(there, ps).Some? <==> NoneTaken(there, ps)
    ensures MakeAll(there, ps).Some? ==> Holds(MakeAll(there, ps).value, ps)
    decreases |ps|
  {
    hide Resolve, Parents, FilesOf, Holds, NoneTaken;
    if ps == [] {
      NothingHeld(there);
    } else {
      var n := |ps| - 1;
      MakeAllIff(there, ps[..n]);
      TakenSnoc(there, ps);
      if MakeAll(there, ps[..n]).Some? {
        HeldSnoc(MakeAll(there, ps[..n]).value, ps);
      }
    }
  }

  lemma NothingHeld(there: Dir -> bool)
    ensures NoneTaken(there, []) && Holds(Disk({}, {}), [])
  {
    hide Resolve, Parents, FilesOf;
  }

  /** One more directory clashes with none before it exactly if the disk has room for it. */
  lemma {:induction false} HeldSnoc(disk: Disk, ps: seq<Path>)
    requires ps != [] && Holds(disk, ps[..|ps| - 1])
    ensures var n, p := |ps| - 1, ps[|ps| - 1];
            && ((forall i :: 0 <= i < n ==> !Clash(ps[i], p)) <==> Resolve(p) !in disk.dirs && disk.files !! Parents(p) + {Resolve(p)})
            && Holds(Disk(disk.dirs + Parents(p) + {Resolve(p)}, disk.files + FilesOf(p)), ps)
  {
    hide Resolve, Parents, FilesOf;
    var n, p, front := |ps| - 1, ps[|ps| - 1], ps[..|ps| - 1];
    forall d, i: nat
      ensures i < n ==> (DirOf(ps, d, i) <==> DirOf(front, d, i)) && (FileOf(ps, d, i) <==> FileOf(front, d, i))
    {
    }
    forall i | 0 <= i < n && Clash(ps[i], p)
      ensures Resolve(p) in disk.dirs || !(disk.files !! Parents(p) + {Resolve(p)})
    {
      if DirOf(front, Resolve(p), i) {
      } else {
        var x :| x in FilesOf(ps[i]) && x in Parents(p) + {Resolve(p)};
        assert FileOf(front, x, i);
      }
    }
    if Resolve(p) in disk.dirs {
      var i: nat :| DirOf(front, Resolve(p), i);
      assert Clash(ps[i], p);
    }
    if x :| x in disk.files && x in Parents(p) + {Resolve(p)} {
      var i: nat :| FileOf(front, x, i);
      assert Clash(ps[i], p);
    }
    HeldAfter(disk, ps);
  }

  lemma {:induction false} HeldAfter(disk: Disk, ps: seq<Path>)
    requires ps != [] && Holds(disk, ps[..|ps| - 1])
    ensures var p := ps[|ps| - 1]; Holds(Disk(disk.dirs + Parents(p) + {Resolve(p)}, disk.files + FilesOf(p)), ps)
  {
    hide Resolve, Parents, FilesOf;
    var n, p, front := |ps| - 1, ps[|ps| - 1], ps[..|ps| - 1];
    forall d ensures (exists i :: DirOf(ps, d, i)) <==> d in disk.dirs + Parents(p) + {Resolve(p)} {
      if i: nat :| DirOf(ps, d, i) {
        assert i < n ==> DirOf(front, d, i);
      }
      if d in disk.dirs {
        var i: nat :| DirOf(front, d, i);
        assert DirOf(ps, d, i);
      } else if d in Parents(p) + {Resolve(p)} {
        assert DirOf(ps, d, n);
      }
    }
    forall d ensures (exists i :: FileOf(ps, d, i)) <==> d in disk.files + FilesOf(p) {
      if i: nat :| FileOf(ps, d, i) {
        assert i < n ==> FileOf(front, d, i);
      }
      if d in disk.files {
        var i: nat :| FileOf(front, d, i);
        assert FileOf(ps, d, i);
      } else if d in FilesOf(p) {
        assert FileOf(ps, d, n);
      }
    }
  }

  lemma TakenSnoc(there: Dir -> bool, ps: seq<Path>)
    requires ps != []
    ensures var n := |ps| - 1;
            NoneTaken(there, ps) <==>
            && NoneTaken(there, ps[..n])
            && !there(Resolve(ps[n])) && Resolve(ps[n]) !in Parents(ps[n])
            && forall i :: 0 <= i < n ==> !Clash(ps[i], ps[n])
  {
    hide Resolve, Parents, Clash;
    var n := |ps| - 1;
    assert forall i :: 0 <= i < n ==> ps[..n][i] == ps[i];
  }

  /** What the loop has appended when it ends is accepted. */
  lemma {:induction false} FinishedIsAccepted(m: Metadata, there: Dir -> bool, wall: Key -> int)
    requires m.trials >= 1 && |m.schedule| == m.trials && forall t :: 0 <= t < |m.schedule| ==> ValidBlock(m.schedule[t])
    requires Finishes(m.workloads, m.schedule, there, wall)
    ensures Accepted(m, Plan(m.workloads, m.schedule, wall))
  {
    hide ValidBlock, Accepted, RunsOf, Components, Distinct;
    RunsAcceptedIff(m, wall);
    if !Distinct(AllComponents(m.workloads)) {
      NotDistinct(m.workloads, m.schedule, there, wall);
    }
  }

  lemma {:induction false} NotDistinct(workloads: seq<string>, schedule: seq<Block>, there: Dir -> bool, wall: Key -> int)
    requires !Distinct(AllComponents(workloads))
    ensures MakeAll(there, Paths(Plan(workloads, schedule, wall))).None?
  {
    hide Components, RunsOf, Resolve, Parents, FilesOf;
    var paths, runs := AllComponents(workloads), Plan(workloads, schedule, wall);
    var i, j :| 0 <= i < j < |paths| && paths[i] == paths[j];
    CollisionRejected(workloads, i, j, schedule, wall);
    MakeAllIff(there, Paths(runs));
    var a, b :| 0 <= a < b < |runs| && runs[a].directory == runs[b].directory;
    assert Paths(runs)[a] == Paths(runs)[b] && Clash(Paths(runs)[a], Paths(runs)[b]);
  }
}
