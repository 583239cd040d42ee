/**
  The pass and phase loops of the reducer, for an arbitrary deterministic crash oracle.

  The functions give the meaning of the loops that `Reducer` runs.
 */
module Reduction {
  import opened Clif
  import opened Mutators

  const MaxPasses := 100
  const MaxTries := 10000

  /** A phase ends, or breaks at the function that it had come to. */
  datatype PhaseEnd = PhaseEnd(func: Func, shrank: bool) | PhaseBroken(fault: Fault, at: Func)

  /** One phase: at most `tries` mutations, each kept exactly if the function still crashes. */
  function RunPhase(crash: Func -> bool, m: Mutator, f: Func, tries: nat): PhaseEnd
    decreases tries
  {
    if tries == 0 then PhaseEnd(f, false)
    else
      var s := Mutate(m, f);
      match s.outcome
      case Done => PhaseEnd(f, false)
      case Faulted(e) => PhaseBroken(e, f)
      case Mutated(g, status) =>
        if status == Skip || !crash(g) then RunPhase(crash, s.next, f, tries - 1)
        else match DidCrash(s.next)
          case Err(e) => PhaseBroken(e, g)
          case Ok(m') =>
            match RunPhase(crash, m', g, tries - 1)
            case PhaseBroken(e, at) => PhaseBroken(e, at)
            case PhaseEnd(h, shrank) => PhaseEnd(h, shrank || status == ExpandedOrShrinked)
  }

  /** The phases of one pass from `phase` on. */
  function RunPass(crash: Func -> bool, f: Func, phase: nat): PhaseEnd
    requires phase <= 8
    decreases 8 - phase
  {
    if phase == 8 then PhaseEnd(f, false)
    else match NewMutator(phase, f)
      case Err(e) => PhaseBroken(e, f)
      case Ok(m) =>
        match RunPhase(crash, m, f, MaxTries)
        case PhaseBroken(e, at) => PhaseBroken(e, at)
        case PhaseEnd(g, shrank) =>
          match RunPass(crash, g, phase + 1)
          case PhaseBroken(e, at) => PhaseBroken(e, at)
          case PhaseEnd(h, more) => PhaseEnd(h, shrank || more)
  }

  /** `settled`: the last pass, which started from `start`, kept nothing that changes the size. */
  datatype Passes = Passes(func: Func, start: Func, settled: bool) | PassesBroken(fault: Fault, at: Func)

  function RunPasses(crash: Func -> bool, f: Func, passes: nat): Passes
    decreases passes
  {
    if passes == 0 then Passes(f, f, false)
    else match RunPass(crash, f, 0)
      case PhaseBroken(e, at) => PassesBroken(e, at)
      case PhaseEnd(g, shrank) =>
        if !shrank then Passes(g, f, true)
        else if passes == 1 then Passes(g, f, false)
        else RunPasses(crash, g, passes - 1)
  }

  function TryResolveAliases(crash: Func -> bool, f: Func): Fallible<Func> {
    if !AliasFree(f.aliases) then Err(AliasLoop)
    else
      var g := ResolveAllAliases(f);
      Ok(if crash(g) then g else f)
  }

  function TryRemoveSrclocs(crash: Func -> bool, f: Func): Func {
    var g := f.(srclocs := map[]);
    if crash(g) then g else f
  }

  /** `StoppedCrashing` is the arm marked unreachable. */
  datatype Reduced =
    | NotCrashing
    | Result(func: Func, start: Func, settled: bool)
    | StoppedCrashing
    | ReduceBroken(fault: Fault, at: Func)

  function Reduce(crash: Func -> bool, f: Func): Reduced {
    if !crash(f) then NotCrashing
    else match TryResolveAliases(crash, f)
      case Err(e) => ReduceBroken(e, f)
      case Ok(f1) =>
        match RunPasses(crash, TryRemoveSrclocs(crash, f1), MaxPasses)
        case PassesBroken(e, at) => ReduceBroken(e, at)
        case Passes(g, start, settled) =>
          match TryResolveAliases(crash, g)
          case Err(e) => ReduceBroken(e, g)
          case Ok(h) => if crash(h) then Result(h, start, settled) else StoppedCrashing
  }
}
