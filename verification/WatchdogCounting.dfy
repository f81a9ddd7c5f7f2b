/** Crash counting, the strike window and the liveness veto, over whole runs. */
module WatchdogCounting {
  import opened Options
  import opened Watchdog

  // ----- Counting is conserved and the strike window is exact -----

  /** What the current watchdog process has seen: crash edges, outages and recoveries. */
  datatype Life = Life(crashes: seq<int>, outages: nat, recoveries: nat)

  function NextLife(l: Life, e: Event): Life {
    match e
    case Started(_) => Life([], 0, 0)
    case CrashSeen(at) => l.(crashes := l.crashes + [at])
    case OutageSeen(_) => l.(outages := l.outages + 1)
    case Recovered(_) => l.(recoveries := l.recoveries + 1)
    case _ => l
  }

  function LifeOf(h: History): Life {
    match h
    case Empty => Life([], 0, 0)
    case Then(past, e) => NextLife(LifeOf(past), e)
  }

  ghost predicate Pruned(strikes: seq<int>, crashes: seq<int>, t: int) {
    exists cut :: cut <= t - STRIKE_WINDOW && strikes == After(crashes, cut)
  }

  ghost predicate CountInv(m: Memory, l: Life, t: int) {
    && m.totalCrashes == |l.crashes|
    && m.totalOutages == l.outages
    && m.totalCrashes + m.totalOutages == l.recoveries + (if m.engineAlive then 0 else 1)
    && Pruned(m.strikes, l.crashes, t)
  }

  lemma {:induction false} AfterTwice(times: seq<int>, a: int, b: int)
    requires a <= b
    ensures After(After(times, a), b) == After(times, b)
  {
    if times != [] {
      var init, last := times[..|times| - 1], times[|times| - 1];
      AfterTwice(init, a, b);
      var kept := After(init, a);
      if last > a { assert (kept + [last])[..|kept|] == kept; } else { assert kept + [] == kept; }
      assert After(init, b) + [] == After(init, b);
    }
  }

  lemma AfterSnoc(times: seq<int>, last: int, cut: int)
    ensures After(times + [last], cut) == After(times, cut) + if last > cut then [last] else []
  {
    assert (times + [last])[..|times + [last]| - 1] == times;
  }

  /** Pruning as the run goes keeps the same strikes as filtering the whole history at the end. */
  lemma PruningIsExact(strikes: seq<int>, crashes: seq<int>, t: int, edge: int, prune: int)
    requires Pruned(strikes, crashes, t) && t <= edge <= prune
    ensures After(strikes + [edge], prune - STRIKE_WINDOW) == After(crashes + [edge], prune - STRIKE_WINDOW)
  {
    var cut :| cut <= t - STRIKE_WINDOW && strikes == After(crashes, cut);
    AfterTwice(crashes, cut, prune - STRIKE_WINDOW);
    AfterSnoc(strikes, edge, prune - STRIKE_WINDOW);
    AfterSnoc(crashes, edge, prune - STRIKE_WINDOW);
  }

  lemma TryRestartIsNoCount(w: World, i: Input)
    requires i.StalePoll?
    ensures TryRestart(w, i).mem == w.mem && LifeOf(TryRestart(w, i).history) == LifeOf(w.history)
  {
    var w1 := w.Did(GateChecked(i.at.gate, i.maintenance));
    assert LifeOf(w1.history) == LifeOf(w.history);
    if RestartGate(w.saved, i.maintenance, i.at.gate).None? {
      var o := RestartOutcome(w.saved, i.exitOk);
      var w2 := w1.(saved := AfterRestart(w.saved, i.exitOk, i.at.restart)).Did(Restart(i.at.restart, o));
      assert LifeOf(w2.history) == LifeOf(w1.history);
    }
  }

  lemma AlertsAreNoCount(w: World, age: int, at: Clock)
    ensures var w' := MaybeReping(MaybeNotifyOnly(w, age, at.notify), at.gate);
      w'.mem == w.mem && LifeOf(w'.history) == LifeOf(w.history)
  {
    var w1 := MaybeNotifyOnly(w, age, at.notify);
    assert LifeOf(SendDownAlert(w, EngineDead, at.notify).history) == LifeOf(w.history);
    assert LifeOf(w1.history) == LifeOf(w.history);
  }

  /** The crash path counts an edge once, and rolls back exactly when three crash edges of this
      process's whole history lie in the last hour. */
  lemma CrashPathCounts(w: World, i: Input, t: int)
    requires CountInv(w.mem, LifeOf(w.history), t) && i.StalePoll? && i.InOrder() && t <= i.at.check
    ensures var (w', action) := CrashPath(w, i);
      && CountInv(w'.mem, LifeOf(w'.history), i.at.prune)
      && LifeOf(w'.history).crashes
         == LifeOf(w.history).crashes + (if w.mem.engineAlive then [i.at.crash] else [])
      && (action == Rollback <==>
            w.mem.engineAlive && |After(LifeOf(w'.history).crashes, i.at.prune - STRIKE_WINDOW)| >= MAX_STRIKES)
  {
    StagesCount(w, i);
    JudgingIsLocal(w, i);
    if w.mem.engineAlive {
      EdgeCounts(w.mem, LifeOf(w.history), i.at, t);
    } else {
      assert Pruned(w.mem.strikes, LifeOf(w.history).crashes, i.at.prune);
    }
  }

  /** At a crash edge the strikes that are kept are those of the full history. */
  lemma EdgeCounts(m: Memory, l: Life, at: Clock, t: int)
    requires CountInv(m, l, t) && t <= at.crash <= at.prune
    ensures var cutoff := at.prune - STRIKE_WINDOW;
      && After(m.strikes + [at.crash], cutoff) == After(l.crashes + [at.crash], cutoff)
      && Pruned(After(m.strikes + [at.crash], cutoff), l.crashes + [at.crash], at.prune)
  {
    PruningIsExact(m.strikes, l.crashes, t, at.crash, at.prune);
  }

  lemma StagesCount(w: World, i: Input)
    requires i.StalePoll?
    ensures var w5 := BeforeJudging(w, i);
      && w5.mem == CountCrash(w, i.at).mem
      && LifeOf(w5.history)
         == if w.mem.engineAlive then NextLife(LifeOf(w.history), CrashSeen(i.at.crash)) else LifeOf(w.history)
  {
    var w1 := CountCrash(w, i.at);
    assert LifeOf(w1.history) == LifeOf(w.history);
    TryRestartIsNoCount(w1, i);
    var w2 := TryRestart(w1, i);
    var w3 := if w.mem.engineAlive then w2.Did(CrashSeen(i.at.crash)) else w2;
    AlertsAreNoCount(w3, i.age, i.at);
  }

  lemma StepCounts(w: World, i: Input, t: int)
    requires CountInv(w.mem, LifeOf(w.history), t) && i.InOrder() && t <= i.Begins()
    ensures var w' := Step(w, i).0; CountInv(w'.mem, LifeOf(w'.history), i.Ends())
  {
    var l := LifeOf(w.history);
    assert Pruned(w.mem.strikes, l.crashes, i.Ends());
    match i
    case ProcessRestart(at) => assert After([], at - STRIKE_WINDOW) == [];
    case FreshPoll(_, _, _) => FreshCounts(w, i);
    case StalePoll(_, _, _, _, _, _, at) =>
      match Judge(w, i)
      case Ignored =>
      case NetworkDown =>
      case StillAlive(cycles) => HoldIsNoCount(w, cycles, at.probe);
      case Crashed => CrashPathCounts(w, i, t);
  }

  lemma HoldIsNoCount(w: World, cycles: nat, at: int)
    ensures LifeOf(HoldRestart(w, cycles, at).history) == LifeOf(w.history)
  {
    var first := if w.mem.holdSince.None? then at else w.mem.holdSince.value;
    assert LifeOf(Then(w.history, StallSeen(first))) == LifeOf(w.history);
  }

  lemma FreshCounts(w: World, i: Input)
    requires i.FreshPoll?
    ensures LifeOf(OnFresh(w, i).history)
         == if w.mem.engineAlive then LifeOf(w.history) else NextLife(LifeOf(w.history), Recovered(i.recovered))
  {
    var l := LifeOf(w.history);
    var w1 := w.Did(StreakReset(i.recovered));
    assert LifeOf(w1.history) == l;
    var h3 := if w.saved.notified then Then(w1.history, Resolved(i.resolved)) else w1.history;
    assert LifeOf(h3) == l;
    var h4 := if w.saved.alertKey.Some? then Then(h3, UpAlert(i.told)) else h3;
    assert LifeOf(h4) == l;
    if !w.mem.engineAlive { assert OnFresh(w, i).history == Then(h4, Recovered(i.recovered)); }
  }

  lemma {:induction false} RunCounts(start: int, inputs: seq<Input>)
    requires Clocked(start, inputs)
    ensures var w := Run(Initial(start), inputs); CountInv(w.mem, LifeOf(w.history), EndOf(start, inputs))
  {
    if inputs == [] {
      assert After([], start - STRIKE_WINDOW) == [];
    } else {
      var before, i := inputs[..|inputs| - 1], inputs[|inputs| - 1];
      ClockedSplit(start, inputs, |inputs| - 1);
      RunCounts(start, before);
      StepCounts(Run(Initial(start), before), i, EndOf(start, before));
    }
  }

  /** Every crash or outage counted is one that recovered, or the one the engine is still in. */
  lemma CountingIsConserved(start: int, inputs: seq<Input>)
    requires Clocked(start, inputs)
    ensures var w := Run(Initial(start), inputs);
      w.mem.totalCrashes + w.mem.totalOutages
      == LifeOf(w.history).recoveries + (if w.mem.engineAlive then 0 else 1)
  {
    RunCounts(start, inputs);
  }

  /** A poll returns "rollback" iff it is a crash edge and three crash edges lie in the last hour. */
  lemma RollbackIsExact(start: int, inputs: seq<Input>, i: Input)
    requires Clocked(start, inputs + [i]) && i.StalePoll?
    ensures var w := Run(Initial(start), inputs); var (w', action) := Step(w, i);
      action == Rollback <==>
        Judge(w, i) == Crashed && w.mem.engineAlive
        && |After(LifeOf(w'.history).crashes, i.at.prune - 3_600_000)| >= 3
  {
    ClockedSplit(start, inputs + [i], |inputs|);
    assert (inputs + [i])[..|inputs|] == inputs;
    RunCounts(start, inputs);
    var w := Run(Initial(start), inputs);
    if Judge(w, i) == Crashed { CrashPathCounts(w, i, EndOf(start, inputs)); }
  }

  // ----- The liveness veto -----

  /** The current suppression streak. */
  datatype Streak = Streak(polls: nat, first: Option<int>, announced: bool, sound: bool)

  function NextStreak(s: Streak, e: Event): Streak {
    match e
    case Started(_) => Streak(0, None, false, s.sound)
    case StreakReset(_) => Streak(0, None, false, s.sound)
    case StallSeen(_) => s.(announced := true, sound := s.sound && !s.announced && s.polls == 0)
    case Suppressed(at) =>
      var first := if s.first.None? then at else s.first.value;
      Streak(s.polls + 1, Some(first), s.announced,
             s.sound && s.announced && s.polls < MAX_HOLD_CYCLES && at - first < MAX_HOLD)
    case _ => s
  }

  function StreakOf(h: History): Streak {
    match h
    case Empty => Streak(0, None, false, true)
    case Then(past, e) => NextStreak(StreakOf(past), e)
  }

  ghost predicate HoldInv(m: Memory, s: Streak) {
    && s.sound && m.holdCycles == s.polls <= MAX_HOLD_CYCLES && m.holdSince == s.first
    && (s.first.None? <==> s.polls == 0) && (s.announced <==> s.polls > 0)
  }

  lemma TryRestartIsNoStreak(w: World, i: Input)
    requires i.StalePoll?
    ensures StreakOf(TryRestart(w, i).history) == StreakOf(w.history)
  {
    var w1 := w.Did(GateChecked(i.at.gate, i.maintenance));
    assert StreakOf(w1.history) == StreakOf(w.history);
    if RestartGate(w.saved, i.maintenance, i.at.gate).None? {
      var o := RestartOutcome(w.saved, i.exitOk);
      var w2 := w1.(saved := AfterRestart(w.saved, i.exitOk, i.at.restart)).Did(Restart(i.at.restart, o));
      assert StreakOf(w2.history) == StreakOf(w1.history);
    }
  }

  lemma CrashPathEndsStreak(w: World, i: Input)
    requires i.StalePoll?
    ensures StreakOf(CrashPath(w, i).0.history) == StreakOf(CountCrash(w, i.at).history)
  {
    var w1 := CountCrash(w, i.at);
    TryRestartIsNoStreak(w1, i);
    var w2 := TryRestart(w1, i);
    var w3 := if w.mem.engineAlive then w2.Did(CrashSeen(i.at.crash)) else w2;
    assert StreakOf(w3.history) == StreakOf(w2.history);
    var w4 := MaybeNotifyOnly(w3, i.age, i.at.notify);
    assert StreakOf(SendDownAlert(w3, EngineDead, i.at.notify).history) == StreakOf(w3.history);
    assert StreakOf(w4.history) == StreakOf(w3.history);
  }

  lemma FreshEndsStreak(w: World, i: Input)
    requires HoldInv(w.mem, StreakOf(w.history)) && i.FreshPoll?
    ensures HoldInv(OnFresh(w, i).mem, StreakOf(OnFresh(w, i).history))
  {
    var w1 := w.Did(StreakReset(i.recovered));
    var s := StreakOf(w1.history);
    var h3 := if w.saved.notified then Then(w1.history, Resolved(i.resolved)) else w1.history;
    assert StreakOf(h3) == s;
    var h4 := if w.saved.alertKey.Some? then Then(h3, UpAlert(i.told)) else h3;
    assert StreakOf(h4) == s;
    if !w.mem.engineAlive {
      assert OnFresh(w, i).history == Then(h4, Recovered(i.recovered));
    }
  }

  lemma HoldExtendsStreak(w: World, cycles: nat, at: int)
    requires HoldInv(w.mem, StreakOf(w.history))
    requires DecideHold(true, w.mem.holdCycles, w.mem.holdSince, at) == Hold(cycles)
    ensures HoldInv(HoldRestart(w, cycles, at).mem, StreakOf(HoldRestart(w, cycles, at).history))
  {
    var first := if w.mem.holdSince.None? then at else w.mem.holdSince.value;
    var h1 := if cycles == 1 then Then(w.history, StallSeen(first)) else w.history;
    assert StreakOf(h1).announced && StreakOf(h1).sound;
    assert HoldRestart(w, cycles, at).history == Then(h1, Suppressed(at));
  }

  lemma StepKeepsStreak(w: World, i: Input)
    requires HoldInv(w.mem, StreakOf(w.history))
    ensures var w' := Step(w, i).0; HoldInv(w'.mem, StreakOf(w'.history))
  {
    match i
    case ProcessRestart(at) =>
    case FreshPoll(_, _, _) => FreshEndsStreak(w, i);
    case StalePoll(_, _, _, _, _, _, at) =>
      match Judge(w, i)
      case Ignored =>
      case NetworkDown =>
      case StillAlive(cycles) => HoldExtendsStreak(w, cycles, at.probe);
      case Crashed => CrashKeepsStreak(w, i);
  }

  lemma CrashKeepsStreak(w: World, i: Input)
    requires i.StalePoll? && HoldInv(w.mem, StreakOf(w.history))
    ensures HoldInv(CrashPath(w, i).0.mem, StreakOf(CrashPath(w, i).0.history))
  {
    CrashPathEndsStreak(w, i);
    StagesCount(w, i);
  }

  /** The veto cannot starve recovery: between two resets at most 150 polls are suppressed, none of them
      600 s or more after the first, and each streak is announced exactly once, before its first poll. */
  lemma {:induction false} VetoIsBounded(start: int, inputs: seq<Input>)
    ensures var w := Run(Initial(start), inputs);
      HoldInv(w.mem, StreakOf(w.history)) && StreakOf(w.history).polls <= MAX_HOLD_CYCLES
  {
    if inputs == [] {
      assert StreakOf(Empty).sound;
    } else {
      var before := inputs[..|inputs| - 1];
      VetoIsBounded(start, before);
      StepKeepsStreak(Run(Initial(start), before), inputs[|inputs| - 1]);
    }
  }

  /** A suppressed poll answered the probe and leaves every count, strike and restart field alone;
      a network outage never touches the restart state either. */
  lemma SuppressionTouchesNothing(w: World, i: Input)
    ensures var (w', action) := Step(w, i);
      && (action == Held ==>
            && i.StalePoll? && i.probeAlive && i.crosscheck && w'.saved == w.saved
            && w'.mem == w.mem.(holdCycles := w'.mem.holdCycles, holdSince := w'.mem.holdSince))
      && (action == Outage ==> w'.saved == w.saved && w'.mem.strikes == w.mem.strikes)
      && (i.StalePoll? && !i.probeAlive ==> action != Held)
  {
  }
}
