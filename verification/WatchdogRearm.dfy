/** When a fresh snapshot re-arms the restart state and sends the all-clear, and when it does not. */
module WatchdogRearm {
  import opened Options
  import opened Watchdog
  import Counting = WatchdogCounting
  import Witness = WatchdogWitness
  import Breakers = WatchdogBreakers

  /** No restart, skip or alert is remembered: what a recovery is meant to leave. */
  predicate Cleared(s: Saved) { s == NO_STATE }

  /** The watchdog was started again while the engine was down: it takes the engine for alive, so the fresh
      snapshot that follows changes nothing that is persisted and sends nothing. */
  lemma RestartHidesRecovery(w: World, at: int, i: Input)
    requires i.FreshPoll?
    ensures var w1 := Step(w, ProcessRestart(at)).0;
      var w2 := Step(w1, i).0;
      w2.saved == w.saved && w2.history == Then(Then(w.history, Started(at)), StreakReset(i.recovered))
  {
  }

  /** The last thing a history records is the all-clear and the re-arm. */
  predicate EndsWithAllClear(h: History) {
    h.Then? && h.last.Recovered? && h.past.Then? && h.past.last.UpAlert?
  }

  /** A fresh poll leaves a cleared state exactly when it was cleared before or this process saw the engine go
      down; it tells exactly when the process did and an alert was out. */
  lemma FreshRearmsExactly(w: World, i: Input)
    requires i.FreshPoll?
    ensures Cleared(OnFresh(w, i).saved) <==> Cleared(w.saved) || !w.mem.engineAlive
    ensures EndsWithAllClear(OnFresh(w, i).history) <==> !w.mem.engineAlive && w.saved.alertKey.Some?
  {
    var w1 := w.Did(StreakReset(i.recovered));
    if !w.mem.engineAlive {
      var h3 := if w.saved.notified then Then(w1.history, Resolved(i.resolved)) else w1.history;
      var h4 := if w.saved.alertKey.Some? then Then(h3, UpAlert(i.told)) else h3;
      assert OnFresh(w, i).history == Then(h4, Recovered(i.recovered));
    }
  }

  /** This process saw more down edges than recoveries. */
  predicate SawItGoDown(h: History) {
    var l := Counting.LifeOf(h);
    |l.crashes| + l.outages > l.recoveries
  }

  /** Over every run, read off the history: the next fresh snapshot re-arms everything if and only if nothing is
      remembered or this watchdog process itself saw the engine go down, and sends the all-clear if and only if
      it did and an alert was out. */
  lemma RearmsExactly(start: int, inputs: seq<Input>, i: Input)
    requires Clocked(start, inputs) && i.FreshPoll? && !Run(Initial(start), inputs).mem.rollback
    ensures var w := Run(Initial(start), inputs);
      && (Cleared(Step(w, i).0.saved) <==> Cleared(w.saved) || SawItGoDown(w.history))
      && (EndsWithAllClear(Step(w, i).0.history) <==> SawItGoDown(w.history) && w.saved.alertKey.Some?)
  {
    Counting.RunCounts(start, inputs);
    FreshRearmsExactly(Run(Initial(start), inputs), i);
  }

  // ----- Without a restart of the watchdog -----

  predicate AliveMeansCleared(w: World) { w.mem.engineAlive ==> Cleared(w.saved) }

  lemma CrashPathIsDown(w: World, i: Input)
    requires i.StalePoll?
    ensures !CrashPath(w, i).0.mem.engineAlive
  {
    Counting.StagesCount(w, i);
  }

  lemma StepKeepsCleared(w: World, i: Input)
    requires AliveMeansCleared(w) && !i.ProcessRestart?
    ensures AliveMeansCleared(Step(w, i).0)
  {
    if i.FreshPoll? {
      FreshRearmsExactly(w, i);
    } else if Judge(w, i).Crashed? {
      CrashPathIsDown(w, i);
    }
  }

  /** As long as the watchdog itself is not started again, an engine taken for alive has nothing remembered about
      it: every recovery re-arms completely. */
  lemma {:induction false} AliveIsCleared(start: int, inputs: seq<Input>)
    requires forall i <- inputs :: !i.ProcessRestart?
    ensures AliveMeansCleared(Run(Initial(start), inputs))
  {
    if inputs != [] {
      var n := |inputs| - 1;
      assert inputs[n] in inputs;
      AliveIsCleared(start, inputs[..n]);
      StepKeepsCleared(Run(Initial(start), inputs[..n]), inputs[n]);
    }
  }

  // ----- A run that is not re-armed -----

  /** The breaker opens and is announced, the watchdog is started again, the engine is back: the breaker is still
      open, nothing was re-armed, and the next crash will not be answered by a restart. */
  lemma BreakerOutlivesRecovery() returns (inputs: seq<Input>)
    ensures Clocked(0, inputs) && inputs != [] && inputs[|inputs| - 1].FreshPoll?
    ensures var w := Run(Initial(0), inputs);
      && w.mem.engineAlive && w.saved.broken && Breakers.EpisodeOf(w.history).restarts == 7
      && forall maintenance, gate :: RestartGate(w.saved, maintenance, gate).Some?
  {
    var before := Witness.BreakerRun();
    var restart, poll := ProcessRestart(2_000_000), FreshPoll(2_000_001, 2_000_001, 2_000_001);
    inputs := before + [restart] + [poll];
    ClockedSnoc(0, before, restart);
    ClockedSnoc(0, before + [restart], poll);
    RunSnoc(Initial(0), before, restart);
    RunSnoc(Initial(0), before + [restart], poll);
    HiddenKeepsBreaker(Run(Initial(0), before), 2_000_000, poll);
  }

  lemma HiddenKeepsBreaker(w: World, at: int, i: Input)
    requires i.FreshPoll? && w.saved.broken
    ensures var w2 := Step(Step(w, ProcessRestart(at)).0, i).0;
      && w2.mem.engineAlive && w2.saved.broken
      && Breakers.EpisodeOf(w2.history) == Breakers.EpisodeOf(w.history)
      && forall maintenance, gate :: RestartGate(w2.saved, maintenance, gate).Some?
  {
    RestartHidesRecovery(w, at, i);
    assert Breakers.EpisodeOf(Then(w.history, Started(at))) == Breakers.EpisodeOf(w.history);
  }
}
