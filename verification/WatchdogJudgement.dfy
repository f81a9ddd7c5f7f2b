/** What a stale poll is put down to, over every run: network outages never restart, a live engine is spared as
    long as the limits allow, and everything else goes through the restart gate. */
module WatchdogJudgement {
  import opened Options
  import opened Watchdog
  import Log = LogClassifier
  import Counting = WatchdogCounting

  /** How often the restart gate was consulted. */
  function Gates(h: History): nat {
    match h
    case Empty => 0
    case Then(past, e) => Gates(past) + if e.GateChecked? then 1 else 0
  }

  /** The process is past its grace period and has not rolled back. */
  predicate Watching(w: World, i: Input)
    requires i.StalePoll?
  {
    !w.mem.rollback && i.at.check - w.mem.startedAt >= 120_000
  }

  /** The engine answers, and neither limit of the current suppression streak is reached. */
  predicate Spared(h: History, i: Input)
    requires i.StalePoll?
  {
    var streak := Counting.StreakOf(h);
    && i.crosscheck && i.probeAlive && streak.polls < 150
    && (streak.first.Some? ==> i.at.probe - streak.first.value < 600_000)
  }

  lemma TryChecksGate(w: World, i: Input)
    requires i.StalePoll?
    ensures Gates(TryRestart(w, i).history) == Gates(w.history) + 1
  {
    var w1 := w.Did(GateChecked(i.at.gate, i.maintenance));
    assert Gates(w1.history) == Gates(w.history) + 1;
    if RestartGate(w.saved, i.maintenance, i.at.gate).None? {
      var o := RestartOutcome(w.saved, i.exitOk);
      var w2 := w1.(saved := AfterRestart(w.saved, i.exitOk, i.at.restart)).Did(Restart(i.at.restart, o));
      assert Gates(w2.history) == Gates(w1.history);
    }
  }

  lemma ReportsCheckNoGate(w: World, age: int, at: Clock)
    ensures Gates(MaybeReping(MaybeNotifyOnly(w, age, at.notify), at.gate).history) == Gates(w.history)
  {
    var w1 := MaybeNotifyOnly(w, age, at.notify);
    assert Gates(SendDownAlert(w, EngineDead, at.notify).history) == Gates(w.history);
    assert Gates(w1.history) == Gates(w.history);
  }

  lemma CrashPathChecksGate(w: World, i: Input)
    requires i.StalePoll?
    ensures Gates(CrashPath(w, i).0.history) == Gates(w.history) + 1
  {
    var w1 := CountCrash(w, i.at);
    assert Gates(w1.history) == Gates(w.history);
    TryChecksGate(w1, i);
    assert Gates(BeforeNotify(w, i).history) == Gates(TryRestart(w1, i).history);
    ReportsCheckNoGate(BeforeNotify(w, i), i.age, i.at);
    JudgingIsLocal(w, i);
  }

  lemma HoldChecksNoGate(w: World, cycles: nat, at: int)
    ensures Gates(HoldRestart(w, cycles, at).history) == Gates(w.history)
  {
    var first := if w.mem.holdSince.None? then at else w.mem.holdSince.value;
    assert Gates(Then(w.history, StallSeen(first))) == Gates(w.history);
  }

  /** The four ways a stale poll can go. */
  lemma PollGoes(w: World, i: Input)
    requires i.StalePoll? && Counting.HoldInv(w.mem, Counting.StreakOf(w.history))
    ensures !Watching(w, i) ==> Step(w, i) == (w, Nothing)
    ensures Watching(w, i) && Log.IsOutage(i.tails, Log.DEFAULTS) ==> Step(w, i) == (NoteOutage(w, i.at.probe), Outage)
    ensures Watching(w, i) && !Log.IsOutage(i.tails, Log.DEFAULTS) && Spared(w.history, i) ==>
      Step(w, i) == (HoldRestart(w, w.mem.holdCycles + 1, i.at.probe), Held)
    ensures Watching(w, i) && !Log.IsOutage(i.tails, Log.DEFAULTS) && !Spared(w.history, i) ==>
      Step(w, i) == CrashPath(w, i)
  {
  }

  /** A network outage never restarts, on any poll: for every stale poll after every run, whatever is known about
      the engine and whatever the probe says, the action is Outage if and only if the logs show one, and then
      nothing persisted changes and at most the outage is noted, exactly when the engine was taken for alive. */
  lemma OutageNeverRestarts(start: int, inputs: seq<Input>, i: Input)
    requires i.StalePoll? && Watching(Run(Initial(start), inputs), i)
    ensures var w := Run(Initial(start), inputs);
      var (w', action) := Step(w, i);
      && (action == Outage <==> Log.IsOutage(i.tails, Log.DEFAULTS))
      && (action == Outage ==>
            && w'.saved == w.saved && !w'.mem.engineAlive
            && w'.history == if w.mem.engineAlive then Then(w.history, OutageSeen(i.at.probe)) else w.history)
  {
    Counting.VetoIsBounded(start, inputs);
    PollGoes(Run(Initial(start), inputs), i);
  }

  /** A live engine is spared: for every stale poll after every run that is no outage, the restart is held off if
      and only if the cross-check is on, the probe is alive, fewer than 150 polls of the current streak were
      held off, and its first one is less than 600 s ago. */
  lemma LiveEngineIsSpared(start: int, inputs: seq<Input>, i: Input)
    requires i.StalePoll? && Watching(Run(Initial(start), inputs), i) && !Log.IsOutage(i.tails, Log.DEFAULTS)
    ensures var w := Run(Initial(start), inputs);
      var (w', action) := Step(w, i);
      && (action == Held <==> Spared(w.history, i))
      && (action == Held ==>
            && w'.saved == w.saved && Gates(w'.history) == Gates(w.history)
            && Counting.StreakOf(w'.history).polls == Counting.StreakOf(w.history).polls + 1)
  {
    Counting.VetoIsBounded(start, inputs);
    var w := Run(Initial(start), inputs);
    PollGoes(w, i);
    if Spared(w.history, i) {
      HoldChecksNoGate(w, w.mem.holdCycles + 1, i.at.probe);
      Counting.HoldExtendsStreak(w, w.mem.holdCycles + 1, i.at.probe);
    }
  }

  /** The restart gate is consulted exactly when it should be: for every stale poll after every run, if and only if
      the process is watching, the logs show no outage and the engine is not spared; once, and then the poll
      is a crash. In the grace period and after a rollback a stale poll does nothing. */
  lemma GateIsConsultedExactly(start: int, inputs: seq<Input>, i: Input)
    requires i.StalePoll?
    ensures var w := Run(Initial(start), inputs);
      var (w', action) := Step(w, i);
      var crash := Watching(w, i) && !Log.IsOutage(i.tails, Log.DEFAULTS) && !Spared(w.history, i);
      && Gates(w'.history) == Gates(w.history) + (if crash then 1 else 0)
      && (crash <==> action == Fallback || action == Rollback)
      && (!Watching(w, i) ==> w' == w && action == Nothing)
  {
    Counting.VetoIsBounded(start, inputs);
    var w := Run(Initial(start), inputs);
    PollGoes(w, i);
    CrashPathChecksGate(w, i);
    HoldChecksNoGate(w, w.mem.holdCycles + 1, i.at.probe);
    OutageChecksNoGate(w, i.at.probe);
  }

  lemma OutageChecksNoGate(w: World, at: int)
    ensures Gates(NoteOutage(w, at).history) == Gates(w.history)
  {
  }
}
