/** The bounds on restart commands and skip reports are attained: one run issues seven commands and reports
    eight refusals before the breaker is open. */
module WatchdogWitness {
  import opened Options
  import opened Watchdog
  import opened WatchdogBreakers
  import Log = LogClassifier

  /** What the run has to keep track of. */
  datatype Mark = Mark(failures: nat, restarts: nat, settleUntil: int, nextAllowed: int, broken: bool,
                       marker: Option<SkipReason>, commands: nat, skips: nat)

  function MarkAfter(m: Mark, t: int, ok: bool): Mark {
    if m.broken || t < m.settleUntil || t < m.nextAllowed then
      var reason := if m.broken then CircuitBroken else if t < m.settleUntil then Settle else InBackoff;
      if m.marker == Some(reason) then m else m.(marker := Some(reason), skips := m.skips + 1)
    else if ok then
      Mark(0, m.restarts + 1, t + POST_RESTART_SETTLE, 0, m.restarts + 1 >= INERT_RESTART_LIMIT, None,
           m.commands + 1, m.skips)
    else
      Mark(m.failures + 1, m.restarts + 1, t + POST_RESTART_SETTLE, t + Backoff(m.failures + 1),
           m.failures + 1 >= MAX_CONSECUTIVE_FAILURES, m.marker, m.commands + 1, m.skips)
  }

  function Poll(t: int, ok: bool): Input {
    StalePoll(60_000, [], false, false, false, ok, Clock(t, t, t, t, t, t, t))
  }

  predicate Shows(w: World, m: Mark) {
    && w.saved.failures == m.failures && w.saved.restarts == m.restarts
    && w.saved.settleUntil == m.settleUntil && w.saved.nextAllowed == m.nextAllowed
    && w.saved.broken == m.broken && w.saved.skipMarker == m.marker
    && EpisodeOf(w.history).restarts == m.commands && EpisodeOf(w.history).skips == m.skips
    && (EpisodeOf(w.history).flag == Unused || EpisodeOf(w.history).flag == Always(false))
  }

  /** No rollback can hit: crash edges come only from an engine seen alive. */
  predicate Quiet(w: World) {
    !w.mem.rollback && w.mem.startedAt == 0 && (w.mem.engineAlive ==> w.mem.strikes == [])
  }

  lemma TryShows(w: World, m: Mark, t: int, ok: bool)
    requires Shows(w, m)
    ensures Shows(TryRestart(w, Poll(t, ok)), MarkAfter(m, t, ok))
  {
    var w1 := w.Did(GateChecked(t, false));
    assert EpisodeOf(w1.history) == Next(EpisodeOf(w.history), w1.history.last);
    var o := RestartOutcome(w.saved, ok);
    var w2 := w1.(saved := AfterRestart(w.saved, ok, t)).Did(Restart(t, o));
    assert EpisodeOf(w2.history) == Next(EpisodeOf(w1.history), w2.history.last);
    AlertIsNoRestart(w2, o.Key(), t);
  }

  lemma NoTailsNoOutage()
    ensures !Log.IsOutage([], Log.DEFAULTS)
  {
  }

  lemma PollIsCrash(w: World, t: int, ok: bool)
    requires Quiet(w) && t >= GRACE_PERIOD
    ensures Step(w, Poll(t, ok)).0 == CrashPath(w, Poll(t, ok)).0
  {
    NoTailsNoOutage();
  }

  lemma CrashShows(w: World, m: Mark, t: int, ok: bool)
    requires Shows(w, m)
    ensures Shows(BeforeJudging(w, Poll(t, ok)), MarkAfter(m, t, ok))
  {
    var i := Poll(t, ok);
    var w1 := CountCrash(w, i.at);
    assert EpisodeOf(w1.history) == EpisodeOf(w.history);
    TryShows(w1, m, t, ok);
    var w2 := TryRestart(w1, i);
    var w3 := if w.mem.engineAlive then w2.Did(CrashSeen(t)) else w2;
    assert EpisodeOf(w3.history) == EpisodeOf(w2.history);
    NotifyAndRepingAreNoRestarts(w3, i.age, i.at);
  }

  lemma StagesKeepMemory(w: World, t: int, ok: bool)
    ensures BeforeJudging(w, Poll(t, ok)).mem == CountCrash(w, Poll(t, ok).at).mem
  {
  }

  lemma PollShows(w: World, m: Mark, t: int, ok: bool)
    requires Quiet(w) && Shows(w, m) && t >= GRACE_PERIOD
    ensures Quiet(Step(w, Poll(t, ok)).0) && Shows(Step(w, Poll(t, ok)).0, MarkAfter(m, t, ok))
  {
    PollIsCrash(w, t, ok);
    CrashShows(w, m, t, ok);
    StagesKeepMemory(w, t, ok);
    JudgingKeeps(BeforeJudging(w, Poll(t, ok)), MarkAfter(m, t, ok), w.mem.engineAlive, t);
  }

  lemma JudgingKeeps(w: World, m: Mark, wasAlive: bool, t: int)
    requires Shows(w, m) && !w.mem.rollback && w.mem.startedAt == 0 && !w.mem.engineAlive
    requires wasAlive ==> w.mem.strikes == [t]
    ensures Shows(JudgeStrikes(w, wasAlive, t).0, m) && Quiet(JudgeStrikes(w, wasAlive, t).0)
  {
    assert [t][..0] == [] && After([], t - STRIKE_WINDOW) == [];
    assert After([t], t - STRIKE_WINDOW) == [t];
  }

  ghost predicate At(inputs: seq<Input>, m: Mark, t: int) {
    && Clocked(0, inputs) && EndOf(0, inputs) <= t
    && Quiet(Run(Initial(0), inputs)) && Shows(Run(Initial(0), inputs), m)
  }

  lemma Then(inputs: seq<Input>, m: Mark, t: int, later: int, ok: bool) returns (more: seq<Input>)
    requires At(inputs, m, t) && GRACE_PERIOD <= later && t <= later
    ensures At(more, MarkAfter(m, later, ok), later)
  {
    var i := Poll(later, ok);
    more := inputs + [i];
    assert more[..|more| - 1] == inputs;
    PollShows(Run(Initial(0), inputs), m, later, ok);
    ClockedSnoc(0, inputs, i);
  }

  /** Two successful commands that do not bring the engine back, each followed by a refusal to hurry. */
  lemma Opening() returns (inputs: seq<Input>)
    ensures At(inputs, Mark(0, 2, 300_000, 0, false, Some(Settle), 2, 2), 210_001)
  {
    Beginning();
    inputs := Then([], Mark(0, 0, 0, 0, false, None, 0, 0), 0, 120_000, true);
    inputs := Then(inputs, Mark(0, 1, 210_000, 0, false, None, 1, 0), 120_000, 120_001, true);
    inputs := Then(inputs, Mark(0, 1, 210_000, 0, false, Some(Settle), 1, 1), 120_001, 210_000, true);
    inputs := Then(inputs, Mark(0, 2, 300_000, 0, false, None, 2, 1), 210_000, 210_001, true);
  }

  lemma Beginning()
    ensures At([], Mark(0, 0, 0, 0, false, None, 0, 0), 0)
  {
    var w := Initial(0);
    assert EpisodeOf(w.history) == Next(EpisodeOf(Empty), Started(0));
    assert Shows(w, Mark(0, 0, 0, 0, false, None, 0, 0)) && Quiet(w);
    assert Run(w, []) == w;
  }

  /** Three failures in a row. */
  lemma ThreeFailures(before: seq<Input>) returns (inputs: seq<Input>)
    requires At(before, Mark(0, 2, 300_000, 0, false, Some(Settle), 2, 2), 210_001)
    ensures At(inputs, Mark(3, 5, 600_000, 810_000, false, Some(InBackoff), 5, 3), 510_000)
  {
    inputs := Then(before, Mark(0, 2, 300_000, 0, false, Some(Settle), 2, 2), 210_001, 300_000, false);
    inputs := Then(inputs, Mark(1, 3, 390_000, 360_000, false, Some(Settle), 3, 2), 300_000, 390_000, false);
    inputs := Then(inputs, Mark(2, 4, 480_000, 510_000, false, Some(Settle), 4, 2), 390_000, 480_000, false);
    inputs := Then(inputs, Mark(2, 4, 480_000, 510_000, false, Some(InBackoff), 4, 3), 480_000, 510_000, false);
  }

  lemma FourthFailure(before: seq<Input>) returns (inputs: seq<Input>)
    requires At(before, Mark(3, 5, 600_000, 810_000, false, Some(InBackoff), 5, 3), 510_000)
    ensures At(inputs, Mark(4, 6, 900_000, 1_410_000, false, Some(InBackoff), 6, 5), 810_000)
  {
    inputs := Then(before, Mark(3, 5, 600_000, 810_000, false, Some(InBackoff), 5, 3), 510_000, 510_001, false);
    inputs := Then(inputs, Mark(3, 5, 600_000, 810_000, false, Some(Settle), 5, 4), 510_001, 600_000, false);
    inputs := Then(inputs, Mark(3, 5, 600_000, 810_000, false, Some(InBackoff), 5, 5), 600_000, 810_000, false);
  }

  lemma FifthFailure(before: seq<Input>) returns (inputs: seq<Input>)
    requires At(before, Mark(4, 6, 900_000, 1_410_000, false, Some(InBackoff), 6, 5), 810_000)
    ensures At(inputs, Mark(5, 7, 1_500_000, 5_010_000, true, Some(CircuitBroken), 7, 8), 1_410_001)
  {
    inputs := Then(before, Mark(4, 6, 900_000, 1_410_000, false, Some(InBackoff), 6, 5), 810_000, 810_001, false);
    inputs := Then(inputs, Mark(4, 6, 900_000, 1_410_000, false, Some(Settle), 6, 6), 810_001, 900_000, false);
    inputs := Then(inputs, Mark(4, 6, 900_000, 1_410_000, false, Some(InBackoff), 6, 7), 900_000, 1_410_000, false);
    inputs := Then(inputs, Mark(5, 7, 1_500_000, 5_010_000, true, Some(InBackoff), 7, 7), 1_410_000, 1_410_001, false);
  }

  /** The run that opens the breaker at last. */
  lemma BreakerRun() returns (inputs: seq<Input>)
    ensures Clocked(0, inputs) && EndOf(0, inputs) <= 1_410_001
    ensures var w := Run(Initial(0), inputs); var ep := EpisodeOf(w.history);
      ep.restarts == 7 && ep.skips == 8 && ep.flag != Mixed && w.saved.broken
  {
    inputs := Opening();
    inputs := ThreeFailures(inputs);
    inputs := FourthFailure(inputs);
    inputs := FifthFailure(inputs);
  }

  /** Seven commands and eight reports: the bounds cannot be lowered. */
  lemma BoundsAreAttained() returns (inputs: seq<Input>)
    ensures Clocked(0, inputs)
    ensures var ep := EpisodeOf(Run(Initial(0), inputs).history);
      ep.restarts == 7 && ep.skips == 8 && ep.flag != Mixed
  {
    inputs := BreakerRun();
  }
}
