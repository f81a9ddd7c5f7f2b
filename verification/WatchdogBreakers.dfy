/** Restart commands over whole runs: how many, how far apart, and how often a refusal is reported. */
module WatchdogBreakers {
  import opened Options
  import opened Watchdog

  // ----- Reading the history since the restart state was last re-armed -----

  /** The maintenance flag as the restart gate saw it. */
  datatype FlagUse = Unused | Always(flag: bool) | Mixed
  {
    function Seen(now: bool): FlagUse {
      if Unused? then Always(now) else if this == Always(now) then this else Mixed
    }
  }

  datatype Command = Command(at: int, outcome: Outcome)

  /** The current episode: restart commands issued since the last re-arm, whether each kept its
      distance from the one before, when the current chain of failures began, and the RESTART_SKIPPED
      reports (in all, and since the last command). */
  datatype Episode = Episode(restarts: nat, last: Option<Command>, paced: bool, chainStart: int,
                             flag: FlagUse, skips: nat, gapSkips: nat)

  /** The shortest allowed distance to the next restart command after one that ended with `o`. */
  function MinGap(o: Outcome): int {
    if o.Failed? && Backoff(o.failures) > POST_RESTART_SETTLE then Backoff(o.failures) else POST_RESTART_SETTLE
  }

  /** A command may follow `prev` if no breaker opened there and enough time has passed. */
  predicate MayFollow(prev: Option<Command>, at: int) {
    prev.Some? ==> !prev.value.outcome.Trips() && at >= prev.value.at + MinGap(prev.value.outcome)
  }

  function Next(ep: Episode, e: Event): Episode {
    match e
    case Recovered(_) => Episode(0, None, ep.paced, 0, Unused, 0, 0)
    case Restart(at, o) =>
      ep.(restarts := ep.restarts + 1, last := Some(Command(at, o)),
          paced := ep.paced && MayFollow(ep.last, at),
          chainStart := if ep.last.Some? && ep.last.value.outcome.FailuresAfter() > 0 then ep.chainStart else at,
          gapSkips := 0)
    case GateChecked(_, flag) => ep.(flag := ep.flag.Seen(flag))
    case RestartSkipped(_, _) => ep.(skips := ep.skips + 1, gapSkips := ep.gapSkips + 1)
    case _ => ep
  }

  function EpisodeOf(h: History): Episode {
    match h
    case Empty => Episode(0, None, true, 0, Unused, 0, 0)
    case Then(past, e) => Next(EpisodeOf(past), e)
  }

  // ----- The breaker invariant -----

  /** What the persisted restart state says about the last restart command. */
  ghost predicate Recorded(s: Saved, last: Option<Command>, t: int) {
    match last
    case None =>
      s.restarts == 0 && s.failures == 0 && !s.broken && s.settleUntil == 0 && s.nextAllowed == 0
    case Some(c) =>
      && s.restarts >= 1 && c.at <= t
      && s.failures == c.outcome.FailuresAfter()
      && (c.outcome.BrokeByFailures? ==> s.failures == MAX_CONSECUTIVE_FAILURES)
      && s.broken == c.outcome.Trips()
      && s.settleUntil == c.at + POST_RESTART_SETTLE
      && s.nextAllowed == (if s.failures == 0 then 0 else c.at + Backoff(s.failures))
  }

  /** The least time a chain of `n` consecutive failures can take, first command to last. */
  function ChainSpan(n: nat): int {
    if n <= 1 then 0 else ChainSpan(n - 1) + MinGap(Failed(n - 1))
  }

  ghost predicate BreakerInv(s: Saved, ep: Episode, t: int) {
    && 0 <= t && ep.paced
    && (s.failures > 0 ==> ep.last.Some? && ep.last.value.at - ep.chainStart >= ChainSpan(s.failures))
    && s.restarts == ep.restarts <= 7 && s.failures <= s.restarts
    && (!s.broken ==> s.failures <= 4 && (s.restarts >= 3 ==> s.failures >= s.restarts - 2))
    && Recorded(s, ep.last, t)
  }

  lemma RestartKeepsBreakers(s: Saved, ep: Episode, t: int, exitOk: bool, gate: int, at: int)
    requires BreakerInv(s, ep, t) && t <= gate <= at && RestartGate(s, false, gate) == None
    ensures BreakerInv(AfterRestart(s, exitOk, at), Next(ep, Restart(at, RestartOutcome(s, exitOk))), at)
  {
  }

  // ----- RESTART_SKIPPED reports -----

  function Base(s: Saved): int { if s.restarts - s.failures > 1 then s.restarts - s.failures else 1 }

  /** How many skips each stage of an episode can have reported while the flag stays off. */
  ghost predicate SkipsBounded(s: Saved, all: int, gap: int, t: int) {
    var m := s.skipMarker;
    && s.restarts >= 1
    && (s.broken ==> gap <= 1 && all - gap <= 7 && (gap == 1 ==> m == Some(CircuitBroken)))
    && (!s.broken ==>
          && gap <= 2
          && (gap >= 1 ==> m == Some(Settle) || m == Some(InBackoff))
          && (gap == 2 ==> m == Some(InBackoff))
          && (gap >= 1 && m == Some(InBackoff) ==> t >= s.settleUntil)
          && (s.failures == 0 ==> all - gap <= s.restarts - 1 && m != Some(InBackoff) && (gap == 0 ==> m == None))
          && (s.failures == 1 ==> m != Some(InBackoff))
          && (s.failures == 1 || (s.failures == 2 && m != Some(InBackoff)) ==>
                all + (if m == Some(Settle) then 0 else 1) <= Base(s))
          && (s.failures == 2 && m == Some(InBackoff) ==> all <= Base(s) + 1 && t >= s.settleUntil)
          && (s.failures == 3 ==> all - gap <= Base(s) + 1)
          && (s.failures == 4 ==> all - gap <= Base(s) + 3))
  }

  ghost predicate SkipInv(s: Saved, ep: Episode, t: int) {
    && BreakerInv(s, ep, t)
    && match ep.flag
       case Unused => s.restarts == 0 && ep.skips == 0 && ep.gapSkips == 0 && s.skipMarker == None
       case Always(true) => s.restarts == 0 && ep.skips == ep.gapSkips == 1 && s.skipMarker == Some(Maintenance)
       case Always(false) => SkipsBounded(s, ep.skips, ep.gapSkips, t)
       case Mixed => true
  }

  lemma RestartKeepsSkips(s: Saved, ep: Episode, t: int, exitOk: bool, gate: int, at: int)
    requires SkipInv(s, ep, t) && t <= gate <= at && RestartGate(s, false, gate) == None
    ensures SkipInv(AfterRestart(s, exitOk, at),
                    Next(Next(ep, GateChecked(gate, false)), Restart(at, RestartOutcome(s, exitOk))), at)
  {
    RestartKeepsBreakers(s, Next(ep, GateChecked(gate, false)), t, exitOk, gate, at);
  }

  lemma SkipKeepsSkips(s: Saved, ep: Episode, t: int, flag: bool, gate: int, reason: SkipReason)
    requires SkipInv(s, ep, t) && t <= gate && RestartGate(s, flag, gate) == Some(reason)
    ensures var ep1 := Next(ep, GateChecked(gate, flag));
      SkipInv(s.(skipMarker := Some(reason)),
              if s.skipMarker == Some(reason) then ep1 else Next(ep1, RestartSkipped(gate, reason)), gate)
  {
  }

  // ----- From the restart state to the whole world -----

  ghost predicate Inv(w: World, t: int) {
    SkipInv(w.saved, EpisodeOf(w.history), t)
  }

  /** The parts of a world that restarts depend on. */
  ghost predicate SameRestarts(a: World, b: World) {
    && EpisodeOf(a.history) == EpisodeOf(b.history)
    && a.saved.(alertKey := None, alertedAt := None, downSince := None, notified := false)
       == b.saved.(alertKey := None, alertedAt := None, downSince := None, notified := false)
  }

  lemma SameKeeps(a: World, b: World, t: int, later: int)
    requires Inv(a, t) && SameRestarts(a, b) && t <= later
    ensures Inv(b, later)
  {
  }

  lemma SkippedKeeps(w: World, i: Input, t: int, reason: SkipReason)
    requires Inv(w, t) && i.StalePoll? && i.InOrder() && t <= i.at.gate
    requires RestartGate(w.saved, i.maintenance, i.at.gate) == Some(reason)
    ensures Inv(TryRestart(w, i), i.at.gate)
  {
    SkipKeepsSkips(w.saved, EpisodeOf(w.history), t, i.maintenance, i.at.gate, reason);
    var w1 := w.Did(GateChecked(i.at.gate, i.maintenance));
    assert EpisodeOf(w1.history) == Next(EpisodeOf(w.history), w1.history.last);
  }

  lemma RestartedKeeps(w: World, i: Input, t: int)
    requires Inv(w, t) && i.StalePoll? && i.InOrder() && t <= i.at.gate
    requires RestartGate(w.saved, i.maintenance, i.at.gate) == None
    ensures Inv(TryRestart(w, i), i.at.restart)
  {
    RestartKeepsSkips(w.saved, EpisodeOf(w.history), t, i.exitOk, i.at.gate, i.at.restart);
    var w1 := w.Did(GateChecked(i.at.gate, i.maintenance));
    var w2 := w1.(saved := AfterRestart(w.saved, i.exitOk, i.at.restart))
                .Did(Restart(i.at.restart, RestartOutcome(w.saved, i.exitOk)));
    assert EpisodeOf(w2.history)
        == Next(Next(EpisodeOf(w.history), GateChecked(i.at.gate, false)), w2.history.last);
    AlertIsNoRestart(w2, RestartOutcome(w.saved, i.exitOk).Key(), i.at.restart);
    SameKeeps(w2, TryRestart(w, i), i.at.restart, i.at.restart);
  }

  lemma AlertIsNoRestart(w: World, key: AlertKey, at: int)
    ensures SameRestarts(w, SendDownAlert(w, key, at))
  {
  }

  lemma CrashPathKeeps(w: World, i: Input, t: int)
    requires Inv(w, t) && i.StalePoll? && i.InOrder() && t <= i.at.check
    ensures Inv(CrashPath(w, i).0, i.at.prune)
  {
    GatedKeeps(w, i, t);
    var w3, w5 := BeforeNotify(w, i), BeforeJudging(w, i);
    NotifyAndRepingAreNoRestarts(w3, i.age, i.at);
    SameKeeps(w3, w5, i.at.restart, i.at.prune);
    JudgingIsLocal(w, i);
  }

  lemma GatedKeeps(w: World, i: Input, t: int)
    requires Inv(w, t) && i.StalePoll? && i.InOrder() && t <= i.at.check
    ensures Inv(BeforeNotify(w, i), i.at.restart)
  {
    var w1 := CountCrash(w, i.at);
    SameKeeps(w, w1, t, t);
    var w2 := TryRestart(w1, i);
    match RestartGate(w.saved, i.maintenance, i.at.gate) {
      case Some(reason) => SkippedKeeps(w1, i, t, reason); SameKeeps(w2, w2, i.at.gate, i.at.restart);
      case None => RestartedKeeps(w1, i, t);
    }
    NoticeIsNoRestart(w2, i.at.crash);
    SameKeeps(w2, BeforeNotify(w, i), i.at.restart, i.at.restart);
  }

  lemma NotifyAndRepingAreNoRestarts(w: World, age: int, at: Clock)
    ensures SameRestarts(w, MaybeReping(MaybeNotifyOnly(w, age, at.notify), at.gate))
  {
    var w1 := MaybeNotifyOnly(w, age, at.notify);
    AlertIsNoRestart(w, EngineDead, at.notify);
    assert SameRestarts(w, w1);
  }

  lemma HoldIsNoRestart(w: World, cycles: nat, at: int)
    ensures SameRestarts(w, HoldRestart(w, cycles, at))
  {
    var first := if w.mem.holdSince.None? then at else w.mem.holdSince.value;
    assert EpisodeOf(Then(w.history, StallSeen(first))) == EpisodeOf(w.history);
  }

  lemma FreshKeeps(w: World, i: Input, t: int)
    requires Inv(w, t) && i.FreshPoll? && i.InOrder() && t <= i.recovered
    ensures Inv(OnFresh(w, i), i.told)
  {
    var w1 := w.Did(StreakReset(i.recovered));
    assert EpisodeOf(w1.history) == EpisodeOf(w.history);
    var w3 := if w.saved.notified then w1.Did(Resolved(i.resolved)) else w1;
    assert EpisodeOf(w3.history) == EpisodeOf(w.history);
    var w4 := if w.saved.alertKey.Some? then w3.Did(UpAlert(i.told)) else w3;
    assert EpisodeOf(w4.history) == EpisodeOf(w.history);
    if !w.mem.engineAlive {
      assert OnFresh(w, i).history == Then(w4.history, Recovered(i.recovered));
    }
  }

  lemma StepKeeps(w: World, i: Input, t: int)
    requires Inv(w, t) && i.InOrder() && t <= i.Begins()
    ensures Inv(Step(w, i).0, i.Ends())
  {
    match i
    case ProcessRestart(at) => SameKeeps(w, Step(w, i).0, t, at);
    case FreshPoll(_, _, _) => FreshKeeps(w, i, t);
    case StalePoll(_, _, _, _, _, _, at) =>
      match Judge(w, i)
      case Ignored => SameKeeps(w, w, t, at.prune);
      case NetworkDown => SameKeeps(w, NoteOutage(w, at.probe), t, at.prune);
      case StillAlive(cycles) =>
        HoldIsNoRestart(w, cycles, at.probe);
        SameKeeps(w, HoldRestart(w, cycles, at.probe), t, at.prune);
      case Crashed => CrashPathKeeps(w, i, t);
  }

  // ----- Whole runs -----

  lemma {:induction false} RunKeeps(start: int, inputs: seq<Input>)
    requires Clocked(start, inputs)
    ensures Inv(Run(Initial(start), inputs), EndOf(start, inputs))
  {
    if inputs != [] {
      var before, i := inputs[..|inputs| - 1], inputs[|inputs| - 1];
      ClockedSplit(start, inputs, |inputs| - 1);
      RunKeeps(start, before);
      StepKeeps(Run(Initial(start), before), i, EndOf(start, before));
    } else {
      assert EpisodeOf(Empty).paced;
    }
  }

  /** Two breakers, one bound: between re-arms at most INERT_RESTART_LIMIT - 1 + MAX_CONSECUTIVE_FAILURES
      restart commands are issued, whatever they return and however many polls there are. */
  lemma AtMostSevenRestarts(start: int, inputs: seq<Input>)
    requires Clocked(start, inputs)
    ensures EpisodeOf(Run(Initial(start), inputs).history).restarts
         <= INERT_RESTART_LIMIT - 1 + MAX_CONSECUTIVE_FAILURES
  {
    RunKeeps(start, inputs);
  }

  /** No command follows an opened breaker, and commands keep the settle window and the backoff apart. */
  lemma RestartsArePaced(start: int, inputs: seq<Input>)
    requires Clocked(start, inputs)
    ensures EpisodeOf(Run(Initial(start), inputs).history).paced
  {
    RunKeeps(start, inputs);
  }

  /** The exit-code breaker opens only after five failures in a row that took at least 1110 seconds. */
  lemma FailureBreakerTakesTime(start: int, inputs: seq<Input>)
    requires Clocked(start, inputs)
    ensures var ep := EpisodeOf(Run(Initial(start), inputs).history);
      ep.last.Some? && ep.last.value.outcome.BrokeByFailures? ==>
        && ep.last.value.outcome.failures == MAX_CONSECUTIVE_FAILURES
        && ep.last.value.at - ep.chainStart >= 1_110_000
  {
    RunKeeps(start, inputs);
    assert ChainSpan(3) == ChainSpan(2) + 120_000 && ChainSpan(2) == 90_000;
    assert ChainSpan(5) == 1_110_000;
  }

  /** While the maintenance flag does not change: at most two reports between two commands, eight in all. */
  lemma SkipReportsAreFew(start: int, inputs: seq<Input>)
    requires Clocked(start, inputs)
    ensures var ep := EpisodeOf(Run(Initial(start), inputs).history);
      ep.flag != Mixed ==> ep.gapSkips <= 2 && ep.skips <= 8
  {
    RunKeeps(start, inputs);
  }

  lemma GateAllowsExactly(s: Saved, last: Option<Command>, t: int, flag: bool, gate: int)
    requires Recorded(s, last, t) && 0 <= t <= gate
    ensures RestartGate(s, flag, gate).None? <==> !flag && MayFollow(last, gate)
  {
  }

  lemma GatedRestarts(w: World, i: Input)
    requires i.StalePoll?
    ensures EpisodeOf(TryRestart(w, i).history).restarts == EpisodeOf(w.history).restarts
              + if RestartGate(w.saved, i.maintenance, i.at.gate).None? then 1 else 0
  {
    var w1 := w.Did(GateChecked(i.at.gate, i.maintenance));
    assert EpisodeOf(w1.history) == Next(EpisodeOf(w.history), w1.history.last);
    var o := RestartOutcome(w.saved, i.exitOk);
    var w2 := w1.(saved := AfterRestart(w.saved, i.exitOk, i.at.restart)).Did(Restart(i.at.restart, o));
    assert EpisodeOf(w2.history) == Next(EpisodeOf(w1.history), w2.history.last);
    AlertIsNoRestart(w2, o.Key(), i.at.restart);
  }

  /** A restart that is due is issued, on any poll and not only on the edge: a poll put down to a crash
      issues a command if and only if no maintenance is on, no breaker is open, and the settle window and
      the backoff since the last command are over. */
  lemma RestartsExactlyWhenDue(start: int, inputs: seq<Input>, i: Input)
    requires Clocked(start, inputs) && EndOf(start, inputs) <= i.Begins() && i.InOrder()
    requires i.StalePoll? && Judge(Run(Initial(start), inputs), i).Crashed?
    ensures var w := Run(Initial(start), inputs);
      EpisodeOf(Step(w, i).0.history).restarts == EpisodeOf(w.history).restarts
        + if !i.maintenance && MayFollow(EpisodeOf(w.history).last, i.at.gate) then 1 else 0
  {
    RunKeeps(start, inputs);
    var w := Run(Initial(start), inputs);
    GateAllowsExactly(w.saved, EpisodeOf(w.history).last, EndOf(start, inputs), i.maintenance, i.at.gate);
    StagesRestart(w, i);
    JudgingIsLocal(w, i);
  }

  lemma StagesRestart(w: World, i: Input)
    requires i.StalePoll?
    ensures EpisodeOf(BeforeJudging(w, i).history).restarts == EpisodeOf(w.history).restarts
              + if RestartGate(w.saved, i.maintenance, i.at.gate).None? then 1 else 0
  {
    var w1 := CountCrash(w, i.at);
    assert EpisodeOf(w1.history) == EpisodeOf(w.history);
    GatedRestarts(w1, i);
    NoticeIsNoRestart(TryRestart(w1, i), i.at.crash);
    NotifyAndRepingAreNoRestarts(BeforeNotify(w, i), i.age, i.at);
  }

  lemma NoticeIsNoRestart(w: World, at: int)
    ensures SameRestarts(w, w.Did(CrashSeen(at)))
  {
  }
}
